/** `log_info` and `init_log`: one report line per run, appended to a log
    file that is created when missing and otherwise only ever extended. */
module Log {
  import opened Numbers
  import opened Wrappers
  import opened Text
  import opened Gpu
  import opened Processes
  import opened Matcher

  const DEFAULT_DELIMITER: string := ", "
  const DEGREE_SIGN: char := '\U{00B0}'

  const MEMORY_USAGE: string := " memory usage: "
  const MB: string := " MB"

  /** One `"{} memory usage: {} MB"` segment: the name as given, then
      " memory usage: ", then the figure in canonical decimal, then " MB". */
  function UsageSegment(name: string, mb: u64): (seg: string)
    ensures |seg| > |name| + |MEMORY_USAGE| + |MB|
    ensures seg[..|name|] == name
    ensures seg[|name|..|name| + |MEMORY_USAGE|] == MEMORY_USAGE
    ensures seg[|seg| - |MB|..] == MB
    ensures var figure := seg[|name| + |MEMORY_USAGE|..|seg| - |MB|];
      IsCanonicalDecimal(figure) && DecimalValue(figure) == mb
  {
    var figure := NatToString(mb);
    var seg := name + MEMORY_USAGE + figure + MB;
    assert seg[|name| + |MEMORY_USAGE|..|seg| - |MB|] == figure;
    seg
  }

  const BAR: string := " | "
  const UTILIZATION_LABEL: string := "Total utilization: "
  const MEMORY_LABEL: string := "Memory usage: "
  const TEMPERATURE_LABEL: string := "Temperature: "
  const CELSIUS: string := [DEGREE_SIGN, 'C']

  /** `format!("{} | ", now)`: the timestamp, then " | ". */
  function TimestampField(timestamp: string): (f: string)
    ensures |f| == |timestamp| + |BAR|
    ensures f[..|timestamp|] == timestamp && f[|timestamp|..] == BAR
  {
    var f := timestamp + BAR;
    assert f[|timestamp|..] == BAR;
    f
  }

  /** The device name, then the delimiter. */
  function NameField(gpu: GpuInfo, delimiter: string): (f: string)
    ensures |f| == |gpu.name| + |delimiter|
    ensures f[..|gpu.name|] == gpu.name && f[|gpu.name|..] == delimiter
  {
    var f := gpu.name + delimiter;
    assert f[|gpu.name|..] == delimiter;
    f
  }

  /** `"Total utilization: {}{}"`: the label, the utilization text as
      rendered by the snapshot, then the delimiter. */
  function UtilizationField(gpu: GpuInfo, delimiter: string): (f: string)
    ensures |f| == |UTILIZATION_LABEL| + |gpu.totalUtilization| + |delimiter|
    ensures f[..|UTILIZATION_LABEL|] == UTILIZATION_LABEL
    ensures f[|UTILIZATION_LABEL|..|f| - |delimiter|] == gpu.totalUtilization
    ensures f[|f| - |delimiter|..] == delimiter
  {
    var f := UTILIZATION_LABEL + gpu.totalUtilization + delimiter;
    assert f[|UTILIZATION_LABEL|..|f| - |delimiter|] == gpu.totalUtilization;
    assert f[|f| - |delimiter|..] == delimiter;
    f
  }

  /** `"Memory usage: {}/{} MB{}"`: the label, the used megabytes in
      canonical decimal, '/', the total megabytes in canonical decimal,
      " MB", then the delimiter. */
  function MemoryField(gpu: GpuInfo, delimiter: string): (f: string)
    ensures var slash := |MEMORY_LABEL| + |NatToString(gpu.memoryUsage.0)|;
      && |f| == slash + 1 + |NatToString(gpu.memoryUsage.1)| + |MB| + |delimiter|
      && f[..|MEMORY_LABEL|] == MEMORY_LABEL
      && IsCanonicalDecimal(f[|MEMORY_LABEL|..slash])
      && DecimalValue(f[|MEMORY_LABEL|..slash]) == gpu.memoryUsage.0
      && f[slash] == '/'
      && IsCanonicalDecimal(f[slash + 1..|f| - |MB| - |delimiter|])
      && DecimalValue(f[slash + 1..|f| - |MB| - |delimiter|]) == gpu.memoryUsage.1
      && f[|f| - |MB| - |delimiter|..|f| - |delimiter|] == MB
      && f[|f| - |delimiter|..] == delimiter
  {
    var used := NatToString(gpu.memoryUsage.0);
    var total := NatToString(gpu.memoryUsage.1);
    SplitSix(MEMORY_LABEL, used, "/", total, MB, delimiter);
    MEMORY_LABEL + used + "/" + total + MB + delimiter
  }

  /** The six pieces of a concatenation can be read back by position. */
  lemma SplitSix(a: string, b: string, c: string, d: string, e: string, g: string)
    ensures var s := a + b + c + d + e + g;
      && |s| == |a| + |b| + |c| + |d| + |e| + |g|
      && s[..|a|] == a
      && s[|a|..|a| + |b|] == b
      && s[|a| + |b|..|a| + |b| + |c|] == c
      && s[|a| + |b| + |c|..|s| - |e| - |g|] == d
      && s[|s| - |e| - |g|..|s| - |g|] == e
      && s[|s| - |g|..] == g
  {
    var s := a + b + c + d + e + g;
    assert s[..|a|] == a;
    assert s[|a|..|a| + |b|] == b;
    assert s[|a| + |b|..|a| + |b| + |c|] == c;
    assert s[|a| + |b| + |c|..|s| - |e| - |g|] == d;
    assert s[|s| - |e| - |g|..|s| - |g|] == e;
    assert s[|s| - |g|..] == g;
  }

  /** `"Temperature: {}°C{}"`: the label, the temperature in canonical
      decimal, "°C", then the delimiter. */
  function TemperatureField(gpu: GpuInfo, delimiter: string): (f: string)
    ensures |f| > |TEMPERATURE_LABEL| + |CELSIUS| + |delimiter|
    ensures f[..|TEMPERATURE_LABEL|] == TEMPERATURE_LABEL
    ensures var figure := f[|TEMPERATURE_LABEL|..|f| - |CELSIUS| - |delimiter|];
      IsCanonicalDecimal(figure) && DecimalValue(figure) == gpu.temperature
    ensures f[|f| - |CELSIUS| - |delimiter|..|f| - |delimiter|] == CELSIUS
    ensures f[|f| - |delimiter|..] == delimiter
  {
    var figure := NatToString(gpu.temperature);
    var f := TEMPERATURE_LABEL + figure + CELSIUS + delimiter;
    assert f[|TEMPERATURE_LABEL|..|f| - |CELSIUS| - |delimiter|] == figure;
    assert f[|f| - |CELSIUS| - |delimiter|..|f| - |delimiter|] == CELSIUS;
    assert f[|f| - |delimiter|..] == delimiter;
    f
  }

  /** Everything before the process part: "<timestamp> | ", then the device
      name, the total utilization, the memory figures and the temperature,
      each followed by the delimiter. */
  function Header(timestamp: string, gpu: GpuInfo, delimiter: string): (h: string)
    ensures |h| > |timestamp| + |BAR| + |gpu.name|
    ensures h[..|timestamp| + |BAR| + |gpu.name|] == timestamp + BAR + gpu.name
  {
    var k := |timestamp| + |BAR| + |gpu.name|;
    var front := TimestampField(timestamp) + NameField(gpu, delimiter);
    assert front[..k] == timestamp + BAR + gpu.name;
    var withUtilization := front + UtilizationField(gpu, delimiter);
    PrefixKept(front, UtilizationField(gpu, delimiter), k);
    var withMemory := withUtilization + MemoryField(gpu, delimiter);
    PrefixKept(withUtilization, MemoryField(gpu, delimiter), k);
    PrefixKept(withMemory, TemperatureField(gpu, delimiter), k);
    withMemory + TemperatureField(gpu, delimiter)
  }

  lemma PrefixKept(a: string, b: string, n: nat)
    requires n <= |a|
    ensures (a + b)[..n] == a[..n]
  {
  }

  /** The header is the five fields of `log_info` in order: the timestamp
      field, the name field, the utilization field, the memory field and the
      temperature field, each found at the position where the previous one
      ends. */
  lemma HeaderFields(timestamp: string, gpu: GpuInfo, delimiter: string)
    ensures var t, n, u, m, te := TimestampField(timestamp), NameField(gpu, delimiter),
        UtilizationField(gpu, delimiter), MemoryField(gpu, delimiter), TemperatureField(gpu, delimiter);
      var h := Header(timestamp, gpu, delimiter);
      && |h| == |t| + |n| + |u| + |m| + |te|
      && h[..|t|] == t
      && h[|t|..|t| + |n|] == n
      && h[|t| + |n|..|t| + |n| + |u|] == u
      && h[|t| + |n| + |u|..|h| - |te|] == m
      && h[|h| - |te|..] == te
  {
    SplitFive(TimestampField(timestamp), NameField(gpu, delimiter), UtilizationField(gpu, delimiter),
              MemoryField(gpu, delimiter), TemperatureField(gpu, delimiter));
  }

  /** The five pieces of a concatenation can be read back by position. */
  lemma SplitFive(t: string, n: string, u: string, m: string, te: string)
    ensures var h := t + n + u + m + te;
      && |h| == |t| + |n| + |u| + |m| + |te|
      && h[..|t|] == t
      && h[|t|..|t| + |n|] == n
      && h[|t| + |n|..|t| + |n| + |u|] == u
      && h[|t| + |n| + |u|..|h| - |te|] == m
      && h[|h| - |te|..] == te
  {
    var h := t + n + u + m + te;
    assert h[..|t|] == t;
    assert h[|t|..|t| + |n|] == n;
    assert h[|t| + |n|..|t| + |n| + |u|] == u;
    assert h[|t| + |n| + |u|..|h| - |te|] == m;
    assert h[|h| - |te|..] == te;
  }

  /** The segment for one workload when no target is given: its resolved
      name capitalized, and its megabyte figure. */
  function WorkloadSegment(table: ProcessTable, p: ProcessInfo): (seg: string)
    ensures var name := Capitalize(ProcessName(table, p.pid));
      && |seg| > |name| + |MEMORY_USAGE| + |MB|
      && seg[..|name|] == name
      && seg[|name|..|name| + |MEMORY_USAGE|] == MEMORY_USAGE
      && seg[|seg| - |MB|..] == MB
      && var figure := seg[|name| + |MEMORY_USAGE|..|seg| - |MB|];
         IsCanonicalDecimal(figure) && DecimalValue(figure) == ProcessMemoryMb(p.usedGpuMemory)
  {
    UsageSegment(Capitalize(ProcessName(table, p.pid)), ProcessMemoryMb(p.usedGpuMemory))
  }

  /** The workload segments in driver order, with nothing between them:
      empty for no workloads, and at least one full segment's worth of
      text per workload. */
  function WorkloadSegments(procs: seq<ProcessInfo>, table: ProcessTable): (r: string)
    ensures procs == [] <==> r == []
    ensures |r| >= (|MEMORY_USAGE| + |MB| + 1) * |procs|
  {
    if procs == [] then
      ""
    else
      MulSucc(|MEMORY_USAGE| + |MB| + 1, |procs| - 1);
      WorkloadSegments(procs[..|procs| - 1], table) + WorkloadSegment(table, procs[|procs| - 1])
  }

  /** One more factor adds the multiplicand once. */
  lemma MulSucc(a: nat, n: nat)
    ensures a * (n + 1) == a * n + a
  {
  }

  /** The process part: the target's segment (its name as given, not
      capitalized) when there is one, every workload's segment otherwise. */
  function ProcessPart(gpu: GpuInfo, table: ProcessTable, target: Option<SingleProcessInfo>): (part: string)
    ensures target.Some? ==> |part| > |target.value.name| + |MEMORY_USAGE| + |MB|
    ensures target.Some? ==> part[..|target.value.name|] == target.value.name
    ensures target.Some? ==>
      part[|target.value.name|..|target.value.name| + |MEMORY_USAGE|] == MEMORY_USAGE
    ensures target.Some? ==> part[|part| - |MB|..] == MB
    ensures target.Some? ==>
      var figure := part[|target.value.name| + |MEMORY_USAGE|..|part| - |MB|];
      IsCanonicalDecimal(figure) && DecimalValue(figure) == target.value.memoryUsage
    ensures target.None? ==> part == WorkloadSegments(gpu.graphicsProcesses, table)
    ensures target.None? ==> (part == [] <==> gpu.graphicsProcesses == [])
  {
    match target
    case Some(info) => UsageSegment(info.name, info.memoryUsage)
    case None => WorkloadSegments(gpu.graphicsProcesses, table)
  }

  /** The complete line `log_info` writes. */
  function LogLine(timestamp: string, gpu: GpuInfo, table: ProcessTable,
                   target: Option<SingleProcessInfo>, delimiter: string): (line: string)
    ensures var h := Header(timestamp, gpu, delimiter);
      && |line| == |h| + |ProcessPart(gpu, table, target)| + 1
      && line[..|h|] == h
      && line[|h|..|line| - 1] == ProcessPart(gpu, table, target)
      && line[|line| - 1] == '\n'
  {
    var h := Header(timestamp, gpu, delimiter);
    var part := ProcessPart(gpu, table, target);
    SplitThree(h, part, "\n");
    h + part + "\n"
  }

  /** The three pieces of a concatenation can be read back by position. */
  lemma SplitThree(a: string, b: string, c: string)
    ensures var s := a + b + c;
      && |s| == |a| + |b| + |c|
      && s[..|a|] == a
      && s[|a|..|s| - |c|] == b
      && s[|s| - |c|..] == c
  {
    var s := a + b + c;
    assert s[..|a|] == a;
    assert s[|a|..|s| - |c|] == b;
    assert s[|s| - |c|..] == c;
  }

  /** The inputs that are free text hold no line break (the numbers never
      do), so that the line ends the only line it starts. */
  predicate SingleLineInputs(timestamp: string, gpu: GpuInfo, table: ProcessTable,
                             target: Option<SingleProcessInfo>, delimiter: string)
  {
    && '\n' !in timestamp
    && '\n' !in gpu.name
    && '\n' !in gpu.totalUtilization
    && '\n' !in delimiter
    && match target
       case Some(info) => '\n' !in info.name
       case None => forall p :: p in gpu.graphicsProcesses ==> '\n' !in ProcessName(table, p.pid)
  }

  /** Building the line step by step as `log_info` does: the header fields
      one `push_str` at a time, then either the target's segment or a loop
      over the workloads, then the line break. */
  method BuildLogLine(timestamp: string, gpu: GpuInfo, table: ProcessTable,
                      target: Option<SingleProcessInfo>, delimiter: string)
    returns (log: string)
    ensures log == LogLine(timestamp, gpu, table, target, delimiter)
  {
    log := "";
    log := log + TimestampField(timestamp);
    log := log + NameField(gpu, delimiter);
    log := log + UtilizationField(gpu, delimiter);
    log := log + MemoryField(gpu, delimiter);
    log := log + TemperatureField(gpu, delimiter);
    ghost var header := log;
    HeaderIsFields(timestamp, gpu, delimiter);
    match target {
      case Some(info) =>
        log := log + UsageSegment(info.name, info.memoryUsage);
        assert log == header + ProcessPart(gpu, table, target);
      case None =>
        var procs := gpu.graphicsProcesses;
        var i := 0;
        while i < |procs|
          invariant 0 <= i <= |procs|
          invariant log == header + WorkloadSegments(procs[..i], table)
        {
          WorkloadSegmentsSnoc(procs, i, table);
          AppendAssoc(header, WorkloadSegments(procs[..i], table), WorkloadSegment(table, procs[i]));
          log := log + WorkloadSegment(table, procs[i]);
          i := i + 1;
        }
        assert procs[..|procs|] == procs;
        assert log == header + ProcessPart(gpu, table, target);
    }
    log := log + "\n";
    LogLineIsParts(timestamp, gpu, table, target, delimiter);
  }

  /** The header is its five fields, appended one after another. */
  lemma HeaderIsFields(timestamp: string, gpu: GpuInfo, delimiter: string)
    ensures Header(timestamp, gpu, delimiter)
      == "" + TimestampField(timestamp) + NameField(gpu, delimiter) + UtilizationField(gpu, delimiter)
         + MemoryField(gpu, delimiter) + TemperatureField(gpu, delimiter)
  {
    assert "" + TimestampField(timestamp) == TimestampField(timestamp);
  }

  /** The line is the header, the process part and the line break, appended
      one after another. */
  lemma LogLineIsParts(timestamp: string, gpu: GpuInfo, table: ProcessTable,
                       target: Option<SingleProcessInfo>, delimiter: string)
    ensures LogLine(timestamp, gpu, table, target, delimiter)
      == Header(timestamp, gpu, delimiter) + ProcessPart(gpu, table, target) + "\n"
  {
  }

  lemma WorkloadSegmentsSnoc(procs: seq<ProcessInfo>, i: nat, table: ProcessTable)
    requires i < |procs|
    ensures WorkloadSegments(procs[..i + 1], table) == WorkloadSegments(procs[..i], table) + WorkloadSegment(table, procs[i])
  {
    assert procs[..i + 1][..i] == procs[..i];
  }

  /** Regrouping a concatenation, stated on its own so that the solver does
      not compare the long texts it is applied to character by character. */
  lemma AppendAssoc(a: string, b: string, c: string)
    ensures (a + b) + c == a + (b + c)
  {
  }

  lemma NatToStringSingleLine(n: nat)
    ensures '\n' !in NatToString(n)
  {
  }

  lemma CapitalizeSingleLine(s: string)
    requires '\n' !in s
    ensures '\n' !in Capitalize(s)
  {
    CapitalizeKeepsNonLetters(s, '\n');
  }

  lemma UsageSegmentSingleLine(name: string, mb: u64)
    requires '\n' !in name
    ensures '\n' !in UsageSegment(name, mb)
  {
    NatToStringSingleLine(mb);
  }

  /** When the listed workloads' names hold no line break, neither do their
      segments. */
  lemma {:induction false} WorkloadSegmentsSingleLine(procs: seq<ProcessInfo>, table: ProcessTable)
    requires forall p :: p in procs ==> '\n' !in ProcessName(table, p.pid)
    ensures '\n' !in WorkloadSegments(procs, table)
  {
    if procs != [] {
      var init := procs[..|procs| - 1];
      var p := procs[|procs| - 1];
      assert forall q :: q in init ==> q in procs;
      WorkloadSegmentsSingleLine(init, table);
      CapitalizeSingleLine(ProcessName(table, p.pid));
      UsageSegmentSingleLine(Capitalize(ProcessName(table, p.pid)), ProcessMemoryMb(p.usedGpuMemory));
    }
  }

  /** The workload segments read front to back in driver order: the first
      workload's segment, immediately followed by those of the rest. */
  lemma {:induction false} WorkloadSegmentsCons(p: ProcessInfo, procs: seq<ProcessInfo>, table: ProcessTable)
    ensures WorkloadSegments([p] + procs, table) == WorkloadSegment(table, p) + WorkloadSegments(procs, table)
  {
    var all := [p] + procs;
    if procs != [] {
      var init := procs[..|procs| - 1];
      var last := procs[|procs| - 1];
      assert all[..|all| - 1] == [p] + init;
      assert all[|all| - 1] == last;
      WorkloadSegmentsCons(p, init, table);
      AppendAssoc(WorkloadSegment(table, p), WorkloadSegments(init, table), WorkloadSegment(table, last));
    } else {
      assert all[..|all| - 1] == [];
    }
  }

  lemma HeaderSingleLine(timestamp: string, gpu: GpuInfo, delimiter: string)
    requires '\n' !in timestamp && '\n' !in gpu.name && '\n' !in gpu.totalUtilization && '\n' !in delimiter
    ensures '\n' !in Header(timestamp, gpu, delimiter)
  {
    NatToStringSingleLine(gpu.memoryUsage.0);
    NatToStringSingleLine(gpu.memoryUsage.1);
    NatToStringSingleLine(gpu.temperature);
    var t, n, u, m, te := TimestampField(timestamp), NameField(gpu, delimiter),
      UtilizationField(gpu, delimiter), MemoryField(gpu, delimiter), TemperatureField(gpu, delimiter);
    assert '\n' !in m;
    assert '\n' !in te;
    assert Header(timestamp, gpu, delimiter) == t + n + u + m + te;
  }

  /** Text without a line break, followed by one, holds exactly one, at its
      end. */
  lemma TerminatedLine(text: string, line: string)
    requires '\n' !in text && line == text + "\n"
    ensures line[|line| - 1] == '\n' && '\n' !in line[..|line| - 1] && multiset(line)['\n'] == 1
  {
    assert multiset(text)['\n'] == 0;
    assert line[..|text|] == text;
  }

  lemma PartSingleLine(gpu: GpuInfo, table: ProcessTable, target: Option<SingleProcessInfo>)
    requires match target
       case Some(info) => '\n' !in info.name
       case None => forall p :: p in gpu.graphicsProcesses ==> '\n' !in ProcessName(table, p.pid)
    ensures '\n' !in ProcessPart(gpu, table, target)
  {
    match target {
      case Some(info) => UsageSegmentSingleLine(info.name, info.memoryUsage);
      case None => WorkloadSegmentsSingleLine(gpu.graphicsProcesses, table);
    }
  }

  lemma LineBodySingleLine(timestamp: string, gpu: GpuInfo, table: ProcessTable,
                           target: Option<SingleProcessInfo>, delimiter: string)
    requires SingleLineInputs(timestamp, gpu, table, target, delimiter)
    ensures '\n' !in Header(timestamp, gpu, delimiter) + ProcessPart(gpu, table, target)
  {
    HeaderSingleLine(timestamp, gpu, delimiter);
    PartSingleLine(gpu, table, target);
  }

  /** The line ends with a line break, the only one it holds when the
      free-text inputs hold none. */
  lemma LogLineIsOneLine(timestamp: string, gpu: GpuInfo, table: ProcessTable,
                         target: Option<SingleProcessInfo>, delimiter: string)
    requires SingleLineInputs(timestamp, gpu, table, target, delimiter)
    ensures var line := LogLine(timestamp, gpu, table, target, delimiter);
      && line[|line| - 1] == '\n'
      && '\n' !in line[..|line| - 1]
      && multiset(line)['\n'] == 1
  {
    LineBodySingleLine(timestamp, gpu, table, target, delimiter);
    TerminatedLine(Header(timestamp, gpu, delimiter) + ProcessPart(gpu, table, target),
                   LogLine(timestamp, gpu, table, target, delimiter));
  }

  /** Appending keeps the old text as a prefix and adds the appended text's
      line breaks to the count. */
  lemma Appended(before: string, data: string, after: string)
    requires after == before + data
    ensures after[..|before|] == before
    ensures multiset(after)['\n'] == multiset(before)['\n'] + multiset(data)['\n']
  {
  }

  /** The log file at the configured path: whether it exists, and its text. */
  class LogFile {
    var present: bool
    var content: string

    /** A file that does not exist has no content. */
    ghost predicate Valid()
      reads this
    {
      !present ==> content == []
    }

    constructor Missing()
      ensures Valid() && !present
    {
      present := false;
      content := [];
    }

    constructor Existing(text: string)
      ensures Valid() && present && content == text
    {
      present := true;
      content := text;
    }

    /** `init_log`: open an existing file for appending, or create it. Either
        way the file exists afterwards and nothing it held is lost. */
    method InitLog()
      requires Valid()
      modifies this
      ensures Valid() && present
      ensures content == old(content)
    {
      if !present {
        present := true;
        content := [];
      }
    }

    /** `write_all` on a handle opened for appending. */
    method WriteAll(data: string)
      requires Valid() && present
      modifies this`content
      ensures Valid()
      ensures content == old(content) + data
    {
      content := content + data;
    }

    /** `log_info`: open the file, build the report line, append it. What
        the file held is kept as a prefix, and it gains exactly one line
        break when the free-text inputs hold none. */
    method LogInfo(timestamp: string, gpu: GpuInfo, table: ProcessTable,
                   target: Option<SingleProcessInfo>, delimiter: string)
      requires Valid()
      modifies this
      ensures Valid() && present
      ensures content == old(content) + LogLine(timestamp, gpu, table, target, delimiter)
      ensures content[..|old(content)|] == old(content)
      ensures SingleLineInputs(timestamp, gpu, table, target, delimiter) ==>
        multiset(content)['\n'] == multiset(old(content))['\n'] + 1
    {
      InitLog();
      var log := BuildLogLine(timestamp, gpu, table, target, delimiter);
      WriteAll(log);
      Appended(old(content), log, content);
      if SingleLineInputs(timestamp, gpu, table, target, delimiter) {
        LogLineIsOneLine(timestamp, gpu, table, target, delimiter);
      }
    }
  }

  /** A first run against a log file that does not exist yet: the file is
      created and holds exactly the one line written. */
  method FirstRunCreatesLog(timestamp: string, gpu: GpuInfo, table: ProcessTable,
                            target: Option<SingleProcessInfo>, delimiter: string)
    returns (content: string)
    requires SingleLineInputs(timestamp, gpu, table, target, delimiter)
    ensures content == LogLine(timestamp, gpu, table, target, delimiter)
    ensures multiset(content)['\n'] == 1
  {
    var file := new LogFile.Missing();
    file.LogInfo(timestamp, gpu, table, target, delimiter);
    content := file.content;
    assert [] + LogLine(timestamp, gpu, table, target, delimiter) == LogLine(timestamp, gpu, table, target, delimiter);
    LogLineIsOneLine(timestamp, gpu, table, target, delimiter);
  }

  /** A later run against a log file that already exists: `init_log` opens
      it for appending, so the earlier text stays in front and the file
      gains exactly one line. */
  method LaterRunKeepsLog(existing: string, timestamp: string, gpu: GpuInfo, table: ProcessTable,
                          target: Option<SingleProcessInfo>, delimiter: string)
    returns (content: string)
    requires SingleLineInputs(timestamp, gpu, table, target, delimiter)
    ensures content == existing + LogLine(timestamp, gpu, table, target, delimiter)
    ensures content[..|existing|] == existing
    ensures multiset(content)['\n'] == multiset(existing)['\n'] + 1
  {
    var file := new LogFile.Existing(existing);
    file.LogInfo(timestamp, gpu, table, target, delimiter);
    content := file.content;
    LogLineIsOneLine(timestamp, gpu, table, target, delimiter);
  }
}
