/** Worked examples, proved on fixed inputs: a snapshot with one firefox workload, the
    same snapshot queried for a process that is not there, duplicate names,
    and workloads without a memory figure. */
module Scenarios {
  import opened Numbers
  import opened Wrappers
  import opened Text
  import opened Gpu
  import opened Processes
  import opened Matcher
  import opened Notify
  import opened Log

  /** 100 MB, as the driver reports it in bytes. */
  const FIREFOX_BYTES: u64 := 104857600

  function Snapshot(): GpuInfo
  {
    GpuInfo("RTX 4090", "55%", (2048, 24576), 63, [ProcessInfo(100, Used(FIREFOX_BYTES))])
  }

  function Table(): ProcessTable
  {
    map[100 := "firefox"]
  }

  lemma CapitalizeExamples()
    ensures Capitalize("firefox") == "Firefox"
    ensures Capitalize("") == ""
    ensures Capitalize("ABC") == "Abc"
  {
    CapitalizeFirefox();
    CapitalizeAbc();
  }

  lemma CapitalizeFirefox()
    ensures Capitalize("firefox") == "Firefox"
  {
  }

  lemma CapitalizeAbc()
    ensures Capitalize("ABC") == "Abc"
  {
  }

  /** The megabyte figure of the firefox workload is 100. */
  lemma FirefoxBytesAreHundredMb()
    ensures BytesToMb(FIREFOX_BYTES) == 100
  {
  }

  /** The driver's byte readings become the snapshot's megabyte pair, and
      utilization 55 becomes "55%". */
  lemma SnapshotFromReadings()
    ensures var d := DeviceReadings("RTX 4090", 55, 2048 * 0x10_0000, 24576 * 0x10_0000 + 0xF_FFFF, 63,
                                    [ProcessInfo(100, Used(FIREFOX_BYTES))]);
      GetGpuUsage(d) == Snapshot()
  {
    assert NatToString(55) == "55";
  }

  /** Asking for firefox finds its workload with 100 MB. */
  lemma FirefoxIsFound()
    ensures GetTargetProcessInfo(Snapshot(), Table(), "firefox") == Some(SingleProcessInfo("firefox", 100))
  {
    MatchAfterAppend(Snapshot().(graphicsProcesses := []), Table(), "firefox", ProcessInfo(100, Used(FIREFOX_BYTES)));
    assert [] + [ProcessInfo(100, Used(FIREFOX_BYTES))] == Snapshot().graphicsProcesses;
  }

  /** Asking for a process that has no workload gives no match. */
  lemma ChromeIsNotFound()
    ensures GetTargetProcessInfo(Snapshot(), Table(), "chrome") == None
  {
  }

  lemma HundredText()
    ensures NatToString(100) == "100"
  {
  }

  /** The alert for the firefox match. */
  lemma FirefoxNotification()
    ensures TargetNotification(SingleProcessInfo("firefox", 100)) ==
      Notification("GPU Usage", "Firefox" + " is utilizing " + "100" + " MB of memory", "dialog-information")
  {
    CapitalizeFirefox();
    HundredText();
  }

  lemma Text2048()
    ensures NatToString(2048) == "2048"
  {
  }

  lemma Text24576()
    ensures NatToString(24576) == "24576"
  {
  }

  lemma MemoryText()
    ensures MemoryField(Snapshot(), DEFAULT_DELIMITER) == "Memory usage: " + "2048" + "/" + "24576" + " MB" + ", "
  {
    Text2048();
    Text24576();
  }

  lemma TemperatureText()
    ensures TemperatureField(Snapshot(), DEFAULT_DELIMITER) == "Temperature: " + "63" + "°" + "C" + ", "
  {
    assert NatToString(63) == "63";
  }

  lemma FirefoxSegmentText()
    ensures UsageSegment("firefox", 100) == "firefox" + " memory usage: " + "100" + " MB"
  {
    HundredText();
  }

  /** The log line for the firefox match, with the default delimiter, field
      by field. */
  lemma FirefoxLogLine(timestamp: string)
    ensures LogLine(timestamp, Snapshot(), Table(), Some(SingleProcessInfo("firefox", 100)), DEFAULT_DELIMITER)
      == timestamp + " | " + ("RTX 4090" + ", ") + ("Total utilization: " + "55%" + ", ")
         + ("Memory usage: " + "2048" + "/" + "24576" + " MB" + ", ")
         + ("Temperature: " + "63" + "°" + "C" + ", ")
         + ("firefox" + " memory usage: " + "100" + " MB") + "\n"
  {
    MemoryText();
    TemperatureText();
    FirefoxSegmentText();
  }

  /** Two workloads of the same process: the one the driver lists last is
      reported. */
  lemma DuplicateNamePicksLast()
    ensures var gpu := Snapshot().(graphicsProcesses := [ProcessInfo(100, Used(FIREFOX_BYTES)),
                                                       ProcessInfo(200, Used(2 * FIREFOX_BYTES))]);
      GetTargetProcessInfo(gpu, map[100 := "firefox", 200 := "firefox"], "firefox")
        == Some(SingleProcessInfo("firefox", 200))
  {
    var table := map[100 := "firefox", 200 := "firefox"];
    var first := ProcessInfo(100, Used(FIREFOX_BYTES));
    var second := ProcessInfo(200, Used(2 * FIREFOX_BYTES));
    MatchAfterAppend(Snapshot().(graphicsProcesses := [first]), table, "firefox", second);
    assert [first] + [second] == [first, second];
  }

  /** A workload without a memory figure is reported with 0 MB. */
  lemma UnknownUsageIsZero()
    ensures var gpu := Snapshot().(graphicsProcesses := [ProcessInfo(100, Unavailable)]);
      GetTargetProcessInfo(gpu, Table(), "firefox") == Some(SingleProcessInfo("firefox", 0))
  {
    var p := ProcessInfo(100, Unavailable);
    MatchAfterAppend(Snapshot().(graphicsProcesses := []), Table(), "firefox", p);
    assert [] + [p] == [p];
  }

  lemma ChromeText()
    ensures Capitalize("chrome") == "Chrome"
  {
  }

  function TwoProcessTable(): ProcessTable
  {
    map[100 := "firefox", 200 := "chrome"]
  }

  lemma FirefoxWorkloadText()
    ensures WorkloadSegment(TwoProcessTable(), ProcessInfo(100, Used(FIREFOX_BYTES)))
      == "Firefox" + " memory usage: " + "100" + " MB"
  {
    CapitalizeFirefox();
    HundredText();
  }

  lemma ChromeWorkloadText()
    ensures WorkloadSegment(TwoProcessTable(), ProcessInfo(200, Unavailable))
      == "Chrome" + " memory usage: " + "0" + " MB"
  {
    ChromeText();
    assert NatToString(0) == "0";
  }

  lemma TwoSegments(a: ProcessInfo, b: ProcessInfo, table: ProcessTable)
    ensures WorkloadSegments([a, b], table) == WorkloadSegment(table, a) + WorkloadSegment(table, b)
  {
    assert [a, b][..1] == [a];
    assert [a][..0] == [];
    assert WorkloadSegments([a], table) == "" + WorkloadSegment(table, a);
    assert "" + WorkloadSegment(table, a) == WorkloadSegment(table, a);
  }

  /** Without a target every workload gets a segment, and the segments run
      together with no delimiter between them. */
  lemma WorkloadSegmentsRunTogether()
    ensures var procs := [ProcessInfo(100, Used(FIREFOX_BYTES)), ProcessInfo(200, Unavailable)];
      WorkloadSegments(procs, TwoProcessTable())
        == ("Firefox" + " memory usage: " + "100" + " MB") + ("Chrome" + " memory usage: " + "0" + " MB")
  {
    TwoSegments(ProcessInfo(100, Used(FIREFOX_BYTES)), ProcessInfo(200, Unavailable), TwoProcessTable());
    FirefoxWorkloadText();
    ChromeWorkloadText();
  }
}
