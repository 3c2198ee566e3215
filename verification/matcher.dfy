/** Resolving process ids against one snapshot of the operating system's
    process table. */
module Processes {
  import opened Numbers

  /** The process table as pid -> display name, enumerated once. */
  type ProcessTable = map<u32, string>

  /** `get_process_name`: the table's name for a pid that is present, the
      empty string for one that is not (the process may have exited since
      the driver listed it). */
  function ProcessName(table: ProcessTable, pid: u32): (name: string)
    ensures pid in table ==> name == table[pid]
    ensures pid !in table ==> name == ""
  {
    if pid in table then table[pid] else ""
  }

  /** A non-empty name can only come from the table; a pid missing from the
      table never resolves to a non-empty target. */
  lemma ProcessNameFound(table: ProcessTable, pid: u32, target: string)
    requires target != ""
    ensures ProcessName(table, pid) == target <==> pid in table && table[pid] == target
  {
  }
}

/** `get_target_process_info`: pick the workload that belongs to a named
    process. */
module Matcher {
  import opened Numbers
  import opened Wrappers
  import opened Gpu
  import opened Processes

  /** What the program reports about the target process. */
  datatype SingleProcessInfo = SingleProcessInfo(name: string, memoryUsage: u64)

  /** The filter condition: the workload's pid resolves to exactly the
      target name (case-sensitive). A non-empty target matches only a pid
      that is in the table under that name; the empty target also matches
      every pid that is missing from the table. */
  predicate IsTarget(table: ProcessTable, target: string, p: ProcessInfo): (b: bool)
    ensures target != "" ==> (b <==> p.pid in table && table[p.pid] == target)
    ensures target == "" ==> (b <==> p.pid !in table || table[p.pid] == "")
  {
    ProcessName(table, p.pid) == target
  }

  /** The map step: the resolved name (empty for a pid that has gone), and
      the workload's floor megabyte figure, 0 when the driver gave none. */
  function Describe(table: ProcessTable, p: ProcessInfo): (r: SingleProcessInfo)
    ensures p.pid in table ==> r.name == table[p.pid]
    ensures p.pid !in table ==> r.name == ""
    ensures p.usedGpuMemory.Used? ==>
      r.memoryUsage * 0x10_0000 <= p.usedGpuMemory.bytes < (r.memoryUsage + 1) * 0x10_0000
    ensures p.usedGpuMemory.Unavailable? ==> r.memoryUsage == 0
  {
    SingleProcessInfo(ProcessName(table, p.pid), ProcessMemoryMb(p.usedGpuMemory))
  }

  /** Index k holds the last workload, in driver order, whose name is the
      target. */
  predicate LastTargetAt(procs: seq<ProcessInfo>, table: ProcessTable, target: string, k: int)
  {
    && 0 <= k < |procs|
    && IsTarget(table, target, procs[k])
    && forall j :: k < j < |procs| ==> !IsTarget(table, target, procs[j])
  }

  /** `filter(..).map(..).collect()`: the description of every workload that
      belongs to the target, in driver order. It is empty exactly when no
      workload resolves to the target. */
  function Collected(procs: seq<ProcessInfo>, table: ProcessTable, target: string): (r: seq<SingleProcessInfo>)
    ensures |r| <= |procs|
    ensures forall i :: 0 <= i < |r| ==> r[i].name == target
    ensures r == [] <==> forall i :: 0 <= i < |procs| ==> !IsTarget(table, target, procs[i])
  {
    if procs == [] then
      []
    else
      var init := procs[..|procs| - 1];
      var p := procs[|procs| - 1];
      var found := Collected(init, table, target);
      assert forall i :: 0 <= i < |init| ==> init[i] == procs[i];
      if IsTarget(table, target, p) then found + [Describe(table, p)] else found
  }

  /** Collecting over one more workload appends its description exactly when
      it belongs to the target. */
  lemma CollectedSnoc(procs: seq<ProcessInfo>, p: ProcessInfo, table: ProcessTable, target: string)
    ensures Collected(procs + [p], table, target) ==
      if IsTarget(table, target, p) then Collected(procs, table, target) + [Describe(table, p)]
      else Collected(procs, table, target)
  {
    var all := procs + [p];
    assert all[..|all| - 1] == procs;
    assert all[|all| - 1] == p;
  }

  /** A workload appended after the last match that does not belong to the
      target leaves that match the last one. */
  lemma LastTargetAtExtend(init: seq<ProcessInfo>, p: ProcessInfo, table: ProcessTable, target: string, k: int)
    requires LastTargetAt(init, table, target, k) && !IsTarget(table, target, p)
    ensures LastTargetAt(init + [p], table, target, k)
  {
    var procs := init + [p];
    forall j | k < j < |procs|
      ensures !IsTarget(table, target, procs[j])
    {
      if j < |init| {
        assert procs[j] == init[j];
      }
    }
  }

  /** The position of the last workload, in driver order, that belongs to
      the target, or -1 when none does. */
  function LastTargetIndex(procs: seq<ProcessInfo>, table: ProcessTable, target: string): (k: int)
    ensures -1 <= k < |procs|
  {
    if procs == [] then -1
    else if IsTarget(table, target, procs[|procs| - 1]) then |procs| - 1
    else LastTargetIndex(procs[..|procs| - 1], table, target)
  }

  /** The last collected description is that of the last workload, in driver
      order, that belongs to the target. */
  lemma {:induction false} CollectedLast(procs: seq<ProcessInfo>, table: ProcessTable, target: string)
    requires Collected(procs, table, target) != []
    ensures LastTargetAt(procs, table, target, LastTargetIndex(procs, table, target))
    ensures var r := Collected(procs, table, target);
      r[|r| - 1] == Describe(table, procs[LastTargetIndex(procs, table, target)])
  {
    var init := procs[..|procs| - 1];
    var p := procs[|procs| - 1];
    assert procs == init + [p];
    CollectedSnoc(init, p, table, target);
    if !IsTarget(table, target, p) {
      CollectedLast(init, table, target);
      var k := LastTargetIndex(init, table, target);
      LastTargetAtExtend(init, p, table, target, k);
      assert procs[k] == init[k];
    }
  }

  /** `get_target_process_info` with the final `.unwrap()` replaced by an
      explicit absence: `None` exactly when no workload resolves to the
      target (where the program panics); otherwise a description named by
      the target itself. GetTargetProcessInfoIsLastMatch says which workload
      it describes. */
  function GetTargetProcessInfo(gpu: GpuInfo, table: ProcessTable, target: string): (r: Option<SingleProcessInfo>)
    ensures r.None? <==> forall i :: 0 <= i < |gpu.graphicsProcesses| ==> !IsTarget(table, target, gpu.graphicsProcesses[i])
    ensures r.Some? ==> r.value.name == target
  {
    var found := Collected(gpu.graphicsProcesses, table, target);
    if found == [] then None else Some(found[|found| - 1])
  }

  /** The tie-break of `.pop()`: a match describes the last workload, in
      driver order, that belongs to the target, with that workload's
      megabyte figure. */
  lemma GetTargetProcessInfoIsLastMatch(gpu: GpuInfo, table: ProcessTable, target: string)
    requires GetTargetProcessInfo(gpu, table, target).Some?
    ensures exists k :: && LastTargetAt(gpu.graphicsProcesses, table, target, k)
                        && GetTargetProcessInfo(gpu, table, target).value == Describe(table, gpu.graphicsProcesses[k])
  {
    var procs := gpu.graphicsProcesses;
    CollectedLast(procs, table, target);
    var k := LastTargetIndex(procs, table, target);
    assert LastTargetAt(procs, table, target, k);
  }

  /** At most one index is the last match, so the result is determined. */
  lemma LastTargetAtUnique(procs: seq<ProcessInfo>, table: ProcessTable, target: string, k1: int, k2: int)
    requires LastTargetAt(procs, table, target, k1) && LastTargetAt(procs, table, target, k2)
    ensures k1 == k2
  {
  }

  /** With no active graphics workload there is never a match. */
  lemma NoWorkloadsNoMatch(gpu: GpuInfo, table: ProcessTable, target: string)
    requires gpu.graphicsProcesses == []
    ensures GetTargetProcessInfo(gpu, table, target) == None
  {
  }

  /** Appending a workload that belongs to the target makes it the match;
      appending one that does not leaves the match unchanged. */
  lemma {:induction false} MatchAfterAppend(gpu: GpuInfo, table: ProcessTable, target: string, p: ProcessInfo)
    ensures var extended := gpu.(graphicsProcesses := gpu.graphicsProcesses + [p]);
      GetTargetProcessInfo(extended, table, target) ==
        if IsTarget(table, target, p) then Some(Describe(table, p))
        else GetTargetProcessInfo(gpu, table, target)
  {
    CollectedSnoc(gpu.graphicsProcesses, p, table, target);
  }
}
