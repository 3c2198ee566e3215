/** The GPU snapshot: what the driver reports for device 0 and how the
    program turns those readings into the values every report shows. */
module Gpu {
  import opened Numbers

  /** Per-process memory as the driver reports it: a byte count, or nothing
      when the driver cannot tell. */
  datatype UsedGpuMemory = Used(bytes: u64) | Unavailable

  /** One active graphics workload. */
  datatype ProcessInfo = ProcessInfo(pid: u32, usedGpuMemory: UsedGpuMemory)

  /** The raw answers of the driver queries: device name, GPU utilization
      percentage, used and total memory in bytes, temperature in degrees
      Celsius, and the active graphics workloads in driver order. */
  datatype DeviceReadings = DeviceReadings(
    name: string,
    gpuUtilization: u32,
    memoryUsedBytes: u64,
    memoryTotalBytes: u64,
    temperature: u32,
    graphicsProcesses: seq<ProcessInfo>)

  /** The snapshot the rest of the program works on; memory is in megabytes
      as a (used, total) pair and utilization is already text such as "55%". */
  datatype GpuInfo = GpuInfo(
    name: string,
    totalUtilization: string,
    memoryUsage: (u64, u64),
    temperature: u32,
    graphicsProcesses: seq<ProcessInfo>)

  /** `get_gpu_usage` once the queries have answered: utilization is
      rendered as its decimal value followed by '%', both memory figures are
      converted to whole megabytes, and everything else is passed through. */
  function GetGpuUsage(d: DeviceReadings): (g: GpuInfo)
    ensures g.name == d.name && g.temperature == d.temperature
    ensures g.graphicsProcesses == d.graphicsProcesses
    ensures |g.totalUtilization| >= 2 && g.totalUtilization[|g.totalUtilization| - 1] == '%'
    ensures var digits := g.totalUtilization[..|g.totalUtilization| - 1];
      IsCanonicalDecimal(digits) && DecimalValue(digits) == d.gpuUtilization
    ensures g.memoryUsage.0 == d.memoryUsedBytes / 0x10_0000
    ensures g.memoryUsage.1 == d.memoryTotalBytes / 0x10_0000
    ensures d.memoryUsedBytes <= d.memoryTotalBytes ==> g.memoryUsage.0 <= g.memoryUsage.1
  {
    var utilization := NatToString(d.gpuUtilization) + "%";
    assert utilization[..|utilization| - 1] == NatToString(d.gpuUtilization);
    GpuInfo(
      d.name,
      utilization,
      (BytesToMb(d.memoryUsedBytes), BytesToMb(d.memoryTotalBytes)),
      d.temperature,
      d.graphicsProcesses)
  }

  /** The megabyte figure reported for one workload: its byte count shifted
      right by 20, that is its floor in megabytes and never more than the
      byte count, or 0 when the driver gave no figure. */
  function ProcessMemoryMb(m: UsedGpuMemory): (mb: u64)
    ensures m.Used? ==> mb * 0x10_0000 <= m.bytes < (mb + 1) * 0x10_0000 && mb <= m.bytes
    ensures m.Unavailable? ==> mb == 0
  {
    match m
    case Used(bytes) => BytesToMb(bytes)
    case Unavailable => 0
  }
}
