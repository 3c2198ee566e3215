# simple_gpu_info, modelled in Dafny

simple_gpu_info is a small command-line tool for one NVIDIA GPU. It reads the
device's name, utilization, memory and temperature and the list of active
graphics workloads, and it resolves each workload's pid to a process name. It
then reports in up to three ways:

- a desktop notification about one named process;
- console output;
- one line appended to a log file.

This project models the program's logic in `src/main.rs`, once the driver and
the operating system have answered:

- `numbers.dfy` (module `Numbers`): the `u32`/`u64` widths, and `>> 20` from
  bytes to whole megabytes. This is proved equal to a bit-by-bit shift and to
  floor division by 2^20. It also holds `{}` decimal formatting, proved to read
  back as its value and to be onto the canonical digit strings.
- `text.dfy` (module `Text`): `capitalize`, with its shape and idempotence.
- `gpu.dfy` (module `Gpu`): the snapshot records, and `get_gpu_usage` as a
  function of the driver's readings.
- `matcher.dfy` (modules `Processes` and `Matcher`):
  - `get_process_name` over a pid-to-name table.
  - `get_target_process_info`, with its filter/map/collect/pop pipeline. It
    returns an explicit `Option` and is proved to pick the last matching
    workload in driver order.
- `notify.dfy` (module `Notify`): the notification's summary, body and icon.
- `log.dfy` (module `Log`):
  - the log line as a specification function;
  - `BuildLogLine`, which builds the line step by step like `log_info`, with
    a loop over the workloads;
  - the log file as a class whose text is only ever extended. `LogInfo`
    appends exactly one log record and keeps everything the file held
    before. The record is one line when the free-text inputs hold no line
    break. A first run against a missing file leaves exactly that record; a
    later run keeps the earlier text in front of it.
- `scenarios.dfy` (module `Scenarios`): worked examples, proved on fixed inputs, including these:
  - the RTX 4090 snapshot with a firefox workload;
  - the same snapshot queried for a process that has none;
  - two workloads of the same process;
  - a workload without a memory figure;
  - the undelimited per-workload log segments.

The clock is a parameter: the timestamp is the already formatted text. The
operating system's process table is a parameter too: a map from pid to name.

## Model

| member | source | states |
|---|---|---|
| Numbers.ShiftRight | src/main.rs:48 | `x >> k` as k single-bit shifts: never more than x, and x itself for k = 0 |
| Numbers.ShiftRightIsFloorDiv | src/main.rs:48 | a right shift by k bits of an unsigned value x gives the s with s*2^k <= x < (s+1)*2^k |
| Numbers.BytesToMb | src/main.rs:48 | `bytes >> 20` is the number of whole megabytes: mb*2^20 <= bytes < (mb+1)*2^20, every count below 2^20 gives 0, and the result never exceeds the input |
| Numbers.BytesToMbIsShiftRight | src/main.rs:48 | the megabyte conversion equals the 20-bit right shift computed bit by bit |
| Numbers.BytesToMbMonotonic | src/main.rs:48 | the conversion preserves order, so used memory never shows more megabytes than total memory |
| Numbers.NatToString | src/main.rs:47 | `{}` on an unsigned integer gives canonical decimal text (no leading zero except "0") that reads back as the value |
| Numbers.NatToStringOfDecimalValue | src/main.rs:47 | formatting the value of any canonical decimal text gives that text back, so formatting and reading are inverse |
| Numbers.NatToStringInjective | src/main.rs:234-236 | different figures never format to the same text |
| Text.ToAsciiLowercase | src/main.rs:21 | `to_ascii_lowercase` maps 'A'..'Z' to 'a'..'z' (32 code points up) and keeps every other character |
| Text.ToUppercase | src/main.rs:20 | uppercasing maps 'a'..'z' to 'A'..'Z' and keeps every other character (ASCII only) |
| Text.LowercaseAll | src/main.rs:21 | the mapped tail has the input's length and holds the lowercase of each character at the same position |
| Text.Capitalize | src/main.rs:15-24 | the empty name stays empty; otherwise the length is kept, the first character is uppercased and each later one lowercased |
| Text.CapitalizeShape | src/main.rs:15-24 | in the ASCII model (see Text.ToUppercase under Left out), a capitalized name starts with no lowercase letter and has no uppercase letter after the first position |
| Text.CapitalizeIdempotent | src/main.rs:15-24 | in the ASCII model (see Text.ToUppercase under Left out), capitalizing twice is capitalizing once |
| Text.CapitalizeKeepsNonLetters | src/main.rs:15-24 | in the ASCII model (see Text.ToUppercase under Left out), a non-letter character, such as a line break, appears in the output exactly where it appears in the input |
| Gpu.GetGpuUsage | src/main.rs:35-52 | name, temperature and workloads pass through unchanged; utilization becomes its canonical decimal text followed by '%'; used and total memory become whole megabytes, and used <= total stays so |
| Gpu.ProcessMemoryMb | src/main.rs:65-68 | a workload's reported bytes become their floor in megabytes (mb*2^20 <= bytes < (mb+1)*2^20), never more than the bytes; a missing figure becomes 0 |
| Processes.ProcessName | src/main.rs:75-80 | a pid in the table resolves to its name; a pid missing from it resolves to the empty string |
| Processes.ProcessNameFound | src/main.rs:58-62 | a non-empty target matches a pid exactly when the pid is in the table under that name |
| Matcher.IsTarget | src/main.rs:58-62 | the filter keeps a workload whose pid is in the table under exactly the target name; with the empty target it keeps exactly the workloads whose pid is missing from the table or named "" |
| Matcher.Describe | src/main.rs:63-69 | the map step names a workload by its table entry ("" for a missing pid) and gives its floor megabyte figure, 0 when the driver gave none |
| Matcher.Collected | src/main.rs:55-70 | filter/map/collect yields at most one description per workload, all named by the target, and yields nothing exactly when no workload resolves to the target |
| Matcher.CollectedSnoc | src/main.rs:58-70 | one more workload appends its description exactly when it belongs to the target, keeping driver order |
| Matcher.CollectedLast | src/main.rs:70-71 | the last collected description belongs to the last workload, in driver order, that resolves to the target |
| Matcher.GetTargetProcessInfo | src/main.rs:54-73 | None exactly when no workload resolves to the target (where the program panics); otherwise a description whose name is the target |
| Matcher.GetTargetProcessInfoIsLastMatch | src/main.rs:70-72 | a match describes the last workload in driver order that belongs to the target, with that workload's own megabyte figure |
| Matcher.LastTargetAtUnique | src/main.rs:70-72 | there is at most one last match, so the result is determined |
| Matcher.NoWorkloadsNoMatch | src/main.rs:54-73 | with no active workloads there is never a match |
| Matcher.MatchAfterAppend | src/main.rs:54-73 | appending a workload of the target makes it the match; appending any other leaves the match as it was |
| Notify.NotificationBody | src/main.rs:233-237 | the body is the capitalized name, " is utilizing ", the figure in canonical decimal, then " MB of memory" |
| Notify.TargetNotification | src/main.rs:231-240 | the alert has summary "GPU Usage", icon "dialog-information" and the body above |
| Log.UsageSegment | src/main.rs:136-139 | a segment is the name as given, " memory usage: ", the figure in canonical decimal that reads back as the megabytes, then " MB" |
| Log.WorkloadSegment | src/main.rs:143-154 | a workload's segment is its resolved name capitalized, then " memory usage: ", then a canonical figure that reads back as the workload's floor megabytes (0 when unknown), then " MB" at the end |
| Log.WorkloadSegments | src/main.rs:143-156 | the segments of all workloads are empty exactly when there are none, and each workload adds at least the two fixed words and one digit |
| Log.TimestampField | src/main.rs:114 | the log line opens with the timestamp as given, then " \| " |
| Log.NameField | src/main.rs:115 | the device name as given, then the delimiter |
| Log.UtilizationField | src/main.rs:116-122 | "Total utilization: ", the snapshot's utilization text, then the delimiter |
| Log.MemoryField | src/main.rs:123-129 | "Memory usage: ", the used megabytes in canonical decimal that reads back as the snapshot's used figure, '/', the total megabytes likewise, " MB", then the delimiter |
| Log.TemperatureField | src/main.rs:130 | "Temperature: ", the temperature in canonical decimal that reads back as the reading, "°C", then the delimiter |
| Log.Header | src/main.rs:114-130 | the fields before the process part start with the timestamp, a space, a bar and a space, then the device name, and are longer than those |
| Log.HeaderFields | src/main.rs:114-130 | the header is the timestamp, name, utilization, memory and temperature fields in that order, each starting where the previous one ends and nothing else |
| Log.ProcessPart | src/main.rs:132-158 | with a target, the part is the target's name as given (not capitalized), then " memory usage: ", a figure that reads back as the target's megabytes, then " MB" at the end; without one, it is every workload's segment in driver order, empty exactly when there are no workloads |
| Log.LogLine | src/main.rs:111-160 | the line is the header, then the process part, then '\n' as its last character, in that order and nothing else |
| Log.BuildLogLine | src/main.rs:111-160 | pushing the fields, then the target's segment or each workload's segment in driver order, then '\n', builds exactly the log line |
| Log.WorkloadSegmentsCons | src/main.rs:143-156 | the workload segments read front to back: the first workload's segment directly followed by the rest's, with no delimiter |
| Log.WorkloadSegmentsSingleLine | src/main.rs:143-156 | when no process name holds a line break, the workload segments hold none |
| Log.LogLineIsOneLine | src/main.rs:114-160 | the line ends with '\n', which is its only line break when the free-text inputs hold none |
| Log.LogFile.InitLog | src/main.rs:95-101 | an existing file is opened with its text untouched; a missing one is created empty; the file exists afterwards |
| Log.LogFile.WriteAll | src/main.rs:162 | writing to the append handle extends the text by exactly the data |
| Log.LogFile.LogInfo | src/main.rs:103-163 | the file exists afterwards; its old text is kept as a prefix, followed by exactly the log line; it gains exactly one line break when the free-text inputs hold none |
| Scenarios.CapitalizeExamples | src/main.rs:15-24 | "firefox" becomes "Firefox", "" stays "", "ABC" becomes "Abc" |
| Scenarios.FirefoxBytesAreHundredMb | src/main.rs:66 | 104857600 bytes are 100 MB |
| Scenarios.SnapshotFromReadings | src/main.rs:45-51 | readings for an RTX 4090 at 55% with 2048 of 24576 MB in use give the snapshot with "55%" and (2048, 24576) |
| Scenarios.FirefoxIsFound | src/main.rs:54-73 | with one firefox workload of 104857600 bytes, asking for "firefox" gives ("firefox", 100) |
| Scenarios.ChromeIsNotFound | src/main.rs:54-73 | asking the same snapshot for "chrome" gives no match |
| Scenarios.FirefoxNotification | src/main.rs:231-240 | the alert for ("firefox", 100) reads "Firefox is utilizing 100 MB of memory" |
| Scenarios.FirefoxLogLine | src/main.rs:114-160 | the log line for the firefox match reads the timestamp, a bar, then "RTX 4090, Total utilization: 55%, Memory usage: 2048/24576 MB, Temperature: 63°C, firefox memory usage: 100 MB" and a line break |
| Scenarios.DuplicateNamePicksLast | src/main.rs:70-71 | of two firefox workloads, the later one (pid 200) is reported |
| Scenarios.UnknownUsageIsZero | src/main.rs:65-68 | a firefox workload without a memory figure is reported with 0 MB |
| Scenarios.WorkloadSegmentsRunTogether | src/main.rs:143-156 | without a target, the firefox and chrome segments follow each other with no delimiter between them |
| Log.FirstRunCreatesLog | src/main.rs:95-163 | a log file that did not exist ends up holding exactly the one line written, with one line break |
| Log.LaterRunKeepsLog | src/main.rs:95-163 | a log file that already exists is opened for appending: its earlier text stays in front, followed by exactly the new line, and it gains exactly one line break |

## Left out

- Driver queries (`Nvml::init`, `device_by_index(0)` and the metric getters) and their `.unwrap()` panics are left out. Their answers are the `DeviceReadings` value given to `Gpu.GetGpuUsage`.
- The process table is a parameter: one map from pid to name per invocation. The program enumerates all processes again (`System::new_all`) for every lookup, so a process that starts or exits between two lookups can resolve differently. That race is not modelled.
- `send_notification`'s delivery through the desktop, and its panic on failure, are left out. Only the summary, body and icon are modelled.
- `Utc::now()` and its `%a %b %e %T %Y` formatting are left out. The timestamp is the formatted text, passed as a parameter.
- `print_info` is left out. It only writes the same figures to standard output in `{:#?}` debug form.
- Command-line parsing (clap) is left out, and so is `main`'s choice of sinks: notify unless disabled, print if asked, log with `Some(target)` or with `None`, or print usage guidance.
- `init_log` and `write_all` failures (permissions, a full disk) and their panics are left out. The model writes successfully.
- Concurrent invocations appending to the same file are left out.
- Text.ToUppercase: does not model Unicode uppercasing of non-ASCII first characters, which can change the length (for example 'ß' becomes "SS"). Such characters are kept unchanged.
- Text.Capitalize: inherits the ASCII-only uppercasing of its first character described above.
- Log.LogFile.WriteAll: models the file's text as characters, not as its UTF-8 bytes. The degree sign is one character here and two bytes on disk.
- Matcher.GetTargetProcessInfo: returns None where the program panics on `.unwrap()` of an empty result. A caller that needs the panic can treat None as the abort.
