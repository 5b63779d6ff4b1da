# ProcessBrowser core in Dafny

A model of the sampling, delta, ordering and input logic of ProcessBrowser. ProcessBrowser is a terminal process monitor in the style of top and htop, written in C over ncurses and `/proc`. Each refresh tick does the following:

- reads `/proc/stat`, `/proc/meminfo`, `/proc/uptime` and the per-process `stat` and `cmdline` files;
- builds an array of `ProcessInfo` records;
- computes each process's CPU share from the previous snapshot and its memory share of system memory;
- sorts the records by CPU or memory;
- draws a filtered, scrolled page of them;
- handles the keyboard through an `InputState`.

The project has one module per C source file:

| module | file | what it holds |
|---|---|---|
| `CTypes` | (machine level) | `uint64` with wrap-around `Add64`/`Sub64`/`Mul64`, the `long`→`int` narrowing, C's truncating `/` and `%`, the `(int)` cast of a double, `Option`, `Take`/`Drop` |
| `Process` | `src/process.c`, `src/include/process.h` | the `ProcessInfo` record, name stripping, `read_cmdline` on a char buffer, `read_process`, `collect_processes` into a bounded array, and the delta engine `compute_process_stats`, which works in place on `curr` |
| `Sort` | `src/sort.c` | the four comparators and `sort_by_cpu`/`sort_by_mem` in place on the array |
| `Input` | `src/input.c`, `src/include/input.h` | `InputState` as a class, `input_init`, `input_handle`, and the search prompt's editing rules |
| `System` | `src/system.c` | the uptime split and `calculate_cpu_load` |
| `Cpu` | `src/cpu.c` | the two jiffy sums and `get_cpu_cores` |
| `Mem` | `src/mem.c` | the two `/proc/meminfo` scanners and `get_page_size` |
| `Display` | `src/display.c` | row selection (filter, skip, take), the row contents, and `format_memory`'s unit loop |
| `Logger` | `src/logger.c`, `src/include/logger.h` | the level filter, `set_log_level`, the once-only log-file opening and the per-severity functions |
| `Monitor` | `src/main.c` | the startup checks, one tick of the main loop, and the loop itself |

Everything the program gets from the operating system is given as data to the model:

- The stat scan of each pid, with its fscanf conversion count, and the raw `cmdline` bytes form a `ProcFs` value.
- The `/proc` directory is a list of entry names, or None when it cannot be opened.
- `/proc/meminfo` is the list of what sscanf recognises on each line.
- The first line of `/proc/stat` is its conversion count and eight counters.
- `/proc/uptime` is an optional real.
- Each key that `getch` returns is an ncurses key code.
- What `sysconf` reports is an integer.

Counter arithmetic follows the C types: `uint64_t` wraps modulo 2^64 and `long` differences are converted to `uint64_t`. Percentages and the load are `real`.

Notes on the code:

- The doc comment of `read_process` (src/process.c:56) says `mem_valid` is set false. The code sets it true (src/process.c:112). The model follows the code: `Process.ProcessRecord` states `memValid`.
- A pid reused by a process with fewer ticks than the previous holder has a negative tick difference. The code computes it in `uint64_t` (src/process.c:192-194), so the difference wraps and the CPU share is huge and positive. `Process.PidReuseWraps` states exactly that.
- `q` sets `should_exit`, but the remaining polls of the tick and the rest of the tick still run. The loop condition is only tested at the top (src/main.c:63), so the loop ends right after the tick in which `q` or `Q` was read. `Monitor.Monitor.Run` states this from the keys of each tick's polls.
- `get_cpu_cores` narrows a `long` to `int` (src/cpu.c:96). A count of 2^31 or more would become some other number, which `main` accepts unless it is exactly -1. `Cpu.GetCpuCores` and `Monitor.Startup` keep that narrowing.

## Model

| member | source | states |
|---|---|---|
| Process.Unwrapped | src/process.c:89-98 | a comm longer than 2 inside `(`…`)` is the result wrapped in parentheses; any other comm is kept as it is |
| Process.StoredName | src/process.c:88-104 | the stored name is a prefix of the unwrapped comm, of length min(its length, 40), so never longer than 40 |
| Process.Rewritten | src/process.c:39-44 | every byte before the last one has NUL turned into a space; the last byte read is kept; the length is unchanged |
| Process.CString | src/process.c:45 | the C string of a buffer is a NUL-free prefix of it followed by a NUL or the end of the buffer |
| Process.CommandText | src/process.c:39-45 | the stored command line has no NUL, maps NUL to space byte by byte, and drops the last byte exactly when it is a NUL |
| Process.CommandLine | src/process.c:117-122 | the command line is present exactly when the cmdline file yields at least one byte; it is then shorter than the 512-byte buffer |
| Process.ReadCmdline | src/process.c:22-48 | returns 0 exactly when the read yields n > 0 bytes, with n at most size-1; then the buffer holds the rewritten bytes and a NUL at n, and the rest is untouched; on -1 the buffer is unchanged |
| Process.ProcessRecord | src/process.c:60-125 | a record exists exactly when the stat file opens and at least 6 fields convert; it has the read pid and times, the stored name, mem_bytes = rss*page_size (mod 2^64), rss_kb = mem_bytes/1024, cpu invalid at 0, mem valid at 0, and the command line exactly when read_cmdline succeeds |
| Process.ReadProcess | src/process.c:60-125 | returns 0 and writes exactly the slot p with ProcessRecord, or returns -1 with the array unchanged |
| Process.Gathered | src/process.c:147-156 | the records gathered from the entries are never more than the entries |
| Process.GatheredAreReads | src/process.c:147-156 | every gathered record is the successful read of some entry whose name starts with a digit |
| Process.IsPidEntry | src/process.c:149-150 | an entry names a process when its first character is a decimal digit |
| Process.Atoi | src/process.c:152 | the pid of an entry is the value of its leading decimal digits |
| Process.CollectProcesses | src/process.c:136-160 | count is between 0 and max; with no /proc the count is 0 and the array is unchanged; otherwise list[0..count) is the first max successful reads in directory order, and the later slots are unchanged |
| Process.FirstMatch | src/process.c:183-189 | the index found holds the pid and no earlier index does; None means no index holds it |
| Process.FindPrevious | src/process.c:183-189 | the linear scan returns the first index of prev[0..prev_count) holding the pid, or None |
| Process.WithStats | src/process.c:183-214 | one record's derived fields: cpu_valid when a previous sample exists and the delta is positive, cpu_percent the uint64 tick difference over the delta times 100, mem_valid when the total is positive, mem_percent its share of the total times 100, each percent 0 when invalid |
| Process.Stats | src/process.c:181-215 | the snapshot after the delta engine: every record, in order, with WithStats against the first record of prev with its pid |
| Process.ComputeProcessStats | src/process.c:176-216 | curr[0..curr_count) becomes each record with its four derived fields computed from its first namesake in prev; the later slots are unchanged; prev is only read |
| Process.StatsKeepSamples | src/process.c:181-215 | the delta engine keeps the length, the order and every sampled field (pid, name, command line, counters, memory) |
| Process.CpuValidIff | src/process.c:191-204 | cpu_valid holds exactly when the total CPU delta is positive and some prev record has the same pid; otherwise cpu_percent is 0 |
| Process.NewProcessInvalid | src/process.c:183-204 | a pid absent from prev gets cpu_valid false and cpu_percent 0 |
| Process.CpuShareOfMatch | src/process.c:191-200 | with a first match, a positive delta and counters that neither overflow nor go backwards, cpu_percent is (ticks_now - ticks_before) / delta * 100, at least 0, and at most 100 when the process used no more ticks than the machine |
| Process.PidReuseWraps | src/process.c:192-199 | when the new counters are below the old ones, the unsigned difference wraps by 2^64 and the share is positive |
| Process.MemShareIndependent | src/process.c:206-214 | mem_percent is mem_bytes / total * 100 and valid when the total is positive, 0 and invalid otherwise; prev does not affect it |
| Process.FreshRecordNotYetRated | src/process.c:106-114 | a freshly read record has no valid CPU share and a name of at most 40 characters |
| Sort.CompareCpuAsc | src/sort.c:4-14 | -1, 1 or 0 exactly when the first cpu_percent is less than, greater than or equal to the second |
| Sort.CompareCpuDesc | src/sort.c:16-19 | -1, 1 or 0 exactly when the first cpu_percent is greater than, less than or equal to the second |
| Sort.CompareMemAsc | src/sort.c:21-31 | -1, 1 or 0 exactly when the first mem_percent is less than, greater than or equal to the second |
| Sort.CompareMemDesc | src/sort.c:33-36 | -1, 1 or 0 exactly when the first mem_percent is greater than, less than or equal to the second |
| Sort.ComparatorsAgree | src/sort.c:16-36 | each descending comparator is the negation of its ascending one; every comparator is antisymmetric and says "at most" exactly when its key does |
| Sort.QSort | src/sort.c:49 | the first count records end up in comparator order and are a permutation of the records before; the records after count are unchanged |
| Sort.SortByCpu | src/sort.c:46-53 | cpu_percent is non-increasing by default and non-decreasing when reversed; the prefix is a permutation of the input; the rest of the array is unchanged |
| Sort.SortByMem | src/sort.c:63-70 | the same two orders on mem_percent, with the same permutation and tail guarantees |
| Sort.DescendingThree | src/sort.c:50-52 | any sorted permutation of CPU shares 10, 30, 20 in the default order is 30, 20, 10 |
| Input.InitialInput | src/input.c:14-22 | CPU sorting on, memory sorting off, not reversed, offset 0, no exit request, empty term |
| Input.SearchSession | src/input.c:31-78 | the term a search prompt leaves: ERR skipped, ESC clears and ends, backspace, DEL or ^H drop the last character, Enter ends keeping the term, printable ASCII appended while shorter than 255, other keys ignored |
| Input.SearchBounded | src/input.c:63-67 | a search session never grows the term past 255 characters |
| Input.SearchPrintable | src/input.c:63-67 | a search session only ever stores printable ASCII characters |
| Input.TypeThenEnter | src/input.c:61-67 | typing printable text that fits and pressing Enter appends exactly that text to the term |
| Input.EscapeClears | src/input.c:52-55 | ESC ends the session with an empty term whatever was typed before |
| Input.BackspaceAndEnter | src/input.c:56-62 | backspace on an empty term is a no-op; Enter or KEY_ENTER ends the session keeping the term |
| Input.ClampScroll | src/input.c:257-266 | the clamped offset is not negative and below count when count is positive; 0 when count is not positive; an offset already in range is kept |
| Input.ApplyKey | src/input.c:174-255 | the switch of input_handle: c/C and m/M toggle their sort key (turning on one turns the other off), r/R flip the order, the arrow and page keys move the offset by 1 and 10 (up and page up not below 0), F3, f and / run a search session, q/Q request exit, ESC empties the term, other keys change nothing |
| Input.HandleKey | src/input.c:166-267 | input_handle: ERR leaves the state alone, any other key is applied and the offset then clamped to the row count |
| Input.ScrollClamped | src/input.c:166-267 | ERR changes nothing; any other key leaves 0 <= offset < count, or offset 0 when count is not positive |
| Input.ScrollKeys | src/input.c:207-226 | down and up move the offset by one row, page down and page up by ten, stopping at the first and last row |
| Input.SortFlagsExclusive | src/input.c:174-255 | no key makes both sort flags true from a state where they were not both true; after `c` or `m` they are never both true; every other key leaves both sort flags unchanged |
| Input.SortToggles | src/input.c:175-199 | `c` turns CPU sorting off when it was on and leaves memory sorting alone, otherwise turns CPU on and memory off; `m` is symmetric |
| Input.ReverseFlips | src/input.c:201-205 | `r` flips reversed and changes nothing else but the clamped offset; pressing it twice restores the order |
| Input.ExitRequests | src/input.c:239-243 | `q` and `Q` request exit; no key withdraws an exit request; no other key makes one |
| Input.OtherKeys | src/input.c:233-250 | ESC empties the filter; the kill keys change nothing but the clamped offset |
| Input.EscapeIdempotent | src/input.c:245-250 | pressing ESC twice gives the same state as pressing it once |
| Input.TermBounded | src/input.c:228-254 | every key keeps a term of at most 255 characters within 255 characters |
| Input.SearchOnlyOnSearchKeys | src/input.c:228-254 | F3, `f` and `/` run the search session on the term; every key except these and ESC leaves the term alone |
| Input.InputState.constructor | src/input.c:14-22 | the fields hold the initial input state |
| Input.InputState.SearchInteractive | src/input.c:31-68 | the term becomes what the search session makes of the keys; the other fields are unchanged |
| Input.InputState.Apply | src/input.c:174-255 | the fields change as the switch of input_handle says for the key |
| Input.InputState.Handle | src/input.c:166-267 | the fields change as input_handle says: nothing on ERR, otherwise the switch and then the clamp; the state invariant is kept |
| System.ReadUptime | src/system.c:15-32 | an unreadable or missing uptime gives 0 days, 0 hours and 0 minutes |
| System.UptimeSplit | src/system.c:36-41 | for a non-negative reading, hours are in [0,23], minutes in [0,59], and the whole seconds fall in the minute that days*86400 + hours*3600 + minutes*60 names |
| System.CpuLoad | src/system.c:55-82 | the load lies in [0,100] and is 0 when the interval or the core count is not positive |
| System.CpuLoadShare | src/system.c:62-79 | the load is 100 exactly when the delta reaches interval_ms/1000*100*cores, and below that it is the exact ratio delta / capacity * 100 |
| System.QuarterLoad | src/system.c:66-72 | 80 active jiffies over 800 ms on 4 cores are a load of 25 |
| System.TwoCoreLoad | src/system.c:66-72 | 50 active jiffies over 1000 ms on 2 cores are a load of 25 |
| Cpu.TotalCpuTime | src/cpu.c:41-46 | fewer than 9 conversions, or no file, give -1 |
| Cpu.ActiveCpuTime | src/cpu.c:74-79 | fewer than 9 conversions, or no file, give -1 |
| Cpu.ActivePlusIdle | src/cpu.c:46-79 | on one line, total = active + idle + iowait, and active never exceeds total when idle and iowait are not negative |
| Cpu.GetCpuCores | src/cpu.c:89-97 | -1 when sysconf gives 0 or less, the count itself when it fits in an int |
| Mem.FirstMemTotal | src/mem.c:27-31 | None exactly when no line is a MemTotal line; otherwise the value of the first MemTotal line |
| Mem.TotalMemBytes | src/mem.c:16-41 | 0 when the file cannot be opened or when no MemTotal line exists |
| Mem.ReadTotalMemBytes | src/mem.c:16-41 | the scanning loop with its break returns TotalMemBytes |
| Mem.TotalFromFirstTotalLine | src/mem.c:27-40 | the result is 1024 × the first MemTotal value, or 0 when that value is 0; lines after the first MemTotal line do not matter |
| Mem.ScanUsed | src/mem.c:65-75 | a value once found stays found for the rest of the scan |
| Mem.UsedMemBytes | src/mem.c:51-57 | 0 when the file cannot be opened |
| Mem.ReadUsedMemBytes | src/mem.c:51-86 | the scanning loop with its early exit returns UsedMemBytes |
| Mem.MissingLineGivesZero | src/mem.c:78-81 | without a MemTotal line, or without a MemAvailable line, the used memory is 0 |
| Mem.UsedFromOneOfEach | src/mem.c:84-85 | with one line of each, the used memory is (total - available) * 1024 in unsigned 64-bit arithmetic, and exactly that when there is no wrap |
| Mem.GetPageSize | src/mem.c:95-103 | 4096 when sysconf gives 0 or less, the reported size otherwise, and never 0 |
| Display.MaxDisplay | src/display.c:158-161 | max_display is LINES - 11 when that is at least 1, and 1 otherwise |
| Display.Contains | src/display.c:169 | strstr finds the term: it occurs in the name at some position |
| Display.Matches | src/display.c:163-171 | a record passes the filter when the term is empty or occurs in its name |
| Display.Filtered | src/display.c:167-171 | the filter never adds records |
| Display.FilteredMembers | src/display.c:163-171 | a record survives the filter exactly when it is in the array and the term is empty or occurs in its name |
| Display.EmptyTermShowsAll | src/display.c:163 | an empty term shows every record, in array order |
| Display.FilteredPrefix | src/display.c:167-171 | filtering a prefix of the array gives a prefix of the filtered array |
| Display.Selected | src/display.c:158-167 | at most max_display records are drawn |
| Display.SelectedMatch | src/display.c:167-177 | every drawn record is a record of the array that passes the filter |
| Display.OffsetCountsMatches | src/display.c:173-177 | the first drawn record is match number scroll_offset of the filter, not array index scroll_offset |
| Display.UnitIndex | src/display.c:18-26 | the unit index is in [0,4]; the bytes reach the chosen unit's scale unless it is K and stay below the next unit's scale unless it is P |
| Display.MemoryUnits | src/display.c:16-36 | what format_memory prints: the byte count divided by the scale of the unit UnitIndex picks, that unit's name, and 2, 1 or 0 decimals below 10, below 100, and from 100 up |
| Display.MemoryUnitsRange | src/display.c:18-26 | the amount times its unit's scale is the byte count; it is below 1024 unless the unit is P and at least 1 unless the unit is K |
| Display.FormatMemory | src/display.c:16-36 | the unit loop ends with the amount, unit and precision that MemoryUnits gives |
| Display.RowOf | src/display.c:179-210 | a row shows the pid, the name truncated to 15 characters, and the CPU, memory and command cells exactly when their valid flags are set |
| Display.Rows | src/display.c:167-213 | one row per drawn record, in order |
| Display.MakeRow | src/display.c:179-210 | the cells printed for one record are RowOf of it |
| Display.RowLoop | src/display.c:163-213 | the loop emits the rows of the filtered records after the first scroll_offset, stops when max_display rows are drawn, and emits max_display rows whenever it stops early |
| Display.DisplayProcessInfo | src/display.c:140-213 | the rows drawn are those of take(max_display, drop(scroll_offset, filter(processes[0..count)))) |
| Logger.FatalAlwaysPasses | src/logger.c:124-133 | within [DEBUG, FATAL], a fatal message always passes, and the threshold is the least severity that passes |
| Logger.DefaultFilters | src/logger.c:79-105 | at the INFO threshold, debug is suppressed and info, warning, error and fatal pass |
| Logger.Logger.constructor | src/logger.c:10-13 | LEVEL starts at INFO and no log file is initialised or open |
| Logger.Logger.CheckLevel | src/logger.c:74-77 | a severity passes exactly when it is at least LEVEL |
| Logger.Logger.SetLogLevel | src/logger.c:124-133 | a level in [10,50] becomes LEVEL; any other level leaves LEVEL and everything else unchanged |
| Logger.Logger.EnsureLogFile | src/logger.c:28-41 | the first call marks the file initialised and makes the one open attempt; later calls change nothing, even after a failed attempt |
| Logger.Logger.LogMessage | src/logger.c:44-72 | the file is ensured, and the line is appended exactly when the file is open |
| Logger.Logger.LogAt | src/logger.c:79-105 | a severity below LEVEL changes nothing; otherwise the file is opened on the first message that passes, and stays open or closed as that one attempt left it, and the line is appended exactly when the file is open |
| Logger.Logger.LogDebug | src/logger.c:79-84 | below the threshold nothing changes; otherwise the file is opened on the first message that passes, and stays open or closed as that one attempt left it, and "DEBUG" with the message is appended exactly when the file is open |
| Logger.Logger.LogInfo | src/logger.c:86-91 | below the threshold nothing changes; otherwise the file is opened on the first message that passes, and stays open or closed as that one attempt left it, and "INFO" with the message is appended exactly when the file is open |
| Logger.Logger.LogWarning | src/logger.c:93-98 | below the threshold nothing changes; otherwise the file is opened on the first message that passes, and stays open or closed as that one attempt left it, and "WARNING" with the message is appended exactly when the file is open |
| Logger.Logger.LogError | src/logger.c:100-105 | below the threshold nothing changes; otherwise the file is opened on the first message that passes, and stays open or closed as that one attempt left it, and "ERROR" with the message is appended exactly when the file is open |
| Logger.Logger.LogFatal | src/logger.c:115-122 | since LEVEL never exceeds FATAL, the file is ensured as by any first message, "FATAL" with the message is appended exactly when the file is open, and the message is always printed on the console |
| Logger.FailedOpenStaysClosed | src/logger.c:28-41 | after a failed first fopen, later messages reach no file even if fopen would now succeed; log_fatal still prints on the console |
| Logger.DefaultThresholdWrites | src/logger.c:74-122 | with the file open at the INFO threshold, an info line is written, a debug line is filtered out, and a fatal line is written and printed |
| Monitor.ToMb | src/main.c:109-110 | whole mebibytes rounded down: mb * 2^20 <= bytes < (mb + 1) * 2^20 |
| Monitor.Startup | src/main.c:23-33 | startup succeeds exactly when the core count is not -1 and the total memory is not 0; it fails when sysconf reports no cores or /proc/meminfo cannot be opened |
| Monitor.Polled | src/main.c:66-72 | the input state after the first n polls of a tick, each one input_handle with the previous snapshot's row count; polls past the given ones return ERR |
| Monitor.PolledKeeps | src/main.c:66-72 | the polls of a tick keep the term within 255 characters and never withdraw an exit request |
| Monitor.QuitInPollExits | src/main.c:66-72 | after the polls of a tick, should_exit is set exactly when it was set before or one of the polls read `q` or `Q` |
| Monitor.Normalised | src/main.c:88-91 | when both sort flags are set, sort_mem is cleared and CPU wins; otherwise nothing changes; the flags are never both set afterwards |
| Monitor.Collected | src/main.c:77-78 | a snapshot holds at most MAX_PROCESSES records |
| Monitor.Delta | src/main.c:80-81 | the difference of two readings as uint64_t: itself when in range, plus 2^64 when negative |
| Monitor.SortDispatch | src/main.c:93-100 | the snapshot is ordered by CPU if sort_cpu, else by memory if sort_mem, else left in collection order; it is always a permutation; the tail is unchanged |
| Monitor.CopyPrefix | src/main.c:127-128 | prev[0..n) becomes curr[0..n) and the rest of prev is unchanged |
| Monitor.Monitor.constructor | src/main.c:43-62 | the input state is initial, prev holds the first snapshot, the baselines are the first readings, and the first iteration is pending |
| Monitor.Monitor.PollInput | src/main.c:66-72 | ten calls of input_handle, each with prev_count rows, give the state Polled describes |
| Monitor.Monitor.Snapshot | src/main.c:77-100 | curr holds, as a permutation, the collected records with their stats against prev; the flags are normalised; the order follows the dispatch |
| Monitor.Monitor.Draw | src/main.c:102-124 | the frame carries the uptime, the load from the active delta, used and total memory in MB, the count, the sort flags and the rows of the current snapshot |
| Monitor.Monitor.BeginTick | src/main.c:64-73 | the first tick skips the keyboard; every later tick applies the ten polls |
| Monitor.Monitor.Advance | src/main.c:75-131 | after snapshot, draw and copy: prev holds a permutation of the stats of the new sample in dispatch order, and exactly those stats in collection order when neither sort flag is set; prev_count is its size, both baselines advance, and one frame is appended |
| Monitor.Monitor.Tick | src/main.c:63-132 | one iteration: polled and normalised input; prev is a permutation of the stats of the new sample in dispatch order, and exactly those stats in collection order when neither sort flag is set; prev equals curr on the prefix; the baselines advance; the new frame shows the load from the active delta and the rows of the new snapshot |
| Monitor.Monitor.Step | src/main.c:63-132 | one pass of the loop body: one frame is drawn, the first iteration is over, and should_exit is set exactly when it was before or this tick polled the keyboard and read `q` or `Q` |
| Monitor.Monitor.Run | src/main.c:63-132 | ticks while should_exit is clear: no tick but the last read `q` or `Q`, and should_exit at the end is set exactly when it was at the start or the last tick read one, so a `q` read during a tick ends the loop right after it; it stops before all samples are used only when exit was requested, does nothing when exit was already requested, and draws one frame per tick |
| Monitor.Launch | src/main.c:19-139 | exit status 1 exactly when a startup check fails, 0 otherwise |

## Left out

- The system calls behind the data are not modelled: `fopen`, `open`, `read`, `opendir`, `readdir`, `sysconf` and `nanosleep`. Their results are parameters. fscanf and sscanf are modelled only by the conversion counts and values they produce.
- `fgets` splitting a `/proc/meminfo` line longer than 255 bytes into several lines is not modelled; each line is given as recognised.
- ncurses is not modelled: drawing, colours, the cursor, `getch` timeouts and `display_header`'s layout. A frame holds the figures passed to `display_header` and the row data.
- The digits printed by `%.2f`, `%.1f` and `%.0f` are not modelled. Display.MemoryUnits chooses the precision but does not render it.
- `handle_kill` and `kill()` (src/input.c:88-156) are OS side effects and are not modelled. In the model the kill keys only clamp the offset.
- IEEE double rounding is not modelled. Percentages, the load and the uptime reading are reals.
- Overflow of the `long` counter sums in `read_total_cpu_time` and `read_active_cpu_time` is not modelled. Neither is overflow of `int` in `scroll_offset`, in the cast of the uptime to `int`, or in `atoi` on a /proc entry whose digits exceed INT_MAX (src/process.c:152; Process.Atoi returns an unbounded natural). Those values are mathematical integers.
- Logger timestamps, `strftime`, `gettimeofday`, creating the `logs` folder and the bytes written to the file are not modelled. A logged line is its severity name and message.
- The logging calls made by `main`, `input_handle`, `collect_processes` and the readers are not modelled.
- The malloc failure path of `main` (src/main.c:50-56) is not modelled. Allocation does not fail in the model.
- qsort's order among records with equal keys is left open. `Sort.QSort` is an insertion sort, and only order and permutation are stated.
- Input.SearchSession: the prompt loops until ESC or Enter, and the model also ends the session when the given keys run out.
- Monitor.Monitor.Run: the C loop runs until exit is requested, and the model also stops when the given samples run out.
- Monitor: `get_page_size` is called once and the result kept, rather than called for every record. sysconf gives the same page size throughout a run.
- The NULL search term accepted by `display_process_info` is not modelled. `main` always passes the `search_term` array.
- Cpu.GetCpuCores: the ensures gives the result only for counts that fit in an int. The wrap of larger counts is in its body (`ToI32`) and is not restated.
- Cpu.TotalCpuTime and Cpu.ActiveCpuTime: the ensures only covers the error case. The relation between the two sums is stated by Cpu.ActivePlusIdle.
- Input.InputState.Handle requires the object invariant `Valid()`: the term is at most 255 characters and the offset is not negative. `input_init` establishes it and every key keeps it; it stands for the 256-byte `search_term` array.
- Display.RowLoop requires at least one row per page. Its only caller, Display.DisplayProcessInfo, always passes Display.MaxDisplay, which is at least 1.
