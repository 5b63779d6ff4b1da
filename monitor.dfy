/**
 * The program's main loop: the startup checks, then one tick after another
 * until exit is requested. A tick polls the keyboard (except on the first
 * tick), takes a new snapshot, fills in its percentages from the previous
 * snapshot, sorts it as the input state says, computes the header figures,
 * selects the rows to draw, and makes the new snapshot the previous one.
 *
 * What the operating system would answer during a tick (keys, /proc
 * contents, terminal height) is a Sample.
 */
module Monitor {
  import opened CTypes
  import opened Process
  import opened Sort
  import opened Input
  import opened System
  import opened Cpu
  import opened Mem
  import opened Display

  /** Length of a tick; also the interval the CPU load is computed over. */
  const REFRESH_INTERVAL_MS: int := 800

  /** Keyboard polls in every tick after the first. */
  const POLLS_PER_TICK: int := 10

  const BYTES_PER_MB: int := 1024 * 1024

  /** Whole mebibytes in a byte count, rounded down (uint64_t division). */
  function ToMb(bytes: uint64): (mb: uint64)
    ensures mb as int * BYTES_PER_MB <= bytes as int < (mb as int + 1) * BYTES_PER_MB
  {
    bytes / BYTES_PER_MB as uint64
  }

  /** One keyboard poll: the key getch returns, and the keys a search prompt would then read. */
  datatype Poll = Poll(key: int, searchKeys: seq<int>)

  /** What the system answers during one tick. */
  datatype Sample = Sample(
    polls: seq<Poll>,                    // the polls of this tick; missing ones return ERR
    totalStat: Option<CpuLine>,          // /proc/stat as read by read_total_cpu_time
    activeStat: Option<CpuLine>,         // /proc/stat as read by read_active_cpu_time
    dir: Option<seq<string>>,            // the /proc entries
    fs: ProcFs,                          // the per-process files
    meminfo: Option<seq<MeminfoLine>>,   // /proc/meminfo as read by read_used_mem_bytes
    uptime: Option<real>,                // /proc/uptime
    lines: int)                          // LINES

  /** The figures display_header shows, and the table rows. */
  datatype Frame = Frame(
    uptime: Uptime,
    cpuLoad: real,
    usedMemMb: uint64,
    totalMemMb: uint64,
    processCount: int,
    sortCpu: bool,
    sortMem: bool,
    reversed: bool,
    rows: seq<Row>)

  /**
   * The startup checks of main: the core count and the total memory, each
   * failing the program (exit status 1) before the display is set up.
   */
  function Startup(onlineCpus: int, meminfo: Option<seq<MeminfoLine>>): (r: Option<(int, uint64)>)
    ensures r.Some? <==> GetCpuCores(onlineCpus) != -1 && TotalMemBytes(meminfo) != 0
    ensures r.Some? ==> r.value == (GetCpuCores(onlineCpus), TotalMemBytes(meminfo))
    ensures onlineCpus <= 0 ==> r.None?
    ensures meminfo.None? ==> r.None?
  {
    var cores := GetCpuCores(onlineCpus);
    if cores == -1 then None
    else
      var total := TotalMemBytes(meminfo);
      if total == 0 then None
      else Some((cores, total))
  }

  /** The poll made at position i of a tick; a poll past the given ones returns ERR. */
  function PollAt(polls: seq<Poll>, i: nat): (p: Poll)
  {
    if i < |polls| then polls[i] else Poll(ERR, [])
  }

  /** The input state after the first n polls of a tick, each clamped against `count` rows. */
  function Polled(v: InputView, polls: seq<Poll>, count: int, n: nat): (r: InputView)
  {
    if n == 0 then v
    else
      var p := PollAt(polls, n - 1);
      HandleKey(Polled(v, polls, count, n - 1), p.key, count, p.searchKeys)
  }

  /** Polling keeps the search term within 255 characters and never withdraws an exit request. */
  lemma {:induction false} PolledKeeps(v: InputView, polls: seq<Poll>, count: int, n: nat)
    requires |v.searchTerm| <= MAX_TERM
    ensures |Polled(v, polls, count, n).searchTerm| <= MAX_TERM
    ensures v.shouldExit ==> Polled(v, polls, count, n).shouldExit
  {
    if n > 0 {
      PolledKeeps(v, polls, count, n - 1);
      var p := PollAt(polls, n - 1);
      TermBounded(Polled(v, polls, count, n - 1), p.key, count, p.searchKeys);
      ExitRequests(Polled(v, polls, count, n - 1), p.key, count, p.searchKeys);
    }
  }

  /** A key that requests exit. */
  predicate IsQuitKey(key: int)
  {
    key == 'q' as int || key == 'Q' as int
  }

  /** One of the first n polls of a tick returned q or Q. */
  predicate QuitPolled(polls: seq<Poll>, n: nat)
  {
    exists i :: 0 <= i < n && i < |polls| && IsQuitKey(polls[i].key)
  }

  /** After the first n polls, exit is requested exactly when it already was or one of those polls was q or Q. */
  lemma {:induction false} QuitInPollExits(v: InputView, polls: seq<Poll>, count: int, n: nat)
    ensures Polled(v, polls, count, n).shouldExit <==> v.shouldExit || QuitPolled(polls, n)
  {
    if n > 0 {
      QuitInPollExits(v, polls, count, n - 1);
      var p := PollAt(polls, n - 1);
      ExitRequests(Polled(v, polls, count, n - 1), p.key, count, p.searchKeys);
      if QuitPolled(polls, n) && !QuitPolled(polls, n - 1) {
        var i :| 0 <= i < n && i < |polls| && IsQuitKey(polls[i].key);
        assert i == n - 1 && p == polls[i];
      }
      if n - 1 < |polls| && IsQuitKey(polls[n - 1].key) {
        assert p == polls[n - 1];
      }
    }
  }

  /** Tick k of a run read q or Q from the keyboard; the first tick of a fresh monitor reads no keys. */
  predicate QuitAt(samples: seq<Sample>, k: nat, firstPending: bool)
  {
    k < |samples| && !(k == 0 && firstPending) && QuitPolled(samples[k].polls, POLLS_PER_TICK)
  }

  /** The sort-flag check of main: when both flags are set, CPU sorting wins. */
  function Normalised(v: InputView): (r: InputView)
    ensures !(r.sortCpu && r.sortMem)
    ensures r.sortCpu == v.sortCpu
    ensures v.sortCpu && v.sortMem ==> r == v.(sortMem := false)
    ensures !(v.sortCpu && v.sortMem) ==> r == v
  {
    if v.sortCpu && v.sortMem then v.(sortMem := false) else v
  }

  /** The order the sort dispatch leaves: by CPU, else by memory, else the collection order. */
  predicate OrderedFor(s: seq<ProcessInfo>, v: InputView)
  {
    if v.sortCpu then
      (v.reversed ==> forall i, j :: 0 <= i < j < |s| ==> s[i].cpuPercent <= s[j].cpuPercent)
      && (!v.reversed ==> forall i, j :: 0 <= i < j < |s| ==> s[i].cpuPercent >= s[j].cpuPercent)
    else if v.sortMem then
      (v.reversed ==> forall i, j :: 0 <= i < j < |s| ==> s[i].memPercent <= s[j].memPercent)
      && (!v.reversed ==> forall i, j :: 0 <= i < j < |s| ==> s[i].memPercent >= s[j].memPercent)
    else true
  }

  /** The records collect_processes keeps from a sample, in directory order. */
  function Collected(s: Sample, pageSize: uint64): (r: seq<ProcessInfo>)
    ensures |r| <= MAX_PROCESSES
  {
    if s.dir.None? then [] else Take(Gathered(s.dir.value, s.fs, pageSize), MAX_PROCESSES)
  }

  /** The difference of two successive counter readings as main stores it: a long converted to uint64_t. */
  function Delta(curr: int, prev: int): (d: uint64)
    ensures 0 <= curr - prev < TWO_TO_THE_64 ==> d == curr - prev
    ensures -TWO_TO_THE_64 <= curr - prev < 0 ==> d == curr - prev + TWO_TO_THE_64
  {
    ToU64(curr - prev)
  }

  /** The sort dispatch of main for the input state v. */
  method SortDispatch(a: array<ProcessInfo>, n: nat, v: InputView)
    requires n <= a.Length
    modifies a
    ensures OrderedFor(a[..n], v)
    ensures multiset(a[..n]) == old(multiset(a[..n]))
    ensures !v.sortCpu && !v.sortMem ==> a[..n] == old(a[..n])
    ensures a[n..] == old(a[n..])
  {
    if v.sortCpu {
      SortByCpu(a, n, v.reversed);
    } else if v.sortMem {
      SortByMem(a, n, v.reversed);
    }
  }

  /** memcpy(prev, curr, n * sizeof(ProcessInfo)) */
  method CopyPrefix(dst: array<ProcessInfo>, src: array<ProcessInfo>, n: nat)
    requires dst != src && n <= dst.Length && n <= src.Length
    modifies dst
    ensures dst[..n] == src[..n]
    ensures dst[n..] == old(dst[n..])
  {
    forall k | 0 <= k < n {
      dst[k] := src[k];
    }
  }

  /** The monitor's state across ticks: the two snapshot buffers, the baselines and the input state. */
  class Monitor {
    const cpuCores: int
    const totalMemBytes: uint64
    const pageSize: uint64
    const input: InputState
    const prev: array<ProcessInfo>
    const curr: array<ProcessInfo>
    var prevCount: nat
    var totalCpuPrev: int
    var activeCpuPrev: int
    var firstIteration: bool
    /** The frames drawn so far. */
    var frames: seq<Frame>

    ghost predicate Valid()
      reads this, input
    {
      prev.Length == MAX_PROCESSES && curr.Length == MAX_PROCESSES && prev != curr
      && prevCount <= MAX_PROCESSES && input.Valid()
    }

    /**
     * main up to the loop: the input state is initialised, the first
     * snapshot is collected into prev, and the two baselines are read.
     */
    constructor (cores: int, totalMem: uint64, pageSizeReport: int, first: Sample)
      ensures Valid() && fresh(input) && fresh(prev) && fresh(curr)
      ensures cpuCores == cores && totalMemBytes == totalMem && pageSize == GetPageSize(pageSizeReport)
      ensures input.View() == InitialInput()
      ensures prev[..prevCount] == Collected(first, pageSize)
      ensures totalCpuPrev == TotalCpuTime(first.totalStat) && activeCpuPrev == ActiveCpuTime(first.activeStat)
      ensures firstIteration && frames == []
    {
      cpuCores := cores;
      totalMemBytes := totalMem;
      pageSize := GetPageSize(pageSizeReport);
      input := new InputState();
      var p := new ProcessInfo[MAX_PROCESSES](_ => ProcessInfo(0, "", "", false, false, false, 0, 0, 0, 0.0, 0, 0.0));
      var c := new ProcessInfo[MAX_PROCESSES](_ => ProcessInfo(0, "", "", false, false, false, 0, 0, 0, 0.0, 0, 0.0));
      var n := CollectProcesses(p, MAX_PROCESSES, first.dir, first.fs, GetPageSize(pageSizeReport));
      prev := p;
      curr := c;
      prevCount := n;
      totalCpuPrev := TotalCpuTime(first.totalStat);
      activeCpuPrev := ActiveCpuTime(first.activeStat);
      firstIteration := true;
      frames := [];
    }

    /** The ten polls of a tick: input_handle with the previous snapshot's length. */
    method PollInput(polls: seq<Poll>)
      requires Valid()
      modifies input
      ensures Valid()
      ensures input.View() == Polled(old(input.View()), polls, prevCount, POLLS_PER_TICK)
    {
      var i := 0;
      while i < POLLS_PER_TICK
        invariant 0 <= i <= POLLS_PER_TICK
        invariant Valid()
        invariant input.View() == Polled(old(input.View()), polls, prevCount, i)
      {
        var p := PollAt(polls, i);
        input.Handle(p.key, prevCount, p.searchKeys);
        i := i + 1;
      }
    }

    /**
     * The snapshot part of a tick: collect into curr, fill in the
     * percentages against prev, normalise the sort flags and sort.
     */
    method Snapshot(s: Sample, totalCpuDelta: uint64) returns (currCount: nat)
      requires Valid()
      modifies curr, input
      ensures Valid()
      ensures currCount == |Collected(s, pageSize)|
      ensures input.View() == Normalised(old(input.View()))
      ensures multiset(curr[..currCount])
        == multiset(Stats(Collected(s, pageSize), prev[..prevCount], totalCpuDelta, totalMemBytes))
      ensures OrderedFor(curr[..currCount], input.View())
      ensures !input.sortCpu && !input.sortMem ==>
        curr[..currCount] == Stats(Collected(s, pageSize), prev[..prevCount], totalCpuDelta, totalMemBytes)
    {
      var n := CollectProcesses(curr, MAX_PROCESSES, s.dir, s.fs, pageSize);
      currCount := n;
      ghost var collected := curr[..currCount];
      assert collected == Collected(s, pageSize);
      ComputeProcessStats(curr, currCount, prev, prevCount, totalCpuDelta, totalMemBytes);
      ghost var stats := curr[..currCount];
      assert stats == Stats(Collected(s, pageSize), prev[..prevCount], totalCpuDelta, totalMemBytes);
      if input.sortCpu && input.sortMem {
        input.sortMem := false;
      }
      SortDispatch(curr, currCount, input.View());
    }

    /** The header figures and the table of a tick, drawn from curr and the input state. */
    method Draw(s: Sample, currCount: nat, activeCpuDelta: uint64) returns (frame: Frame)
      requires Valid() && currCount <= MAX_PROCESSES
      ensures frame == Frame(ReadUptime(s.uptime), CpuLoad(activeCpuDelta, REFRESH_INTERVAL_MS, cpuCores),
        ToMb(UsedMemBytes(s.meminfo)), ToMb(totalMemBytes), currCount,
        input.sortCpu, input.sortMem, input.reversed,
        Rows(Selected(curr[..currCount], input.scrollOffset, input.searchTerm, s.lines)))
    {
      var cpuLoad := CpuLoad(activeCpuDelta, REFRESH_INTERVAL_MS, cpuCores);
      var usedMemBytes := ReadUsedMemBytes(s.meminfo);
      var rows := DisplayProcessInfo(curr, currCount, input.scrollOffset, input.searchTerm, s.lines);
      frame := Frame(ReadUptime(s.uptime), cpuLoad, ToMb(usedMemBytes), ToMb(totalMemBytes),
                     currCount, input.sortCpu, input.sortMem, input.reversed, rows);
    }

    /** The start of a tick: the first tick skips the keyboard, every later one polls it. */
    method BeginTick(polls: seq<Poll>)
      requires Valid()
      modifies this, input
      ensures Valid() && !firstIteration
      ensures input.View() == if old(firstIteration) then old(input.View())
                              else Polled(old(input.View()), polls, prevCount, POLLS_PER_TICK)
      ensures prevCount == old(prevCount) && frames == old(frames)
      ensures totalCpuPrev == old(totalCpuPrev) && activeCpuPrev == old(activeCpuPrev)
    {
      if firstIteration {
        firstIteration := false;
      } else {
        PollInput(polls);
        firstIteration := false;
      }
    }

    /**
     * The rest of a tick: snapshot into curr, draw the frame, copy curr
     * into prev and carry the CPU baselines forward.
     */
    method Advance(s: Sample)
      requires Valid()
      modifies this`prevCount, this`totalCpuPrev, this`activeCpuPrev, this`frames, input, prev, curr
      ensures Valid()
      ensures input.View() == Normalised(old(input.View()))
      ensures prevCount == |Collected(s, pageSize)|
      ensures multiset(prev[..prevCount]) == multiset(Stats(Collected(s, pageSize), old(prev[..prevCount]),
        Delta(TotalCpuTime(s.totalStat), old(totalCpuPrev)), totalMemBytes))
      ensures OrderedFor(prev[..prevCount], input.View())
      ensures !input.sortCpu && !input.sortMem ==>
        prev[..prevCount] == Stats(Collected(s, pageSize), old(prev[..prevCount]),
          Delta(TotalCpuTime(s.totalStat), old(totalCpuPrev)), totalMemBytes)
      ensures prev[..prevCount] == curr[..prevCount]
      ensures totalCpuPrev == TotalCpuTime(s.totalStat) && activeCpuPrev == ActiveCpuTime(s.activeStat)
      ensures frames == old(frames) + [Frame(ReadUptime(s.uptime),
        CpuLoad(Delta(ActiveCpuTime(s.activeStat), old(activeCpuPrev)), REFRESH_INTERVAL_MS, cpuCores),
        ToMb(UsedMemBytes(s.meminfo)), ToMb(totalMemBytes), prevCount,
        input.sortCpu, input.sortMem, input.reversed,
        Rows(Selected(prev[..prevCount], input.scrollOffset, input.searchTerm, s.lines)))]
    {
      ghost var prev0 := prev[..prevCount];
      var totalCpuCurr := TotalCpuTime(s.totalStat);
      var activeCpuCurr := ActiveCpuTime(s.activeStat);
      var totalCpuDelta := Delta(totalCpuCurr, totalCpuPrev);
      var activeCpuDelta := Delta(activeCpuCurr, activeCpuPrev);
      var currCount := Snapshot(s, totalCpuDelta);
      ghost var sorted := curr[..currCount];
      ghost var view1 := input.View();
      assert multiset(sorted) == multiset(Stats(Collected(s, pageSize), prev0, totalCpuDelta, totalMemBytes));
      var frame := Draw(s, currCount, activeCpuDelta);
      frames := frames + [frame];
      CopyPrefix(prev, curr, currCount);
      assert prev[..currCount] == sorted && curr[..currCount] == sorted;
      assert input.View() == view1;
      prevCount := currCount;
      totalCpuPrev := totalCpuCurr;
      activeCpuPrev := activeCpuCurr;
    }

    /** One iteration of the main loop. */
    method Tick(s: Sample)
      requires Valid()
      modifies this, input, prev, curr
      ensures Valid()
      ensures !firstIteration
      ensures var polled := if old(firstIteration) then old(input.View())
                            else Polled(old(input.View()), s.polls, old(prevCount), POLLS_PER_TICK);
        input.View() == Normalised(polled)
      ensures prevCount == |Collected(s, pageSize)|
      ensures multiset(prev[..prevCount]) == multiset(Stats(Collected(s, pageSize), old(prev[..prevCount]),
        Delta(TotalCpuTime(s.totalStat), old(totalCpuPrev)), totalMemBytes))
      ensures OrderedFor(prev[..prevCount], input.View())
      ensures !input.sortCpu && !input.sortMem ==>
        prev[..prevCount] == Stats(Collected(s, pageSize), old(prev[..prevCount]),
          Delta(TotalCpuTime(s.totalStat), old(totalCpuPrev)), totalMemBytes)
      ensures prev[..prevCount] == curr[..prevCount]
      ensures totalCpuPrev == TotalCpuTime(s.totalStat) && activeCpuPrev == ActiveCpuTime(s.activeStat)
      ensures frames == old(frames) + [Frame(ReadUptime(s.uptime),
        CpuLoad(Delta(ActiveCpuTime(s.activeStat), old(activeCpuPrev)), REFRESH_INTERVAL_MS, cpuCores),
        ToMb(UsedMemBytes(s.meminfo)), ToMb(totalMemBytes), prevCount,
        input.sortCpu, input.sortMem, input.reversed,
        Rows(Selected(prev[..prevCount], input.scrollOffset, input.searchTerm, s.lines)))]
    {
      BeginTick(s.polls);
      Advance(s);
    }

    /**
     * One tick as the main loop sees it: a frame is drawn, the first
     * iteration is over, and exit is requested exactly when it already was
     * or this tick polled the keyboard and read q or Q.
     */
    method Step(s: Sample)
      requires Valid()
      modifies this, input, prev, curr
      ensures Valid() && !firstIteration && |frames| == |old(frames)| + 1
      ensures input.shouldExit == (old(input.shouldExit) || (!old(firstIteration) && QuitPolled(s.polls, POLLS_PER_TICK)))
    {
      QuitInPollExits(input.View(), s.polls, prevCount, POLLS_PER_TICK);
      Tick(s);
    }

    /**
     * The main loop: ticks while exit has not been requested. The samples
     * stand for the ticks the system would answer; the loop also ends when
     * they run out. No tick but the last read q or Q, and exit is requested
     * at the end exactly when it was at the start or the last tick read one,
     * so a q or Q read during a tick ends the loop right after that tick.
     */
    method Run(samples: seq<Sample>) returns (ticks: nat)
      requires Valid()
      modifies this, input, prev, curr
      ensures Valid()
      ensures ticks <= |samples|
      ensures ticks < |samples| ==> input.shouldExit
      ensures old(input.shouldExit) ==> ticks == 0
      ensures |frames| == |old(frames)| + ticks
      ensures forall k :: 0 <= k < ticks - 1 ==> !QuitAt(samples, k, old(firstIteration))
      ensures input.shouldExit <==>
        old(input.shouldExit) || (ticks > 0 && QuitAt(samples, ticks - 1, old(firstIteration)))
    {
      ticks := 0;
      while ticks < |samples| && !input.shouldExit
        invariant Valid()
        invariant ticks <= |samples|
        invariant old(input.shouldExit) ==> ticks == 0
        invariant |frames| == |old(frames)| + ticks
        invariant ticks == 0 ==> firstIteration == old(firstIteration)
        invariant ticks > 0 ==> !firstIteration
        invariant forall k :: 0 <= k < ticks - 1 ==> !QuitAt(samples, k, old(firstIteration))
        invariant input.shouldExit <==>
          old(input.shouldExit) || (ticks > 0 && QuitAt(samples, ticks - 1, old(firstIteration)))
      {
        Step(samples[ticks]);
        ticks := ticks + 1;
      }
    }
  }

  /**
   * main: exit status 1 when a startup check fails, before anything is
   * drawn; otherwise the loop runs and the status is 0.
   */
  method Launch(onlineCpus: int, meminfo: Option<seq<MeminfoLine>>, pageSizeReport: int,
                first: Sample, samples: seq<Sample>) returns (status: int)
    ensures status == 1 <==> Startup(onlineCpus, meminfo).None?
    ensures status == 0 <==> Startup(onlineCpus, meminfo).Some?
  {
    var cores := GetCpuCores(onlineCpus);
    if cores == -1 {
      return 1;
    }
    var totalMem := ReadTotalMemBytes(meminfo);
    if totalMem == 0 {
      return 1;
    }
    var m := new Monitor(cores, totalMem, pageSizeReport, first);
    var ticks := m.Run(samples);
    return 0;
  }
}
