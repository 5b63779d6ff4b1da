/**
 * The per-process record and its life cycle: building a record from the
 * fields of /proc/<pid>/stat (read_process), reading the command line into a
 * buffer (read_cmdline), gathering the records of all numeric /proc entries
 * into a bounded array (collect_processes), and the delta engine that fills
 * in the derived percentages from the previous snapshot
 * (compute_process_stats).
 *
 * The file system is a parameter: ProcFs says what reading a pid's stat and
 * cmdline files yields.
 */
module Process {
  import opened CTypes

  /** Capacity of the snapshot arrays. */
  const MAX_PROCESSES: int := 4096
  /** Longest stored process name. */
  const NAME_LIMIT: int := 40
  /** sizeof(ProcessInfo.cmdline). */
  const CMDLINE_SIZE: int := 512
  const NUL: char := '\0'

  /** One process of a snapshot. The last four derived fields are written by ComputeProcessStats. */
  datatype ProcessInfo = ProcessInfo(
    pid: int,
    name: string,
    cmdline: string,
    cpuValid: bool,
    memValid: bool,
    cmdValid: bool,
    rssKb: int,
    utime: uint64,      // user time, in jiffies
    stime: uint64,      // system time, in jiffies
    cpuPercent: real,
    memBytes: uint64,   // resident memory of the process, in bytes
    memPercent: real)

  /**
   * What the scan of /proc/<pid>/stat produced: the number of conversions it
   * completed, and the pid, comm token, state, utime, stime and rss fields.
   * Fields beyond `conversions` are meaningless.
   */
  datatype StatScan = StatScan(
    conversions: int, pid: int, comm: string, state: char,
    utime: uint64, stime: uint64, rss: uint64)

  /**
   * The two per-process files: a pid missing from `stat` is a stat file that
   * cannot be opened; a pid missing from `cmdline` is a cmdline file that
   * cannot be opened or read; otherwise `cmdline[pid]` is its whole content.
   */
  datatype ProcFs = ProcFs(stat: map<int, StatScan>, cmdline: map<int, seq<char>>)

  // ---------------------------------------------------------------------
  // Names

  predicate Parenthesised(comm: string)
  {
    |comm| > 2 && comm[0] == '(' && comm[|comm| - 1] == ')'
  }

  /** comm without its surrounding parentheses, when it has them. */
  function Unwrapped(comm: string): (r: string)
    ensures Parenthesised(comm) ==> comm == "(" + r + ")"
    ensures !Parenthesised(comm) ==> r == comm
  {
    if Parenthesised(comm) then comm[1..|comm| - 1] else comm
  }

  /** The name read_process stores: the longest prefix of Unwrapped(comm) of at most NAME_LIMIT characters. */
  function StoredName(comm: string): (name: string)
    ensures name <= Unwrapped(comm)
    ensures |name| == Min(|Unwrapped(comm)|, NAME_LIMIT)
    ensures |name| <= NAME_LIMIT
  {
    var inner := Unwrapped(comm);
    inner[..Min(|inner|, NAME_LIMIT)]
  }

  // ---------------------------------------------------------------------
  // Command lines

  function Despace(c: char): char
  {
    if c == NUL then ' ' else c
  }

  /** The bytes read_cmdline leaves in the buffer: every NUL except the last byte becomes a space. */
  function Rewritten(bytes: seq<char>): (r: seq<char>)
    requires |bytes| > 0
    ensures |r| == |bytes|
    ensures forall k :: 0 <= k < |bytes| - 1 ==> r[k] == Despace(bytes[k])
    ensures r[|bytes| - 1] == bytes[|bytes| - 1]
  {
    seq(|bytes| - 1, k requires 0 <= k < |bytes| - 1 => Despace(bytes[k])) + [bytes[|bytes| - 1]]
  }

  /** How many bytes one read() into a buffer of `size` bytes delivers: at most size - 1. */
  function ReadLength(content: seq<char>, size: int): int
  {
    Min(|content|, size - 1)
  }

  /** The C string a char buffer holds: everything before its first NUL. */
  function CString(buf: seq<char>): (s: string)
    ensures s <= buf
    ensures NUL !in s
    ensures |s| < |buf| ==> buf[|s|] == NUL
  {
    if |buf| == 0 || buf[0] == NUL then [] else [buf[0]] + CString(buf[1..])
  }

  /** A NUL-free prefix followed by a NUL (or the end) is the C string of the buffer. */
  lemma {:induction false} CStringUnique(buf: seq<char>, s: string)
    requires s <= buf && NUL !in s
    requires |s| < |buf| ==> buf[|s|] == NUL
    ensures CString(buf) == s
  {
    if |s| > 0 {
      assert buf[0] == s[0];
      CStringUnique(buf[1..], s[1..]);
    }
  }

  /**
   * The command line text stored for the bytes read: NULs read as spaces,
   * and a final NUL terminates the text instead.
   */
  function CommandText(bytes: seq<char>): (s: string)
    requires |bytes| > 0
    ensures NUL !in s
    ensures |s| == (if bytes[|bytes| - 1] == NUL then |bytes| - 1 else |bytes|)
    ensures forall k :: 0 <= k < |s| ==> s[k] == Despace(bytes[k])
  {
    var last := |bytes| - 1;
    seq(last, k requires 0 <= k < last => Despace(bytes[k])) + (if bytes[last] == NUL then [] else [bytes[last]])
  }

  /** The command line recorded for pid, or None when read_cmdline fails. */
  function CommandLine(fs: ProcFs, pid: int): (r: Option<string>)
    ensures r.Some? <==> pid in fs.cmdline && |fs.cmdline[pid]| > 0
    ensures r.Some? ==> |r.value| < CMDLINE_SIZE && NUL !in r.value
  {
    if pid in fs.cmdline && |fs.cmdline[pid]| > 0 then
      var content := fs.cmdline[pid];
      Some(CommandText(content[..ReadLength(content, CMDLINE_SIZE)]))
    else None
  }

  /** A buffer holding Rewritten(bytes) and then a NUL holds CommandText(bytes) as its C string. */
  lemma BufferText(buf: seq<char>, bytes: seq<char>)
    requires 0 < |bytes| < |buf|
    requires buf[..|bytes|] == Rewritten(bytes) && buf[|bytes|] == NUL
    ensures CString(buf) == CommandText(bytes)
  {
    var s := CommandText(bytes);
    var n := |bytes|;
    assert forall k :: 0 <= k < |s| ==> buf[k] == s[k] by {
      forall k | 0 <= k < |s| ensures buf[k] == s[k] {
        assert buf[k] == buf[..n][k];
      }
    }
    assert |s| < n ==> buf[|s|] == NUL by {
      if |s| < n {
        assert buf[n - 1] == buf[..n][n - 1];
      }
    }
    CStringUnique(buf, s);
  }

  /**
   * read_cmdline: one read() of at most buf.Length - 1 bytes, then every NUL
   * but the last byte read becomes a space and a NUL is stored after the
   * bytes. Returns -1, leaving the buffer alone, when the file cannot be read
   * or is empty.
   */
  method ReadCmdline(pid: int, fs: ProcFs, buf: array<char>) returns (rc: int)
    requires buf.Length > 0
    modifies buf
    ensures rc == 0 || rc == -1
    ensures rc == 0 <==> pid in fs.cmdline && ReadLength(fs.cmdline[pid], buf.Length) > 0
    ensures rc == -1 ==> buf[..] == old(buf[..])
    ensures rc == 0 ==>
      var n := ReadLength(fs.cmdline[pid], buf.Length);
      && 0 < n < buf.Length
      && buf[..n] == Rewritten(fs.cmdline[pid][..n])
      && buf[n] == NUL
      && buf[n + 1..] == old(buf[n + 1..])
  {
    if pid !in fs.cmdline {
      return -1;
    }
    var content := fs.cmdline[pid];
    var n := ReadLength(content, buf.Length);
    if n <= 0 {
      return -1;
    }
    // the read() itself
    forall k | 0 <= k < n {
      buf[k] := content[k];
    }
    var i := 0;
    while i < n - 1
      invariant 0 <= i <= n - 1
      invariant forall k :: 0 <= k < i ==> buf[k] == Despace(content[k])
      invariant forall k :: i <= k < n ==> buf[k] == content[k]
      invariant forall k :: n <= k < buf.Length ==> buf[k] == old(buf[k])
    {
      if buf[i] == NUL {
        buf[i] := ' ';
      }
      i := i + 1;
    }
    buf[n] := NUL;
    assert buf[..n] == Rewritten(content[..n]);
    rc := 0;
  }

  // ---------------------------------------------------------------------
  // Records

  /** The record read_process builds for pid, or None when it returns -1. */
  function ProcessRecord(pid: int, fs: ProcFs, pageSize: uint64): (r: Option<ProcessInfo>)
    ensures r.Some? <==> pid in fs.stat && fs.stat[pid].conversions >= 6
    ensures r.Some? ==>
      var scan, p := fs.stat[pid], r.value;
      && p.pid == scan.pid && p.name == StoredName(scan.comm)
      && p.utime == scan.utime && p.stime == scan.stime
      && p.memBytes == Mul64(scan.rss, pageSize) && p.rssKb == p.memBytes / 1024
      && !p.cpuValid && p.cpuPercent == 0.0
      && p.memValid && p.memPercent == 0.0
      && (p.cmdValid <==> CommandLine(fs, scan.pid).Some?)
      && p.cmdline == (if p.cmdValid then CommandLine(fs, scan.pid).value else "")
  {
    if pid in fs.stat && fs.stat[pid].conversions >= 6 then
      var scan := fs.stat[pid];
      var cmd := CommandLine(fs, scan.pid);
      var memBytes := Mul64(scan.rss, pageSize);
      Some(ProcessInfo(
        pid := scan.pid, name := StoredName(scan.comm),
        cmdline := if cmd.Some? then cmd.value else "",
        cpuValid := false, memValid := true, cmdValid := cmd.Some?,
        rssKb := memBytes / 1024, utime := scan.utime, stime := scan.stime,
        cpuPercent := 0.0, memBytes := memBytes, memPercent := 0.0))
    else None
  }

  /**
   * read_process: fills slot `at` of `list` (the C pointer p) with the record
   * for pid and returns 0, or returns -1 without writing anything when the
   * stat file cannot be opened or fewer than six of its fields convert. The
   * command line comes from ReadCmdline on a buffer of CMDLINE_SIZE bytes.
   */
  method ReadProcess(pid: int, fs: ProcFs, pageSize: uint64, list: array<ProcessInfo>, at: nat)
    returns (rc: int)
    requires at < list.Length
    modifies list
    ensures rc == 0 || rc == -1
    ensures rc == 0 <==> ProcessRecord(pid, fs, pageSize).Some?
    ensures rc == -1 ==> list[..] == old(list[..])
    ensures rc == 0 ==> list[..] == old(list[..])[at := ProcessRecord(pid, fs, pageSize).value]
  {
    if pid !in fs.stat {
      return -1;
    }
    var scan := fs.stat[pid];
    if scan.conversions < 6 {
      return -1;
    }
    var memBytes := Mul64(scan.rss, pageSize);
    var buf := new char[CMDLINE_SIZE];
    var cmdRc := ReadCmdline(scan.pid, fs, buf);
    var cmdline := "";
    if cmdRc == 0 {
      BufferText(buf[..], fs.cmdline[scan.pid][..ReadLength(fs.cmdline[scan.pid], CMDLINE_SIZE)]);
      cmdline := CString(buf[..]);
    }
    list[at] := ProcessInfo(
      pid := scan.pid, name := StoredName(scan.comm), cmdline := cmdline,
      cpuValid := false, memValid := true, cmdValid := cmdRc == 0,
      rssKb := memBytes / 1024, utime := scan.utime, stime := scan.stime,
      cpuPercent := 0.0, memBytes := memBytes, memPercent := 0.0);
    rc := 0;
  }

  // ---------------------------------------------------------------------
  // Collecting a snapshot

  predicate IsDigit(c: char)
  {
    '0' <= c <= '9'
  }

  /** A /proc entry that names a process: its first character is a digit. */
  predicate IsPidEntry(name: string)
  {
    |name| > 0 && IsDigit(name[0])
  }

  /** atoi on a name that starts with digits: the value of its leading digits. */
  function Atoi(s: string): (n: nat)
  {
    AtoiFrom(s, 0)
  }

  function AtoiFrom(s: string, acc: nat): nat
    decreases |s|
  {
    if |s| == 0 || !IsDigit(s[0]) then acc
    else AtoiFrom(s[1..], acc * 10 + (s[0] as int - '0' as int))
  }

  /** The record one directory entry contributes: none for a non-numeric name or a failed read. */
  function EntryRecord(name: string, fs: ProcFs, pageSize: uint64): Option<ProcessInfo>
  {
    if IsPidEntry(name) then ProcessRecord(Atoi(name), fs, pageSize) else None
  }

  /** All records collect_processes would gather from the entries, in directory order, before the bound. */
  function Gathered(names: seq<string>, fs: ProcFs, pageSize: uint64): (r: seq<ProcessInfo>)
    ensures |r| <= |names|
    decreases |names|
  {
    if |names| == 0 then []
    else
      var rec := EntryRecord(names[|names| - 1], fs, pageSize);
      Gathered(names[..|names| - 1], fs, pageSize) + (if rec.Some? then [rec.value] else [])
  }

  /** One more entry adds at most its own record to what was gathered. */
  lemma GatheredStep(names: seq<string>, i: nat, fs: ProcFs, pageSize: uint64)
    requires i < |names|
    ensures var rec := EntryRecord(names[i], fs, pageSize);
      Gathered(names[..i + 1], fs, pageSize) == Gathered(names[..i], fs, pageSize) + (if rec.Some? then [rec.value] else [])
  {
    assert names[..i + 1][..i] == names[..i];
  }

  /** Storing x at index n extends the prefix by x and leaves the later slots alone. */
  lemma StoreStep(before: seq<ProcessInfo>, after: seq<ProcessInfo>, n: nat, x: ProcessInfo)
    requires n < |before| && after == before[n := x]
    ensures after[..n + 1] == before[..n] + [x]
    ensures forall k :: n + 1 <= k < |after| ==> after[k] == before[k]
  {
  }

  /** Gathering more entries only extends what was gathered. */
  lemma {:induction false} GatheredPrefix(names: seq<string>, i: nat, fs: ProcFs, pageSize: uint64)
    requires i <= |names|
    ensures Gathered(names[..i], fs, pageSize) <= Gathered(names, fs, pageSize)
    decreases |names|
  {
    if i < |names| {
      var init := names[..|names| - 1];
      assert init[..i] == names[..i];
      GatheredPrefix(init, i, fs, pageSize);
    } else {
      assert names[..i] == names;
    }
  }

  /** p is what reading some numeric entry of names produced. */
  predicate ReadFromEntry(names: seq<string>, fs: ProcFs, pageSize: uint64, p: ProcessInfo)
  {
    exists j :: 0 <= j < |names| && IsPidEntry(names[j]) && EntryRecord(names[j], fs, pageSize) == Some(p)
  }

  /** Every gathered record is the successful read of some numeric entry. */
  lemma {:induction false} GatheredAreReads(names: seq<string>, fs: ProcFs, pageSize: uint64)
    ensures forall k :: 0 <= k < |Gathered(names, fs, pageSize)| ==>
      ReadFromEntry(names, fs, pageSize, Gathered(names, fs, pageSize)[k])
    decreases |names|
  {
    if |names| > 0 {
      var init := names[..|names| - 1];
      GatheredAreReads(init, fs, pageSize);
      var g, gi := Gathered(names, fs, pageSize), Gathered(init, fs, pageSize);
      forall k | 0 <= k < |g|
        ensures ReadFromEntry(names, fs, pageSize, g[k])
      {
        if k < |gi| {
          assert g[k] == gi[k];
          assert ReadFromEntry(init, fs, pageSize, gi[k]);
          var j :| 0 <= j < |init| && IsPidEntry(init[j]) && EntryRecord(init[j], fs, pageSize) == Some(gi[k]);
          assert names[j] == init[j];
        } else {
          var last := |names| - 1;
          assert names[last] == names[last];
        }
      }
    }
  }

  /**
   * collect_processes: walks the /proc entries in order, tries every entry
   * whose name starts with a digit, and keeps a record only when ReadProcess
   * succeeds, stopping once `max` records are kept. `dir` is None when /proc
   * cannot be opened.
   */
  method CollectProcesses(list: array<ProcessInfo>, max: int, dir: Option<seq<string>>, fs: ProcFs, pageSize: uint64)
    returns (count: int)
    requires max <= list.Length
    modifies list
    ensures 0 <= count <= Max(0, max)
    ensures dir.None? ==> count == 0 && list[..] == old(list[..])
    ensures dir.Some? ==> list[..count] == Take(Gathered(dir.value, fs, pageSize), max)
    ensures list[count..] == old(list[count..])
  {
    if dir.None? {
      return 0;
    }
    var names := dir.value;
    count := 0;
    var i := 0;
    while i < |names| && count < max
      invariant 0 <= i <= |names|
      invariant 0 <= count <= Max(0, max)
      invariant list[..count] == Gathered(names[..i], fs, pageSize)
      invariant forall k :: count <= k < list.Length ==> list[k] == old(list[k])
    {
      var name := names[i];
      GatheredStep(names, i, fs, pageSize);
      if IsPidEntry(name) {
        ghost var before := list[..];
        var rc := ReadProcess(Atoi(name), fs, pageSize, list, count);
        if rc == 0 {
          StoreStep(before, list[..], count, ProcessRecord(Atoi(name), fs, pageSize).value);
          count := count + 1;
        }
      }
      i := i + 1;
    }
    GatheredPrefix(names, i, fs, pageSize);
    if i == |names| {
      assert names[..i] == names;
    }
    assert list[count..] == old(list[count..]);
  }

  // ---------------------------------------------------------------------
  // The delta engine

  /** Index of the first record of prev at or after `from` with the given pid. */
  function FirstMatch(prev: seq<ProcessInfo>, pid: int, from: nat): (r: Option<nat>)
    requires from <= |prev|
    ensures r.Some? ==> from <= r.value < |prev| && prev[r.value].pid == pid
    ensures r.Some? ==> forall j :: from <= j < r.value ==> prev[j].pid != pid
    ensures r.None? ==> forall j :: from <= j < |prev| ==> prev[j].pid != pid
    decreases |prev| - from
  {
    if from == |prev| then None
    else if prev[from].pid == pid then Some(from)
    else FirstMatch(prev, pid, from + 1)
  }

  /** The previous sample of a pid: the first record of prev with that pid. */
  function Previous(prev: seq<ProcessInfo>, pid: int): Option<ProcessInfo>
  {
    match FirstMatch(prev, pid, 0)
    case Some(j) => Some(prev[j])
    case None => None
  }

  /** utime + stime, in uint64 arithmetic. */
  function CpuTicks(p: ProcessInfo): uint64
  {
    Add64(p.utime, p.stime)
  }

  /** A record with the four derived fields filled in from its previous sample and the normalisation bases. */
  function WithStats(p: ProcessInfo, before: Option<ProcessInfo>, totalCpuDelta: uint64, totalMemBytes: uint64): (r: ProcessInfo)
  {
    var cpuValid := before.Some? && totalCpuDelta > 0;
    var memValid := totalMemBytes > 0;
    p.(cpuValid := cpuValid,
       cpuPercent := if cpuValid then
           Sub64(CpuTicks(p), CpuTicks(before.value)) as real / totalCpuDelta as real * 100.0
         else 0.0,
       memValid := memValid,
       memPercent := if memValid then p.memBytes as real / totalMemBytes as real * 100.0 else 0.0)
  }

  /** The current snapshot after compute_process_stats. */
  function Stats(curr: seq<ProcessInfo>, prev: seq<ProcessInfo>, totalCpuDelta: uint64, totalMemBytes: uint64)
    : (r: seq<ProcessInfo>)
  {
    seq(|curr|, i requires 0 <= i < |curr| => WithStats(curr[i], Previous(prev, curr[i].pid), totalCpuDelta, totalMemBytes))
  }

  /** The first index of the previous snapshot holding pid, found by a linear scan. */
  method FindPrevious(prev: array<ProcessInfo>, prevCount: nat, pid: int) returns (found: Option<nat>)
    requires prevCount <= prev.Length
    ensures found == FirstMatch(prev[..prevCount], pid, 0)
  {
    var j := 0;
    while j < prevCount
      invariant 0 <= j <= prevCount
      invariant FirstMatch(prev[..prevCount], pid, 0) == FirstMatch(prev[..prevCount], pid, j)
    {
      if prev[j].pid == pid {
        return Some(j);
      }
      j := j + 1;
    }
    return None;
  }

  /**
   * compute_process_stats: for each of the first currCount records of curr,
   * in place, the CPU share since its first namesake in prev and the memory
   * share of total memory. Nothing else in curr changes; prev is only read.
   */
  method ComputeProcessStats(curr: array<ProcessInfo>, currCount: nat, prev: array<ProcessInfo>, prevCount: nat,
                             totalCpuDelta: uint64, totalMemBytes: uint64)
    requires curr != prev
    requires currCount <= curr.Length && prevCount <= prev.Length
    modifies curr
    ensures curr[..currCount] == Stats(old(curr[..currCount]), prev[..prevCount], totalCpuDelta, totalMemBytes)
    ensures curr[currCount..] == old(curr[currCount..])
  {
    var i := 0;
    while i < currCount
      invariant 0 <= i <= currCount
      invariant forall k :: 0 <= k < i ==>
        curr[k] == WithStats(old(curr[k]), Previous(prev[..prevCount], old(curr[k]).pid), totalCpuDelta, totalMemBytes)
      invariant forall k :: i <= k < curr.Length ==> curr[k] == old(curr[k])
    {
      var p := curr[i];
      var found := FindPrevious(prev, prevCount, p.pid);
      if found.Some? && totalCpuDelta > 0 {
        var before := prev[found.value];
        var procCpuDelta := Sub64(Add64(p.utime, p.stime), Add64(before.utime, before.stime));
        p := p.(cpuPercent := procCpuDelta as real / totalCpuDelta as real * 100.0, cpuValid := true);
      } else {
        p := p.(cpuPercent := 0.0, cpuValid := false);
      }
      if totalMemBytes > 0 {
        p := p.(memPercent := p.memBytes as real / totalMemBytes as real * 100.0, memValid := true);
      } else {
        p := p.(memPercent := 0.0, memValid := false);
      }
      curr[i] := p;
      i := i + 1;
    }
  }

  // ---------------------------------------------------------------------
  // Properties of the delta engine

  /** The fields a sample carries, as opposed to the four derived ones. */
  predicate SameSample(a: ProcessInfo, b: ProcessInfo)
  {
    && a.pid == b.pid && a.name == b.name && a.cmdline == b.cmdline && a.cmdValid == b.cmdValid
    && a.rssKb == b.rssKb && a.utime == b.utime && a.stime == b.stime && a.memBytes == b.memBytes
  }

  /** compute_process_stats keeps the order, the length and every sampled field of curr. */
  lemma StatsKeepSamples(curr: seq<ProcessInfo>, prev: seq<ProcessInfo>, totalCpuDelta: uint64, totalMemBytes: uint64)
    ensures |Stats(curr, prev, totalCpuDelta, totalMemBytes)| == |curr|
    ensures forall i :: 0 <= i < |curr| ==> SameSample(Stats(curr, prev, totalCpuDelta, totalMemBytes)[i], curr[i])
  {
  }

  /** The CPU share is valid exactly when the pid was in prev and the total CPU delta is positive. */
  lemma CpuValidIff(curr: seq<ProcessInfo>, prev: seq<ProcessInfo>, totalCpuDelta: uint64, totalMemBytes: uint64, i: nat)
    requires i < |curr|
    ensures Stats(curr, prev, totalCpuDelta, totalMemBytes)[i].cpuValid <==>
      totalCpuDelta > 0 && exists j :: 0 <= j < |prev| && prev[j].pid == curr[i].pid
    ensures !Stats(curr, prev, totalCpuDelta, totalMemBytes)[i].cpuValid ==>
      Stats(curr, prev, totalCpuDelta, totalMemBytes)[i].cpuPercent == 0.0
  {
    var m := FirstMatch(prev, curr[i].pid, 0);
    if m.Some? {
      assert prev[m.value].pid == curr[i].pid;
    }
  }

  /** A process absent from the previous snapshot never gets a valid CPU share. */
  lemma NewProcessInvalid(curr: seq<ProcessInfo>, prev: seq<ProcessInfo>, totalCpuDelta: uint64, totalMemBytes: uint64, i: nat)
    requires i < |curr|
    requires forall j :: 0 <= j < |prev| ==> prev[j].pid != curr[i].pid
    ensures !Stats(curr, prev, totalCpuDelta, totalMemBytes)[i].cpuValid
    ensures Stats(curr, prev, totalCpuDelta, totalMemBytes)[i].cpuPercent == 0.0
  {
    CpuValidIff(curr, prev, totalCpuDelta, totalMemBytes, i);
  }

  /**
   * With the first namesake prev[j], a positive total delta and counters that
   * neither overflowed nor went backwards, the CPU share is the exact ratio of
   * tick deltas, at least 0, and at most 100 when the process used no more
   * ticks than the whole machine.
   */
  lemma CpuShareOfMatch(curr: seq<ProcessInfo>, prev: seq<ProcessInfo>, totalCpuDelta: uint64, totalMemBytes: uint64,
                        i: nat, j: nat)
    requires i < |curr| && j < |prev|
    requires prev[j].pid == curr[i].pid && forall k :: 0 <= k < j ==> prev[k].pid != curr[i].pid
    requires totalCpuDelta > 0
    requires curr[i].utime + curr[i].stime < TWO_TO_THE_64 && prev[j].utime + prev[j].stime < TWO_TO_THE_64
    requires prev[j].utime + prev[j].stime <= curr[i].utime + curr[i].stime
    ensures var q := Stats(curr, prev, totalCpuDelta, totalMemBytes)[i];
      && q.cpuValid
      && q.cpuPercent == ((curr[i].utime + curr[i].stime) - (prev[j].utime + prev[j].stime)) as real
                         / totalCpuDelta as real * 100.0
      && q.cpuPercent >= 0.0
      && ((curr[i].utime + curr[i].stime) - (prev[j].utime + prev[j].stime) <= totalCpuDelta ==> q.cpuPercent <= 100.0)
  {
    var m := FirstMatch(prev, curr[i].pid, 0);
    assert m == Some(j);
    RatioBounds(((curr[i].utime + curr[i].stime) - (prev[j].utime + prev[j].stime)) as real, totalCpuDelta as real);
  }

  lemma RatioBounds(d: real, t: real)
    requires t > 0.0 && d >= 0.0
    ensures d / t * 100.0 >= 0.0
    ensures d <= t ==> d / t * 100.0 <= 100.0
  {
    var r := d / t;
    assert r * t == d;
  }

  /**
   * When a pid is reused and the new process has fewer ticks than the old
   * one, the unsigned numerator wraps: the share is positive and huge rather
   * than negative.
   */
  lemma PidReuseWraps(curr: seq<ProcessInfo>, prev: seq<ProcessInfo>, totalCpuDelta: uint64, totalMemBytes: uint64,
                      i: nat)
    requires i < |curr| && totalCpuDelta > 0
    requires Previous(prev, curr[i].pid).Some?
    requires CpuTicks(curr[i]) < CpuTicks(Previous(prev, curr[i].pid).value)
    ensures Stats(curr, prev, totalCpuDelta, totalMemBytes)[i].cpuPercent ==
      (CpuTicks(curr[i]) - CpuTicks(Previous(prev, curr[i].pid).value) + TWO_TO_THE_64) as real
      / totalCpuDelta as real * 100.0
    ensures Stats(curr, prev, totalCpuDelta, totalMemBytes)[i].cpuPercent > 0.0
  {
    var n := (CpuTicks(curr[i]) - CpuTicks(Previous(prev, curr[i].pid).value) + TWO_TO_THE_64) as real;
    assert n / totalCpuDelta as real > 0.0;
  }

  /**
   * The memory share depends on the record and the total memory only, never
   * on the previous snapshot: valid with value memBytes / total * 100 when the
   * total is positive, and 0 and invalid otherwise.
   */
  lemma MemShareIndependent(curr: seq<ProcessInfo>, prev1: seq<ProcessInfo>, prev2: seq<ProcessInfo>,
                            totalCpuDelta: uint64, totalMemBytes: uint64, i: nat)
    requires i < |curr|
    ensures var q := Stats(curr, prev1, totalCpuDelta, totalMemBytes)[i];
      && q.memValid == (totalMemBytes > 0)
      && q.memPercent == (if totalMemBytes > 0 then curr[i].memBytes as real / totalMemBytes as real * 100.0 else 0.0)
      && q.memValid == Stats(curr, prev2, totalCpuDelta, totalMemBytes)[i].memValid
      && q.memPercent == Stats(curr, prev2, totalCpuDelta, totalMemBytes)[i].memPercent
  {
  }

  /** A freshly read record carries no valid CPU share until the delta engine has seen it. */
  lemma FreshRecordNotYetRated(pid: int, fs: ProcFs, pageSize: uint64)
    requires ProcessRecord(pid, fs, pageSize).Some?
    ensures !ProcessRecord(pid, fs, pageSize).value.cpuValid
    ensures |ProcessRecord(pid, fs, pageSize).value.name| <= NAME_LIMIT
  {
  }
}
