/**
 * System memory from /proc/meminfo and the page size. Each line of the file
 * is given as what sscanf recognises in it.
 */
module Mem {
  import opened CTypes

  /** A /proc/meminfo line: "MemTotal: <n> kB", "MemAvailable: <n> kB", or anything else. */
  datatype MeminfoLine = MemTotalLine(kb: uint64) | MemAvailableLine(kb: uint64) | OtherLine

  const KB: uint64 := 1024
  const DEFAULT_PAGE_SIZE: uint64 := 4096

  /** Line i is the first MemTotal line and holds kb. */
  predicate FirstTotalAt(lines: seq<MeminfoLine>, i: int, kb: uint64)
  {
    0 <= i < |lines| && lines[i] == MemTotalLine(kb) && forall j :: 0 <= j < i ==> !lines[j].MemTotalLine?
  }

  /** The value of the first MemTotal line, if there is one. */
  function FirstMemTotal(lines: seq<MeminfoLine>): (r: Option<uint64>)
    ensures r.None? <==> forall i :: 0 <= i < |lines| ==> !lines[i].MemTotalLine?
    ensures r.Some? ==> exists i :: FirstTotalAt(lines, i, r.value)
  {
    if lines == [] then None
    else if lines[0].MemTotalLine? then
      assert FirstTotalAt(lines, 0, lines[0].kb);
      Some(lines[0].kb)
    else
      var r := FirstMemTotal(lines[1..]);
      if r.Some? then
        ghost var i :| FirstTotalAt(lines[1..], i, r.value);
        assert FirstTotalAt(lines, i + 1, r.value);
        r
      else r
  }

  /** read_total_mem_bytes: MemTotal in bytes; 0 when the file, the line or a non-zero value is missing. */
  function TotalMemBytes(meminfo: Option<seq<MeminfoLine>>): (r: uint64)
    ensures meminfo.None? ==> r == 0
    ensures meminfo.Some? && (forall i :: 0 <= i < |meminfo.value| ==> !meminfo.value[i].MemTotalLine?) ==> r == 0
  {
    if meminfo.None? then 0
    else match FirstMemTotal(meminfo.value)
      case None => 0
      case Some(kb) => if kb == 0 then 0 else Mul64(kb, KB)
  }

  /** The loop of read_total_mem_bytes: scan the lines and stop at the first MemTotal. */
  method ReadTotalMemBytes(meminfo: Option<seq<MeminfoLine>>) returns (r: uint64)
    ensures r == TotalMemBytes(meminfo)
  {
    if meminfo.None? {
      return 0;
    }
    var lines := meminfo.value;
    var memTotalKb: uint64 := 0;
    var i := 0;
    while i < |lines|
      invariant 0 <= i <= |lines|
      invariant forall j :: 0 <= j < i ==> !lines[j].MemTotalLine?
      invariant memTotalKb == 0
    {
      if lines[i].MemTotalLine? {
        memTotalKb := lines[i].kb;
        assert FirstMemTotal(lines) == Some(memTotalKb) by {
          FirstMemTotalAt(lines, i);
        }
        break;
      }
      i := i + 1;
    }
    if memTotalKb == 0 {
      return 0;
    }
    r := Mul64(memTotalKb, KB);
  }

  /** The first MemTotal line is the one FirstMemTotal reports. */
  lemma FirstMemTotalAt(lines: seq<MeminfoLine>, i: nat)
    requires i < |lines| && lines[i].MemTotalLine?
    requires forall j :: 0 <= j < i ==> !lines[j].MemTotalLine?
    ensures FirstMemTotal(lines) == Some(lines[i].kb)
  {
    var r := FirstMemTotal(lines);
    var k :| FirstTotalAt(lines, k, r.value);
    assert k == i;
  }

  /**
   * The values read_used_mem_bytes holds when its loop stops, starting from
   * what it has found so far: a MemTotal line sets the total, otherwise a
   * MemAvailable line sets the available amount, and the scan stops after
   * the line that completes both.
   */
  function ScanUsed(lines: seq<MeminfoLine>, total: Option<uint64>, available: Option<uint64>)
    : (r: (Option<uint64>, Option<uint64>))
    ensures total.Some? ==> r.0.Some?
    ensures available.Some? ==> r.1.Some?
    decreases |lines|
  {
    if lines == [] || (total.Some? && available.Some?) then (total, available)
    else match lines[0]
      case MemTotalLine(kb) => ScanUsed(lines[1..], Some(kb), available)
      case MemAvailableLine(kb) => ScanUsed(lines[1..], total, Some(kb))
      case OtherLine => ScanUsed(lines[1..], total, available)
  }

  /** read_used_mem_bytes: (MemTotal - MemAvailable) * 1024 in unsigned 64-bit arithmetic, or 0 when either is missing. */
  function UsedMemBytes(meminfo: Option<seq<MeminfoLine>>): (r: uint64)
    ensures meminfo.None? ==> r == 0
  {
    if meminfo.None? then 0
    else
      var (total, available) := ScanUsed(meminfo.value, None, None);
      if total.None? || available.None? then 0
      else Mul64(Sub64(total.value, available.value), KB)
  }

  method ReadUsedMemBytes(meminfo: Option<seq<MeminfoLine>>) returns (r: uint64)
    ensures r == UsedMemBytes(meminfo)
  {
    if meminfo.None? {
      return 0;
    }
    var lines := meminfo.value;
    var memTotalKb: uint64 := 0;
    var memAvailableKb: uint64 := 0;
    var foundTotal := false;
    var foundAvailable := false;
    var i := 0;
    while i < |lines|
      invariant 0 <= i <= |lines|
      invariant !(foundTotal && foundAvailable)
      invariant ScanUsed(lines[i..], if foundTotal then Some(memTotalKb) else None,
                         if foundAvailable then Some(memAvailableKb) else None)
             == ScanUsed(lines, None, None)
    {
      assert lines[i..][0] == lines[i] && lines[i..][1..] == lines[i + 1..];
      match lines[i] {
        case MemTotalLine(kb) =>
          memTotalKb := kb;
          foundTotal := true;
        case MemAvailableLine(kb) =>
          memAvailableKb := kb;
          foundAvailable := true;
        case OtherLine =>
      }
      i := i + 1;
      if foundTotal && foundAvailable {
        break;
      }
    }
    if !foundTotal || !foundAvailable {
      return 0;
    }
    var usedKb := Sub64(memTotalKb, memAvailableKb);
    r := Mul64(usedKb, KB);
  }

  /** The answer is 0 whenever the file or either line is missing. */
  lemma {:induction false} MissingLineGivesZero(lines: seq<MeminfoLine>)
    ensures (forall i :: 0 <= i < |lines| ==> !lines[i].MemTotalLine?) ==> UsedMemBytes(Some(lines)) == 0
    ensures (forall i :: 0 <= i < |lines| ==> !lines[i].MemAvailableLine?) ==> UsedMemBytes(Some(lines)) == 0
  {
    if forall i :: 0 <= i < |lines| ==> !lines[i].MemTotalLine? {
      NoLineNoValue(lines, None, None, true);
    }
    if forall i :: 0 <= i < |lines| ==> !lines[i].MemAvailableLine? {
      NoLineNoValue(lines, None, None, false);
    }
  }

  /** A value that is neither set beforehand nor present in the lines is not set by the scan. */
  lemma {:induction false} NoLineNoValue(lines: seq<MeminfoLine>, total: Option<uint64>, available: Option<uint64>, ofTotal: bool)
    requires ofTotal ==> total.None? && forall i :: 0 <= i < |lines| ==> !lines[i].MemTotalLine?
    requires !ofTotal ==> available.None? && forall i :: 0 <= i < |lines| ==> !lines[i].MemAvailableLine?
    ensures ofTotal ==> ScanUsed(lines, total, available).0.None?
    ensures !ofTotal ==> ScanUsed(lines, total, available).1.None?
    decreases |lines|
  {
    if lines != [] && !(total.Some? && available.Some?) {
      assert forall i :: 0 <= i < |lines[1..]| ==> lines[1..][i] == lines[i + 1];
      match lines[0]
      case MemTotalLine(kb) => NoLineNoValue(lines[1..], Some(kb), available, ofTotal);
      case MemAvailableLine(kb) => NoLineNoValue(lines[1..], total, Some(kb), ofTotal);
      case OtherLine => NoLineNoValue(lines[1..], total, available, ofTotal);
    }
  }

  /** The usual layout: one MemTotal line and one MemAvailable line, in either order. */
  predicate OneOfEach(lines: seq<MeminfoLine>, total: uint64, available: uint64)
  {
    HasOneTotal(lines, total) && HasOneAvailable(lines, available)
  }

  /** Exactly one MemTotal line, holding total. */
  predicate HasOneTotal(lines: seq<MeminfoLine>, total: uint64)
  {
    (exists p :: 0 <= p < |lines| && lines[p] == MemTotalLine(total))
    && (forall i, j :: 0 <= i < j < |lines| && lines[i].MemTotalLine? ==> !lines[j].MemTotalLine?)
  }

  /** Exactly one MemAvailable line, holding available. */
  predicate HasOneAvailable(lines: seq<MeminfoLine>, available: uint64)
  {
    (exists q :: 0 <= q < |lines| && lines[q] == MemAvailableLine(available))
    && (forall i, j :: 0 <= i < j < |lines| && lines[i].MemAvailableLine? ==> !lines[j].MemAvailableLine?)
  }

  /** With one line of each, the used memory is (MemTotal - MemAvailable) kB in bytes. */
  lemma UsedFromOneOfEach(lines: seq<MeminfoLine>, total: uint64, available: uint64)
    requires OneOfEach(lines, total, available)
    ensures UsedMemBytes(Some(lines)) == Mul64(Sub64(total, available), KB)
    ensures available <= total && (total - available) * 1024 < TWO_TO_THE_64 ==>
      UsedMemBytes(Some(lines)) == (total - available) * 1024
  {
    ScanOneOfEach(lines, None, None, total, available);
  }

  lemma {:induction false} ScanOneOfEach(lines: seq<MeminfoLine>, t: Option<uint64>, a: Option<uint64>,
                                         total: uint64, available: uint64)
    requires t.Some? ==> t.value == total && forall i :: 0 <= i < |lines| ==> !lines[i].MemTotalLine?
    requires a.Some? ==> a.value == available && forall i :: 0 <= i < |lines| ==> !lines[i].MemAvailableLine?
    requires t.None? ==> HasOneTotal(lines, total)
    requires a.None? ==> HasOneAvailable(lines, available)
    ensures ScanUsed(lines, t, a) == (Some(total), Some(available))
    decreases |lines|
  {
    if t.Some? && a.Some? {
    } else {
      var rest := lines[1..];
      assert forall i :: 0 <= i < |rest| ==> rest[i] == lines[i + 1];
      match lines[0]
      case MemTotalLine(kb) =>
        assert t.None?;
        var p :| 0 <= p < |lines| && lines[p] == MemTotalLine(total);
        assert p == 0;
        ScanOneOfEach(rest, Some(kb), a, total, available);
      case MemAvailableLine(kb) =>
        assert a.None?;
        var q :| 0 <= q < |lines| && lines[q] == MemAvailableLine(available);
        assert q == 0;
        ScanOneOfEach(rest, t, Some(kb), total, available);
      case OtherLine =>
        if t.None? {
          var p :| 0 <= p < |lines| && lines[p] == MemTotalLine(total);
          assert rest[p - 1] == MemTotalLine(total);
        }
        if a.None? {
          var q :| 0 <= q < |lines| && lines[q] == MemAvailableLine(available);
          assert rest[q - 1] == MemAvailableLine(available);
        }
        ScanOneOfEach(rest, t, a, total, available);
    }
  }

  /**
   * The total is the first MemTotal line's value in bytes, or 0 when that
   * value is 0; lines after it are never consulted.
   */
  lemma TotalFromFirstTotalLine(lines: seq<MeminfoLine>, i: nat, kb: uint64, later: seq<MeminfoLine>)
    requires FirstTotalAt(lines, i, kb)
    ensures TotalMemBytes(Some(lines)) == (if kb == 0 then 0 else Mul64(kb, KB))
    ensures 0 < kb && kb * 1024 < TWO_TO_THE_64 ==> TotalMemBytes(Some(lines)) == kb * 1024
    ensures TotalMemBytes(Some(lines[..i + 1] + later)) == TotalMemBytes(Some(lines))
  {
    FirstMemTotalAt(lines, i);
    var l := lines[..i + 1] + later;
    assert FirstTotalAt(l, i, kb);
    FirstMemTotalAt(l, i);
  }

  /** get_page_size: sysconf(_SC_PAGESIZE) as unsigned, with 4096 when it is not positive; never 0. */
  function GetPageSize(reported: int): (r: uint64)
    ensures reported <= 0 ==> r == DEFAULT_PAGE_SIZE
    ensures 0 < reported < TWO_TO_THE_64 ==> r == reported
    ensures reported < TWO_TO_THE_64 ==> r > 0
  {
    if reported <= 0 then DEFAULT_PAGE_SIZE else ToU64(reported)
  }
}
