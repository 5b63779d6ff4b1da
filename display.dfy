/**
 * The process table: which records are shown (name filter, then scroll
 * offset, then the rows that fit the terminal) and what each row holds,
 * including the unit chosen for the memory column. Drawing with ncurses is
 * not modelled; a row is the data printed on one line.
 */
module Display {
  import opened CTypes
  import opened Process

  /** Screen lines above the table and below it, as subtracted from LINES. */
  const RESERVED_LINES: int := 11

  /** Width of the NAME column. */
  const NAME_COLUMN: int := 15

  /** The largest unit index: "P". */
  const LAST_UNIT: int := 4

  /** max_display: the terminal height less the reserved lines, at least one. */
  function MaxDisplay(lines: int): (m: int)
    ensures m >= 1
    ensures lines - RESERVED_LINES >= 1 ==> m == lines - RESERVED_LINES
    ensures lines - RESERVED_LINES < 1 ==> m == 1
  {
    if lines - RESERVED_LINES < 1 then 1 else lines - RESERVED_LINES
  }

  /** needle occurs in hay starting at position i. */
  predicate OccursAt(hay: string, needle: string, i: int)
  {
    0 <= i <= |hay| - |needle| && hay[i..i + |needle|] == needle
  }

  /** strstr(hay, needle) != NULL: needle occurs in hay at some position. */
  predicate Contains(hay: string, needle: string)
  {
    exists i :: 0 <= i <= |hay| - |needle| && OccursAt(hay, needle, i)
  }

  /** A record passes the filter when the term is empty or its name contains the term. */
  predicate Matches(p: ProcessInfo, term: string)
  {
    term == "" || Contains(p.name, term)
  }

  /** The records that pass the filter, in array order. */
  function Filtered(ps: seq<ProcessInfo>, term: string): (r: seq<ProcessInfo>)
    ensures |r| <= |ps|
  {
    if ps == [] then []
    else
      var init := Filtered(ps[..|ps| - 1], term);
      if Matches(ps[|ps| - 1], term) then init + [ps[|ps| - 1]] else init
  }

  /** Exactly the matching records survive the filter. */
  lemma {:induction false} FilteredMembers(ps: seq<ProcessInfo>, term: string)
    ensures forall p :: p in Filtered(ps, term) <==> p in ps && Matches(p, term)
  {
    if ps != [] {
      var init := ps[..|ps| - 1];
      FilteredMembers(init, term);
      assert ps == init + [ps[|ps| - 1]];
    }
  }

  /** An empty term shows every record. */
  lemma {:induction false} EmptyTermShowsAll(ps: seq<ProcessInfo>)
    ensures Filtered(ps, "") == ps
  {
    if ps != [] {
      EmptyTermShowsAll(ps[..|ps| - 1]);
    }
  }

  /** Filtering a longer array extends the filtered prefix. */
  lemma {:induction false} FilteredPrefix(ps: seq<ProcessInfo>, i: nat, term: string)
    requires i <= |ps|
    ensures Filtered(ps[..i], term) <= Filtered(ps, term)
    decreases |ps| - i
  {
    if i < |ps| {
      FilteredPrefix(ps, i + 1, term);
      FilterStep(ps, i, term);
    } else {
      assert ps[..i] == ps;
    }
  }

  /** The records drawn: filter, skip scroll_offset matches, then at most max_display rows. */
  function Selected(ps: seq<ProcessInfo>, scrollOffset: int, term: string, lines: int): (r: seq<ProcessInfo>)
    ensures |r| <= MaxDisplay(lines)
  {
    Take(Drop(Filtered(ps, term), scrollOffset), MaxDisplay(lines))
  }

  /** Every drawn record is a record of the array that passes the filter. */
  lemma SelectedMatch(ps: seq<ProcessInfo>, scrollOffset: int, term: string, lines: int)
    ensures forall k :: 0 <= k < |Selected(ps, scrollOffset, term, lines)| ==>
      Selected(ps, scrollOffset, term, lines)[k] in ps && Matches(Selected(ps, scrollOffset, term, lines)[k], term)
  {
    var f := Filtered(ps, term);
    FilteredMembers(ps, term);
    var shown := Selected(ps, scrollOffset, term, lines);
    forall k | 0 <= k < |shown|
      ensures shown[k] in f
    {
      assert shown[k] == Drop(f, scrollOffset)[k];
    }
  }

  /** The scroll offset counts filtered records: the first shown record is match number scroll_offset. */
  lemma OffsetCountsMatches(ps: seq<ProcessInfo>, scrollOffset: int, term: string, lines: int)
    requires 0 <= scrollOffset < |Filtered(ps, term)|
    ensures Selected(ps, scrollOffset, term, lines) != []
    ensures Selected(ps, scrollOffset, term, lines)[0] == Filtered(ps, term)[scrollOffset]
  {
  }

  /** A memory figure with its unit and the number of decimals printed. */
  datatype MemAmount = MemAmount(value: real, unit: string, decimals: nat)

  /** Bytes per unit: K, M, G, T, P. */
  function UnitScale(idx: int): (s: int)
    requires 0 <= idx <= LAST_UNIT
  {
    if idx == 0 then 0x400
    else if idx == 1 then 0x10_0000
    else if idx == 2 then 0x4000_0000
    else if idx == 3 then 0x100_0000_0000
    else 0x4_0000_0000_0000
  }

  function UnitName(idx: int): string
    requires 0 <= idx <= LAST_UNIT
  {
    ["K", "M", "G", "T", "P"][idx]
  }

  /** The unit format_memory settles on: the largest one, up to P, in which the amount is at least 1. */
  function UnitIndex(bytes: uint64): (idx: int)
    ensures 0 <= idx <= LAST_UNIT
    ensures idx > 0 ==> bytes >= UnitScale(idx)
    ensures idx < LAST_UNIT ==> bytes < UnitScale(idx) * 1024
  {
    if bytes < 0x10_0000 then 0
    else if bytes < 0x4000_0000 then 1
    else if bytes < 0x100_0000_0000 then 2
    else if bytes < 0x4_0000_0000_0000 then 3
    else 4
  }

  /** Decimals printed: two below 10, one below 100, none from 100 up. */
  function Decimals(value: real): nat
  {
    if value < 10.0 then 2 else if value < 100.0 then 1 else 0
  }

  /** What format_memory prints for a byte count. */
  function MemoryUnits(bytes: uint64): (m: MemAmount)
  {
    var idx := UnitIndex(bytes);
    var value := bytes as real / UnitScale(idx) as real;
    MemAmount(value, UnitName(idx), Decimals(value))
  }

  /**
   * The amount is below 1024 unless the unit is P, at least 1 unless the
   * unit is K, and times its unit's scale it is the byte count exactly.
   */
  lemma MemoryUnitsRange(bytes: uint64)
    ensures var m := MemoryUnits(bytes); var idx := UnitIndex(bytes);
      m.value * UnitScale(idx) as real == bytes as real
      && (idx < LAST_UNIT ==> m.value < 1024.0)
      && (idx > 0 ==> m.value >= 1.0)
  {
    var idx := UnitIndex(bytes);
    var s := UnitScale(idx) as real;
    var value := bytes as real / s;
    assert value * s == bytes as real;
    if idx < LAST_UNIT {
      assert bytes as real < s * 1024.0;
    }
    if idx > 0 {
      assert bytes as real >= s;
    }
  }

  /** format_memory: start in K and divide by 1024 while the amount is at least 1024 and the unit is below P. */
  method FormatMemory(bytes: uint64) returns (m: MemAmount)
    ensures m == MemoryUnits(bytes)
  {
    var value := bytes as real / 1024.0;
    var unitIdx := 0;
    while value >= 1024.0 && unitIdx < LAST_UNIT
      invariant 0 <= unitIdx <= LAST_UNIT
      invariant value * UnitScale(unitIdx) as real == bytes as real
      invariant unitIdx > 0 ==> value >= 1.0
    {
      value := value / 1024.0;
      unitIdx := unitIdx + 1;
    }
    SettledUnit(bytes, value, unitIdx);
    m := MemAmount(value, UnitName(unitIdx), Decimals(value));
  }

  /** Where the unit loop stops is UnitIndex. */
  lemma SettledUnit(bytes: uint64, value: real, idx: int)
    requires 0 <= idx <= LAST_UNIT
    requires value * UnitScale(idx) as real == bytes as real
    requires idx > 0 ==> value >= 1.0
    requires value < 1024.0 || idx == LAST_UNIT
    ensures idx == UnitIndex(bytes)
    ensures value == bytes as real / UnitScale(idx) as real
  {
    var s := UnitScale(idx) as real;
    if idx > 0 {
      assert bytes as real >= s;
    }
    if idx < LAST_UNIT {
      assert bytes as real < s * 1024.0;
    }
  }

  /** The memory cells of a row: the formatted amount and the share of system memory. */
  datatype MemCell = MemCell(amount: MemAmount, percent: real)

  /** One table line; None stands for the "-" printed for an invalid field. */
  datatype Row = Row(pid: int, name: string, cpu: Option<real>, mem: Option<MemCell>, command: Option<string>)

  /** The line printed for one record. */
  function RowOf(p: ProcessInfo): (row: Row)
    ensures row.pid == p.pid && row.name <= p.name && |row.name| == Min(|p.name|, NAME_COLUMN)
    ensures row.cpu.Some? <==> p.cpuValid
    ensures row.mem.Some? <==> p.memValid
    ensures row.command.Some? <==> p.cmdValid
  {
    Row(p.pid, Take(p.name, NAME_COLUMN),
        if p.cpuValid then Some(p.cpuPercent) else None,
        if p.memValid then Some(MemCell(MemoryUnits(p.memBytes), p.memPercent)) else None,
        if p.cmdValid then Some(p.cmdline) else None)
  }

  function Rows(ps: seq<ProcessInfo>): (rows: seq<Row>)
    ensures |rows| == |ps|
    ensures forall k :: 0 <= k < |ps| ==> rows[k] == RowOf(ps[k])
  {
    seq(|ps|, k requires 0 <= k < |ps| => RowOf(ps[k]))
  }

  /** Once the drawn prefix is as long as the page, later records no longer matter. */
  lemma PageFull(f: seq<ProcessInfo>, g: seq<ProcessInfo>, scrollOffset: int, maxDisplay: int)
    requires f <= g
    requires |Drop(f, scrollOffset)| >= maxDisplay >= 1
    ensures Take(Drop(g, scrollOffset), maxDisplay) == Take(Drop(f, scrollOffset), maxDisplay)
  {
    var df := Drop(f, scrollOffset);
    var dg := Drop(g, scrollOffset);
    assert Max(0, Min(scrollOffset, |f|)) == Max(0, Min(scrollOffset, |g|));
    assert forall k :: 0 <= k < |df| ==> df[k] == dg[k];
  }

  /** Filtering one more record appends it exactly when it matches. */
  lemma FilterStep(ps: seq<ProcessInfo>, i: nat, term: string)
    requires i < |ps|
    ensures Filtered(ps[..i + 1], term)
      == Filtered(ps[..i], term) + (if Matches(ps[i], term) then [ps[i]] else [])
  {
    assert ps[..i + 1][..i] == ps[..i];
  }

  /** Appending past the skipped part appends to what is left after skipping. */
  lemma DropStep(f: seq<ProcessInfo>, x: ProcessInfo, n: int)
    ensures n <= |f| ==> Drop(f + [x], n) == Drop(f, n) + [x]
    ensures n > |f| ==> Drop(f + [x], n) == []
  {
    if n <= 0 {
    } else if n <= |f| {
      assert (f + [x])[n..] == f[n..] + [x];
    }
  }

  /** The printed row of one record, with format_memory called for a valid memory column. */
  method MakeRow(p: ProcessInfo) returns (row: Row)
    ensures row == RowOf(p)
  {
    var mem: Option<MemCell> := None;
    if p.memValid {
      var amount := FormatMemory(p.memBytes);
      mem := Some(MemCell(amount, p.memPercent));
    }
    row := Row(p.pid, Take(p.name, NAME_COLUMN),
               if p.cpuValid then Some(p.cpuPercent) else None,
               mem,
               if p.cmdValid then Some(p.cmdline) else None);
  }

  lemma RowsAppend(d: seq<ProcessInfo>, x: ProcessInfo)
    ensures Rows(d + [x]) == Rows(d) + [RowOf(x)]
  {
  }

  /**
   * The row loop of display_process_info over records ps: skips those the
   * filter rejects, skips the first scroll_offset matches, and emits rows
   * until maxDisplay are drawn; it stops after record `stop`.
   */
  method RowLoop(ps: seq<ProcessInfo>, scrollOffset: int, searchTerm: string, maxDisplay: int)
    returns (rows: seq<Row>, stop: nat)
    requires maxDisplay >= 1
    ensures stop <= |ps|
    ensures rows == Rows(Drop(Filtered(ps[..stop], searchTerm), scrollOffset))
    ensures |rows| <= maxDisplay
    ensures stop < |ps| ==> |rows| == maxDisplay
  {
    var hasFilter := searchTerm != "";
    var displayed := 0;
    var skipped := 0;
    rows := [];
    var i := 0;
    while i < |ps| && displayed < maxDisplay
      invariant 0 <= i <= |ps|
      invariant skipped == Min(|Filtered(ps[..i], searchTerm)|, Max(0, scrollOffset))
      invariant rows == Rows(Drop(Filtered(ps[..i], searchTerm), scrollOffset))
      invariant displayed == |rows| <= maxDisplay
      decreases |ps| - i
    {
      ghost var f := Filtered(ps[..i], searchTerm);
      FilterStep(ps, i, searchTerm);
      if hasFilter && !Contains(ps[i].name, searchTerm) {
        i := i + 1;
        continue;
      }
      DropStep(f, ps[i], scrollOffset);
      if skipped < scrollOffset {
        skipped := skipped + 1;
        i := i + 1;
        continue;
      }
      var row := MakeRow(ps[i]);
      RowsAppend(Drop(f, scrollOffset), ps[i]);
      rows := rows + [row];
      displayed := displayed + 1;
      i := i + 1;
    }
    stop := i;
  }

  /** display_process_info: the rows drawn for the first `count` records of the snapshot. */
  method DisplayProcessInfo(processes: array<ProcessInfo>, count: nat, scrollOffset: int, searchTerm: string, lines: int)
    returns (rows: seq<Row>)
    requires count <= processes.Length
    ensures rows == Rows(Selected(processes[..count], scrollOffset, searchTerm, lines))
  {
    var ps := processes[..count];
    var maxDisplay := MaxDisplay(lines);
    var stop;
    rows, stop := RowLoop(ps, scrollOffset, searchTerm, maxDisplay);
    FilteredPrefix(ps, stop, searchTerm);
    if stop < count {
      PageFull(Filtered(ps[..stop], searchTerm), Filtered(ps, searchTerm), scrollOffset, maxDisplay);
    } else {
      assert ps[..stop] == ps;
    }
  }
}
