/**
 * The sorter: the four qsort comparators over cpu_percent and mem_percent,
 * and the in-place sorts of the first `count` records of a snapshot array.
 * qsort itself is modelled by an insertion sort driven by the same
 * comparator; only what qsort promises is stated (the comparator order and a
 * permutation), not the order it leaves among equal keys.
 */
module Sort {
  import opened Process

  function CompareCpuAsc(p1: ProcessInfo, p2: ProcessInfo): (r: int)
    ensures r == -1 <==> p1.cpuPercent < p2.cpuPercent
    ensures r == 1 <==> p1.cpuPercent > p2.cpuPercent
    ensures r == 0 <==> p1.cpuPercent == p2.cpuPercent
  {
    if p1.cpuPercent < p2.cpuPercent then -1
    else if p1.cpuPercent > p2.cpuPercent then 1
    else 0
  }

  function CompareCpuDesc(p1: ProcessInfo, p2: ProcessInfo): (r: int)
    ensures r == -1 <==> p1.cpuPercent > p2.cpuPercent
    ensures r == 1 <==> p1.cpuPercent < p2.cpuPercent
    ensures r == 0 <==> p1.cpuPercent == p2.cpuPercent
  {
    -CompareCpuAsc(p1, p2)
  }

  function CompareMemAsc(p1: ProcessInfo, p2: ProcessInfo): (r: int)
    ensures r == -1 <==> p1.memPercent < p2.memPercent
    ensures r == 1 <==> p1.memPercent > p2.memPercent
    ensures r == 0 <==> p1.memPercent == p2.memPercent
  {
    if p1.memPercent < p2.memPercent then -1
    else if p1.memPercent > p2.memPercent then 1
    else 0
  }

  function CompareMemDesc(p1: ProcessInfo, p2: ProcessInfo): (r: int)
    ensures r == -1 <==> p1.memPercent > p2.memPercent
    ensures r == 1 <==> p1.memPercent < p2.memPercent
    ensures r == 0 <==> p1.memPercent == p2.memPercent
  {
    -CompareMemAsc(p1, p2)
  }

  /** Which comparator qsort is handed. */
  datatype Comparator = CpuAsc | CpuDesc | MemAsc | MemDesc

  function Compare(c: Comparator, p1: ProcessInfo, p2: ProcessInfo): int
  {
    match c
    case CpuAsc => CompareCpuAsc(p1, p2)
    case CpuDesc => CompareCpuDesc(p1, p2)
    case MemAsc => CompareMemAsc(p1, p2)
    case MemDesc => CompareMemDesc(p1, p2)
  }

  /** The key a comparator orders by, oriented so that it always orders ascending. */
  function Rank(c: Comparator, p: ProcessInfo): real
  {
    match c
    case CpuAsc => p.cpuPercent
    case CpuDesc => -p.cpuPercent
    case MemAsc => p.memPercent
    case MemDesc => -p.memPercent
  }

  /** Each descending comparator is the negation of its ascending one, and each comparator agrees with its rank. */
  lemma ComparatorsAgree(c: Comparator, p1: ProcessInfo, p2: ProcessInfo)
    ensures CompareCpuDesc(p1, p2) == -CompareCpuAsc(p1, p2)
    ensures CompareMemDesc(p1, p2) == -CompareMemAsc(p1, p2)
    ensures Compare(c, p1, p2) == -Compare(c, p2, p1)
    ensures Compare(c, p1, p2) <= 0 <==> Rank(c, p1) <= Rank(c, p2)
  {
  }

  /** What qsort leaves: every earlier record compares at most equal to every later one. */
  predicate SortedBy(s: seq<ProcessInfo>, c: Comparator)
  {
    forall i, j :: 0 <= i < j < |s| ==> Rank(c, s[i]) <= Rank(c, s[j])
  }

  method Swap(a: array<ProcessInfo>, i: int, j: int)
    requires 0 <= i < j < a.Length
    modifies a
    ensures a[..] == old(a[..])[i := old(a[j])][j := old(a[i])]
    ensures multiset(a[..]) == old(multiset(a[..]))
  {
    a[i], a[j] := a[j], a[i];
  }

  /** Equal multisets with equal tails have equal prefixes. */
  lemma PrefixMultiset(s: seq<ProcessInfo>, t: seq<ProcessInfo>, n: nat)
    requires n <= |s| == |t|
    requires multiset(s) == multiset(t) && s[n..] == t[n..]
    ensures multiset(s[..n]) == multiset(t[..n])
  {
    assert s == s[..n] + s[n..];
    assert t == t[..n] + t[n..];
    assert multiset(s) == multiset(s[..n]) + multiset(s[n..]);
    assert multiset(t) == multiset(t[..n]) + multiset(t[n..]);
    forall x
      ensures multiset(s[..n])[x] == multiset(t[..n])[x]
    {
      assert multiset(s)[x] == multiset(s[..n])[x] + multiset(s[n..])[x];
      assert multiset(t)[x] == multiset(t[..n])[x] + multiset(t[n..])[x];
    }
  }

  /** s[..i+1] is in order apart from the record at j, which is being moved left. */
  predicate SortedExcept(s: seq<ProcessInfo>, c: Comparator, j: nat, i: nat)
    requires j <= i < |s|
  {
    forall k, l :: 0 <= k < l <= i && k != j && l != j ==> Rank(c, s[k]) <= Rank(c, s[l])
  }

  /** The record at j ranks at or below every record after it, up to i. */
  predicate BelowTail(s: seq<ProcessInfo>, c: Comparator, j: nat, i: nat)
    requires j <= i < |s|
  {
    forall l :: j < l <= i ==> Rank(c, s[j]) <= Rank(c, s[l])
  }

  /** Swapping the moving record with a higher-ranked left neighbour keeps both insertion invariants. */
  lemma SwapStep(s: seq<ProcessInfo>, c: Comparator, j: nat, i: nat)
    requires 0 < j <= i < |s|
    requires SortedExcept(s, c, j, i) && BelowTail(s, c, j, i)
    requires Rank(c, s[j - 1]) > Rank(c, s[j])
    ensures SortedExcept(s[j - 1 := s[j]][j := s[j - 1]], c, j - 1, i)
    ensures BelowTail(s[j - 1 := s[j]][j := s[j - 1]], c, j - 1, i)
  {
    var t := s[j - 1 := s[j]][j := s[j - 1]];
    forall k, l | 0 <= k < l <= i && k != j - 1 && l != j - 1
      ensures Rank(c, t[k]) <= Rank(c, t[l])
    {
      var k' := if k == j then j - 1 else k;
      var l' := if l == j then j - 1 else l;
      assert t[k] == s[k'] && t[l] == s[l'];
    }
  }

  /** When the moving record stops, s[..i+1] is in order. */
  lemma InsertDone(s: seq<ProcessInfo>, c: Comparator, j: nat, i: nat)
    requires j <= i < |s|
    requires SortedExcept(s, c, j, i) && BelowTail(s, c, j, i)
    requires j == 0 || Rank(c, s[j - 1]) <= Rank(c, s[j])
    ensures SortedBy(s[..i + 1], c)
  {
    forall k, l | 0 <= k < l <= i
      ensures Rank(c, s[k]) <= Rank(c, s[l])
    {
      if l == j && k < j - 1 {
        assert Rank(c, s[k]) <= Rank(c, s[j - 1]);
      }
    }
  }

  /**
   * One insertion step: a[..i] is sorted, and a[i] is moved left past every
   * record that ranks above it.
   */
  method Insert(a: array<ProcessInfo>, i: nat, c: Comparator)
    requires i < a.Length
    requires SortedBy(a[..i], c)
    modifies a
    ensures SortedBy(a[..i + 1], c)
    ensures multiset(a[..]) == old(multiset(a[..]))
    ensures a[i + 1..] == old(a[i + 1..])
  {
    var j := i;
    while j > 0 && Compare(c, a[j - 1], a[j]) > 0
      invariant 0 <= j <= i
      invariant SortedExcept(a[..], c, j, i) && BelowTail(a[..], c, j, i)
      invariant multiset(a[..]) == old(multiset(a[..]))
      invariant a[i + 1..] == old(a[i + 1..])
      decreases j
    {
      ComparatorsAgree(c, a[j - 1], a[j]);
      ghost var s := a[..];
      SwapStep(s, c, j, i);
      Swap(a, j - 1, j);
      assert a[..] == s[j - 1 := s[j]][j := s[j - 1]];
      j := j - 1;
    }
    if j > 0 {
      ComparatorsAgree(c, a[j - 1], a[j]);
    }
    InsertDone(a[..], c, j, i);
  }

  /** qsort on the first `count` records with comparator c. */
  method QSort(a: array<ProcessInfo>, count: nat, c: Comparator)
    requires count <= a.Length
    modifies a
    ensures SortedBy(a[..count], c)
    ensures multiset(a[..count]) == old(multiset(a[..count]))
    ensures a[count..] == old(a[count..])
  {
    if count == 0 {
      return;
    }
    var i := 1;
    while i < count
      invariant 1 <= i <= count
      invariant SortedBy(a[..i], c)
      invariant multiset(a[..]) == old(multiset(a[..]))
      invariant a[count..] == old(a[count..])
    {
      Insert(a, i, c);
      i := i + 1;
    }
    PrefixMultiset(a[..], old(a[..]), count);
  }

  /**
   * sort_by_cpu: largest cpu_percent first by default, smallest first when
   * reversed; the records are permuted, no record is lost, duplicated or
   * altered, and the records past `count` stay put.
   */
  method SortByCpu(processes: array<ProcessInfo>, count: nat, reversed: bool)
    requires count <= processes.Length
    modifies processes
    ensures reversed ==> forall i, j :: 0 <= i < j < count ==> processes[i].cpuPercent <= processes[j].cpuPercent
    ensures !reversed ==> forall i, j :: 0 <= i < j < count ==> processes[i].cpuPercent >= processes[j].cpuPercent
    ensures multiset(processes[..count]) == old(multiset(processes[..count]))
    ensures processes[count..] == old(processes[count..])
  {
    QSort(processes, count, if reversed then CpuAsc else CpuDesc);
    assert forall i :: 0 <= i < count ==> processes[i] == processes[..count][i];
  }

  /** sort_by_mem: the same two orders on mem_percent. */
  method SortByMem(processes: array<ProcessInfo>, count: nat, reversed: bool)
    requires count <= processes.Length
    modifies processes
    ensures reversed ==> forall i, j :: 0 <= i < j < count ==> processes[i].memPercent <= processes[j].memPercent
    ensures !reversed ==> forall i, j :: 0 <= i < j < count ==> processes[i].memPercent >= processes[j].memPercent
    ensures multiset(processes[..count]) == old(multiset(processes[..count]))
    ensures processes[count..] == old(processes[count..])
  {
    QSort(processes, count, if reversed then MemAsc else MemDesc);
    assert forall i :: 0 <= i < count ==> processes[i] == processes[..count][i];
  }

  /**
   * Sorting three records with CPU shares 10, 30 and 20 in the default
   * (descending) order yields the shares 30, 20, 10.
   */
  lemma DescendingThree(input: seq<ProcessInfo>, s: seq<ProcessInfo>)
    requires |input| == 3
    requires input[0].cpuPercent == 10.0 && input[1].cpuPercent == 30.0 && input[2].cpuPercent == 20.0
    requires multiset(s) == multiset(input) && SortedBy(s, CpuDesc)
    ensures |s| == 3
    ensures s[0].cpuPercent == 30.0 && s[1].cpuPercent == 20.0 && s[2].cpuPercent == 10.0
  {
    assert |s| == |multiset(s)| == |multiset(input)| == 3;
    forall k | 0 <= k < 3
      ensures s[k].cpuPercent == 10.0 || s[k].cpuPercent == 30.0 || s[k].cpuPercent == 20.0
    {
      assert s[k] in multiset(input);
      assert s[k] in input;
    }
    assert input[1] in multiset(s);
    var k1 :| 0 <= k1 < 3 && s[k1] == input[1];
    assert input[0] in multiset(s);
    var k0 :| 0 <= k0 < 3 && s[k0] == input[0];
    assert input[2] in multiset(s);
    var k2 :| 0 <= k2 < 3 && s[k2] == input[2];
    assert s[0].cpuPercent >= s[k1].cpuPercent;
    assert s[2].cpuPercent <= s[k0].cpuPercent;
  }
}
