/** The in-place `Array.prototype.sort` both views call, with the two
    comparators they pass to it. The engine's own algorithm is not part
    of the program; it is modelled here as a stable insertion sort that
    swaps two neighbours only when the comparator says the left one
    belongs after the right one. */
module Sorting {
  import opened Users

  /** The two comparators handed to `sort`. */
  datatype Order =
    | MinutesDescending  // (a, b) => b.minutes - a.minutes
    | SinceOnline        // two online records tie, otherwise later lastSeen first

  /** The comparator's value: positive means `a` belongs after `b`,
      negative before it, zero that the two may stay as they are. */
  function Compare(o: Order, a: User, b: User): (r: int)
    ensures o == MinutesDescending ==> (r > 0 <==> a.minutes < b.minutes)
    ensures o == MinutesDescending ==> (r == 0 <==> a.minutes == b.minutes)
    ensures o == SinceOnline && a.online && b.online ==> r == 0
    ensures o == SinceOnline && !(a.online && b.online) ==>
              (r > 0 <==> a.lastSeen < b.lastSeen) && (r == 0 <==> a.lastSeen == b.lastSeen)
    ensures Tied(o, a, b) ==> r == 0
  {
    match o
    case MinutesDescending => b.minutes - a.minutes
    case SinceOnline => if a.online && b.online then 0 else b.lastSeen - a.lastSeen
  }

  /** The pairs whose relative order the sort's contracts pin: equal
      minutes for the minutes order, both online for the since-online
      order. The since-online comparator also returns 0 for two records
      with equal `lastSeen`; those pairs are not named here. */
  predicate Tied(o: Order, u: User, v: User)
  {
    match o
    case MinutesDescending => u.minutes == v.minutes
    case SinceOnline => u.online && v.online
  }

  /** The records of `s` tied with `v`, in their order in `s`. */
  function Group(o: Order, s: seq<User>, v: User): seq<User>
  {
    Filter(s, u => Tied(o, u, v))
  }

  /** The neighbouring pairs starting at `lo` up to `hi` (exclusive)
      are in comparator order. */
  ghost predicate InOrder(o: Order, s: seq<User>, lo: int, hi: int)
  {
    forall k :: lo <= k < hi && 0 <= k && k + 1 < |s| ==> Compare(o, s[k], s[k + 1]) <= 0
  }

  /** Every neighbouring pair is in comparator order. */
  ghost predicate LocallySorted(o: Order, s: seq<User>)
  {
    InOrder(o, s, 0, |s| - 1)
  }

  predicate SortedByMinutes(s: seq<User>)
  {
    forall i, j :: 0 <= i < j < |s| ==> s[i].minutes >= s[j].minutes
  }

  /** `s` with the neighbours at `j` and `j + 1` exchanged. */
  function Swapped(s: seq<User>, j: nat): (r: seq<User>)
    requires j + 1 < |s|
  {
    s[j := s[j + 1]][j + 1 := s[j]]
  }

  /** Both comparators are antisymmetric, so a pair the sort swaps ends
      up in order. */
  lemma CompareAntisymmetric(o: Order, a: User, b: User)
    ensures Compare(o, a, b) == -Compare(o, b, a)
  {
  }

  /** Exchanging two neighbours that a filter does not both keep leaves
      the filtered list as it was. */
  lemma FilterPairSwap(pre: seq<User>, x: User, y: User, post: seq<User>, keep: User -> bool)
    requires !(keep(x) && keep(y))
    ensures Filter(pre + ([x, y] + post), keep) == Filter(pre + ([y, x] + post), keep)
  {
    FilterAppend(pre, [x, y] + post, keep);
    FilterAppend(pre, [y, x] + post, keep);
    FilterAppend([x, y], post, keep);
    FilterAppend([y, x], post, keep);
    assert [x, y][1..] == [y] && [y, x][1..] == [x];
    assert [y][1..] == [] && [x][1..] == [];
  }

  lemma SwappedSplit(s: seq<User>, j: nat)
    requires j + 1 < |s|
    ensures s == s[..j] + ([s[j], s[j + 1]] + s[j + 2..])
    ensures Swapped(s, j) == s[..j] + ([s[j + 1], s[j]] + s[j + 2..])
  {
  }

  lemma FilterSwap(s: seq<User>, j: nat, keep: User -> bool)
    requires j + 1 < |s| && !(keep(s[j]) && keep(s[j + 1]))
    ensures Filter(Swapped(s, j), keep) == Filter(s, keep)
  {
    SwappedSplit(s, j);
    FilterPairSwap(s[..j], s[j], s[j + 1], s[j + 2..], keep);
  }

  /** Swapping a pair that is out of order keeps every record and, since
      tied records never compare out of order, every group's order. */
  lemma SwapKeepsGroups(o: Order, s: seq<User>, j: nat)
    requires j + 1 < |s| && Compare(o, s[j], s[j + 1]) > 0
    ensures multiset(Swapped(s, j)) == multiset(s)
    ensures forall v :: Group(o, Swapped(s, j), v) == Group(o, s, v)
  {
    forall v
      ensures Group(o, Swapped(s, j), v) == Group(o, s, v)
    {
      FilterSwap(s, j, u => Tied(o, u, v));
    }
  }

  /** For the consistent minutes comparator, neighbour order is full order. */
  lemma {:induction false} LocallySortedByMinutes(s: seq<User>)
    requires LocallySorted(MinutesDescending, s)
    ensures SortedByMinutes(s)
    decreases |s|
  {
    if |s| > 1 {
      LocallySortedByMinutes(s[1..]);
      forall j | 1 <= j < |s|
        ensures s[0].minutes >= s[j].minutes
      {
        assert s[1..][0] == s[1] && s[1..][j - 1] == s[j];
      }
    }
  }

  /** Exchanges the neighbours at `j` and `j + 1` of `a`. */
  method Swap(a: array<User>, j: nat)
    requires j + 1 < a.Length
    modifies a
    ensures a[..] == Swapped(old(a[..]), j)
  {
    a[j], a[j + 1] := a[j + 1], a[j];
  }

  /** One step of insertion: the record at `j` moves one place to the
      left past a neighbour that belongs after it, and the sorted runs on
      either side of it stay sorted. */
  lemma InsertionStep(o: Order, s: seq<User>, j: nat, i: nat)
    requires 0 < j <= i < |s|
    requires InOrder(o, s, 0, j - 1) && InOrder(o, s, j, i)
    requires j < i ==> Compare(o, s[j - 1], s[j + 1]) <= 0
    requires Compare(o, s[j - 1], s[j]) > 0
    ensures InOrder(o, Swapped(s, j - 1), 0, j - 2)
    ensures InOrder(o, Swapped(s, j - 1), j - 1, i)
    ensures 1 < j ==> Compare(o, Swapped(s, j - 1)[j - 2], Swapped(s, j - 1)[j]) <= 0
  {
    CompareAntisymmetric(o, s[j - 1], s[j]);
  }

  /** Two sorted runs whose meeting pair is in order form one sorted run. */
  lemma JoinRuns(o: Order, s: seq<User>, j: nat, i: nat)
    requires j <= i < |s|
    requires InOrder(o, s, 0, j - 1) && InOrder(o, s, j, i)
    requires 0 < j ==> Compare(o, s[j - 1], s[j]) <= 0
    ensures InOrder(o, s, 0, i)
  {
  }

  /** Moves `a[i]` left past every neighbour that belongs after it, so
      that the sorted run `a[..i]` becomes the sorted run `a[..i + 1]`. */
  method Insert(a: array<User>, i: nat, o: Order)
    requires i < a.Length && InOrder(o, a[..], 0, i - 1)
    modifies a
    ensures InOrder(o, a[..], 0, i)
    ensures multiset(a[..]) == old(multiset(a[..]))
    ensures forall v :: Group(o, a[..], v) == Group(o, old(a[..]), v)
    ensures a[i + 1..] == old(a[i + 1..])
  {
    var j := i;
    while 0 < j && Compare(o, a[j - 1], a[j]) > 0
      invariant 0 <= j <= i
      invariant multiset(a[..]) == old(multiset(a[..]))
      invariant InOrder(o, a[..], 0, j - 1) && InOrder(o, a[..], j, i)
      invariant 0 < j < i ==> Compare(o, a[j - 1], a[j + 1]) <= 0
      invariant forall v :: Group(o, a[..], v) == Group(o, old(a[..]), v)
      invariant a[i + 1..] == old(a[i + 1..])
    {
      ghost var before := a[..];
      InsertionStep(o, before, j, i);
      SwapKeepsGroups(o, before, j - 1);
      Swap(a, j - 1);
      j := j - 1;
    }
    JoinRuns(o, a[..], j, i);
  }

  /** Sorts `a` in place with comparator `o`: the result is a permutation
      of the old contents, each neighbouring pair is in comparator order,
      and records `Tied` under `o` keep their relative order. */
  method SortInPlace(a: array<User>, o: Order)
    modifies a
    ensures multiset(a[..]) == old(multiset(a[..]))
    ensures LocallySorted(o, a[..])
    ensures forall v :: Group(o, a[..], v) == Group(o, old(a[..]), v)
  {
    for i := 0 to a.Length
      invariant multiset(a[..]) == old(multiset(a[..]))
      invariant InOrder(o, a[..], 0, i - 1)
      invariant forall v :: Group(o, a[..], v) == Group(o, old(a[..]), v)
    {
      Insert(a, i, o);
    }
  }
}
