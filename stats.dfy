/** The summary numbers the view derives from the list it shows: three
    accumulator loops over the shown records. */
module Stats {
  import opened Users

  /** The largest `minutes` shown, starting from 0, which scales the
      bars of the list. */
  method HighestMinutes(shown: seq<User>) returns (highest: int)
    ensures highest == MaxMinutes(shown)
  {
    highest := 0;
    for i := 0 to |shown|
      invariant highest == MaxMinutes(shown[..i])
    {
      assert shown[..i + 1] == shown[..i] + [shown[i]];
      MaxMinutesSnoc(shown[..i], shown[i]);
      if shown[i].minutes > highest {
        highest := shown[i].minutes;
      }
    }
    assert shown[..|shown|] == shown;
  }

  /** The minutes of all shown records added up. */
  method TotalMinutes(shown: seq<User>) returns (total: int)
    ensures total == SumMinutes(shown)
  {
    total := 0;
    for i := 0 to |shown|
      invariant total == SumMinutes(shown[..i])
    {
      assert shown[..i + 1] == shown[..i] + [shown[i]];
      SumMinutesSnoc(shown[..i], shown[i]);
      total := total + shown[i].minutes;
    }
    assert shown[..|shown|] == shown;
  }

  /** How many shown records are online: the length of the online
      records' sublist, so never more than the list's length. */
  method TotalOnline(shown: seq<User>) returns (total: nat)
    ensures total == |Filter(shown, IsOnline)|
    ensures total <= |shown|
  {
    total := 0;
    for i := 0 to |shown|
      invariant total == |Filter(shown[..i], IsOnline)|
    {
      assert shown[..i + 1] == shown[..i] + [shown[i]];
      FilterAppend(shown[..i], [shown[i]], IsOnline);
      if shown[i].online {
        total := total + 1;
      }
    }
    assert shown[..|shown|] == shown;
  }

  /** The three numbers depend only on which records are shown, not on
      their order: re-sorting the list leaves them unchanged. */
  lemma PermutationKeepsStats(s: seq<User>, t: seq<User>)
    requires multiset(s) == multiset(t)
    ensures SumMinutes(s) == SumMinutes(t)
    ensures MaxMinutes(s) == MaxMinutes(t)
    ensures |Filter(s, IsOnline)| == |Filter(t, IsOnline)|
  {
    SumMinutesPermutation(s, t);
    forall u
      ensures u in s <==> u in t
    {
      assert u in s <==> u in multiset(s);
    }
    var os, ot := Filter(s, IsOnline), Filter(t, IsOnline);
    FilterCounts(s, IsOnline);
    FilterCounts(t, IsOnline);
    assert multiset(os) == multiset(ot);
    assert |os| == |multiset(os)| == |multiset(ot)| == |ot|;
  }

  /** An empty list shows all-zero numbers. */
  lemma EmptyStats()
    ensures MaxMinutes([]) == 0 && SumMinutes([]) == 0 && |Filter([], IsOnline)| == 0
  {
  }
}
