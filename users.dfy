/** The leaderboard's user record and the list operations that both
    versions of the view build on: filtering, subsequences, and the
    specifications of the summary numbers. */
module Users {

  /** One record of the users feed. `lastSeen` is the instant the view
      reads through `new Date(lastSeen).getTime()`, kept as an integer
      timestamp; `traits` is the record's list of tags. */
  datatype User = User(name: string, online: bool, minutes: int, lastSeen: int, traits: seq<string>)

  /** The tag that marks an automated account. */
  const BOT_TRAIT: string := "bot"

  /** Records with at most this many minutes are "tourists". */
  const TOURIST_MINUTES: int := 60

  predicate IsBot(u: User) { BOT_TRAIT in u.traits }

  predicate IsHuman(u: User) { !IsBot(u) }

  predicate IsTourist(u: User) { u.minutes <= TOURIST_MINUTES }

  predicate IsRegular(u: User) { u.minutes > TOURIST_MINUTES }

  predicate IsOnline(u: User) { u.online }

  predicate IsOffline(u: User) { !u.online }

  /** `r` can be obtained from `s` by deleting elements, keeping order. */
  ghost predicate IsSubsequence(r: seq<User>, s: seq<User>)
    decreases |s|
  {
    r == [] ||
    (s != [] &&
     ((r[0] == s[0] && IsSubsequence(r[1..], s[1..])) || IsSubsequence(r, s[1..])))
  }

  /** `Array.prototype.filter`: a new list of the records `keep` accepts,
      in their original order. What it keeps is stated by `FilterCounts`,
      `FilterMembers` and `FilterIsSubsequence`. */
  function Filter(s: seq<User>, keep: User -> bool): (r: seq<User>)
    ensures |r| <= |s|
    decreases |s|
  {
    if s == [] then []
    else if keep(s[0]) then [s[0]] + Filter(s[1..], keep)
    else Filter(s[1..], keep)
  }

  /** A filter keeps exactly the records it accepts, each as often as the
      input holds it. */
  lemma {:induction false} FilterCounts(s: seq<User>, keep: User -> bool)
    ensures forall u :: multiset(Filter(s, keep))[u] == if keep(u) then multiset(s)[u] else 0
    decreases |s|
  {
    if s != [] {
      assert s == [s[0]] + s[1..];
      FilterCounts(s[1..], keep);
    }
  }

  /** A record is in the filtered list exactly when it is in the input
      and the filter accepts it. */
  lemma FilterMembers(s: seq<User>, keep: User -> bool)
    ensures forall u :: u in Filter(s, keep) <==> u in s && keep(u)
  {
    FilterCounts(s, keep);
    forall u
      ensures u in Filter(s, keep) <==> u in s && keep(u)
    {
      assert u in Filter(s, keep) <==> multiset(Filter(s, keep))[u] > 0;
      assert u in s <==> multiset(s)[u] > 0;
    }
  }

  /** What a filter keeps stays in its original order. */
  lemma {:induction false} FilterIsSubsequence(s: seq<User>, keep: User -> bool)
    ensures IsSubsequence(Filter(s, keep), s)
    decreases |s|
  {
    if s != [] {
      FilterIsSubsequence(s[1..], keep);
    }
  }

  lemma FilterSingle(x: User, keep: User -> bool)
    ensures Filter([x], keep) == if keep(x) then [x] else []
  {
    assert [x][1..] == [];
  }

  /** A fresh array holding `s`, as `filter` and the deep copy allocate. */
  method NewArray(s: seq<User>) returns (a: array<User>)
    ensures fresh(a) && a[..] == s
  {
    a := new User[|s|](i requires 0 <= i < |s| => s[i]);
  }

  lemma {:induction false} SubsequenceReflexive(s: seq<User>)
    ensures IsSubsequence(s, s)
    decreases |s|
  {
    if s != [] {
      SubsequenceReflexive(s[1..]);
    }
  }

  lemma {:induction false} SubsequenceTransitive(a: seq<User>, b: seq<User>, c: seq<User>)
    requires IsSubsequence(a, b) && IsSubsequence(b, c)
    ensures IsSubsequence(a, c)
    decreases |c|
  {
    if a == [] {
    } else if IsSubsequence(b, c[1..]) {
      SubsequenceTransitive(a, b, c[1..]);
    } else if a[0] == b[0] && IsSubsequence(a[1..], b[1..]) {
      SubsequenceTransitive(a[1..], b[1..], c[1..]);
    } else {
      SubsequenceTransitive(a, b[1..], c[1..]);
    }
  }

  /** Filtering distributes over concatenation. */
  lemma {:induction false} FilterAppend(s: seq<User>, t: seq<User>, keep: User -> bool)
    ensures Filter(s + t, keep) == Filter(s, keep) + Filter(t, keep)
    decreases |s|
  {
    if s == [] {
      assert s + t == t;
    } else {
      assert (s + t)[0] == s[0];
      assert (s + t)[1..] == s[1..] + t;
      FilterAppend(s[1..], t, keep);
    }
  }

  /** A filter that every element passes changes nothing. */
  lemma {:induction false} FilterKeepsAll(s: seq<User>, keep: User -> bool)
    requires forall u :: u in s ==> keep(u)
    ensures Filter(s, keep) == s
    decreases |s|
  {
    if s != [] {
      FilterKeepsAll(s[1..], keep);
    }
  }

  /** Two filters applied one after the other commute. */
  lemma {:induction false} FilterCommute(s: seq<User>, p: User -> bool, q: User -> bool)
    ensures Filter(Filter(s, p), q) == Filter(Filter(s, q), p)
    decreases |s|
  {
    if s != [] {
      FilterCommute(s[1..], p, q);
    }
  }

  /** A filter and its complement split a list: what one keeps the
      other removes, so together they hold every record exactly once. */
  lemma FilterPartition(s: seq<User>, keep: User -> bool, drop: User -> bool)
    requires forall u :: drop(u) == !keep(u)
    ensures multiset(Filter(s, keep)) + multiset(Filter(s, drop)) == multiset(s)
  {
    var kept, dropped := Filter(s, keep), Filter(s, drop);
    FilterCounts(s, keep);
    FilterCounts(s, drop);
    forall u
      ensures (multiset(kept) + multiset(dropped))[u] == multiset(s)[u]
    {
      assert drop(u) == !keep(u);
    }
  }

  /** Sum of `minutes`, accumulated from the front as the view's loop does. */
  function SumMinutes(s: seq<User>): int
  {
    if s == [] then 0 else SumMinutes(s[..|s| - 1]) + s[|s| - 1].minutes
  }

  /** The largest `minutes` in `s`, starting from 0: never negative, at
      least every record's minutes, and either 0 or one of them. */
  function MaxMinutes(s: seq<User>): (m: int)
    ensures 0 <= m
    ensures forall u :: u in s ==> u.minutes <= m
    ensures m == 0 || exists u :: u in s && u.minutes == m
    ensures s == [] ==> m == 0
  {
    if s == [] then 0
    else
      var init, last := s[..|s| - 1], s[|s| - 1];
      assert s == init + [last];
      var m := MaxMinutes(init);
      if last.minutes > m then last.minutes else m
  }

  /** One more record raises the maximum to its minutes if they exceed it. */
  lemma MaxMinutesSnoc(s: seq<User>, x: User)
    ensures MaxMinutes(s + [x]) == if x.minutes > MaxMinutes(s) then x.minutes else MaxMinutes(s)
  {
    assert (s + [x])[..|s|] == s;
  }

  /** One more record adds its minutes to the sum. */
  lemma SumMinutesSnoc(s: seq<User>, x: User)
    ensures SumMinutes(s + [x]) == SumMinutes(s) + x.minutes
  {
    assert (s + [x])[..|s|] == s;
  }

  lemma {:induction false} SumMinutesAppend(s: seq<User>, t: seq<User>)
    ensures SumMinutes(s + t) == SumMinutes(s) + SumMinutes(t)
    decreases |t|
  {
    if t == [] {
      assert s + t == s;
    } else {
      var t', last := t[..|t| - 1], t[|t| - 1];
      assert (s + t)[..|s + t| - 1] == s + t';
      SumMinutesAppend(s, t');
    }
  }

  /** Taking the last record off `s` and its copy at `k` off `t` leaves
      two lists with the same records. */
  lemma RemoveOne(s: seq<User>, t: seq<User>, k: nat)
    requires multiset(s) == multiset(t) && s != [] && k < |t| && t[k] == s[|s| - 1]
    ensures multiset(s[..|s| - 1]) == multiset(t[..k] + t[k + 1..])
  {
    var init, last := s[..|s| - 1], s[|s| - 1];
    assert s == init + [last];
    assert t == t[..k] + [last] + t[k + 1..];
    assert multiset(t) == multiset(t[..k]) + multiset{last} + multiset(t[k + 1..]);
    assert multiset(init) == multiset(s) - multiset{last};
  }

  /** The total of the minutes does not depend on the order of the records. */
  lemma {:induction false} SumMinutesPermutation(s: seq<User>, t: seq<User>)
    requires multiset(s) == multiset(t)
    ensures SumMinutes(s) == SumMinutes(t)
    decreases |s|
  {
    if s != [] {
      var init, last := s[..|s| - 1], s[|s| - 1];
      assert s == init + [last];
      assert last in multiset(t);
      var k :| 0 <= k < |t| && t[k] == last;
      var rest := t[..k] + t[k + 1..];
      RemoveOne(s, t, k);
      SumMinutesPermutation(init, rest);
      SumMinutesRemove(t, k);
    }
  }

  /** Taking the record at `k` out of a list takes its minutes off the sum. */
  lemma SumMinutesRemove(t: seq<User>, k: nat)
    requires k < |t|
    ensures SumMinutes(t) == SumMinutes(t[..k] + t[k + 1..]) + t[k].minutes
  {
    assert t == t[..k] + [t[k]] + t[k + 1..];
    SumMinutesAppend(t[..k] + [t[k]], t[k + 1..]);
    SumMinutesSnoc(t[..k], t[k]);
    SumMinutesAppend(t[..k], t[k + 1..]);
  }
}
