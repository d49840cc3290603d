/** The earlier leaderboard view: a three-state filter toggled by one
    button and a list sorted by minutes, most first. */
module LegacyLeaderboard {
  import opened Users
  import Sorting

  /** The numeric enum `UsersFilter { Off, Online, Offline }`. */
  const OFF: int := 0
  const ONLINE: int := 1
  const OFFLINE: int := 2

  type UsersFilter = f: int | OFF <= f <= OFFLINE

  /** `Object.keys` of a numeric enum lists every member twice, once by
      name and once by value (the reverse mapping). */
  const ENUM_KEY_COUNT: nat := 6

  /** `toggleFilter`: the next filter, counting modulo the number of
      members. Off goes to Online, Online to Offline, Offline back to Off.
      The dividend is never negative, so JavaScript's `%` and Dafny's agree. */
  function ToggleFilter(f: UsersFilter): (r: UsersFilter)
    ensures f == OFF ==> r == ONLINE
    ensures f == ONLINE ==> r == OFFLINE
    ensures f == OFFLINE ==> r == OFF
  {
    var length := ENUM_KEY_COUNT / 2;
    (f + 1) % length
  }

  /** Three toggles bring the filter back to where it started. */
  lemma ToggleThrice(f: UsersFilter)
    ensures ToggleFilter(ToggleFilter(ToggleFilter(f))) == f
  {
  }

  predicate MatchesFilter(f: UsersFilter, u: User)
  {
    if f == ONLINE then u.online else if f == OFFLINE then !u.online else true
  }

  /** The filter switch: Online keeps exactly the online records, Offline
      exactly the offline ones, Off hands back the list itself. */
  function ApplyFilter(users: seq<User>, f: UsersFilter): (r: seq<User>)
    ensures forall u :: multiset(r)[u] == if MatchesFilter(f, u) then multiset(users)[u] else 0
    ensures f == OFF ==> r == users
  {
    FilterCounts(users, IsOnline);
    FilterCounts(users, IsOffline);
    if f == ONLINE then Filter(users, IsOnline)
    else if f == OFFLINE then Filter(users, IsOffline)
    else users
  }

  /** The `shownUsers` memo: filter, then sort in place by minutes, most
      first. With the filter off nothing is copied, so the sort reorders
      the `users` state array itself and the result is that array; with
      a filter on, `filter` allocates a new array and `users` is left as
      it was. Either way the result is a permutation of the filtered
      list, sorted by minutes, with equal minutes in their earlier order. */
  method ShownUsers(users: array<User>, f: UsersFilter) returns (shown: array<User>)
    modifies users
    ensures f == OFF ==> shown == users
    ensures f != OFF ==> fresh(shown) && users[..] == old(users[..])
    ensures multiset(shown[..]) == multiset(ApplyFilter(old(users[..]), f))
    ensures Sorting.SortedByMinutes(shown[..])
    ensures forall v :: Sorting.Group(Sorting.MinutesDescending, shown[..], v) ==
                        Sorting.Group(Sorting.MinutesDescending, ApplyFilter(old(users[..]), f), v)
  {
    var output := users;
    if f == ONLINE {
      output := NewArray(Filter(users[..], IsOnline));
    } else if f == OFFLINE {
      output := NewArray(Filter(users[..], IsOffline));
    }
    Sorting.SortInPlace(output, Sorting.MinutesDescending);
    Sorting.LocallySortedByMinutes(output[..]);
    shown := output;
  }

  /** On the sorted list the maximum the `highestMinutes` loop finds is
      simply the first record's minutes, or 0 if there is none or it is
      negative. */
  lemma HighestIsFirst(s: seq<User>)
    requires Sorting.SortedByMinutes(s)
    ensures MaxMinutes(s) == if s == [] || s[0].minutes < 0 then 0 else s[0].minutes
  {
    if s != [] {
      var m := MaxMinutes(s);
      if m != 0 {
        var u :| u in s && u.minutes == m;
        var k :| 0 <= k < |s| && s[k] == u;
        assert k == 0 || s[0].minutes >= s[k].minutes;
      }
    }
  }

  /** `filterText`: the label on the filter button. */
  function FilterText(f: UsersFilter): (r: string)
    ensures f == OFF ==> r == "no filter"
    ensures f == ONLINE ==> r == "online only"
    ensures f == OFFLINE ==> r == "offline only"
  {
    if f == OFF then "no filter" else if f == ONLINE then "online only" else "offline only"
  }

  /** Each filter has its own label, so every click changes the label. */
  lemma ToggleChangesText(f: UsersFilter, g: UsersFilter)
    ensures f != g ==> FilterText(f) != FilterText(g)
    ensures FilterText(ToggleFilter(f)) != FilterText(f)
  {
    assert "no filter"[0] != "online only"[0];
    assert "no filter"[0] != "offline only"[0];
    assert "online only"[1] != "offline only"[1];
  }
}
