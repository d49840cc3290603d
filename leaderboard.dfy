/** The current leaderboard view: the view settings and the pipeline that
    turns the users list into the list it shows. */
module Leaderboard {
  import opened Users
  import Sorting

  /** Which records the filter picker lets through. */
  datatype UsersFilter = ShowAll | Online | Offline

  /** The sort picker: the feed's own order (total time, descending) or
      most recently seen first. */
  datatype UsersSort = TotalTime | SinceOnline

  datatype ViewSettings = ViewSettings(filter: UsersFilter, sort: UsersSort, showTourists: bool, showBots: bool)

  /** What the view starts with: every record, feed order, tourists and
      bots hidden. */
  const DEFAULT_SETTINGS: ViewSettings := ViewSettings(ShowAll, TotalTime, false, false)

  predicate MatchesFilter(f: UsersFilter, u: User)
  {
    match f
    case ShowAll => true
    case Online => u.online
    case Offline => !u.online
  }

  /** The filter picker's step: it keeps exactly the records the picked
      filter matches. */
  function ApplyFilter(s: seq<User>, f: UsersFilter): (r: seq<User>)
    ensures forall u :: multiset(r)[u] == if MatchesFilter(f, u) then multiset(s)[u] else 0
  {
    match f
    case ShowAll => s
    case Online => FilterCounts(s, IsOnline); Filter(s, IsOnline)
    case Offline => FilterCounts(s, IsOffline); Filter(s, IsOffline)
  }

  /** Whether a record survives all three filtering steps. */
  predicate Passes(settings: ViewSettings, u: User)
  {
    (settings.showBots || IsHuman(u)) &&
    (settings.showTourists || IsRegular(u)) &&
    MatchesFilter(settings.filter, u)
  }

  /** The shown list before any re-sorting: bots dropped unless shown,
      tourists dropped unless shown, then the filter picker applied. It
      holds exactly the records that pass, as often as the input does. */
  function Filtered(users: seq<User>, settings: ViewSettings): (r: seq<User>)
    ensures forall u :: multiset(r)[u] == if Passes(settings, u) then multiset(users)[u] else 0
  {
    FilterCounts(users, IsHuman);
    var humans := if settings.showBots then users else Filter(users, IsHuman);
    assert forall u ::
             multiset(humans)[u] == if settings.showBots || IsHuman(u) then multiset(users)[u] else 0;
    FilterCounts(humans, IsRegular);
    var regulars := if settings.showTourists then humans else Filter(humans, IsRegular);
    assert forall u ::
             multiset(regulars)[u] ==
             if (settings.showBots || IsHuman(u)) && (settings.showTourists || IsRegular(u))
             then multiset(users)[u] else 0;
    ApplyFilter(regulars, settings.filter)
  }

  /** With the settings the view starts with, the list shows exactly
      the human records with more than 60 minutes, in feed order. */
  lemma DefaultView(users: seq<User>)
    ensures Filtered(users, DEFAULT_SETTINGS) == Filter(Filter(users, IsHuman), IsRegular)
    ensures forall u :: u in Filtered(users, DEFAULT_SETTINGS) <==> u in users && IsHuman(u) && IsRegular(u)
  {
    FilteredMembers(users, DEFAULT_SETTINGS);
  }

  /** A record is in the filtered list exactly when it is in the input
      and passes every active step. */
  lemma FilteredMembers(users: seq<User>, settings: ViewSettings)
    ensures forall u :: u in Filtered(users, settings) <==> u in users && Passes(settings, u)
  {
    var r := Filtered(users, settings);
    forall u
      ensures u in r <==> u in users && Passes(settings, u)
    {
      assert u in r <==> multiset(r)[u] > 0;
      assert u in users <==> multiset(users)[u] > 0;
    }
  }

  /** The `shownUsers` memo. It reads `users` and never writes it: the
      method may not modify any existing object, which is what the deep
      copy protects. Under the feed's order it shows exactly the filtered
      list; under since-online it shows a permutation of it, in which
      neighbours are in comparator order and online records keep their
      feed order. */
  method ShownUsers(users: array<User>, settings: ViewSettings) returns (shown: seq<User>)
    ensures multiset(shown) == multiset(Filtered(users[..], settings))
    ensures settings.sort == TotalTime ==> shown == Filtered(users[..], settings)
    ensures settings.sort == SinceOnline ==>
              Sorting.LocallySorted(Sorting.SinceOnline, shown) &&
              Filter(shown, IsOnline) == Filter(Filtered(users[..], settings), IsOnline)
  {
    var output := users[..];
    if !settings.showBots {
      output := Filter(output, IsHuman);
    }
    if !settings.showTourists {
      output := Filter(output, IsRegular);
    }
    match settings.filter {
      case Online => output := Filter(output, IsOnline);
      case Offline => output := Filter(output, IsOffline);
      case ShowAll =>
    }
    assert output == Filtered(users[..], settings);
    if settings.sort == SinceOnline {
      output := SortSinceOnline(output);
    }
    shown := output;
  }

  /** The since-online sort, run in place on a fresh array holding the
      filtered list: a permutation of its input, neighbours in comparator
      order, online records in their input order. */
  method SortSinceOnline(s: seq<User>) returns (r: seq<User>)
    ensures multiset(r) == multiset(s)
    ensures Sorting.LocallySorted(Sorting.SinceOnline, r)
    ensures Filter(r, IsOnline) == Filter(s, IsOnline)
  {
    var a := NewArray(s);
    Sorting.SortInPlace(a, Sorting.SinceOnline);
    var someOnline := User("", true, 0, 0, []);
    OnlineGroup(a[..], someOnline);
    OnlineGroup(s, someOnline);
    r := a[..];
  }

  /** Under the since-online order, the records `Tied` with an online
      record, whose relative order the sort keeps, are exactly the online
      records. */
  lemma {:induction false} OnlineGroup(s: seq<User>, v: User)
    requires v.online
    ensures Sorting.Group(Sorting.SinceOnline, s, v) == Filter(s, IsOnline)
    decreases |s|
  {
    if s != [] {
      OnlineGroup(s[1..], v);
    }
  }

  /** The filtered list keeps the feed's order: it is a subsequence of
      the input. */
  lemma FilteredIsSubsequence(users: seq<User>, settings: ViewSettings)
    ensures IsSubsequence(Filtered(users, settings), users)
  {
    var humans := if settings.showBots then users else Filter(users, IsHuman);
    var regulars := if settings.showTourists then humans else Filter(humans, IsRegular);
    var shown := ApplyFilter(regulars, settings.filter);
    if !settings.showBots {
      FilterIsSubsequence(users, IsHuman);
    }
    if !settings.showTourists {
      FilterIsSubsequence(humans, IsRegular);
    }
    match settings.filter {
      case ShowAll =>
      case Online => FilterIsSubsequence(regulars, IsOnline);
      case Offline => FilterIsSubsequence(regulars, IsOffline);
    }
    SubsequenceReflexive(users);
    SubsequenceReflexive(humans);
    SubsequenceReflexive(regulars);
    SubsequenceTransitive(humans, users, users);
    SubsequenceTransitive(regulars, humans, users);
    SubsequenceTransitive(shown, regulars, users);
  }

  /** The bot step drops exactly the records tagged "bot": what it keeps
      and what it drops together make up its input. */
  lemma BotStep(s: seq<User>)
    ensures forall u :: u in Filter(s, IsHuman) ==> BOT_TRAIT !in u.traits
    ensures multiset(Filter(s, IsHuman)) + multiset(Filter(s, IsBot)) == multiset(s)
  {
    FilterMembers(s, IsHuman);
    FilterPartition(s, IsHuman, IsBot);
  }

  /** The tourist step drops exactly the records with at most 60 minutes. */
  lemma TouristStep(s: seq<User>)
    ensures forall u :: u in Filter(s, IsRegular) ==> u.minutes > 60
    ensures multiset(Filter(s, IsRegular)) + multiset(Filter(s, IsTourist)) == multiset(s)
  {
    FilterMembers(s, IsRegular);
    FilterPartition(s, IsRegular, IsTourist);
  }

  /** Show-all changes nothing, and the online and offline views split
      the list between them. */
  lemma FilterModes(s: seq<User>)
    ensures ApplyFilter(s, ShowAll) == s
    ensures forall u :: u in ApplyFilter(s, Online) <==> u in s && u.online
    ensures forall u :: u in ApplyFilter(s, Offline) <==> u in s && !u.online
    ensures multiset(ApplyFilter(s, Online)) + multiset(ApplyFilter(s, Offline)) == multiset(s)
  {
    FilterMembers(s, IsOnline);
    FilterMembers(s, IsOffline);
    FilterPartition(s, IsOnline, IsOffline);
  }

  /** Applying the same settings to the list they produced changes
      nothing. */
  lemma FilteredIdempotent(users: seq<User>, settings: ViewSettings)
    ensures Filtered(Filtered(users, settings), settings) == Filtered(users, settings)
  {
    var once := Filtered(users, settings);
    FilteredMembers(users, settings);
    var humans := if settings.showBots then once else Filter(once, IsHuman);
    if !settings.showBots {
      FilterKeepsAll(once, IsHuman);
    }
    var regulars := if settings.showTourists then humans else Filter(humans, IsRegular);
    if !settings.showTourists {
      FilterKeepsAll(humans, IsRegular);
    }
    match settings.filter {
      case ShowAll =>
      case Online => FilterKeepsAll(regulars, IsOnline);
      case Offline => FilterKeepsAll(regulars, IsOffline);
    }
  }

  /** Hiding tourists shows the list that showing them gives, minus its
      tourists, in the same order. */
  lemma TouristToggle(users: seq<User>, settings: ViewSettings)
    ensures Filtered(users, settings.(showTourists := false)) ==
            Filter(Filtered(users, settings.(showTourists := true)), IsRegular)
  {
    var humans := if settings.showBots then users else Filter(users, IsHuman);
    match settings.filter {
      case ShowAll =>
      case Online => FilterCommute(humans, IsRegular, IsOnline);
      case Offline => FilterCommute(humans, IsRegular, IsOffline);
    }
  }

  /** Hiding bots shows the list that showing them gives, minus its bots,
      in the same order. */
  lemma BotToggle(users: seq<User>, settings: ViewSettings)
    ensures Filtered(users, settings.(showBots := false)) ==
            Filter(Filtered(users, settings.(showBots := true)), IsHuman)
  {
    var regulars := if settings.showTourists then users else Filter(users, IsRegular);
    if !settings.showTourists {
      FilterCommute(users, IsHuman, IsRegular);
    }
    match settings.filter {
      case ShowAll =>
      case Online => FilterCommute(regulars, IsHuman, IsOnline);
      case Offline => FilterCommute(regulars, IsHuman, IsOffline);
    }
  }

  /** An empty list yields an empty view under every setting. */
  lemma EmptyInput(settings: ViewSettings)
    ensures Filtered([], settings) == []
  {
  }

  /** A worked case: three records, online filter, tourists hidden. The
      30-minute offline record goes and the two online ones stay, in
      order; the numbers shown are 2 online, 620 minutes in all, 500 at
      most. */
  lemma ThreeRecordExample(a: User, b: User, c: User)
    requires a == User("a", true, 120, 0, [])
    requires b == User("b", false, 30, 0, [])
    requires c == User("c", true, 500, 0, [])
    ensures Filtered([a, b, c], ViewSettings(Online, TotalTime, false, false)) == [a, c]
    ensures |Filter([a, c], IsOnline)| == 2 && SumMinutes([a, c]) == 620 && MaxMinutes([a, c]) == 500
  {
    ExampleFiltered(a, b, c);
    FilterKeepsAll([a, c], IsOnline);
    assert [a] + [c] == [a, c];
    assert [a][..0] == [];
    SumMinutesSnoc([a], c);
    MaxMinutesSnoc([a], c);
  }

  lemma ExampleFiltered(a: User, b: User, c: User)
    requires a == User("a", true, 120, 0, [])
    requires b == User("b", false, 30, 0, [])
    requires c == User("c", true, 500, 0, [])
    ensures Filtered([a, b, c], ViewSettings(Online, TotalTime, false, false)) == [a, c]
  {
    ExampleHumans(a, b, c);
    ExampleRegulars(a, b, c);
    ExampleOnline(a, c);
  }

  lemma ExampleHumans(a: User, b: User, c: User)
    requires a.traits == b.traits == c.traits == []
    ensures Filter([a, b, c], IsHuman) == [a, b, c]
  {
    FilterKeepsAll([a, b, c], IsHuman);
  }

  lemma ExampleOnline(a: User, c: User)
    requires a.online && c.online
    ensures Filter([a, c], IsOnline) == [a, c]
  {
    FilterKeepsAll([a, c], IsOnline);
  }

  lemma ExampleRegulars(a: User, b: User, c: User)
    requires a.minutes == 120 && b.minutes == 30 && c.minutes == 500
    ensures Filter([a, b, c], IsRegular) == [a, c]
  {
    assert Filter([a, b], IsRegular) == [a] by {
      assert [a, b] == [a] + [b];
      FilterAppend([a], [b], IsRegular);
      FilterSingle(a, IsRegular);
      FilterSingle(b, IsRegular);
    }
    assert [a, b, c] == [a, b] + [c];
    FilterAppend([a, b], [c], IsRegular);
    FilterSingle(c, IsRegular);
  }
}
