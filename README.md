# Baltimare leaderboard: the view pipeline

The leaderboard shows a community's users with their online time. The
client receives the whole users list, from a socket push or a polled HTTP
request. Each user record has a name, an `online` flag, the total
`minutes` online, a `lastSeen` time and a list of `traits`. The client
then derives what it shows: which records are displayed, in which order,
and three numbers (the highest minutes, the total minutes and how many
shown users are online).

This project models that derivation in Dafny, in both versions of the
component:

- **`Leaderboard`** (`app/components/App.tsx`) covers the current view.
  Its settings are a filter (show all / online / offline), a sort (total
  time / since online) and two toggles (show bots, show tourists). The
  `shownUsers` pipeline deep-copies the list. It drops bots unless they
  are shown, then drops tourists (records with at most 60 minutes) unless
  they are shown, then applies the filter. With the since-online sort it
  finally sorts the copy in place.
- **`LegacyLeaderboard`** (`frontend/components/App.tsx`) covers the
  earlier view. A three-state numeric filter is cycled by `(f + 1) %
  length`. The list is filtered and then sorted in place by minutes, most
  first. A label names the current filter.
- **`Stats`** holds the three accumulator loops that compute the summary
  numbers. The legacy file's `highestMinutes` loop
  (frontend/components/App.tsx:52-60) is the same text as the current
  one, so one method models both.
- **`Sorting`** models `Array.prototype.sort` as an in-place stable
  insertion sort on an `array`, together with the two comparators the
  views pass to it.
- **`Users`** holds the record datatype, `filter` as a function on
  sequences, subsequences, and the specification functions `SumMinutes`
  and `MaxMinutes`.

The shape of the model follows the source:

- The filter steps are pure, so they are functions.
- The sorts work in place on arrays, so they are methods with `modifies`.
- The summary loops are methods with loop invariants, proved equal to
  specification functions.

The current `ShownUsers` takes the `users` state array and has no
`modifies` clause. Dafny therefore proves that the caller's array is
never written, which is what the deep copy guarantees. The legacy
`ShownUsers` declares `modifies users`. Its contract says that with the
filter off the result *is* the `users` array, sorted in place. With a
filter on, the result is a fresh array and `users` is unchanged.

Two facts about the code shape the model. The since-online comparator
returns 0 for two online records and otherwise compares `lastSeen`, so
it is not a consistent order, and what `sort` does with it depends on
the engine (see "## Left out"). The legacy view sorts its `users` state
array in place whenever the filter is off.

## Model

| member | source | states |
|---|---|---|
| `Users.Filter` | app/components/App.tsx:170-182 | `filter` never returns more records than its input holds |
| `Users.FilterCounts` | app/components/App.tsx:170-182 | `filter` keeps exactly the records the predicate accepts, each as many times as the input holds it, and nothing else |
| `Users.FilterMembers` | app/components/App.tsx:170-182 | a record is in the filtered list exactly when it is in the input and the predicate accepts it |
| `Users.FilterIsSubsequence` | app/components/App.tsx:170-182 | what `filter` keeps stays in input order (an order-preserving subsequence) |
| `Users.MaxMinutes` | app/components/App.tsx:201-209 | the highest minutes is at least 0 and at least every record's minutes, and it is 0 or one of those minutes; an empty list gives 0 |
| `Users.SumMinutesPermutation` | app/components/App.tsx:211-217 | the sum of minutes does not depend on the order of the records |
| `Sorting.Compare` | app/components/App.tsx:190-195 | the two comparators (the minutes one is at frontend/components/App.tsx:49): minutes-descending is positive exactly when `a` has fewer minutes and zero exactly on equal minutes; since-online is zero for two online records and otherwise positive exactly when `a` was last seen earlier; records tied for the sort's contracts always compare as zero |
| `Sorting.CompareAntisymmetric` | app/components/App.tsx:190-195 | both comparators are antisymmetric: swapping the arguments negates the result, including the inconsistent since-online comparator |
| `Sorting.SortInPlace` | app/components/App.tsx:189-196 | the in-place sort leaves a permutation of the old array contents; every neighbouring pair is in comparator order; records with equal minutes (minutes order), or two online records (since-online order), keep their relative order; the since-online comparator also returns 0 for records with equal `lastSeen` that are not both online, and for those the order is not pinned |
| `Sorting.LocallySortedByMinutes` | frontend/components/App.tsx:49 | under the consistent minutes comparator, neighbours in order means the whole list is sorted by minutes, non-increasing |
| `Stats.HighestMinutes` | app/components/App.tsx:201-209 | the `highestMinutes` loop returns `MaxMinutes` of the shown list |
| `Stats.TotalMinutes` | app/components/App.tsx:211-217 | the `totalMinutes` loop returns the sum of minutes over the shown list |
| `Stats.TotalOnline` | app/components/App.tsx:219-225 | the `totalOnline` loop returns the number of online records shown, never more than the list's length |
| `Stats.PermutationKeepsStats` | app/components/App.tsx:201-225 | the three numbers depend only on which records are shown, so the since-online sort does not change them |
| `Stats.EmptyStats` | app/components/App.tsx:201-225 | an empty list gives 0 for all three numbers |
| `Leaderboard.ApplyFilter` | app/components/App.tsx:177-184 | the filter step keeps exactly the records the chosen mode matches: online ones, offline ones, or all |
| `Leaderboard.Filtered` | app/components/App.tsx:169-184 | after the three filter steps a record appears exactly as often as in the input if it passes all active steps (not a hidden bot, not a hidden tourist, matches the filter), and otherwise not at all |
| `Leaderboard.ShownUsers` | app/components/App.tsx:166-199 | the pipeline never writes the caller's `users`; with sort = total time it returns exactly the filtered list; with sort = since online it returns a permutation of it whose neighbours are in comparator order and whose online records keep their input order |
| `Leaderboard.DefaultView` | app/components/App.tsx:128-131 | with the initial settings (show all, total time, tourists and bots hidden) the view is the feed's human records with more than 60 minutes, in feed order, and holds exactly those |
| `Leaderboard.FilteredMembers` | app/components/App.tsx:169-184 | a record is displayed exactly when it is in the input and passes every active step |
| `Leaderboard.SortSinceOnline` | app/components/App.tsx:189-196 | the since-online sort of the filtered copy is a permutation of it, its neighbours are in comparator order, and its online records keep their input order |
| `Leaderboard.OnlineGroup` | app/components/App.tsx:190-195 | under the since-online order, the records `Tied` with an online record (the pairs whose order the sort keeps) are exactly the online records |
| `Leaderboard.FilteredIsSubsequence` | app/components/App.tsx:166-198 | every displayed record comes from the input; under total-time sort the shown list is an order-preserving subsequence of the input |
| `Leaderboard.BotStep` | app/components/App.tsx:169-171 | the bot step leaves no record tagged "bot", and what it keeps plus what it drops is exactly its input |
| `Leaderboard.TouristStep` | app/components/App.tsx:173-175 | after the tourist step every record has more than 60 minutes, and exactly the records with at most 60 are removed |
| `Leaderboard.FilterModes` | app/components/App.tsx:177-184 | show-all changes nothing; online keeps exactly the online records and offline exactly the offline ones, and the two split the list between them |
| `Leaderboard.FilteredIdempotent` | app/components/App.tsx:169-184 | applying the same settings to their own output changes nothing |
| `Leaderboard.TouristToggle` | app/components/App.tsx:173-175 | the view with tourists hidden is the view with them shown, minus its tourists, in the same order |
| `Leaderboard.BotToggle` | app/components/App.tsx:169-171 | the view with bots hidden is the view with them shown, minus its bots, in the same order |
| `Leaderboard.EmptyInput` | app/components/App.tsx:166-184 | an empty list gives an empty view under every setting |
| `Leaderboard.ThreeRecordExample` | app/components/App.tsx:166-225 | records of 120 (online), 30 (offline) and 500 (online) minutes under the online filter with tourists hidden show the two online records in order, with 2 online, 620 minutes in total and 500 highest |
| `LegacyLeaderboard.ToggleFilter` | frontend/components/App.tsx:32-35 | the toggle always yields Off, Online or Offline and cycles Off to Online to Offline to Off |
| `LegacyLeaderboard.ToggleThrice` | frontend/components/App.tsx:32-35 | three toggles return to the starting filter |
| `LegacyLeaderboard.ApplyFilter` | frontend/components/App.tsx:40-47 | Online keeps exactly the online records, Offline exactly the offline ones, and Off returns the list itself |
| `Users.NewArray` | frontend/components/App.tsx:41-46 | the new array `filter` allocates is fresh and holds exactly the filtered records |
| `LegacyLeaderboard.ShownUsers` | frontend/components/App.tsx:37-50 | with the filter off the result is the `users` array itself, reordered in place; otherwise it is a fresh array and `users` is unchanged; the result is a permutation of the filtered list, sorted by minutes non-increasing, with equal minutes in their earlier order |
| `LegacyLeaderboard.HighestIsFirst` | frontend/components/App.tsx:52-60 | on the minutes-sorted list the highest minutes is the first record's minutes, or 0 when the list is empty or that value is negative |
| `LegacyLeaderboard.FilterText` | frontend/components/App.tsx:62-71 | Off, Online and Offline are labelled "no filter", "online only" and "offline only" |
| `LegacyLeaderboard.ToggleChangesText` | frontend/components/App.tsx:62-71 | distinct filters have distinct labels, so every toggle changes the label |

## Left out

- The socket.io connection, its `users` event and its disconnect (app/components/App.tsx:152-163) are left out because they are network I/O and a React effect lifecycle. Each event replaces the whole list, and that list is the `users` argument of the model.
- The legacy `fetch("/api/users")` and its once-a-minute Cron polling (frontend/components/App.tsx:18-30) are left out because they are HTTP I/O and timers.
- The sound manager's initialisation (app/components/App.tsx:119-124) is left out because it calls a service that is not part of this model.
- All rendering is left out: the JSX and CSS, `HeaderOptionPicker`, the stats markup, the enums' display strings ("show all", "total time", ...) used only as picker labels, and the `User` row component.
- `addSeperators` and `formatMinutes` are not part of this model. They only format the numbers for display.
- app/layout.tsx holds only page metadata and layout, and `CLOUDSDALE` is not part of this model.
- React state and memoisation (`useState`, `useMemo`, `useCallback`) are left out. The settings and the users list are parameters of the model.
- The JSON deep copy mechanism is left out. Taking `users[..]`, a sequence of immutable datatype values, is the copy.
- `Sorting.SortInPlace` models the engine's sort as a stable insertion sort. When the comparator is inconsistent, as the since-online comparator is, the language promises only a permutation. The neighbour-order and "online records keep their order" guarantees of `Leaderboard.ShownUsers` and `Leaderboard.SortSinceOnline` hold for this insertion sort only. Real engines, V8 among them, can reorder online records and can leave neighbours out of comparator order under this comparator. Take the input p (offline, lastSeen 100), l (offline, 30), x (online, 15), m1 (offline, 10), m2 (offline, 5), m3 (offline, 0), e (online, 50). V8's binary insertion on short runs compares e with m1, l and p and puts it at index 1, giving p, e, l, x, …, so online e comes before online x. The modelled sort stops e at x and gives p, l, x, e, m1, m2, m3.
- Timestamps are modelled as integers: `new Date(lastSeen).getTime()` becomes `lastSeen: int`. Unparseable dates (NaN) are not modelled.
- JavaScript numbers are doubles. `minutes` and the totals are unbounded integers here, so precision loss above 2^53 is not modelled.
- Fields of the API user record other than those the core reads are left out.
