# Thales dapp screens: a verified model

This project models the client-side logic of the Thales binary-options dapp, a React front end. The code covered here is what the screens compute from the data they are given, and how their state changes on a click or a transaction. It covers:

- the **leaderboard** table: sort, rank, search, paging and own-row highlight;
- the **Royale scoreboard**: sort, paging arrows, footer, avatar and title;
- the **profile** page: profile lookup and the four per-market groupings, with its **exercises table**;
- the **leaderboard query**'s reshaping of the server's records;
- the **THALES staking** panels: my stake, staking rewards, stake, unstake, and vesting;
- the **hot-markets carousel**;
- the **user's open-orders list**;
- the **create-market form**;
- the **date and duration formatters** and the **options constants**.

Each source module becomes one Dafny module. A component whose hooks update state becomes a `class`: its `useState` values are fields, and its handlers and effects are methods with `modifies` clauses. A memoised computation becomes a function with lemmas about it. A loop or a `reduce` that builds a value step by step becomes a method, proved equal to a pure function whose properties are proved as lemmas. Shared machinery has modules of its own:

- `StableSort`: `Array.prototype.sort`, as an in-place insertion sort on an `array`. It is proved equal to a functional stable sort, which is a permutation, ordered and stable.
- `Paging`: page counts, page clamping and `slice`.
- `SortHeader`: the `calcDirection` header cycle shared by three tables.
- `JsMap`: a JavaScript `Map` with its insertion-ordered keys.
- `Transactions`: how an awaited contract call ends, and amounts held as decimal text.

Awaited contract calls are parameters. `Confirmed` means the receipt has what the handler checks for. `Unconfirmed` means a receipt without it, and then the handler resets nothing. `Failed` means the call threw. Whether a gas price is known is a boolean parameter. JavaScript's division by zero gives an infinity or NaN (`MyStake.JsNumber`), and truthiness is written out where the source relies on it (`|| 0`, `|| 1`, `!+amount`, `if (duration.x)`).

Three behaviours of the code are modelled as they are written:

- **No guard for an empty pool.** `MyStake.tsx:80-83` divides by the pool total, so an empty pool gives an infinity or NaN rather than a share of 0 (`MyStake.Share`, `MyStake.Apr`).
- **A one-minute cooldown that ends strictly after its end.** `Unstake.tsx:35-38` adds 60 seconds to the start, not a week, and `Unstake.tsx:76` counts unstaking as ended only when `now > end` (`Unstake.AddWeekIsAMinute`, `Unstake.EndedStrictlyAfter`).
- **No checks on calls.** The panels never reject a call themselves. They only disable buttons, and the model states those buttons.

## Model

| member | source | states |
|---|---|---|
| Common.Sign | src/pages/Options/Home/Leaderboard/LeaderboardTable/LeaderboardTable.tsx:110-155 | the sign of a comparator's difference: 1, -1 or 0 exactly when the difference is positive, negative or zero |
| Common.Lower | src/queries/options/useLeaderboardQuery.ts:48 | `toLowerCase` on the ASCII capitals: the length is kept and A to Z are lower-cased one for one, every other character left alone |
| Common.LowerIdempotent | src/queries/options/useLeaderboardQuery.ts:48 | lower-casing twice is lower-casing once |
| Common.SameIgnoringCase | src/pages/Options/Home/Leaderboard/LeaderboardTable/LeaderboardTable.tsx:271 | `a.toLowerCase() === b.toLowerCase()`: equality of the lower-cased strings |
| Common.Trim | src/queries/options/useLeaderboardQuery.ts:48 | `trim` leaves a contiguous piece of the input that starts where the leading whitespace ends; whitespace is ECMAScript's full WhiteSpace and LineTerminator set |
| Common.TrimEnds | src/queries/options/useLeaderboardQuery.ts:48 | what `trim` leaves has no whitespace at either end |
| Common.TrimLowerCommute | src/queries/options/useLeaderboardQuery.ts:48 | `trim` and `toLowerCase` commute, so the key normalisation can be done in either order |
| Common.TrimmedIsFixed | src/pages/Options/Home/Leaderboard/Profile/Profile.tsx:46 | a string with no whitespace at its ends is its own `trim` |
| Common.TrimLowerHasNoCapital | src/queries/options/useLeaderboardQuery.ts:48 | a lower-cased, trimmed string has no capital letter left |
| Common.LowerHasNoCapital | src/queries/options/useLeaderboardQuery.ts:48 | `toLowerCase` leaves no capital letter A to Z |
| Common.TrimKeepsNoCapital | src/queries/options/useLeaderboardQuery.ts:48 | `trim` only removes characters, so a string without capitals stays without |
| Common.Filter | src/pages/Options/Home/Leaderboard/LeaderboardTable/LeaderboardTable.tsx:162-176 | `filter` keeps exactly the elements satisfying the predicate, and nothing else |
| Common.FilterAppend | src/pages/Options/Home/Leaderboard/LeaderboardTable/LeaderboardTable.tsx:162-176 | filtering a concatenation is the concatenation of the filtered parts |
| Common.Slice | src/pages/Options/Home/Leaderboard/LeaderboardTable/LeaderboardTable.tsx:177 | `slice` with clamped bounds: the in-range piece, or empty when start is past the end |
| Common.IntToString | src/utils/formatters/date.ts:23 | the template rendering of an integer: a minus sign first exactly when it is negative, then only decimal digits, at least one |
| Common.NatToStringRoundTrip | src/utils/formatters/date.ts:23 | the decimal digits of a number read back give the number |
| Common.IntToStringRoundTrip | src/utils/formatters/date.ts:23 | reading the rendering of any integer back, sign included, gives the integer |
| Common.IntToStringInjective | src/utils/formatters/date.ts:23 | different integers never render the same |
| Common.Join | src/utils/formatters/date.ts:43 | `join(delimiter)`: the parts with the delimiter between neighbours (its uses are proved in `DateFormat.MinutesAndSeconds`) |
| StableSort.Sorted | src/pages/Options/Home/Leaderboard/LeaderboardTable/LeaderboardTable.tsx:54 | `Array.prototype.sort` as a stable insertion sort: the result has the input's length |
| StableSort.SortedPermutes | src/pages/Options/Home/Leaderboard/LeaderboardTable/LeaderboardTable.tsx:54 | sorting neither adds nor loses an element (multiset equality) |
| StableSort.SortedOrdered | src/pages/Options/Home/Leaderboard/LeaderboardTable/LeaderboardTable.tsx:54 | with an antisymmetric comparator, neighbours come out in comparator order |
| StableSort.SortedStable | src/pages/Options/Home/Leaderboard/LeaderboardTable/LeaderboardTable.tsx:54 | elements that compare equal keep their input order |
| StableSort.SortedIdentity | src/pages/Options/Home/Leaderboard/LeaderboardTable/LeaderboardTable.tsx:54 | sorting a list already in order returns it unchanged |
| StableSort.OrderedAllPairs | src/pages/Options/Home/Leaderboard/LeaderboardTable/LeaderboardTable.tsx:110-155 | with a transitive comparator, every earlier element is in order with every later one |
| StableSort.FilterOrderedAll | src/pages/Options/Home/Leaderboard/LeaderboardTable/LeaderboardTable.tsx:162-177 | dropping rows from an ordered list keeps the rest ordered |
| StableSort.KeyComparatorConsistent | src/pages/Options/Home/Leaderboard/LeaderboardTable/LeaderboardTable.tsx:110-155 | `(a, b) => key(b) - key(a)` and its ascending twin are antisymmetric and transitive |
| StableSort.SortedByKey | src/pages/Options/Home/Leaderboard/LeaderboardTable/LeaderboardTable.tsx:110-155 | sorting by a key comparator orders the whole result by that key, descending or ascending |
| StableSort.UnsortedIdentity | src/pages/Options/Home/Leaderboard/LeaderboardTable/LeaderboardTable.tsx:154 | a comparator returning 0 for every pair leaves the list as it is |
| StableSort.SortInPlace | src/pages/Options/Home/Leaderboard/LeaderboardTable/LeaderboardTable.tsx:54 | the in-place sort of an array leaves it equal to the sorted sequence of its old contents |
| StableSort.InsertInPlace | src/pages/Options/Home/Leaderboard/LeaderboardTable/LeaderboardTable.tsx:54 | one insertion step in place equals inserting the element into the sorted prefix |
| StableSort.ShiftGreater | src/pages/Options/Home/Leaderboard/LeaderboardTable/LeaderboardTable.tsx:54 | the shifting scan moves every element behind the slot that compares greater than the inserted one a place right, leaves the rest of the array alone, and stops at the first element that does not compare greater |
| StableSort.InsertSlot | src/pages/Options/Home/Leaderboard/LeaderboardTable/LeaderboardTable.tsx:54 | inserting into a list puts the element right behind the last element that does not compare greater and in front of the run of greater ones |
| Paging.CeilDivBounds | src/pages/Options/Home/Leaderboard/LeaderboardTable/LeaderboardTable.tsx:67 | `Math.ceil(n / r)` is the least number of pages of r rows holding n rows |
| Paging.NumberOfPages | src/pages/Options/Home/Leaderboard/LeaderboardTable/LeaderboardTable.tsx:67 | `Math.ceil(n / r) \|\| 1` is at least 1, enough pages for n rows, and never one page too many |
| Paging.ShownPage | src/pages/Options/Home/Leaderboard/LeaderboardTable/LeaderboardTable.tsx:98-103 | the shown page is below the page count, never past the request, and equals it exactly when it is in range |
| Paging.Page | src/pages/Options/Home/Leaderboard/LeaderboardTable/LeaderboardTable.tsx:177 | page p is `s.slice(p * r, r * (p + 1))`: at most r rows, empty past the end |
| Paging.PagesPrefix | src/pages/Options/Home/Leaderboard/LeaderboardTable/LeaderboardTable.tsx:177 | the first k pages together are the first k * r rows |
| Paging.PagesCover | src/pages/Options/Home/Leaderboard/LeaderboardTable/LeaderboardTable.tsx:67-177 | the pages 0 .. numberOfPages - 1 together are the whole list, each row once and in order |
| Paging.LastPageNonEmpty | src/pages/Options/Home/Leaderboard/LeaderboardTable/LeaderboardTable.tsx:67 | when the count is the listed rows, the last page holds at least one row |
| SortHeader.CalcDirection | src/pages/Options/Home/Leaderboard/LeaderboardTable/LeaderboardTable.tsx:77-96 | a new column sorts descending; DESC on the same column becomes ASC; ASC goes back to the default column, descending; NONE becomes DESC |
| SortHeader.ClickChangesState | src/pages/Options/Home/Leaderboard/LeaderboardTable/LeaderboardTable.tsx:77-96 | every header click changes the sort state |
| SortHeader.TwoClicksRestoreDefault | src/pages/Options/Home/Leaderboard/LeaderboardTable/LeaderboardTable.tsx:83-89 | DESC, then two more clicks on the same column, returns to the default column descending |
| SortHeader.DefaultColumnCycles | src/pages/Options/Home/Leaderboard/LeaderboardTable/LeaderboardTable.tsx:77-96 | on the default column the clicks alternate between DESC and ASC |
| JsMap.Get | src/queries/options/useLeaderboardQuery.ts:46-48 | `get` finds exactly the keys that have a value |
| JsMap.Set | src/queries/options/useLeaderboardQuery.ts:48 | `set` stores the value; a new key is appended to the key order, an existing key keeps its place |
| JsMap.SetValid | src/queries/options/useLeaderboardQuery.ts:48 | `set` keeps every key listed once, and listed exactly when it has a value |
| JsMap.KeysCoverEntries | src/pages/Options/Home/Leaderboard/Profile/Profile.tsx:41 | `profiles.keys()` lists every key that has a value |
| JsMap.GetAfterSet | src/queries/options/useLeaderboardQuery.ts:48 | a `get` after `set` sees the value set, and every other key is unaffected |
| JsMap.FirstOccurrences | src/queries/options/useLeaderboardQuery.ts:46-48 | the key order of a map filled by `set`: each distinct key once, where it first occurs |
| JsMap.SetEachLastWins | src/queries/options/useLeaderboardQuery.ts:48 | after a run of `set` calls, the value under a key is the one set last |
| JsMap.SetEachMissing | src/queries/options/useLeaderboardQuery.ts:46-48 | a key never set is missing |
| JsMap.SetEachKeyOrder | src/queries/options/useLeaderboardQuery.ts:46-48 | the keys are listed once each, in the order they were first set |
| LeaderboardTable.ArrangedOrder | src/pages/Options/Home/Leaderboard/LeaderboardTable/LeaderboardTable.tsx:110-155 | on columns 5 to 9 the table is non-increasing in the column under DESC and non-decreasing under ASC; any other sort leaves the volume order |
| LeaderboardTable.LeaderCompare | src/pages/Options/Home/Leaderboard/LeaderboardTable/LeaderboardTable.tsx:110-155 | the column comparator: `b - a` under DESC and `a - b` under ASC on columns 5 to 9, and 0 for everything otherwise |
| LeaderboardTable.Arranged | src/pages/Options/Home/Leaderboard/LeaderboardTable/LeaderboardTable.tsx:54-155 | the two sorts applied one after the other: by volume when the data arrive, then by the chosen column (ordered as `ArrangedOrder` states) |
| LeaderboardTable.ArrangedTiesByVolume | src/pages/Options/Home/Leaderboard/LeaderboardTable/LeaderboardTable.tsx:54-155 | rows tied on the chosen column stay in descending-volume order |
| LeaderboardTable.Rank | src/pages/Options/Home/Leaderboard/LeaderboardTable/LeaderboardTable.tsx:156-161 | ranks are assigned to the sorted rows before filtering, each between 1 and N and no two alike |
| LeaderboardTable.RanksArePermutation | src/pages/Options/Home/Leaderboard/LeaderboardTable/LeaderboardTable.tsx:156-161 | every rank 1 .. N is given to some row, so the ranks are a permutation of 1 .. N |
| LeaderboardTable.SearchFilter | src/pages/Options/Home/Leaderboard/LeaderboardTable/LeaderboardTable.tsx:162-176 | a row is kept exactly when the search matches its address or display name, ignoring case |
| LeaderboardTable.Matches | src/pages/Options/Home/Leaderboard/LeaderboardTable/LeaderboardTable.tsx:164-173 | the search test: empty, or found in the address or in a set display name, ignoring case |
| LeaderboardTable.EmptySearchKeepsAll | src/pages/Options/Home/Leaderboard/LeaderboardTable/LeaderboardTable.tsx:164 | an empty search keeps every row, in order |
| LeaderboardTable.DataRowsKeepRank | src/pages/Options/Home/Leaderboard/LeaderboardTable/LeaderboardTable.tsx:156-177 | every shown row matches the search and carries the rank it had in the whole sorted table; a page has at most rowsPerPage rows |
| LeaderboardTable.OwnRows | src/pages/Options/Home/Leaderboard/LeaderboardTable/LeaderboardTable.tsx:271 | the highlighted rows are exactly those whose address equals the wallet's, ignoring case |
| LeaderboardTable.Height | src/pages/Options/Home/Leaderboard/LeaderboardTable/LeaderboardTable.tsx:439-450 | the rank cell is 160, 130 and 100 high for ranks 1, 2 and 3, and 75 otherwise |
| LeaderboardTable.HeightNonIncreasing | src/pages/Options/Home/Leaderboard/LeaderboardTable/LeaderboardTable.tsx:439-450 | a better rank never gets a lower cell |
| LeaderboardTable.LeaderboardView.constructor | src/pages/Options/Home/Leaderboard/LeaderboardTable/LeaderboardTable.tsx:61-70 | the table starts on page 0, with 15 rows per page, sorted by volume descending, with no search |
| LeaderboardTable.LeaderboardView.ShownPage | src/pages/Options/Home/Leaderboard/LeaderboardTable/LeaderboardTable.tsx:98-103 | the page shown is within the page count and never past the requested page |
| LeaderboardTable.LeaderboardView.ChangePage | src/pages/Options/Home/Leaderboard/LeaderboardTable/LeaderboardTable.tsx:63-65 | a page change sets the page and nothing else |
| LeaderboardTable.LeaderboardView.ChangeRowsPerPage | src/pages/Options/Home/Leaderboard/LeaderboardTable/LeaderboardTable.tsx:72-75 | a new page size goes back to page 0 |
| LeaderboardTable.LeaderboardView.SetSearch | src/pages/Options/Home/Leaderboard/LeaderboardTable/LeaderboardTable.tsx:199 | typing sets the search and nothing else |
| LeaderboardTable.LeaderboardView.ClickHeader | src/pages/Options/Home/Leaderboard/LeaderboardTable/LeaderboardTable.tsx:77-96 | a sortable header steps the sort as CalcDirection does, and a new column resets the page to 0; other headers do nothing |
| LeaderboardTable.LeaderboardView.Render | src/pages/Options/Home/Leaderboard/LeaderboardTable/LeaderboardTable.tsx:53-178 | the array is sorted in place by volume, then by the chosen column; the rows shown are the ranked, filtered, shown page; the highlighted rows are the wallet's |
| LeaderboardTable.ClickKeepsSortableColumn | src/pages/Options/Home/Leaderboard/LeaderboardTable/LeaderboardTable.tsx:77-96 | clicks keep the sort on a sortable column and never reach NONE |
| Scoreboard.NumericColumnsOrder | src/pages/Options/Royal/components/Scoreboard/Scoreboard.tsx:68-87 | status and number: DESC lists them smallest first, every other direction largest first |
| Scoreboard.UserCompare | src/pages/Options/Royal/components/Scoreboard/Scoreboard.tsx:69-86 | the comparator of columns 1, 3 and 4: `a - b` under DESC and `b - a` otherwise, names by `localeCompare` |
| Scoreboard.UsersToShow | src/pages/Options/Royal/components/Scoreboard/Scoreboard.tsx:67-87 | the users sorted by a sortable column, and none for any other column (ordered as the lemmas beside it state) |
| Scoreboard.NameColumnOrder | src/pages/Options/Royal/components/Scoreboard/Scoreboard.tsx:74-80 | names: neighbours are in `localeCompare` order under DESC and in reverse order otherwise |
| Scoreboard.UsersToShowPermutes | src/pages/Options/Royal/components/Scoreboard/Scoreboard.tsx:68-87 | sorting neither adds nor loses a user |
| Scoreboard.PageCountBounds | src/pages/Options/Royal/components/Scoreboard/Scoreboard.tsx:66 | `Math.ceil(len / 15)` is 0 exactly for no users, and otherwise the least page count that holds them |
| Scoreboard.UsersToDisplay | src/pages/Options/Royal/components/Scoreboard/Scoreboard.tsx:88 | page p (from 1) is `slice((p - 1) * 15, 15 * p)`, at most 15 users |
| Scoreboard.GetFooter | src/pages/Options/Royal/components/Scoreboard/Scoreboard.tsx:120-138 | no footer for a live ready user, the eliminated text for a dead one, sign-up for a user not signed, otherwise the verify button |
| Scoreboard.GetAvatar | src/pages/Options/Royal/components/Scoreboard/Scoreboard.tsx:290-309 | own avatar when ready, an icon when not verified or not signed, nothing for any other status |
| Scoreboard.GetTitle | src/pages/Options/Royal/components/Scoreboard/Scoreboard.tsx:485-520 | round 0 shows the start button once sign-up has passed and a countdown before; the last round shows the end; otherwise the next round's label, round + 1 |
| Scoreboard.ScoreboardView.constructor | src/pages/Options/Royal/components/Scoreboard/Scoreboard.tsx:52-58 | the scoreboard starts on page 1, sorted by status, DESC |
| Scoreboard.ScoreboardView.SetUsers | src/pages/Options/Royal/components/Scoreboard/Scoreboard.tsx:60-62 | the fetched users replace the list; page and sort stay |
| Scoreboard.ScoreboardView.ClickHeader | src/pages/Options/Royal/components/Scoreboard/Scoreboard.tsx:99-118 | a sortable header steps the sort; a new column goes back to page 1 |
| Scoreboard.ScoreboardView.Previous | src/pages/Options/Royal/components/Scoreboard/Scoreboard.tsx:222-226 | the page becomes `PreviousPage` of the old page (nothing on page 1 or below, otherwise one page back); users and sort stay |
| Scoreboard.ScoreboardView.Next | src/pages/Options/Royal/components/Scoreboard/Scoreboard.tsx:231-237 | the page becomes `NextPage` of the old page and the view's page count (nothing when they are equal, otherwise one page on); users and sort stay |
| Scoreboard.ScoreboardView.Render | src/pages/Options/Royal/components/Scoreboard/Scoreboard.tsx:64-91 | a sortable column sorts the array in place; the page shown is cut from the sorted users |
| Scoreboard.NextThenPrevious | src/pages/Options/Royal/components/Scoreboard/Scoreboard.tsx:222-237 | on the pages the two arrows move between, next then previous returns to the starting page unless next was a no-op on the last page |
| Scoreboard.PreviousThenNext | src/pages/Options/Royal/components/Scoreboard/Scoreboard.tsx:222-237 | within the page count, previous then next from any page after the first returns to it |
| Scoreboard.NextStaysWithinPages | src/pages/Options/Royal/components/Scoreboard/Scoreboard.tsx:231-237 | within the page count, the next arrow's page stays between 1 and the last page |
| Scoreboard.NextPressesStopAtLast | src/pages/Options/Royal/components/Scoreboard/Scoreboard.tsx:231-237 | within the page count, k presses of next move k pages on and then stay on the last page |
| Scoreboard.NextPastEmptyBoard | src/pages/Options/Royal/components/Scoreboard/Scoreboard.tsx:231-237 | with no users the page count is 0, and since the test is `===`, k presses of next from any page move k pages on without stopping |
| UserExercisesTable.MarketOf | src/pages/Options/Home/Leaderboard/Profile/UserExercisesTable/UserExercisesTable.tsx:111-112 | `filter(...)[0]`: a market with that address from the list, or undefined when none has it |
| UserExercisesTable.MarketOfIsFirst | src/pages/Options/Home/Leaderboard/Profile/UserExercisesTable/UserExercisesTable.tsx:111-112 | the market found is the first with that address |
| UserExercisesTable.OtherColumnKeepsOrder | src/pages/Options/Home/Leaderboard/Profile/UserExercisesTable/UserExercisesTable.tsx:106-122 | a column other than 1 to 4 compares everything equal and leaves the exercises in order |
| UserExercisesTable.ExerciseCompare | src/pages/Options/Home/Leaderboard/Profile/UserExercisesTable/UserExercisesTable.tsx:106-122 | the comparator of the current column: date, market, side or amount through the supplied sorters, and 0 for any other column |
| UserExercisesTable.SortedExercises | src/pages/Options/Home/Leaderboard/Profile/UserExercisesTable/UserExercisesTable.tsx:124 | the shown page holds at most rowsPerPage exercises, all of them from the sorted list |
| UserExercisesTable.ExercisesView.constructor | src/pages/Options/Home/Leaderboard/Profile/UserExercisesTable/UserExercisesTable.tsx:54-66 | the table starts by date, DESC, on page 0 with 10 rows per page |
| UserExercisesTable.ExercisesView.NumberOfPages | src/pages/Options/Home/Leaderboard/Profile/UserExercisesTable/UserExercisesTable.tsx:68-70 | `Math.ceil(len / rowsPerPage) \|\| 1` is at least 1 |
| UserExercisesTable.ExercisesView.ChangePage | src/pages/Options/Home/Leaderboard/Profile/UserExercisesTable/UserExercisesTable.tsx:62-64 | a page change sets the page and nothing else |
| UserExercisesTable.ExercisesView.ChangeRowsPerPage | src/pages/Options/Home/Leaderboard/Profile/UserExercisesTable/UserExercisesTable.tsx:72-75 | a new page size goes back to page 0 |
| UserExercisesTable.ExercisesView.ClickHeader | src/pages/Options/Home/Leaderboard/Profile/UserExercisesTable/UserExercisesTable.tsx:84-102 | a sortable header steps the sort, and the sort's change resets the page to 0 |
| UserExercisesTable.ExercisesView.SetMobileSort | src/pages/Options/Home/Leaderboard/Profile/UserExercisesTable/UserExercisesTable.tsx:57-59 | a non-zero mobile choice becomes the column, zero the default; a changed sort resets the page |
| UserExercisesTable.ExercisesView.Render | src/pages/Options/Home/Leaderboard/Profile/UserExercisesTable/UserExercisesTable.tsx:77-125 | the array is sorted in place by the current comparator, and the page cut from it is the requested page clamped by `Paging.ShownPage` |
| LeaderboardQuery.Row | src/queries/options/useLeaderboardQuery.ts:49-56 | a row carries the record's address and its five metrics |
| LeaderboardQuery.ProfileKey | src/queries/options/useLeaderboardQuery.ts:48 | `toLowerCase().trim()`: the key has no whitespace at either end and no capital letter |
| LeaderboardQuery.Profiles | src/queries/options/useLeaderboardQuery.ts:48 | the profiles of the records, one per record, in record order |
| LeaderboardQuery.Leaderboard | src/queries/options/useLeaderboardQuery.ts:47-57 | one leaderboard row per record, in order, from its leaderboard metrics |
| LeaderboardQuery.Competition | src/queries/options/useLeaderboardQuery.ts:58-67 | one competition row per record, in order, from its competition metrics |
| LeaderboardQuery.Reshape | src/queries/options/useLeaderboardQuery.ts:46-69 | the single pass over the records yields exactly the leaderboard rows, the profiles map and the competition rows |
| LeaderboardQuery.LeaderboardAndCompetitionAlign | src/queries/options/useLeaderboardQuery.ts:47-67 | the two lists have equal length and the same wallet at each index |
| LeaderboardQuery.ProfilesLastWins | src/queries/options/useLeaderboardQuery.ts:48 | a later record with the same key overwrites an earlier profile |
| LeaderboardQuery.ProfilesMissing | src/queries/options/useLeaderboardQuery.ts:46-48 | a key no record has is missing from the map |
| LeaderboardQuery.ProfilesKeyOrder | src/queries/options/useLeaderboardQuery.ts:46-48 | the map lists each key once, where a record first has it |
| LeaderboardQuery.ProfileKeyStable | src/queries/options/useLeaderboardQuery.ts:48 | a stored key, normalised again as the profile page does, is the same key |
| LeaderboardQuery.ProfilesKeysFromRecords | src/queries/options/useLeaderboardQuery.ts:48 | every key of the map is some record's normalised address |
| LeaderboardQuery.ProfilesKeysStable | src/queries/options/useLeaderboardQuery.ts:48 | every key of the map is found again by the profile page's normalisation |
| Profile.SelectProfile | src/pages/Options/Home/Leaderboard/Profile/Profile.tsx:38-51 | no profile without profiles or without a wallet |
| Profile.SearchLooksUpMatch | src/pages/Options/Home/Leaderboard/Profile/Profile.tsx:40-47 | a search matching exactly one non-empty key looks that key up |
| Profile.SearchedAddress | src/pages/Options/Home/Leaderboard/Profile/Profile.tsx:41-44 | a non-empty selected address is one of the map's keys and matches the search |
| Profile.KeyMatches | src/pages/Options/Home/Leaderboard/Profile/Profile.tsx:41-43 | the search test on a key: the lower-cased key contains the lower-cased search |
| Profile.SearchSelectsMatch | src/pages/Options/Home/Leaderboard/Profile/Profile.tsx:40-47 | on the query's map, that key's profile is found and shown |
| Profile.WalletProfileShown | src/pages/Options/Home/Leaderboard/Profile/Profile.tsx:49 | without a search singling out one key, the wallet's own profile is shown |
| Profile.Push | src/pages/Options/Home/Leaderboard/Profile/Profile.tsx:56-62 | the record's entry is appended to its market's list, or starts a new list; other markets are untouched |
| Profile.GroupByMarket | src/pages/Options/Home/Leaderboard/Profile/Profile.tsx:53-65 | the get/push/set loop yields exactly `Grouped`: per market the records' entries in order (GroupedLists), markets in first-seen order (GroupedKeyOrder), nothing lost (GroupedTotal) |
| Profile.Grouped | src/pages/Options/Home/Leaderboard/Profile/Profile.tsx:53-65 | the grouping by market address, each record pushed in turn (its properties: `GroupedLists`, `GroupedValid`, `GroupedKeyOrder`, `GroupedTotal`) |
| Profile.GroupedLists | src/pages/Options/Home/Leaderboard/Profile/Profile.tsx:53-65 | each market's list holds exactly its records' entries, in record order; a market no record names has no list |
| Profile.GroupedValid | src/pages/Options/Home/Leaderboard/Profile/Profile.tsx:53-65 | the grouped map lists each key once, exactly the keys with a list |
| Profile.GroupedKeyOrder | src/pages/Options/Home/Leaderboard/Profile/Profile.tsx:53-65 | markets are listed in the order they first occur |
| Profile.GroupedTotal | src/pages/Options/Home/Leaderboard/Profile/Profile.tsx:55-63 | the lists hold as many entries as there are records: nothing dropped or duplicated |
| Profile.ExtractMints | src/pages/Options/Home/Leaderboard/Profile/Profile.tsx:53-65 | no profile gives an empty map; otherwise each mint's tx under its market |
| Profile.ExtractTrades | src/pages/Options/Home/Leaderboard/Profile/Profile.tsx:67-79 | each trade's details under its market |
| Profile.ExtractExercises | src/pages/Options/Home/Leaderboard/Profile/Profile.tsx:81-94 | each exercise's tx under its market |
| Profile.ExtractUnclaimed | src/pages/Options/Home/Leaderboard/Profile/Profile.tsx:96-109 | each unclaimed record itself under its market |
| MyStake.Divide | src/pages/Options/Earn/ThalesStaking/MyStake/MyStake.tsx:68-69 | JavaScript division: a finite quotient exactly when the divisor is non-zero; otherwise an infinity, or NaN for 0 / 0 |
| MyStake.Times | src/pages/Options/Earn/ThalesStaking/MyStake/MyStake.tsx:85 | multiplying keeps a number finite, and an infinity times 0 is NaN |
| MyStake.TotalThalesStaked | src/pages/Options/Earn/ThalesStaking/MyStake/MyStake.tsx:75-78 | the pool: the staked amount plus the escrowed rewards, less the escrowed balance not staked (the APR and the share divide by it) |
| MyStake.Apr | src/pages/Options/Earn/ThalesStaking/MyStake/MyStake.tsx:66-71 | the APR times the pool is 52 weeks of reward as a percentage; an empty pool gives no finite APR |
| MyStake.Share | src/pages/Options/Earn/ThalesStaking/MyStake/MyStake.tsx:80-83 | the share times the pool is 100 times the stake; an empty pool gives an infinity or NaN |
| MyStake.ShareAdditive | src/pages/Options/Earn/ThalesStaking/MyStake/MyStake.tsx:80-83 | the shares of two stakes add up to the share of their sum |
| MyStake.EstimatedRewards | src/pages/Options/Earn/ThalesStaking/MyStake/MyStake.tsx:85 | the share as a fraction times the weekly rewards (proved in the two lemmas below) |
| MyStake.EstimatedRewardsOfStake | src/pages/Options/Earn/ThalesStaking/MyStake/MyStake.tsx:85 | the estimate is the fraction of the pool times the weekly rewards; an empty pool gives no finite estimate |
| MyStake.WholePoolEarnsAll | src/pages/Options/Earn/ThalesStaking/MyStake/MyStake.tsx:80-85 | holding the whole pool is a 100% share and earns the whole weekly reward |
| MyStake.NotEligible | src/pages/Options/Earn/ThalesStaking/MyStake/MyStake.tsx:109-111 | the warning: nothing staked while something is escrowed |
| MyStake.NotEligibleEarnsNothing | src/pages/Options/Earn/ThalesStaking/MyStake/MyStake.tsx:109-111 | a user warned as not eligible has a zero share and is estimated to earn nothing |
| MyStake.AprToApy | src/pages/Options/Earn/ThalesStaking/MyStake/MyStake.tsx:43 | `((1 + i / 100 / f) ** f - 1) * 100`; no compounding yields 0 (its properties are the two lemmas below) |
| MyStake.AprToApyOnce | src/pages/Options/Earn/ThalesStaking/MyStake/MyStake.tsx:43 | compounding once yields the rate itself |
| MyStake.AprToApyAtLeastApr | src/pages/Options/Earn/ThalesStaking/MyStake/MyStake.tsx:43 | compounding a non-negative rate one or more times yields at least the rate |
| MyStake.Apy | src/pages/Options/Earn/ThalesStaking/MyStake/MyStake.tsx:73 | the APY of a finite APR is its 52-fold compounding; an infinity stays infinite and NaN stays NaN |
| MyStake.ApyAtLeastApr | src/pages/Options/Earn/ThalesStaking/MyStake/MyStake.tsx:73 | a non-negative APR shows an APY no lower than itself |
| MyStake.Round | src/pages/Options/Earn/ThalesStaking/MyStake/MyStake.tsx:32-38 | `Math.round`: the nearest integer, halves rounded up |
| MyStake.Scale | src/pages/Options/Earn/ThalesStaking/MyStake/MyStake.tsx:31-38 | the scale a magnitude is compacted by is positive |
| MyStake.NumberWithCommasAsWritten | src/pages/Options/Earn/ThalesStaking/MyStake/MyStake.tsx:24-26 | `numberWithCommas` as written: a comma wherever the regular expression matches, the fraction included |
| MyStake.NumberWithCommas | src/pages/Options/Earn/ThalesStaking/MyStake/MyStake.tsx:24-26 | `numberWithCommas` as evidently intended: the leading digits grouped in threes, the rest kept |
| MyStake.AsWrittenRoundTrip | src/pages/Options/Earn/ThalesStaking/MyStake/MyStake.tsx:24-26 | the original only adds commas: deleting them gives a comma-free input back |
| MyStake.AsWrittenDigitsThenLetter | src/pages/Options/Earn/ThalesStaking/MyStake/MyStake.tsx:28-41 | digits followed by a letter, as a compacted label is: the digits are grouped in threes and the letter is kept |
| MyStake.GroupedLength | src/pages/Options/Earn/ThalesStaking/MyStake/MyStake.tsx:24-26 | grouping n digits adds (n - 1) / 3 commas |
| MyStake.GroupedRoundTrip | src/pages/Options/Earn/ThalesStaking/MyStake/MyStake.tsx:24-26 | deleting the commas of grouped digits gives the digits back |
| MyStake.NumberWithCommasRoundTrip | src/pages/Options/Earn/ThalesStaking/MyStake/MyStake.tsx:24-26 | deleting the commas the corrected function inserts gives its input back |
| MyStake.NumberWithCommasOnDigits | src/pages/Options/Earn/ThalesStaking/MyStake/MyStake.tsx:24-26 | on a string of digits the corrected and the original functions both group in threes from the right |
| MyStake.CommaBeforeOnDigits | src/pages/Options/Earn/ThalesStaking/MyStake/MyStake.tsx:25 | on digits, the regular expression matches before position i exactly when a whole number of groups of three follows |
| MyStake.AsWrittenOnDigits | src/pages/Options/Earn/ThalesStaking/MyStake/MyStake.tsx:24-26 | on digits, the original puts a comma before each group of three from the right |
| MyStake.AsWrittenGroupsFraction | src/pages/Options/Earn/ThalesStaking/MyStake/MyStake.tsx:24-26 | the original turns "10.5064" into "10.5,064"; the corrected one leaves it alone |
| MyStake.NumberLabelDropsSign | src/pages/Options/Earn/ThalesStaking/MyStake/MyStake.tsx:28-41 | a number and its negation get the same label |
| MyStake.LabelText | src/pages/Options/Earn/ThalesStaking/MyStake/MyStake.tsx:28-41 | the text `getNumberLabel` hands to `numberWithCommas`: "NaN", an infinity compacted to billions, or the magnitude's text |
| MyStake.MagnitudeText | src/pages/Options/Earn/ThalesStaking/MyStake/MyStake.tsx:31-39 | a magnitude from a thousand up rounded to its scale with B, M or K, below that written out by the engine (its properties: `MagnitudeCompact`, `CompactLabel`, `PlainLabel`) |
| MyStake.NumberLabel | src/pages/Options/Earn/ThalesStaking/MyStake/MyStake.tsx:28-41 | `getNumberLabel` as written: the text run through the original `numberWithCommas` (its properties: `NumberLabelDropsSign`, `CompactLabel`, `PlainLabel`) |
| MyStake.NumberLabelCorrected | src/pages/Options/Earn/ThalesStaking/MyStake/MyStake.tsx:28-41 | the label with the corrected grouping (its property: `PlainLabelCorrected`) |
| MyStake.ApyLabel | src/pages/Options/Earn/ThalesStaking/MyStake/MyStake.tsx:73 | the APY shown: `getNumberLabel(aprToApy(APR, 52))` with the original grouping |
| MyStake.CompactLabelBounds | src/pages/Options/Earn/ThalesStaking/MyStake/MyStake.tsx:31-38 | from a thousand up, the compacted value rounds to at least 1, and below a billion to at most 1000 |
| MyStake.CompactLabel | src/pages/Options/Earn/ThalesStaking/MyStake/MyStake.tsx:28-41 | from a thousand up, the label is the rounded multiple of the scale, grouped in threes, then B, M or K |
| MyStake.MagnitudeCompact | src/pages/Options/Earn/ThalesStaking/MyStake/MyStake.tsx:28-41 | from a thousand up, the text handed to `numberWithCommas` is the rounded value's digits and the scale's letter |
| MyStake.PlainLabel | src/pages/Options/Earn/ThalesStaking/MyStake/MyStake.tsx:39 | below a thousand, the label is the original `numberWithCommas` of the magnitude as written: digits alone are grouped in threes, and only commas are ever added |
| MyStake.PlainLabelCorrected | src/pages/Options/Earn/ThalesStaking/MyStake/MyStake.tsx:39 | with the corrected grouping, the label below a thousand groups the integer part, keeps the fraction, and only adds commas |
| MyStake.LabelGroupsFraction | src/pages/Options/Earn/ThalesStaking/MyStake/MyStake.tsx:24-41 | an APY written "10.5064" is labelled "10.5,064" as written, and "10.5064" with the corrected grouping |
| StakingRewards.ShownBalances | src/pages/Options/Earn/ThalesStaking/StakingRewards/StakingRewards.tsx:167-173 | all four balances are 0 unless a claim is available, and then they are the reward's |
| StakingRewards.ClaimAvailable | src/pages/Options/Earn/ThalesStaking/StakingRewards/StakingRewards.tsx:59-64 | `isClaimAvailable`: a reward, the right to claim it, not claimed, not paused |
| StakingRewards.PausedMessage | src/pages/Options/Earn/ThalesStaking/StakingRewards/StakingRewards.tsx:284 | the paused message shows whenever claiming is paused |
| StakingRewards.NotEligibleMessage | src/pages/Options/Earn/ThalesStaking/StakingRewards/StakingRewards.tsx:287 | the not-eligible message: not paused and no right to claim |
| StakingRewards.ClaimedMessage | src/pages/Options/Earn/ThalesStaking/StakingRewards/StakingRewards.tsx:291-297 | the claimed message: the right to claim, not paused, already claimed |
| StakingRewards.Tokens | src/pages/Options/Earn/ThalesStaking/StakingRewards/StakingRewards.tsx:135 | `bigNumberFormatter`: a number of tokens that is the wei over 10^18 exactly |
| StakingRewards.PieData | src/pages/Options/Earn/ThalesStaking/StakingRewards/StakingRewards.tsx:146-165 | a single grey "No data" slice of 100 unless a claim is available, and then the staking and SNX parts |
| StakingRewards.MessagesExclusive | src/pages/Options/Earn/ThalesStaking/StakingRewards/StakingRewards.tsx:284-299 | at most one of the three messages shows, and none while a claim is available |
| StakingRewards.ClaimedIsFinal | src/pages/Options/Earn/ThalesStaking/StakingRewards/StakingRewards.tsx:131-134 | a claimed reward cannot be claimed again, and the claimed message shows unless claiming is paused |
| StakingRewards.StakingRewardsPanel.constructor | src/pages/Options/Earn/ThalesStaking/StakingRewards/StakingRewards.tsx:54-57 | the panel starts with no airdrop, not claiming, with no error |
| StakingRewards.StakingRewardsPanel.AirdropLoaded | src/pages/Options/Earn/ThalesStaking/StakingRewards/StakingRewards.tsx:81-85 | the query's airdrop is copied in |
| StakingRewards.StakingRewardsPanel.ClaimDisabled | src/pages/Options/Earn/ThalesStaking/StakingRewards/StakingRewards.tsx:275 | the claim button is enabled exactly when a claim is available and none is under way |
| StakingRewards.StakingRewardsPanel.HandleClaim | src/pages/Options/Earn/ThalesStaking/StakingRewards/StakingRewards.tsx:111-144 | with a claim available and a gas price, a confirmed claim marks it claimed and adds the reward to the escrowed balance; a failure changes neither |
| Stake.Transfer | src/pages/Options/Earn/ThalesStaking/Stake/Stake.tsx:163-172 | a confirmed stake moves the amount from the balance to the staked balance; the sum is unchanged |
| Stake.StakePanel.constructor | src/pages/Options/Earn/ThalesStaking/Stake/Stake.tsx:54-58 | the panel starts with the amount at 0, nothing under way and no allowance |
| Stake.StakePanel.BalanceLoaded | src/pages/Options/Earn/ThalesStaking/Stake/Stake.tsx:62-66 | the balance query's result is copied in |
| Stake.StakePanel.ChangeAmount | src/pages/Options/Earn/ThalesStaking/Stake/Stake.tsx:236-240 | a typed amount is taken only when it does not exceed the balance, so a covered amount stays covered |
| Stake.StakePanel.Max | src/pages/Options/Earn/ThalesStaking/Stake/Stake.tsx:247-251 | Max sets the amount to the whole balance, which covers it |
| Stake.StakePanel.Button | src/pages/Options/Earn/ThalesStaking/Stake/Stake.tsx:116-146 | without an allowance the approve button, disabled while approving; otherwise the stake button, disabled for an empty amount or while staking or unstaking |
| Stake.StakePanel.InputDisabled | src/pages/Options/Earn/ThalesStaking/Stake/Stake.tsx:243-248 | the input and Max are disabled while a stake or an unstake is under way (proved with `NoSecondStake`) |
| Stake.StakePanel.AllowanceLoaded | src/pages/Options/Earn/ThalesStaking/Stake/Stake.tsx:73-80 | any non-zero allowance enables staking |
| Stake.StakePanel.ApprovalEvent | src/pages/Options/Earn/ThalesStaking/Stake/Stake.tsx:82-88 | the wallet's approval of the staking contract grants the allowance and ends the approving; other events are ignored |
| Stake.StakePanel.HandleAllowance | src/pages/Options/Earn/ThalesStaking/Stake/Stake.tsx:182-207 | a confirmed approval grants the allowance; a failure shows the error and stops the approving |
| Stake.StakePanel.HandleStake | src/pages/Options/Earn/ThalesStaking/Stake/Stake.tsx:148-180 | a confirmed stake moves the amount to the staked balance and clears the field; a failure shows the error with the balances untouched; balance plus staked is always preserved |
| Stake.NoSecondStake | src/pages/Options/Earn/ThalesStaking/Stake/Stake.tsx:129-251 | while a stake is under way the stake button, the input and Max are all disabled |
| Transactions.Value | src/pages/Options/Earn/ThalesStaking/Stake/Stake.tsx:237 | `+amount` is the number of wei; it is 0 exactly for the empty text and for zero |
| Transactions.ValueIdentifiesOnlyBlankAndZero | src/pages/Options/Earn/ThalesStaking/Stake/Stake.tsx:237 | two amounts that read the same are equal, or are the empty text and zero |
| Unstake.AddWeek | src/pages/Options/Earn/ThalesStaking/Unstake/Unstake.tsx:35-38 | the cooldown ends after it starts, and well within a week |
| Unstake.AddWeekIsAMinute | src/pages/Options/Earn/ThalesStaking/Unstake/Unstake.tsx:35-38 | the cooldown is 60 000 ms, a 10080th of a week |
| Unstake.UnstakingEnded | src/pages/Options/Earn/ThalesStaking/Unstake/Unstake.tsx:75-77 | unstaking has ended only when started in the contract and past its end time |
| Unstake.EndedStrictlyAfter | src/pages/Options/Earn/ThalesStaking/Unstake/Unstake.tsx:75-77 | at the end time itself it has not ended; one millisecond later it has |
| Unstake.UnstakePanel.Ended | src/pages/Options/Earn/ThalesStaking/Unstake/Unstake.tsx:75-77 | the panel's `unstakingEnded`, on its own start flag and end time |
| Unstake.UnstakePanel.constructor | src/pages/Options/Earn/ThalesStaking/Unstake/Unstake.tsx:72-80 | the panel opens with the cooldown's end a minute from now and nothing under way |
| Unstake.UnstakePanel.StakingLoaded | src/pages/Options/Earn/ThalesStaking/Unstake/Unstake.tsx:82-89 | the contract's unstaking flag is copied in, and the end time moves only when unstaking was started |
| Unstake.UnstakePanel.Button | src/pages/Options/Earn/ThalesStaking/Unstake/Unstake.tsx:174-192 | while unstaking in the contract, the unstake button is enabled once ended and not busy; otherwise start-unstake is disabled while busy or with no staked text |
| Unstake.UnstakePanel.GasEstimateFor | src/pages/Options/Earn/ThalesStaking/Unstake/Unstake.tsx:91-111 | no estimate while busy; the withdrawal once ended; otherwise starting to unstake the whole staked balance |
| Unstake.UnstakePanel.HandleStartUnstake | src/pages/Options/Earn/ThalesStaking/Unstake/Unstake.tsx:113-140 | without a gas price nothing happens; a confirmed call marks unstaking as under way; a failure shows the error and leaves the flag |
| Unstake.UnstakePanel.HandleUnstake | src/pages/Options/Earn/ThalesStaking/Unstake/Unstake.tsx:142-172 | a confirmed withdrawal adds the staked balance to the wallet balance, zeroes the staked balance and ends the unstaking; balance plus staked is always preserved |
| Vest.VestPanel.constructor | src/pages/Options/Earn/Vesting/Vest/Vest.tsx:35-38 | the claimable amount starts as "0", nothing under way |
| Vest.VestPanel.EscrowLoaded | src/pages/Options/Earn/Vesting/Vest/Vest.tsx:45-49 | the escrow query's claimable amount is copied in |
| Vest.VestPanel.VestDisabled | src/pages/Options/Earn/Vesting/Vest/Vest.tsx:93 | the vest button is enabled exactly when not claiming and the claimable amount is non-zero |
| Vest.VestPanel.NothingToVest | src/pages/Options/Earn/Vesting/Vest/Vest.tsx:63-93 | `!+claimable`: the claimable text reads as 0, the empty text included |
| Vest.VestPanel.GasEstimateRuns | src/pages/Options/Earn/Vesting/Vest/Vest.tsx:63 | the gas estimate runs exactly for a connected wallet, a non-zero amount and a deployed contract |
| Vest.VestPanel.HandleVest | src/pages/Options/Earn/Vesting/Vest/Vest.tsx:67-89 | a confirmed vest leaves nothing to vest; a failure shows the error and keeps the amount |
| HotMarkets.At | src/pages/Options/Home/HotMarkets/HotMarkets.tsx:25-32 | `markets[i]` is a market exactly for an index on the list, and undefined otherwise |
| HotMarkets.CurrentMarkets | src/pages/Options/Home/HotMarkets/HotMarkets.tsx:22-37 | the window has five cards: the one before the current, the current, and the three after |
| HotMarkets.SlotIsModular | src/pages/Options/Home/HotMarkets/HotMarkets.tsx:24-34 | with at least four markets, card k is the market k places on, counted round the list |
| HotMarkets.SingleMarketLeavesGaps | src/pages/Options/Home/HotMarkets/HotMarkets.tsx:28-34 | with one market, the last two cards are undefined, because the list is wrapped only once |
| HotMarkets.Slot | src/pages/Options/Home/HotMarkets/HotMarkets.tsx:24-33 | a card is one of the markets, and with four markets or more every card of the window is defined |
| HotMarkets.NextIndex | src/pages/Options/Home/HotMarkets/HotMarkets.tsx:44-45 | the right arrow and the timer's index stays on the list |
| HotMarkets.PrevIndex | src/pages/Options/Home/HotMarkets/HotMarkets.tsx:61 | the left arrow's index stays on the list |
| HotMarkets.StepsStayOnList | src/pages/Options/Home/HotMarkets/HotMarkets.tsx:56-81 | both arrows keep the index on the list and step it by one round the list |
| HotMarkets.StepsAreInverse | src/pages/Options/Home/HotMarkets/HotMarkets.tsx:56-81 | back after forward, and forward after back, return to the start |
| HotMarkets.ForwardIsModular | src/pages/Options/Home/HotMarkets/HotMarkets.tsx:39-49 | k ticks or right-arrow clicks land k places on, counted round the list |
| HotMarkets.Carousel.constructor | src/pages/Options/Home/HotMarkets/HotMarkets.tsx:19-20 | the carousel starts on the first market, with the timer running |
| HotMarkets.Carousel.Tick | src/pages/Options/Home/HotMarkets/HotMarkets.tsx:39-49 | the timer moves to the next market while no arrow has been clicked |
| HotMarkets.Carousel.Next | src/pages/Options/Home/HotMarkets/HotMarkets.tsx:74-81 | the right arrow stops the timer for good and shows the next market |
| HotMarkets.Carousel.Prev | src/pages/Options/Home/HotMarkets/HotMarkets.tsx:55-63 | the left arrow stops the timer for good and shows the previous market |
| UsersOrders.Classify | src/components/UserInfo/UserInfoModal/UsersOrders/UsersOrders.tsx:63-77 | an order is listed under a market exactly when the option it trades is the market's long or short token, ignoring case; a buy pays sUSD, and the long token is tried first |
| UsersOrders.IsBuy | src/components/UserInfo/UserInfoModal/UsersOrders/UsersOrders.tsx:63 | an order is a buy when its maker gives sUSD, compared ignoring case |
| UsersOrders.OptionToken | src/components/UserInfo/UserInfoModal/UsersOrders/UsersOrders.tsx:66-72 | the option an order trades: what the maker takes when buying, what it gives when selling |
| UsersOrders.LongBuyAndSell | src/components/UserInfo/UserInfoModal/UsersOrders/UsersOrders.tsx:63-77 | buying the long option with sUSD and selling it for sUSD are both long, on opposite sides |
| UsersOrders.ForeignOrderDropped | src/components/UserInfo/UserInfoModal/UsersOrders/UsersOrders.tsx:64-77 | an order trading neither of the market's tokens is not listed under it |
| UsersOrders.OpenOrders | src/components/UserInfo/UserInfoModal/UsersOrders/UsersOrders.tsx:59 | a market missing from the cache, or no cache, has no open orders |
| UsersOrders.Filtered | src/components/UserInfo/UserInfoModal/UsersOrders/UsersOrders.tsx:56-92 | nothing is listed until the orders query has succeeded |
| UsersOrders.FilteredOrders | src/components/UserInfo/UserInfoModal/UsersOrders/UsersOrders.tsx:56-92 | the two nested reductions yield exactly `Filtered`: nothing before the query succeeds, then the rows ListedOrdersSound and ListedOrdersComplete characterise, market by market in list order |
| UsersOrders.MarketOrders | src/components/UserInfo/UserInfoModal/UsersOrders/UsersOrders.tsx:61-87 | the inner reduction yields exactly the market's classified orders in record order (`MarketRows`) |
| UsersOrders.MarketRows | src/components/UserInfo/UserInfoModal/UsersOrders/UsersOrders.tsx:61-87 | a market's rows: at most one per record, each of them the market's and one of the records |
| UsersOrders.AllRows | src/components/UserInfo/UserInfoModal/UsersOrders/UsersOrders.tsx:58-91 | the rows of all markets with open orders: each row's market is one of the markets and its record one of the records |
| UsersOrders.MarketRowsSound | src/components/UserInfo/UserInfoModal/UsersOrders/UsersOrders.tsx:61-87 | every row of a market is one of its records with the side its tokens give it |
| UsersOrders.MarketRowsComplete | src/components/UserInfo/UserInfoModal/UsersOrders/UsersOrders.tsx:61-87 | every record trading one of the market's tokens gets a row |
| UsersOrders.ListedOrdersSound | src/components/UserInfo/UserInfoModal/UsersOrders/UsersOrders.tsx:58-91 | every listed order belongs to a listed market with open orders and carries its side |
| UsersOrders.ListedOrdersComplete | src/components/UserInfo/UserInfoModal/UsersOrders/UsersOrders.tsx:58-91 | every order of a market with open orders that trades its tokens is listed |
| UsersOrders.ClosedMarketsUnlisted | src/components/UserInfo/UserInfoModal/UsersOrders/UsersOrders.tsx:59-60 | a market not in the open-orders cache contributes no row |
| UsersOrders.ClickRow | src/components/UserInfo/UserInfoModal/UsersOrders/UsersOrders.tsx:126-131 | a click opens the market and closes the modal exactly when the market has not reached expiry |
| CreateMarket.RoundToSeconds | src/pages/Options/CreateMarket/CreateMarket.tsx:163-166 | `Math.round(ms / 1000)`: the nearest second, halves rounded up |
| CreateMarket.FeesOf | src/pages/Options/CreateMarket/CreateMarket.tsx:182-187 | each fee is the reported wei over 1e18, and the bidding fee is the creator's and the pool's together |
| CreateMarket.Bids | src/pages/Options/CreateMarket/CreateMarket.tsx:158-159 | a skew of 100 splits the funding into two bids that add up to it, each between 0 and the funding |
| CreateMarket.CreateMarketForm.constructor | src/pages/Options/CreateMarket/CreateMarket.tsx:94-108 | the form opens empty, at a 50/50 skew, with withdrawals enabled |
| CreateMarket.CreateMarketForm.FormIncomplete | src/pages/Options/CreateMarket/CreateMarket.tsx:147-152 | the form is complete exactly when currency, strike, both dates and funding are all filled in |
| CreateMarket.CreateMarketForm.SetSkew | src/pages/Options/CreateMarket/CreateMarket.tsx:410-415 | the slider sets the long side and the short side takes the rest, so they always add up to 100 |
| CreateMarket.CreateMarketForm.SetCurrency | src/pages/Options/CreateMarket/CreateMarket.tsx:343 | choosing an asset sets the currency key and no other field |
| CreateMarket.CreateMarketForm.SetStrikePrice | src/pages/Options/CreateMarket/CreateMarket.tsx:355 | typing a strike price sets it and no other field |
| CreateMarket.CreateMarketForm.SetDates | src/pages/Options/CreateMarket/CreateMarket.tsx:369-382 | the date pickers set the bidding end and the maturity and no other field |
| CreateMarket.CreateMarketForm.SetFunding | src/pages/Options/CreateMarket/CreateMarket.tsx:396 | typing the funding sets it and no other field |
| CreateMarket.CreateMarketForm.SetWithdrawalsEnabled | src/pages/Options/CreateMarket/CreateMarket.tsx:524-534 | On and Off set the withdrawals toggle and change nothing else, the gas limit included |
| CreateMarket.CreateMarketForm.FormatArguments | src/pages/Options/CreateMarket/CreateMarket.tsx:154-169 | the packed arguments: the currency key, the strike, both dates to the nearest second in order, and two bids that split the funding by the skew |
| CreateMarket.CreateMarketForm.CallArguments | src/pages/Options/CreateMarket/CreateMarket.tsx:236-242 | the argument list of `createMarket` and of its estimate: the packed arguments with the withdrawals toggle in third place |
| CreateMarket.CreateMarketForm.AllowanceLoaded | src/pages/Options/CreateMarket/CreateMarket.tsx:175-191 | any non-zero allowance approves the manager, and the fees are stored with bidding = creator + pool |
| CreateMarket.CreateMarketForm.ApprovalEvent | src/pages/Options/CreateMarket/CreateMarket.tsx:192-197 | the wallet's approval of the manager approves it; other events are ignored |
| CreateMarket.CreateMarketForm.GasEstimated | src/pages/Options/CreateMarket/CreateMarket.tsx:227-247 | the estimate runs only for a complete form, on the call the form would make (withdrawals toggle included); a failed one keeps the previous limit |
| CreateMarket.CreateMarketForm.Button | src/pages/Options/CreateMarket/CreateMarket.tsx:542-554 | the create button is offered exactly once the manager is approved, enabled for a complete form with a non-zero gas limit |
| CreateMarket.CreateMarketForm.HandleApproveManager | src/pages/Options/CreateMarket/CreateMarket.tsx:260-281 | with a gas price, the approval button waits exactly when the approval was sent |
| CreateMarket.CreateMarketForm.HandleMarketCreation | src/pages/Options/CreateMarket/CreateMarket.tsx:283-300 | with a gas price the call is sent with the packed arguments and the withdrawals toggle as it stands, the bids adding up to the funding; the form is creating the market once the call went through |
| CreateMarket.CreateMarketForm.MarketCreated | src/pages/Options/CreateMarket/CreateMarket.tsx:206-225 | while creating, the creation event for this wallet and asset opens the new market, and no other event does |
| DateFormat.ToJSTimestamp | src/utils/formatters/date.ts:6 | seconds to milliseconds: a whole number of seconds, which are recovered exactly |
| DateFormat.TimeParts | src/utils/formatters/date.ts:12-13 | minutes and seconds recombine to the input, with 0 to 59 seconds left over |
| DateFormat.TimePartsUnique | src/utils/formatters/date.ts:11-16 | that split is the only one with fewer than 60 seconds left over |
| DateFormat.SecondsToTime | src/utils/formatters/date.ts:11-16 | the padded minutes, a colon, the padded seconds left over |
| DateFormat.SecondsToTimeShape | src/utils/formatters/date.ts:11-16 | below 100 minutes, with a two-character pad, "mm:ss" is five characters with the colon in the middle, the minutes before and the seconds left over after |
| DateFormat.SecondsToTimeInjective | src/utils/formatters/date.ts:11-16 | with a two-character pad that tells 0 to 99 apart, different counts of seconds below 100 minutes never show the same text |
| DateFormat.Formatted | src/utils/formatters/date.ts:20-44 | the wording of a duration: the largest non-zero unit among years to hours, else more than ten minutes in words, else the short form joined (its properties are the lemmas below) |
| DateFormat.ShortParts | src/utils/formatters/date.ts:34-43 | the short form has at most two parts |
| DateFormat.FormattedDuration | src/utils/formatters/date.ts:20-44 | the formatter returns the wording Formatted defines; `firstTwo` changes nothing |
| DateFormat.LargestUnitOnly | src/utils/formatters/date.ts:22-33 | a non-zero year, month, day or hour hides every smaller unit |
| DateFormat.MinutesAndSeconds | src/utils/formatters/date.ts:34-43 | more than ten minutes hide the seconds; up to ten, minutes then seconds, joined by the delimiter; zero minutes show the seconds alone |
| DateFormat.FormattedExamples | src/utils/formatters/date.ts:20-44 | "2 years", "1 month" (a zero year is skipped), and "" for an empty duration |
| OptionsConstants.PhaseNumber | src/constants/options.ts:3-7 | each phase has a number below 3 |
| OptionsConstants.PhasesAreNumbered | src/constants/options.ts:3-16 | `PHASE[PHASES[i]] == i`, and every phase is listed once |
| OptionsConstants.CardsArePrefix | src/constants/options.ts:16-17 | the phases with a card are the first ones of the list, and expiry has none |
| OptionsConstants.PhaseNamesDistinct | src/constants/options.ts:3-7 | the phase keys differ |
| OptionsConstants.Side | src/constants/options.ts:9-14 | exactly "long", "short", 0 and 1 are keys, and a name maps to a number and a number to a name |
| OptionsConstants.SideRoundTrip | src/constants/options.ts:9-14 | `SIDE[SIDE[x]] == x` for every key |
| OptionsConstants.PeriodInSeconds | src/constants/options.ts:33-40 | a period has no fixed length exactly when it is trading-end or custom |
| OptionsConstants.PeriodsScale | src/constants/options.ts:33-40 | an hour is six ten-minute periods, a day 24 hours, a week 7 days |
| OptionsConstants.PickerOffersAllButCustom | src/constants/options.ts:24-68 | the picker offers every period but custom, once each, in the enumeration's order |

## Left out

- Common.Lower: lower-cases only A to Z. JavaScript's `toLowerCase` also lower-cases the non-ASCII capitals (À, Σ, Ж and the rest of Unicode's case mappings), and can lengthen a string ("İ" becomes two code units). Unicode's case tables are not part of this model. Every comparison built on it inherits this: `Common.SameIgnoringCase`, `LeaderboardQuery.ProfileKey`, `Profile.KeyMatches`, `LeaderboardTable.Matches` and `UsersOrders.IsBuy`. The strings these compare are addresses, which are hexadecimal, and typed searches.
- Common.SameIgnoringCase: two strings that differ only in the case of a non-ASCII letter are not identified, for the reason above.
- Gas estimation itself (`estimateGas`, `normalizeGasLimit`, `formatGasLimit`) is outside the model. An estimate is a parameter (`CreateMarket.CreateMarketForm.GasEstimated`), and in Unstake only which call is estimated is modelled (`Unstake.UnstakePanel.GasEstimateFor`).
- Stake's gas-estimate effect (`Stake.tsx:100-114`) is left out with the rest of gas estimation. Its guard returns early whenever the staking contract exists, so it estimates only when there is no contract.
- Contract calls, `tx.wait()`, event decoding and event subscriptions are outside the model. Their results are the `TxOutcome` and boolean parameters, and each event listener is a method taking the event's arguments.
- Promise rejections that are only logged (`console.log` in the allowance and fee reads) are not modelled. They change no state.
- React Query fetches, `refetch*` calls, notifications, i18n strings, styling and the DOM class toggles of the carousel are not modelled. They compute nothing the screens show from the model's state.
- Timers are not modelled. The carousel's `setInterval` and its one-second `setTimeout` become one `Tick`, `Next` or `Prev` step. The open-orders polling (`fetchOrders`) is an `Option` cache parameter (`UsersOrders.OpenOrders`).
- Floating point: amounts and metrics are exact `real`s or integer wei. Rounding of `/ 1e18`, of `**` and of the bids' `parseEther(longBidAmount.toString())` is not modelled.
- How the JavaScript engine writes a non-integral number as text is a parameter (`show` in `MyStake.NumberLabel`).
- Parsing typed text to numbers is not modelled. An amount is either empty text or a number of wei (`Transactions.Amount`). `parseEther` of the empty text is the failure path.
- The date-fns `Duration` computation and `strPadLeft` are not part of this model. `strPadLeft` is the `pad` parameter of `DateFormat.SecondsToTime`.
- `bytesFormatter` and `parseBytes32String` are not part of this model. The oracle key is kept as the currency key, so the creation event compares keys directly.
- `prepBuyOrder` and `prepSellOrder` are not part of this model. A row keeps its order record with the market and side the list adds.
- `getUsers` and the `UserStatus` enumeration are not part of this model. The scoreboard's users are a parameter, and the status values are a `StatusCodes` parameter whose codes are distinct.
- `sortByField`, `sortByMarketHeading` and `localeCompare` are not part of this model. They are comparator parameters.
- `WEEKLY_REWARDS_THALES` is a parameter (`weeklyRewards`).
- The create-market asset list (`assetsOptions`) and the date pickers are not modelled. Each field of the form is set by its own setter.
- CreateMarket.CreateMarketForm.SetSkew: requires 0 <= long <= 100, the slider's range, which the component itself does not check.
- CreateMarket.CreateMarketForm.HandleMarketCreation: requires a complete form, because the only button that calls it is disabled otherwise.
- HotMarkets.Carousel.constructor: requires a non-empty market list. The component is given markets to show, and with none every card is undefined, the left arrow computes the index -1, and the right arrow and the timer compute 1.
- The carousel's `currentMarkets` memo depends only on `currentMarket`, so a changed market list is not picked up until the index moves. The model fixes the list at construction.
- Transaction quirks are modelled as they are: a receipt without what the handler checks for leaves the busy flag set (`Unconfirmed`); StakingRewards and Unstake do not clear an earlier error before a new attempt; and `formattedDuration`'s `firstTwo` has no effect, because the short form never has more than two parts (`DateFormat.FormattedDuration`).
- The create-market gas estimate (`CreateMarket.tsx:248-256`) does not list `withdrawalsEnabled` among its dependencies. Toggling withdrawals therefore does not re-run the estimate, and `CreateMarket.CreateMarketForm.SetWithdrawalsEnabled` keeps the gas limit as it is.
- The carousel shows undefined cards when there are fewer than four markets, because the list is wrapped only once (`HotMarkets.SingleMarketLeavesGaps`).
- The scoreboard's next arrow tests `page === maxPages`, so with no users (zero pages) it keeps moving on (`Scoreboard.NextPastEmptyBoard`). Under "DESC" the scoreboard sorts ascending (`Scoreboard.NumericColumnsOrder`).

## Findings

| source | as written | input that shows it | evidently intended | confidence | as-written member | corrected member |
|---|---|---|---|---|---|---|
| src/pages/Options/Earn/ThalesStaking/MyStake/MyStake.tsx:24-26 | `numberWithCommas` inserts a comma before every later run of three digits. That includes runs in the fraction, because the regular expression does not stop at the decimal point. | "10.5064", which `getNumberLabel` produces for an APY of 10.5064 (below a thousand the magnitude is shown as written), becomes "10.5,064" | group only the integer part, leaving the fraction as it is | not executed; high | MyStake.NumberWithCommasAsWritten, MyStake.AsWrittenGroupsFraction, MyStake.NumberLabel, MyStake.LabelGroupsFraction | MyStake.NumberWithCommas, MyStake.NumberWithCommasRoundTrip, MyStake.NumberLabelCorrected, MyStake.PlainLabelCorrected |
