# Gold star tracker — a Dafny model

This project models the core of a small web app that tracks "gold stars"
given to people. A person has an id, a name, a star count, the instant they
were added and the instant of their last star change. Every grant or
revocation appends an entry to an audit log. The state lives in one React
hook, `useStarData`, and is mirrored to browser storage under the key
`star-tracker-data`. Three components sit on top of the hook:

- a statistics panel: people, total and average stars, the top performer, and the actions of the last seven days;
- a sortable table with a dialog that asks for an optional reason;
- a form that adds a person.

The model is split into modules that follow the program:

- `Types` (`types.dfy`): the records in `src/types/index.ts`. Dates are integer milliseconds and an absent date is `None`.
- `JsString` (`js_string.dfy`): the pieces of JavaScript string behaviour the source relies on: ECMAScript `trim`, with its full whitespace set; `repeat`; and decimal rendering of a non-negative integer, with its parser.
- `StarLedger` (`ledger.dfy`): the four state transitions of the hook as functions on the ledger value `StarData(people, actions)`. It also defines three invariants and the lemmas that each transition keeps them:
  - `Invariant`: unique ids and no negative counts.
  - `Balanced`: each count equals grants minus revocations in the log.
  - `NoDangling`: every log entry names a present person.
- `StarSort` (`sort.dfy`): the comparator of `getSortedPeople` and a stable insertion sort over it. The result is proved to be a permutation of the input and ordered by the comparator.
- `StarSnapshot` (`snapshot.dfy`): the load and save effects over an abstract stored snapshot. Loading what was saved is proved to give the same state back, and a snapshot saved from a consistent ledger loads consistent. The load itself validates nothing.
- `StarStore` (`store.dfy`): the hook as a `class Store` whose fields are the hook's state. Each method is proved equal to the ledger function it uses. Each state transition except `Load` is also proved to keep the invariants, under two conditions: `AddPerson` keeps them only for a fresh id, and `AddStar` keeps `NoDangling` only for a present person. `Load` takes whatever snapshot it finds, so the invariants hold after it only for a snapshot the save effect wrote from a consistent ledger.
- `StarStats` (`stats.dfy`): the values the statistics panel derives. It includes the proof that, under the invariants, the total star count equals grants minus revocations in the whole log. The panel is given the sorted view. Its people count, total, average and top star count are proved not to depend on the sort order. Which person the banner names can depend on it: on a tie the first tied person in the view wins, so a header click can change the name.
- `StarTable` (`table.dfy`): the table's pure helpers and the reason dialog, as a `class ReasonModal` over its four state variables.
- `AddPersonForm` (`form.dfy`): the form's submit rule, as a `class Form` over its two state variables.

Nondeterministic inputs of the source are parameters of the model.

- `crypto.randomUUID()` becomes `freshId` / `actionId`.
- Each separate `new Date()` becomes its own clock parameter. `addStar` and `removeStar` read the clock twice, once for the log entry (`stampedAt`) and once for `lastStarDate` (`starredAt`).
- The date parsing and formatting of the storage round trip become `parse` and `format`.
- `toLocaleDateString` becomes `locale`.
- `toFixed(1)` on the average becomes `toFixed`.

Where the evident intent and the code differ, the model follows the code:

- `addStar` for an id that no person carries still appends an `add` entry to the log. Nobody's count changes. `StarLedger.AddStarToAbsentDangles` states the consequence: the log then names an absent person.
- `addPerson` itself does not refuse a blank name. It stores the trimmed text, possibly empty. Only the form refuses blank input.

## Model

| member | source | states |
|---|---|---|
| JsString.IsWhitespace | src/hooks/useStarData.ts:55 | the WhiteSpace and LineTerminator code points that ECMAScript's `trim` strips (no ensures; a character set) |
| JsString.TrimStart | src/hooks/useStarData.ts:55 | the result is a suffix of the input, does not start with whitespace, and only whitespace was dropped |
| JsString.TrimEnd | src/hooks/useStarData.ts:55 | the result is a prefix of the input, does not end with whitespace, and only whitespace was dropped |
| JsString.Trim | src/hooks/useStarData.ts:55 | the result is a contiguous slice of the input with no whitespace at either end, and everything outside the slice is whitespace |
| JsString.TrimIsTrimEndOfTrimStart | src/hooks/useStarData.ts:55 | trimming both ends is trimming the start and then the end |
| JsString.TrimIdempotent | src/components/add-person-form.tsx:21 | trimming twice is trimming once (the form trims, then `addPerson` trims again) |
| JsString.TrimEmptyIffBlank | src/components/add-person-form.tsx:16 | `!s.trim()` holds exactly when every character of `s` is whitespace |
| JsString.LeadingSpaces | src/hooks/useStarData.ts:55 | the length of the whitespace run at the start: every character before it is whitespace and the one after it is not |
| JsString.TrailingSpaces | src/hooks/useStarData.ts:55 | the length of the whitespace run at the end: every character in it is whitespace and the one before it is not |
| JsString.TrimmedOrNone | src/components/star-table.tsx:40 | the trimmed text or `undefined`: none exactly when the text is blank, otherwise its trimmed, non-empty text (also the form's submit guard) |
| JsString.Repeat | src/components/star-table.tsx:66 | `c.repeat(n)` has length `n` and every character is `c` |
| JsString.LeadingCountOfRepeat | src/components/star-table.tsx:66 | the run of `c` at the start of `c.repeat(n) + rest` has length exactly `n` when `rest` does not start with `c` |
| JsString.Decimal | src/components/star-table.tsx:66 | a number's text is a non-empty string of digits without a leading zero |
| JsString.DecimalRoundTrip | src/components/star-table.tsx:66 | reading a number's decimal text back gives the number |
| StarLedger.Filter | src/hooks/useStarData.ts:70-71 | `filter` keeps only elements satisfying the predicate, in their original order (a subsequence), and is no longer than the input |
| StarLedger.FilterCounts | src/hooks/useStarData.ts:70-71 | `filter` keeps every occurrence of a satisfying element and drops every other one (multiset characterisation) |
| StarLedger.FilterKeepsAll | src/hooks/useStarData.ts:70-71 | a filter every element passes returns the sequence unchanged |
| StarLedger.CountAppend | src/hooks/useStarData.ts:90 | appending one log entry raises the count of its person and kind by one and leaves every other count alone |
| StarLedger.CountUnreferenced | src/types/index.ts:11 | an id no log entry names has no grants and no revocations |
| StarLedger.CountAfterCascade | src/hooks/useStarData.ts:71 | the cascade that drops one person's log entries leaves every other person's counts unchanged |
| StarLedger.NewPerson | src/hooks/useStarData.ts:53-58 | the record `addPerson` builds: the given id, the trimmed name, zero stars, added now, never starred; the name is empty exactly when the input is blank |
| StarLedger.UniqueIdsAppend | src/hooks/useStarData.ts:60-63 | appending a person whose id is new keeps ids unique |
| StarLedger.BalancedAppend | src/hooks/useStarData.ts:60-63 | appending a person whose count equals their balance in the log keeps every count balanced |
| StarLedger.AddPersonData | src/hooks/useStarData.ts:52-66 | `addPerson` appends exactly one person at the end: the given id, the trimmed name, zero stars, added now, never starred; the log is untouched |
| StarLedger.AddPersonKeepsInvariant | src/hooks/useStarData.ts:52-66 | with a fresh id, adding a person keeps ids unique and counts non-negative |
| StarLedger.AddPersonKeepsBalanced | src/hooks/useStarData.ts:52-66 | with an id no log entry names, every count still equals grants minus revocations |
| StarLedger.AddPersonKeepsNoDangling | src/hooks/useStarData.ts:52-66 | adding a person leaves no log entry naming an absent person when none did before |
| StarLedger.RemovePersonData | src/hooks/useStarData.ts:68-73 | `removePerson` leaves no person and no log entry with that id, keeps every other person and entry with its multiplicity, and preserves order |
| StarLedger.RemovePersonIdempotent | src/hooks/useStarData.ts:68-73 | removing the same person twice is removing them once |
| StarLedger.RemoveAbsentIsNoOp | src/hooks/useStarData.ts:68-73 | removing an id nobody carries and no entry names changes nothing |
| StarLedger.FilterKeepsUniqueIds | src/hooks/useStarData.ts:70 | filtering people cannot create duplicate ids |
| StarLedger.RemovePersonKeepsInvariant | src/hooks/useStarData.ts:68-73 | removal keeps ids unique and counts non-negative |
| StarLedger.RemovePersonKeepsBalanced | src/hooks/useStarData.ts:68-73 | after the cascade each remaining count still equals that person's grants minus revocations |
| StarLedger.RemovePersonIds | src/hooks/useStarData.ts:70 | the people left carry exactly the old ids minus the removed one |
| StarLedger.RemovePersonReferencedIds | src/hooks/useStarData.ts:71 | the log left names exactly the ids it named minus the removed one |
| StarLedger.RemovePersonKeepsNoDangling | src/hooks/useStarData.ts:68-73 | when every entry named a present person before, it still does after removal |
| StarLedger.AdjustStars | src/hooks/useStarData.ts:85-89 | the `map` of `addStar` and `removeStar`: same length, only `stars` and `lastStarDate` can change; each matching person's count moves by `delta` and gets the new date, everyone else is untouched |
| StarLedger.AdjustStarsKeepsIds | src/hooks/useStarData.ts:85-89 | the `map` keeps the set of ids |
| StarLedger.ReferencedIdsAppend | src/hooks/useStarData.ts:90 | appending a log entry adds exactly its person to the ids the log names |
| StarLedger.AddStarData | src/hooks/useStarData.ts:75-92 | `addStar` appends one `add` entry with the given id, clock value and reason; each matching person gains one star and gets the new `lastStarDate`; everyone else is unchanged |
| StarLedger.FindIndex | src/hooks/useStarData.ts:96 | `find` returns the first person with the id, and nothing exactly when no person carries it |
| StarLedger.CanRemoveStar | src/hooks/useStarData.ts:96-97 | `removeStar` goes ahead exactly when the first person with the id exists and has a positive count; such an id is present |
| StarLedger.RemoveStarData | src/hooks/useStarData.ts:94-116 | `removeStar` returns the state unchanged when the first match is missing or has no stars; otherwise it appends one `remove` entry and each matching person loses one star and gets the new `lastStarDate` |
| StarLedger.RemoveStarChangesIffAllowed | src/hooks/useStarData.ts:97 | the state changes if and only if the person exists and has a star |
| StarLedger.AddStarKeepsInvariant | src/hooks/useStarData.ts:75-92 | granting keeps ids unique and counts non-negative |
| StarLedger.RemoveStarKeepsInvariant | src/hooks/useStarData.ts:94-116 | revoking never drives a count below zero |
| StarLedger.AddStarKeepsBalanced | src/hooks/useStarData.ts:75-92 | a grant keeps each count equal to that person's grants minus revocations |
| StarLedger.RemoveStarKeepsBalanced | src/hooks/useStarData.ts:94-116 | a revocation keeps each count equal to that person's grants minus revocations |
| StarLedger.AddStarToAbsentDangles | src/hooks/useStarData.ts:75-92 | granting to an unknown id changes no person but leaves a log entry naming an absent person |
| StarLedger.AddStarToPresentKeepsNoDangling | src/hooks/useStarData.ts:75-92 | a grant to a present person leaves no log entry naming an absent person when none did before |
| StarLedger.RemoveStarKeepsNoDangling | src/hooks/useStarData.ts:94-116 | a revocation leaves no log entry naming an absent person when none did before |
| StarSort.LowerCase | src/hooks/useStarData.ts:125-126 | lower-casing maps each character and keeps the length |
| StarSort.StrLess | src/hooks/useStarData.ts:144-145 | JavaScript's `<` on two strings, character by character, a proper prefix first (no ensures; its order properties are the three lemmas below) |
| StarSort.StrLessIrreflexive | src/hooks/useStarData.ts:144 | no string is `<` itself |
| StarSort.StrLessTransitive | src/hooks/useStarData.ts:144 | string `<` is transitive |
| StarSort.StrLessTotal | src/hooks/useStarData.ts:144 | of two different strings one is `<` the other |
| StarSort.KeyLess | src/hooks/useStarData.ts:144-145 | `<` on two keys of one column: string order on names, number order otherwise (no ensures; characterised by `KeyLessStrictTotal`) |
| StarSort.KeyLessStrictTotal | src/hooks/useStarData.ts:120-146 | `<` on the comparator's keys of one column is a strict total order |
| StarSort.Key | src/hooks/useStarData.ts:123-142 | the compared key is text exactly for the name column; a never-starred person's last star date counts as 0 |
| StarSort.Compare | src/hooks/useStarData.ts:119-147 | the comparator returns -1, 0 or 1; 0 exactly when the keys are equal; negative exactly when the first key is below the second (ascending) or above it (descending) |
| StarSort.CompareAntisymmetric | src/hooks/useStarData.ts:119-147 | swapping the two people negates the comparator's result |
| StarSort.PrecedesTotal | src/hooks/useStarData.ts:144-146 | for any two people the comparator lets one of them go first |
| StarSort.PrecedesTransitive | src/hooks/useStarData.ts:144-146 | the comparator's order is transitive, so sorting by it is well defined |
| StarSort.Insert | src/hooks/useStarData.ts:119 | inserting into a sorted list adds exactly that person and keeps it sorted |
| StarSort.SortPeople | src/hooks/useStarData.ts:118-150 | the sorted copy is a permutation of the people and respects the comparator everywhere |
| StarSort.SortedByKey | src/hooks/useStarData.ts:118-150 | ascending: no later key is below an earlier one; descending: no later key is above an earlier one |
| StarSort.SortedByStarsDescending | src/hooks/useStarData.ts:128-131 | the default view (stars, descending) lists counts in non-increasing order |
| StarSort.SortedByLastStarAscending | src/hooks/useStarData.ts:136-138 | by last star date ascending, dates never decrease, a never-starred person counting as 0 |
| StarSnapshot.RevivePerson | src/hooks/useStarData.ts:26-30 | fields are copied, `dateAdded` is parsed, and `lastStarDate` is absent exactly when it was absent or empty text |
| StarSnapshot.ReviveAction | src/hooks/useStarData.ts:31-34 | fields are copied and `timestamp` is parsed |
| StarSnapshot.StorePerson | src/hooks/useStarData.ts:46 | a person is stored with the same fields, both dates as text, and `lastStarDate` present exactly when it was |
| StarSnapshot.StoreAction | src/hooks/useStarData.ts:46 | an action is stored with the same fields and its timestamp as text |
| StarSnapshot.Loaded | src/hooks/useStarData.ts:19-41 | a missing or malformed snapshot leaves the state unchanged; a snapshot replaces both lists entry for entry with the revived values |
| StarSnapshot.Save | src/hooks/useStarData.ts:44-50 | the save writes a snapshot with one stored entry per person and per action |
| StarSnapshot.SaveLoadRoundTrip | src/hooks/useStarData.ts:19-50 | when date text parses back to its instant and is never empty, loading what was saved restores the saved ledger |
| StarSnapshot.LoadSavedKeepsInvariants | src/hooks/useStarData.ts:19-50 | under the same date hypothesis, loading the snapshot saved from a ledger with unique ids, no negative count, balanced counts and no dangling entry gives a ledger with all four |
| StarSnapshot.LoadDoesNotValidate | src/hooks/useStarData.ts:25-35 | the load keeps a snapshot with a repeated id and a negative count as it is, so the loaded ledger breaks the invariant |
| StarStore.ToggleSort | src/hooks/useStarData.ts:152-159 | the key becomes the clicked one; the same key flips the direction, a new key starts descending |
| StarStore.ToggleTwice | src/hooks/useStarData.ts:152-159 | two clicks on the current key restore its direction; two on another key leave it ascending |
| StarStore.Store.constructor | src/hooks/useStarData.ts:14-16 | empty ledger, sorted by stars descending; all three invariants hold |
| StarStore.Store.Load | src/hooks/useStarData.ts:19-41 | the ledger becomes the loaded one; the sort state is unchanged |
| StarStore.Store.AddPerson | src/hooks/useStarData.ts:52-66 | returns the new id; the new ledger is `AddPersonData` of the old; with a fresh id unique ids, counts and balances are kept; no entry dangles that did not before |
| StarStore.Store.RemovePerson | src/hooks/useStarData.ts:68-73 | the new ledger is `RemovePersonData` of the old; all three invariants are kept |
| StarStore.Store.AddStar | src/hooks/useStarData.ts:75-92 | the new ledger is `AddStarData` of the old; unique ids, non-negative and balanced counts are kept; for a present person no entry dangles that did not before |
| StarStore.Store.RemoveStar | src/hooks/useStarData.ts:94-116 | the new ledger is `RemoveStarData` of the old; unique ids, non-negative and balanced counts are kept, and no entry dangles that did not before |
| StarStore.Store.GetSortedPeople | src/hooks/useStarData.ts:118-150 | returns a permutation of the people, ordered by the current key and direction; the state is not changed |
| StarStore.Store.UpdateSort | src/hooks/useStarData.ts:152-159 | the sort state becomes `ToggleSort` of the old one; the ledger is unchanged |
| StarStats.TotalPeople | src/components/star-stats.tsx:11 | the number of people (no ensures; its properties are the lemmas below) |
| StarStats.TotalStars | src/components/star-stats.tsx:12 | the sum of all counts, folded from the left (no ensures; its properties are the lemmas below) |
| StarStats.TotalStarsNonNegative | src/components/star-stats.tsx:12 | with no negative count the total is not negative |
| StarStats.TotalStarsAppend | src/components/star-stats.tsx:12 | the total of two lists joined is the sum of their totals |
| StarStats.TotalsUnderPermutation | src/components/star-stats.tsx:11-12 | two lists with the same people in any order have the same people count and total |
| StarStats.MatchingUnique | src/components/star-stats.tsx:12 | with unique ids an id matches one person or none |
| StarStats.TotalStarsOfAdjusted | src/components/star-stats.tsx:12 | changing every matching person's count by `delta` changes the total by `delta` per match |
| StarStats.TotalStarsAfterAddStar | src/components/star-stats.tsx:12 | a grant raises the total by one when the person exists and by nothing otherwise |
| StarStats.TotalStarsAfterRemoveStar | src/components/star-stats.tsx:12 | a revocation lowers the total by one exactly when `removeStar` allows it |
| StarStats.FilterOutLength | src/components/star-stats.tsx:11 | filtering out an id shortens the list by the number of matches |
| StarStats.TotalPeopleAfterPersonChanges | src/components/star-stats.tsx:11 | adding a person counts one more; removing a present person counts one fewer |
| StarStats.PerPersonCountAppend | src/components/star-stats.tsx:12 | an appended entry of the counted kind adds to the sum over people once per person carrying its id; any other entry adds nothing |
| StarStats.PerPersonCountOfEmptyLog | src/components/star-stats.tsx:12 | the sum over people of an empty log is zero |
| StarStats.PerPersonCountIsKindTotal | src/components/star-stats.tsx:12 | with unique ids and no dangling entries, summing one kind per person counts that kind in the whole log |
| StarStats.TotalStarsIsPerPersonBalance | src/components/star-stats.tsx:12 | when every count equals its balance, the total is the sum of grants minus the sum of revocations over people |
| StarStats.TotalStarsMatchesLog | src/components/star-stats.tsx:12 | under the three invariants the total star count equals the grants minus the revocations in the log |
| StarStats.AverageStars | src/components/star-stats.tsx:13 | `"0"` with nobody; otherwise the total over the number of people, rendered by `toFixed` |
| StarStats.Floor | src/components/star-stats.tsx:16 | the count to beat: the current top's stars, or 0 while there is no top yet (no ensures; used by `TopIndex`) |
| StarStats.TopIndex | src/components/star-stats.tsx:15-17 | nobody exactly when no one has a star; otherwise the first person holding the maximum, which is positive |
| StarStats.TopPerformer | src/components/star-stats.tsx:15-17 | nobody exactly when no one has a star; otherwise one of the people, with the most stars, more than zero |
| StarStats.StarCaption | src/components/star-stats.tsx:105 | the caption starts with the count and ends in `s` exactly when the count is not 1 |
| StarStats.TrophyGlyphs | src/components/star-stats.tsx:109 | at most three star glyphs, one per star |
| StarStats.TopPerformerBanner | src/components/star-stats.tsx:94-113 | the top-performer banner shows between one and three glyphs |
| StarStats.PanelIgnoresSortOrder | src/hooks/useStarData.ts:162 | the panel receives the sorted view; its people count, total, average and top star count are those of the unsorted list, and a top performer exists in one exactly when in the other |
| StarStats.TopStarsUnderPermutation | src/components/star-stats.tsx:15-17 | two lists with the same people have a top performer alike, with the same star count |
| StarStats.TopPerformerDependsOnOrder | src/components/star-stats.tsx:15-17 | on a tie the first tied person wins, so the same two people in the other order give the other top performer |
| StarStats.Abs | src/components/star-stats.tsx:23 | `Math.abs`: at least the number and its negation, and equal to one of them |
| StarStats.CeilDiv | src/components/star-stats.tsx:24 | `Math.ceil(n / d)`: the least multiple count of `d` that covers `n` |
| StarStats.RecentActions | src/components/star-stats.tsx:19-27 | the number of recent actions never exceeds the log |
| StarStats.IsRecent | src/components/star-stats.tsx:20-25 | the filter's test: the whole-day ceiling of the distance to now is at most seven (no ensures; characterised by `RecentWindow`) |
| StarStats.RecentWindow | src/components/star-stats.tsx:21-25 | an action is recent exactly when it lies within seven whole days of now, either side |
| StarStats.FilterSameKeep | src/components/star-stats.tsx:20 | filters with pointwise equal predicates agree |
| StarStats.RecentActionsWithinWeek | src/components/star-stats.tsx:19-27 | the recent count is the number of actions within seven days of now |
| StarTable.SortIcon | src/components/star-table.tsx:50-53 | the up-down arrow exactly when the column is not the sort key; otherwise up for ascending and down for descending |
| StarTable.SortIconAfterClick | src/components/star-table.tsx:77-108 | after a header click only the clicked column shows a direction: down for a new key, turned round for the current one |
| StarTable.FormatDate | src/components/star-table.tsx:55-63 | `'Never'` for a missing date, the locale text for a present one |
| StarTable.RenderStars | src/components/star-table.tsx:65-67 | up to ten glyphs, followed by ` +n` exactly when there are more than ten |
| StarTable.RenderStarsRoundTrip | src/components/star-table.tsx:65-67 | the star count can be read back from its rendering |
| StarTable.RemoveStarDisabled | src/components/star-table.tsx:155 | the `- Star` button's disable rule, a non-positive count (no ensures; related to `removeStar` by `RemoveButtonMatchesGuard`) |
| StarTable.RemoveButtonMatchesGuard | src/components/star-table.tsx:155 | with unique ids the `- Star` button is disabled exactly when `removeStar` would ignore the person |
| StarTable.ConfirmCall | src/components/star-table.tsx:36-43 | nothing is called with no selected person; otherwise exactly the callback for the chosen action, with the selected id and `TrimmedOrNone` of the reason |
| StarTable.ReasonModal.constructor | src/components/star-table.tsx:25-28 | the dialog starts closed, with nothing selected, no reason and action `add` |
| StarTable.ReasonModal.HandleStarAction | src/components/star-table.tsx:30-34 | selects the person and the action and opens the dialog; the reason is kept |
| StarTable.ReasonModal.EditReason | src/components/star-table.tsx:201 | only the reason changes |
| StarTable.ReasonModal.ConfirmAction | src/components/star-table.tsx:36-48 | returns `ConfirmCall` of the old state; without a selection nothing changes; after a call the dialog is closed and reset |
| StarTable.ReasonModal.Cancel | src/components/star-table.tsx:209-213 | closes and resets the dialog |
| AddPersonForm.SubmitDisabled | src/components/add-person-form.tsx:52 | the button is disabled exactly when the name is blank or a submission is running |
| AddPersonForm.SubmittedNameStored | src/components/add-person-form.tsx:21 | the person a submitted name creates carries the input's trimmed text, never empty |
| AddPersonForm.Form.constructor | src/components/add-person-form.tsx:10-11 | empty name, not submitting |
| AddPersonForm.Form.Edit | src/components/add-person-form.tsx:43 | only the name changes |
| AddPersonForm.Form.HandleSubmit | src/components/add-person-form.tsx:13-26 | calls `onAddPerson` with `TrimmedOrNone` of the old name, and not at all for a blank one; a blank name changes nothing; after a call the name is cleared and the submission has ended |

## Left out

- Rendering, styling, the navigation and feature components, and React's scheduling of state updates. Each hook operation is modelled as one atomic update of the current state.
- The order between the load and save effects on mount. The save effect is modelled as `Save` of the current ledger. The browser storage, its exceptions and `console.error` are not modelled.
- `JSON.parse` and `JSON.stringify` are abstracted. A stored value is missing, malformed (any parse or mapping exception, which leaves the state as it was), or a snapshot whose dates are text.
- Invalid dates (`NaN` from `new Date(text)`) are not modelled. `parse` returns an integer for every text.
- StarSort.LowerCase: only ASCII letters are lower-cased; JavaScript's Unicode `toLowerCase` is not modelled.
- StarSort.StrLess: compares Unicode scalar values, not UTF-16 code units, so it can order characters outside the Basic Multilingual Plane differently from JavaScript.
- StarSort.SortPeople: stability is not proved. The insertion sort keeps equal people in input order, as `Array.prototype.sort` has done since ES2019.
- StarStats.AverageStars: floating-point division and `toFixed(1)` are a parameter applied to the total and the count.
- StarTable.FormatDate: `toLocaleDateString` is a parameter.
- StarStats.RecentActions: the source reads the clock once per action; the model uses one `now` for the whole filter.
- StarStats.TopPerformer: stars are integers, so `top?.stars || 0` only matters for the initial `null`, which the model writes as "no top yet".
- StarTable.RenderStars: takes a `nat`. `repeat` throws on a negative count, which the invariants rule out.
- StarStats.StarCaption: takes a `nat`, for the same reason.
- AddPersonForm.Form.HandleSubmit: an exception thrown by `onAddPerson` is not modelled. The `finally` path then keeps the name typed and ends the submission.
- Star counts and dates are unbounded integers. In JavaScript they are doubles: `stars + 1` is exact only below 2^53 and the count's text switches to exponent form from 1e21. Neither bound is reachable by clicking.
- StarStore.Store.Load: a loaded snapshot is not validated, as in the source. The invariants are not promised after a load; `StarSnapshot.LoadSavedKeepsInvariants` covers only a snapshot the save effect wrote from a consistent ledger, and `StarSnapshot.LoadDoesNotValidate` shows a snapshot that breaks them.
- Random ids and clock readings are parameters. Uniqueness of generated ids is a hypothesis of `StarStore.Store.AddPerson`'s invariant clauses and is not guaranteed by the model.
