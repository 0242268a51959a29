# Crayon-buff checklist: a Dafny model

The tool has two halves.

- **Aggregator.** `compile.js` reads one JSON file per character. Each file maps a board name to the buff types that the character unlocks on that board. The script regroups these into board key → buff type → sorted list of characters, starting from a fixed skeleton of three boards.
- **Checklist page.** `script.js` keeps a checked flag per (board, buff type, character) under a composite key. For each visible board and buff type, it renders the characters that match the search, with a checked count and an all-completed mark. It also tallies the completed and total entries into a progress percentage.

The Dafny modules follow this split:

| module | file | contents |
|---|---|---|
| `Wrappers` | `wrappers.dfy` | `Option` and `Result` |
| `JsStrings` | `jsstrings.dfy` | JavaScript strings as UTF-16 code units, the default sort order, `includes`, `toLowerCase` |
| `Sorting` | `sorting.dfy` | `Array.prototype.sort()` with the default comparison |
| `Boards` | `boards.dfy` | the board skeleton and the board-name mapping |
| `Aggregator` | `aggregator.dfy` | the aggregation loop and the final sort, with own-property lookups |
| `PrototypeLookup` | `prototype.dfy` | the same loop with the lookups as written (see Findings) |
| `Checklist` | `checklist.dfy` | composite key, `isChecked`, the toggle |
| `View` | `view.dfy` | `renderContent` as a view model: board filter, search, counts |
| `Stats` | `stats.dfy` | `updateStats`: the loops and the percentage |
| `Scenario` | `scenario.dfy` | a worked example through aggregation, toggle and count |

Modelling choices:

- **Strings.** A string is a sequence of UTF-16 code units (`JsStrings.JsString`). The default sort therefore compares code units lexicographically, and a shorter prefix sorts first.
- **Input order.** The character files are a sequence in directory order. Each file's keys are a sequence in key order. The fold visits them in the same order as the nested `forEach` calls, and the sorted output is proved not to depend on either order: `Aggregator.CompileRecordOrderIrrelevant` covers the order of the files and `Aggregator.CompileKeyOrderIrrelevant` the order of the keys inside each file.
- **Objects as maps.** Objects become Dafny maps. The checked state is a `map<JsString, bool>`, and an absent key reads as false.

## Model

| member | source | states |
|---|---|---|
| Boards.BoardNamesMatchSkeleton | compile.js:7-18 | the skeleton has exactly the keys board1, board2 and board3; every name in the mapping leads to the board that carries that name |
| Boards.ResolveBoard | compile.js:14-18 | a board name resolves exactly when the mapping knows it, and then to a skeleton board with that display name |
| JsStrings.LessEqMeansLessEqAt | compile.js:46 | the recursive code-unit comparison is the prefix-or-first-difference order |
| JsStrings.LessEqTotal | compile.js:46 | any two strings are comparable |
| JsStrings.LessEqAntisymmetric | compile.js:46 | strings that each sort at or before the other are equal |
| JsStrings.LessEqTransitive | compile.js:46 | the sort order is transitive |
| JsStrings.LessEqReflexive | compile.js:46 | every string sorts at or before itself |
| Sorting.Insert | compile.js:46 | inserting into a sorted list keeps it sorted and adds exactly that element |
| Sorting.Sort | compile.js:46 | the sorted list is ascending and a permutation of the input |
| Sorting.SortUnique | compile.js:46 | two ascending lists holding the same names are equal, so every correct sort gives the same result |
| Sorting.SortIdempotent | compile.js:46 | sorting a sorted list changes nothing |
| Aggregator.PushAll | compile.js:34-39 | pushing every listed buff type keeps the same boards with the same names and icons, and leaves no list empty when none was |
| Aggregator.AddEntries | compile.js:29-40 | one character file keeps the same boards with the same names and icons, and leaves no list empty when none was |
| Aggregator.Collect | compile.js:23-41 | all character files keep the same boards with the same names and icons, and leave no list empty when none was |
| Aggregator.Compile | compile.js:23-48 | the output has the skeleton's boards with their names and icons; every list in it is ascending and non-empty |
| Aggregator.PushCount | compile.js:35-38 | one push adds exactly one occurrence of that character to that one list and changes no other count |
| Aggregator.Push | compile.js:35-38 | pushing appends the character to that one list, creates the list on first use, and leaves every other list and board unchanged |
| Aggregator.SortAll | compile.js:44-48 | every list comes out ascending with the same names; boards, names, icons and buff types are unchanged |
| Aggregator.CompileKeepsBoards | compile.js:7-11 | the output always has exactly the three skeleton boards, with their names and icons |
| Aggregator.CompileCount | compile.js:29-41 | a character appears in a list exactly as often as its files name that buff type under that board's name; nothing is deduplicated |
| Aggregator.CompileMembership | compile.js:29-41 | a character whose file lists a buff type under a known board name is in that buff type's list on that board |
| Aggregator.CompileBuffTypes | compile.js:29-41 | a buff type has a list on a board exactly when some file names it under that board's name |
| Aggregator.UnknownBoardSkipped | compile.js:30-31 | an entry whose board name the mapping does not know changes nothing, wherever it stands in the file |
| Aggregator.CompileListsSortedNonEmpty | compile.js:35-48 | every output list is ascending and non-empty |
| Aggregator.CompileSortIsPermutation | compile.js:44-48 | the final sort neither adds nor drops a name |
| Aggregator.CompileDeterminedByContributions | compile.js:23-48 | two sets of files that contribute every (board, buff type, character) equally often give the same output |
| Aggregator.CompileRecordOrderIrrelevant | compile.js:21-23 | reordering the character files does not change the output |
| Aggregator.EntriesCountPermutation | compile.js:29-40 | the keys of one file, in any order, name a buff type under a board equally often |
| Aggregator.ContributionKeyOrder | compile.js:23-40 | files that differ only in the order of their keys contribute every (board, buff type, character) equally often |
| Aggregator.CompileKeyOrderIrrelevant | compile.js:29 | reordering the keys inside any character file does not change the output |
| PrototypeLookup.LookupBoardName | compile.js:30-31 | the lookup as written: a board key for a known name, a truthy non-key for an inherited member name, and nothing otherwise |
| PrototypeLookup.PushAsWritten | compile.js:35-38 | the push as written fails exactly for an inherited member name that is not an own list; otherwise it is the intended push |
| PrototypeLookup.PushAllAsWritten | compile.js:34-39 | a success is the intended result; a failure implies an inherited buff type |
| PrototypeLookup.AddEntriesAsWritten | compile.js:29-40 | a success is the intended result for the file |
| PrototypeLookup.CollectAsWritten | compile.js:23-41 | a success is the intended result for all files |
| PrototypeLookup.CompileAsWritten | compile.js:23-48 | a success is the intended output |
| PrototypeLookup.CompileAsWrittenIff | compile.js:29-41 | the script as written throws exactly when some entry names an inherited member as a board (with buff types) or as a buff type of a known board, and otherwise gives the intended output |
| PrototypeLookup.InheritedBoardNameThrows | compile.js:30-35 | a board named `toString` makes the script throw, where the intended aggregator skips the entry |
| PrototypeLookup.InheritedBuffNameThrows | compile.js:35-38 | a buff type `constructor` makes the script throw, where the intended aggregator lists the character under it |
| Checklist.CharacterId | script.js:138-140 | when board key and buff type contain no dash, cutting the key at its first two dashes gives back the board key, the buff type and the character |
| Checklist.IsChecked | script.js:143-146 | an absent key reads as unchecked, a present key as its stored flag |
| Checklist.Toggle | script.js:149-151 | the toggled entry reads as the opposite of before and is now stored; every other stored key keeps its flag |
| Checklist.ToggleTwiceRestores | script.js:149-151 | toggling the same entry twice restores what every entry reads as |
| Checklist.CharacterIdInjective | script.js:138-140 | when board keys and buff types contain no dash, two combinations share a key exactly when they are the same combination |
| Checklist.CharacterIdCollision | script.js:138-140 | for any board key and strings b, c, d, the buff type b-c with character d and the buff type b with character c-d give the same key, though the buff types differ |
| Checklist.ToggleLeavesOthers | script.js:149-151 | under the no-dash condition, toggling one combination leaves every other combination as it reads |
| JsStrings.IncludesIff | script.js:180 | `includes` holds exactly when the pattern occurs at some position |
| JsStrings.ToLower | script.js:180 | lower-casing keeps the length, leaves no capital A-Z, turns each capital into its small letter, and leaves every other code unit unchanged |
| JsStrings.ToLowerIdempotent | script.js:180 | lower-casing twice is lower-casing once |
| JsStrings.ToLowerNoUpper | script.js:180 | a string without capitals is its own lower-case form |
| View.ShowsBoard | script.js:163 | a board passes the filter exactly when the filter is `all` or its key |
| View.Matches | script.js:180 | a name matches exactly when the lower-cased search occurs at some position of the lower-cased name; the empty search matches every name |
| View.MatchesIgnoresCase | script.js:180 | lower-casing the name or the search first does not change the match |
| View.FilterCharacters | script.js:179-181 | the filtered list is a subsequence of the list, holds only matching names, and holds each matching name as often as the list does |
| View.FilterEmptySearch | script.js:179-181 | the empty search keeps the whole list |
| View.FilterEmptyIff | script.js:179-185 | the filter comes back empty exactly when no character matches |
| View.CheckedCount | script.js:191-193 | the count lies between 0 and the list length; it equals the length exactly when all are checked, and is 0 exactly when none is |
| View.CheckedCountOne | script.js:191-193 | a one-character list counts 1 exactly when that character is checked, else 0 |
| View.CheckedCountAppend | script.js:191-193 | the count of two lists joined is the sum of their counts, so every list counts exactly its checked entries |
| View.RenderGroup | script.js:177-209 | no group exactly when no character matches; otherwise the group shows the matching characters in list order with their own flags, the count is at most the list length, and the mark is set exactly when the list is non-empty and all checked |
| View.RenderBoard | script.js:167-185 | the section carries the board's name and has a group for exactly the buff types with a matching character, each the group rendered for that list |
| View.Render | script.js:162-165 | there is a section for exactly the boards the filter lets through, each the rendered board |
| View.RenderSelectsBoards | script.js:162-165 | a board is shown exactly when the filter is `all` or its key |
| View.RenderGroupContents | script.js:177-185 | a buff group is shown exactly when some character matches the search; it shows the matching characters in list order, each with its own checked flag |
| View.RenderGroupCompletion | script.js:191-209 | the count is taken over the whole list; the mark is set exactly when the list is non-empty and fully checked |
| View.RenderCountIgnoresSearch | script.js:191-209 | the count and the mark of a visible group do not depend on the search |
| View.RenderEmptySearch | script.js:179-185 | with an empty search every non-empty list is shown in full |
| Stats.CompletedBoundedByTotal | script.js:253-266 | completed never exceeds total, and equals it exactly when every entry is checked |
| Stats.TallyBoard | script.js:258-265 | the per-board loop sums the list lengths and the checked counts of that board |
| Stats.TallyStep | script.js:256-266 | one board step keeps the running totals equal to the sums over the boards visited |
| Stats.Tally | script.js:253-266 | the loops yield the number of character entries and the number of checked ones |
| Stats.UpdateStats | script.js:252-271 | completed ≤ total; the percentage is 0 when there is nothing to count, lies in [0, 100], and is 100 exactly when there are entries and all are checked |
| Scenario.TwoFilesContribution | compile.js:29-41 | two files listing one buff type under board 1's name contribute each character once |
| Scenario.TwoFilesList | compile.js:29-48 | those two files give board 1 the list [a, b], where a sorts first |
| Scenario.ListOfTwo | compile.js:46 | a sorted list holding exactly a and b, with a sorting first, is [a, b] |
| Scenario.ToggleCounts | script.js:149-151 | from an empty state, checking a counts one of [a, b], and checking b as well counts both |
| Scenario.TwoFilesToggle | script.js:191-193 | after aggregating the two files and checking a, the group counts 1 of 2; after also checking b, it counts 2 |
| Scenario.BoardKeyIsNotABoardName | compile.js:14-18 | a file that names the board key `board1` instead of its display name contributes nothing |
| Stats.Percentage | script.js:271 | the percentage is 0 for no entries, lies in [0, 100], is 100 exactly for all completed, and is 0 exactly for none completed |

The aggregator maps only the boards' display names ("ボード1", …) to board keys, so a character file must use the display name. A file that writes the key `board1` itself is skipped (`Scenario.BoardKeyIsNotABoardName`). The worked example therefore uses the display name.

## Left out

- Reading the data directory, parsing JSON and writing `crayonData.js` are I/O. The files arrive already parsed as a sequence of records. The record types leave out files that parse but make the loop misbehave: a value under a known board name that is not an array throws at `buffs.forEach`, and a buff name that is not a string is converted to a key string. They also allow inputs that parsing a directory cannot yield: one board name twice in a file, or two files with the same character name.
- `localStorage` loading and saving, the DOM, event listeners, the placeholder image and the image URL are I/O or presentation. `toggleCharacter`'s calls to `saveState`, `updateStats` and `renderContent` are modelled only through the functions that those calls recompute.
- The display order of boards and buff types comes from object key insertion order. Maps do not keep it, so the output is compared as maps.
- JavaScript can persist a truthy value that is not a boolean (via hand-edited storage). `isChecked` would return such a value; the model stores booleans only.
- JsStrings.ToLower: folds ASCII letters only, because the full Unicode case mapping of `toLowerCase` is not modelled.
- Stats.Percentage: computed in exact rational arithmetic rather than IEEE double, because floating-point rounding is not modelled.
- Stats.UpdateStats: writes to DOM elements and the progress bar are not modelled; the method returns the three values.
- Sorting.Sort: insertion sort stands in for the engine's sort. `Sorting.SortUnique` shows that any correct sort gives the same list.

## Findings

| source | as written | input that shows it | evidently intended | confidence | as-written member | corrected member |
|---|---|---|---|---|---|---|
| compile.js:30-35 | `boardNameToKey[boardName]` also finds members inherited from `Object.prototype`. These are truthy, so the unknown-name check passes, `boards[boardKey]` is `undefined`, and `.buffs` throws a TypeError before any output is written | a character file `{"toString": ["x"]}` | an unknown board name is skipped, like any other | not executed | PrototypeLookup.InheritedBoardNameThrows | Aggregator.UnknownBoardSkipped |
| compile.js:35-38 | `buffs[buffName]` also finds inherited members. For a buff type spelt `constructor` (or any other such name), no list is created and `.push` is not a function, so the script throws a TypeError | a character file `{"ボード1": ["constructor"]}` | every buff type gets its own list | not executed | PrototypeLookup.InheritedBuffNameThrows | Aggregator.CompileMembership |

`PrototypeLookup.CompileAsWrittenIff` characterises every input on which the two differ. `Aggregator` models the intended own-property lookups, and the rest of the model builds on it.
