# Paint-a-Pic nonogram engine, modelled in Dafny

Paint-a-Pic is an iOS nonogram game. A nonogram is a grid of squares with one clue list per
row and per column. A row or column is solved when the lengths of its maximal runs of filled
squares, read in order, are exactly its clue list. This project models the logic under the
game's screens and proves properties of it:

- **Puzzle validator** (`Validator`, over `PuzzleClues`). It keeps the set of filled square
  tags and a validity flag per row and per column. Squares are tagged from 1 in row-major
  order. `Toggle` fills or empties one square, re-checks only that square's row and column,
  and answers whether every flag is set.
  - The re-check is a single left-to-right scan with early exits (`LineScan.ValidateLine`).
    It is proved to agree with the run-length definition of a solved line (`LineScan.Runs`).
  - Flags that say "valid" are always right (`Sound`). Flags that were all exact stay exact
    (`Consistent`), and then the answer of `Toggle` is exactly "the puzzle is solved".
  - A fresh validator starts with every flag false. Those flags are exact exactly when no
    row and no column has an empty clue list. A line with an empty clue list is satisfied
    on the empty grid, but its flag stays false until one of its squares is toggled. Until
    then `Toggle` answers false even on a solved grid; see Findings. The model also has the
    intended start state, `Exact`, whose flags are exact from the start.
  - The tutorial data (Nonograms/Utils/Tutorial/Tutorials.swift:40-41) writes the clue of
    an empty column as `[0]`. `LineScan.NonPositiveClueUnsatisfiable` shows that no line
    satisfies a clue below 1.
- **Older validator** (`LegacyValidator`, over `PuzzleRules`). The same algorithm, but its
  `getTag` multiplies the row by the number of rows. The model keeps that formula. It proves
  the formula right on square grids, on one-row grids and on grids without columns, and
  wrong on every other grid; see Findings.
- **Square fill state** (`PuzzleSquare`). The two brushes, fill and ex, each swap an empty
  square with their own mark and leave the other brush's mark alone.
- **Progress tracker** (`Progress`). Per board size it keeps the set of completed puzzle ids
  and a frontier `upTo`, and puzzles unlock one at a time.
  - A puzzle is open when it sits at the frontier.
  - A puzzle counts as completed when its id was completed or it sits before the frontier.
  - Completing the frontier puzzle moves the frontier on by one.
  - No puzzle's state ever gets worse.
- **Support structures**:
  - `FixedLengthArray`, an array whose length never changes.
  - `Set.toggle`.
  - `mapInPlace`.
  - `TwoIntTuple`, the board-size key.

`TwoIntTuple` comes with its string form, its parser and the conversions of dictionaries
between tuple keys and string keys. Parsing the string form of a tuple gives the tuple back.
Converting a dictionary to string keys and back gives the original, whatever order the
dictionary is visited in.

The model's form follows the source's own form:
- State that the Swift code updates in place becomes a class with `modifies` clauses: the
  validators, `FixedLengthArray` and the tracker. Each method's `ensures` gives the whole new
  state in terms of the old one.
- The array loop of `mapInPlace` is a method on an `array` with loop invariants.
- `Set.toggle` is a method that takes the set and gives back the toggled set. That is how a
  `mutating` method on a Swift value type looks from the caller's side.
- The clue scan is a method with a `for` loop.
- The string and dictionary code, which builds new values, is written as functions.

Modules: `Wrappers` (Option), `Puzzles` (`Uuid`, `PuzzleClues`), `Grid` (tag arithmetic),
`LineScan`, `Validator`, `LegacyValidator`, `PuzzleSquare`, `FixedArray`, `SetToggle`,
`MapInPlace`, `TupleKey`, `Progress`.

## Model

| member | source | states |
|---|---|---|
| SetToggle.Toggled | Nonograms/Extensions/Set+Toggle.swift:12-20 | the item's membership flips, every other element keeps its membership, and the size goes down by one when the item was present and up by one when it was absent |
| SetToggle.ToggledTwice | Nonograms/Extensions/Set+Toggle.swift:14-20 | toggling the same item twice gives back the original set |
| SetToggle.Toggle | Nonograms/Extensions/Set+Toggle.swift:14-20 | the remove-if-present, insert-otherwise branches produce the toggled set |
| PuzzleSquare.NewState | Nonograms/UI/Puzzle/Views/PuzzleSquare.swift:16-29 | the fill brush never creates or removes an ex, the ex brush never creates or removes a fill, and each brush changes every square except one holding the other brush's mark |
| PuzzleSquare.NewStateTwice | Nonograms/UI/Puzzle/Views/PuzzleSquare.swift:16-29 | applying the same brush twice restores the square |
| FixedArray.FixedLengthArray.Count | Nonograms/FixedLengthArray.swift:13 | `count` is the length of the storage array |
| FixedArray.FixedLengthArray.Get | Nonograms/FixedLengthArray.swift:15-16 | the subscript getter gives the element at `index`, which the array contains |
| FixedArray.FixedLengthArray.constructor | Nonograms/FixedLengthArray.swift:22-24 | `init(repeating:count:)` gives `count` elements, each equal to `repeating` |
| FixedArray.FixedLengthArray.FromStorage | Nonograms/FixedLengthArray.swift:25-27 | `init(storage:)` keeps the given elements in their order |
| FixedArray.FixedLengthArray.Set | Nonograms/FixedLengthArray.swift:15-20 | the subscript setter changes element `index` only; the count cannot change, because the storage array is a constant |
| FixedArray.FixedLengthArray.Contains | Nonograms/FixedLengthArray.swift:29-31 | true exactly when some element equals the argument |
| FixedArray.FixedLengthArray.Equals | Nonograms/FixedLengthArray.swift:11 | the synthesized `==`: same count and equal elements at every index |
| MapInPlace.Mapped | Nonograms/Extensions/MutableCollection+MapInPlace.swift:14-16 | the mapped sequence has the same length, and each element is the closure applied to the old element at that index |
| MapInPlace.MappedIdentity | Nonograms/Extensions/MutableCollection+MapInPlace.swift:14-16 | a closure that changes nothing leaves the collection unchanged |
| MapInPlace.MapInPlace | Nonograms/Extensions/MutableCollection+MapInPlace.swift:14-16 | the array afterwards is the old array with every element passed through the closure, at its own index |
| LineScan.Line | Nonograms/Utils/Puzzle/PuzzleValidator.swift:72-76 | square i of the line is filled exactly when its tag is in the filled set |
| LineScan.RunsFromPositive | Nonograms/Utils/Puzzle/PuzzleValidator.swift:84-105 | every recorded run length is at least 1 |
| LineScan.RunsFromHead | Nonograms/Utils/Puzzle/PuzzleValidator.swift:84-88 | a run in progress is recorded first, with at least its current length |
| LineScan.NothingFilledNoRuns | Nonograms/Utils/Puzzle/PuzzleValidator.swift:68-106 | with no square filled, every line has no runs |
| LineScan.RunsEmptyIffBlank | Nonograms/Utils/Puzzle/PuzzleValidator.swift:68-106 | a line has no runs exactly when none of its squares is filled |
| LineScan.RunsFromSplit | Nonograms/Utils/Puzzle/PuzzleValidator.swift:90-102 | an empty square ends the run in progress, and the runs after it are those of the rest of the line |
| LineScan.RunsSplit | Nonograms/Utils/Puzzle/PuzzleValidator.swift:90-102 | the runs of `a + [empty] + b` are the runs of `a` followed by the runs of `b` |
| LineScan.RunsFromSolid | Nonograms/Utils/Puzzle/PuzzleValidator.swift:84-105 | a solid block continuing a run of length c is one run of length n + c |
| LineScan.RunsSolid | Nonograms/Utils/Puzzle/PuzzleValidator.swift:84-105 | n filled squares in a row are the single run [n] |
| LineScan.EmptyClueIffBlank | Nonograms/Utils/Puzzle/PuzzleValidator.swift:106 | an empty clue list is satisfied exactly by a blank line |
| LineScan.NonPositiveClueUnsatisfiable | Nonograms/Utils/Puzzle/PuzzleValidator.swift:106 | a clue list holding a number below 1 is satisfied by no line |
| LineScan.ValidateLine | Nonograms/Utils/Puzzle/PuzzleValidator.swift:63-107 | `_validate` answers true exactly when the run lengths of the line equal the clue list; none of its three early `false` exits rejects a line that matches |
| LineScan.LineWithout | Nonograms/Utils/Puzzle/PuzzleValidator.swift:72-76 | toggling a tag that is not in a line leaves the line unchanged |
| Grid.TagDecomposition | Nonograms/Utils/Puzzle/PuzzleValidator.swift:43-47 | splitting a tag in 1..rows*cols gives a row and a column inside the grid, and `getTag` of those is the same tag |
| Grid.TagUnique | Nonograms/Utils/Puzzle/PuzzleValidator.swift:125-127 | two squares of a grid with the same tag are the same square |
| Grid.TagOfSquare | Nonograms/Utils/Puzzle/PuzzleValidator.swift:125-127 | the tag of a square inside the grid is in 1..rows*cols and splits back into that square |
| Validator.PuzzleValidator.NumRows | Nonograms/Utils/Puzzle/PuzzleValidator.swift:19 | the number of rows is the number of row clue lists |
| Validator.PuzzleValidator.NumCols | Nonograms/Utils/Puzzle/PuzzleValidator.swift:21 | the number of columns is the number of column clue lists |
| Validator.PuzzleValidator.GetTag | Nonograms/Utils/Puzzle/PuzzleValidator.swift:125-127 | on every grid the tag of a square in range lies in 1..rows*cols, and `toggle`'s division and remainder by the number of columns give back its row and column |
| Validator.PuzzleValidator.ToggleKeepsOtherLines | Nonograms/Utils/Puzzle/PuzzleValidator.swift:41-49 | toggling a square changes whether a line is solved only for that square's own row and column |
| Validator.PuzzleValidator.RevalidationPreserves | Nonograms/Utils/Puzzle/PuzzleValidator.swift:41-49 | re-checking only the toggled square's row and column keeps sound flags sound and exact flags exact |
| Validator.PuzzleValidator.SoundFlagsShowSolved | Nonograms/Utils/Puzzle/PuzzleValidator.swift:50-52 | with sound flags, all flags set means every row and every column satisfies its clues |
| Validator.PuzzleValidator.ConsistentFlagsDecideSolved | Nonograms/Utils/Puzzle/PuzzleValidator.swift:50-52 | with exact flags, all flags are set exactly when the puzzle is solved |
| Validator.PuzzleValidator.IsValid | Nonograms/Utils/Puzzle/PuzzleValidator.swift:25-28 | true exactly when no row flag and no column flag is false |
| Validator.PuzzleValidator.EmptyGridValidity | Nonograms/Utils/Puzzle/PuzzleValidator.swift:63-123 | with no square filled, a row or column satisfies its clues exactly when its clue list is empty |
| Validator.PuzzleValidator.FreshFlagsConsistentIff | Nonograms/Utils/Puzzle/PuzzleValidator.swift:31-37 | the all-false start flags are exact on the empty grid exactly when no row and no column has an empty clue list |
| Validator.PuzzleValidator.constructor | Nonograms/Utils/Puzzle/PuzzleValidator.swift:31-37 | no square is filled, there is one flag per row and one per column, every flag is false, the flags are sound, and they are exact exactly when no clue list is empty |
| Validator.PuzzleValidator.Exact | Nonograms/Utils/Puzzle/PuzzleValidator.swift:31-39 | the intended start state: no square is filled, each flag is true exactly when its line's clue list is empty, and the flags are exact, so every later `toggle` answers exactly "solved" |
| Validator.EmptyColumnMisjudged | Nonograms/Utils/Puzzle/PuzzleValidator.swift:31-53 | clues `[[1]]` by `[[1], []]`: after `toggle(1)` the grid is solved, yet the answer is false |
| Validator.EmptyColumnJudgedExactly | Nonograms/Utils/Puzzle/PuzzleValidator.swift:39-53 | the same puzzle and move, started from `Exact`: the grid is solved and the answer is true |
| Validator.PuzzleValidator.ValidateRow | Nonograms/Utils/Puzzle/PuzzleValidator.swift:109-115 | true exactly when the row's squares, in column order, satisfy the row's clues |
| Validator.PuzzleValidator.ValidateCol | Nonograms/Utils/Puzzle/PuzzleValidator.swift:117-123 | true exactly when the column's squares, in row order, satisfy the column's clues |
| Validator.PuzzleValidator.Toggle | Nonograms/Utils/Puzzle/PuzzleValidator.swift:41-53 | the filled set is toggled at `tag`; only the flags of its row and its column change, each becoming that line's validity; the answer is `isValid`; a true answer means solved; and when the flags were exact they stay exact and the answer is exactly "solved" |
| LegacyValidator.NumRows | Nonograms/PuzzleValidator.swift:19 | the number of rows is the number of row rules |
| LegacyValidator.NumCols | Nonograms/PuzzleValidator.swift:21 | the number of columns is the number of column rules |
| LegacyValidator.GetTag | Nonograms/PuzzleValidator.swift:112-114 | `numRows * row + col + 1`; on square grids it lies in 1..rows*cols and `toggle`'s split gives back the square |
| LegacyValidator.GetTagAgreesIff | Nonograms/PuzzleValidator.swift:112-114 | the formula equals the row-major tag on every square exactly when the grid is square, has at most one row, or has no column |
| LegacyValidator.TallGridRowMisjudged | Nonograms/PuzzleValidator.swift:38-50 | on a 2-by-1 grid with only its solution square filled, `toggle` judges row 1 invalid although its squares satisfy its rule |
| LegacyValidator.ToggleKeepsOtherLines | Nonograms/PuzzleValidator.swift:38-46 | on a square grid, toggling a square changes whether a line is valid only for that square's row and column |
| LegacyValidator.RevalidationPreserves | Nonograms/PuzzleValidator.swift:38-46 | on a square grid, re-checking the toggled square's row and column keeps sound flags sound and exact flags exact |
| LegacyValidator.SoundFlagsShowSolved | Nonograms/PuzzleValidator.swift:47-49 | with sound flags, all flags set means every line satisfies its rule |
| LegacyValidator.ConsistentFlagsDecideSolved | Nonograms/PuzzleValidator.swift:47-49 | with exact flags, all flags are set exactly when every line satisfies its rule |
| LegacyValidator.PuzzleValidator.IsValid | Nonograms/PuzzleValidator.swift:24-27 | true exactly when no flag is false |
| LegacyValidator.EmptyGridValidity | Nonograms/PuzzleValidator.swift:52-111 | with no square filled, a row or column satisfies its rule exactly when the rule is empty, whatever tags `getTag` gives |
| LegacyValidator.FreshFlagsConsistentIff | Nonograms/PuzzleValidator.swift:30-36 | the all-false start flags are exact on the empty grid exactly when no rule is empty |
| LegacyValidator.PuzzleValidator.constructor | Nonograms/PuzzleValidator.swift:30-36 | no square is filled, there is one flag per row and one per column, all false, and they are exact exactly when no rule is empty |
| LegacyValidator.PuzzleValidator.ValidateRow | Nonograms/PuzzleValidator.swift:98-104 | true exactly when the squares `getTag` names for the row satisfy the row's rule |
| LegacyValidator.PuzzleValidator.ValidateCol | Nonograms/PuzzleValidator.swift:105-111 | true exactly when the squares `getTag` names for the column satisfy the column's rule |
| LegacyValidator.PuzzleValidator.Toggle | Nonograms/PuzzleValidator.swift:38-50 | the filled set is toggled; only the flags of the split row and column change, to what the scan decides; the answer is `isValid`; on square grids a true answer means solved, and exact flags stay exact |
| TupleKey.FromPair | Nonograms/Extensions/Dictionary+TupleKey.swift:16-19 | the tuple holds the pair's two components in order |
| TupleKey.NatToString | Nonograms/Extensions/Dictionary+TupleKey.swift:37 | the decimal form of a natural number is a nonempty string of digits |
| TupleKey.IntToString | Nonograms/Extensions/Dictionary+TupleKey.swift:37 | the interpolated form of an integer is nonempty and contains no 'x' |
| TupleKey.ParseInt | Nonograms/Extensions/Dictionary+TupleKey.swift:28-29 | `Int(String)` succeeds only on a nonempty string whose characters after the first are all digits; a leading '-' gives a value of at most 0; a string of digits whose value fits in `Int` parses to that value |
| TupleKey.ParseIntToString | Nonograms/Extensions/Dictionary+TupleKey.swift:28-29 | `Int(String)` of the interpolated form of any 64-bit `Int` gives it back |
| TupleKey.Split | Nonograms/Extensions/Dictionary+TupleKey.swift:25 | `split(separator: "x")` yields only nonempty pieces that contain no 'x' |
| TupleKey.SplitNoX | Nonograms/Extensions/Dictionary+TupleKey.swift:25 | a nonempty string without 'x' splits into itself alone |
| TupleKey.SplitPiece | Nonograms/Extensions/Dictionary+TupleKey.swift:25 | a piece followed by 'x' splits off as the first piece |
| TupleKey.SplitTwo | Nonograms/Extensions/Dictionary+TupleKey.swift:25 | two pieces joined by one 'x' split back into exactly those two pieces |
| TupleKey.Description | Nonograms/Extensions/Dictionary+TupleKey.swift:37 | `description` splits on 'x' into exactly the decimal forms of `int0` and `int1` |
| TupleKey.FromString | Nonograms/Extensions/Dictionary+TupleKey.swift:24-32 | a parsed tuple's components are the `Int` values of the first and the last piece; when it is nil is stated by `FromStringNone`, and the round trip on descriptions by `FromStringDescription` |
| TupleKey.FromStringDescription | Nonograms/Extensions/Dictionary+TupleKey.swift:24-37 | `init?(from: t.description)` gives back `t` for every tuple |
| TupleKey.FromStringDescriptions | Nonograms/Extensions/Dictionary+TupleKey.swift:24-37 | the same round trip, for all tuples at once |
| TupleKey.DescriptionInjective | Nonograms/Extensions/Dictionary+TupleKey.swift:37 | two different tuples never have the same description |
| TupleKey.FromStringIgnoresMiddle | Nonograms/Extensions/Dictionary+TupleKey.swift:24-32 | only the first and the last piece are read: "5x7x9" parses to (5, 9) |
| TupleKey.FromStringSinglePiece | Nonograms/Extensions/Dictionary+TupleKey.swift:24-32 | a single piece is both ends: "5" parses to (5, 5) |
| TupleKey.FromStringOuterSeparators | Nonograms/Extensions/Dictionary+TupleKey.swift:24-32 | leading and trailing separators are dropped: "x10x" parses to (10, 10) |
| TupleKey.FromStringNoPiece | Nonograms/Extensions/Dictionary+TupleKey.swift:24-32 | "" and "xx" have no piece and give nil |
| TupleKey.FromStringNotNumber | Nonograms/Extensions/Dictionary+TupleKey.swift:24-32 | an end piece that is not an `Int` gives nil ("ax5") |
| TupleKey.FromStringNone | Nonograms/Extensions/Dictionary+TupleKey.swift:24-32 | parsing fails exactly when there is no piece or an end piece fails `Int(String)` |
| TupleKey.GetPair | Nonograms/Extensions/Dictionary+TupleKey.swift:42-45 | the pair subscript reads the entry of `TwoIntTuple(pair)`, nil when there is none |
| TupleKey.SetPair | Nonograms/Extensions/Dictionary+TupleKey.swift:42-45 | the pair subscript writes that entry, removing it on nil, and leaves every other key as it was |
| TupleKey.ToStringKey | Nonograms/Extensions/Dictionary+TupleKey.swift:50-56 | every entry appears under its key's description, and every string key is the description of some original key |
| TupleKey.RekeySize | Nonograms/Extensions/Dictionary+TupleKey.swift:50-56 | re-keying through a function that has a left inverse loses no entry |
| TupleKey.ToStringKeySize | Nonograms/Extensions/Dictionary+TupleKey.swift:50-56 | `toStringKey()` has exactly as many entries as the original |
| TupleKey.LastParsed | Nonograms/Extensions/Dictionary+TupleKey.swift:61-69 | the found index is the last visited key that parses to the tuple, or -1 when no visited key does |
| TupleKey.ReduceParsed | Nonograms/Extensions/Dictionary+TupleKey.swift:61-69 | after the fold, a tuple has an entry exactly when some visited key parses to it, and that entry is the value of the last such key |
| TupleKey.ToTupleKey | Nonograms/Extensions/Dictionary+TupleKey.swift:61-69 | `toTupleKey()` keeps exactly the tuples that some key parses to, each with the value of the last key visited that parses to it |
| TupleKey.ToTupleKeyKeyed | Nonograms/Extensions/Dictionary+TupleKey.swift:61-69 | in every visiting order, the keys of the result are exactly the parsed keys, and each value comes from a key that parses to it |
| TupleKey.RekeyRoundTrip | Nonograms/Extensions/Dictionary+TupleKey.swift:50-69 | re-keying through an encoding and back through its left inverse gives the original dictionary |
| TupleKey.ToTupleKeyOfToStringKey | Nonograms/Extensions/Dictionary+TupleKey.swift:50-69 | `toStringKey()` then `toTupleKey()` gives back the original dictionary, whatever order the string-keyed dictionary is visited in |
| Progress.Restore | Nonograms/Utils/Puzzle/ProgressTracker.swift:35-44 | the selections visited get their saved value, or the default when none was saved, and every other entry is kept |
| Progress.InsertCompleted | Nonograms/Utils/Puzzle/ProgressTracker.swift:47 | the id is added to the selection's set only when the selection has an entry; no key is added and the other entries stay |
| Progress.ProgressTracker.PuzzlesFor | Nonograms/Utils/Puzzle/ProgressTracker.swift:82-87 | `getPuzzles(for:) ?? []`: the selection's puzzle list, or the empty list when there is none |
| Progress.ProgressTracker.CompletedIn | Nonograms/Utils/Puzzle/ProgressTracker.swift:64 | `completed[selection] ?? []`: the selection's completed ids, or none |
| Progress.ProgressTracker.UpTo | Nonograms/Utils/Puzzle/ProgressTracker.swift:65-66 | `upToDict[selection] ?? 0`: the selection's frontier, or 0 |
| Progress.ProgressTracker.GetState | Nonograms/Utils/Puzzle/ProgressTracker.swift:60-68 | completed exactly when the puzzle exists and its id was completed or it lies before the frontier; open exactly when it exists, was not completed and is at the frontier; locked in every other case, past the end of the list included |
| Progress.ProgressTracker.GetNextUuid | Nonograms/Utils/Puzzle/ProgressTracker.swift:69-74 | the id of the puzzle at the frontier, present exactly when the frontier is inside the list; that puzzle is never locked |
| Progress.ProgressTracker.OneOpenPuzzle | Nonograms/Utils/Puzzle/ProgressTracker.swift:60-68 | at most one puzzle of a board size is open and not completed |
| Progress.ProgressTracker.FrontierSplitsList | Nonograms/Utils/Puzzle/ProgressTracker.swift:60-68 | every puzzle before the frontier is completed, and a puzzle after it is locked exactly when its id was not completed |
| Progress.RestoreStep | Nonograms/Utils/Puzzle/ProgressTracker.swift:35-44 | restoring one more selection is one more assignment of its saved value |
| Progress.ProgressTracker.LoadProgress | Nonograms/Utils/Puzzle/ProgressTracker.swift:35-44 | each of the five selections gets its saved ids (none when nothing was saved) and its saved frontier (0 when nothing was saved); other board sizes keep their entries |
| Progress.ProgressTracker.constructor | Nonograms/Utils/Puzzle/ProgressTracker.swift:25-28 | the tracker holds the given puzzle lists, and entries for exactly the five selections, loaded from the saved progress |
| Progress.ProgressTracker.Complete | Nonograms/Utils/Puzzle/ProgressTracker.swift:45-55 | the id is inserted when the selection has an entry; the frontier moves on by exactly one when the id is the frontier puzzle's, and stays otherwise; the frontier never decreases and never passes the end of the list when it started inside it; other selections are untouched; no puzzle's state gets worse; completing the frontier puzzle makes it completed and opens the next one |
| Progress.ProgressTracker.CompleteAt | Nonograms/Utils/Puzzle/ProgressTracker.swift:56-59 | nothing happens when there is no list for the selection; otherwise it acts as `complete` with the id of puzzle `i` |

## Left out

- UserDefaults persistence in `ProgressTracker` (lines 38-42, 51 and 54 of the tracker) is storage I/O. The values read back are passed to `LoadProgress` as two maps and the writes are not modelled. The UUID strings stored there, and their parsing, are not modelled: ids are opaque 128-bit values compared for equality.
- `PuzzlesLoader` and lazy loading are left out. The loader reads a bundle file and decodes JSON, which is I/O. The tracker is given its puzzle lists as a fixed map, so `getPuzzles(for: TwoIntTuple)` is a lookup that defaults to the empty list.
- The `Int`-section overloads `getPuzzles(for: Int)` and `getNextUUID(for: Int)` are left out, because nothing in the modelled core calls them. Note that `getPuzzles(for: Int)` loads only when the puzzles are already loaded (`!isEmpty`, ProgressTracker.swift line 90), so when nothing is loaded yet it never loads.
- All UIKit views and controllers, the layout code (floating point) and the tutorial data are left out: they draw the game and hold no game logic.
- The drag-gesture fills (`getTempMode` and `getNewState` in Nonograms/UI/Custom Views/Puzzle View/PuzzleSquareFillState.swift:32-52) and the puzzle maker (`getClues` in Nonograms/Puzzle Logic/PuzzleMaker.swift:23-57) are left out. They belong to other versions of the app, outside the files modelled here; this model covers the fill state of Nonograms/UI/Puzzle/Views/PuzzleSquare.swift.
- Validator.PuzzleValidator.Toggle: tags are unbounded integers. Overflow of `numCols * row + col + 1` in Swift's 64-bit `Int` is not modelled; boards hold at most 25 by 25 squares.
- Validator.PuzzleValidator.Toggle and LegacyValidator.PuzzleValidator.Toggle require a tag in 1..rows*cols. Any other tag makes the Swift code index a flag array out of range (a runtime trap), and a grid without columns makes it divide by zero.
- MapInPlace.MapInPlace: the Swift closure takes the element `inout` and may have other side effects. Here it is a pure function from the old element to the new one, and the collection is an array. With a pure closure the order in which the indices are visited cannot be observed, so the contract states only the final contents.
- FixedLengthArray is a Swift value type, copied on assignment. Here it is an object. The validators never share their flag arrays, and `Shaped` states that the row and column arrays are distinct.
- TupleKey.Split compares single characters (code points). Swift's `split(separator:)` compares grapheme clusters, so an 'x' followed by a combining mark splits here but not in Swift. The descriptions the app writes hold only ASCII digits, '-' and 'x', so the round trip through `description` is the same under both.
- TupleKey.ToStringKey is a map comprehension, not a fold in visiting order. The descriptions never collide (`DescriptionInjective`), so every order gives this same dictionary.
- `PuzzleRules` and `PuzzleClues` hold their clue lists as sequences. The Swift types behind them beyond those fields are not part of this model.

## Findings

| source | as written | input that shows it | evidently intended | confidence | as-written member | corrected member |
|---|---|---|---|---|---|---|
| Nonograms/PuzzleValidator.swift:112-114 | `getTag` is `numRows * row + col + 1`, while `toggle` splits a tag by `numCols` | rules with row rules `[[], [1]]` and column rules `[[1]]` (2 rows, 1 column), square 2 filled: `getTag(1, 0)` is 3, so row 1 is judged invalid although it is filled as its rule asks | `numCols * row + col + 1`, as in Nonograms/Utils/Puzzle/PuzzleValidator.swift:125-127 | not executed | LegacyValidator.TallGridRowMisjudged | Validator.PuzzleValidator.GetTag |
| Nonograms/Utils/Puzzle/PuzzleValidator.swift:31-37 | `init(from:)` sets every flag to false, and `toggle` re-checks only the toggled square's row and column, so a line with an empty clue list stays flagged invalid until one of its squares is toggled (the older `init(from:)` at Nonograms/PuzzleValidator.swift:30-36 does the same) | clues `[[1]]` for the row and `[[1], []]` for the columns (1 row, 2 columns): `toggle(1)` solves the grid but returns false, because column 1 keeps its initial false flag | start each flag at its line's validity on the empty grid (true exactly for an empty clue list), so that `toggle` "returns the validity of the entire puzzle" as its comment at line 39 says | not executed | Validator.EmptyColumnMisjudged | Validator.PuzzleValidator.Exact |
