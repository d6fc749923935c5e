/**
 * `PuzzleValidator` over `PuzzleClues`: the set of filled square tags of one puzzle, with a
 * cached validity flag per row and per column that `Toggle` keeps up to date by re-checking
 * only the row and the column of the toggled square.
 */
module Validator {
  import opened Puzzles
  import opened FixedArray
  import opened SetToggle
  import opened LineScan
  import Grid

  class PuzzleValidator {
    /** Validity of each row, top to bottom. */
    const rows: FixedLengthArray<bool>
    /** Validity of each column, left to right. */
    const cols: FixedLengthArray<bool>
    const clues: PuzzleClues
    /** Tags of the filled squares. */
    var filled: set<int>

    function NumRows(): (n: nat)
      ensures n == |clues.rowClues|
    {
      |clues.rowClues|
    }

    function NumCols(): (n: nat)
      ensures n == |clues.colClues|
    {
      |clues.colClues|
    }

    /** The tag of the square in row `row` and column `col`, counted row by row from 1. */
    function GetTag(row: int, col: int): (t: int)
      ensures 0 <= row < NumRows() && 0 <= col < NumCols() ==>
                1 <= t <= NumRows() * NumCols() && (t - 1) / NumCols() == row && (t - 1) % NumCols() == col
    {
      if 0 <= row < NumRows() && 0 <= col < NumCols() then
        Grid.TagOfSquare(row, col, NumRows(), NumCols());
        NumCols() * row + col + 1
      else
        NumCols() * row + col + 1
    }

    /** The tag of each square of row `row`, by column. */
    function RowTags(row: int): int -> int
    {
      col => GetTag(row, col)
    }

    /** The tag of each square of column `col`, by row. */
    function ColTags(col: int): int -> int
    {
      row => GetTag(row, col)
    }

    /** Row `row` satisfies its clues when the squares in `f` are filled. */
    ghost predicate RowValidIn(f: set<int>, row: int)
      requires 0 <= row < NumRows()
    {
      Runs(Line(f, RowTags(row), NumCols())) == clues.rowClues[row]
    }

    /** Column `col` satisfies its clues when the squares in `f` are filled. */
    ghost predicate ColValidIn(f: set<int>, col: int)
      requires 0 <= col < NumCols()
    {
      Runs(Line(f, ColTags(col), NumRows())) == clues.colClues[col]
    }

    ghost predicate RowValid(row: int)
      requires 0 <= row < NumRows()
      reads this
    {
      RowValidIn(filled, row)
    }

    ghost predicate ColValid(col: int)
      requires 0 <= col < NumCols()
      reads this
    {
      ColValidIn(filled, col)
    }

    /** Every row and every column satisfies its clues when the squares in `f` are filled. */
    ghost predicate SolvedIn(f: set<int>)
    {
      (forall row :: 0 <= row < NumRows() ==> RowValidIn(f, row)) &&
      (forall col :: 0 <= col < NumCols() ==> ColValidIn(f, col))
    }

    ghost predicate Solved()
      reads this
    {
      SolvedIn(filled)
    }

    /** No row and no column has an empty clue list. */
    predicate NoEmptyClues()
    {
      (forall row :: 0 <= row < |clues.rowClues| ==> clues.rowClues[row] != []) &&
      (forall col :: 0 <= col < |clues.colClues| ==> clues.colClues[col] != [])
    }

    /** Every flag says valid. */
    ghost predicate AllSet(rowFlags: seq<bool>, colFlags: seq<bool>)
    {
      (forall row :: 0 <= row < |rowFlags| ==> rowFlags[row]) &&
      (forall col :: 0 <= col < |colFlags| ==> colFlags[col])
    }

    /** Flags that say valid are right: their lines satisfy their clues. */
    ghost predicate SoundFor(rowFlags: seq<bool>, colFlags: seq<bool>, f: set<int>)
    {
      |rowFlags| == NumRows() && |colFlags| == NumCols() &&
      (forall row :: 0 <= row < NumRows() && rowFlags[row] ==> RowValidIn(f, row)) &&
      (forall col :: 0 <= col < NumCols() && colFlags[col] ==> ColValidIn(f, col))
    }

    /** Every flag equals the validity of its line. */
    ghost predicate ConsistentFor(rowFlags: seq<bool>, colFlags: seq<bool>, f: set<int>)
    {
      |rowFlags| == NumRows() && |colFlags| == NumCols() &&
      (forall row :: 0 <= row < NumRows() ==> (rowFlags[row] <==> RowValidIn(f, row))) &&
      (forall col :: 0 <= col < NumCols() ==> (colFlags[col] <==> ColValidIn(f, col)))
    }

    ghost predicate Shaped()
      reads this
    {
      rows.Count() == NumRows() && cols.Count() == NumCols() && rows.storage != cols.storage
    }

    ghost predicate Sound()
      reads this, rows.storage, cols.storage
    {
      SoundFor(rows.storage[..], cols.storage[..], filled)
    }

    ghost predicate Consistent()
      reads this, rows.storage, cols.storage
    {
      ConsistentFor(rows.storage[..], cols.storage[..], filled)
    }

    ghost predicate Valid()
      reads this, rows.storage, cols.storage
    {
      Shaped() && Sound()
    }

    /** Toggling square `tag` changes the squares of no other row and no other column. */
    lemma ToggleKeepsOtherLines(f: set<int>, tag: int)
      requires 1 <= tag <= NumRows() * NumCols()
      ensures var row, col := (tag - 1) / NumCols(), (tag - 1) % NumCols();
                (forall r :: 0 <= r < NumRows() && r != row ==>
                   (RowValidIn(Toggled(f, tag), r) <==> RowValidIn(f, r))) &&
                (forall c :: 0 <= c < NumCols() && c != col ==>
                   (ColValidIn(Toggled(f, tag), c) <==> ColValidIn(f, c)))
    {
      Grid.TagDecomposition(tag, NumRows(), NumCols());
      var row, col := (tag - 1) / NumCols(), (tag - 1) % NumCols();
      var g := Toggled(f, tag);
      forall r | 0 <= r < NumRows() && r != row
        ensures Line(g, RowTags(r), NumCols()) == Line(f, RowTags(r), NumCols())
      {
        forall c | 0 <= c < NumCols() ensures RowTags(r)(c) != tag {
          if RowTags(r)(c) == tag {
            Grid.TagUnique(NumCols(), r, c, row, col);
          }
        }
        LineWithout(f, g, RowTags(r), NumCols(), tag);
      }
      forall c | 0 <= c < NumCols() && c != col
        ensures Line(g, ColTags(c), NumRows()) == Line(f, ColTags(c), NumRows())
      {
        forall r | 0 <= r < NumRows() ensures ColTags(c)(r) != tag {
          if ColTags(c)(r) == tag {
            Grid.TagUnique(NumCols(), r, c, row, col);
          }
        }
        LineWithout(f, g, ColTags(c), NumRows(), tag);
      }
    }

    /**
     * Re-checking the row and the column of the toggled square keeps sound flags sound and
     * consistent flags consistent.
     */
    lemma RevalidationPreserves(rowFlags: seq<bool>, colFlags: seq<bool>, f: set<int>, tag: int)
      requires 1 <= tag <= NumRows() * NumCols()
      requires |rowFlags| == NumRows() && |colFlags| == NumCols()
      ensures var g, row, col := Toggled(f, tag), (tag - 1) / NumCols(), (tag - 1) % NumCols();
                0 <= row < NumRows() && 0 <= col < NumCols() &&
                var rowFlags', colFlags' := rowFlags[row := RowValidIn(g, row)], colFlags[col := ColValidIn(g, col)];
                (SoundFor(rowFlags, colFlags, f) ==> SoundFor(rowFlags', colFlags', g)) &&
                (ConsistentFor(rowFlags, colFlags, f) ==> ConsistentFor(rowFlags', colFlags', g))
    {
      Grid.TagDecomposition(tag, NumRows(), NumCols());
      ToggleKeepsOtherLines(f, tag);
    }

    /** When the flags are sound, flags that all say valid mean the puzzle is solved. */
    lemma SoundFlagsShowSolved(rowFlags: seq<bool>, colFlags: seq<bool>, f: set<int>)
      requires SoundFor(rowFlags, colFlags, f)
      ensures AllSet(rowFlags, colFlags) ==> SolvedIn(f)
    {
    }

    /** When the flags are consistent, they all say valid exactly when the puzzle is solved. */
    lemma ConsistentFlagsDecideSolved(rowFlags: seq<bool>, colFlags: seq<bool>, f: set<int>)
      requires ConsistentFor(rowFlags, colFlags, f)
      ensures AllSet(rowFlags, colFlags) <==> SolvedIn(f)
    {
    }

    /** With no square filled, a line satisfies its clues exactly when its clue list is empty. */
    lemma EmptyGridValidity()
      ensures forall row :: 0 <= row < NumRows() ==> (RowValidIn({}, row) <==> clues.rowClues[row] == [])
      ensures forall col :: 0 <= col < NumCols() ==> (ColValidIn({}, col) <==> clues.colClues[col] == [])
    {
      forall row | 0 <= row < NumRows() ensures Runs(Line({}, RowTags(row), NumCols())) == [] {
        NothingFilledNoRuns(RowTags(row), NumCols());
      }
      forall col | 0 <= col < NumCols() ensures Runs(Line({}, ColTags(col), NumRows())) == [] {
        NothingFilledNoRuns(ColTags(col), NumRows());
      }
    }

    /**
     * The all-false flags of `init(from:)` are exact on the empty grid exactly when no line has
     * an empty clue list: a line with an empty clue list is valid but flagged invalid.
     */
    lemma FreshFlagsConsistentIff()
      ensures ConsistentFor(seq(NumRows(), _ => false), seq(NumCols(), _ => false), {}) <==> NoEmptyClues()
    {
      EmptyGridValidity();
    }

    /** `isValid`: no row flag and no column flag is false. */
    function IsValid(): (r: bool)
      reads this, rows.storage, cols.storage
      ensures r <==> AllSet(rows.storage[..], cols.storage[..])
    {
      !rows.Contains(false) && !cols.Contains(false)
    }

    /**
     * `init(from:)`: no square filled and every flag false. The flags are exact only when no
     * line has an empty clue list.
     */
    constructor (clues: PuzzleClues)
      ensures Valid()
      ensures this.clues == clues && filled == {}
      ensures fresh(rows.storage) && fresh(cols.storage)
      ensures forall row :: 0 <= row < |clues.rowClues| ==> !rows.storage[row]
      ensures forall col :: 0 <= col < |clues.colClues| ==> !cols.storage[col]
      ensures Consistent() <==> NoEmptyClues()
    {
      this.clues := clues;
      rows := new FixedLengthArray(false, |clues.rowClues|);
      cols := new FixedLengthArray(false, |clues.colClues|);
      filled := {};
      new;
      assert rows.storage[..] == seq(NumRows(), _ => false);
      assert cols.storage[..] == seq(NumCols(), _ => false);
      FreshFlagsConsistentIff();
    }

    /**
     * The intended start state: no square filled, and each flag the validity of its line on
     * the empty grid, so that the flags are exact from the start.
     */
    constructor Exact(clues: PuzzleClues)
      ensures Valid() && Consistent()
      ensures this.clues == clues && filled == {}
      ensures fresh(rows.storage) && fresh(cols.storage)
      ensures forall row :: 0 <= row < |clues.rowClues| ==> (rows.storage[row] <==> clues.rowClues[row] == [])
      ensures forall col :: 0 <= col < |clues.colClues| ==> (cols.storage[col] <==> clues.colClues[col] == [])
    {
      this.clues := clues;
      rows := new FixedLengthArray.FromStorage(EmptyClueFlags(clues.rowClues));
      cols := new FixedLengthArray.FromStorage(EmptyClueFlags(clues.colClues));
      filled := {};
      new;
      EmptyGridValidity();
    }

    /** `validate(row:)`. */
    method ValidateRow(row: int) returns (ok: bool)
      requires 0 <= row < NumRows()
      ensures ok <==> RowValid(row)
    {
      ok := ValidateLine(clues.rowClues[row], NumCols(), RowTags(row), filled);
    }

    /** `validate(col:)`. */
    method ValidateCol(col: int) returns (ok: bool)
      requires 0 <= col < NumCols()
      ensures ok <==> ColValid(col)
    {
      ok := ValidateLine(clues.colClues[col], NumRows(), ColTags(col), filled);
    }

    /**
     * `toggle(square:)`: fills or empties square `tag`, re-checks its row and its column,
     * and answers whether the whole puzzle is now valid.
     */
    method Toggle(tag: int) returns (ok: bool)
      requires Valid()
      requires 1 <= tag <= NumRows() * NumCols()
      modifies this, rows.storage, cols.storage
      ensures Valid()
      ensures filled == Toggled(old(filled), tag)
      ensures var row, col := (tag - 1) / NumCols(), (tag - 1) % NumCols();
                0 <= row < NumRows() && 0 <= col < NumCols() &&
                rows.storage[..] == old(rows.storage[..])[row := RowValid(row)] &&
                cols.storage[..] == old(cols.storage[..])[col := ColValid(col)]
      ensures ok <==> IsValid()
      ensures ok ==> Solved()
      ensures old(Consistent()) ==> Consistent() && (ok <==> Solved())
    {
      RevalidationPreserves(rows.storage[..], cols.storage[..], filled, tag);
      filled := SetToggle.Toggle(filled, tag);
      Grid.TagDecomposition(tag, NumRows(), NumCols());
      var row := (tag - 1) / NumCols();
      var col := (tag - 1) % NumCols();
      var rowOk := ValidateRow(row);
      rows.Set(row, rowOk);
      var colOk := ValidateCol(col);
      cols.Set(col, colOk);
      SoundFlagsShowSolved(rows.storage[..], cols.storage[..], filled);
      if Consistent() {
        ConsistentFlagsDecideSolved(rows.storage[..], cols.storage[..], filled);
      }
      if !(rows.Get(row) && cols.Get(col)) {
        return false;
      }
      return IsValid();
    }
  }

  /** A one-row, two-column puzzle whose second column has an empty clue list. */
  const EmptyColumnClues := PuzzleClues(Uuid(0), [[1]], [[1], []])

  /**
   * As written: filling the only square the clues ask for solves the puzzle, yet `toggle`
   * answers false, because column 1 was never re-checked and keeps its initial false flag.
   */
  method EmptyColumnMisjudged() returns (v: PuzzleValidator, ok: bool)
    ensures v.clues == EmptyColumnClues && v.filled == {1}
    ensures v.Solved() && !ok
  {
    v := new PuzzleValidator(EmptyColumnClues);
    ok := v.Toggle(1);
    assert v.cols.storage[1] == false;
    assert Line({1}, v.ColTags(1), 1) == [false];
    assert Line({1}, v.RowTags(0), 2) == [true, false];
    assert Line({1}, v.ColTags(0), 1) == [true];
    RunsSolid(1);
    assert Runs([true, false]) == Runs([true] + [false] + []) == [1] by {
      RunsSplit([true], []);
    }
  }

  /** Corrected: started from `Exact`, the same move answers true on the same puzzle. */
  method EmptyColumnJudgedExactly() returns (v: PuzzleValidator, ok: bool)
    ensures v.clues == EmptyColumnClues && v.filled == {1}
    ensures v.Solved() && ok
  {
    v := new PuzzleValidator.Exact(EmptyColumnClues);
    ok := v.Toggle(1);
    assert Line({1}, v.ColTags(1), 1) == [false];
    assert Line({1}, v.RowTags(0), 2) == [true, false];
    assert Line({1}, v.ColTags(0), 1) == [true];
    RunsSolid(1);
    assert Runs([true, false]) == Runs([true] + [false] + []) == [1] by {
      RunsSplit([true], []);
    }
  }
}
