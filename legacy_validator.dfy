/**
 * The older `PuzzleValidator` over `PuzzleRules`. It runs the same scan as the newer one, but
 * its `getTag` multiplies the row by the number of ROWS while `toggle` splits a tag by the
 * number of COLUMNS. The two agree only on square grids, one-row grids and grids without
 * columns; elsewhere a row or column is checked against squares that do not belong to it.
 */
module LegacyValidator {
  import opened FixedArray
  import opened SetToggle
  import opened LineScan
  import Grid

  /** One rule (clue list) per row, top to bottom, and one per column, left to right. */
  datatype PuzzleRules = PuzzleRules(rowRules: seq<seq<int>>, colRules: seq<seq<int>>)

  function NumRows(rules: PuzzleRules): (n: nat)
    ensures n == |rules.rowRules|
  {
    |rules.rowRules|
  }

  function NumCols(rules: PuzzleRules): (n: nat)
    ensures n == |rules.colRules|
  {
    |rules.colRules|
  }

  predicate IsSquare(rules: PuzzleRules)
  {
    NumRows(rules) == NumCols(rules)
  }

  /**
   * `getTag` as written: `numRows * row + col + 1`. On a square grid it is the row-major tag,
   * which `toggle`'s split by the number of columns inverts.
   */
  function GetTag(rules: PuzzleRules, row: int, col: int): (t: int)
    ensures IsSquare(rules) && 0 <= row < NumRows(rules) && 0 <= col < NumCols(rules) ==>
              1 <= t <= NumRows(rules) * NumCols(rules) &&
              (t - 1) / NumCols(rules) == row && (t - 1) % NumCols(rules) == col
  {
    if IsSquare(rules) && 0 <= row < NumRows(rules) && 0 <= col < NumCols(rules) then
      Grid.TagOfSquare(row, col, NumRows(rules), NumCols(rules));
      NumRows(rules) * row + col + 1
    else
      NumRows(rules) * row + col + 1
  }

  function RowTags(rules: PuzzleRules, row: int): int -> int
  {
    col => GetTag(rules, row, col)
  }

  function ColTags(rules: PuzzleRules, col: int): int -> int
  {
    row => GetTag(rules, row, col)
  }

  /** What `validate(row:)` decides for row `row` when the squares in `f` are filled. */
  ghost predicate RowValidIn(rules: PuzzleRules, f: set<int>, row: int)
    requires 0 <= row < NumRows(rules)
  {
    Runs(Line(f, RowTags(rules, row), NumCols(rules))) == rules.rowRules[row]
  }

  /** What `validate(col:)` decides for column `col` when the squares in `f` are filled. */
  ghost predicate ColValidIn(rules: PuzzleRules, f: set<int>, col: int)
    requires 0 <= col < NumCols(rules)
  {
    Runs(Line(f, ColTags(rules, col), NumRows(rules))) == rules.colRules[col]
  }

  ghost predicate SolvedIn(rules: PuzzleRules, f: set<int>)
  {
    (forall row :: 0 <= row < NumRows(rules) ==> RowValidIn(rules, f, row)) &&
    (forall col :: 0 <= col < NumCols(rules) ==> ColValidIn(rules, f, col))
  }

  /** No row rule and no column rule is empty. */
  predicate NoEmptyRules(rules: PuzzleRules)
  {
    (forall row :: 0 <= row < |rules.rowRules| ==> rules.rowRules[row] != []) &&
    (forall col :: 0 <= col < |rules.colRules| ==> rules.colRules[col] != [])
  }

  /** With no square filled, a line satisfies its rule exactly when the rule is empty, whatever tags it reads. */
  lemma EmptyGridValidity(rules: PuzzleRules)
    ensures forall row :: 0 <= row < NumRows(rules) ==> (RowValidIn(rules, {}, row) <==> rules.rowRules[row] == [])
    ensures forall col :: 0 <= col < NumCols(rules) ==> (ColValidIn(rules, {}, col) <==> rules.colRules[col] == [])
  {
    forall row | 0 <= row < NumRows(rules) ensures Runs(Line({}, RowTags(rules, row), NumCols(rules))) == [] {
      NothingFilledNoRuns(RowTags(rules, row), NumCols(rules));
    }
    forall col | 0 <= col < NumCols(rules) ensures Runs(Line({}, ColTags(rules, col), NumRows(rules))) == [] {
      NothingFilledNoRuns(ColTags(rules, col), NumRows(rules));
    }
  }

  /** The all-false flags of `init(from:)` are exact on the empty grid exactly when no rule is empty. */
  lemma FreshFlagsConsistentIff(rules: PuzzleRules)
    ensures ConsistentFor(rules, seq(NumRows(rules), _ => false), seq(NumCols(rules), _ => false), {})
            <==> NoEmptyRules(rules)
  {
    EmptyGridValidity(rules);
  }

  ghost predicate AllSet(rowFlags: seq<bool>, colFlags: seq<bool>)
  {
    (forall row :: 0 <= row < |rowFlags| ==> rowFlags[row]) &&
    (forall col :: 0 <= col < |colFlags| ==> colFlags[col])
  }

  ghost predicate SoundFor(rules: PuzzleRules, rowFlags: seq<bool>, colFlags: seq<bool>, f: set<int>)
  {
    |rowFlags| == NumRows(rules) && |colFlags| == NumCols(rules) &&
    (forall row :: 0 <= row < NumRows(rules) && rowFlags[row] ==> RowValidIn(rules, f, row)) &&
    (forall col :: 0 <= col < NumCols(rules) && colFlags[col] ==> ColValidIn(rules, f, col))
  }

  ghost predicate ConsistentFor(rules: PuzzleRules, rowFlags: seq<bool>, colFlags: seq<bool>, f: set<int>)
  {
    |rowFlags| == NumRows(rules) && |colFlags| == NumCols(rules) &&
    (forall row :: 0 <= row < NumRows(rules) ==> (rowFlags[row] <==> RowValidIn(rules, f, row))) &&
    (forall col :: 0 <= col < NumCols(rules) ==> (colFlags[col] <==> ColValidIn(rules, f, col)))
  }

  /**
   * The tag formula of `getTag` agrees with `toggle`'s row-major split on every square of the
   * grid exactly when the grid is square, has at most one row, or has no column.
   */
  lemma GetTagAgreesIff(rules: PuzzleRules)
    ensures (forall row, col :: 0 <= row < NumRows(rules) && 0 <= col < NumCols(rules) ==>
               GetTag(rules, row, col) == NumCols(rules) * row + col + 1)
            <==> (IsSquare(rules) || NumRows(rules) <= 1 || NumCols(rules) == 0)
  {
    if !(IsSquare(rules) || NumRows(rules) <= 1 || NumCols(rules) == 0) {
      assert GetTag(rules, 1, 0) != NumCols(rules) * 1 + 0 + 1;
    }
  }

  /**
   * A 2-by-1 grid whose only filled square is its solution (tag 2, the bottom square):
   * `toggle(2)` re-checks row 1, but `getTag(1, 0)` is 3, so the satisfied row is judged
   * invalid, while the row-major tags of that row would satisfy its rule.
   */
  lemma TallGridRowMisjudged()
    ensures var rules := PuzzleRules([[], [1]], [[1]]);
            (2 - 1) / NumCols(rules) == 1 && (2 - 1) % NumCols(rules) == 0 &&
            GetTag(rules, 1, 0) == 3 &&
            !RowValidIn(rules, {2}, 1) &&
            Runs(Line({2}, col => NumCols(rules) * 1 + col + 1, NumCols(rules))) == rules.rowRules[1]
  {
    var rules := PuzzleRules([[], [1]], [[1]]);
    assert Line({2}, RowTags(rules, 1), 1) == [false];
    assert Line({2}, col => NumCols(rules) * 1 + col + 1, 1) == [true];
  }

  /** On a square grid, toggling square `tag` changes the squares of no other row and no other column. */
  lemma ToggleKeepsOtherLines(rules: PuzzleRules, f: set<int>, tag: int)
    requires IsSquare(rules)
    requires 1 <= tag <= NumRows(rules) * NumCols(rules)
    ensures var row, col := (tag - 1) / NumCols(rules), (tag - 1) % NumCols(rules);
              (forall r :: 0 <= r < NumRows(rules) && r != row ==>
                 (RowValidIn(rules, Toggled(f, tag), r) <==> RowValidIn(rules, f, r))) &&
              (forall c :: 0 <= c < NumCols(rules) && c != col ==>
                 (ColValidIn(rules, Toggled(f, tag), c) <==> ColValidIn(rules, f, c)))
  {
    var n := NumCols(rules);
    Grid.TagDecomposition(tag, NumRows(rules), n);
    var row, col := (tag - 1) / n, (tag - 1) % n;
    var g := Toggled(f, tag);
    forall r | 0 <= r < NumRows(rules) && r != row
      ensures Line(g, RowTags(rules, r), n) == Line(f, RowTags(rules, r), n)
    {
      forall c | 0 <= c < n ensures RowTags(rules, r)(c) != tag {
        if RowTags(rules, r)(c) == tag {
          Grid.TagUnique(n, r, c, row, col);
        }
      }
      LineWithout(f, g, RowTags(rules, r), n, tag);
    }
    forall c | 0 <= c < n && c != col
      ensures Line(g, ColTags(rules, c), NumRows(rules)) == Line(f, ColTags(rules, c), NumRows(rules))
    {
      forall r | 0 <= r < NumRows(rules) ensures ColTags(rules, c)(r) != tag {
        if ColTags(rules, c)(r) == tag {
          Grid.TagUnique(n, r, c, row, col);
        }
      }
      LineWithout(f, g, ColTags(rules, c), NumRows(rules), tag);
    }
  }

  /** On a square grid, re-checking the toggled square's row and column keeps sound and consistent flags so. */
  lemma RevalidationPreserves(rules: PuzzleRules, rowFlags: seq<bool>, colFlags: seq<bool>, f: set<int>, tag: int)
    requires IsSquare(rules)
    requires 1 <= tag <= NumRows(rules) * NumCols(rules)
    requires |rowFlags| == NumRows(rules) && |colFlags| == NumCols(rules)
    ensures var g, row, col := Toggled(f, tag), (tag - 1) / NumCols(rules), (tag - 1) % NumCols(rules);
              0 <= row < NumRows(rules) && 0 <= col < NumCols(rules) &&
              var rowFlags', colFlags' := rowFlags[row := RowValidIn(rules, g, row)], colFlags[col := ColValidIn(rules, g, col)];
              (SoundFor(rules, rowFlags, colFlags, f) ==> SoundFor(rules, rowFlags', colFlags', g)) &&
              (ConsistentFor(rules, rowFlags, colFlags, f) ==> ConsistentFor(rules, rowFlags', colFlags', g))
  {
    Grid.TagDecomposition(tag, NumRows(rules), NumCols(rules));
    ToggleKeepsOtherLines(rules, f, tag);
  }

  lemma SoundFlagsShowSolved(rules: PuzzleRules, rowFlags: seq<bool>, colFlags: seq<bool>, f: set<int>)
    requires SoundFor(rules, rowFlags, colFlags, f)
    ensures AllSet(rowFlags, colFlags) ==> SolvedIn(rules, f)
  {
  }

  lemma ConsistentFlagsDecideSolved(rules: PuzzleRules, rowFlags: seq<bool>, colFlags: seq<bool>, f: set<int>)
    requires ConsistentFor(rules, rowFlags, colFlags, f)
    ensures AllSet(rowFlags, colFlags) <==> SolvedIn(rules, f)
  {
  }

  class PuzzleValidator {
    const rows: FixedLengthArray<bool>
    const cols: FixedLengthArray<bool>
    const rules: PuzzleRules
    var filled: set<int>

    ghost predicate Shaped()
      reads this
    {
      rows.Count() == NumRows(rules) && cols.Count() == NumCols(rules) && rows.storage != cols.storage
    }

    ghost predicate Sound()
      reads this, rows.storage, cols.storage
    {
      SoundFor(rules, rows.storage[..], cols.storage[..], filled)
    }

    ghost predicate Consistent()
      reads this, rows.storage, cols.storage
    {
      ConsistentFor(rules, rows.storage[..], cols.storage[..], filled)
    }

    /** Flags are sound on square grids; on other grids `toggle` checks the wrong squares. */
    ghost predicate Valid()
      reads this, rows.storage, cols.storage
    {
      Shaped() && (IsSquare(rules) ==> Sound())
    }

    function IsValid(): (r: bool)
      reads this, rows.storage, cols.storage
      ensures r <==> AllSet(rows.storage[..], cols.storage[..])
    {
      !rows.Contains(false) && !cols.Contains(false)
    }

    /**
     * `init(from:)`: no square filled, every flag false. The flags are exact only when no rule
     * is empty.
     */
    constructor (rules: PuzzleRules)
      ensures Valid() && Sound()
      ensures this.rules == rules && filled == {}
      ensures fresh(rows.storage) && fresh(cols.storage)
      ensures forall row :: 0 <= row < |rules.rowRules| ==> !rows.storage[row]
      ensures forall col :: 0 <= col < |rules.colRules| ==> !cols.storage[col]
      ensures Consistent() <==> NoEmptyRules(rules)
    {
      this.rules := rules;
      rows := new FixedLengthArray(false, |rules.rowRules|);
      cols := new FixedLengthArray(false, |rules.colRules|);
      filled := {};
      new;
      assert rows.storage[..] == seq(NumRows(rules), _ => false);
      assert cols.storage[..] == seq(NumCols(rules), _ => false);
      FreshFlagsConsistentIff(rules);
    }

    method ValidateRow(row: int) returns (ok: bool)
      requires 0 <= row < NumRows(rules)
      ensures ok <==> RowValidIn(rules, filled, row)
    {
      ok := ValidateLine(rules.rowRules[row], NumCols(rules), RowTags(rules, row), filled);
    }

    method ValidateCol(col: int) returns (ok: bool)
      requires 0 <= col < NumCols(rules)
      ensures ok <==> ColValidIn(rules, filled, col)
    {
      ok := ValidateLine(rules.colRules[col], NumRows(rules), ColTags(rules, col), filled);
    }

    /**
     * `toggle(square:)`: flips square `tag`, re-checks row `(tag - 1) / numCols` and column
     * `(tag - 1) % numCols` with the tags of `getTag`, and answers whether every flag is set.
     */
    method Toggle(tag: int) returns (ok: bool)
      requires Valid()
      requires 1 <= tag <= NumRows(rules) * NumCols(rules)
      modifies this, rows.storage, cols.storage
      ensures Valid()
      ensures filled == Toggled(old(filled), tag)
      ensures var row, col := (tag - 1) / NumCols(rules), (tag - 1) % NumCols(rules);
                0 <= row < NumRows(rules) && 0 <= col < NumCols(rules) &&
                rows.storage[..] == old(rows.storage[..])[row := RowValidIn(rules, filled, row)] &&
                cols.storage[..] == old(cols.storage[..])[col := ColValidIn(rules, filled, col)]
      ensures ok <==> IsValid()
      ensures IsSquare(rules) && ok ==> SolvedIn(rules, filled)
      ensures IsSquare(rules) && old(Consistent()) ==> Consistent() && (ok <==> SolvedIn(rules, filled))
    {
      if IsSquare(rules) {
        RevalidationPreserves(rules, rows.storage[..], cols.storage[..], filled, tag);
      }
      filled := SetToggle.Toggle(filled, tag);
      Grid.TagDecomposition(tag, NumRows(rules), NumCols(rules));
      var row := (tag - 1) / NumCols(rules);
      var col := (tag - 1) % NumCols(rules);
      var rowOk := ValidateRow(row);
      rows.Set(row, rowOk);
      var colOk := ValidateCol(col);
      cols.Set(col, colOk);
      if IsSquare(rules) {
        SoundFlagsShowSolved(rules, rows.storage[..], cols.storage[..], filled);
        if Consistent() {
          ConsistentFlagsDecideSolved(rules, rows.storage[..], cols.storage[..], filled);
        }
      }
      if !(rows.Get(row) && cols.Get(col)) {
        return false;
      }
      return IsValid();
    }
  }
}
