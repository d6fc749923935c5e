/**
 * Checking one row or column of a nonogram against its clue list.
 *
 * A line is the sequence of its squares in coordinate order, true where the square is filled.
 * Its clue list is satisfied when the lengths of its maximal runs of filled squares, read left
 * to right, are exactly the clue list. `Runs` defines those lengths; `ValidateLine` is the
 * single left-to-right scan with early exits that both puzzle validators run.
 */
module LineScan {

  /** The squares `tag(0)`, ..., `tag(numSquares - 1)` of a line, true where the square is in `filled`. */
  function Line(filled: set<int>, tag: int -> int, numSquares: nat): (line: seq<bool>)
    ensures |line| == numSquares
    ensures forall i :: 0 <= i < numSquares ==> (line[i] <==> tag(i) in filled)
  {
    seq(numSquares, i => tag(i) in filled)
  }

  /** The run of length `current` when it ends: nothing if no run was in progress. */
  function Close(current: nat): seq<int>
  {
    if current > 0 then [current] else []
  }

  /**
   * The lengths of the maximal runs of filled squares of `line`, in order, when a run of
   * `current` filled squares ends just before `line` starts.
   */
  function RunsFrom(line: seq<bool>, current: nat): seq<int>
    decreases |line|
  {
    if |line| == 0 then Close(current)
    else if line[0] then RunsFrom(line[1..], current + 1)
    else Close(current) + RunsFrom(line[1..], 0)
  }

  /** The lengths of the maximal runs of filled squares of `line`, left to right. */
  function Runs(line: seq<bool>): seq<int>
  {
    RunsFrom(line, 0)
  }

  /** A line with no filled square. */
  function Blank(n: nat): (line: seq<bool>)
    ensures |line| == n && forall i :: 0 <= i < n ==> !line[i]
  {
    seq(n, _ => false)
  }

  /** A line of `n` filled squares. */
  function Solid(n: nat): (line: seq<bool>)
    ensures |line| == n && forall i :: 0 <= i < n ==> line[i]
  {
    seq(n, _ => true)
  }

  /** Every recorded run is positive. */
  lemma {:induction false} RunsFromPositive(line: seq<bool>, current: nat)
    ensures forall k :: 0 <= k < |RunsFrom(line, current)| ==> RunsFrom(line, current)[k] > 0
    decreases |line|
  {
    if |line| > 0 {
      if line[0] {
        RunsFromPositive(line[1..], current + 1);
      } else {
        RunsFromPositive(line[1..], 0);
      }
    }
  }

  /** A run in progress is recorded first, with at least its current length. */
  lemma {:induction false} RunsFromHead(line: seq<bool>, current: nat)
    requires current > 0
    ensures |RunsFrom(line, current)| > 0 && RunsFrom(line, current)[0] >= current
    decreases |line|
  {
    if |line| > 0 && line[0] {
      RunsFromHead(line[1..], current + 1);
    }
  }

  /** A line has no runs exactly when none of its squares is filled. */
  lemma {:induction false} RunsEmptyIffBlank(line: seq<bool>)
    ensures Runs(line) == [] <==> forall i :: 0 <= i < |line| ==> !line[i]
    decreases |line|
  {
    if |line| > 0 {
      if line[0] {
        RunsFromHead(line[1..], 1);
      } else {
        RunsEmptyIffBlank(line[1..]);
        assert forall i :: 1 <= i < |line| ==> line[i] == line[1..][i - 1];
      }
    }
  }

  lemma {:induction false} RunsFromSplit(a: seq<bool>, b: seq<bool>, current: nat)
    ensures RunsFrom(a + [false] + b, current) == RunsFrom(a, current) + Runs(b)
    decreases |a|
  {
    var line := a + [false] + b;
    if |a| == 0 {
      assert line[1..] == b;
    } else {
      assert line[1..] == a[1..] + [false] + b;
      if a[0] {
        RunsFromSplit(a[1..], b, current + 1);
      } else {
        RunsFromSplit(a[1..], b, 0);
      }
    }
  }

  /** An empty square separates runs: the runs of both sides are concatenated. */
  lemma RunsSplit(a: seq<bool>, b: seq<bool>)
    ensures Runs(a + [false] + b) == Runs(a) + Runs(b)
  {
    RunsFromSplit(a, b, 0);
  }

  lemma {:induction false} RunsFromSolid(n: nat, current: nat)
    requires n + current > 0
    ensures RunsFrom(Solid(n), current) == [n + current]
    decreases n
  {
    if n > 0 {
      assert Solid(n)[1..] == Solid(n - 1);
      RunsFromSolid(n - 1, current + 1);
    }
  }

  /** A block of `n > 0` filled squares is one run of length `n`. */
  lemma RunsSolid(n: nat)
    requires n > 0
    ensures Runs(Solid(n)) == [n]
  {
    RunsFromSolid(n, 0);
  }

  /** With no square filled, every line has no runs. */
  lemma NothingFilledNoRuns(tag: int -> int, numSquares: nat)
    ensures Runs(Line({}, tag, numSquares)) == []
  {
    RunsEmptyIffBlank(Line({}, tag, numSquares));
  }

  /** The flag of each line set exactly when its clue list is empty. */
  function EmptyClueFlags(lineClues: seq<seq<int>>): (flags: seq<bool>)
    ensures |flags| == |lineClues|
    ensures forall i :: 0 <= i < |lineClues| ==> (flags[i] <==> lineClues[i] == [])
  {
    seq(|lineClues|, i requires 0 <= i < |lineClues| => lineClues[i] == [])
  }

  /** An empty clue list is satisfied exactly by a line with no filled square. */
  lemma EmptyClueIffBlank(line: seq<bool>)
    ensures Runs(line) == [] <==> line == Blank(|line|)
  {
    RunsEmptyIffBlank(line);
  }

  /** A clue list holding a number below 1 is satisfied by no line. */
  lemma NonPositiveClueUnsatisfiable(line: seq<bool>, clues: seq<int>)
    requires exists k :: 0 <= k < |clues| && clues[k] <= 0
    ensures Runs(line) != clues
  {
    RunsFromPositive(line, 0);
  }

  /**
   * The scan of `_validate`: walks the squares of a line in order, keeping the runs already
   * closed (`stretches`) and the length of the run in progress (`stretch`), and answers
   * false as soon as the line cannot match `clues`. The early answers never differ from
   * the full comparison of the line's runs with the clue list.
   */
  method ValidateLine(clues: seq<int>, numSquares: nat, tag: int -> int, filled: set<int>)
    returns (ok: bool)
    ensures ok <==> Runs(Line(filled, tag, numSquares)) == clues
  {
    ghost var line := Line(filled, tag, numSquares);
    var stretches: seq<int> := [];
    var stretch: nat := 0;
    for i := 0 to numSquares
      invariant Runs(line) == stretches + RunsFrom(line[i..], stretch)
      invariant |stretches| <= |clues| && stretches == clues[..|stretches|]
      invariant stretch > 0 ==> |stretches| < |clues| && stretch <= clues[|stretches|]
    {
      assert line[i..][0] == line[i] && line[i..][1..] == line[i + 1..];
      var squareIsFilled := tag(i) in filled;
      if squareIsFilled {
        if |stretches| >= |clues| {
          // A new run starts after every clue is used up.
          RunsFromHead(line[i + 1..], stretch + 1);
          assert |Runs(line)| > |clues|;
          return false;
        }
        stretch := stretch + 1;
        if stretch > clues[|stretches|] {
          // The run in progress is already longer than its clue.
          RunsFromHead(line[i + 1..], stretch);
          assert Runs(line)[|stretches|] >= stretch;
          return false;
        }
      } else if stretch > 0 {
        if clues[|stretches|] != stretch {
          // The run that just ended is shorter than its clue.
          assert Runs(line)[|stretches|] == stretch;
          return false;
        }
        stretches := stretches + [stretch];
        stretch := 0;
      }
    }
    assert line[numSquares..] == [];
    if stretch > 0 {
      stretches := stretches + [stretch];
    }
    return clues == stretches;
  }

  /** A line that does not contain `tag` reads the same after `tag` is toggled. */
  lemma LineWithout(filled: set<int>, changed: set<int>, tag: int -> int, numSquares: nat, t: int)
    requires forall i :: 0 <= i < numSquares ==> tag(i) != t
    requires forall x :: x != t ==> (x in changed <==> x in filled)
    ensures Line(changed, tag, numSquares) == Line(filled, tag, numSquares)
  {
  }
}
