/**
 * The fill state of one puzzle square and the two brushes that change it
 * (`PuzzleFillMode`, `PuzzleSquareFillState.setNewState(for:)`).
 */
module PuzzleSquare {

  datatype PuzzleFillMode = Ex | Fill

  datatype PuzzleSquareFillState = Filled | Empty | Exed

  /**
   * The state `setNewState(for: mode)` moves a square to. Each brush swaps empty with its own
   * mark (fill: empty and filled; ex: empty and exed) and leaves the other brush's mark alone.
   */
  function NewState(state: PuzzleSquareFillState, mode: PuzzleFillMode): (r: PuzzleSquareFillState)
    ensures mode == Fill ==> (r == Exed <==> state == Exed)
    ensures mode == Ex ==> (r == Filled <==> state == Filled)
    ensures mode == Fill && state != Exed ==> r != state
    ensures mode == Ex && state != Filled ==> r != state
  {
    match mode
    case Fill =>
      (match state
       case Filled => Empty
       case Empty => Filled
       case Exed => Exed)
    case Ex =>
      (match state
       case Empty => Exed
       case Exed => Empty
       case Filled => Filled)
  }

  /** Applying the same brush twice gives back the original state. */
  lemma NewStateTwice(state: PuzzleSquareFillState, mode: PuzzleFillMode)
    ensures NewState(NewState(state, mode), mode) == state
  {
  }
}
