/**
 * The puzzle definition the engine reads. The Swift type `PuzzleClues` is declared here only
 * as far as the validator and the progress tracker use it: its identity and its clues.
 */
module Puzzles {

  /** A puzzle's stable identity (a 128-bit UUID); the engine only compares identities. */
  datatype Uuid = Uuid(bits: bv128)

  /** One clue list per row, top to bottom, and one per column, left to right. */
  datatype PuzzleClues = PuzzleClues(id: Uuid, rowClues: seq<seq<int>>, colClues: seq<seq<int>>)
}
