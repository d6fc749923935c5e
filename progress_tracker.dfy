/**
 * `ProgressTracker`: which puzzles of each board size the player has completed, and how far
 * along the list of that size the player has unlocked (`upTo`, exclusive). Puzzles unlock one
 * at a time: every puzzle before `upTo` counts as completed, the puzzle at `upTo` is open, and
 * the ones after it stay locked unless their id was completed.
 */
module Progress {
  import opened Wrappers
  import opened Puzzles
  import opened TupleKey

  datatype PuzzleState = Locked | Unlocked(completed: bool)

  /** How far a puzzle has come: locked, then open, then completed. */
  function Rank(state: PuzzleState): nat
  {
    match state
    case Locked => 0
    case Unlocked(completed) => if completed then 2 else 1
  }

  /** `selections`: the board sizes the tracker keeps progress for. */
  const Selections: seq<TwoIntTuple> :=
    [TwoIntTuple(5, 5), TwoIntTuple(10, 10), TwoIntTuple(15, 15), TwoIntTuple(20, 20), TwoIntTuple(25, 25)]

  /** The value saved under the key of `selection`, or `default` when nothing was saved. */
  function Saved<V>(saved: map<TwoIntTuple, V>, selection: TwoIntTuple, default: V): V
  {
    if selection in saved then saved[selection] else default
  }

  /**
   * `base` with the entry of every selection in `selections` replaced by its saved value,
   * assigned one selection after another as the loop of `loadProgress()` does.
   */
  function Restore<V>(base: map<TwoIntTuple, V>, selections: seq<TwoIntTuple>, saved: map<TwoIntTuple, V>, default: V)
    : (r: map<TwoIntTuple, V>)
    ensures forall s :: s in r <==> s in base || s in selections
    ensures forall s :: s in selections ==> r[s] == Saved(saved, s, default)
    ensures forall s :: s in base && s !in selections ==> r[s] == base[s]
    decreases |selections|
  {
    if selections == [] then base
    else
      var last := selections[|selections| - 1];
      var init := selections[..|selections| - 1];
      assert forall s :: s in selections <==> s in init || s == last;
      Restore(base, init, saved, default)[last := Saved(saved, last, default)]
  }

  /** Restoring one more selection is one more assignment. */
  lemma RestoreStep<V>(base: map<TwoIntTuple, V>, selections: seq<TwoIntTuple>, k: nat,
                       saved: map<TwoIntTuple, V>, default: V)
    requires k < |selections|
    ensures Restore(base, selections[..k + 1], saved, default) ==
            Restore(base, selections[..k], saved, default)[selections[k] := Saved(saved, selections[k], default)]
  {
    assert selections[..k + 1][..k] == selections[..k];
  }

  /** `completed[selection]?.insert(uuid)`: nothing happens when the selection has no entry. */
  function InsertCompleted(completed: map<TwoIntTuple, set<Uuid>>, selection: TwoIntTuple, uuid: Uuid)
    : (r: map<TwoIntTuple, set<Uuid>>)
    ensures r.Keys == completed.Keys
    ensures selection in completed ==> r[selection] == completed[selection] + {uuid}
    ensures forall s :: s in completed && s != selection ==> r[s] == completed[s]
  {
    if selection in completed then completed[selection := completed[selection] + {uuid}] else completed
  }

  class ProgressTracker {
    /** The puzzle lists by board size, as `PuzzlesLoader` would load them. */
    const puzzles: map<TwoIntTuple, seq<PuzzleClues>>
    /** The ids of the completed puzzles, by board size. */
    var completed: map<TwoIntTuple, set<Uuid>>
    /** The index of the first puzzle not yet unlocked as completed, by board size. */
    var upToDict: map<TwoIntTuple, nat>

    /** `getPuzzles(for:) ?? []`. */
    function PuzzlesFor(selection: TwoIntTuple): (r: seq<PuzzleClues>)
      ensures selection in puzzles ==> r == puzzles[selection]
      ensures selection !in puzzles ==> r == []
    {
      if selection in puzzles then puzzles[selection] else []
    }

    /** `completed[selection] ?? []`. */
    function CompletedIn(selection: TwoIntTuple): (r: set<Uuid>)
      reads this
      ensures selection in completed ==> r == completed[selection]
      ensures selection !in completed ==> r == {}
    {
      if selection in completed then completed[selection] else {}
    }

    /** `upToDict[selection] ?? 0`. */
    function UpTo(selection: TwoIntTuple): (r: nat)
      reads this
      ensures selection in upToDict ==> r == upToDict[selection]
      ensures selection !in upToDict ==> r == 0
    {
      if selection in upToDict then upToDict[selection] else 0
    }

    /**
     * `getState(for:in:)`. A puzzle past the end of the list is locked; a puzzle whose id was
     * completed, or that lies before the frontier, is completed; the puzzle at the frontier is
     * open; every other puzzle is locked.
     */
    function GetState(i: int, selection: TwoIntTuple): (r: PuzzleState)
      requires i >= 0
      reads this
      ensures r == Unlocked(true) <==>
                i < |PuzzlesFor(selection)| &&
                (PuzzlesFor(selection)[i].id in CompletedIn(selection) || i < UpTo(selection))
      ensures r == Unlocked(false) <==>
                i < |PuzzlesFor(selection)| &&
                PuzzlesFor(selection)[i].id !in CompletedIn(selection) && i == UpTo(selection)
      ensures r == Locked <==>
                i >= |PuzzlesFor(selection)| ||
                (PuzzlesFor(selection)[i].id !in CompletedIn(selection) && i > UpTo(selection))
    {
      var puzzles := PuzzlesFor(selection);
      if |puzzles| <= i then Locked
      else
        var uuid := puzzles[i].id;
        if uuid in CompletedIn(selection) || i < UpTo(selection) then Unlocked(true)
        else if i == UpTo(selection) then Unlocked(false)
        else Locked
    }

    /**
     * `getNextUUID(for:)`: the id of the puzzle at the frontier, nil when the frontier is past
     * the end of the list. That puzzle is never locked.
     */
    function GetNextUuid(selection: TwoIntTuple): (r: Option<Uuid>)
      reads this
      ensures r.Some? <==> UpTo(selection) < |PuzzlesFor(selection)|
      ensures r.Some? ==> r.value == PuzzlesFor(selection)[UpTo(selection)].id
      ensures r.Some? ==> GetState(UpTo(selection), selection) != Locked
    {
      var puzzles := PuzzlesFor(selection);
      var upTo := UpTo(selection);
      if upTo < |puzzles| then Some(puzzles[upTo].id) else None
    }

    /** Unlocking is sequential: at most one puzzle of a board size is open and not completed. */
    lemma OneOpenPuzzle(selection: TwoIntTuple, i: int, j: int)
      requires i >= 0 && j >= 0
      requires GetState(i, selection) == Unlocked(false) && GetState(j, selection) == Unlocked(false)
      ensures i == j
    {
    }

    /** Every puzzle before the frontier counts as completed, and the one after it is locked unless completed. */
    lemma FrontierSplitsList(selection: TwoIntTuple)
      ensures forall i :: 0 <= i < UpTo(selection) && i < |PuzzlesFor(selection)| ==>
                GetState(i, selection) == Unlocked(true)
      ensures forall i :: UpTo(selection) < i < |PuzzlesFor(selection)| ==>
                (GetState(i, selection) == Locked <==> PuzzlesFor(selection)[i].id !in CompletedIn(selection))
    {
    }

    /**
     * `loadProgress()`: for each of the five selections, the ids and the frontier saved under
     * its keys, or none and 0 when nothing was saved. The entries of other board sizes are kept.
     */
    method LoadProgress(savedIds: map<TwoIntTuple, set<Uuid>>, savedUpTo: map<TwoIntTuple, nat>)
      modifies this
      ensures completed == Restore(old(completed), Selections, savedIds, {})
      ensures upToDict == Restore(old(upToDict), Selections, savedUpTo, 0)
    {
      for k := 0 to |Selections|
        invariant completed == Restore(old(completed), Selections[..k], savedIds, {})
        invariant upToDict == Restore(old(upToDict), Selections[..k], savedUpTo, 0)
      {
        var selection := Selections[k];
        RestoreStep(old(completed), Selections, k, savedIds, {});
        RestoreStep(old(upToDict), Selections, k, savedUpTo, 0);
        completed := completed[selection := Saved(savedIds, selection, {})];
        upToDict := upToDict[selection := Saved(savedUpTo, selection, 0)];
      }
      assert Selections[..|Selections|] == Selections;
    }

    /** `init(loader:)`: the given puzzle lists and the saved progress of the five selections. */
    constructor (puzzles: map<TwoIntTuple, seq<PuzzleClues>>,
                 savedIds: map<TwoIntTuple, set<Uuid>>, savedUpTo: map<TwoIntTuple, nat>)
      ensures this.puzzles == puzzles
      ensures completed == Restore(map[], Selections, savedIds, {})
      ensures upToDict == Restore(map[], Selections, savedUpTo, 0)
    {
      this.puzzles := puzzles;
      completed := map[];
      upToDict := map[];
      new;
      LoadProgress(savedIds, savedUpTo);
    }

    /**
     * `complete(_: UUID, in:)`: records `uuid` as completed (only when the selection already has
     * an entry) and moves the frontier one puzzle on when `uuid` is the puzzle at the frontier.
     */
    method Complete(uuid: Uuid, selection: TwoIntTuple)
      modifies this
      ensures completed == InsertCompleted(old(completed), selection, uuid)
      ensures upToDict ==
                if old(GetNextUuid(selection)) == Some(uuid) then old(upToDict)[selection := old(UpTo(selection)) + 1]
                else old(upToDict)
      ensures old(UpTo(selection)) <= UpTo(selection)
      ensures old(UpTo(selection)) <= |PuzzlesFor(selection)| ==> UpTo(selection) <= |PuzzlesFor(selection)|
      ensures forall s :: s != selection ==> CompletedIn(s) == old(CompletedIn(s)) && UpTo(s) == old(UpTo(s))
      ensures forall s, i :: 0 <= i ==> Rank(old(GetState(i, s))) <= Rank(GetState(i, s))
      ensures old(GetNextUuid(selection)) == Some(uuid) ==>
                GetState(old(UpTo(selection)), selection) == Unlocked(true) &&
                (old(UpTo(selection)) + 1 < |PuzzlesFor(selection)| ==>
                   GetState(old(UpTo(selection)) + 1, selection) != Locked)
      ensures selection in old(completed) ==>
                forall i :: 0 <= i < |PuzzlesFor(selection)| && PuzzlesFor(selection)[i].id == uuid ==>
                  GetState(i, selection) == Unlocked(true)
    {
      completed := InsertCompleted(completed, selection, uuid);
      var upTo := UpTo(selection);
      if Some(uuid) == GetNextUuid(selection) {
        upToDict := upToDict[selection := upTo + 1];
      }
    }

    /**
     * `complete(_: Int, in:)`: completes puzzle `i` of the selection's list; nothing happens
     * when there is no list for the selection.
     */
    method CompleteAt(i: int, selection: TwoIntTuple)
      requires selection in puzzles ==> 0 <= i < |puzzles[selection]|
      modifies this
      ensures selection !in puzzles ==> completed == old(completed) && upToDict == old(upToDict)
      ensures selection in puzzles ==>
                var uuid := puzzles[selection][i].id;
                completed == InsertCompleted(old(completed), selection, uuid) &&
                upToDict ==
                  if old(GetNextUuid(selection)) == Some(uuid) then old(upToDict)[selection := old(UpTo(selection)) + 1]
                  else old(upToDict)
    {
      if selection in puzzles {
        Complete(puzzles[selection][i].id, selection);
      }
    }
  }
}
