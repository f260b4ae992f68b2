/**
 * The editor's playtest player (src/application/setups/debugger/editor_player.cpp): saving the
 * edited state and history before a playtest and restoring them after, replaying the
 * playtest's commands onto the restored history and state, seeking, and the total step count.
 * The edited state is a value of type `S` and executing a command on it is a function; the
 * snapshotted player base class, the command classes, the command history class and
 * snapshot loading are not part of this model, so the history is a list
 * of commands with a current revision (-1 standing for the first revision, before any
 * command) and the base player is reduced to its current step, pause flag, number of
 * recorded steps and requested steps.
 */
module EditorPlayer {
  import opened Wrappers
  import opened Ints

  /** An editor command: when it happened (in playtest steps), whether it only makes sense during a playtest, and what it does. */
  datatype Command = Command(whenHappened: nat, playtestSpecific: bool, payload: nat)

  datatype History = History(commands: seq<Command>, currentRevision: int, modified: bool)

  const FIRST_REVISION := -1

  predicate ValidHistory(h: History) {
    FIRST_REVISION <= h.currentRevision < |h.commands|
  }

  const EMPTY_HISTORY := History([], FIRST_REVISION, false)

  function LastRevision(h: History): int {
    |h.commands| - 1
  }

  /** `discard_later_revisions`: the commands after the current revision are dropped. */
  function DiscardLaterRevisions(h: History): (r: History)
    requires ValidHistory(h)
    ensures ValidHistory(r) && LastRevision(r) == r.currentRevision == h.currentRevision
    ensures r.commands == h.commands[..h.currentRevision + 1]
  {
    h.(commands := h.commands[..h.currentRevision + 1])
  }

  /**
   * `execute_new` on the history: later revisions are dropped and the command becomes the new
   * current one. Its effect on the edited state is an `execute` function (see `Executed`).
   */
  function ExecuteNew(h: History, c: Command): (r: History)
    requires ValidHistory(h)
    ensures ValidHistory(r) && r.currentRevision == LastRevision(r) == h.currentRevision + 1
    ensures r.commands == h.commands[..h.currentRevision + 1] + [c] && r.modified == h.modified
  {
    History(h.commands[..h.currentRevision + 1] + [c], h.currentRevision + 1, h.modified)
  }

  /** `make_redoable_for_different_solvable`: a replayed command happens at step 0. */
  function MakeRedoable(c: Command): Command {
    c.(whenHappened := 0)
  }

  /** The commands of a playtest that are carried back to the editor: the non-playtest ones, made redoable, in order. */
  function CarriedBack(cmds: seq<Command>): (r: seq<Command>)
    ensures |r| <= |cmds|
    ensures forall c | c in r :: c.whenHappened == 0 && !c.playtestSpecific
  {
    if cmds == [] then []
    else (if cmds[0].playtestSpecific then [] else [MakeRedoable(cmds[0])]) + CarriedBack(cmds[1..])
  }

  lemma CarriedBackConcat(a: seq<Command>, b: seq<Command>)
    ensures CarriedBack(a + b) == CarriedBack(a) + CarriedBack(b)
  {
    if a == [] {
      assert a + b == b;
    } else {
      assert (a + b)[1..] == a[1..] + b;
      CarriedBackConcat(a[1..], b);
    }
  }

  /**
   * Replaying commands onto a history whose current revision is its last appends exactly the
   * carried-back commands and leaves the current revision at the end.
   */
  lemma {:induction false} ReplayAppends(h: History, cmds: seq<Command>)
    requires ValidHistory(h) && h.currentRevision == LastRevision(h)
    ensures var r := Replay(h, cmds);
      && ValidHistory(r) && r.currentRevision == LastRevision(r)
      && r.commands == h.commands + CarriedBack(cmds) && r.modified == h.modified
    decreases |cmds|
  {
    if cmds != [] {
      var c := cmds[0];
      var h1 := if c.playtestSpecific then h else ExecuteNew(h, MakeRedoable(c));
      assert h.commands[..h.currentRevision + 1] == h.commands;
      ReplayAppends(h1, cmds[1..]);
    }
  }

  /** The reapply loop's effect: each command in turn made redoable and executed unless it is playtest-specific. */
  function Replay(h: History, cmds: seq<Command>): (r: History)
    requires ValidHistory(h)
    ensures ValidHistory(r) && r.modified == h.modified
    decreases |cmds|
  {
    if cmds == [] then h
    else
      var c := cmds[0];
      Replay(if c.playtestSpecific then h else ExecuteNew(h, MakeRedoable(c)), cmds[1..])
  }

  lemma ReplayStep(h: History, cmds: seq<Command>, i: nat)
    requires ValidHistory(h) && i < |cmds|
    ensures var c := cmds[i];
      Replay(h, cmds[i..]) == Replay(if c.playtestSpecific then h else ExecuteNew(h, MakeRedoable(c)), cmds[i + 1..])
  {
    assert cmds[i..][0] == cmds[i] && cmds[i..][1..] == cmds[i + 1..];
  }

  /** The edited state after executing each command in turn with `execute`. */
  function Executed<S>(execute: (S, Command) -> S, s: S, cmds: seq<Command>): S
    decreases |cmds|
  {
    if cmds == [] then s else Executed(execute, execute(s, cmds[0]), cmds[1..])
  }

  /** Executing two batches of commands is executing the first, then the second on its result. */
  lemma {:induction false} ExecutedConcat<S>(execute: (S, Command) -> S, s: S, a: seq<Command>, b: seq<Command>)
    ensures Executed(execute, s, a + b) == Executed(execute, Executed(execute, s, a), b)
    decreases |a|
  {
    if a == [] {
      assert a + b == b;
    } else {
      assert (a + b)[0] == a[0] && (a + b)[1..] == a[1..] + b;
      ExecutedConcat(execute, execute(s, a[0]), a[1..], b);
    }
  }

  /** One pass of the reapply loop on the state: the command is executed unless it is playtest-specific. */
  lemma ExecutedStep<S>(execute: (S, Command) -> S, s: S, cmds: seq<Command>, i: nat, end: nat)
    requires i < end <= |cmds|
    ensures var c := cmds[i];
      Executed(execute, s, CarriedBack(cmds[i..end]))
      == Executed(execute, if c.playtestSpecific then s else execute(s, MakeRedoable(c)), CarriedBack(cmds[i + 1..end]))
  {
    var c := cmds[i];
    assert cmds[i..end][0] == c && cmds[i..end][1..] == cmds[i + 1..end];
    var rest := CarriedBack(cmds[i + 1..end]);
    if !c.playtestSpecific {
      assert ([MakeRedoable(c)] + rest)[0] == MakeRedoable(c) && ([MakeRedoable(c)] + rest)[1..] == rest;
    } else {
      assert [] + rest == rest;
    }
  }

  /** The state the playtest touches: the folder's current state and history and the player's backup. */
  datatype Session<S> = Session(current: S, history: History, backup: Option<S>, backupHistory: History)

  /** `save_state_before_start` on values: the current state is kept as the backup and the history moves to it. */
  function SaveBeforeStart<S>(s: Session<S>): (r: Session<S>)
    requires s.backup.None?
    ensures r.backup == Some(s.current) && r.current == s.current
    ensures r.backupHistory == s.history && r.history == EMPTY_HISTORY
  {
    Session(s.current, EMPTY_HISTORY, Some(s.current), s.history)
  }

  /** `restore_saved_state` on values: the backup becomes current again and the history comes back. */
  function RestoreSaved<S>(s: Session<S>): (r: Session<S>)
    requires s.backup.Some?
    ensures r.current == s.backup.value && r.backup.None?
    ensures r.history == s.backupHistory && r.backupHistory == EMPTY_HISTORY
  {
    Session(s.backup.value, s.backupHistory, None, EMPTY_HISTORY)
  }

  /** Saving and then restoring gives back the session as it was before the playtest. */
  lemma SaveThenRestoreIsIdentity<S>(s: Session<S>)
    requires s.backup.None? && s.backupHistory == EMPTY_HISTORY
    ensures RestoreSaved(SaveBeforeStart(s)) == s
  {
  }

  /** `editor_folder`: the edited state and its command history. */
  class EditorFolder<S> {
    var commanded: S
    var history: History

    constructor (commanded: S, history: History)
      ensures this.commanded == commanded && this.history == history
    {
      this.commanded := commanded;
      this.history := history;
    }
  }

  datatype FinishTestingType = DiscardChanges | ReapplyChanges

  class EditorPlayer<S> {
    var backup: Option<S>
    var backupHistory: History
    var dirty: bool
    var currentStep: nat
    var paused: bool
    /** The number of steps with recorded input (`base::get_total_steps`). */
    var recordedSteps: nat
    var requestedSteps: nat

    constructor ()
      ensures backup.None? && backupHistory == EMPTY_HISTORY && !dirty && currentStep == 0 && paused
      ensures recordedSteps == 0 && requestedSteps == 0
    {
      backup := None;
      backupHistory := EMPTY_HISTORY;
      dirty := false;
      currentStep := 0;
      paused := true;
      recordedSteps := 0;
      requestedSteps := 0;
    }

    function SessionWith(folder: EditorFolder<S>): Session<S>
      reads this, folder
    {
      Session(folder.commanded, folder.history, backup, backupHistory)
    }

    /** `has_testing_started`: a backup exists. */
    predicate HasTestingStarted()
      reads this
    {
      backup.Some?
    }

    method SaveStateBeforeStart(folder: EditorFolder<S>)
      requires !HasTestingStarted()
      modifies this, folder
      ensures SessionWith(folder) == SaveBeforeStart(old(SessionWith(folder)))
      ensures dirty == old(dirty) && currentStep == old(currentStep) && paused == old(paused)
      ensures recordedSteps == old(recordedSteps) && requestedSteps == old(requestedSteps)
    {
      backup := Some(folder.commanded);
      backupHistory := folder.history;
      folder.history := EMPTY_HISTORY;
    }

    method RestoreSavedState(folder: EditorFolder<S>)
      requires HasTestingStarted()
      modifies this, folder
      ensures SessionWith(folder) == RestoreSaved(old(SessionWith(folder)))
      ensures dirty == old(dirty) && currentStep == old(currentStep) && paused == old(paused)
      ensures recordedSteps == old(recordedSteps) && requestedSteps == old(requestedSteps)
    {
      folder.commanded := backup.value;
      backup := None;
      folder.history := backupHistory;
      backupHistory := EMPTY_HISTORY;
    }

    /**
     * `finish_testing`: nothing happens unless a playtest started. Otherwise the edited state
     * and history are restored, the player is clean, the history is marked modified, and with
     * REAPPLY_CHANGES the restored history loses its later revisions and gains the playtest's
     * commands up to its current revision, made redoable, skipping playtest-specific ones;
     * each of them is executed on the restored state with `execute`.
     */
    method FinishTesting(folder: EditorFolder<S>, mode: FinishTestingType, execute: (S, Command) -> S)
      requires ValidHistory(folder.history) && ValidHistory(backupHistory)
      modifies this, folder
      ensures !old(HasTestingStarted()) ==> SessionWith(folder) == old(SessionWith(folder)) && dirty == old(dirty)
      ensures !old(HasTestingStarted()) ==>
                currentStep == old(currentStep) && paused == old(paused)
                && recordedSteps == old(recordedSteps) && requestedSteps == old(requestedSteps)
      ensures old(HasTestingStarted()) ==>
                && backup.None? && backupHistory == EMPTY_HISTORY && !dirty
                && folder.history.modified
                && (mode == DiscardChanges ==>
                      folder.commanded == old(backup).value && folder.history == old(backupHistory).(modified := true))
                && (mode == ReapplyChanges ==>
                      folder.commanded
                      == Executed(execute, old(backup).value,
                                  CarriedBack(old(folder.history).commands[..old(folder.history).currentRevision + 1]))
                      &&
                      folder.history == Replay(DiscardLaterRevisions(old(backupHistory)).(modified := true),
                                               old(folder.history).commands[..old(folder.history).currentRevision + 1])
                      && folder.history.commands
                         == old(backupHistory).commands[..old(backupHistory).currentRevision + 1]
                            + CarriedBack(old(folder.history).commands[..old(folder.history).currentRevision + 1])
                      && folder.history.currentRevision == LastRevision(folder.history))
    {
      if !HasTestingStarted() {
        return;
      }
      var playtested := folder.history;
      RestoreSavedState(folder);
      dirty := false;
      folder.history := folder.history.(modified := true);
      if mode == ReapplyChanges {
        folder.history := DiscardLaterRevisions(folder.history);
        var cmds := playtested.commands;
        var end := playtested.currentRevision + 1;
        ghost var start := folder.history;
        var i := 0;
        assert cmds[0..end] == cmds[..end];
        while i < end
          invariant 0 <= i <= end
          invariant ValidHistory(folder.history) && folder.history.modified
          invariant Replay(folder.history, cmds[i..end]) == Replay(start, cmds[..end])
          invariant Executed(execute, folder.commanded, CarriedBack(cmds[i..end]))
                    == Executed(execute, old(backup).value, CarriedBack(cmds[..end]))
          invariant backup.None? && backupHistory == EMPTY_HISTORY && !dirty
        {
          var cmd := MakeRedoable(cmds[i]);
          ReplayStep(folder.history, cmds[..end], i);
          ExecutedStep(execute, folder.commanded, cmds, i, end);
          assert cmds[..end][i..] == cmds[i..end];
          assert cmds[..end][i + 1..] == cmds[i + 1..end];
          if !cmds[i].playtestSpecific {
            folder.history := ExecuteNew(folder.history, cmd);
            folder.commanded := execute(folder.commanded, cmd);
          }
          i := i + 1;
        }
        assert cmds[end..end] == [];
        assert cmds[..end][0..] == cmds[..end];
        ReplayAppends(start, cmds[..playtested.currentRevision + 1]);
      }
    }

    /**
     * `get_total_steps`: the later of the last command's step (0 while the history is at its
     * first revision) and the number of recorded steps.
     */
    function TotalSteps(folder: EditorFolder<S>): (r: nat)
      reads this, folder
      ensures r >= recordedSteps
      ensures |folder.history.commands| > 0 ==> r >= folder.history.commands[|folder.history.commands| - 1].whenHappened
      ensures r == recordedSteps || (|folder.history.commands| > 0 && r == folder.history.commands[|folder.history.commands| - 1].whenHappened)
    {
      var ofLastCommand := if LastRevision(folder.history) == FIRST_REVISION then 0
                           else folder.history.commands[LastRevision(folder.history)].whenHappened;
      Max(ofLastCommand, recordedSteps)
    }

    /**
     * `seek_to`: the target is cut to the total steps when asked; seeking to the current step
     * does nothing at all, otherwise the player is marked dirty and reaches the target.
     */
    method SeekTo(requested: nat, folder: EditorFolder<S>, trimToTotalSteps: bool)
      modifies this
      ensures var target := if trimToTotalSteps then Min(requested, old(TotalSteps(folder))) else requested;
        if target == old(currentStep) then dirty == old(dirty) && currentStep == old(currentStep)
        else dirty && currentStep == target
      ensures backup == old(backup) && backupHistory == old(backupHistory) && paused == old(paused)
      ensures recordedSteps == old(recordedSteps) && requestedSteps == old(requestedSteps)
    {
      var seeked := if trimToTotalSteps then Min(requested, TotalSteps(folder)) else requested;
      if seeked == currentStep {
        return;
      }
      dirty := true;
      currentStep := seeked;
    }

    /** `seek_backward`: seeks `offset` steps back, stopping at step 0, without trimming. */
    method SeekBackward(offset: nat, folder: EditorFolder<S>)
      modifies this
      ensures currentStep == if old(currentStep) >= offset then old(currentStep) - offset else 0
      ensures currentStep <= old(currentStep)
      ensures dirty == (old(dirty) || (offset > 0 && old(currentStep) > 0))
      ensures backup == old(backup) && backupHistory == old(backupHistory) && paused == old(paused)
      ensures recordedSteps == old(recordedSteps) && requestedSteps == old(requestedSteps)
    {
      var target := if currentStep >= offset then currentStep - offset else 0;
      SeekTo(target, folder, false);
    }

    /** `request_steps`: only during a playtest, which it marks dirty. */
    method RequestSteps(amount: nat)
      modifies this
      ensures old(HasTestingStarted()) ==> dirty && requestedSteps == old(requestedSteps) + amount
      ensures !old(HasTestingStarted()) ==> dirty == old(dirty) && requestedSteps == old(requestedSteps)
      ensures backup == old(backup) && currentStep == old(currentStep) && paused == old(paused)
      ensures backupHistory == old(backupHistory) && recordedSteps == old(recordedSteps)
    {
      if HasTestingStarted() {
        dirty := true;
        requestedSteps := requestedSteps + amount;
      }
    }

    /** `pause`: marks dirty only when the player was running. */
    method Pause()
      modifies this
      ensures paused && dirty == (old(dirty) || !old(paused))
      ensures backup == old(backup) && currentStep == old(currentStep) && requestedSteps == old(requestedSteps)
      ensures backupHistory == old(backupHistory) && recordedSteps == old(recordedSteps)
    {
      if !paused {
        dirty := true;
      }
      paused := true;
    }
  }
}
