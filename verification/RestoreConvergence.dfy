/** Recovery reaches the same end however often it is interrupted, and how uninterrupted runs end. */
module RestoreConvergence {
  import opened Options
  import opened RestoreModel
  import opened RestoreSafety
  import opened RestorePairs

  ghost predicate Calm(f: Fates) {
    forall n: nat, step :: f(n, step) == Happens
  }

  /** The world and the settings in place. */
  predicate Runs(s: Sys, world: World, settings: Option<Config>) {
    s.live == Whole(world) && s.settings == settings
  }

  predicate MovingServer(s: Sys) {
    Undoable(s) && s.journal.value.state == Moving
  }

  /** What rolling forward needs: the restored world was not moved out of the way, nor undone and
      deleted. */
  predicate CanRoll(s: Sys) {
    !Exists(s, FailedCopy) && (Exists(s, Staged) || Exists(s, Aside))
  }

  predicate RolledForward(s: Sys, j: Journal) {
    && s.live == Whole(RestoredWorld) && s.aside == Whole(PreviousWorld)
    && s.failed == Missing && s.staged == Missing
    && s.settings == Some(j.restored) && s.journal == Some(j.(state := Checking))
    && !s.kept && !s.discarded
  }

  /** Where the last run's step count is all that is left out. */
  function Landed(s: Sys): Sys { s.(clock := 0) }

  /** Starts the agent `n` times, each time rolling a moving journal forward. */
  function Rerolled(s: Sys, f: Fates, n: nat): Sys
    decreases n
  {
    if n == 0 then s
    else
      var up := Restart(s);
      var next := if up.journal.Some? && up.journal.value.state == Moving
                  then RollForward(up, f, up.journal.value).sys else up;
      Rerolled(next, f, n - 1)
  }

  /** An uninterrupted roll forward puts the restored world in place exactly when it can roll. */
  lemma RollForwardExactly(s: Sys, f: Fates, j: Journal)
    requires Calm(f) && s.alive && MovingServer(s) && s.journal == Some(j)
    ensures var o := RollForward(s, f, j);
            && (o.ok && RolledForward(o.sys, j) <==> CanRoll(s))
            && o.sys.alive
  {
  }

  lemma FinishMovingKeeps(s: Sys, f: Fates, j: Journal)
    requires MovingServer(s) && CanRoll(s) && s.journal == Some(j) && s.live == Whole(RestoredWorld)
    ensures var o := FinishMoving(s, f, j);
            || (MovingServer(o.sys) && CanRoll(o.sys) && o.sys.journal == Some(j))
            || RolledForward(o.sys, j)
    ensures FinishMoving(s, f, j).sys.settled == s.settled
  {
  }

  lemma RollForwardKeeps(s: Sys, f: Fates, j: Journal)
    requires MovingServer(s) && CanRoll(s) && s.journal == Some(j)
    ensures var o := RollForward(s, f, j);
            || (MovingServer(o.sys) && CanRoll(o.sys) && o.sys.journal == Some(j))
            || RolledForward(o.sys, j)
    ensures RollForward(s, f, j).sys.settled == s.settled
  {
    if Exists(s, Staged) {
      RenameLayout(s, f, Live, Aside);
      var setAside := if Exists(s, Live) then Rename(s, f, Live, Aside) else Did(s, true);
      RenameLayout(setAside.sys, f, Staged, Live);
      var moved := Rename(setAside.sys, f, Staged, Live);
      if setAside.ok && moved.ok { FinishMovingKeeps(moved.sys, f, j); }
    } else {
      FinishMovingKeeps(s, f, j);
    }
  }

  lemma {:induction false} RerolledKeeps(s: Sys, f: Fates, n: nat, j: Journal)
    requires (MovingServer(s) && CanRoll(s) && s.journal == Some(j) && j.state == Moving) || RolledForward(s, j)
    ensures var o := Rerolled(s, f, n);
            || (MovingServer(o) && CanRoll(o) && o.journal == Some(j))
            || RolledForward(o, j)
    decreases n
  {
    if n > 0 {
      var up := Restart(s);
      if up.journal.value.state == Moving {
        RollForwardKeeps(up, f, j);
        RerolledKeeps(RollForward(up, f, j).sys, f, n - 1, j);
      } else {
        RerolledKeeps(up, f, n - 1, j);
      }
    }
  }

  /** However often rolling forward was cut short, one run that isn't ends where a single
      uninterrupted run would have ended. */
  lemma RollForwardConverges(s: Sys, f: Fates, n: nat, calm: Fates)
    requires Calm(calm) && MovingServer(s) && CanRoll(s)
    ensures var end := Rerolled(Rerolled(s, f, n), calm, 1);
            && RolledForward(end, s.journal.value)
            && Landed(end) == Landed(Rerolled(s, calm, 1))
  {
    var j := s.journal.value;
    var cut := Rerolled(s, f, n);
    RerolledKeeps(s, f, n, j);
    RollForwardExactly(Restart(s), calm, j);
    OneReroll(s, calm, j);
    OneReroll(cut, calm, j);
  }

  lemma OneReroll(s: Sys, calm: Fates, j: Journal)
    requires Calm(calm)
    requires (MovingServer(s) && CanRoll(s) && s.journal == Some(j)) || RolledForward(s, j)
    ensures var end := Rerolled(s, calm, 1);
            RolledForward(end, j) && end.alive && !end.settled
  {
    var up := Restart(s);
    if up.journal.value.state == Moving {
      RollForwardExactly(up, calm, j);
      RollForwardKeeps(up, calm, j);
    }
    var next := if up.journal.value.state == Moving then RollForward(up, calm, up.journal.value).sys else up;
    assert Rerolled(next, calm, 0) == next;
  }

  /** A moving journal, wherever one is left, can be rolled forward. */
  predicate MovingRolls(s: Sys) {
    s.journal.Some? && s.journal.value.state == Moving ==> MovingServer(s) && CanRoll(s)
  }

  /** When journal writes succeed, a restore that was cut short with a moving journal can always be
      rolled forward. */
  lemma StoppedRestoreCanRoll(s: Sys, f: Fates, restored: Config, stopped: bool)
    requires WritesSucceed(f) && Ready(s)
    ensures MovingRolls(RestoreOp(s, f, restored, stopped))
  {
    var j := FreshJournal(s, restored, stopped);
    RestoreOpSafe(s, f, restored, stopped);
    SwapWorldsSafe(s, f, j);
    SwapWorldsMoving(s, f, j);
  }

  /** Putting the previous world back writes no journal but its own, and forgets nothing settled. */
  lemma MoveBackFrame(s: Sys, f: Fates, j: Journal)
    ensures var o := MoveBack(s, f, j);
            o.sys.settled == s.settled && (o.sys.journal == s.journal || o.sys.journal == Some(j.(movedBack := true)))
  {
    var back := Rename(s, f, Aside, Live);
    if back.ok {
      var written := WriteJournal(back.sys, f, j.(movedBack := true));
      SavePreviousFrame(written.sys, f, j.(movedBack := true));
    }
  }

  lemma SavePreviousFrame(s: Sys, f: Fates, j: Journal)
    ensures var o := SavePrevious(s, f, j); o.sys.settled == s.settled && o.sys.journal == s.journal
  {
  }

  lemma PutPreviousBackFrame(s: Sys, f: Fates, j: Journal)
    ensures var o := PutPreviousBack(s, f, j);
            o.sys.settled == s.settled && (o.sys.journal == s.journal || o.sys.journal == Some(j.(movedBack := true)))
  {
    if Exists(s, Aside) {
      var cleared := if Exists(s, Live) then Rename(s, f, Live, FailedCopy) else Did(s, true);
      if cleared.ok { MoveBackFrame(cleared.sys, f, j); }
    } else {
      SavePreviousFrame(s, f, j);
    }
  }

  /** The journal is there, and says something else than moving. */
  predicate PastMoving(s: Sys) { s.journal.Some? && s.journal.value.state != Moving }

  lemma RevertLeavesMoving(s: Sys, f: Fates, j: Journal)
    requires PastMoving(s)
    ensures PastMoving(RevertRestore(s, f, j).sys)
  {
    var written := WriteJournal(s, f, j.(state := Reverting));
    PutPreviousBackFrame(AskServer(written.sys, f).sys, f, j.(state := Reverting));
  }

  /** A revert of a moving journal leaves everything as it was, or a journal that says reverting. */
  lemma RevertOfMoving(s: Sys, f: Fates, j: Journal)
    ensures var o := RevertRestore(s, f, j).sys;
            PastMoving(o) || (Landed(o).(alive := false) == Landed(s).(alive := false))
  {
    var written := WriteJournal(s, f, j.(state := Reverting));
    if written.ok { PutPreviousBackFrame(AskServer(written.sys, f).sys, f, j.(state := Reverting)); }
  }

  lemma RecordKeptLeavesMoving(s: Sys, f: Fates, j: Journal)
    requires PastMoving(s)
    ensures PastMoving(RecordKept(s, f, j).sys)
  {
    var written := WriteJournal(s, f, j.(state := Kept));
    assert PastMoving(written.sys);
  }

  lemma FinishLeavesMoving(s: Sys, f: Fates, j: Journal)
    requires PastMoving(s)
    ensures PastMoving(FinishRestore(s, f, j).sys)
  {
    if j.stopped {
      RecordKeptLeavesMoving(s, f, j);
    } else {
      var online := AskServer(s, f);
      if online.ok { RecordKeptLeavesMoving(online.sys, f, j); } else { RevertLeavesMoving(online.sys, f, j); }
    }
  }

  lemma SwapWorldsMoving(s: Sys, f: Fates, j: Journal)
    requires WritesSucceed(f) && Ready(s) && OfServer(j) && j.state == Moving
    ensures var o := SwapWorlds(s, f, j);
            o.sys.journal.Some? && o.sys.journal.value.state == Moving ==> CanRoll(o.sys)
  {
    var written := WriteJournal(s, f, j);
    if written.ok {
      var setAside := Rename(written.sys, f, Live, Aside);
      if setAside.ok {
        var moved := Rename(setAside.sys, f, Staged, Live);
        if moved.ok { RecordRestoredMoving(moved.sys, f, j); } else { UndoMoveMoving(moved.sys, f, j); }
      }
    }
  }

  lemma RecordRestoredMoving(s: Sys, f: Fates, j: Journal)
    requires WritesSucceed(f) && OfServer(j) && s.journal == Some(j) && j.state == Moving
    requires s.live == Whole(RestoredWorld) && s.aside == Whole(PreviousWorld) && s.failed == Missing
    ensures var o := RecordRestored(s, f, j);
            o.sys.journal.Some? && o.sys.journal.value.state == Moving ==> CanRoll(o.sys)
  {
    var saved := SaveRestored(s, f, j);
    if saved.ok { FinishLeavesMoving(saved.sys, f, saved.j); } else { UndoSaveMoving(saved.sys, f, saved.j); }
  }

  lemma UndoMoveMoving(s: Sys, f: Fates, j: Journal)
    requires WritesSucceed(f) && OfServer(j) && s.journal == Some(j) && j.state == Moving
    requires s.live == Missing && s.aside == Whole(PreviousWorld) && s.failed == Missing && s.staged != Missing
    ensures var o := UndoMove(s, f, j);
            o.sys.journal.Some? && o.sys.journal.value.state == Moving ==> CanRoll(o.sys)
  {
    var undo := Undoing(s, f, j);
    if undo.ok { assert PutBack(undo.sys, f, undo.j, Staged).sys.journal == undo.sys.journal; }
  }

  lemma UndoSaveMoving(s: Sys, f: Fates, j: Journal)
    requires WritesSucceed(f) && OfServer(j) && s.journal.Some?
    requires s.live == Whole(RestoredWorld) && s.aside == Whole(PreviousWorld) && s.failed == Missing
    ensures var o := UndoSave(s, f, j);
            o.sys.journal.Some? && o.sys.journal.value.state == Moving ==> CanRoll(o.sys)
  {
    var undo := Undoing(s, f, j);
    if undo.ok {
      var cleared := Rename(undo.sys, f, Live, FailedCopy);
      UndoSaveFrame(cleared.sys, f, undo.j);
      assert UndoSave(s, f, j).sys.journal == undo.sys.journal;
    } else {
      assert !undo.sys.alive && UndoSave(s, f, j) == Out(undo.sys, undo.j, false);
    }
  }

  /** Starts the agent `n` times, each time finishing the restore as far as it gets. */
  function Resumed(s: Sys, f: Fates, n: nat): Sys
    decreases n
  {
    if n == 0 then s else Resumed(Resume(Restart(s), f), f, n - 1)
  }

  lemma RecoverRolls(s: Sys, f: Fates, j: Journal)
    requires MovingRolls(s) && s.journal == Some(j)
    ensures MovingRolls(RecoverRestore(s, f, j).sys)
  {
    match j.state {
      case Moving =>
        RollForwardKeeps(s, f, j);
        var rolled := RollForward(s, f, j);
        if rolled.ok { RolledIsChecking(s, f, j); FinishLeavesMoving(rolled.sys, f, rolled.j); }
        else { RevertOfMoving(rolled.sys, f, rolled.j); }
      case Checking => FinishLeavesMoving(s, f, j);
      case Kept =>
      case Reverting => RevertLeavesMoving(s, f, j);
      case Done =>
    }
  }

  lemma RolledIsChecking(s: Sys, f: Fates, j: Journal)
    requires RollForward(s, f, j).ok
    ensures PastMoving(RollForward(s, f, j).sys)
  {
    var setAside := if Exists(s, Staged) && Exists(s, Live) then Rename(s, f, Live, Aside) else Did(s, true);
    var moved := if Exists(s, Staged) then Rename(setAside.sys, f, Staged, Live) else setAside;
    assert RollForward(s, f, j) == FinishMoving(moved.sys, f, j);
    FinishedIsChecking(moved.sys, f, j);
  }

  lemma FinishedIsChecking(s: Sys, f: Fates, j: Journal)
    requires FinishMoving(s, f, j).ok
    ensures PastMoving(FinishMoving(s, f, j).sys)
  {
  }

  lemma ResumeRolls(s: Sys, f: Fates)
    requires MovingRolls(s)
    ensures MovingRolls(Resume(s, f))
  {
    if s.journal.Some? {
      RecoverRolls(s, f, s.journal.value);
      var done := RecoverRestore(s, f, s.journal.value);
      if done.j.state == Done { StageRolls(done.sys, f); }
    }
  }

  lemma StageRolls(s: Sys, f: Fates)
    requires MovingRolls(s)
    ensures MovingRolls(RemoveStage(s, f).sys)
  {
  }

  /** Interruptions never make it worse, whatever failed: a moving journal that could be rolled forward
      still can. */
  lemma {:induction false} ResumedRolls(s: Sys, f: Fates, n: nat)
    requires MovingRolls(s)
    ensures MovingRolls(Resumed(s, f, n))
    decreases n
  {
    if n > 0 {
      var up := Restart(s);
      ResumeRolls(up, f);
      ResumedRolls(Resume(up, f), f, n - 1);
    }
  }

  /** Every moving journal an agent finds, after a restore whose journal writes succeeded and any number
      of interrupted recoveries, rolls forward to the one end, however often that is cut short. */
  lemma EveryMovingRolls(s: Sys, f: Fates, restored: Config, stopped: bool, g: Fates, n: nat, k: nat, calm: Fates)
    requires WritesSucceed(f) && Ready(s) && Calm(calm)
    ensures var found := Resumed(RestoreOp(s, f, restored, stopped), g, n);
            found.journal.Some? && found.journal.value.state == Moving ==>
              RolledForward(Rerolled(Rerolled(found, g, k), calm, 1), found.journal.value)
  {
    StoppedRestoreCanRoll(s, f, restored, stopped);
    ResumedRolls(RestoreOp(s, f, restored, stopped), g, n);
    var found := Resumed(RestoreOp(s, f, restored, stopped), g, n);
    if found.journal.Some? && found.journal.value.state == Moving { RollForwardConverges(found, g, k, calm); }
  }

  // ---------- settling ----------

  /** Where the restored world ends up once the previous one is back. */
  function OutOfTheWay(s: Sys): Folder { if s.live == Whole(RestoredWorld) then s.live else s.failed }

  predicate SettledAs(s: Sys, from: Sys) {
    && s.live == Whole(PreviousWorld) && s.aside == Missing
    && s.failed == OutOfTheWay(from) && s.staged == from.staged
    && from.journal.Some? && s.settings == from.journal.value.previous
  }

  predicate SameJournal(s: Sys, from: Sys) {
    && s.journal.Some? && from.journal.Some?
    && s.journal.value.(movedBack := false) == from.journal.value.(movedBack := false)
  }

  /** Being settled, as `from` would be: the same journal, and the restored world heading for the same
      place. */
  predicate OnTheWay(s: Sys, from: Sys) {
    Undoable(s) && SameJournal(s, from) && s.staged == from.staged && OutOfTheWay(s) == OutOfTheWay(from)
  }

  function Resettled(s: Sys, f: Fates, n: nat): Sys
    decreases n
  {
    if n == 0 then s
    else
      var up := Restart(s);
      Resettled(if up.journal.Some? then SettleSwap(up, f, up.journal.value).sys else up, f, n - 1)
  }

  lemma SavePreviousOnTheWay(s: Sys, f: Fates, j: Journal, from: Sys)
    requires OnTheWay(s, from) && OfServer(j) && j.previous == from.journal.value.previous
    requires s.live == Whole(PreviousWorld)
    ensures var o := SavePrevious(s, f, j);
            && OnTheWay(o.sys, from)
            && (Calm(f) && s.alive ==> o.ok && SettledAs(o.sys, from) && o.sys.alive)
  {
  }

  lemma MoveBackOnTheWay(s: Sys, f: Fates, j: Journal, from: Sys)
    requires OnTheWay(s, from) && s.journal == Some(j) && s.live == Missing
    ensures var o := MoveBack(s, f, j);
            && OnTheWay(o.sys, from)
            && (Calm(f) && s.alive ==> o.ok && SettledAs(o.sys, from) && o.sys.alive)
  {
    RenameLayout(s, f, Aside, Live);
    var back := Rename(s, f, Aside, Live);
    if back.ok {
      var moved := j.(movedBack := true);
      SavePreviousOnTheWay(WriteJournal(back.sys, f, moved).sys, f, moved, from);
    }
  }

  lemma SettleOnTheWay(s: Sys, f: Fates, from: Sys)
    requires OnTheWay(s, from)
    ensures var o := SettleSwap(s, f, s.journal.value);
            && OnTheWay(o.sys, from)
            && (Calm(f) && s.alive ==> o.ok && SettledAs(o.sys, from) && o.sys.alive)
  {
    var j := s.journal.value;
    var stopped := AskServer(s, f);
    assert OnTheWay(stopped.sys, from);
    if stopped.ok && Exists(s, Aside) {
      if Exists(s, Live) { ClearOnTheWay(stopped.sys, f, from); }
      var cleared := if Exists(s, Live) then Rename(stopped.sys, f, Live, FailedCopy) else stopped;
      if cleared.ok { MoveBackOnTheWay(cleared.sys, f, j, from); }
    } else if stopped.ok {
      SavePreviousOnTheWay(stopped.sys, f, j, from);
    }
  }

  lemma ClearOnTheWay(s: Sys, f: Fates, from: Sys)
    requires OnTheWay(s, from) && Exists(s, Aside) && Exists(s, Live)
    ensures var cleared := Rename(s, f, Live, FailedCopy);
            && OnTheWay(cleared.sys, from) && cleared.sys.journal == s.journal
            && (cleared.ok ==> cleared.sys.live == Missing)
            && (Calm(f) && s.alive ==> cleared.ok && cleared.sys.alive)
  {
    RenameLayout(s, f, Live, FailedCopy);
  }

  lemma {:induction false} ResettledOnTheWay(s: Sys, f: Fates, n: nat, from: Sys)
    requires OnTheWay(s, from)
    ensures OnTheWay(Resettled(s, f, n), from)
    decreases n
  {
    if n > 0 {
      var up := Restart(s);
      SettleOnTheWay(up, f, from);
      ResettledOnTheWay(SettleSwap(up, f, up.journal.value).sys, f, n - 1, from);
    }
  }

  /** From every moving or reverting journal, however often settling was cut short, one run that isn't
      puts the previous world and its settings back, and ends as a single uninterrupted run would
      have ended but for what the journal notes about it. */
  lemma SettleConverges(s: Sys, f: Fates, n: nat, calm: Fates)
    requires Calm(calm) && Undoable(s)
    ensures var end := Resettled(Resettled(s, f, n), calm, 1);
            var once := Resettled(s, calm, 1);
            && SettledAs(end, s) && SameJournal(end, once)
            && Landed(end).(journal := None) == Landed(once).(journal := None)
  {
    ResettledOnTheWay(s, f, n, s);
    var cut := Resettled(s, f, n);
    OneResettle(cut, calm, s);
    OneResettle(s, calm, s);
  }

  lemma OneResettle(s: Sys, calm: Fates, from: Sys)
    requires Calm(calm) && OnTheWay(s, from)
    ensures var end := Resettled(s, calm, 1);
            SettledAs(end, from) && OnTheWay(end, from) && end.alive && !end.settled
  {
    var up := Restart(s);
    SettleOnTheWay(up, calm, from);
    SettleFlag(up, calm, up.journal.value);
    var next := SettleSwap(up, calm, up.journal.value).sys;
    assert Resettled(next, calm, 0) == next;
  }

  lemma SettleFlag(s: Sys, f: Fates, j: Journal)
    ensures SettleSwap(s, f, j).sys.settled == s.settled
  {
    PutPreviousBackFrame(AskServer(s, f).sys, f, j);
  }

  /** The note that Playkeeper moved the world back is made after the move: once the copy set aside is
      back, a settle tried again reports the move if and only if that note was written. */
  lemma MoveReportedIffNoted(s: Sys, f: Fates, j: Journal)
    requires s.journal == Some(j) && !j.movedBack && Exists(s, Aside) && s.alive
    requires Rename(s, f, Aside, Live).ok
    ensures var cut := MoveBack(s, f, j).sys;
            ReportsMovedBack(cut, cut.journal.value) <==> f(s.clock + 1, WriteStep) == Happens
  {
  }

  // ---------- uninterrupted and failing runs ----------

  /** With nothing failing, a restore leaves the restored world with its settings and no copy. */
  lemma CalmRestoreReplaces(s: Sys, f: Fates, restored: Config, stopped: bool)
    requires Calm(f) && Ready(s)
    ensures var end := RestoreOp(s, f, restored, stopped);
            && end.live == Whole(RestoredWorld) && end.settings == Some(restored)
            && end.aside == Missing && end.failed == Missing && end.staged == Missing
            && end.journal.None? && end.kept && end.alive
  {
  }

  /** The steps of a revert that starts at step `n`; the note that the world was moved back may fail. */
  predicate UndoWorks(f: Fates, n: nat) {
    && f(n, WriteStep) == Happens && f(n + 1, ServerStep) == Happens
    && f(n + 2, RenameStep) == Happens && f(n + 3, RenameStep) == Happens
    && !f(n + 4, WriteStep).Stops? && f(n + 5, SaveStep) == Happens
  }

  /** The restored world and its settings are in place, and the journal says so. */
  predicate Swapped(s: Sys, j: Journal) {
    && s.alive && OfServer(j) && j.state == Checking && s.journal == Some(j)
    && s.live == Whole(RestoredWorld) && s.aside == Whole(PreviousWorld) && s.failed == Missing && s.staged == Missing
  }

  /** The previous world and its settings are back, the restored world is kept for inspection. */
  predicate SwappedBack(s: Sys, j: Journal) {
    && s.live == Whole(PreviousWorld) && s.aside == Missing && s.failed == Whole(RestoredWorld) && s.staged == Missing
    && s.settings == j.previous
  }

  lemma RevertWorks(s: Sys, f: Fates, j: Journal)
    requires Swapped(s, j)
    ensures var o := RevertRestore(s, f, j);
            && (o.j.state == Done <==> UndoWorks(f, s.clock))
            && o.sys.journal.Some?
            && (o.j.state == Done ==> SwappedBack(o.sys, j) && o.sys.clock == s.clock + 6
                                      && o.sys.alive && o.sys.kept == s.kept)
  {
    var reverting := j.(state := Reverting);
    var written := WriteJournal(s, f, reverting);
    if written.ok {
      var stopped := AskServer(written.sys, f);
      assert stopped.sys.clock == s.clock + 2 && stopped.sys.journal.Some?;
      if stopped.ok {
        PutPreviousBackFrame(stopped.sys, f, reverting);
        PutBackWorks(stopped.sys, f, reverting);
      }
    }
  }

  lemma PutBackWorks(s: Sys, f: Fates, j: Journal)
    requires s.alive && j.previous.Some? && j.state == Reverting
    requires s.live == Whole(RestoredWorld) && s.aside == Whole(PreviousWorld)
    requires s.failed == Missing && s.staged == Missing
    ensures var o := PutPreviousBack(s, f, j);
            && o.j.state == Reverting
            && (o.ok <==> f(s.clock, RenameStep) == Happens && f(s.clock + 1, RenameStep) == Happens
                          && !f(s.clock + 2, WriteStep).Stops? && f(s.clock + 3, SaveStep) == Happens)
            && (o.ok ==> SwappedBack(o.sys, j) && o.sys.clock == s.clock + 4 && o.sys.alive && o.sys.kept == s.kept)
  {
    var cleared := Rename(s, f, Live, FailedCopy);
    var back := Rename(cleared.sys, f, Aside, Live);
    if cleared.ok && back.ok {
      assert back.sys.live == Whole(PreviousWorld) && back.sys.clock == s.clock + 2;
      var written := WriteJournal(back.sys, f, j.(movedBack := true));
      assert written.sys.live == back.sys.live && written.sys.alive == !f(s.clock + 2, WriteStep).Stops?;
    }
  }

  /** A restored world that does not start is swapped back out: over every schedule, the restore is over,
      with the previous world and settings in place and the restored world kept for inspection, exactly
      when the steps of its undo work. */
  lemma FailedStartReverts(s: Sys, f: Fates, j: Journal)
    requires Swapped(s, j) && !j.stopped && f(s.clock, ServerStep).Fails?
    ensures var o := FinishRestore(s, f, j);
            && (o.j.state == Done <==> UndoWorks(f, s.clock + 1))
            && o.sys.journal.Some?
            && (o.j.state == Done ==> SwappedBack(o.sys, j) && o.sys.clock == s.clock + 7
                                      && o.sys.alive && o.sys.kept == s.kept)
  {
    RevertWorks(AskServer(s, f).sys, f, j);
  }

  /** The same of the restore itself, whatever else its schedule says. */
  lemma FailedStartPutsBack(s: Sys, f: Fates, restored: Config)
    requires Ready(s)
    requires f(s.clock, WriteStep) == f(s.clock + 1, RenameStep) == f(s.clock + 2, RenameStep) == Happens
    requires f(s.clock + 3, SaveStep) == f(s.clock + 4, WriteStep) == Happens
    requires f(s.clock + 5, ServerStep).Fails?
    ensures var end := RestoreOp(s, f, restored, false);
            && (end.journal.None? <==> UndoWorks(f, s.clock + 6) && f(s.clock + 12, RemoveStep) == Happens)
            && (UndoWorks(f, s.clock + 6) ==> SwappedBack(end, FreshJournal(s, restored, false)) && !end.kept)
  {
    var j := FreshJournal(s, restored, false);
    var checking := j.(state := Checking);
    var swapped := s.(live := Whole(RestoredWorld), aside := Whole(PreviousWorld), staged := Missing,
                      settings := Some(restored), journal := Some(checking), clock := s.clock + 5);
    var moved := Rename(Rename(WriteJournal(s, f, j).sys, f, Live, Aside).sys, f, Staged, Live);
    assert moved == Did(swapped.(settings := s.settings, journal := Some(j), clock := s.clock + 3), true);
    assert SaveRestored(moved.sys, f, j) == Out(swapped, checking, true);
    FailedStartReverts(swapped, f, checking);
    var o := FinishRestore(swapped, f, checking);
    assert SwapWorlds(s, f, j) == o.(ok := o.j.state == Done);
  }

  /** The same of a recovery that finds the restored world in place. */
  lemma FailedRecheckPutsBack(s: Sys, f: Fates, j: Journal)
    requires Swapped(s, j) && !j.stopped && f(s.clock, ServerStep).Fails?
    ensures var end := Resume(s, f);
            && (end.journal.None? <==> UndoWorks(f, s.clock + 1) && f(s.clock + 7, RemoveStep) == Happens)
            && (UndoWorks(f, s.clock + 1) ==> SwappedBack(end, j) && end.kept == s.kept)
  {
    FailedStartReverts(s, f, j);
  }

  // ---------- when recovery mixes world and settings ----------

  ghost predicate CalmSince(f: Fates, n: nat) {
    forall k: nat, step :: k >= n ==> f(k, step) == Happens
  }

  /** An uninterrupted recovery of a moving journal ends with a matching pair exactly when some copy is
      still there to tell it how far the restore got. */
  lemma ResumePairsExactly(s: Sys, f: Fates, c: Choice)
    requires CalmSince(f, s.clock) && s.alive && MovingServer(s)
    requires Carries(s.journal.value, c) && c.previous != c.restored
    ensures Matching(Resume(s, f), c) <==> !CopiesGone(s)
    ensures Resume(s, f).journal.None?
  {
    var j := s.journal.value;
    var rolled := RollForward(s, f, j);
    if CanRoll(s) || CopiesGone(s) {
      CalmRolls(s, f, j);
      CalmKeeps(rolled.sys, f, rolled.j);
    } else {
      assert rolled == Out(s, j, false);
      CalmReverts(s, f, j);
    }
  }

  lemma CalmRolls(s: Sys, f: Fates, j: Journal)
    requires CalmSince(f, s.clock) && s.alive && MovingServer(s) && s.journal == Some(j)
    requires CanRoll(s) || CopiesGone(s)
    ensures var o := RollForward(s, f, j);
            && o.ok && o.j == j.(state := Checking) && o.sys.journal == Some(o.j) && o.sys.settings == Some(j.restored)
            && o.sys.live == (if CanRoll(s) then Whole(RestoredWorld) else Whole(PreviousWorld))
            && o.sys.failed == Missing && o.sys.alive && o.sys.clock >= s.clock
  {
  }

  lemma CalmKeeps(s: Sys, f: Fates, j: Journal)
    requires CalmSince(f, s.clock) && s.alive && j.hadLive && j.state == Checking
    ensures var o := FinishRestore(s, f, j);
            && o.j.state == Done && o.sys.kept && o.sys.aside == Missing
            && o.sys.live == s.live && o.sys.settings == s.settings && o.sys.failed == s.failed
            && o.sys.alive && o.sys.clock >= s.clock
  {
  }

  lemma CalmReverts(s: Sys, f: Fates, j: Journal)
    requires CalmSince(f, s.clock) && s.alive && Undoable(s) && OfServer(j)
    ensures var o := RevertRestore(s, f, j);
            && o.j.state == Done && Runs(o.sys, PreviousWorld, j.previous) && o.sys.aside == Missing
            && o.sys.failed == OutOfTheWay(s) && !o.sys.kept && o.sys.alive && o.sys.clock >= s.clock
  {
    var reverting := j.(state := Reverting);
    var written := WriteJournal(s, f, reverting);
    var stopped := AskServer(written.sys, f);
    assert written.ok && stopped.ok && Undoable(stopped.sys);
    CalmPutsBack(stopped.sys, f, reverting);
  }

  lemma CalmPutsBack(s: Sys, f: Fates, j: Journal)
    requires CalmSince(f, s.clock) && s.alive && Undoable(s) && OfServer(j) && j.state == Reverting
    ensures var o := PutPreviousBack(s, f, j);
            && o.ok && o.j.state == Reverting && Runs(o.sys, PreviousWorld, j.previous) && o.sys.aside == Missing
            && o.sys.failed == OutOfTheWay(s) && !o.sys.kept && o.sys.alive && o.sys.clock >= s.clock
  {
    if Exists(s, Aside) {
      var cleared := if Exists(s, Live) then Rename(s, f, Live, FailedCopy) else Did(s, true);
      var back := Rename(cleared.sys, f, Aside, Live);
      assert cleared.ok && back.ok && Exists(back.sys, Live);
    }
  }

  /** The pair property, exactly: whatever fails afterwards and whatever recovery does, a restore keeps the
      pair if and only if what it left is not stranded, which the folders and the journal tell
      (`Stranded`), and so do the steps of the restore (`Strands`). */
  lemma PairKeptExactly(s: Sys, f: Fates, restored: Config, stopped: bool)
    requires Ready(s) && s.settings != Some(restored)
    ensures var cut, c := RestoreOp(s, f, restored, stopped), Choice(s.settings.value, restored);
            && ((forall g: Fates, events :: PairKept(Run(cut, g, events), c)) <==> !Stranded(cut, c))
            && (Stranded(cut, c) <==> Strands(f, s.clock, false))
  {
    var cut, c := RestoreOp(s, f, restored, stopped), Choice(s.settings.value, restored);
    StrandsExactly(s, f, restored, stopped);
    if Stranded(cut, c) {
      StrandedMixes(s, f, restored, stopped, (n: nat, step: Step) => Happens);
    } else {
      forall g: Fates, events
        ensures PairKept(Run(cut, g, events), c)
      {
        RunKeepsPair(s, f, restored, stopped, g, events);
      }
    }
  }

  /** A stranded pair is mixed at once, or by the next uninterrupted recovery. */
  lemma StrandedMixes(s: Sys, f: Fates, restored: Config, stopped: bool, g: Fates)
    requires Ready(s) && s.settings != Some(restored)
    requires Stranded(RestoreOp(s, f, restored, stopped), Choice(s.settings.value, restored))
    requires CalmSince(g, RestoreOp(s, f, restored, stopped).clock)
    ensures var cut, c := RestoreOp(s, f, restored, stopped), Choice(s.settings.value, restored);
            !PairKept(if cut.journal.None? then Run(cut, g, []) else Run(cut, g, [StartsAndResumes]), c)
  {
    var cut, c := RestoreOp(s, f, restored, stopped), Choice(s.settings.value, restored);
    RestoreOpRecorded(s, f, restored, stopped, c);
    if cut.journal.Some? {
      var up := Restart(cut);
      assert MovingServer(up);
      ResumePairsExactly(up, g, c);
      assert Run(Resume(up, g), g, []) == Resume(up, g);
    }
  }

  /** Saving the settings fails, then the journal write that would say so, and the agent stops at the step
      that would remove the stage. */
  ghost predicate OneWriteLost(f: Fates, n: nat) {
    forall k: nat, step ::
      f(k, step) == if k == n + 3 || k == n + 4 then Fails(false) else if k == n + 8 then Stops(false) else Happens
  }

  /** The swap undone, with a journal that still says the worlds are moving. */
  function UndoneUnsaid(s: Sys, restored: Config): Sys {
    s.(staged := Missing, journal := Some(FreshJournal(s, restored, false)), alive := false, clock := s.clock + 9)
  }

  /** The shortest way: saving the restored settings fails, then one journal write, and the agent stops
      before the stage goes. The next start runs the previous world with the restored settings. */
  lemma OneLostWriteMixes(s: Sys, f: Fates, restored: Config)
    requires Ready(s) && s.settings != Some(restored) && OneWriteLost(f, s.clock)
    ensures var end := Run(RestoreOp(s, f, restored, false), f, [StartsAndResumes]);
            end.journal.None? && !Matching(end, Choice(s.settings.value, restored))
  {
    var c := Choice(s.settings.value, restored);
    var left := UndoneUnsaid(s, restored);
    OneLostWriteLeaves(s, f, restored);
    ResumePairsExactly(Restart(left), f, c);
    assert Run(Resume(Restart(left), f), f, []) == Resume(Restart(left), f);
  }

  lemma OneLostWriteLeaves(s: Sys, f: Fates, restored: Config)
    requires Ready(s) && OneWriteLost(f, s.clock)
    ensures RestoreOp(s, f, restored, false) == UndoneUnsaid(s, restored)
  {
    var j, c := FreshJournal(s, restored, false), Choice(s.settings.value, restored);
    var swapped := SetAside(s, j).(live := s.staged, staged := Missing);
    assert Rename(Rename(WriteJournal(s, f, j).sys, f, Live, Aside).sys, f, Staged, Live)
        == Did(swapped.(clock := s.clock + 3), true);
    assert SaveRestored(swapped.(clock := s.clock + 3), f, j) == Out(swapped.(clock := s.clock + 4), j, false);
    UndoPutsBack(swapped.(clock := s.clock + 4), f, j, c);
  }
}
