/** How a restore, and each thing that finishes it, ends: which world and settings are in place, what
    became of the copies, and whether the stage went. */
module RestoreOutcomes {
  import opened Options
  import opened RestoreModel
  import opened RestoreSafety
  import opened RestorePairs
  import opened RestoreConvergence

  /** The stage's removal, tried at step `n`. */
  predicate Removes(f: Fates, n: nat) { f(n, RemoveStep) == Happens }

  /** Everything but the copy set aside and the stage. */
  predicate SameServer(a: Sys, b: Sys) {
    && a.live == b.live && a.settings == b.settings && a.failed == b.failed
    && a.kept == b.kept && a.discarded == b.discarded
  }

  lemma CopyGoes(s: Sys, f: Fates)
    requires s.alive
    ensures var o := RemoveCopy(s, f, Aside);
            && SameServer(o.sys, s) && o.sys.journal == s.journal && o.sys.staged == s.staged && o.sys.clock == s.clock + 1
            && (o.sys.aside == Missing <==> s.aside == Missing || Removes(f, s.clock))
            && (o.ok <==> Removes(f, s.clock)) && (o.sys.alive <==> !f(s.clock, RemoveStep).Stops?)
  {
  }

  lemma StageGoes(s: Sys, f: Fates)
    ensures var end := RemoveStage(s, f).sys;
            && SameServer(end, s) && end.aside == s.aside
            && (s.journal.Some? ==> (end.journal.None? <==> s.alive && Removes(f, s.clock)))
            && (end.journal.Some? ==> end.journal == s.journal && end.staged == s.staged)
  {
  }

  // ---------- a restored world that is checked again ----------

  /** The step of the journal write that says the restore is kept. */
  function KeptStep(j: Journal, n: nat): nat { if j.stopped then n else n + 1 }

  /** The restored world is kept from step `n` on, where the journal is to say so: it is live with its
      settings, the restore is kept exactly when that write works, the copy set aside goes exactly when the
      write and its removal work, and the stage exactly when it can be removed. */
  predicate KeptFrom(end: Sys, f: Fates, n: nat, restored: Config) {
    && Runs(end, RestoredWorld, Some(restored)) && end.failed == Missing && end.staged == Missing
    && (end.kept <==> f(n, WriteStep) == Happens)
    && (end.aside == Missing <==> f(n, WriteStep) == Happens && Removes(f, n + 1))
    && (f(n, WriteStep) != Happens ==> end.aside == Whole(PreviousWorld))
    && (end.journal.None? <==> match f(n, WriteStep)
                               case Stops(_) => false
                               case Fails(_) => Removes(f, n + 1)
                               case Happens => !f(n + 1, RemoveStep).Stops? && Removes(f, n + 2))
  }

  /** A restored world found in place that comes online, or is not to be started, is kept, over every
      schedule. */
  lemma OnlineRecheckKeeps(s: Sys, f: Fates, j: Journal)
    requires Swapped(s, j) && s.settings == Some(j.restored) && !s.kept
    requires j.stopped || f(s.clock, ServerStep) == Happens
    ensures KeptFrom(Resume(s, f), f, KeptStep(j, s.clock), j.restored)
  {
    var asked := if j.stopped then s else AskServer(s, f).sys;
    KeepsRecorded(asked, f, j);
    assert RecoverRestore(s, f, j) == RecordKept(asked, f, j);
    var o := RecordKept(asked, f, j);
    if f(asked.clock, WriteStep) == Happens {
      CopyGoes(asked.(journal := Some(j.(state := Kept)), kept := true, clock := asked.clock + 1), f);
    }
    StageGoes(o.sys, f);
  }

  lemma KeepsRecorded(s: Sys, f: Fates, j: Journal)
    requires Swapped(s, j)
    ensures var o := RecordKept(s, f, j);
            && o.j.state == Done && o.ok
            && o.sys == (match f(s.clock, WriteStep)
                         case Stops(_) => Halt(s)
                         case Fails(_) => Tick(s)
                         case Happens =>
                           RemoveCopy(s.(journal := Some(j.(state := Kept)), kept := true, clock := s.clock + 1), f, Aside).sys)
  {
  }

  /** A restored world that may be starting when the agent stops is left for the next start. */
  lemma StoppedRecheckWaits(s: Sys, f: Fates, j: Journal)
    requires Swapped(s, j) && !j.stopped && f(s.clock, ServerStep).Stops?
    ensures Resume(s, f) == Halt(s)
  {
  }

  // ---------- tidying up a restore that is kept ----------

  predicate KeptServer(s: Sys) {
    s.alive && s.journal.Some? && s.journal.value.state == Kept && s.journal.value.hadLive
  }

  /** A recovery removes the copy set aside, and then the stage, whether or not the copy could go. */
  lemma KeptResumeTidies(s: Sys, f: Fates)
    requires KeptServer(s)
    ensures var end, n := Resume(s, f), s.clock;
            && SameServer(end, s)
            && (end.aside == Missing <==> s.aside == Missing || Removes(f, n))
            && (end.journal.None? <==> !f(n, RemoveStep).Stops? && Removes(f, n + 1))
            && (end.journal.Some? ==> end.journal == s.journal)
  {
    CopyGoes(s, f);
    StageGoes(RemoveCopy(s, f, Aside).sys, f);
  }

  /** Settled at start, the stage goes only once the copy could go. */
  lemma KeptPruneTidies(s: Sys, f: Fates)
    requires KeptServer(s)
    ensures var end, n := Prune(s, f), s.clock;
            && SameServer(end, s)
            && (end.aside == Missing <==> s.aside == Missing || Removes(f, n))
            && (end.journal.None? <==> Removes(f, n) && Removes(f, n + 1))
            && (end.journal.Some? ==> end.journal == s.journal)
  {
    CopyGoes(s, f);
    StageGoes(RemoveCopy(s, f, Aside).sys, f);
  }

  /** A checking journal that is no restore's to resume goes with its stage, and nothing else does. */
  lemma CheckingPruneLeaves(s: Sys, f: Fates)
    requires s.alive && s.journal.Some? && s.journal.value.state == Checking
    ensures var end := Prune(s, f);
            && SameServer(end, s) && end.aside == s.aside
            && (end.journal.None? <==> Removes(f, s.clock))
            && (end.journal.Some? ==> end.journal == s.journal && end.staged == s.staged)
  {
    StageGoes(s, f);
  }

  // ---------- a restore that stopped while the worlds moved, or while it was undone ----------

  /** The restore is over: nothing is left of its stage, the copy set aside is gone, and the server may
      start. */
  predicate Tidy(s: Sys) { s.journal.None? && s.staged == Missing && s.aside == Missing && s.alive && !StartRefused(s) }

  /** How an uninterrupted recovery of a moving journal ends: with the restored world and settings exactly
      when it can be rolled forward, with the previous ones when a failed copy shows that it was being undone,
      and with the previous world but the restored settings when no copy is left to tell. */
  lemma MovingResumeEnds(s: Sys, f: Fates)
    requires CalmSince(f, s.clock) && s.alive && MovingServer(s)
    ensures var end, j := Resume(s, f), s.journal.value;
            && Tidy(end)
            && (CanRoll(s) ==> Runs(end, RestoredWorld, Some(j.restored)) && end.kept && end.failed == Missing)
            && (CopiesGone(s) ==> Runs(end, PreviousWorld, Some(j.restored)) && end.kept)
            && (!CanRoll(s) && !CopiesGone(s) ==>
                  Runs(end, PreviousWorld, j.previous) && !end.kept && end.failed == OutOfTheWay(s))
  {
    var j := s.journal.value;
    var rolled := RollForward(s, f, j);
    if CanRoll(s) || CopiesGone(s) {
      CalmRolls(s, f, j);
      CalmKeeps(rolled.sys, f, rolled.j);
    } else {
      assert rolled == Out(s, j, false);
      CalmReverts(s, f, j);
    }
  }

  /** A roll forward that fails at any of its steps is undone. */
  lemma FailedRollPutsBack(s: Sys, f: Fates)
    requires s.alive && MovingServer(s)
    requires var rolled := RollForward(s, f, s.journal.value);
             !rolled.ok && rolled.sys.alive && CalmSince(f, rolled.sys.clock)
    ensures var end := Resume(s, f); Tidy(end) && Runs(end, PreviousWorld, s.journal.value.previous) && !end.kept
  {
    var j := s.journal.value;
    var rolled := RollForward(s, f, j);
    RollForwardSafe(s, f, j);
    FailedRollUndoable(s, f, j);
    CalmReverts(rolled.sys, f, rolled.j);
  }

  lemma FailedRollUndoable(s: Sys, f: Fates, j: Journal)
    requires MovingServer(s) && s.journal == Some(j) && !RollForward(s, f, j).ok
    ensures var o := RollForward(s, f, j); Undoable(o.sys) && OfServer(o.j) && o.j.previous == j.previous
  {
    var setAside := if Exists(s, Staged) && Exists(s, Live) then Rename(s, f, Live, Aside) else Did(s, true);
    var moved := if Exists(s, Staged) then Rename(setAside.sys, f, Staged, Live) else setAside;
    RollForwardSafe(s, f, j);
    assert RollForward(s, f, j).sys.journal == s.journal;
  }

  /** A restore that was being undone is undone. */
  lemma RevertingResumeEnds(s: Sys, f: Fates)
    requires CalmSince(f, s.clock) && s.alive && Undoable(s) && s.journal.value.state == Reverting
    ensures var end := Resume(s, f);
            && Tidy(end) && Runs(end, PreviousWorld, s.journal.value.previous) && !end.kept
            && end.failed == OutOfTheWay(s)
  {
    CalmReverts(s, f, s.journal.value);
  }

  // ---------- settling while the agent runs ----------

  /** A stage that is settled only waits to be removed. */
  lemma SettledStageGoes(s: Sys, f: Fates)
    requires s.alive && s.settled && s.journal.Some? && Exists(s, Live)
    ensures var end := SettleKept(s, f);
            && SameServer(end, s) && end.aside == s.aside
            && (end.journal.None? <==> f(s.clock, ServerStep) == Happens && Removes(f, s.clock + 1))
            && (end.journal.None? <==> !end.settled) && !StartRefused(end)
            && (end.journal.Some? ==> end.journal == s.journal)
  {
    var due := AskServer(s, f);
    if due.ok { StageGoes(due.sys, f); }
  }

  /** Settled while the agent runs, a kept restore's copy goes, and then its stage; a stage that can't be
      removed is remembered as settled. */
  lemma KeptSettles(s: Sys, f: Fates)
    requires KeptServer(s) && Exists(s, Live) && !s.settled
    ensures var end, n := SettleKept(s, f), s.clock;
            && SameServer(end, s)
            && (end.aside == Missing <==> s.aside == Missing || (f(n, ServerStep) == Happens && Removes(f, n + 1)))
            && (end.settled <==> f(n, ServerStep) == Happens && Removes(f, n + 1) && !Removes(f, n + 2))
            && (end.journal.None? <==> f(n, ServerStep) == Happens && Removes(f, n + 1) && Removes(f, n + 2))
            && (end.journal.Some? ==> end.journal == s.journal)
  {
    var due := AskServer(s, f);
    if due.ok {
      CopyGoes(due.sys, f);
      StageGoes(RemoveCopy(due.sys, f, Aside).sys.(settled := true), f);
    }
  }

  /** A world copy is deleted, when asked to, exactly when no restore is open, a live world exists and the
      deletion works; nothing else changes. */
  lemma DiscardDeletes(s: Sys, f: Fates, slot: Slot)
    requires s.alive && slot in {Aside, FailedCopy} && Exists(s, slot)
    ensures var end := DeleteCopy(s, f, slot);
            && (!Exists(end, slot) <==> s.journal.None? && Exists(s, Live) && Removes(f, s.clock))
            && end.live == s.live && end.staged == s.staged && end.settings == s.settings && end.journal == s.journal
            && (if slot == Aside then end.failed == s.failed else end.aside == s.aside)
  {
  }

  /** The restore is over at the next uninterrupted settle: at start, and while the agent runs once the
      world folder is back. */
  lemma UndoableSettles(s: Sys, f: Fates)
    requires CalmSince(f, s.clock) && s.alive && !s.settled && Undoable(s)
    ensures Tidy(Prune(s, f)) && Runs(Prune(s, f), PreviousWorld, s.journal.value.previous)
    ensures Exists(s, Live) ==> Tidy(SettleKept(s, f)) && Runs(SettleKept(s, f), PreviousWorld, s.journal.value.previous)
    ensures !Exists(s, Live) ==> SettleKept(s, f) == s
  {
    CalmSettles(s, f, s.journal.value);
    if Exists(s, Live) {
      var due := AskServer(s, f);
      CalmSettles(due.sys, f, s.journal.value);
    }
  }

  lemma CalmSettles(s: Sys, f: Fates, j: Journal)
    requires CalmSince(f, s.clock) && s.alive && Undoable(s) && s.journal == Some(j)
    ensures var o := SettleSwap(s, f, j);
            && o.ok && Runs(o.sys, PreviousWorld, j.previous) && o.sys.aside == Missing
            && o.sys.alive && o.sys.clock >= s.clock
  {
    var stopped := AskServer(s, f);
    if Exists(s, Aside) {
      var cleared := if Exists(s, Live) then Rename(stopped.sys, f, Live, FailedCopy) else stopped;
      var back := Rename(cleared.sys, f, Aside, Live);
      assert cleared.ok && back.ok && Exists(back.sys, Live);
    }
  }

  // ---------- the restore itself ----------

  /** The restored world and its settings are in place, and the journal says that they are checked. */
  function CheckedIn(s: Sys, j: Journal): Sys {
    SwappedIn(s, j).(settings := Some(j.restored), journal := Some(j.(state := Checking)), clock := s.clock + 5)
  }

  /** The steps up to the first start of the restored world. */
  predicate GetsIn(f: Fates, n: nat) {
    MovesWorlds(f, n) && f(n + 3, SaveStep) == f(n + 4, WriteStep) == Happens
  }

  /** What a finished restore leaves once its stage has gone, or could not go. */
  function Finished(o: Out, f: Fates): Sys { if o.j.state == Done then RemoveStage(o.sys, f).sys else o.sys }

  /** From there on a restore goes on as the recovery of one that was cut short there. */
  lemma RestoreThenRechecks(s: Sys, f: Fates, restored: Config, stopped: bool)
    requires Ready(s) && GetsIn(f, s.clock)
    ensures RestoreOp(s, f, restored, stopped) == Resume(CheckedIn(s, FreshJournal(s, restored, stopped)), f)
  {
    var j := FreshJournal(s, restored, stopped);
    var moved := CheckedIn(s, j);
    RestoreFinishes(s, f, restored, stopped, j, moved);
    RecheckFinishes(moved, f, j.(state := Checking));
  }

  lemma RecheckFinishes(s: Sys, f: Fates, j: Journal)
    requires s.journal == Some(j) && j.state == Checking
    ensures Resume(s, f) == Finished(FinishRestore(s, f, j), f)
  {
  }

  lemma RestoreFinishes(s: Sys, f: Fates, restored: Config, stopped: bool, j: Journal, moved: Sys)
    requires Ready(s) && GetsIn(f, s.clock) && j == FreshJournal(s, restored, stopped) && moved == CheckedIn(s, j)
    ensures RestoreOp(s, f, restored, stopped) == Finished(FinishRestore(moved, f, j.(state := Checking)), f)
  {
    SwapFromAside(s, f, j);
    SavesRestored(s, f, j);
    RecordFinishes(SwappedIn(s, j), f, j, moved, j.(state := Checking));
    SwappedFinishes(SwapWorlds(s, f, j), FinishRestore(moved, f, j.(state := Checking)), f);
  }

  lemma SavesRestored(s: Sys, f: Fates, j: Journal)
    requires Ready(s) && GetsIn(f, s.clock)
    ensures SaveRestored(SwappedIn(s, j), f, j) == Out(CheckedIn(s, j), j.(state := Checking), true)
  {
  }

  lemma RecordFinishes(s: Sys, f: Fates, j: Journal, saved: Sys, checking: Journal)
    requires SaveRestored(s, f, j) == Out(saved, checking, true)
    ensures var o := FinishRestore(saved, f, checking); RecordRestored(s, f, j) == o.(ok := o.j.state == Done)
  {
  }

  lemma SwappedFinishes(swapped: Out, o: Out, f: Fates)
    requires swapped == o.(ok := o.j.state == Done)
    ensures (if swapped.ok then RemoveStage(swapped.sys, f).sys else swapped.sys) == Finished(o, f)
  {
  }

  lemma CheckedInIs(s: Sys, restored: Config, stopped: bool, moved: Sys)
    requires Ready(s) && moved == CheckedIn(s, FreshJournal(s, restored, stopped))
    ensures moved.journal.Some? && Swapped(moved, moved.journal.value) && !moved.kept && moved.clock == s.clock + 5
    ensures moved.settings == Some(restored)
    ensures moved.journal.value.restored == restored && moved.journal.value.stopped == stopped
  {
  }

  /** A restored world that comes online, or is not to be started, is kept over every schedule. */
  lemma OnlineStartKeeps(s: Sys, f: Fates, restored: Config, stopped: bool)
    requires Ready(s) && GetsIn(f, s.clock) && (stopped || f(s.clock + 5, ServerStep) == Happens)
    ensures KeptFrom(RestoreOp(s, f, restored, stopped), f, if stopped then s.clock + 5 else s.clock + 6, restored)
  {
    RestoreThenRechecks(s, f, restored, stopped);
    var end, moved := RestoreOp(s, f, restored, stopped), CheckedIn(s, FreshJournal(s, restored, stopped));
    CheckedInIs(s, restored, stopped, moved);
    RecheckKeeps(end, moved, f, moved.journal.value);
  }

  lemma RecheckKeeps(end: Sys, s: Sys, f: Fates, j: Journal)
    requires end == Resume(s, f) && Swapped(s, j) && s.settings == Some(j.restored) && !s.kept
    requires j.stopped || f(s.clock, ServerStep) == Happens
    ensures KeptFrom(end, f, KeptStep(j, s.clock), j.restored)
  {
    OnlineRecheckKeeps(s, f, j);
  }

  /** Every step happens but the one numbered `k`, which fails. */
  ghost predicate OneFails(f: Fates, k: nat, halfway: bool) {
    forall m: nat, step :: f(m, step) == if m == k then Fails(halfway) else Happens
  }

  /** The steps of a restore before the restored world is started. */
  const BEFORE_START := 5

  /** The step that removes the stage of a restore that keeps its world. */
  function LastStep(stopped: bool): nat { if stopped then 7 else 8 }

  /** How a restore ends of which step `k` failed. If the step comes before the restored world is started,
      or is that start, the previous world and settings are in place, else the restored ones; a restored
      world that did not start is kept for inspection, and a stage that can't be removed stays with its
      journal. */
  predicate AllOrNothing(end: Sys, s: Sys, restored: Config, stopped: bool, k: nat) {
    var failsToStart := k == BEFORE_START && !stopped;
    && (if k < BEFORE_START || failsToStart then Runs(end, PreviousWorld, s.settings) && end.aside == Missing
        else Runs(end, RestoredWorld, Some(restored)))
    && (end.journal.None? <==> k != LastStep(stopped))
    && end.staged == Missing
    && end.failed == (if failsToStart then Whole(RestoredWorld) else Missing)
  }

  /** A restore of which any one step fails is all or nothing. */
  lemma OneFailureAllOrNothing(s: Sys, f: Fates, restored: Config, stopped: bool, k: nat, halfway: bool)
    requires Ready(s) && OneFails(f, s.clock + k, halfway)
    ensures AllOrNothing(RestoreOp(s, f, restored, stopped), s, restored, stopped, k)
  {
    var j := FreshJournal(s, restored, stopped);
    if k < 2 {
      UnmovedRestore(s, f, j, k, halfway);
    } else if k == 2 {
      HalfMovedRestore(s, f, j, halfway);
    } else if k < BEFORE_START {
      UnsavedRestore(s, f, j, k, halfway);
    } else {
      CheckedRestore(s, f, restored, stopped, k, halfway);
    }
  }

  /** Nothing is left of the restore. */
  predicate Undone(end: Sys, s: Sys) {
    && Runs(end, PreviousWorld, s.settings) && end.aside == Missing && end.failed == Missing
    && end.staged == Missing && end.journal.None?
  }

  lemma UnmovedRestore(s: Sys, f: Fates, j: Journal, k: nat, halfway: bool)
    requires Ready(s) && j.hadLive && j.state == Moving && OneFails(f, s.clock + k, halfway) && k < 2
    ensures Undone(Tidied(SwapWorlds(s, f, j), f), s)
  {
    var written := WriteJournal(s, f, j);
    if k == 0 { assert SwapWorlds(s, f, j) == Out(written.sys, j, true); }
    else { assert SwapWorlds(s, f, j) == Out(Rename(written.sys, f, Live, Aside).sys, j, true); }
  }

  lemma HalfMovedRestore(s: Sys, f: Fates, j: Journal, halfway: bool)
    requires Ready(s) && j.hadLive && j.state == Moving && OneFails(f, s.clock + 2, halfway)
    ensures Undone(Tidied(SwapWorlds(s, f, j), f), s)
  {
    SwapFromAside(s, f, j);
    var aside := SetAside(s, j).(clock := s.clock + 3);
    var noted := aside.(journal := Some(j.(state := Reverting)), clock := s.clock + 4);
    assert Undoing(aside, f, j) == Out(noted, j.(state := Reverting), true);
    assert Rename(noted, f, Aside, Live) == Did(noted.(live := s.live, aside := Missing, clock := s.clock + 5), true);
  }

  lemma UnsavedRestore(s: Sys, f: Fates, j: Journal, k: nat, halfway: bool)
    requires Ready(s) && j.hadLive && j.state == Moving && j.previous == s.settings
    requires OneFails(f, s.clock + k, halfway) && 3 <= k < 5
    ensures Undone(Tidied(SwapWorlds(s, f, j), f), s)
  {
    SwapFromAside(s, f, j);
    var moved := SwappedIn(s, j);
    var saved := SaveRestored(moved, f, j);
    assert !saved.ok && saved.sys == moved.(clock := saved.sys.clock) && saved.sys.clock > s.clock + k;
    CalmUndo(saved.sys, f, saved.j);
  }

  lemma CalmUndo(s: Sys, f: Fates, j: Journal)
    requires CalmSince(f, s.clock) && s.alive && j.hadLive
    requires s.live == Whole(RestoredWorld) && s.aside == Whole(PreviousWorld) && s.failed == Missing && s.staged == Missing
    ensures Undone(Tidied(UndoSave(s, f, j), f), s)
  {
    var undo := Undoing(s, f, j);
    var cleared := Rename(undo.sys, f, Live, FailedCopy);
    assert cleared.ok;
    var back := PutBack(cleared.sys, f, undo.j, FailedCopy);
    assert back.ok;
  }

  lemma CheckedRestore(s: Sys, f: Fates, restored: Config, stopped: bool, k: nat, halfway: bool)
    requires Ready(s) && OneFails(f, s.clock + k, halfway) && k >= BEFORE_START
    ensures AllOrNothing(RestoreOp(s, f, restored, stopped), s, restored, stopped, k)
  {
    if k == BEFORE_START && !stopped {
      FailedStartPutsBack(s, f, restored);
    } else {
      OnlineStartKeeps(s, f, restored, stopped);
      OneFailureKept(RestoreOp(s, f, restored, stopped), s, f, restored, stopped, k, halfway);
    }
  }

  lemma OneFailureKept(end: Sys, s: Sys, f: Fates, restored: Config, stopped: bool, k: nat, halfway: bool)
    requires OneFails(f, s.clock + k, halfway) && k >= BEFORE_START && !(k == BEFORE_START && !stopped)
    requires KeptFrom(end, f, if stopped then s.clock + 5 else s.clock + 6, restored)
    ensures AllOrNothing(end, s, restored, stopped, k)
  {
  }

  // ---------- a server that had no world ----------

  /** A verified backup in the stage, for a server without a world. */
  predicate ReadyEmpty(s: Sys) {
    && s.live == Missing && s.aside == Missing && s.failed == Missing && s.staged == Whole(RestoredWorld)
    && s.journal.None? && s.alive && !s.settled && !s.kept && !s.discarded
  }

  /** From step `n` on nothing fails but the server, which may not come online. */
  ghost predicate OnlyServerFails(f: Fates, n: nat) {
    forall k: nat, step :: k >= n ==> f(k, step) == Happens || (step == ServerStep && f(k, step).Fails?)
  }

  lemma FirstWorldChecked(s: Sys, f: Fates, j: Journal)
    requires OnlyServerFails(f, s.clock) && s.alive && !j.hadLive && !s.kept
    ensures var o := FinishRestore(s, f, j);
            && o.j.state == Done && o.sys.alive && o.sys.clock >= s.clock
            && (o.sys.kept <==> j.stopped || f(s.clock, ServerStep) == Happens)
            && o.sys.live == s.live && o.sys.settings == s.settings
            && o.sys.aside == s.aside && o.sys.failed == s.failed && o.sys.staged == s.staged
  {
    var asked := if j.stopped then Did(s, true) else AskServer(s, f);
    if asked.ok { assert FinishRestore(s, f, j) == RecordKept(asked.sys, f, j); }
  }

  /** A server that had no world keeps the restored one, whether or not it comes online. */
  lemma FirstWorldStays(s: Sys, f: Fates, restored: Config, stopped: bool)
    requires ReadyEmpty(s) && OnlyServerFails(f, s.clock)
    ensures var end := RestoreOp(s, f, restored, stopped);
            && Runs(end, RestoredWorld, Some(restored)) && CopiesGone(end) && end.journal.None?
            && (end.kept <==> stopped || f(s.clock + 4, ServerStep) == Happens)
  {
    var j := FreshJournal(s, restored, stopped);
    var moved := s.(live := Whole(RestoredWorld), staged := Missing, journal := Some(j), clock := s.clock + 2);
    FirstWorldMoves(s, f, j, moved);
    var checking := j.(state := Checking);
    FirstWorldChecked(moved.(settings := Some(restored), journal := Some(checking), clock := s.clock + 4), f, checking);
  }

  lemma FirstWorldMoves(s: Sys, f: Fates, j: Journal, moved: Sys)
    requires ReadyEmpty(s) && OnlyServerFails(f, s.clock) && !j.hadLive && j.state == Moving
    requires moved == s.(live := Whole(RestoredWorld), staged := Missing, journal := Some(j), clock := s.clock + 2)
    ensures var checking := j.(state := Checking);
            var o := FinishRestore(moved.(settings := Some(j.restored), journal := Some(checking), clock := s.clock + 4), f, checking);
            SwapWorlds(s, f, j) == o.(ok := o.j.state == Done)
  {
    var checking := j.(state := Checking);
    assert Rename(WriteJournal(s, f, j).sys, f, Staged, Live) == Did(moved, true);
    assert SaveRestored(moved, f, j)
        == Out(moved.(settings := Some(j.restored), journal := Some(checking), clock := s.clock + 4), checking, true);
  }

  /** The first world a server gets is whole in exactly one of the live folder and the stage; without a
      journal, or with one past moving, it is live. */
  predicate FirstWorld(s: Sys) {
    && s.aside == Missing && s.failed == Missing
    && ((s.live == Whole(RestoredWorld) && s.staged == Missing)
        || (s.live == Missing && s.staged == Whole(RestoredWorld) && s.journal.Some? && s.journal.value.state == Moving))
    && (s.journal.Some? ==> !s.journal.value.hadLive && s.journal.value.state in {Moving, Checking, Kept})
  }

  /** A restore of a server without a world, cut short anywhere past its first journal write with nothing
      failing but the server, leaves it so. */
  lemma FirstWorldBegins(s: Sys, f: Fates, restored: Config, stopped: bool)
    requires ReadyEmpty(s) && f(s.clock, WriteStep) == Happens
    requires forall n: nat, step :: f(n, step).Fails? ==> step == ServerStep
    ensures FirstWorld(RestoreOp(s, f, restored, stopped))
  {
    var j := FreshJournal(s, restored, stopped);
    FirstWorldSwaps(s, f, j);
    FirstWorldTidied(SwapWorlds(s, f, j), f);
  }

  lemma FirstWorldTidied(o: Out, f: Fates)
    requires FirstWorld(o.sys) && (o.sys.alive ==> o.sys.live == Whole(RestoredWorld))
    ensures FirstWorld(Tidied(o, f))
  {
  }

  lemma FirstWorldSwaps(s: Sys, f: Fates, j: Journal)
    requires ReadyEmpty(s) && f(s.clock, WriteStep) == Happens && !j.hadLive && j.state == Moving
    requires forall n: nat, step :: f(n, step).Fails? ==> step == ServerStep
    ensures var o := SwapWorlds(s, f, j); FirstWorld(o.sys) && (o.sys.alive ==> o.sys.live == Whole(RestoredWorld))
  {
    var written := s.(journal := Some(j), clock := s.clock + 1);
    assert WriteJournal(s, f, j) == Did(written, true);
    var moved := Rename(written, f, Staged, Live);
    if moved.ok {
      assert SwapWorlds(s, f, j) == RecordRestored(moved.sys, f, j);
      FirstWorldSaves(moved.sys, f, j);
    } else {
      assert SwapWorlds(s, f, j).sys == moved.sys && !moved.sys.alive;
    }
  }

  lemma FirstWorldSaves(s: Sys, f: Fates, j: Journal)
    requires FirstWorld(s) && s.alive && s.live == Whole(RestoredWorld) && s.journal == Some(j) && j.state == Moving
    requires forall n: nat, step :: f(n, step).Fails? ==> step == ServerStep
    ensures var o := RecordRestored(s, f, j); FirstWorld(o.sys) && o.sys.live == Whole(RestoredWorld)
  {
    var saved := SaveRestored(s, f, j);
    if saved.ok {
      FirstWorldFinishes(saved.sys, f, saved.j);
    } else {
      assert !saved.sys.alive && UndoSave(saved.sys, f, saved.j).sys == saved.sys;
    }
  }

  /** Nothing that follows such a restore loses it, whatever fails and wherever the agent stops. */
  lemma {:induction false} FirstWorldSurvives(s: Sys, f: Fates, events: seq<Event>)
    requires FirstWorld(s)
    ensures FirstWorld(Run(s, f, events))
    decreases |events|
  {
    if events != [] {
      match events[0] {
        case StartsAndResumes => FirstWorldResumes(Restart(s), f);
        case StartsAndPrunes => FirstWorldPrunes(Restart(s), f);
        case Settles => if s.alive { FirstWorldSettles(s, f); }
        case DiscardsAside =>
        case DiscardsFailed =>
      }
      FirstWorldSurvives(After(s, f, events[0]), f, events[1..]);
    }
  }

  lemma FirstWorldResumes(s: Sys, f: Fates)
    requires FirstWorld(s)
    ensures FirstWorld(Resume(s, f))
  {
    if s.journal.Some? {
      FirstWorldRecovers(s, f, s.journal.value);
      var done := RecoverRestore(s, f, s.journal.value);
      if done.j.state == Done { FirstWorldUnstaged(done.sys, f); }
    }
  }

  lemma FirstWorldUnstaged(s: Sys, f: Fates)
    requires FirstWorld(s) && s.live == Whole(RestoredWorld)
    ensures FirstWorld(RemoveStage(s, f).sys)
  {
  }

  lemma FirstWorldRecovers(s: Sys, f: Fates, j: Journal)
    requires FirstWorld(s) && s.journal == Some(j)
    ensures var o := RecoverRestore(s, f, j); FirstWorld(o.sys) && (o.j.state == Done ==> o.sys.live == Whole(RestoredWorld))
  {
    match j.state {
      case Moving =>
        FirstWorldRolls(s, f, j);
        var rolled := RollForward(s, f, j);
        if rolled.ok { FirstWorldFinishes(rolled.sys, f, rolled.j); }
      case Checking => FirstWorldFinishes(s, f, j);
      case _ =>
    }
  }

  lemma FirstWorldRolls(s: Sys, f: Fates, j: Journal)
    requires FirstWorld(s) && s.journal == Some(j) && j.state == Moving
    ensures var o := RollForward(s, f, j);
            && FirstWorld(o.sys) && !o.j.hadLive && o.j.state in {Moving, Checking}
            && (o.ok ==> o.sys.live == Whole(RestoredWorld) && o.j.state == Checking && o.sys.journal == Some(o.j))
  {
    var moved := if Exists(s, Staged) then Rename(s, f, Staged, Live) else Did(s, true);
    if moved.ok {
      assert RollForward(s, f, j) == FinishMoving(moved.sys, f, j);
      FirstWorldMoved(moved.sys, f, j);
    } else {
      assert RollForward(s, f, j) == Out(moved.sys, j, false);
    }
  }

  lemma FirstWorldMoved(s: Sys, f: Fates, j: Journal)
    requires FirstWorld(s) && s.live == Whole(RestoredWorld) && s.journal == Some(j) && j.state == Moving
    ensures var o := FinishMoving(s, f, j);
            && FirstWorld(o.sys) && !o.j.hadLive && o.j.state in {Moving, Checking} && o.sys.live == Whole(RestoredWorld)
            && (o.ok ==> o.j.state == Checking && o.sys.journal == Some(o.j))
  {
  }

  lemma FirstWorldFinishes(s: Sys, f: Fates, j: Journal)
    requires FirstWorld(s) && s.live == Whole(RestoredWorld) && s.journal == Some(j) && j.state == Checking
    ensures var o := FinishRestore(s, f, j);
            FirstWorld(o.sys) && o.sys.live == Whole(RestoredWorld) && o.sys.settings == s.settings
  {
    var asked := if j.stopped then Did(s, true) else AskServer(s, f);
    if asked.ok { assert FinishRestore(s, f, j) == RecordKept(asked.sys, f, j); }
  }

  /** An uninterrupted recovery finishes it. */
  lemma FirstWorldResumeEnds(s: Sys, f: Fates)
    requires FirstWorld(s) && s.alive && !s.kept && s.journal.Some? && s.journal.value.state == Moving
    requires OnlyServerFails(f, s.clock)
    ensures var end := Resume(s, f); Tidy(end) && Runs(end, RestoredWorld, Some(s.journal.value.restored))
  {
    var j := s.journal.value;
    FirstWorldRollsOn(s, f, j);
    var rolled := RollForward(s, f, j);
    FirstWorldChecked(rolled.sys, f, rolled.j);
  }

  lemma FirstWorldRollsOn(s: Sys, f: Fates, j: Journal)
    requires FirstWorld(s) && s.alive && !s.kept && s.journal == Some(j) && j.state == Moving && OnlyServerFails(f, s.clock)
    ensures var o := RollForward(s, f, j);
            && o.ok && Runs(o.sys, RestoredWorld, Some(j.restored)) && CopiesGone(o.sys)
            && o.j == j.(state := Checking) && o.sys.alive && !o.sys.kept && o.sys.clock >= s.clock
  {
  }

  lemma FirstWorldPrunes(s: Sys, f: Fates)
    requires FirstWorld(s)
    ensures FirstWorld(Prune(s, f))
  {
    if s.journal.Some? { FirstWorldSettled(s, f, s.journal.value); }
  }

  lemma FirstWorldSettles(s: Sys, f: Fates)
    requires FirstWorld(s)
    ensures FirstWorld(SettleKept(s, f))
  {
    var due := AskServer(s, f);
    if s.journal.Some? && due.ok { FirstWorldSettled(due.sys, f, s.journal.value); }
  }

  /** Settling moves nothing, and lets the stage go only once the world is live. */
  lemma FirstWorldSettled(s: Sys, f: Fates, j: Journal)
    requires FirstWorld(s) && s.journal == Some(j)
    ensures var o := SettleSwap(s, f, j);
            FirstWorld(o.sys) && o.sys.journal == s.journal && (o.ok ==> o.sys.live == Whole(RestoredWorld))
    ensures j.state == Moving ==> (SettleSwap(s, f, j).ok <==> !Exists(s, Staged)) && SettleSwap(s, f, j).sys == s
  {
  }
}
