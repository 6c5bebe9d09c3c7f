/** World and settings end as a pair: a server without a journal runs the previous world with the
    previous settings or the restored world with the restored ones, and no start is let through while
    the two may be mixed. Every recovery keeps this, whatever fails; the restore itself can lose it in
    one way, `Strands`, which takes a journal write that fails. */
module RestorePairs {
  import opened Options
  import opened RestoreModel
  import opened RestoreSafety

  ghost predicate WritesSucceed(f: Fates) {
    forall n: nat :: !f(n, WriteStep).Fails?
  }

  /** The two settings a restore chooses between. */
  datatype Choice = Choice(previous: Config, restored: Config)

  predicate Matching(s: Sys, c: Choice) {
    || (s.live == Whole(PreviousWorld) && s.settings == Some(c.previous))
    || (s.live == Whole(RestoredWorld) && s.settings == Some(c.restored))
  }

  predicate Carries(j: Journal, c: Choice) {
    j.hadLive && j.previous == Some(c.previous) && j.restored == c.restored
  }

  predicate OneOf(s: Sys, c: Choice) { s.settings in {Some(c.previous), Some(c.restored)} }

  predicate Replaced(s: Sys, c: Choice) {
    s.live == Whole(RestoredWorld) && s.settings == Some(c.restored)
  }

  /** Only the live folder is left. */
  predicate CopiesGone(s: Sys) { s.aside == Missing && s.failed == Missing && s.staged == Missing }

  /** A mixed pair with no journal to mend it, or a journal that says the worlds are still moving when
      the previous one is back and the restored one deleted. */
  predicate Stranded(s: Sys, c: Choice) {
    if s.journal.None? then !Matching(s, c) else s.journal.value.state == Moving && CopiesGone(s)
  }

  /** The journal is about these two settings, and one that is past moving is right about the pair. */
  predicate Recorded(s: Sys, c: Choice) {
    && Safe(s) && OneOf(s, c)
    && (s.journal.Some? ==>
          && Carries(s.journal.value, c)
          && (s.settled ==> Matching(s, c))
          && (s.journal.value.state in {Checking, Kept} ==> Replaced(s, c)))
  }

  predicate Paired(s: Sys, c: Choice) { Recorded(s, c) && !Stranded(s, c) }

  /** No start is let through on a mixed pair, nor is one left without a journal; the settings are never
      anything but the previous or the restored ones. */
  predicate PairKept(s: Sys, c: Choice) {
    OneOf(s, c) && (s.journal.None? || !StartRefused(s) ==> Matching(s, c))
  }

  predicate CanUndo(s: Sys, c: Choice) { Paired(s, c) && Undoable(s) && !s.settled }

  lemma PutPreviousBackPairs(s: Sys, f: Fates, j: Journal, c: Choice)
    requires CanUndo(s, c) && Carries(j, c) && j.state == s.journal.value.state
    ensures var o := PutPreviousBack(s, f, j);
            && CanUndo(o.sys, c) && Carries(o.j, c) && o.j.state == j.state
            && (o.ok ==> o.sys.live == Whole(PreviousWorld) && o.sys.settings == Some(c.previous))
  {
    PutPreviousBackSafe(s, f, j);
    if Exists(s, Aside) {
      if Exists(s, Live) { RenameLayout(s, f, Live, FailedCopy); }
      var cleared := if Exists(s, Live) then Rename(s, f, Live, FailedCopy) else Did(s, true);
      if cleared.ok { MoveBackPairs(cleared.sys, f, j, c); }
    }
  }

  lemma MoveBackPairs(s: Sys, f: Fates, j: Journal, c: Choice)
    requires CanUndo(s, c) && Carries(j, c) && j.state == s.journal.value.state
    requires s.aside != Missing && s.live == Missing
    ensures var o := MoveBack(s, f, j);
            && CanUndo(o.sys, c) && Carries(o.j, c) && o.j.state == j.state
            && (o.ok ==> o.sys.live == Whole(PreviousWorld) && o.sys.settings == Some(c.previous))
  {
    RenameLayout(s, f, Aside, Live);
    var back := Rename(s, f, Aside, Live);
    if back.ok { SavePreviousPairs(WriteJournal(back.sys, f, j.(movedBack := true)).sys, f, j.(movedBack := true), c); }
  }

  lemma SavePreviousPairs(s: Sys, f: Fates, j: Journal, c: Choice)
    requires CanUndo(s, c) && Carries(j, c) && s.live == Whole(PreviousWorld)
    ensures var o := SavePrevious(s, f, j);
            && CanUndo(o.sys, c) && o.sys.live == s.live && (o.ok ==> o.sys.settings == Some(c.previous))
  {
  }

  lemma RevertPairs(s: Sys, f: Fates, j: Journal, c: Choice)
    requires Paired(s, c) && Open(s) && !s.settled && s.journal.Some? && Carries(j, c)
    ensures var o := RevertRestore(s, f, j);
            && Paired(o.sys, c) && !o.sys.settled
            && (o.j.state == Done ==> Matching(o.sys, c) && Open(o.sys))
  {
    RevertSafe(s, f, j);
    var reverting := j.(state := Reverting);
    var written := WriteJournal(s, f, reverting);
    if written.ok {
      var stopped := AskServer(written.sys, f);
      if stopped.ok { PutPreviousBackPairs(stopped.sys, f, reverting, c); }
    }
  }

  lemma RecordKeptPairs(s: Sys, f: Fates, j: Journal, c: Choice)
    requires Paired(s, c) && Open(s) && !s.settled && s.journal.Some? && Carries(j, c) && Replaced(s, c)
    ensures var o := RecordKept(s, f, j); Paired(o.sys, c) && Replaced(o.sys, c) && !o.sys.settled
  {
    RecordKeptSafe(s, f, j);
  }

  lemma FinishPairs(s: Sys, f: Fates, j: Journal, c: Choice)
    requires Paired(s, c) && Open(s) && !s.settled && s.journal.Some? && Carries(j, c) && Replaced(s, c)
    requires j.state == Checking
    ensures var o := FinishRestore(s, f, j);
            Paired(o.sys, c) && !o.sys.settled && (o.j.state == Done && o.sys.alive ==> Matching(o.sys, c))
  {
    if j.stopped {
      RecordKeptPairs(s, f, j, c);
    } else {
      var online := AskServer(s, f);
      if online.ok { RecordKeptPairs(online.sys, f, j, c); }
      else if online.sys.alive { RevertPairs(online.sys, f, j, c); }
    }
  }

  lemma FinishMovingPairs(s: Sys, f: Fates, j: Journal, c: Choice)
    requires CanUndo(s, c) && Carries(j, c) && s.journal.value.state == Moving
    requires s.live == Whole(RestoredWorld)
    ensures var o := FinishMoving(s, f, j);
            && Paired(o.sys, c) && Open(o.sys) && !o.sys.settled && o.sys.journal.Some? && Carries(o.j, c)
            && (o.ok ==> Replaced(o.sys, c) && o.j.state == Checking)
  {
    FinishMovingSafe(s, f, j);
  }

  lemma RollForwardPairs(s: Sys, f: Fates, j: Journal, c: Choice)
    requires CanUndo(s, c) && s.journal == Some(j) && j.state == Moving
    ensures var o := RollForward(s, f, j);
            && Paired(o.sys, c) && Open(o.sys) && !o.sys.settled && o.sys.journal.Some? && Carries(o.j, c)
            && (o.ok ==> Replaced(o.sys, c) && o.j.state == Checking)
  {
    RollForwardSafe(s, f, j);
    if Exists(s, FailedCopy) {
    } else if Exists(s, Staged) {
      if !(Exists(s, Live) && Exists(s, Aside)) {
        RenameLayout(s, f, Live, Aside);
        var setAside := if Exists(s, Live) then Rename(s, f, Live, Aside) else Did(s, true);
        RenameLayout(setAside.sys, f, Staged, Live);
        var moved := Rename(setAside.sys, f, Staged, Live);
        if setAside.ok && moved.ok { FinishMovingPairs(moved.sys, f, j, c); }
      }
    } else if Exists(s, Live) {
      FinishMovingPairs(s, f, j, c);
    }
  }

  lemma RecoverPairs(s: Sys, f: Fates, j: Journal, c: Choice)
    requires Paired(s, c) && !s.settled && s.journal == Some(j)
    ensures var o := RecoverRestore(s, f, j);
            Paired(o.sys, c) && !o.sys.settled && (o.j.state == Done && o.sys.alive ==> Matching(o.sys, c))
  {
    RecoverSafe(s, f, j);
    match j.state {
      case Moving =>
        RollForwardPairs(s, f, j, c);
        var rolled := RollForward(s, f, j);
        if rolled.ok { FinishPairs(rolled.sys, f, rolled.j, c); } else { RevertPairs(rolled.sys, f, rolled.j, c); }
      case Checking => FinishPairs(s, f, j, c);
      case Kept =>
      case Reverting => RevertPairs(s, f, j, c);
    }
  }

  lemma SettlePairs(s: Sys, f: Fates, j: Journal, c: Choice)
    requires Paired(s, c) && !s.settled && s.journal == Some(j)
    ensures var o := SettleSwap(s, f, j); Paired(o.sys, c) && !o.sys.settled && (o.ok ==> Matching(o.sys, c))
  {
    SettleSafe(s, f, j);
    if j.state in {Moving, Reverting} {
      var stopped := AskServer(s, f);
      if stopped.ok { PutPreviousBackPairs(stopped.sys, f, j, c); }
    }
  }

  lemma RemoveStagePairs(s: Sys, f: Fates, c: Choice)
    requires Paired(s, c) && Matching(s, c)
    ensures Paired(RemoveStage(s, f).sys, c) && Matching(RemoveStage(s, f).sys, c)
  {
    RemoveStageSafe(s, f);
  }

  lemma UndoSaveRecorded(s: Sys, f: Fates, j: Journal, c: Choice)
    requires CanUndo(s, c) && Carries(j, c) && s.live == Whole(RestoredWorld)
    ensures var o := UndoSave(s, f, j); Recorded(o.sys, c) && !o.sys.settled
  {
    UndoSaveSafe(s, f, j);
    var undo := Undoing(s, f, j);
    assert Carries(undo.sys.journal.value, c) && undo.sys.journal.value.state in {Moving, Reverting};
    var cleared := Rename(undo.sys, f, Live, FailedCopy);
    if cleared.ok {
      assert cleared.sys.journal == undo.sys.journal && cleared.sys.settings == s.settings;
      UndoSaveFrame(cleared.sys, f, undo.j);
    }
  }

  lemma UndoSaveFrame(s: Sys, f: Fates, j: Journal)
    ensures var back := PutBack(s, f, j, FailedCopy).sys;
            SameRecord(back, s) && SameRecord(RemoveCopy(back, f, FailedCopy).sys, s)
  {
    PutBackFrame(s, f, j, FailedCopy);
    RemoveCopyFrame(PutBack(s, f, j, FailedCopy).sys, f);
  }

  lemma RemoveCopyFrame(s: Sys, f: Fates)
    ensures SameRecord(RemoveCopy(s, f, FailedCopy).sys, s)
  {
  }

  /** Nothing is written down differently. */
  predicate SameRecord(a: Sys, b: Sys) { a.journal == b.journal && a.settings == b.settings && a.settled == b.settled }

  lemma UndoMoveRecorded(s: Sys, f: Fates, j: Journal, c: Choice)
    requires CanUndo(s, c) && Carries(j, c) && s.aside == Whole(PreviousWorld) && s.live == Missing
    ensures var o := UndoMove(s, f, j); Recorded(o.sys, c) && !o.sys.settled
  {
    var undo := Undoing(s, f, j);
    assert Carries(undo.sys.journal.value, c) && undo.sys.journal.value.state in {Moving, Reverting};
    PutBackSafe(undo.sys, f, undo.j, Staged);
    PutBackFrame(undo.sys, f, undo.j, Staged);
  }

  lemma PutBackFrame(s: Sys, f: Fates, j: Journal, restoredAt: Slot)
    ensures SameRecord(PutBack(s, f, j, restoredAt).sys, s)
  {
    RenameFrame(s, f, Aside, Live);
    RenameFrame(Rename(s, f, Aside, Live).sys, f, Staged, FailedCopy);
  }

  lemma RenameFrame(s: Sys, f: Fates, from: Slot, to: Slot)
    ensures SameRecord(Rename(s, f, from, to).sys, s)
  {
  }

  lemma SaveRestoredPairs(s: Sys, f: Fates, j: Journal, c: Choice)
    requires CanUndo(s, c) && Carries(j, c) && s.journal == Some(j) && j.state == Moving
    requires s.live == Whole(RestoredWorld)
    ensures var o := SaveRestored(s, f, j);
            && Paired(o.sys, c) && Open(o.sys) && !o.sys.settled && Carries(o.j, c)
            && (o.ok ==> o.sys.journal == Some(o.j) && o.j.state == Checking && Replaced(o.sys, c))
            && (!o.ok ==> CanUndo(o.sys, c) && o.sys.live == Whole(RestoredWorld))
  {
  }

  lemma RecordRestoredRecorded(s: Sys, f: Fates, j: Journal, c: Choice)
    requires CanUndo(s, c) && Carries(j, c) && s.journal == Some(j) && j.state == Moving
    requires s.live == Whole(RestoredWorld)
    ensures var o := RecordRestored(s, f, j); Recorded(o.sys, c) && !o.sys.settled
  {
    SaveRestoredPairs(s, f, j, c);
    var saved := SaveRestored(s, f, j);
    if saved.ok { FinishPairs(saved.sys, f, saved.j, c); } else { UndoSaveRecorded(saved.sys, f, saved.j, c); }
  }

  lemma SwapWorldsRecorded(s: Sys, f: Fates, j: Journal, c: Choice)
    requires Ready(s) && Carries(j, c) && j.state == Moving && s.settings == Some(c.previous)
    ensures var o := SwapWorlds(s, f, j); Recorded(o.sys, c) && !o.sys.settled
  {
    var written := WriteJournal(s, f, j);
    if written.ok {
      RenameLayout(written.sys, f, Live, Aside);
      var setAside := Rename(written.sys, f, Live, Aside);
      if setAside.ok {
        RenameLayout(setAside.sys, f, Staged, Live);
        var moved := Rename(setAside.sys, f, Staged, Live);
        if moved.ok { RecordRestoredRecorded(moved.sys, f, j, c); } else { UndoMoveRecorded(moved.sys, f, j, c); }
      }
    }
  }

  /** A restore, wherever it was cut short and whatever failed. */
  lemma RestoreOpRecorded(s: Sys, f: Fates, restored: Config, stopped: bool, c: Choice)
    requires Ready(s) && c == Choice(s.settings.value, restored)
    ensures Recorded(RestoreOp(s, f, restored, stopped), c)
  {
    var j := FreshJournal(s, restored, stopped);
    SwapWorldsSafe(s, f, j);
    SwapWorldsRecorded(s, f, j, c);
    var swapped := SwapWorlds(s, f, j);
    if swapped.ok && swapped.sys.alive { RemoveStageRecorded(swapped.sys, f, c); }
  }

  lemma RemoveStageRecorded(s: Sys, f: Fates, c: Choice)
    requires Recorded(s, c) && s.live != Missing
    ensures Recorded(RemoveStage(s, f).sys, c)
  {
    RemoveStageSafe(s, f);
  }

  lemma ResumePairs(s: Sys, f: Fates, c: Choice)
    requires Paired(s, c) && s.alive && !s.settled
    ensures Paired(Resume(s, f), c)
  {
    ResumeSafe(s, f);
    if s.journal.Some? {
      RecoverPairs(s, f, s.journal.value, c);
      var done := RecoverRestore(s, f, s.journal.value);
      if done.j.state == Done && done.sys.alive { RemoveStagePairs(done.sys, f, c); }
    }
  }

  lemma PrunePairs(s: Sys, f: Fates, c: Choice)
    requires Paired(s, c) && s.alive && !s.settled
    ensures Paired(Prune(s, f), c)
  {
    PruneSafe(s, f);
    if s.journal.Some? {
      SettlePairs(s, f, s.journal.value, c);
      var done := SettleSwap(s, f, s.journal.value);
      if done.ok { RemoveStagePairs(done.sys, f, c); }
    }
  }

  lemma AfterPairs(s: Sys, f: Fates, e: Event, c: Choice)
    requires Paired(s, c)
    ensures Paired(After(s, f, e), c)
  {
    match e {
      case StartsAndResumes => ResumePairs(Restart(s), f, c);
      case StartsAndPrunes => PrunePairs(Restart(s), f, c);
      case Settles =>
        if s.alive { SettleKeptPairs(s, f, c); }
      case DiscardsAside => DiscardPairs(s, f, Aside, c);
      case DiscardsFailed => DiscardPairs(s, f, FailedCopy, c);
    }
  }

  lemma DiscardPairs(s: Sys, f: Fates, slot: Slot, c: Choice)
    requires Paired(s, c) && (slot == Aside || slot == FailedCopy)
    ensures Paired(DeleteCopy(s, f, slot), c)
  {
    if s.journal.None? {
      DiscardSafe(s, f, slot);
      DiscardFrame(s, f, slot);
    } else {
      assert DeleteCopy(s, f, slot) == s;
    }
  }

  lemma DiscardFrame(s: Sys, f: Fates, slot: Slot)
    requires slot == Aside || slot == FailedCopy
    ensures var end := DeleteCopy(s, f, slot); end.live == s.live && end.settings == s.settings && end.journal == s.journal
  {
    if s.alive && !CopyDeletionRefused(s, slot) {
      var removed := RemoveCopy(s, f, slot).sys;
      assert removed.live == s.live && removed.settings == s.settings && removed.journal == s.journal;
    }
  }

  lemma SettleKeptPairs(s: Sys, f: Fates, c: Choice)
    requires Paired(s, c)
    ensures Paired(SettleKept(s, f), c)
  {
    SettleKeptSafe(s, f);
    if s.journal.Some? && Exists(s, Live) {
      var due := AskServer(s, f);
      var j := s.journal.value;
      if !s.settled { SettlePairs(due.sys, f, j, c); }
      var done := if s.settled then Out(due.sys, j, true) else SettleSwap(due.sys, f, j);
      if due.ok && done.ok { SettledStagePairs(done.sys, f, c); }
    }
  }

  lemma SettledStagePairs(s: Sys, f: Fates, c: Choice)
    requires Paired(s, c) && Matching(s, c)
    ensures var removed := RemoveStage(s.(settled := true), f);
            Paired(if removed.ok then removed.sys.(settled := false) else removed.sys, c)
  {
    assert Paired(s.(settled := true), c);
    RemoveStagePairs(s.(settled := true), f, c);
  }

  lemma {:induction false} RunPairs(s: Sys, f: Fates, events: seq<Event>, c: Choice)
    requires Paired(s, c)
    ensures Paired(Run(s, f, events), c)
    decreases |events|
  {
    if events != [] {
      AfterPairs(s, f, events[0], c);
      RunPairs(After(s, f, events[0]), f, events[1..], c);
    }
  }

  // ---------- when the restore itself loses the pair ----------

  /** From step `n` on, the restore undoes the swap, whether or not the journal can say so. */
  predicate SwapsBack(f: Fates, n: nat) {
    !f(n, WriteStep).Stops? && f(n + 1, RenameStep) == Happens && f(n + 2, RenameStep) == Happens
  }

  /** From step `n` on: the restore undoes the swap but can't say so in the journal, deletes the restored
      world, and the stage stays. */
  predicate UndoneUnnoted(f: Fates, n: nat) {
    && SwapsBack(f, n) && f(n, WriteStep).Fails?
    && f(n + 3, RemoveStep) == Happens && f(n + 4, RemoveStep) != Happens
  }

  /** From step `n` on, the restored settings saved for good: the restore undoes the swap, and the stage
      goes, or stays with a journal that can't say what was undone. */
  predicate UndoneMixed(f: Fates, n: nat) {
    && SwapsBack(f, n) && !f(n + 3, RemoveStep).Stops?
    && (f(n + 4, RemoveStep) == Happens || (f(n, WriteStep).Fails? && f(n + 3, RemoveStep) == Happens))
  }

  /** The restore that starts at step `n` moves the worlds but can't record it: saving the restored
      settings fails, or writing the journal after it, and then what undoing it needs fails as well. */
  predicate Strands(f: Fates, n: nat, sameSettings: bool) {
    MovesWorlds(f, n) && UnrecordedStrands(f, n + 3, sameSettings)
  }

  predicate MovesWorlds(f: Fates, n: nat) {
    f(n, WriteStep) == f(n + 1, RenameStep) == f(n + 2, RenameStep) == Happens
  }

  /** From saving the restored settings on. */
  predicate UnrecordedStrands(f: Fates, n: nat, sameSettings: bool) {
    match f(n, SaveStep)
    case Stops(_) => false
    case Fails(_) => UndoneUnnoted(f, n + 1)
    case Happens => f(n + 1, WriteStep).Fails? && UnsavedStrands(f, n + 2, sameSettings)
  }

  /** From saving the previous settings again on. */
  predicate UnsavedStrands(f: Fates, n: nat, sameSettings: bool) {
    match f(n, SaveStep)
    case Stops(_) => false
    case Fails(_) => if sameSettings then UndoneUnnoted(f, n + 1) else UndoneMixed(f, n + 1)
    case Happens => UndoneUnnoted(f, n + 1)
  }

  /** What is left once the stage of a swap that is over has gone, or could not go. */
  function Tidied(o: Out, f: Fates): Sys { if o.ok then RemoveStage(o.sys, f).sys else o.sys }

  /** The worlds are swapped, the restore still holds its first journal. */
  predicate JustSwapped(s: Sys, j: Journal, c: Choice) {
    && CanUndo(s, c) && Carries(j, c) && s.journal.value.state == Moving && s.alive
    && s.live == Whole(RestoredWorld)
  }

  lemma UndoneNotStranded(s: Sys, f: Fates, j: Journal, c: Choice)
    requires JustSwapped(s, j, c) && !SwapsBack(f, s.clock)
    ensures !Stranded(Tidied(UndoSave(s, f, j), f), c)
  {
    var undo := Undoing(s, f, j);
    var cleared := Rename(undo.sys, f, Live, FailedCopy);
    if cleared.ok { assert Exists(Rename(cleared.sys, f, Aside, Live).sys, Aside); }
  }

  /** The previous world back, the restored one next to it, and what the journal got to say. */
  function PutBackAs(s: Sys, j: Journal, noted: bool): Sys {
    s.(live := Whole(PreviousWorld), aside := Missing, failed := Whole(RestoredWorld),
       journal := if noted then Some(j.(state := Reverting)) else s.journal, clock := s.clock + 3)
  }

  lemma UndoPutsBack(s: Sys, f: Fates, j: Journal, c: Choice)
    requires JustSwapped(s, j, c) && SwapsBack(f, s.clock)
    ensures var back := PutBackAs(s, j, f(s.clock, WriteStep) == Happens);
            UndoSave(s, f, j) == Out(RemoveCopy(back, f, FailedCopy).sys, j.(state := Reverting), true)
  {
    var undo := Undoing(s, f, j);
    var cleared := Rename(undo.sys, f, Live, FailedCopy);
    assert Rename(cleared.sys, f, Aside, Live) == Did(PutBackAs(s, j, f(s.clock, WriteStep) == Happens), true);
  }

  lemma UndoStrands(s: Sys, f: Fates, j: Journal, c: Choice)
    requires JustSwapped(s, j, c)
    ensures Stranded(Tidied(UndoSave(s, f, j), f), c) <==>
              if s.settings == Some(c.previous) then UndoneUnnoted(f, s.clock) else UndoneMixed(f, s.clock)
  {
    if SwapsBack(f, s.clock) { UndoPutsBack(s, f, j, c); } else { UndoneNotStranded(s, f, j, c); }
  }

  /** Where saving the restored settings ends when it does not work. */
  lemma SaveRestoredFails(s: Sys, f: Fates, j: Journal, c: Choice)
    requires JustSwapped(s, j, c) && s.journal == Some(j) && s.settings == Some(c.previous)
    ensures var saved := SaveRestored(s, f, j);
            && (saved.ok <==> f(s.clock, SaveStep) == f(s.clock + 1, WriteStep) == Happens)
            && (!saved.ok ==> JustSwapped(saved.sys.(alive := true), saved.j, c))
            && (f(s.clock, SaveStep).Fails? ==>
                  saved.sys.alive && saved.sys.clock == s.clock + 1 && saved.sys.settings == Some(c.previous))
            && (f(s.clock, SaveStep) == Happens && f(s.clock + 1, WriteStep).Fails? ==>
                  && saved.sys.alive == !f(s.clock + 2, SaveStep).Stops? && saved.sys.clock == s.clock + 3
                  && saved.sys.settings == Some(if f(s.clock + 2, SaveStep) == Happens then c.previous else c.restored))
            && (f(s.clock, SaveStep).Stops? || (f(s.clock, SaveStep) == Happens && f(s.clock + 1, WriteStep).Stops?) ==>
                  !saved.sys.alive)
  {
  }

  lemma RecordStrands(s: Sys, f: Fates, j: Journal, c: Choice)
    requires JustSwapped(s, j, c) && s.journal == Some(j) && s.settings == Some(c.previous)
    ensures Stranded(Tidied(RecordRestored(s, f, j), f), c) <==> UnrecordedStrands(f, s.clock, c.previous == c.restored)
  {
    SaveRestoredFails(s, f, j, c);
    var saved := SaveRestored(s, f, j);
    if saved.ok { SavedKeeps(s, f, j, c); } else { UnsavedStrandsIff(s, f, j, c, saved); }
  }

  lemma UnsavedStrandsIff(s: Sys, f: Fates, j: Journal, c: Choice, saved: Out)
    requires JustSwapped(s, j, c) && s.journal == Some(j) && s.settings == Some(c.previous)
    requires saved == SaveRestored(s, f, j) && !saved.ok
    ensures RecordRestored(s, f, j) == UndoSave(saved.sys, f, saved.j)
    ensures Stranded(Tidied(UndoSave(saved.sys, f, saved.j), f), c) <==>
              UnrecordedStrands(f, s.clock, c.previous == c.restored)
  {
    SaveRestoredFails(s, f, j, c);
    if saved.sys.alive { UndoStrands(saved.sys, f, saved.j, c); } else { StoppedKeeps(saved.sys, f, saved.j, c); }
  }

  lemma StoppedKeeps(s: Sys, f: Fates, j: Journal, c: Choice)
    requires !s.alive && JustSwapped(s.(alive := true), j, c)
    ensures !Stranded(Tidied(UndoSave(s, f, j), f), c)
  {
    assert UndoSave(s, f, j).sys == s;
  }

  lemma SavedKeeps(s: Sys, f: Fates, j: Journal, c: Choice)
    requires JustSwapped(s, j, c) && s.journal == Some(j) && SaveRestored(s, f, j).ok
    ensures !Stranded(Tidied(RecordRestored(s, f, j), f), c)
  {
    SaveRestoredPairs(s, f, j, c);
    var saved := SaveRestored(s, f, j);
    FinishPairs(saved.sys, f, saved.j, c);
    var o := RecordRestored(s, f, j);
    if o.ok && o.sys.alive { RemoveStagePairs(o.sys, f, c); }
  }

  /** A restore that could not move the worlds leaves no stranded pair. */
  lemma UnmovedKeeps(s: Sys, f: Fates, j: Journal, c: Choice)
    requires Ready(s) && Carries(j, c) && j.state == Moving && s.settings == Some(c.previous)
    requires !(f(s.clock, WriteStep) == f(s.clock + 1, RenameStep) == Happens)
    ensures !Stranded(Tidied(SwapWorlds(s, f, j), f), c)
  {
    var written := WriteJournal(s, f, j);
    if !written.ok {
      assert SwapWorlds(s, f, j) == Out(written.sys, j, true);
    } else {
      var kept := Rename(written.sys, f, Live, Aside).sys;
      assert kept.staged == s.staged && SwapWorlds(s, f, j) == Out(kept, j, true);
    }
  }

  lemma UndoMoveKeeps(s: Sys, f: Fates, j: Journal, c: Choice)
    requires CanUndo(s, c) && Carries(j, c) && s.aside == Whole(PreviousWorld) && s.live == Missing
    requires s.settings == Some(c.previous)
    ensures !Stranded(Tidied(UndoMove(s, f, j), f), c)
  {
    var undo := Undoing(s, f, j);
    PutBackSafe(undo.sys, f, undo.j, Staged);
  }

  lemma HalfMovedKeeps(s: Sys, f: Fates, j: Journal, c: Choice)
    requires Ready(s) && Carries(j, c) && j.state == Moving && s.settings == Some(c.previous)
    requires f(s.clock, WriteStep) == f(s.clock + 1, RenameStep) == Happens && f(s.clock + 2, RenameStep) != Happens
    ensures !Stranded(Tidied(SwapWorlds(s, f, j), f), c)
  {
    SwapFromAside(s, f, j);
    UndoMoveKeeps(Rename(SetAside(s, j), f, Staged, Live).sys, f, j, c);
  }

  /** The journal is written and the previous world set aside. */
  function SetAside(s: Sys, j: Journal): Sys {
    s.(live := Missing, aside := s.live, journal := Some(j), clock := s.clock + 2)
  }

  /** The restored world is in its place. */
  function SwappedIn(s: Sys, j: Journal): Sys {
    SetAside(s, j).(live := s.staged, staged := Missing, clock := s.clock + 3)
  }

  lemma SwapFromAside(s: Sys, f: Fates, j: Journal)
    requires Ready(s) && j.hadLive && j.state == Moving
    requires f(s.clock, WriteStep) == f(s.clock + 1, RenameStep) == Happens
    ensures var moved := Rename(SetAside(s, j), f, Staged, Live);
            if f(s.clock + 2, RenameStep) == Happens
            then moved == Did(SwappedIn(s, j), true) && SwapWorlds(s, f, j) == RecordRestored(SwappedIn(s, j), f, j)
            else && moved.sys == SetAside(s, j).(clock := s.clock + 3, alive := moved.sys.alive)
                 && SwapWorlds(s, f, j) == UndoMove(moved.sys, f, j)
  {
    assert Rename(WriteJournal(s, f, j).sys, f, Live, Aside) == Did(SetAside(s, j), true);
  }

  lemma MovedStrands(s: Sys, f: Fates, j: Journal, c: Choice)
    requires Ready(s) && Carries(j, c) && j.state == Moving && s.settings == Some(c.previous) && MovesWorlds(f, s.clock)
    ensures Stranded(Tidied(SwapWorlds(s, f, j), f), c) <==> Strands(f, s.clock, c.previous == c.restored)
  {
    SwapFromAside(s, f, j);
    SwappedInStrands(s, f, j, c);
  }

  lemma SwappedInStrands(s: Sys, f: Fates, j: Journal, c: Choice)
    requires Ready(s) && Carries(j, c) && j.state == Moving && s.settings == Some(c.previous)
    ensures Stranded(Tidied(RecordRestored(SwappedIn(s, j), f, j), f), c) <==>
              UnrecordedStrands(f, s.clock + 3, c.previous == c.restored)
  {
    SwappedInIs(s, j, c);
    RecordStrands(SwappedIn(s, j), f, j, c);
  }

  lemma SwappedInIs(s: Sys, j: Journal, c: Choice)
    requires Ready(s) && Carries(j, c) && j.state == Moving && s.settings == Some(c.previous)
    ensures var swapped := SwappedIn(s, j);
            && JustSwapped(swapped, j, c) && swapped.journal == Some(j) && swapped.settings == Some(c.previous)
            && swapped.clock == s.clock + 3
  {
  }

  lemma SwapStrands(s: Sys, f: Fates, j: Journal, c: Choice)
    requires Ready(s) && Carries(j, c) && j.state == Moving && s.settings == Some(c.previous)
    ensures Stranded(Tidied(SwapWorlds(s, f, j), f), c) <==> Strands(f, s.clock, c.previous == c.restored)
  {
    if MovesWorlds(f, s.clock) {
      MovedStrands(s, f, j, c);
    } else if f(s.clock, WriteStep) == f(s.clock + 1, RenameStep) == Happens {
      HalfMovedStrands(s, f, j, c);
    } else {
      UnmovedStrands(s, f, j, c);
    }
  }

  lemma HalfMovedStrands(s: Sys, f: Fates, j: Journal, c: Choice)
    requires Ready(s) && Carries(j, c) && j.state == Moving && s.settings == Some(c.previous)
    requires f(s.clock, WriteStep) == f(s.clock + 1, RenameStep) == Happens && !MovesWorlds(f, s.clock)
    ensures Stranded(Tidied(SwapWorlds(s, f, j), f), c) <==> Strands(f, s.clock, c.previous == c.restored)
  {
    HalfMovedKeeps(s, f, j, c);
  }

  lemma UnmovedStrands(s: Sys, f: Fates, j: Journal, c: Choice)
    requires Ready(s) && Carries(j, c) && j.state == Moving && s.settings == Some(c.previous)
    requires !(f(s.clock, WriteStep) == f(s.clock + 1, RenameStep) == Happens)
    ensures Stranded(Tidied(SwapWorlds(s, f, j), f), c) <==> Strands(f, s.clock, c.previous == c.restored)
  {
    UnmovedKeeps(s, f, j, c);
  }

  /** A restore strands the pair exactly when its steps go as `Strands` says. */
  lemma StrandsExactly(s: Sys, f: Fates, restored: Config, stopped: bool)
    requires Ready(s)
    ensures Stranded(RestoreOp(s, f, restored, stopped), Choice(s.settings.value, restored)) <==>
              Strands(f, s.clock, s.settings == Some(restored))
  {
    SwapStrands(s, f, FreshJournal(s, restored, stopped), Choice(s.settings.value, restored));
  }

  /** After a restore that did not strand the pair, every run of recoveries, resumed or settled, keeps it,
      whatever fails and wherever they stop. */
  lemma RunKeepsPair(s: Sys, f: Fates, restored: Config, stopped: bool, g: Fates, events: seq<Event>)
    requires Ready(s) && !Stranded(RestoreOp(s, f, restored, stopped), Choice(s.settings.value, restored))
    ensures PairKept(Run(RestoreOp(s, f, restored, stopped), g, events), Choice(s.settings.value, restored))
  {
    var c := Choice(s.settings.value, restored);
    RestoreOpRecorded(s, f, restored, stopped, c);
    RunPairs(RestoreOp(s, f, restored, stopped), g, events, c);
  }

  /** After every run in which journal writes succeed: with no journal left, and whenever a start
      would be let through, world and settings match; the settings are never anything but the
      previous or the restored ones. */
  lemma WorldMatchesSettings(s: Sys, f: Fates, restored: Config, stopped: bool, events: seq<Event>)
    requires WritesSucceed(f) && Ready(s)
    ensures PairKept(Run(RestoreOp(s, f, restored, stopped), f, events), Choice(s.settings.value, restored))
  {
    StrandsExactly(s, f, restored, stopped);
    RunKeepsPair(s, f, restored, stopped, f, events);
  }
}
