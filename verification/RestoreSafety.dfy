/** The previous world survives every run of a restore, whatever fails and wherever the agent stops. */
module RestoreSafety {
  import opened Options
  import opened RestoreModel

  /** The previous world is whole in exactly one of the live folder and the copy set aside. */
  predicate PreviousWholeOnce(s: Sys) {
    (s.live == Whole(PreviousWorld)) != (s.aside == Whole(PreviousWorld))
  }

  predicate HoldsRestored(s: Sys, slot: Slot) { At(s, slot) == Whole(RestoredWorld) }

  /** Where the two worlds can be until the restore is kept: the restored world is never in two
      places, and it still exists while the previous world is aside. */
  predicate Layout(s: Sys) {
    && (s.staged == Missing || HoldsRestored(s, Staged))
    && (if s.live == Whole(PreviousWorld) then
          && s.aside == Missing
          && (s.failed == Missing || (s.failed.world == RestoredWorld && s.staged == Missing))
        else
          && s.aside == Whole(PreviousWorld)
          && (s.live == Missing || HoldsRestored(s, Live))
          && (s.failed == Missing || HoldsRestored(s, FailedCopy))
          && (HoldsRestored(s, Live) ==> s.staged == Missing && s.failed == Missing)
          && (HoldsRestored(s, Staged) ==> s.failed == Missing)
          && (s.live == Missing ==> HoldsRestored(s, Staged) || HoldsRestored(s, FailedCopy)))
  }

  /** Journals of a restore of a server that had a world and settings. */
  predicate OfServer(j: Journal) { j.hadLive && j.previous.Some? }

  predicate Open(s: Sys) {
    && Layout(s)
    && !s.kept && !s.discarded
    && (s.journal.None? ==> s.live != Missing)
    && (s.journal.Some? ==>
          && OfServer(s.journal.value)
          && s.journal.value.state !in {Kept, Done}
          && (s.journal.value.state == Checking ==> s.live != Missing))
  }

  /** The journal has said that the restore is kept, or no journal is left and the user has
      discarded the previous world's copy: the live world is whole. */
  predicate Closed(s: Sys) {
    && (s.kept || s.discarded)
    && s.live.Whole?
    && (s.journal.Some? ==> s.kept && OfServer(s.journal.value) && s.journal.value.state == Kept)
  }

  predicate Safe(s: Sys) { Open(s) || Closed(s) }

  /** The journal is still there, in a state the swap can be undone from. */
  predicate Undoable(s: Sys) {
    Open(s) && s.journal.Some? && s.journal.value.state in {Moving, Reverting}
  }

  lemma RenameLayout(s: Sys, f: Fates, src: Slot, dst: Slot)
    requires Undoable(s)
    requires (src, dst) in {(Live, FailedCopy), (Aside, Live), (Live, Aside), (Staged, Live), (Staged, FailedCopy)}
    requires (src, dst) == (Live, FailedCopy) ==> s.aside != Missing
    requires (src, dst) == (Staged, FailedCopy) ==> s.live == Missing
    requires (src, dst) == (Live, Aside) && s.live != Missing ==> s.staged != Missing
    ensures Undoable(Rename(s, f, src, dst).sys)
  {
  }

  lemma PutPreviousBackSafe(s: Sys, f: Fates, j: Journal)
    requires Undoable(s) && OfServer(j) && j.state in {Moving, Reverting}
    ensures var o := PutPreviousBack(s, f, j);
            Undoable(o.sys) && o.j.state == j.state && (o.ok ==> o.sys.live == Whole(PreviousWorld))
  {
    if Exists(s, Aside) {
      if Exists(s, Live) { RenameLayout(s, f, Live, FailedCopy); }
      var cleared := if Exists(s, Live) then Rename(s, f, Live, FailedCopy) else Did(s, true);
      if cleared.ok { MoveBackSafe(cleared.sys, f, j); }
    }
  }

  lemma MoveBackSafe(s: Sys, f: Fates, j: Journal)
    requires Undoable(s) && OfServer(j) && j.state in {Moving, Reverting}
    ensures var o := MoveBack(s, f, j);
            Undoable(o.sys) && o.j.state == j.state && (o.ok ==> o.sys.live == Whole(PreviousWorld))
  {
    RenameLayout(s, f, Aside, Live);
    var back := Rename(s, f, Aside, Live);
    if back.ok {
      assert back.sys.live == Whole(PreviousWorld);
      NoteMoveSafe(back.sys, f, j.(movedBack := true));
    }
  }

  lemma NoteMoveSafe(s: Sys, f: Fates, j: Journal)
    requires Undoable(s) && OfServer(j) && (j.state == Moving || j.state == Reverting)
    ensures var saved := SavePrevious(WriteJournal(s, f, j).sys, f, j).sys; Undoable(saved) && saved.live == s.live
  {
    var written := WriteJournal(s, f, j);
    assert Undoable(written.sys) && written.sys.live == s.live;
    SavePreviousSafe(written.sys, f, j);
  }

  lemma SavePreviousSafe(s: Sys, f: Fates, j: Journal)
    requires Undoable(s)
    ensures var saved := SavePrevious(s, f, j).sys; Undoable(saved) && saved.live == s.live
  {
  }

  lemma RevertSafe(s: Sys, f: Fates, j: Journal)
    requires Open(s) && OfServer(j) && s.journal.Some?
    ensures Open(RevertRestore(s, f, j).sys) && RevertRestore(s, f, j).sys.journal.Some?
    ensures RevertRestore(s, f, j).j.state in {Reverting, Done}
    ensures RevertRestore(s, f, j).j.state == Done ==> RevertRestore(s, f, j).sys.live == Whole(PreviousWorld)
  {
    var written := WriteJournal(s, f, j.(state := Reverting));
    if written.ok {
      var stopped := AskServer(written.sys, f);
      if stopped.ok { PutPreviousBackSafe(stopped.sys, f, j.(state := Reverting)); }
    }
  }

  lemma RecordKeptSafe(s: Sys, f: Fates, j: Journal)
    requires Open(s) && OfServer(j) && s.live != Missing && s.journal.Some?
    ensures Safe(RecordKept(s, f, j).sys)
  {
  }

  lemma FinishSafe(s: Sys, f: Fates, j: Journal)
    requires Open(s) && OfServer(j) && s.live != Missing && s.journal.Some?
    ensures Safe(FinishRestore(s, f, j).sys)
  {
    if j.stopped {
      RecordKeptSafe(s, f, j);
    } else {
      var online := AskServer(s, f);
      if online.ok { RecordKeptSafe(online.sys, f, j); }
      else if online.sys.alive { RevertSafe(online.sys, f, j); }
    }
  }

  lemma FinishMovingSafe(s: Sys, f: Fates, j: Journal)
    requires Undoable(s) && OfServer(j) && s.live != Missing
    ensures var o := FinishMoving(s, f, j);
            Open(o.sys) && OfServer(o.j) && o.sys.journal.Some? && o.sys.live == s.live
  {
  }

  lemma RollForwardSafe(s: Sys, f: Fates, j: Journal)
    requires Undoable(s) && OfServer(j)
    ensures var o := RollForward(s, f, j);
            Open(o.sys) && OfServer(o.j) && o.sys.journal.Some? && (o.ok ==> o.sys.live != Missing)
  {
    if Exists(s, FailedCopy) {
    } else if Exists(s, Staged) {
      if !(Exists(s, Live) && Exists(s, Aside)) {
        RenameLayout(s, f, Live, Aside);
        var setAside := if Exists(s, Live) then Rename(s, f, Live, Aside) else Did(s, true);
        RenameLayout(setAside.sys, f, Staged, Live);
        var moved := Rename(setAside.sys, f, Staged, Live);
        if setAside.ok && moved.ok { FinishMovingSafe(moved.sys, f, j); }
      }
    } else if Exists(s, Live) {
      FinishMovingSafe(s, f, j);
    }
  }

  lemma RecoverSafe(s: Sys, f: Fates, j: Journal)
    requires Safe(s) && s.journal == Some(j)
    ensures Safe(RecoverRestore(s, f, j).sys)
  {
    match j.state {
      case Moving =>
        RollForwardSafe(s, f, j);
        var rolled := RollForward(s, f, j);
        if rolled.ok { FinishSafe(rolled.sys, f, rolled.j); } else { RevertSafe(rolled.sys, f, rolled.j); }
      case Checking => FinishSafe(s, f, j);
      case Kept =>
      case Reverting => RevertSafe(s, f, j);
    }
  }

  lemma SettleSafe(s: Sys, f: Fates, j: Journal)
    requires Safe(s) && s.journal == Some(j)
    ensures Safe(SettleSwap(s, f, j).sys)
  {
    if j.state in {Moving, Reverting} {
      var stopped := AskServer(s, f);
      if stopped.ok { PutPreviousBackSafe(stopped.sys, f, j); }
    }
  }

  lemma RemoveStageSafe(s: Sys, f: Fates)
    requires Safe(s) && s.live != Missing
    ensures Safe(RemoveStage(s, f).sys)
  {
  }

  /** What an operation that says the world is safe leaves: a live world, so the stage can go. */
  lemma SwapWorldsSafe(s: Sys, f: Fates, j: Journal)
    requires Ready(s) && OfServer(j) && j.state == Moving
    ensures var o := SwapWorlds(s, f, j); Safe(o.sys) && (o.ok && o.sys.alive ==> o.sys.live != Missing)
  {
    var written := WriteJournal(s, f, j);
    if written.ok {
      RenameLayout(written.sys, f, Live, Aside);
      var setAside := Rename(written.sys, f, Live, Aside);
      if setAside.ok {
        RenameLayout(setAside.sys, f, Staged, Live);
        var moved := Rename(setAside.sys, f, Staged, Live);
        if moved.ok { RecordRestoredSafe(moved.sys, f, j); } else { UndoMoveSafe(moved.sys, f, j); }
      }
    }
  }

  lemma RecordRestoredSafe(s: Sys, f: Fates, j: Journal)
    requires Undoable(s) && OfServer(j) && j.state == Moving && s.live == Whole(RestoredWorld)
    ensures var o := RecordRestored(s, f, j); Safe(o.sys) && (o.ok && o.sys.alive ==> o.sys.live != Missing)
  {
    var saved := SaveRestored(s, f, j);
    if saved.ok {
      FinishSafe(saved.sys, f, saved.j);
      FinishDone(saved.sys, f, saved.j);
    } else {
      UndoSaveSafe(saved.sys, f, saved.j);
    }
  }

  lemma UndoMoveSafe(s: Sys, f: Fates, j: Journal)
    requires Undoable(s) && OfServer(j) && s.aside == Whole(PreviousWorld) && s.live == Missing
    ensures var o := UndoMove(s, f, j); Safe(o.sys) && (o.ok ==> o.sys.live != Missing)
  {
    var undo := Undoing(s, f, j);
    PutBackSafe(undo.sys, f, undo.j, Staged);
  }

  lemma PutBackSafe(s: Sys, f: Fates, j: Journal, restoredAt: Slot)
    requires Undoable(s) && OfServer(j) && restoredAt in {Staged, FailedCopy}
    requires s.aside == Whole(PreviousWorld) && s.live == Missing
    ensures var o := PutBack(s, f, j, restoredAt);
            Undoable(o.sys) && (o.ok ==> o.sys.live == Whole(PreviousWorld) && o.sys.staged == s.staged)
  {
    RenameLayout(s, f, Aside, Live);
    var back := Rename(s, f, Aside, Live);
    if !back.ok && restoredAt == Staged { RenameLayout(back.sys, f, Staged, FailedCopy); }
  }

  lemma UndoSaveSafe(s: Sys, f: Fates, j: Journal)
    requires Undoable(s) && OfServer(j) && s.live == Whole(RestoredWorld)
    ensures var o := UndoSave(s, f, j); Open(o.sys) && (o.ok ==> o.sys.live == Whole(PreviousWorld))
  {
    var undo := Undoing(s, f, j);
    RenameLayout(undo.sys, f, Live, FailedCopy);
    var cleared := Rename(undo.sys, f, Live, FailedCopy);
    if cleared.ok { PutBackSafe(cleared.sys, f, undo.j, FailedCopy); }
  }

  /** A restore that is done leaves a live world. */
  lemma FinishDone(s: Sys, f: Fates, j: Journal)
    requires Open(s) && OfServer(j) && j.state == Checking && s.live != Missing && s.journal.Some?
    ensures var o := FinishRestore(s, f, j); o.j.state == Done && o.sys.alive ==> o.sys.live != Missing
  {
    if !j.stopped {
      var online := AskServer(s, f);
      if !online.ok && online.sys.alive { RevertSafe(online.sys, f, j); }
    }
  }

  lemma RestoreOpSafe(s: Sys, f: Fates, restored: Config, stopped: bool)
    requires Ready(s)
    ensures Safe(RestoreOp(s, f, restored, stopped))
  {
    var j := FreshJournal(s, restored, stopped);
    SwapWorldsSafe(s, f, j);
    var swapped := SwapWorlds(s, f, j);
    if swapped.ok && swapped.sys.alive { RemoveStageSafe(swapped.sys, f); }
  }

  lemma ResumeSafe(s: Sys, f: Fates)
    requires Safe(s) && s.alive
    ensures Safe(Resume(s, f))
  {
    if s.journal.Some? {
      var j := s.journal.value;
      RecoverSafe(s, f, j);
      RecoverDone(s, f, j);
      var done := RecoverRestore(s, f, j);
      if done.j.state == Done && done.sys.alive { RemoveStageSafe(done.sys, f); }
    }
  }

  lemma RecoverDone(s: Sys, f: Fates, j: Journal)
    requires Safe(s) && s.journal == Some(j)
    ensures var o := RecoverRestore(s, f, j); o.j.state == Done && o.sys.alive ==> o.sys.live != Missing
  {
    match j.state {
      case Moving =>
        RollForwardSafe(s, f, j);
        var rolled := RollForward(s, f, j);
        if rolled.ok { FinishDone(rolled.sys, f, rolled.j); } else { RevertSafe(rolled.sys, f, rolled.j); }
      case Checking => FinishDone(s, f, j);
      case Kept =>
      case Reverting => RevertSafe(s, f, j);
    }
  }

  lemma SettleLive(s: Sys, f: Fates, j: Journal)
    requires Safe(s) && s.journal == Some(j)
    ensures var o := SettleSwap(s, f, j); o.ok ==> o.sys.live != Missing
  {
    if j.state in {Moving, Reverting} {
      var stopped := AskServer(s, f);
      if stopped.ok { PutPreviousBackSafe(stopped.sys, f, j); }
    }
  }

  lemma PruneSafe(s: Sys, f: Fates)
    requires Safe(s)
    ensures Safe(Prune(s, f))
  {
    if s.journal.Some? {
      var j := s.journal.value;
      SettleSafe(s, f, j);
      SettleLive(s, f, j);
      var done := SettleSwap(s, f, j);
      if done.ok { RemoveStageSafe(done.sys, f); }
    } else {
      RemoveStageSafe(s, f);
    }
  }

  lemma SettleKeptSafe(s: Sys, f: Fates)
    requires Safe(s)
    ensures Safe(SettleKept(s, f))
  {
    if s.journal.Some? && Exists(s, Live) {
      var due := AskServer(s, f);
      var j := s.journal.value;
      SettleSafe(due.sys, f, j);
      SettleLive(due.sys, f, j);
      var done := if s.settled then Out(due.sys, j, true) else SettleSwap(due.sys, f, j);
      if due.ok && done.ok { RemoveStageSafe(done.sys.(settled := true), f); }
    }
  }

  lemma AfterSafe(s: Sys, f: Fates, e: Event)
    requires Safe(s)
    ensures Safe(After(s, f, e))
  {
    match e {
      case StartsAndResumes => ResumeSafe(Restart(s), f);
      case StartsAndPrunes => PruneSafe(Restart(s), f);
      case Settles => SettleKeptSafe(s, f);
      case DiscardsAside => DiscardSafe(s, f, Aside);
      case DiscardsFailed => DiscardSafe(s, f, FailedCopy);
    }
  }

  lemma DiscardSafe(s: Sys, f: Fates, slot: Slot)
    requires Safe(s) && (slot == Aside || slot == FailedCopy)
    ensures Safe(DeleteCopy(s, f, slot))
  {
  }

  lemma {:induction false} RunSafe(s: Sys, f: Fates, events: seq<Event>)
    requires Safe(s)
    ensures Safe(Run(s, f, events))
    decreases |events|
  {
    if events != [] {
      AfterSafe(s, f, events[0]);
      RunSafe(After(s, f, events[0]), f, events[1..]);
    }
  }

  /** Whatever fails and wherever the agent stops, through any number of interrupted recoveries: until
      the journal durably says the restore is kept, or the user discards the copy of a restore that is
      over, the previous world is whole in exactly one place. Then, too, the live world is whole: a
      partly deleted copy is never put back. While a journal is left, asking to discard a copy changes
      nothing. */
  lemma PreviousWorldSurvives(s: Sys, f: Fates, restored: Config, stopped: bool, events: seq<Event>)
    requires Ready(s)
    ensures var end := Run(RestoreOp(s, f, restored, stopped), f, events);
            && (!end.kept && !end.discarded ==> PreviousWholeOnce(end))
            && (end.kept || end.discarded ==> end.live.Whole?)
            && !end.live.Partial?
            && (end.journal.Some? ==> !end.discarded || end.kept)
            && (end.journal.Some? ==> After(end, f, DiscardsAside) == After(end, f, DiscardsFailed) == end)
  {
    RestoreOpSafe(s, f, restored, stopped);
    RunSafe(RestoreOp(s, f, restored, stopped), f, events);
  }
}
