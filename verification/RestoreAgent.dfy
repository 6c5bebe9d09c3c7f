/** The agent's own steps: methods that rename, write and save one after the other, each proved to
    leave what the function of the same name in RestoreModel says. */
module RestoreAgent {
  import opened Options
  import M = RestoreModel
  import Pairs = RestorePairs
  import Safety = RestoreSafety

  class Agent {
    /** What becomes of each step, by its number. */
    const fates: M.Fates

    var live: M.Folder
    var aside: M.Folder
    var failed: M.Folder
    var staged: M.Folder
    var settings: Option<M.Config>
    var journal: Option<M.Journal>
    var alive: bool
    var settled: bool
    ghost var kept: bool
    ghost var discarded: bool
    var clock: nat

    /** The journal in memory, which can be ahead of the one in the stage. */
    var j: M.Journal

    ghost function State(): M.Sys
      reads this
    {
      M.Sys(live, aside, failed, staged, settings, journal, alive, settled, kept, discarded, clock)
    }

    constructor (fates: M.Fates, world: M.Folder, backup: M.Folder, settings: Option<M.Config>, j: M.Journal)
      ensures this.fates == fates && this.j == j
      ensures State() == M.Sys(world, M.Missing, M.Missing, backup, settings, None, true, false, false, false, 0)
    {
      this.fates := fates;
      live, aside, failed, staged := world, M.Missing, M.Missing, backup;
      this.settings, journal, this.j := settings, None, j;
      alive, settled, kept, discarded, clock := true, false, false, false, 0;
    }

    method Look(slot: M.Slot) returns (folder: M.Folder)
      ensures folder == M.At(State(), slot)
    {
      match slot
      case Live => folder := live;
      case Aside => folder := aside;
      case FailedCopy => folder := failed;
      case Staged => folder := staged;
    }

    method Set(slot: M.Slot, folder: M.Folder)
      modifies this`live, this`aside, this`failed, this`staged
      ensures State() == M.Put(old(State()), slot, folder)
    {
      match slot
      case Live => live := folder;
      case Aside => aside := folder;
      case FailedCopy => failed := folder;
      case Staged => staged := folder;
    }

    method Move(src: M.Slot, dst: M.Slot, folder: M.Folder)
      modifies this`live, this`aside, this`failed, this`staged
      ensures State() == M.Put(M.Put(old(State()), dst, folder), src, M.Missing)
    {
      Set(dst, folder);
      Set(src, M.Missing);
    }

    // ---------- single steps ----------

    /** Takes the next step: what becomes of it, and of the agent. */
    method Take(step: M.Step) returns (fate: M.Fate)
      requires alive
      modifies this`clock, this`alive
      ensures fate == fates(old(clock), step)
      ensures State() == if fate.Stops? then M.Halt(old(State())) else M.Tick(old(State()))
    {
      fate := fates(clock, step);
      clock := clock + 1;
      alive := !fate.Stops?;
    }

    method RenameDir(src: M.Slot, dst: M.Slot) returns (ok: bool)
      requires src != dst
      modifies this
      ensures M.Did(State(), ok) == M.Rename(old(State()), fates, src, dst) && j == old(j)
    {
      if !alive { return false; }
      var from := Look(src);
      var to := Look(dst);
      var fate := Take(M.RenameStep);
      ok := fate.Happens? && from != M.Missing && to == M.Missing;
      if ok { Move(src, dst, from); }
    }

    method WriteSwapJournal() returns (ok: bool)
      modifies this
      ensures M.Did(State(), ok) == M.WriteJournal(old(State()), fates, j) && j == old(j)
    {
      if !alive { return false; }
      var fate := Take(M.WriteStep);
      ok := fate.Happens?;
      if ok {
        journal := Some(j);
        kept := kept || j.state == M.Kept;
      }
    }

    method SaveWithPack(c: M.Config) returns (ok: bool)
      modifies this
      ensures M.Did(State(), ok) == M.SaveSettings(old(State()), fates, c) && j == old(j)
    {
      if !alive { return false; }
      var fate := Take(M.SaveStep);
      ok := fate.Happens?;
      if ok { settings := Some(c); }
    }

    method RemoveStage() returns (ok: bool)
      modifies this
      ensures M.Did(State(), ok) == M.RemoveStage(old(State()), fates) && j == old(j)
    {
      if !alive { return false; }
      var fate := Take(M.RemoveStep);
      ok := fate.Happens?;
      if ok { staged, journal := M.Missing, None; }
    }

    method RemoveCopy(slot: M.Slot) returns (ok: bool)
      modifies this
      ensures M.Did(State(), ok) == M.RemoveCopy(old(State()), fates, slot) && j == old(j)
    {
      if !alive { return false; }
      var fate := Take(M.RemoveStep);
      var folder := Look(slot);
      ok := fate.Happens?;
      Set(slot, if ok then M.Missing else M.Gnawed(folder, fate.halfway));
    }

    method AskServer() returns (ok: bool)
      modifies this
      ensures M.Did(State(), ok) == M.AskServer(old(State()), fates) && j == old(j)
    {
      if !alive { return false; }
      var fate := Take(M.ServerStep);
      ok := fate.Happens?;
    }

    // ---------- putting the previous world back ----------

    method SavePrevious() returns (ok: bool)
      modifies this
      ensures M.Did(State(), ok) == M.SavePrevious(old(State()), fates, j) && j == old(j)
    {
      if live == M.Missing { return false; }
      if j.previous.None? { return true; }
      ok := SaveWithPack(j.previous.value);
    }

    method MoveBack() returns (ok: bool)
      modifies this
      ensures M.Out(State(), j, ok) == M.MoveBack(old(State()), fates, old(j))
    {
      var back := RenameDir(M.Aside, M.Live);
      if !back { return false; }
      j := j.(movedBack := true);
      var _ := WriteSwapJournal();
      ok := SavePrevious();
    }

    method PutPreviousBack() returns (ok: bool)
      modifies this
      ensures M.Out(State(), j, ok) == M.PutPreviousBack(old(State()), fates, old(j))
    {
      if aside == M.Missing {
        ok := SavePrevious();
        return;
      }
      if live != M.Missing {
        var cleared := RenameDir(M.Live, M.FailedCopy);
        if !cleared { return false; }
      }
      ok := MoveBack();
    }

    method RevertRestore() returns (ok: bool)
      modifies this
      ensures M.Out(State(), j, ok) == M.RevertRestore(old(State()), fates, old(j))
    {
      j := j.(state := M.Reverting);
      ok := WriteSwapJournal();
      if !ok { return; }
      ok := AskServer();
      if !ok { return; }
      ok := PutPreviousBack();
      if ok { j := j.(state := M.Done); }
    }

    // ---------- keeping the restored world ----------

    method KeepRestore(keepCopy: bool)
      modifies this
      ensures M.Out(State(), j, true) == M.KeepRestore(old(State()), fates, old(j), keepCopy)
    {
      if j.hadLive && !keepCopy { var _ := RemoveCopy(M.Aside); }
      j := j.(state := M.Done);
    }

    method RecordKept()
      modifies this
      ensures M.Out(State(), j, true) == M.RecordKept(old(State()), fates, old(j))
    {
      j := j.(state := M.Kept);
      var written := WriteSwapJournal();
      KeepRestore(!written);
    }

    method FinishRestore() returns (ok: bool)
      modifies this
      ensures M.Out(State(), j, ok) == M.FinishRestore(old(State()), fates, old(j))
    {
      if j.stopped {
        RecordKept();
        return true;
      }
      var online := AskServer();
      if online {
        RecordKept();
        return true;
      }
      if !alive { return true; }
      if !j.hadLive || j.previous.None? {
        j := j.(state := M.Done);
        return false;
      }
      ok := RevertRestore();
    }

    // ---------- the restore itself ----------

    method PutBack(restoredAt: M.Slot) returns (ok: bool)
      modifies this
      ensures M.Did(State(), ok) == M.PutBack(old(State()), fates, old(j), restoredAt) && j == old(j)
    {
      if !j.hadLive { return true; }
      ok := RenameDir(M.Aside, M.Live);
      if !ok && restoredAt == M.Staged { var _ := RenameDir(M.Staged, M.FailedCopy); }
    }

    method Undoing() returns (ok: bool)
      modifies this
      ensures M.Out(State(), j, ok) == M.Undoing(old(State()), fates, old(j))
    {
      if !j.hadLive { return true; }
      j := j.(state := M.Reverting);
      ok := WriteSwapJournal();
    }

    method SaveRestored() returns (ok: bool)
      modifies this
      ensures M.Out(State(), j, ok) == M.SaveRestored(old(State()), fates, old(j))
    {
      ok := SaveWithPack(j.restored);
      if !ok { return; }
      j := j.(state := M.Checking);
      ok := WriteSwapJournal();
      if !ok && j.previous.Some? { var _ := SaveWithPack(j.previous.value); }
    }

    method UndoSave() returns (ok: bool)
      modifies this
      ensures M.Out(State(), j, ok) == M.UndoSave(old(State()), fates, old(j))
    {
      var _ := Undoing();
      ok := RenameDir(M.Live, M.FailedCopy);
      if !ok { return; }
      ok := PutBack(M.FailedCopy);
      if ok { var _ := RemoveCopy(M.FailedCopy); }
    }

    method SwapWorlds() returns (worldSafe: bool)
      modifies this
      ensures M.Out(State(), j, worldSafe) == M.SwapWorlds(old(State()), fates, old(j))
    {
      var written := WriteSwapJournal();
      if !written { return true; }
      if j.hadLive {
        var setAside := RenameDir(M.Live, M.Aside);
        if !setAside { return true; }
      }
      var moved := RenameDir(M.Staged, M.Live);
      if !moved {
        var _ := Undoing();
        worldSafe := PutBack(M.Staged);
        return;
      }
      var saved := SaveRestored();
      if !saved {
        worldSafe := UndoSave();
        return;
      }
      var _ := FinishRestore();
      worldSafe := j.state == M.Done;
    }

    method RestoreOp(restored: M.Config, stopped: bool)
      modifies this
      ensures State() == M.RestoreOp(old(State()), fates, restored, stopped)
    {
      j := M.Journal(live != M.Missing, settings, restored, M.Moving, false, stopped);
      var worldSafe := SwapWorlds();
      if worldSafe { var _ := RemoveStage(); }
    }

    // ---------- recovery ----------

    method FinishMoving() returns (ok: bool)
      modifies this
      ensures M.Out(State(), j, ok) == M.FinishMoving(old(State()), fates, old(j))
    {
      ok := SaveWithPack(j.restored);
      if !ok { return; }
      j := j.(state := M.Checking);
      ok := WriteSwapJournal();
    }

    method RollForward() returns (ok: bool)
      modifies this
      ensures M.Out(State(), j, ok) == M.RollForward(old(State()), fates, old(j))
    {
      if failed != M.Missing { return false; }
      if staged != M.Missing {
        if live != M.Missing {
          if !j.hadLive || aside != M.Missing { return false; }
          ok := RenameDir(M.Live, M.Aside);
          if !ok { return; }
        }
        ok := RenameDir(M.Staged, M.Live);
        if !ok { return; }
      } else if live == M.Missing {
        return false;
      }
      ok := FinishMoving();
    }

    method RecoverRestore() returns (ok: bool)
      modifies this
      ensures M.Out(State(), j, ok) == M.RecoverRestore(old(State()), fates, old(j))
    {
      match j.state
      case Moving =>
        ok := RollForward();
        if ok { ok := FinishRestore(); }
        else if j.hadLive && j.previous.Some? { ok := RevertRestore(); }
      case Checking => ok := FinishRestore();
      case Kept => KeepRestore(false); ok := true;
      case Reverting => ok := RevertRestore();
      case Done => ok := false;
    }

    method SettleSwap() returns (ok: bool)
      modifies this
      ensures M.Out(State(), j, ok) == M.SettleSwap(old(State()), fates, old(j))
    {
      match j.state
      case Kept => ok := RemoveCopy(M.Aside);
      case Checking => ok := true;
      case Done => ok := false;
      case Moving | Reverting =>
        if !j.hadLive || j.previous.None? { return staged == M.Missing; }
        ok := AskServer();
        if ok { ok := PutPreviousBack(); }
    }

    method Restart()
      modifies this
      ensures State() == M.Restart(old(State())) && j == old(j)
    {
      alive, settled := true, false;
    }

    method Resume()
      modifies this
      ensures State() == M.Resume(old(State()), fates)
    {
      if journal.None? { return; }
      j := journal.value;
      var _ := RecoverRestore();
      if j.state == M.Done { var _ := RemoveStage(); }
    }

    method Prune()
      modifies this
      ensures State() == M.Prune(old(State()), fates)
    {
      if journal.Some? {
        j := journal.value;
        var ok := SettleSwap();
        if !ok { return; }
      }
      var _ := RemoveStage();
    }

    method SettleKept()
      modifies this
      ensures State() == M.SettleKept(old(State()), fates)
    {
      if journal.None? || live == M.Missing { return; }
      var due := AskServer();
      if !due { return; }
      if !settled {
        j := journal.value;
        var ok := SettleSwap();
        if !ok { return; }
        settled := true;
      }
      var removed := RemoveStage();
      if removed { settled := false; }
    }

    /** Refuses a start while a journal is left that isn't settled: a start let through, of a restore
        that recorded the pair of settings `c`, runs a matching pair. */
    method StartRefusal(ghost c: Pairs.Choice) returns (refused: bool)
      ensures refused == M.StartRefused(State())
      ensures Pairs.Paired(State(), c) && !refused ==> Pairs.Matching(State(), c)
    {
      refused := journal.Some? && !settled;
    }

    method DeleteCopy(slot: M.Slot)
      modifies this
      ensures State() == M.DeleteCopy(old(State()), fates, slot)
    {
      var folder := Look(slot);
      if !alive || folder == M.Missing || journal.Some? || live == M.Missing { return; }
      var _ := RemoveCopy(slot);
      discarded := discarded || slot == M.Aside;
    }

    // ---------- whole runs ----------

    method Handle(e: M.Event)
      modifies this
      ensures State() == M.After(old(State()), fates, e)
    {
      match e
      case StartsAndResumes => Restart(); Resume();
      case StartsAndPrunes => Restart(); Prune();
      case Settles => if alive { SettleKept(); }
      case DiscardsAside => DeleteCopy(M.Aside);
      case DiscardsFailed => DeleteCopy(M.FailedCopy);
    }

    /** A restore and whatever follows it: the previous world survives, and no start is let through on a
        mixed pair, nor one left without a journal, unless the restore's own steps strand it, which
        takes a journal write that fails. */
    method RestoreAndRecover(restored: M.Config, stopped: bool, events: seq<M.Event>)
      requires M.Ready(State())
      modifies this
      ensures State() == M.Run(M.RestoreOp(old(State()), fates, restored, stopped), fates, events)
      ensures !kept && !discarded ==> (live == M.Whole(M.PreviousWorld)) != (aside == M.Whole(M.PreviousWorld))
      ensures !Pairs.Strands(fates, old(clock), old(settings) == Some(restored)) ==>
                Pairs.PairKept(State(), Pairs.Choice(old(settings.value), restored))
      ensures Pairs.WritesSucceed(fates) ==> !Pairs.Strands(fates, old(clock), old(settings) == Some(restored))
    {
      ghost var start := State();
      Safety.PreviousWorldSurvives(start, fates, restored, stopped, events);
      Pairs.StrandsExactly(start, fates, restored, stopped);
      if !Pairs.Strands(fates, clock, settings == Some(restored)) {
        Pairs.RunKeepsPair(start, fates, restored, stopped, fates, events);
      }
      RestoreOp(restored, stopped);
      for i := 0 to |events|
        invariant M.Run(State(), fates, events[i..]) == M.Run(M.RestoreOp(start, fates, restored, stopped), fates, events)
      {
        assert events[i..][1..] == events[i + 1..];
        Handle(events[i]);
      }
    }
  }
}
