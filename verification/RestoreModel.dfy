/** What a world restore does to one server, as functions on the state it leaves behind.

    A restore replaces the live world by renaming folders, guarded by a journal in its stage. Every
    rename, journal write, settings save and stage removal is one step, and so is each question asked
    of the server's container. The agent takes its steps one after the other, and `Fates` says what
    becomes of each: it happens, it fails, or the agent stops there. Deleting a world copy is the one
    step that can stop halfway, leaving part of the copy.

    The methods of class Agent (RestoreAgent.dfy) are proved to compute these functions. */
module RestoreModel {
  import opened Options

  /** The world the server had, and the one from the backup. */
  datatype World = PreviousWorld | RestoredWorld

  datatype Folder = Missing | Whole(world: World) | Partial(world: World)

  /** A server's settings with the modpack record saved with them. */
  datatype Config = Config(id: nat)

  datatype SwapState = Moving | Checking | Kept | Reverting | Done

  datatype Journal = Journal(
    hadLive: bool, previous: Option<Config>, restored: Config,
    state: SwapState, movedBack: bool, stopped: bool)

  datatype Slot = Live | Aside | FailedCopy | Staged

  datatype Step = RenameStep | WriteStep | SaveStep | RemoveStep | ServerStep

  /** `halfway` matters only for deleting a world copy. */
  datatype Fate = Happens | Fails(halfway: bool) | Stops(halfway: bool)

  type Fates = (nat, Step) -> Fate

  /** Everything that decides how a restore goes on. `settled` is the agent's memory of a stage it
      settled but could not remove. `kept` and `discarded` only record history: the journal has said
      that the restore is kept, and the user has discarded the previous world's copy. */
  datatype Sys = Sys(
    live: Folder, aside: Folder, failed: Folder, staged: Folder,
    settings: Option<Config>, journal: Option<Journal>,
    alive: bool, settled: bool, kept: bool, discarded: bool, clock: nat)

  /** The state after one step, and whether the step succeeded. */
  datatype Did = Did(sys: Sys, ok: bool)

  /** The state after an operation on a journal, that journal in memory, and whether it succeeded. */
  datatype Out = Out(sys: Sys, j: Journal, ok: bool)

  function At(s: Sys, slot: Slot): Folder {
    match slot
    case Live => s.live
    case Aside => s.aside
    case FailedCopy => s.failed
    case Staged => s.staged
  }

  function Put(s: Sys, slot: Slot, folder: Folder): Sys {
    match slot
    case Live => s.(live := folder)
    case Aside => s.(aside := folder)
    case FailedCopy => s.(failed := folder)
    case Staged => s.(staged := folder)
  }

  predicate Exists(s: Sys, slot: Slot) { At(s, slot) != Missing }

  function Tick(s: Sys): Sys { s.(clock := s.clock + 1) }

  function Halt(s: Sys): Sys { Tick(s).(alive := false) }

  // ---------- single steps: a stopped agent takes none ----------

  /** A rename needs its source, and never replaces a folder that holds a world. */
  function Rename(s: Sys, f: Fates, src: Slot, dst: Slot): Did {
    if !s.alive then Did(s, false)
    else match f(s.clock, RenameStep)
      case Happens =>
        if Exists(s, src) && !Exists(s, dst)
        then Did(Tick(Put(Put(s, dst, At(s, src)), src, Missing)), true)
        else Did(Tick(s), false)
      case Fails(_) => Did(Tick(s), false)
      case Stops(_) => Did(Halt(s), false)
  }

  function WriteJournal(s: Sys, f: Fates, j: Journal): Did {
    if !s.alive then Did(s, false)
    else match f(s.clock, WriteStep)
      case Happens => Did(Tick(s.(journal := Some(j), kept := s.kept || j.state == Kept)), true)
      case Fails(_) => Did(Tick(s), false)
      case Stops(_) => Did(Halt(s), false)
  }

  function SaveSettings(s: Sys, f: Fates, c: Config): Did {
    if !s.alive then Did(s, false)
    else match f(s.clock, SaveStep)
      case Happens => Did(Tick(s.(settings := Some(c))), true)
      case Fails(_) => Did(Tick(s), false)
      case Stops(_) => Did(Halt(s), false)
  }

  /** Removes the stage: the staged world and the journal go together. */
  function RemoveStage(s: Sys, f: Fates): Did {
    if !s.alive then Did(s, false)
    else match f(s.clock, RemoveStep)
      case Happens => Did(Tick(s.(staged := Missing, journal := None)), true)
      case Fails(_) => Did(Tick(s), false)
      case Stops(_) => Did(Halt(s), false)
  }

  function Gnawed(folder: Folder, halfway: bool): Folder {
    if halfway && folder != Missing then Partial(folder.world) else folder
  }

  function RemoveCopy(s: Sys, f: Fates, slot: Slot): Did {
    if !s.alive then Did(s, false)
    else match f(s.clock, RemoveStep)
      case Happens => Did(Tick(Put(s, slot, Missing)), true)
      case Fails(halfway) => Did(Tick(Put(s, slot, Gnawed(At(s, slot), halfway))), false)
      case Stops(halfway) => Did(Halt(Put(s, slot, Gnawed(At(s, slot), halfway))), false)
  }

  /** Anything asked of the server's container: stopping it, whether it is stopped, whether it came
      online. An agent told to stop meanwhile leaves everything as it is, like one that is killed. */
  function AskServer(s: Sys, f: Fates): Did {
    if !s.alive then Did(s, false)
    else match f(s.clock, ServerStep)
      case Happens => Did(Tick(s), true)
      case Fails(_) => Did(Tick(s), false)
      case Stops(_) => Did(Halt(s), false)
  }

  // ---------- putting the previous world back ----------

  function SavePrevious(s: Sys, f: Fates, j: Journal): Did {
    if !Exists(s, Live) then Did(s, false)
    else if j.previous.Some? then SaveSettings(s, f, j.previous.value)
    else Did(s, true)
  }

  /** Moves the copy set aside into the live folder, and notes in the journal that it did. */
  function MoveBack(s: Sys, f: Fates, j: Journal): Out {
    var back := Rename(s, f, Aside, Live);
    if !back.ok then Out(back.sys, j, false)
    else
      var moved := j.(movedBack := true);
      var written := WriteJournal(back.sys, f, moved);
      var saved := SavePrevious(written.sys, f, moved);
      Out(saved.sys, moved, saved.ok)
  }

  function PutPreviousBack(s: Sys, f: Fates, j: Journal): Out {
    if !Exists(s, Aside) then
      var saved := SavePrevious(s, f, j);
      Out(saved.sys, j, saved.ok)
    else
      var cleared := if Exists(s, Live) then Rename(s, f, Live, FailedCopy) else Did(s, true);
      if !cleared.ok then Out(cleared.sys, j, false) else MoveBack(cleared.sys, f, j)
  }

  function RevertRestore(s: Sys, f: Fates, j: Journal): Out {
    var reverting := j.(state := Reverting);
    var written := WriteJournal(s, f, reverting);
    if !written.ok then Out(written.sys, reverting, false)
    else
      var stopped := AskServer(written.sys, f);
      if !stopped.ok then Out(stopped.sys, reverting, false)
      else
        var back := PutPreviousBack(stopped.sys, f, reverting);
        if back.ok then back.(j := back.j.(state := Done)) else back
  }

  // ---------- keeping the restored world ----------

  function KeepRestore(s: Sys, f: Fates, j: Journal, keepCopy: bool): Out {
    var tidied := if j.hadLive && !keepCopy then RemoveCopy(s, f, Aside).sys else s;
    Out(tidied, j.(state := Done), true)
  }

  /** Writes that the restore is kept; the previous world's copy goes only if that was saved. */
  function RecordKept(s: Sys, f: Fates, j: Journal): Out {
    var written := WriteJournal(s, f, j.(state := Kept));
    KeepRestore(written.sys, f, j.(state := Kept), !written.ok)
  }

  function FinishRestore(s: Sys, f: Fates, j: Journal): Out {
    if j.stopped then RecordKept(s, f, j)
    else
      var online := AskServer(s, f);
      if online.ok then RecordKept(online.sys, f, j)
      else if !online.sys.alive then Out(online.sys, j, true)
      else if !j.hadLive || j.previous.None? then Out(online.sys, j.(state := Done), false)
      else RevertRestore(online.sys, f, j)
  }

  // ---------- the restore itself ----------

  /** The steps of undoing a swap whose restored world is at `restoredAt`: the previous world goes
      back, or a restored world still in the stage leaves it, next to the live folder. */
  function PutBack(s: Sys, f: Fates, j: Journal, restoredAt: Slot): Did {
    if !j.hadLive then Did(s, true)
    else
      var back := Rename(s, f, Aside, Live);
      if back.ok then back
      else if restoredAt == Staged then Did(Rename(back.sys, f, Staged, FailedCopy).sys, false)
      else back
  }

  function Undoing(s: Sys, f: Fates, j: Journal): Out {
    if !j.hadLive then Out(s, j, true)
    else
      var written := WriteJournal(s, f, j.(state := Reverting));
      Out(written.sys, j.(state := Reverting), written.ok)
  }

  /** The restored world is in place: saves its settings and the journal's next state. When only the
      journal can't be written, the previous settings are saved again. */
  function SaveRestored(s: Sys, f: Fates, j: Journal): Out {
    var saved := SaveSettings(s, f, j.restored);
    if !saved.ok then Out(saved.sys, j, false)
    else
      var checking := j.(state := Checking);
      var written := WriteJournal(saved.sys, f, checking);
      if written.ok || j.previous.None? then Out(written.sys, checking, written.ok)
      else Out(SaveSettings(written.sys, f, j.previous.value).sys, checking, false)
  }

  /** Undoes a swap whose restored settings could not be recorded. `ok` says whether the world is safe
      and its stage can go. */
  function UndoSave(s: Sys, f: Fates, j: Journal): Out {
    var undo := Undoing(s, f, j);
    var cleared := Rename(undo.sys, f, Live, FailedCopy);
    if !cleared.ok then Out(cleared.sys, undo.j, false)
    else
      var back := PutBack(cleared.sys, f, undo.j, FailedCopy);
      if back.ok then Out(RemoveCopy(back.sys, f, FailedCopy).sys, undo.j, true)
      else Out(back.sys, undo.j, false)
  }

  /** Undoes a swap whose restored world could not be moved out of the stage. */
  function UndoMove(s: Sys, f: Fates, j: Journal): Out {
    var undo := Undoing(s, f, j);
    var back := PutBack(undo.sys, f, undo.j, Staged);
    Out(back.sys, undo.j, back.ok)
  }

  /** From the restored world being in place on. */
  function RecordRestored(s: Sys, f: Fates, j: Journal): Out {
    var saved := SaveRestored(s, f, j);
    if !saved.ok then UndoSave(saved.sys, f, saved.j)
    else
      var finished := FinishRestore(saved.sys, f, saved.j);
      finished.(ok := finished.j.state == Done)
  }

  /** From the journal's first write on; `ok` says whether the world is safe, so that its stage can go. */
  function SwapWorlds(s: Sys, f: Fates, j: Journal): Out {
    var written := WriteJournal(s, f, j);
    if !written.ok then Out(written.sys, j, true)
    else
      var setAside := if j.hadLive then Rename(written.sys, f, Live, Aside) else Did(written.sys, true);
      if !setAside.ok then Out(setAside.sys, j, true)
      else
        var moved := Rename(setAside.sys, f, Staged, Live);
        if moved.ok then RecordRestored(moved.sys, f, j) else UndoMove(moved.sys, f, j)
  }

  function FreshJournal(s: Sys, restored: Config, stopped: bool): Journal {
    Journal(Exists(s, Live), s.settings, restored, Moving, false, stopped)
  }

  function RestoreOp(s: Sys, f: Fates, restored: Config, stopped: bool): Sys {
    var swapped := SwapWorlds(s, f, FreshJournal(s, restored, stopped));
    if swapped.ok then RemoveStage(swapped.sys, f).sys else swapped.sys
  }

  // ---------- recovery ----------

  function FinishMoving(s: Sys, f: Fates, j: Journal): Out {
    var saved := SaveSettings(s, f, j.restored);
    if !saved.ok then Out(saved.sys, j, false)
    else
      var written := WriteJournal(saved.sys, f, j.(state := Checking));
      Out(written.sys, j.(state := Checking), written.ok)
  }

  function RollForward(s: Sys, f: Fates, j: Journal): Out {
    if Exists(s, FailedCopy) then Out(s, j, false)
    else if Exists(s, Staged) then
      if Exists(s, Live) && (!j.hadLive || Exists(s, Aside)) then Out(s, j, false)
      else
        var setAside := if Exists(s, Live) then Rename(s, f, Live, Aside) else Did(s, true);
        if !setAside.ok then Out(setAside.sys, j, false)
        else
          var moved := Rename(setAside.sys, f, Staged, Live);
          if !moved.ok then Out(moved.sys, j, false) else FinishMoving(moved.sys, f, j)
    else if !Exists(s, Live) then Out(s, j, false)
    else FinishMoving(s, f, j)
  }

  /** Finishes the restore an earlier agent process was in the middle of. */
  function RecoverRestore(s: Sys, f: Fates, j: Journal): Out {
    match j.state
    case Moving =>
      var rolled := RollForward(s, f, j);
      if rolled.ok then FinishRestore(rolled.sys, f, rolled.j)
      else if !j.hadLive || j.previous.None? then rolled
      else RevertRestore(rolled.sys, f, rolled.j)
    case Checking => FinishRestore(s, f, j)
    case Kept => KeepRestore(s, f, j, false)
    case Reverting => RevertRestore(s, f, j)
    case Done => Out(s, j, false)
  }

  /** Settles a restore that is over; `ok` lets its stage go. */
  function SettleSwap(s: Sys, f: Fates, j: Journal): Out {
    match j.state
    case Kept =>
      var removed := RemoveCopy(s, f, Aside);
      Out(removed.sys, j, removed.ok)
    case Checking => Out(s, j, true)
    case Done => Out(s, j, false)
    case Moving | Reverting =>
      if !j.hadLive || j.previous.None? then Out(s, j, !Exists(s, Staged))
      else
        var stopped := AskServer(s, f);
        if !stopped.ok then Out(stopped.sys, j, false) else PutPreviousBack(stopped.sys, f, j)
  }

  /** Whether settling says Playkeeper moved the previous world back, rather than someone by hand. */
  predicate ReportsMovedBack(s: Sys, j: Journal) { j.movedBack || Exists(s, Aside) }

  // ---------- what runs when ----------

  function Restart(s: Sys): Sys { s.(alive := true, settled := false) }

  function Resume(s: Sys, f: Fates): Sys {
    if s.journal.None? then s
    else
      var done := RecoverRestore(s, f, s.journal.value);
      if done.j.state == Done then RemoveStage(done.sys, f).sys else done.sys
  }

  function Prune(s: Sys, f: Fates): Sys {
    if s.journal.None? then RemoveStage(s, f).sys
    else
      var done := SettleSwap(s, f, s.journal.value);
      if done.ok then RemoveStage(done.sys, f).sys else done.sys
  }

  /** Settles a kept journal while the agent runs, once the world folder is back. A stage settled but
      not removed isn't settled again. */
  function SettleKept(s: Sys, f: Fates): Sys {
    if s.journal.None? || !Exists(s, Live) then s
    else
      var due := AskServer(s, f);
      if !due.ok then due.sys
      else
        var j := s.journal.value;
        var done := if s.settled then Out(due.sys, j, true) else SettleSwap(due.sys, f, j);
        if !done.ok then done.sys
        else
          var removed := RemoveStage(done.sys.(settled := true), f);
          if removed.ok then removed.sys.(settled := false) else removed.sys
  }

  predicate StartRefused(s: Sys) { s.journal.Some? && !s.settled }

  predicate CopyDeletionRefused(s: Sys, slot: Slot) {
    !Exists(s, slot) || s.journal.Some? || !Exists(s, Live)
  }

  function DeleteCopy(s: Sys, f: Fates, slot: Slot): Sys {
    if !s.alive || CopyDeletionRefused(s, slot) then s
    else RemoveCopy(s, f, slot).sys.(discarded := s.discarded || slot == Aside)
  }

  /** What can follow a restore: the agent starts again and finishes or settles it, settles it while
      running, or is asked to discard a world copy. */
  datatype Event = StartsAndResumes | StartsAndPrunes | Settles | DiscardsAside | DiscardsFailed

  function After(s: Sys, f: Fates, e: Event): Sys {
    match e
    case StartsAndResumes => Resume(Restart(s), f)
    case StartsAndPrunes => Prune(Restart(s), f)
    case Settles => if s.alive then SettleKept(s, f) else s
    case DiscardsAside => DeleteCopy(s, f, Aside)
    case DiscardsFailed => DeleteCopy(s, f, FailedCopy)
  }

  function Run(s: Sys, f: Fates, events: seq<Event>): Sys
    decreases |events|
  {
    if events == [] then s else Run(After(s, f, events[0]), f, events[1..])
  }

  /** A server with a world and settings, and a verified backup in the stage. */
  predicate Ready(s: Sys) {
    && s.live == Whole(PreviousWorld) && s.aside == Missing && s.failed == Missing
    && s.staged == Whole(RestoredWorld) && s.settings.Some? && s.journal.None?
    && s.alive && !s.settled && !s.kept && !s.discarded
  }
}
