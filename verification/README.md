# Playkeeper: recovery protocols and planners, verified

Playkeeper is an agent that runs Minecraft servers on a machine. This project models the parts of it
whose correctness is hard to see from any one function, and proves what they promise:

- **Restoring a world** (`Restore*.dfy`). A restore swaps the live world for one from a backup by renaming
  folders, guarded by a journal in its stage. `RestoreModel` gives every operation as a function on the state
  it leaves; what becomes of each rename, journal write, settings save, removal and question to the container
  comes from an oracle: it happens, it fails, or the agent stops there. Deleting a world copy may stop
  halfway. `RestoreAgent` is the step-by-step code, each method proved to compute its function.
  `RestoreSafety`, `RestorePairs` and `RestoreConvergence` prove what holds over every run: a restore followed
  by any sequence of agent starts (resuming or settling), settles while the agent runs, and requests to
  discard a copy. `RestoreOutcomes` says how each operation ends: which world and settings are in place, what
  became of the copies, and whether the stage went. `RestoreGuards` is what an unfinished restore protects, over all stages of a machine.
- **The free name** (`Names*.dfy`). A machine and the names service agree on one name over requests whose
  replies can be lost before or after the change was stored. `NamesOutcomes` says exactly where a change and a
  refresh leave both.
- **Add-ons** (`Addon*.dfy`). A dependency worklist that must end with a closed, conflict-free plan of versions
  chosen from the catalogue (`AddonChoice`), and a file transaction that must roll back exactly.
- **Smaller cores**: time coverage by a sweep (`Coverage`), de-duplicating a replayed log (`LogMark`), player
  sessions against a player list (`Sessions`, `SessionHistory`), UDP port holds (`VoicePorts`), merging activity lines
  (`Activity`), the console buffer (`Console`), splitting templates into shards within Graham's
  bound of 4/3 - 1/(3n) (`Shards`, `ShardPick`), and printing JSON on one line (`JsonSpacing`).

Code that changes things step by step is a class or a method with loops, proved against a specification
function; the properties are lemmas about that function. Outcomes the code cannot control (the network, the
file system, random names, what the catalogue sites list) are parameters: nothing is assumed of them but
what a theorem's `requires` says.

## What the proofs found

Properties that hold only under a condition, and what the condition is:

- Every recovery keeps the pair of world and settings, whatever fails, so the pair survives every run if and only
  if the restore itself does not strand it (`PairKeptExactly`): it leaves no mixed pair without a journal, and no
  journal that still says the worlds are moving once the previous world is back and both copies and the staged
  world are gone (`Stranded`). `Strands` is the same condition on the steps of the restore. It always takes a
  journal write that fails, and one is enough: after a failed save of the restored settings the undo can't be
  written down, the undo finishes, and the agent stops before the stage goes; the next start runs the previous
  world with the restored settings (`OneLostWriteMixes`). With journal writes that succeed it can't happen
  (`WorldMatchesSettings`). For one uninterrupted recovery of any moving journal the condition is on the folders
  alone (`ResumePairsExactly`).
- Rolling forward ends as it should exactly when `CanRoll` holds where it starts (`RollForwardExactly`), which it
  does for every moving journal an agent finds after a restore whose journal writes succeeded
  (`EveryMovingRolls`).
- The journal notes that Playkeeper moved the previous world back only after the move. A stop in between makes
  the next settle report that someone moved it by hand (`MoveReportedIffNoted`); worlds and settings are the
  same either way (`SettleConverges`).
- A console poll with `after` 0 is not told that lines have left the buffer (`TruncatedExactly`). A client that
  polls with Next, and whose first poll found nothing printed, can miss lines without being told: exactly when
  more was printed before its next poll than the buffer holds (`PollingMissesNothing`, `EmptyFirstPollMisses`).
- A hold passes over a server whose settings can't be read, so ports stay apart over a run exactly when no hold
  picks a port that such a server records (`ApartExactly`, `HoldKeepsUnique`, `UnreadSettingsClash`).
- The first attach to a run replays it from its start. When that attach fails or breaks off, the next one asks from
  the cursor an earlier agent process stored. An attach passes over no line exactly when it is the first one to a run
  with a known start, the cursor is another container's, everything has been read, or the cursor is not past the
  next line (`AsksInTimeExactly`, `InTimeExactly`). Over any attaches, every distinct line is taken exactly once if
  and only if none starts after a gap with an unread line in it; no later attach makes up for one that does
  (`EveryLineOnceExactly`, `BrokenFirstAttachSkips`).
- Joins carry Docker's dates, looks at the player list the agent's clock. Over any run, whatever its times, a player
  has two open sessions at some point exactly when a join is dated before the open session its player has
  (`OneSessionExactly`, `OpenKeepsOneExactly`).
- A comment says that a mismatch with the player list must persist across two samples. A list that leaves out a
  player without a session does not reset the count, so a session starts at the second list that names the
  player, whether or not a list in between did (`SecondListStarts`, `MismatchNeedNotPersist`); a session ends
  only when two lists in a row leave its player out (`SecondListEnds`).
- Recent activity read up to the row cap equals the whole log's exactly when the log is no longer, the rows read
  fill more than the page, or they fill it and the next row starts a line of its own (`CapMatters`).
- A change of name ends in agreement exactly when it does not strand the new name (`ClaimFreeExactly`): its claim
  is stored, and then the machine can neither save the name nor give it back, or never learns of it and can't
  give it back or, with a name of its own, follow the service's list. A stranded name is found by the next
  refresh or claim (`EveryChangeHeals`, `NextClaimHeals`).

## Model

| member | source | states |
|---|---|---|
| RestoreSafety.PreviousWorldSurvives | internal/agent/backups.go:1711-2045 | Whatever fails and wherever the agent stops, through any number of interrupted recoveries, the previous world is whole at exactly one of the live folder and the copy set aside until the journal durably says kept (or the user discards the copy of a restore that is over); the live world is never a partly deleted copy; while a journal is left, asking to discard a copy changes nothing |
| RestoreSafety.RestoreOpSafe | internal/agent/backups.go:1796-1884 | A restore of a server that had a world leaves a state from which every recovery is safe, wherever it was cut short |
| RestoreSafety.SwapWorldsSafe | internal/agent/backups.go:1796-1884 | When the swap says that the world is safe, so that its stage is deleted, a live world exists |
| RestoreSafety.PutPreviousBackSafe | internal/agent/backups.go:907-935 | Putting the previous world back keeps the swap undoable at every step, and succeeds only with the previous world live |
| RestoreSafety.RevertSafe | internal/agent/backups.go:1946-1982 | A revert says it is done only with the previous world live |
| RestoreSafety.RollForwardSafe | internal/agent/backups.go:2015-2045 | Rolling forward never loses either world, and succeeds only with a live world |
| RestoreSafety.FinishDone | internal/agent/backups.go:1891-1940 | A restore that says it is done leaves a live world |
| RestoreSafety.RecoverSafe | internal/agent/recovery.go:118-161 | Every recovery after a restart keeps the state safe |
| RestoreSafety.RecoverDone | internal/agent/recovery.go:134-160 | A recovery that lets its stage be deleted leaves a live world |
| RestoreSafety.SettleSafe | internal/agent/backups.go:821-860 | Settling keeps the state safe |
| RestoreSafety.SettleLive | internal/agent/backups.go:821-860 | A settle that lets its stage be deleted leaves a live world |
| RestoreSafety.SettleKeptSafe | internal/agent/backups.go:1096-1171 | Settling while the agent runs keeps the state safe |
| RestoreSafety.PruneSafe | internal/agent/backups.go:682-703 | Clearing the stages at start keeps the state safe |
| RestoreSafety.AfterSafe | internal/agent/recovery.go:98-161 | Each thing that can follow a restore keeps the state safe |
| RestoreSafety.RunSafe | internal/agent/recovery.go:98-161 | So does every sequence of them |
| RestorePairs.WorldMatchesSettings | internal/agent/backups.go:1853-1982 | While journal writes succeed, world and settings are the previous pair or the restored pair whenever no journal is left and whenever a start would be let through; the settings are never anything else |
| RestorePairs.RunKeepsPair | internal/agent/backups.go:1711-2045 | The same whatever fails, journal writes included, after every restore that did not strand the pair |
| RestorePairs.StrandsExactly | internal/agent/backups.go:1796-1884 | Which schedules of a restore strand the pair: exactly those that move the worlds, fail to save or to write down the restored settings, and then undo the swap without a note of it, or with the restored settings still saved |
| RestorePairs.RestoreOpRecorded | internal/agent/backups.go:1796-1884 | A restore, wherever it was cut short and whatever failed, leaves one of the two settings, and a journal that is about them and, once past moving, right about the pair |
| RestorePairs.SwapWorldsRecorded | internal/agent/backups.go:1796-1884 | So does the swap |
| RestorePairs.RecordStrands | internal/agent/backups.go:1853-1884 | From the settings save on: the steps that strand the pair, and no others |
| RestorePairs.UndoStrands | internal/agent/backups.go:1860-1879 | Undoing a save that failed strands the pair exactly when its note is lost and the stage stays without the restored world, or the restored settings stay saved |
| RestorePairs.SaveRestoredPairs | internal/agent/backups.go:1853-1859 | Saving the restored settings leaves the restored pair recorded, or a swap that can still be undone |
| RestorePairs.RollForwardPairs | internal/agent/backups.go:2015-2045 | Rolling forward succeeds only with the restored world and settings in place and the journal checking |
| RestorePairs.FinishPairs | internal/agent/backups.go:1891-1926 | A finished restore that is done leaves a matching pair |
| RestorePairs.RevertPairs | internal/agent/backups.go:1946-1982 | A revert that is done leaves the previous pair |
| RestorePairs.PutPreviousBackPairs | internal/agent/backups.go:907-935 | Putting the previous world back succeeds only with its settings saved |
| RestorePairs.RecoverPairs | internal/agent/recovery.go:118-161 | Every recovery after a restart keeps the pair or its journal |
| RestorePairs.SettlePairs | internal/agent/backups.go:821-860 | A settle that lets the stage go leaves a matching pair |
| RestorePairs.SettleKeptPairs | internal/agent/backups.go:1096-1114 | So does a settle while the agent runs, also when the stage could not be removed |
| RestorePairs.AfterPairs | internal/agent/recovery.go:98-161 | Each thing that can follow a restore keeps the pair or its journal |
| RestorePairs.RunPairs | internal/agent/recovery.go:98-161 | So does every sequence of them |
| RestoreConvergence.RollForwardExactly | internal/agent/backups.go:2015-2045 | An uninterrupted roll forward puts the restored world and settings in place, the previous world aside and the journal at checking, if and only if the restored world was not moved out of the way nor undone and deleted |
| RestoreConvergence.RollForwardConverges | internal/agent/backups.go:2015-2045 | However often rolling forward was cut short, one run that isn't ends in the one state a single uninterrupted run ends in |
| RestoreConvergence.StoppedRestoreCanRoll | internal/agent/backups.go:1796-1884 | While journal writes succeed, a restore cut short with a moving journal can always be rolled forward |
| RestoreConvergence.ResumedRolls | internal/agent/recovery.go:118-161 | Any number of recoveries, interrupted anywhere and failing in any way, leave a moving journal that can be rolled forward one that still can |
| RestoreConvergence.EveryMovingRolls | internal/agent/backups.go:2015-2045 | So every moving journal found after a restore whose journal writes succeeded and any number of such recoveries rolls forward to the one end, however often that is cut short |
| RestoreConvergence.SettleConverges | internal/agent/backups.go:821-935 | From every moving or reverting journal, however often settling was cut short, one run that isn't leaves the previous world live with its settings, as one uninterrupted run does |
| RestoreConvergence.MoveReportedIffNoted | internal/agent/backups.go:851-855 | Once the previous world is back, a settle tried again reports that Playkeeper moved it if and only if the note after the move was written |
| RestoreConvergence.CalmRestoreReplaces | internal/agent/backups.go:1796-2003 | With nothing failing, a restore leaves the restored world with its settings, no copy and no journal |
| RestoreConvergence.FailedStartReverts | internal/agent/backups.go:1905-1982 | A restored world that does not start is swapped back out, over every schedule: the restore is over exactly when the steps of the undo work, and then the previous world and settings are in place and the restored world is kept for inspection |
| RestoreConvergence.FailedStartPutsBack | internal/agent/backups.go:1796-1982 | The same of a whole restore: its journal goes exactly when the undo works and the stage can be removed |
| RestoreConvergence.FailedRecheckPutsBack | internal/agent/recovery.go:134-160 | The same of a recovery that checks the restored world again |
| RestoreConvergence.ResumePairsExactly | internal/agent/backups.go:1946-2045 | An uninterrupted recovery of a moving journal ends with a matching pair if and only if the copy set aside, the failed copy or the staged world is still there |
| RestoreConvergence.PairKeptExactly | internal/agent/backups.go:1711-2045 | The pair property, exactly: every run of later events, under every schedule, keeps the pair if and only if what the restore left is not stranded, which the folders and the journal tell and so do the steps of the restore |
| RestoreConvergence.OneLostWriteMixes | internal/agent/backups.go:1853-1884 | The shortest way to lose it: a failed save, one failed journal write, and a stop before the stage goes |
| RestoreOutcomes.OnlineRecheckKeeps | internal/agent/recovery.go:118-161 | A restored world found in place that comes online, or is not to be started, is kept over every schedule: it stays live with its settings, the restore is kept exactly when the journal write that says so works, the copy set aside goes exactly when that write and its removal work, and the stage exactly when it can be removed |
| RestoreOutcomes.StoppedRecheckWaits | internal/agent/backups.go:1896-1904 | A restored world that may be starting when the agent stops is left for the next start |
| RestoreOutcomes.MovingResumeEnds | internal/agent/backups.go:1946-2045 | An uninterrupted recovery of a moving journal ends with the restored world and settings exactly when it can be rolled forward, with the previous ones when a failed copy shows that it was being undone, and mixed when no copy is left; the copy set aside and the stage are gone |
| RestoreOutcomes.FailedRollPutsBack | internal/agent/recovery.go:134-147 | A roll forward that fails at any of its steps is undone: the previous world and settings are in place and the stage is gone |
| RestoreOutcomes.RevertingResumeEnds | internal/agent/backups.go:1946-1982 | A restore that was being undone is undone by an uninterrupted recovery, the restored world kept for inspection |
| RestoreOutcomes.KeptResumeTidies | internal/agent/backups.go:1984-2003 | A recovery of a kept restore removes the copy set aside exactly when that works, and then the stage whether or not the copy could go; nothing else changes |
| RestoreOutcomes.KeptPruneTidies | internal/agent/backups.go:821-835 | Settled at start, its stage goes exactly when the copy could go and the stage can be removed |
| RestoreOutcomes.CheckingPruneLeaves | internal/agent/backups.go:682-703 | A checking journal settled at start goes with its stage, and nothing else does |
| RestoreOutcomes.KeptSettles | internal/agent/backups.go:1096-1114 | Settled while the agent runs, the copy goes and then the stage; a stage that can't be removed is remembered as settled |
| RestoreOutcomes.SettledStageGoes | internal/agent/backups.go:1096-1114 | A stage that is settled only waits to be removed, and refuses no start |
| RestoreOutcomes.UndoableSettles | internal/agent/backups.go:821-860 | A moving or reverting restore is over at the next uninterrupted settle, at start or, once the world folder is back, while the agent runs |
| RestoreOutcomes.DiscardDeletes | internal/agent/backups.go:1240-1260 | A copy that is asked to be discarded goes exactly when no journal is left, a live world exists and the deletion works; nothing else changes |
| RestoreOutcomes.RestoreThenRechecks | internal/agent/backups.go:1853-1926 | Once the restored settings are recorded, a restore goes on as the recovery of one cut short there |
| RestoreOutcomes.OnlineStartKeeps | internal/agent/backups.go:1796-2003 | So a restore whose world comes online is kept, over every schedule, as a recovery would keep it |
| RestoreOutcomes.OneFailureAllOrNothing | internal/agent/backups.go:1711-2003 | A restore of which any one step fails is all or nothing: up to the first start of the restored world the previous world and settings are in place, after it the restored ones; a world that did not start is kept for inspection, and the stage is gone unless its own removal failed |
| RestoreOutcomes.FirstWorldStays | internal/agent/backups.go:1896-1912 | A server that had no world keeps the restored one, whether or not it comes online |
| RestoreOutcomes.FirstWorldBegins | internal/agent/backups.go:1796-1884 | A restore of a server without a world, cut short anywhere past its first journal write with nothing failing but the server, leaves the restored world whole in exactly one of the live folder and the stage, and live once the journal is past moving |
| RestoreOutcomes.FirstWorldSurvives | internal/agent/recovery.go:98-161 | From there on no later recovery, settle or request loses the restored world, whatever fails: it is whole in exactly one of the live folder and the stage |
| RestoreOutcomes.FirstWorldResumeEnds | internal/agent/backups.go:2015-2045 | An uninterrupted recovery of a moving one puts it live with its settings |
| RestoreAgent.Agent.RestoreAndRecover | internal/agent/backups.go:1711-2045 | The step-by-step code, run over a restore and any later events, keeps the previous world whole in one place and, unless the restore's own steps strand it, which takes a failing journal write, lets no start through on a mixed pair |
| RestoreAgent.Agent.RenameDir | internal/agent/backups.go:1803-1807 | A rename moves a whole folder or does nothing, and never replaces a world |
| RestoreAgent.Agent.WriteSwapJournal | internal/agent/backups.go:763-787 | The journal's next version is stored whole, or the last one stays |
| RestoreAgent.Agent.SavePrevious | internal/agent/backups.go:927-934 | The previous settings are saved once a live world exists |
| RestoreAgent.Agent.MoveBack | internal/agent/backups.go:915-934 | The previous world goes live, then the note, then its settings |
| RestoreAgent.Agent.PutPreviousBack | internal/agent/backups.go:907-935 | Computes the undo that PutPreviousBackSafe, PutPreviousBackPairs and SettleConverges are about |
| RestoreAgent.Agent.RevertRestore | internal/agent/backups.go:1946-1982 | Computes the revert that RevertSafe and RevertPairs are about |
| RestoreAgent.Agent.KeepRestore | internal/agent/backups.go:1986-2003 | The copy set aside goes only when the journal recorded that the restore is kept |
| RestoreAgent.Agent.RecordKept | internal/agent/backups.go:1918-1925 | The journal says kept before the copy is touched |
| RestoreAgent.Agent.FinishRestore | internal/agent/backups.go:1891-1940 | Computes the finish that FinishSafe, FinishDone, FinishPairs and FailedStartReverts are about |
| RestoreAgent.Agent.PutBack | internal/agent/backups.go:1813-1828 | Puts the previous world back, or takes a restored world it can't replace out of the stage |
| RestoreAgent.Agent.Undoing | internal/agent/backups.go:1831-1839 | Records that the swap is being undone |
| RestoreAgent.Agent.SaveRestored | internal/agent/backups.go:1853-1859 | Saves the restored settings, and the previous ones again when the journal can't say so |
| RestoreAgent.Agent.UndoSave | internal/agent/backups.go:1860-1879 | Computes the undo that UndoSaveSafe and UndoStrands are about |
| RestoreAgent.Agent.SwapWorlds | internal/agent/backups.go:1796-1884 | Computes the swap that SwapWorldsSafe and SwapWorldsRecorded are about, with whether its stage may go |
| RestoreAgent.Agent.RestoreOp | internal/agent/backups.go:1711-1884 | Computes the restore that RestoreOpSafe, RestoreOpRecorded and StrandsExactly are about |
| RestoreAgent.Agent.RollForward | internal/agent/backups.go:2015-2045 | Computes the roll forward that RollForwardExactly and RollForwardConverges are about |
| RestoreAgent.Agent.RecoverRestore | internal/agent/recovery.go:118-161 | Computes the recovery that RecoverSafe, RecoverPairs and RecoverRolls are about, and whose ends OnlineRecheckKeeps, FailedRecheckPutsBack, MovingResumeEnds, RevertingResumeEnds and KeptResumeTidies state |
| RestoreAgent.Agent.SettleSwap | internal/agent/backups.go:821-860 | Computes the settle that SettleConverges and SettlePairs are about |
| RestoreAgent.Agent.Prune | internal/agent/backups.go:682-703 | Settles a stage at start and deletes it only when settling says it may go |
| RestoreAgent.Agent.SettleKept | internal/agent/backups.go:1096-1114 | Settles once the world folder is back and the server stopped; a stage settled but not removed isn't settled again |
| RestoreAgent.Agent.StartRefusal | internal/agent/backups.go:1014-1023 | A start that is let through runs a matching pair, for every restore whose pair is recorded and not stranded |
| RestoreAgent.Agent.DeleteCopy | internal/agent/backups.go:1240-1260 | A copy is deleted only with no journal left and a live world |
| RestoreAgent.Agent.Handle | internal/agent/recovery.go:98-161 | Computes what AfterSafe and AfterPairs are about |
| RestoreGuards.UnsettledSwaps | internal/agent/backuprules.go:61-92 | Exactly the stages with a journal are reported, one that can't be read as unknown; an unreadable staging folder is an error |
| RestoreGuards.RestoreUnsettled | internal/agent/backuprules.go:103-114 | True exactly when some journal left may be the server's |
| RestoreGuards.JudgeCopy | internal/agent/backups.go:1240-1260 | A copy is discarded exactly when it exists, the live world exists and no journal may be the server's; each refusal exactly in its case |
| RestoreGuards.RollbackIDs | internal/agent/backuprules.go:122-155 | Exactly the rollback archives of the list |
| RestoreGuards.NeededBySwaps | internal/agent/backuprules.go:122-155 | Exactly the archives that journals concerning the server need |
| RestoreGuards.OneMoreSwap | internal/agent/backuprules.go:122-155 | What one more journal adds to them |
| RestoreGuards.RollbacksNeeded | internal/agent/backuprules.go:122-155 | An archive is needed exactly when the running restore names it, a journal that may be the server's needs it, or the staging folder can't be read and it is a rollback archive |
| RestoreGuards.StartRefusal | internal/agent/backups.go:1014-1059 | A start is refused exactly when a readable journal of the server, of another operation and not settled, is left |
| RestoreGuards.UnfinishedRestoreProtects | internal/agent/backuprules.go:94-155 | While a restore's stage keeps its journal, readable or not, the server's copies stay, the rollback archive is needed, and an unsettled readable one refuses every start but the restore's own |
| NamesProofs.ClaimFreeAgrees | internal/agent/address.go:468-556 | From agreement, a change of name ends in agreement whichever requests lost their replies, while the settling requests are answered and the machine can save; success means the machine has the new name and the service holds it |
| NamesProofs.ReleaseFirstAgrees | internal/agent/address.go:468-556 | The same for a machine that has a name, which is released first |
| NamesProofs.ClaimNewNameAgrees | internal/agent/address.go:491-556 | The same from the claim of the new name on |
| NamesProofs.SaveNameAgrees | internal/agent/address.go:530-556 | A new name that can't be saved is given back, and the old one claimed again |
| NamesProofs.ClaimFailedAgrees | internal/agent/address.go:505-528 | A claim that failed leaves agreement, whether or not it may have been stored |
| NamesProofs.ReclaimAgrees | internal/agent/address.go:561-572 | Claiming the old name back ends in agreement once the list is answered |
| NamesProofs.FollowAgrees | internal/agent/address.go:602-650 | Following the service's list ends in agreement, and never changes the service |
| NamesProofs.FailedChangeUndone | internal/agent/address.go:468-572 | A change that fails leaves the machine with the name it had, still held |
| NamesProofs.CalmChangeWorks | internal/agent/address.go:468-556 | When its requests are answered, a change of name works |
| NamesProofs.NextClaimHeals | internal/agent/address.go:468-556 | A machine without a name agrees after its next claim, whatever name its key holds |
| NamesProofs.RefreshReconverges | internal/agent/address.go:693-723 | One refresh of a machine that has a name ends in agreement if and only if they agreed before, or the list is answered and the held name can be saved; a held name stays held |
| NamesProofs.EveryChangeHeals | internal/agent/address.go:468-723 | After any change of name, however badly it went, one refresh (or, for a machine left without a name, one claim) that gets its answers brings agreement |
| NamesOutcomes.RefreshExactly | internal/agent/address.go:693-723 | One refresh, exactly: the name the machine has afterwards, the one the service holds, the one given up, and whether it worked; a name is given up only when the service has said that another key has it and does not list it, never for a lost reply |
| NamesOutcomes.ChangeExactly | internal/agent/address.go:468-572 | A change of name from agreement, exactly: it works if and only if the new name is stored and saved, or found in the list; a machine that fails keeps its name unless that turns out to be another key's; and the name the service holds, the old one claimed back, the new one or none |
| NamesOutcomes.StrayNameAdopted | internal/agent/address.go:519-527 | A machine without a name whose key holds one takes that name exactly when it is told and can save it, and stores no other |
| NamesOutcomes.FollowExactly | internal/agent/address.go:588-628 | When following the list gives the machine's name up, takes the held one, or changes nothing |
| NamesOutcomes.ServiceKeepsNames | internal/names/service/handlers.go:274-536 | The names a key holds or has released only grow, by a claim carried out while it holds none; only a release of the held name releases it |
| NamesProofs.ClaimFreeExactly | internal/agent/address.go:468-556 | From agreement, a change of name ends in agreement if and only if it does not strand the name: exactly which lost replies, refusals and failed saves leave the service with a name the machine does not have |
| NamesProofs.ClaimNewExactly | internal/agent/address.go:491-556 | The same from the claim of the new name on |
| NamesAgent.NamesService.Claim | internal/names/service/handlers.go:274-326 | The service holds at most one name for the key: its own name again, or a new one while it holds none |
| NamesAgent.NamesService.Release | internal/names/service/handlers.go:525-536 | Releases the name the key holds; any other is not claimed |
| NamesAgent.NamesService.Refresh | internal/names/service/handlers.go:499-523 | Succeeds only for the name the key holds, and changes nothing |
| NamesAgent.NamesService.Names | internal/names/service/handlers.go:556-571 | Lists exactly the held name and the released ones |
| NamesAgent.Machine.ListedName | internal/agent/address.go:376-387 | Says whether the name is listed and not released |
| NamesAgent.Machine.AdoptFree | internal/agent/address.go:633-650 | Saves the held name as the machine's, and the one given up |
| NamesAgent.Machine.FollowService | internal/agent/address.go:602-628 | Computes what FollowAgrees and FollowExactly are about; the machine gives its name up exactly when the list is answered, names neither a name the key holds nor this one, the error said that another key has it, and the record can be saved |
| NamesAgent.Machine.Reclaim | internal/agent/address.go:561-572 | Computes what ReclaimAgrees is about |
| NamesAgent.Machine.SaveName | internal/agent/address.go:530-556 | Computes what SaveNameAgrees is about |
| NamesAgent.Machine.ClaimFailed | internal/agent/address.go:505-528 | Computes what ClaimFailedAgrees is about |
| NamesAgent.Machine.ClaimNewName | internal/agent/address.go:491-556 | Computes what ClaimNewNameAgrees is about |
| NamesAgent.Machine.ClaimFree | internal/agent/address.go:468-556 | Computes what ClaimFreeAgrees is about |
| NamesAgent.Machine.ChangeName | internal/agent/address.go:468-556 | The step-by-step code ends in agreement exactly when the change does not strand the name, and leaves the names and its report exactly as ChangeExactly says |
| NamesAgent.Machine.RefreshFree | internal/agent/address.go:693-723 | The step-by-step refresh reconverges exactly under its condition, and gives the machine's name up exactly when it is lost to another key |
| AddonCatalogue.Pick | internal/addons/resolve.go:467-485 | Finds the version that Picked describes, in one pass |
| AddonCatalogue.PickedIsNewest | internal/addons/resolve.go:467-485 | A release that fits is never passed over for a pre-release nor an older release; a pre-release only where allowed and with no release at all |
| AddonCatalogue.FirstRelease | internal/addons/resolve.go:467-485 | The first release is the newest |
| AddonCatalogue.Provides | internal/addons/scan.go:331-383 | Finds a file exactly when one is the project, by record or identity, or goes by one of the names; the one found is such a file, by record first, then by identity |
| AddonPlan.MetGrows | internal/addons/plan.go:371-439 | A dependency that is met stays met as the plan grows |
| AddonPlan.FollowedGrows | internal/addons/plan.go:304-341 | So do those of all steps followed |
| AddonPlan.ReasonGrows | internal/addons/plan.go:371-473 | A blocker's reason stays |
| AddonChoice.VersionIsChosen | internal/addons/plan.go:442-473 | The version a dependency gets is the pinned one when it fits, else the newest release, else the newest version where pre-releases are allowed; none exactly when no version is that |
| AddonChoice.StepKeepsHonest | internal/addons/plan.go:265-290 | A step added for a version that is needed has that version's file and dependencies, and every other step still has its own |
| AddonChoice.TakeKeepsHonest | internal/addons/plan.go:324-367 | A Modrinth step taken off the queue has its dependencies named by the projects of the versions they name, and otherwise as its version lists them |
| AddonChoice.NoticesKeepHonest | internal/addons/plan.go:243-263 | What is left to the user has its reason |
| AddonResolver.AddKeepsSound | internal/addons/plan.go:265-290 | Each key still finds its one step, and the new step's parent is an earlier step of its source that requires it |
| AddonResolver.TakeKeepsSound | internal/addons/plan.go:293-302 | Taking the next step off the queue keeps what is followed |
| AddonResolver.MeasureDrops | internal/addons/plan.go:293-302 | The worklist ends: projects that can still be planned, then the queue's length, get fewer with every step, cyclic dependencies included |
| AddonResolver.AgreesIsCompatible | internal/addons/plan.go:531-605 | When nothing listed disagrees, no incompatibility links two steps, nor a step and a file on the server |
| AddonResolver.NoModrinthPlanned | internal/addons/plan.go:558-564 | Without a Modrinth step no file on the server can refuse one |
| AddonResolver.FitIsPlaceable | internal/addons/plan.go:608-659 | Steps whose files pass the checks can be put into the folder |
| AddonResolver.Resolver.Add | internal/addons/plan.go:265-290 | Adds the step with its version's file and dependencies to plan, index, dependencies and queue, or leaves the file to the user |
| AddonResolver.Resolver.Version | internal/addons/plan.go:443-473 | The pinned version when it fits, else the one picked |
| AddonResolver.Resolver.RequiredByName | internal/addons/plan.go:372-383 | A dependency that names no project ends met |
| AddonResolver.Resolver.RequiredProject | internal/addons/plan.go:420-439 | A project's dependency ends met, or the plan blocked with the reason |
| AddonResolver.Resolver.RequiredDep | internal/addons/plan.go:371-439 | A required dependency ends met, or the plan blocked with the reason |
| AddonResolver.Resolver.FollowDep | internal/addons/plan.go:321-338 | A dependency is met, or listed as incompatible |
| AddonResolver.Resolver.ResolveDeps | internal/addons/plan.go:304-341 | All dependencies of a step are followed |
| AddonResolver.Resolver.Resolve | internal/addons/plan.go:293-302 | The worklist ends with every step followed |
| AddonResolver.Resolver.CheckIncompat | internal/addons/plan.go:539-556 | A plan not blocked has nothing planned or on the server that the step can't run with |
| AddonResolver.Resolver.CheckFile | internal/addons/plan.go:594-603 | A plan not blocked has nothing that the file on the server can't run with |
| AddonResolver.Resolver.Conflicts | internal/addons/plan.go:531-605 | A plan not blocked has no conflict either way |
| AddonResolver.Resolver.CheckFileOf | internal/addons/plan.go:618-637 | A plan not blocked has a file that can be checked and put in place, under a name of its own |
| AddonResolver.Resolver.Finish | internal/addons/plan.go:608-659 | Ready exactly without blockers and with steps |
| AddonResolver.Resolver.Start | internal/addons/plan.go:193-196 | The first step is the add-on asked for; one the server already has blocks the plan |
| AddonResolver.Resolver.Seal | internal/addons/plan.go:527-659 | A ready plan is closed, compatible and placeable |
| AddonResolver.Resolver.PlanInstall | internal/addons/plan.go:166-201 | A ready install plan is closed and conflict-free, the files fit the folder, and it is about the catalogue's versions: each step has the file and the dependencies, one for one, of the version asked for or of the pinned or newest one that an earlier step of its source needs and the server lacks; what is left to the user has its reason, and a plan that isn't ready has a blocker with its reason, or leaves everything to the user |
| AddonInstall.MoveReversible | internal/addons/install.go:166-171 | Undoing the moves still gives back the original folder after one more file is hidden |
| AddonInstall.PlaceReversible | internal/addons/install.go:173-181 | So it does after one more file is placed |
| AddonInstall.MoveShows | internal/addons/install.go:166-171 | Hiding a file takes exactly it out of what the server sees |
| AddonInstall.PlaceShows | internal/addons/files.go:212-245 | Placing a file adds exactly it |
| AddonInstall.PlacedNames | internal/addons/install.go:173-181 | The names placed are the steps' |
| AddonInstall.NoneOccupiedIsFree | internal/addons/install.go:173-181 | When no step's name was taken on its turn, no two steps share a name and none is another file's |
| AddonInstall.Txn.Place | internal/addons/files.go:212-245 | The file appears whole under a free name, or nothing changed; it never replaces a file, and works exactly when the name is free and the operations it needs do |
| AddonInstall.Txn.Link | internal/addons/files.go:237-244 | The hidden copy gets its name exactly when that is free and the link works, or, whatever else broke the link, the look at the name and the rename do |
| AddonInstall.Txn.Check | internal/addons/install.go:188-212 | A file may be replaced exactly when it is regular, and unchanged or agreed to, and can be read |
| AddonInstall.Txn.Hide | internal/addons/install.go:167-171 | One file goes out of the way, reversibly |
| AddonInstall.Txn.SetAside | internal/addons/install.go:156-172 | Every file replaced is out of the way, reversibly, or the run failed because one may not be replaced or an operation it tried broke |
| AddonInstall.Txn.PlaceAll | internal/addons/install.go:173-182 | Every new file is in place, reversibly, or a name was taken or an operation it tried broke |
| AddonInstall.Txn.Run | internal/addons/install.go:156-183 | A run, failed at any step, can be rolled back to the original folder |
| AddonInstall.Txn.Rollback | internal/addons/install.go:214-221 | Undoes the placed files, then the moves, last first |
| AddonInstall.Txn.Commit | internal/addons/install.go:223-227 | Removes exactly the hidden old files |
| AddonInstall.Txn.Apply | internal/addons/install.go:60-142 | All or nothing: on success the folder is the original minus replaced files plus placed ones, also when an update reuses the old name; otherwise it is the original. It succeeds only when names are valid, replaced files may be, and no other file is in the way; if so and it fails, an operation it tried broke |
| Coverage.CoveredFraction | internal/agent/analytics.go:343-368 | The share of the instants of [from, to) that lie within one interval after some sample |
| Coverage.Sweep | internal/agent/analytics.go:348-366 | Counts exactly those instants, once each, in one pass |
| Coverage.Search | internal/agent/analytics.go:348-348 | The first sample at or after the bound |
| Coverage.SweepStep | internal/agent/analytics.go:351-366 | What one sample adds is disjoint from what was counted |
| Coverage.OneSampleBeforeSuffices | internal/agent/analytics.go:140-142 | A slice that starts one sample before the bucket covers what the whole list covers |
| Coverage.ReadBucket | internal/agent/analytics.go:90-119 | The cursor reads exactly the bucket's samples |
| Coverage.CoverageOf | internal/agent/analytics.go:140-142 | The bucket's coverage from its slice is the whole list's |
| Coverage.OneBucket | internal/agent/analytics.go:83-159 | A bucket's state, players and coverage are what the whole list says |
| Coverage.Bucketize | internal/agent/analytics.go:79-162 | The buckets tile [from, to) and each says what the whole list says about it |
| LogMark.Follower.Next | internal/agent/collector.go:56-73 | Computes the mark that EveryLineOnce is about |
| LogMark.Follower.Attach | internal/agent/collector.go:78-162 | Reads one attach and takes its new lines |
| LogMark.DistinctKeepsAll | internal/agent/collector.go:48-73 | The reference: every line once, in order of first appearance |
| LogMark.InTimeExactly | internal/agent/collector.go:100-112 | Asked from a time, Docker starts at or before the first line not read if and only if everything has been read or that time is not past the next line's date |
| LogMark.AsksInTimeExactly | internal/agent/collector.go:100-112 | The same of the attach the code makes: it passes over no line exactly when it is the first one to a run with a known start, the cursor is another container's, everything has been read, or the cursor is not past the next line |
| LogMark.BrokenFirstAttachSkips | internal/agent/collector.go:107-136 | A first attach that breaks off, with the cursor of an earlier agent process further on, makes the next one start after an unread line and lose it |
| LogMark.AttachTakesNew | internal/agent/collector.go:56-73 | A replayed attach takes exactly the lines not read yet |
| LogMark.LookTakesNew | internal/agent/collector.go:48-162 | One attach takes exactly the lines not read yet, or loses one for good; either way the mark is that of a follower that has read up to where the attach got |
| LogMark.EveryLineOnceExactly | internal/agent/collector.go:48-162 | Over any attaches to one run's dated log, wherever they start and break off: every distinct line up to where they get is taken exactly once, in log order, if and only if none starts after a gap with an unread line in it; and otherwise fewer lines are taken than there are |
| LogMark.EveryLineOnce | internal/agent/collector.go:48-162 | So attaches that ask in time, a restarted agent's from the run's start included, take every distinct line exactly once, in log order |
| LogMark.UndatedAlwaysTaken | internal/agent/collector.go:56-73 | A line without a date is always new, and the others are taken as if it weren't there |
| Sessions.AfterSound | internal/agent/collector.go:389-490 | Each join, leave, stop or look at the list keeps at most one open session a player, and opens and closes exactly what it says |
| Sessions.OneSessionEach | internal/agent/collector.go:389-490 | So in every run whose times never go back |
| Sessions.StepKeepsOne | internal/agent/collector.go:389-490 | Of each join, leave, stop or look at the list, only such a join breaks at most one open session a player |
| Sessions.OneSessionExactly | internal/agent/collector.go:389-490 | Over any run, whatever its times: no player ever has two open sessions if and only if no join is dated before the open session its player has when it comes |
| Sessions.TwoListsSettle | internal/agent/collector.go:452-490 | Two equal lists in a row make the open sessions exactly the listed players, whatever the counts were |
| Sessions.OneListWaits | internal/agent/collector.go:452-490 | One list opens a session exactly when an earlier list had already counted the player |
| Sessions.OpenSound | internal/agent/collector.go:389-406 | Starting a session keeps at most one open a player, and opens that player's and no other |
| Sessions.OpenKeepsOneExactly | internal/agent/collector.go:389-406 | Starting a session keeps at most one open a player exactly when the player's open session did not start later |
| Sessions.CloseSound | internal/agent/collector.go:408-424 | Ending sessions of some players closes theirs and no other |
| Sessions.CountOneMore | internal/agent/collector.go:452-490 | What counting one more name changes |
| SessionHistory.EventRows | internal/agent/collector.go:389-490 | What each join, leave, stop or look at the list leaves in the table, at any time: the sessions it ends have its time, and are certain exactly for a leave or a stop that says so; those it starts have its time, and are uncertain exactly when a list started them; every other session is as it was |
| SessionHistory.RunKeepsHistory | internal/agent/collector.go:389-490 | Over any run a session that has ended never changes, an open one keeps its player and start, and none ends before it starts |
| SessionHistory.CountsAfter | internal/agent/collector.go:452-482 | What a list does to each player's two counts |
| SessionHistory.SecondListStarts | internal/agent/collector.go:459-471 | Of two lists in a row, the second starts a session exactly when the first was the first to name the player, or did not name the player but an earlier one had |
| SessionHistory.SecondListEnds | internal/agent/collector.go:472-482 | A session ends at the second list that leaves its player out only if the first did too |
| SessionHistory.MismatchNeedNotPersist | internal/agent/collector.go:449-471 | A player listed once, then not, then once more gets a session |
| Sessions.Server.OpenSession | internal/agent/collector.go:389-406 | At times that do not go back the player ends with exactly one open session, one left open being ended, and the others keep theirs; at any time no second one is left open exactly when none started later |
| Sessions.Server.CloseSession | internal/agent/collector.go:408-414 | The player ends with no open session, the others keep theirs |
| Sessions.Server.CloseOpenSessions | internal/agent/collector.go:418-424 | Nobody ends with an open session |
| Sessions.Server.Tally | internal/agent/collector.go:452-490 | Counts mismatches name by name, and lists those seen for the second time |
| Sessions.Server.ReconcileWithList | internal/agent/collector.go:452-490 | Computes the look at the list that TwoListsSettle is about, in whatever order names come |
| VoicePorts.LowestIsFree | internal/agent/curated.go:186-203 | The port picked is free, and every lower one is taken |
| VoicePorts.HoldKeepsUnique | internal/agent/curated.go:216-241 | A hold keeps ports apart if and only if no server whose settings could not be read records the port |
| VoicePorts.HoldKeepsApart | internal/agent/curated.go:195-241 | The same with the two uses of one server: a hold keeps ports apart if and only if it does not clash with settings it could not read |
| VoicePorts.StepKeepsApart | internal/agent/curated.go:163-241 | Each hold, record, release and close keeps ports apart, but for such a hold |
| VoicePorts.ApartExactly | internal/agent/curated.go:163-322 | Over every interleaving, ports are apart throughout, over servers and over the two uses of one, if and only if no hold clashes with settings it could not read |
| VoicePorts.PortsStayApart | internal/agent/curated.go:163-322 | So with settings that can be read they always are |
| VoicePorts.UnreadSettingsClash | internal/agent/curated.go:216-241 | With settings that can't be read, two servers can be given one port |
| VoicePorts.AttemptEnds | internal/agent/curated.go:163-322 | Whatever other servers do meanwhile, a server that records the port it was given has it in its settings for the use it was for, keeps its port for the other use, and holds it no longer; one that gives up has the settings it had |
| VoicePorts.CloseClears | internal/agent/curated.go:457-469 | Closing a port clears it for that use in that server's settings, and changes nothing else |
| VoicePorts.Ports.UdpPortTaken | internal/agent/curated.go:216-241 | Exactly the ports the server can't have |
| VoicePorts.Ports.HoldPort | internal/agent/curated.go:195-203 | Picks and holds the lowest port in one step |
| VoicePorts.Ports.RecordPort | internal/agent/curated.go:302-322 | Saves the held port in the server's settings |
| VoicePorts.Ports.ReleasePort | internal/agent/curated.go:170-182 | Lets go only of the server's own hold |
| VoicePorts.Ports.ClosePort | internal/agent/curated.go:457-469 | Clears the recorded port |
| Activity.MergeUploads | internal/agent/analytics.go:435-454 | Computes the lines that MergeGroups is about, editing the last one in place |
| Activity.AddRow | internal/agent/analytics.go:438-451 | One row goes into the last line or starts its own |
| Activity.MergeConserves | internal/agent/analytics.go:435-454 | The lines' counts, at least 1 each, add up to the rows |
| Activity.Groups | internal/agent/analytics.go:435-454 | The rows behind the lines, one group each, make up the log |
| Activity.MergeGroups | internal/agent/analytics.go:435-454 | The groups of rows make up the log, each is as large as can be, and each line stands for its group: consecutive uploads by one actor into one folder of one server, or one row as it was; in a log that is newest first, no two uploads of a line are more than 15 minutes apart |
| Activity.GreedyIsUnique | internal/agent/analytics.go:435-454 | There is only one way to split a log into groups that are as large as can be, so these lines are the only ones |
| Activity.JoinsTogether | internal/agent/analytics.go:440-447 | A line takes in a row exactly when its rows and that one are uploads by one actor into one folder of one server, none more than 15 minutes older than the first |
| Activity.MergeExtends | internal/agent/analytics.go:477-490 | Reading more rows changes no line but the last, which only grows |
| Activity.EnoughLines | internal/agent/analytics.go:487-489 | With more lines than asked for, the page is the whole log's |
| Activity.Recent | internal/agent/analytics.go:459-495 | The growing window gives what merging the newest rows up to the cap at once gives |
| Activity.CapMatters | internal/agent/analytics.go:481-493 | Exactly when that is the page of the whole log |
| Console.Ring.Append | internal/agent/console.go:27-38 | The buffer holds the newest lines, at most its capacity, consecutively numbered |
| Console.Ring.Since | internal/agent/console.go:66-87 | Computes the answer that PollReturns and TruncatedExactly are about; its Next is the number of the newest line printed |
| Console.AboveIsEnd | internal/agent/console.go:73-76 | Skipping lines up to a number leaves an end of the log |
| Console.PollReturns | internal/agent/console.go:66-87 | An answer is the newest lines of the log, whole and in order |
| Console.NextIsNewest | internal/agent/console.go:69-69 | Next is the number of the newest line printed, 0 when there is none, whatever was asked; every line printed later is above it |
| Console.PollTruncates | internal/agent/console.go:77-84 | When an answer says it is cut, by counts |
| Console.TruncatedExactly | internal/agent/console.go:77-84 | Truncated says that a line above `after` is missing if and only if `after` is above 0, or nothing has left the buffer, or the limit is below the capacity |
| Console.EmptyFirstPollMisses | internal/agent/console.go:77-79 | The case left out: lines that came and went before the second poll |
| Console.PollingMissesNothing | internal/agent/console.go:66-87 | A client that asks each time from the Next of the answer before and is never told Truncated misses and repeats nothing if and only if the log did not outrun the buffer while it still asked from 0 |
| Shards.LoadsOneMore | cmd/template-check/templates.go:104-108 | The next item goes to the lightest shard |
| Shards.SpreadAtMostHeaviest | cmd/template-check/templates.go:101-112 | Any two shards differ by the heaviest item at most |
| Shards.LoadAtMostShare | cmd/template-check/templates.go:101-112 | So none holds more than an even share and that |
| Shards.TallySum | cmd/template-check/templates.go:101-112 | Whatever the assignment, the shards hold all the weight |
| Shards.NeverCrowded | cmd/template-check/templates.go:101-112 | Counting items: while each weighs more than a third of what some split needs, a shard has room for the next |
| Shards.WithinFourThirds | cmd/template-check/templates.go:101-112 | Heaviest first, no shard holds more than 4/3 - 1/(3n) of the heaviest of any split into n, so at most four thirds |
| ShardPick.IndexOfMin | cmd/template-check/templates.go:106-106 | The first of the lightest shards |
| ShardPick.Deal | cmd/template-check/templates.go:103-111 | Deals the ids out and keeps those of one shard |
| ShardPick.Pick | cmd/template-check/templates.go:96-113 | The templates of shard k of n, and none if there is no such shard |
| ShardPick.ByWeightDescends | cmd/template-check/templates.go:101-102 | The order is heaviest first |
| ShardPick.ByWeightKeepsTotal | cmd/template-check/templates.go:101-102 | It has the same ids: whatever is counted, the total stays |
| ShardPick.ByWeightIsStable | cmd/template-check/templates.go:102-102 | Ids of one weight stay in order |
| ShardPick.ShardsPartition | cmd/template-check/templates.go:101-113 | Whatever is counted, the shards together hold exactly what the ids do |
| ShardPick.CheckedOnce | cmd/template-check/templates.go:101-113 | Each template is in exactly one shard, once, for every weight function |
| ShardPick.ShardsEven | cmd/template-check/templates.go:101-113 | Two shards differ by the heaviest template at most, so none exceeds its share and that |
| ShardPick.ShardsNearBest | cmd/template-check/templates.go:101-113 | However the templates could be split into n groups of c at most, no shard exceeds 4/3 - 1/(3n) of c, so none exceeds four thirds |
| JsonSpacing.Spaced | cmd/template-check/format.go:72-118 | Only insignificant whitespace changes: input and output have the same compact form, and the output has whitespace where it belongs and nowhere else; invalid JSON is left as it is |
| JsonSpacing.SpaceOut | cmd/template-check/format.go:78-117 | The byte loop with its two flags prints what SpacingOnly is about |
| JsonSpacing.PrintOutside | cmd/template-check/format.go:93-115 | Prints the piece that PieceStrips, SpacedIsWellSpaced and SpacedIsTight are about |
| JsonSpacing.PieceStrips | cmd/template-check/format.go:78-117 | What is printed for a byte, in or outside strings, is that byte again once stripped, and ends in the same place of a string |
| JsonSpacing.StripConcat | cmd/template-check/format.go:72-118 | Compacting goes piece by piece, given where each piece starts |
| JsonSpacing.StripIsCompact | cmd/template-check/format.go:73-77 | Compact JSON has nothing left to strip |
| JsonSpacing.SpacingOnly | cmd/template-check/format.go:78-117 | Stripping the output gives the compact input back byte for byte, strings with any escapes included |
| JsonSpacing.SpacedIsWellSpaced | cmd/template-check/format.go:70-115 | Outside strings, each colon and comma is followed by a space, and braces have one inside unless empty |
| JsonSpacing.SpacedIsTight | cmd/template-check/format.go:70-115 | Outside strings, the only whitespace is a space right after a colon, a comma or an opening brace, or right before a closing brace; an empty object has none, and no number or word is split |
| JsonSpacing.PrintedExactly | cmd/template-check/format.go:70-117 | Of all ways to add whitespace to compact JSON, exactly one has it where it belongs, and that is what is printed |

## Left out

Restores:

- Restores of Playkeeper 0.3.0, which left no journal: `adoptRestore` works out how far they got.
- A server with a world but no saved settings: modelled in the functions, but the theorems are about a server that had both, or no world (`FirstWorldStays`, `FirstWorldSurvives`).
- World folders someone moves by hand while a restore is open, and stages whose journal can't be read in the pair theorem; `RestoreGuards` covers what an unreadable journal protects.
- Removing a stage is one step for the staged world and the journal together; so is saving settings with the modpack record, which is one transaction.
- Several stages of one server at a time: `Agent` follows one, and `RestoreGuards` judges any number.
- Unpacking, verifying and previewing a backup, the rollback archive itself, retention rules beyond what is needed, downtime, messages and audit lines.
- RestorePairs.WorldMatchesSettings: requires journal writes to succeed; without that the property can fail (OneLostWriteMixes), and exactly when is PairKeptExactly.

Free names:

- What makes the service refuse a claim or refresh (reserved names, rate and network limits, lapses) is one kind of refusal; names of other keys are only known as taken.
- The refresh of a name just claimed back or adopted (`useFree`), retry times, certificates, the servers' records and addresses, and showing the name's state.

Add-ons:

- Updates: the resolver is modelled for installs, so no step replaces a file there; the transaction covers replaced files.
- Errors of the catalogue sites, which give up the plan; suggestions, warnings, the list of what the server already has, and each step's list of required projects.
- Candidate lists of Modrinth and Hangar, with Geyser's and Playkeeper's own builds preferred, are given; so is how a pinned version is judged to fit.
- Blockers are told apart by what they are about, not by their wording.
- A file's checksum is its content, and a name's Unicode format characters and byte encoding are not checked; downloads, staging and owners are left out.

Smaller cores:

- Coverage: averages of CPU, memory and tick times, the list of gaps, and the summary's own rounding up of short stretches; shares are reals, where the code rounds.
- LogMark: when the cursor is stored, lines of a container's other runs that an attach also sends, and events' own de-duplication; a run of the container is one number.
- Sessions: database errors, and the events recorded beside sessions; who has an open session after a run (AfterSound, TwoListsSettle) is stated for times that do not go back.
- VoicePorts: ports restores hold for the previous world's settings; ports in use by other programs, games and the panel are one given set.
- Activity: the database query and the order of rows with one timestamp; the log does not grow while it is read.
- Console: the lock, and how an epoch's name is made; the buffer's time window.
- Shards: parsing `k/n`, how long a template's check takes (the results are for every weight function), choosing templates by name, and the alphabetical order of the result.
- JsonSpacing: whether JSON is valid is given, and compacting is what RFC 8259 sections 2 and 7 make of whitespace; the layout of a whole template file is not part of this model.
