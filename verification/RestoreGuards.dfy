/** What an unfinished restore protects: world copies, rollback archives and the server itself, found
    by reading the journals left in the restore stages of every server. */
module RestoreGuards {
  import opened Options

  /** The part of a swap journal that says whose it is. */
  datatype SwapRecord = SwapRecord(serverID: string, opID: string)

  datatype JournalFile = Absent | Unreadable | Readable(swap: SwapRecord)

  datatype Stage = Stage(name: string, isDir: bool, journal: JournalFile)

  /** The staging folder: one that can't be read, or its entries. A missing folder has none. */
  datatype Staging = StagingUnreadable | Stages(entries: seq<Stage>)

  /** Journals by stage name; None for one that can't be read. */
  type Swaps = map<string, Option<SwapRecord>>

  ghost predicate DistinctNames(entries: seq<Stage>) {
    forall i, k :: 0 <= i < k < |entries| ==> entries[i].name != entries[k].name
  }

  predicate KeepsJournal(e: Stage) { e.isDir && !e.journal.Absent? }

  function ReadJournal(file: JournalFile): Option<SwapRecord> {
    if file.Readable? then Some(file.swap) else None
  }

  method UnsettledSwaps(staging: Staging) returns (swaps: Option<Swaps>)
    requires staging.Stages? ==> DistinctNames(staging.entries)
    ensures swaps.None? <==> staging.StagingUnreadable?
    ensures staging.Stages? ==>
              && (forall e :: e in staging.entries && KeepsJournal(e) ==>
                    e.name in swaps.value && swaps.value[e.name] == ReadJournal(e.journal))
              && (forall name :: name in swaps.value ==>
                    exists e :: e in staging.entries && KeepsJournal(e) && e.name == name)
  {
    if staging.StagingUnreadable? { return None; }
    var out: Swaps := map[];
    var entries := staging.entries;
    for i := 0 to |entries|
      invariant forall k :: 0 <= k < i && KeepsJournal(entries[k]) ==>
                  entries[k].name in out && out[entries[k].name] == ReadJournal(entries[k].journal)
      invariant forall name :: name in out ==>
                  exists k :: 0 <= k < i && KeepsJournal(entries[k]) && entries[k].name == name
    {
      var e := entries[i];
      if KeepsJournal(e) {
        out := out[e.name := ReadJournal(e.journal)];
      }
    }
    return Some(out);
  }

  /** One that can't be read may be any server's. */
  predicate Concerns(j: Option<SwapRecord>, serverID: string) {
    j.None? || j.value.serverID == serverID
  }

  /** Some journal left in the stages may be the server's. */
  ghost predicate MayBeUnfinished(staging: Staging, serverID: string) {
    staging.StagingUnreadable?
    || exists e :: e in staging.entries && KeepsJournal(e) && Concerns(ReadJournal(e.journal), serverID)
  }

  method RestoreUnsettled(staging: Staging, serverID: string) returns (unsettled: bool)
    requires staging.Stages? ==> DistinctNames(staging.entries)
    ensures unsettled <==> MayBeUnfinished(staging, serverID)
  {
    var swaps := UnsettledSwaps(staging);
    if swaps.None? { return true; }
    var left := swaps.value.Keys;
    while left != {}
      invariant left <= swaps.value.Keys
      invariant forall name :: name in swaps.value.Keys - left ==> !Concerns(swaps.value[name], serverID)
      decreases |left|
    {
      var name :| name in left;
      if Concerns(swaps.value[name], serverID) { return true; }
      left := left - {name};
    }
    return false;
  }

  /** Why a world copy is kept, or that it goes. */
  datatype CopyVerdict = NotFound | StagingBlind | RestoreOpen | WorldMissing | Discarded

  method JudgeCopy(staging: Staging, serverID: string, copyExists: bool, liveExists: bool) returns (v: CopyVerdict)
    requires staging.Stages? ==> DistinctNames(staging.entries)
    ensures v == Discarded <==> copyExists && liveExists && !MayBeUnfinished(staging, serverID)
    ensures v == RestoreOpen <==> copyExists && staging.Stages? && MayBeUnfinished(staging, serverID)
    ensures v == StagingBlind <==> copyExists && staging.StagingUnreadable?
    ensures v == NotFound <==> !copyExists
  {
    if !copyExists { return NotFound; }
    if staging.StagingUnreadable? { return StagingBlind; }
    var unsettled := RestoreUnsettled(staging, serverID);
    if unsettled { return RestoreOpen; }
    return if liveExists then Discarded else WorldMissing;
  }

  // ---------- rollback archives ----------

  datatype BackupKind = Rollback | BeforeRestore | Ordinary

  datatype Backup = Backup(id: string, kind: BackupKind)

  /** An operation on record, with the rollback archive a restore names in its detail ("" for none). */
  datatype Operation = Operation(isRestore: bool, rollbackID: string)

  type Ops = map<string, Operation>

  predicate Names(op: Operation, id: string) { op.isRestore && op.rollbackID != "" && op.rollbackID == id }

  predicate IsRollback(b: Backup) { b.kind != Ordinary }

  predicate OnRecord(ops: Ops, j: Option<SwapRecord>) { j.Some? && j.value.opID in ops }

  /** The archives a journal may need: the one its restore names, or, with no restore on record for
      it, every rollback archive. */
  ghost predicate JournalNeeds(j: Option<SwapRecord>, ops: Ops, list: seq<Backup>, id: string) {
    if OnRecord(ops, j) then Names(ops[j.value.opID], id)
    else exists b :: b in list && IsRollback(b) && b.id == id
  }

  ghost predicate SwapsNeed(swaps: Swaps, names: set<string>, serverID: string, ops: Ops, list: seq<Backup>, id: string) {
    exists name :: name in names && name in swaps && Concerns(swaps[name], serverID) && JournalNeeds(swaps[name], ops, list, id)
  }

  method RollbackIDs(list: seq<Backup>) returns (ids: set<string>)
    ensures forall id :: id in ids <==> exists b :: b in list && IsRollback(b) && b.id == id
  {
    ids := {};
    for i := 0 to |list|
      invariant forall id :: id in ids <==> exists k :: 0 <= k < i && IsRollback(list[k]) && list[k].id == id
    {
      if IsRollback(list[i]) { ids := ids + {list[i].id}; }
    }
  }

  /** What one journal adds, with `rollbacks` the rollback archives in the list. */
  function Adds(j: Option<SwapRecord>, ops: Ops, rollbacks: set<string>): set<string> {
    if !OnRecord(ops, j) then rollbacks
    else
      var op := ops[j.value.opID];
      if op.isRestore && op.rollbackID != "" then {op.rollbackID} else {}
  }

  method NeededBySwaps(swaps: Swaps, serverID: string, ops: Ops, list: seq<Backup>) returns (needed: set<string>)
    ensures forall id :: id in needed <==> SwapsNeed(swaps, swaps.Keys, serverID, ops, list, id)
  {
    needed := {};
    var rollbacks := RollbackIDs(list);
    var left := swaps.Keys;
    while left != {}
      invariant left <= swaps.Keys
      invariant forall id :: id in needed <==> SwapsNeed(swaps, swaps.Keys - left, serverID, ops, list, id)
      decreases |left|
    {
      var name :| name in left;
      var j := swaps[name];
      ghost var was, done := needed, swaps.Keys - left;
      if Concerns(j, serverID) { needed := needed + Adds(j, ops, rollbacks); }
      left := left - {name};
      forall id
        ensures id in needed <==> SwapsNeed(swaps, swaps.Keys - left, serverID, ops, list, id)
      {
        assert id in Adds(j, ops, rollbacks) <==> JournalNeeds(j, ops, list, id);
        OneMoreSwap(swaps, done, name, serverID, ops, list, id);
        assert swaps.Keys - left == done + {name};
      }
    }
    assert swaps.Keys - left == swaps.Keys;
  }

  lemma OneMoreSwap(swaps: Swaps, done: set<string>, name: string, serverID: string, ops: Ops, list: seq<Backup>, id: string)
    requires name in swaps
    ensures SwapsNeed(swaps, done + {name}, serverID, ops, list, id) <==>
              SwapsNeed(swaps, done, serverID, ops, list, id)
              || (Concerns(swaps[name], serverID) && JournalNeeds(swaps[name], ops, list, id))
  {
  }

  /** A journal in a stage needs the archive. */
  ghost predicate StageNeeds(e: Stage, serverID: string, ops: Ops, list: seq<Backup>, id: string) {
    KeepsJournal(e) && Concerns(ReadJournal(e.journal), serverID) && JournalNeeds(ReadJournal(e.journal), ops, list, id)
  }

  method RollbacksNeeded(staging: Staging, serverID: string, current: Option<Operation>, ops: Ops, list: seq<Backup>)
    returns (needed: set<string>)
    requires staging.Stages? ==> DistinctNames(staging.entries)
    ensures forall id :: id in needed <==>
              || (current.Some? && Names(current.value, id))
              || (staging.StagingUnreadable? && JournalNeeds(None, ops, list, id))
              || (staging.Stages? && exists e :: e in staging.entries && StageNeeds(e, serverID, ops, list, id))
  {
    var read := UnsettledSwaps(staging);
    var swaps: Swaps := if read.None? then map["" := None] else read.value;
    needed := NeededBySwaps(swaps, serverID, ops, list);
    ghost var bySwaps := needed;
    if current.Some? && current.value.isRestore && current.value.rollbackID != "" {
      needed := needed + {current.value.rollbackID};
    }
    forall id
      ensures id in bySwaps <==>
                || (staging.StagingUnreadable? && JournalNeeds(None, ops, list, id))
                || (staging.Stages? && exists e :: e in staging.entries && StageNeeds(e, serverID, ops, list, id))
    {
      if staging.StagingUnreadable? {
        assert "" in swaps;
      } else {
        if id in bySwaps {
          var name :| name in swaps && Concerns(swaps[name], serverID) && JournalNeeds(swaps[name], ops, list, id);
          var e :| e in staging.entries && KeepsJournal(e) && e.name == name;
          assert StageNeeds(e, serverID, ops, list, id);
        }
        if e :| e in staging.entries && StageNeeds(e, serverID, ops, list, id) {
          assert e.name in swaps;
        }
      }
    }
  }

  // ---------- starts ----------

  ghost predicate HoldsStart(e: Stage, serverID: string, opID: string, settled: set<string>) {
    KeepsJournal(e) && e.journal.Readable? && e.journal.swap.serverID == serverID
    && e.journal.swap.opID != opID && e.name !in settled
  }

  method StartRefusal(staging: Staging, serverID: string, opID: string, settled: set<string>) returns (refused: bool)
    requires staging.Stages? ==> DistinctNames(staging.entries)
    ensures refused <==> staging.Stages? && exists e :: e in staging.entries && HoldsStart(e, serverID, opID, settled)
  {
    var swaps := UnsettledSwaps(staging);
    if swaps.None? { return false; }
    var left := swaps.value.Keys;
    while left != {}
      invariant left <= swaps.value.Keys
      invariant forall name :: name in swaps.value.Keys - left ==>
                  !(swaps.value[name].Some? && swaps.value[name].value.serverID == serverID
                    && swaps.value[name].value.opID != opID && name !in settled)
      decreases |left|
    {
      var name :| name in left;
      left := left - {name};
      var j := swaps.value[name];
      if j.Some? && j.value.serverID == serverID && j.value.opID != opID && name !in settled { return true; }
    }
    return false;
  }

  /** While the stage of a restore keeps its journal, readable or not: the server's world copies stay,
      the rollback archive the restore made is needed, and a readable journal that isn't settled
      refuses every start but the restore's own. */
  method UnfinishedRestoreProtects(
      staging: Staging, serverID: string, stage: Stage, rollback: Backup,
      current: Option<Operation>, ops: Ops, list: seq<Backup>, opID: string, settled: set<string>, liveExists: bool)
    returns (verdict: CopyVerdict, needed: set<string>, refused: bool)
    requires staging.Stages? && DistinctNames(staging.entries)
    requires stage in staging.entries && KeepsJournal(stage)
    requires stage.journal.Readable? ==> stage.journal.swap.serverID == serverID
    requires rollback in list && IsRollback(rollback) && rollback.id != ""
    requires stage.journal.Readable? && stage.journal.swap.opID in ops ==>
               ops[stage.journal.swap.opID] == Operation(true, rollback.id)
    ensures verdict == RestoreOpen
    ensures rollback.id in needed
    ensures stage.journal.Readable? && stage.journal.swap.opID != opID && stage.name !in settled ==> refused
  {
    verdict := JudgeCopy(staging, serverID, true, liveExists);
    needed := RollbacksNeeded(staging, serverID, current, ops, list);
    refused := StartRefusal(staging, serverID, opID, settled);
    assert Concerns(ReadJournal(stage.journal), serverID);
    assert StageNeeds(stage, serverID, ops, list, rollback.id);
    if stage.journal.Readable? && stage.journal.swap.opID != opID && stage.name !in settled {
      assert HoldsStart(stage, serverID, opID, settled);
    }
  }
}
