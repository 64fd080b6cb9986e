/** unarchiveCompaction: restoring archived records with compensation, over the stores of Deployment. */
module Unarchive {
  import opened Common
  import opened Store
  import opened Protocol
  import opened Slices
  import opened LocalInvariant
  import opened TableInvariant
  import opened ProtocolInvariant
  import opened Guarantees
  import opened Deployment
  import opened WritePaths

  // ----- what a restore's calls do, seen from outside its record -----

  // A restore never touches another record's chunks, jobs or points, nor any archive row but its own.
  lemma RestoreStaysLocal(s: State, r: nat, effect: bool, reply: Reply, now: int)
    requires Inv(s) && r in s.attempts && s.attempts[r].kind == Restore
    ensures var s' := AfterCall(s, r, effect, reply, now);
            && OthersKeep(s.db, s'.db, r)
            && s'.db.archive
               == if effect && s.attempts[r].at == AtMarkUnarchived
                  then MarkUnarchived(s.db, s.attempts[r].row, now).archive else s.db.archive
  {
    hide Sound, SliceOf, OthersKeep, PhaseFacts, PhaseSafe, Loses, After, LocalEffect;
    var a := s.attempts[r];
    assert RecordOk(s, r);
    SliceOrg(s.db, r);
    if !effect {
      OthersKeepRefl(s.db, r);
    } else if a.at == AtUndoRecord {
      UndoRecordEnds(s.db, r, a, reply, now);
      DropRecordSlices(s.db, r);
    } else {
      EffectFitsAlways(s.db, r, a, now, s.cleaned);
    }
    if effect { EffectRows(s.db, r, a, now); }
  }

  lemma OthersKeepRefl(d: Db, r: nat)
    ensures OthersKeep(d, d, r)
  {
  }

  lemma OthersKeepTrans(d: Db, d1: Db, d2: Db, r: nat)
    requires OthersKeep(d, d1, r) && OthersKeep(d1, d2, r)
    ensures OthersKeep(d, d2, r)
  {
    hide SliceOf;
  }

  // The points a restore has put in the index, phase by phase.
  lemma RestorePoints(s: State, r: nat, effect: bool, reply: Reply, now: int)
    requires Inv(s) && r in s.attempts && s.attempts[r].kind == Restore && s.attempts[r].at != AtUndoRecord
    ensures var a := s.attempts[r];
            var mine := PointsFor(Restore, r, a.org, a.loaded);
            var points' := PointsOf(AfterCall(s, r, effect, reply, now).db.index, r);
            && (a.at in {AtInsertChunks, AtEmbed} ==> points' == map[])
            && (a.at == AtUpsert ==> points' == if effect then mine else map[])
            && (a.at in {AtLink, AtMarkUnarchived} ==> points' == mine)
            && (a.at == AtUndoPoints && effect && PointsOf(s.db.index, r) == mine ==> points' == map[])
  {
    hide Sound, OthersKeep, PhaseSafe, Loses, After, Synced, HoldsChunks, ChunksOf, JobsOf, PointsOf, Effect, PointsFor;
    var a := s.attempts[r];
    assert RecordOk(s, r);
    SliceOrg(s.db, r);
    if effect { EffectFitsAlways(s.db, r, a, now, s.cleaned); }
    PointsAllGo(r, a);
    if a.at == AtUpsert { UpsertFills(SliceOf(s.db, r), r, a); }
  }

  lemma PointsAllGo(r: nat, a: Attempt)
    ensures var mine := PointsFor(a.kind, r, a.org, a.loaded); Remaining(mine, mine.Keys, Some(a.org)) == map[]
  {
  }

  /** A restore about to be marked has its record in step, with the chunks it stored. */
  lemma UnarchivedInStep(s: State, r: nat, now: int)
    requires Inv(s) && r in s.attempts && s.attempts[r].at == AtMarkUnarchived
    ensures var d' := AfterCall(s, r, true, Ok, now).db;
            && r in d'.records && InStep(d', r) && StoresTexts(d', r, s.attempts[r].texts)
  {
    UnarchivableFacts(s, r);
    hide Inv, Sound, Synced, InOrder, InStep, StoresTexts, Effect, After, Loses, SliceOf;
    RestoreLeavesRest(s.db, r, s.attempts[r], now);
    SyncedIsInStep(s.db, r, s.cleaned);
    OrderedIsStored(s.db, r, s.attempts[r].texts);
    SameChunksStored(s.db, AfterCall(s, r, true, Ok, now).db, r, s.attempts[r].texts);
    SameRecordState(s.db, AfterCall(s, r, true, Ok, now).db, r);
  }

  lemma UnarchivableFacts(s: State, r: nat)
    requires Inv(s) && r in s.attempts && s.attempts[r].at == AtMarkUnarchived
    ensures Sound(s.db, s.cleaned) && r in s.db.records
    ensures Synced(SliceOf(s.db, r), r) && InOrder(SliceOf(s.db, r).chunks, s.attempts[r].texts)
  {
    hide Sound, SliceOf, Synced, HoldsChunks, InOrder;
    assert RecordOk(s, r);
  }

  lemma SameRecordState(d: Db, d': Db, r: nat)
    requires r in d.records && d'.records == d.records && d'.chunks == d.chunks && d'.index == d.index
    ensures InStep(d', r) <==> InStep(d, r)
  {
  }

  lemma RestoreLeavesRest(d: Db, r: nat, a: Attempt, now: int)
    requires a.at == AtMarkUnarchived
    ensures var d' := Effect(d, r, a, now);
            d'.records == d.records && d'.chunks == d.chunks && d'.index == d.index
  {
  }

  // ----- one archive row -----

  // Everything but record r and the archive is as it was.
  ghost predicate OnlyAdds(d: Db, d': Db, r: nat) {
    OthersKeep(d, d', r) && d'.records - {r} == d.records - {r}
  }

  // Store the chunks of a restored record.
  method InsertRestored(stores: Stores, r: nat, a: nat, org: string, texts: seq<string>, now: int)
    returns (reply: Reply, loaded: map<nat, string>)
    requires stores.Standing(r, AtInsertChunks)
    requires stores.machine.attempts[r] == Attempt(Restore, AtInsertChunks, org, texts, map[], 0, 0, 0, a)
    modifies stores
    ensures stores.Valid() && old(stores.log) <= stores.log && Focus(old(stores.machine), stores.machine, r)
    ensures stores.AllAnswered(reply.Ok?)
    ensures OthersKeep(old(stores.machine.db), stores.machine.db, r) && PointsOf(stores.index, r) == map[]
    ensures stores.archive == old(stores.archive) && stores.records == old(stores.records)
    ensures match reply
            case Crash => r !in stores.machine.attempts
            case Error => stores.Standing(r, AtUndoRecord)
            case Ok => stores.Standing(r, AtEmbed) && stores.machine.attempts[r].loaded == loaded
    ensures loaded == NewTexts(old(stores.machine.db.nextChunk), texts) && (texts == [] <==> loaded == map[])
    ensures r in stores.machine.attempts ==>
      stores.machine.attempts[r]
      == Attempt(Restore, stores.machine.attempts[r].at, org, texts, stores.machine.attempts[r].loaded, 0, 0, 0, a)
  {
    hide Inv, Legal, Run, AfterCall, SameRows, NewTexts, OthersKeep, PointsOf, PointsFor, Stores.Valid, Next, Enabled;
    NewRowsHold(stores.machine.db.nextChunk, r, texts);
    ghost var m := stores.machine;
    ValidKnows(stores);
    reply, loaded := stores.InsertChunkRows(r, texts, now);
    ghost var effect := stores.log[|stores.log| - 1].effect;
    RestoreStaysLocal(m, r, effect, reply, now);
    RestorePoints(m, r, effect, reply, now);
    ValidKnows(stores);
  }

  // The try block of restoreOne up to the upsert.
  method StoreRestored(stores: Stores, r: nat, a: nat, org: string, texts: seq<string>, now: int)
    returns (reply: Reply, loaded: map<nat, string>)
    requires stores.Standing(r, AtInsertChunks)
    requires stores.machine.attempts[r] == Attempt(Restore, AtInsertChunks, org, texts, map[], 0, 0, 0, a)
    modifies stores
    ensures stores.Valid() && old(stores.log) <= stores.log && Focus(old(stores.machine), stores.machine, r)
    ensures stores.AllAnswered(reply.Ok?)
    ensures OthersKeep(old(stores.machine.db), stores.machine.db, r)
    ensures stores.archive == old(stores.archive) && stores.records == old(stores.records)
    ensures match reply
            case Crash => r !in stores.machine.attempts
            case Error => stores.Standing(r, AtUndoRecord) && PointsOf(stores.index, r) == map[]
            case Ok => stores.Standing(r, if texts == [] then AtMarkUnarchived else AtUpsert)
    ensures r in stores.machine.attempts ==>
      stores.machine.attempts[r]
      == Attempt(Restore, stores.machine.attempts[r].at, org, texts, stores.machine.attempts[r].loaded, 0, 0, 0, a)
      && (reply.Ok? ==> stores.machine.attempts[r].loaded == loaded && (texts == [] <==> loaded == map[]))
  {
    hide Inv, Legal, Run, AfterCall, SameRows, NewTexts, OthersKeep, PointsOf, PointsFor, Stores.Valid, Next, Enabled;
    ghost var d := stores.machine.db;
    reply, loaded := InsertRestored(stores, r, a, org, texts, now);
    if !reply.Ok? { return; }
    ghost var m := stores.machine;
    ValidKnows(stores);
    reply := stores.EmbedBatch(r, now);
    ghost var effect := stores.log[|stores.log| - 1].effect;
    RestoreStaysLocal(m, r, effect, reply, now);
    RestorePoints(m, r, effect, reply, now);
    OthersKeepTrans(d, m.db, stores.machine.db, r);
    ValidKnows(stores);
  }

  // The rest of the try block: index the chunks if there are any, then mark the row.
  method IndexRestored(stores: Stores, r: nat, a: nat, org: string, loaded: map<nat, string>, now: int)
    returns (reply: Reply, upserted: bool, ghost failing: Phase, ghost effect: bool)
    requires stores.Standing(r, AtUpsert)
    requires var b := stores.machine.attempts[r];
             b.kind == Restore && b.org == org && b.loaded == loaded && loaded != map[] && b.row == a
    modifies stores
    ensures stores.Valid() && old(stores.log) <= stores.log && Focus(old(stores.machine), stores.machine, r)
    ensures !reply.Ok? && stores.hidden == old(stores.hidden) ==> !effect
    ensures stores.AllAnswered(reply.Ok?)
    ensures OthersKeep(old(stores.machine.db), stores.machine.db, r)
    ensures stores.archive == old(stores.archive) && stores.records == old(stores.records)
    ensures failing in {AtUpsert, AtLink}
    ensures match reply
            case Crash => r !in stores.machine.attempts
            case Error =>
              && stores.Standing(r, if upserted then AtUndoPoints else AtUndoRecord)
              && (upserted ==> failing != AtUpsert)
              && PointsOf(stores.index, r)
                 == if upserted || (failing == AtUpsert && effect) then PointsFor(Restore, r, org, loaded) else map[]
            case Ok => upserted && stores.Standing(r, AtMarkUnarchived)
    ensures r in stores.machine.attempts ==>
      stores.machine.attempts[r] == old(stores.machine.attempts[r]).(at := stores.machine.attempts[r].at)
  {
    hide Inv, Legal, Run, AfterCall, SameRows, NewTexts, OthersKeep, PointsOf, PointsFor, Stores.Valid, Next, Enabled;
    ghost var m := stores.machine;
    ValidKnows(stores);
    upserted := false;
    reply := stores.Upsert(Restore, r, org, loaded, now);
    effect, failing := stores.log[|stores.log| - 1].effect, AtUpsert;
    RestoreStaysLocal(m, r, effect, reply, now);
    RestorePoints(m, r, effect, reply, now);
    ValidKnows(stores);
    if !reply.Ok? { return; }
    upserted := true;
    ghost var m1 := stores.machine;
    reply := stores.UpdatePointIds(Restore, r, loaded, now);
    effect, failing := stores.log[|stores.log| - 1].effect, AtLink;
    RestoreStaysLocal(m1, r, effect, reply, now);
    RestorePoints(m1, r, effect, reply, now);
    OthersKeepTrans(m.db, m1.db, stores.machine.db, r);
    ValidKnows(stores);
  }

  // markUnarchived, the last call of a restore.
  method MarkRestored(stores: Stores, r: nat, a: nat, now: int) returns (reply: Reply, ghost effect: bool)
    requires stores.Standing(r, AtMarkUnarchived)
    requires stores.machine.attempts[r].kind == Restore && stores.machine.attempts[r].row == a
    modifies stores
    ensures stores.Valid() && old(stores.log) <= stores.log && Focus(old(stores.machine), stores.machine, r)
    ensures !reply.Ok? && stores.hidden == old(stores.hidden) ==> !effect
    ensures stores.AllAnswered(reply.Ok?)
    ensures OthersKeep(old(stores.machine.db), stores.machine.db, r) && stores.records == old(stores.records)
    ensures stores.archive == if effect then MarkUnarchived(old(stores.Tables()), a, now).archive else old(stores.archive)
    ensures var b := old(stores.machine.attempts[r]);
            match reply
            case Crash => r !in stores.machine.attempts
            case Error =>
              && r in stores.machine.attempts
              && stores.machine.attempts[r] == b.(at := if HasChunks(b) then AtUndoPoints else AtUndoRecord)
              && PointsOf(stores.index, r) == PointsFor(Restore, r, b.org, b.loaded)
            case Ok =>
              && effect && r !in stores.machine.attempts && r in stores.records && InStep(stores.Tables(), r)
              && StoresTexts(stores.Tables(), r, b.texts)
  {
    hide Inv, Legal, Run, AfterCall, SameRows, NewTexts, OthersKeep, PointsOf, PointsFor, InStep, StoresTexts,
      MarkUnarchived;
    ghost var m := stores.machine;
    UnarchivedInStep(m, r, now);
    reply := stores.MarkRowUnarchived(r, a, now);
    effect := stores.log[|stores.log| - 1].effect;
    RestoreStaysLocal(m, r, effect, reply, now);
    RestorePoints(m, r, effect, reply, now);
  }

  lemma UndoRecordDrops(s: State, r: nat, reply: Reply, now: int)
    requires Inv(s) && r in s.attempts && s.attempts[r].at == AtUndoRecord
    ensures AfterCall(s, r, true, reply, now).db == DropRecord(s.db, r)
  {
    hide Sound, SliceOf, PhaseFacts, PhaseSafe, Effect, After, Loses, DropRecord;
    assert RecordOk(s, r);
    SliceOrg(s.db, r);
    UndoRecordEnds(s.db, r, s.attempts[r], reply, now);
  }

  // compensateFailedRestore. done: every compensating call answered.
  method CompensateFailedRestore(stores: Stores, r: nat, org: string, loaded: map<nat, string>, upserted: bool, now: int)
    returns (crashed: bool, ghost done: bool)
    requires stores.Standing(r, if upserted then AtUndoPoints else AtUndoRecord)
    requires var b := stores.machine.attempts[r]; b.kind == Restore && b.org == org && (upserted ==> b.loaded == loaded)
    modifies stores
    ensures stores.Valid() && old(stores.log) <= stores.log
    ensures old(stores.hidden) <= stores.hidden && stores.AllAnswered(done)
    ensures r !in stores.machine.attempts && Focus(old(stores.machine), stores.machine, r)
    ensures OnlyAdds(old(stores.machine.db), stores.machine.db, r) && stores.archive == old(stores.archive)
    ensures done ==> r !in stores.records
    ensures done && (upserted ==> PointsOf(old(stores.index), r) == PointsFor(Restore, r, org, loaded)) ==>
      PointsOf(stores.index, r) == if upserted then map[] else PointsOf(old(stores.index), r)
  {
    hide Inv, Legal, Run, AfterCall, SameRows, OthersKeep, PointsOf, PointsFor, DropRecord;
    done := true;
    OthersKeepRefl(stores.machine.db, r);
    if upserted {
      ghost var m := stores.machine;
      var undone := stores.DeleteUpserted(Restore, r, org, loaded, AtUndoPoints, now);
      done := undone.Ok?;
      RestoreStaysLocal(m, r, stores.log[|stores.log| - 1].effect, undone, now);
      RestorePoints(m, r, stores.log[|stores.log| - 1].effect, undone, now);
      if undone.Crash? { return true, false; }
    }
    ghost var dropped, before := false, stores.machine.db;
    crashed, dropped := DropRestored(stores, r, org, now);
    done := done && dropped;
    OthersKeepTrans(old(stores.machine.db), before, stores.machine.db, r);
  }

  method DropRestored(stores: Stores, r: nat, org: string, now: int) returns (crashed: bool, ghost done: bool)
    requires stores.Standing(r, AtUndoRecord)
    requires stores.machine.attempts[r].kind == Restore && stores.machine.attempts[r].org == org
    modifies stores
    ensures stores.Valid() && old(stores.log) <= stores.log
    ensures old(stores.hidden) <= stores.hidden && stores.AllAnswered(done)
    ensures r !in stores.machine.attempts && Focus(old(stores.machine), stores.machine, r)
    ensures OnlyAdds(old(stores.machine.db), stores.machine.db, r)
    ensures stores.archive == old(stores.archive) && stores.index == old(stores.index)
    ensures done ==> r !in stores.records
  {
    hide Inv, Legal, Run, AfterCall, SameRows, OthersKeep;
    ghost var m := stores.machine;
    var reply := stores.DeleteRecordRow(r, org, now);
    crashed, done := reply.Crash?, reply.Ok?;
    ghost var effect := stores.log[|stores.log| - 1].effect;
    RestoreStaysLocal(m, r, effect, reply, now);
    if effect { UndoRecordDrops(m, r, reply, now); } else { NoEffect(m, r, reply, now); }
  }

  lemma NoEffect(s: State, r: nat, reply: Reply, now: int)
    requires r in s.attempts
    ensures AfterCall(s, r, false, reply, now).db == s.db
  {
  }

  datatype Restoring = Restored(record: nat) | NotRestored | RestoreCrashed

  // Both stores hold the same rows and points; only the id sequences may differ.
  ghost predicate SameTables(d: Db, d': Db) {
    && d'.records == d.records && d'.chunks == d.chunks && d'.jobs == d.jobs
    && d'.archive == d.archive && d'.index == d.index
  }

  // Record r is the row's record again, with its own fields and timestamps, in step with the index.
  ghost predicate IsRestored(d: Db, r: nat, row: ArchiveRow, texts: seq<string>) {
    && r in d.records && row.sourceId.Some? && d.records[r] == row.snapshot.(sourceId := row.sourceId.value)
    && InStep(d, r) && StoresTexts(d, r, texts)
  }

  lemma SlicesDetermine(d: Db, d': Db)
    requires AllKeep(d, d')
    ensures d'.chunks == d.chunks && d'.jobs == d.jobs && d'.index == d.index
  {
    forall c | c in d.chunks ensures c in d'.chunks && d'.chunks[c] == d.chunks[c] {
      assert c in SliceOf(d', d.chunks[c].record).chunks;
    }
    forall c | c in d'.chunks ensures c in d.chunks {
      assert c in SliceOf(d, d'.chunks[c].record).chunks;
    }
    forall j | j in d.jobs ensures j in d'.jobs && d'.jobs[j] == d.jobs[j] {
      assert j in SliceOf(d', d.jobs[j].record).jobs;
    }
    forall j | j in d'.jobs ensures j in d.jobs {
      assert j in SliceOf(d, d'.jobs[j].record).jobs;
    }
    forall p | p in d.index ensures p in d'.index && d'.index[p] == d.index[p] {
      assert p in SliceOf(d', d.index[p].record).points;
    }
    forall p | p in d'.index ensures p in d.index {
      assert p in SliceOf(d, d'.index[p].record).points;
    }
  }

  lemma GoneIsEmpty(d: Db, r: nat, cleaned: set<nat>)
    requires Sound(d, cleaned) && r !in d.records && PointsOf(d.index, r) == map[]
    ensures SliceOf(d, r) == Slice("", map[], map[], map[])
  {
  }

  /** A compensated restore has left no trace. */
  lemma CompensatedIsSame(s: State, s': State, r: nat)
    requires Inv(s) && Inv(s') && r == s.db.nextRecord
    requires OnlyAdds(s.db, s'.db, r) && s'.db.archive == s.db.archive
    requires r !in s'.db.records && PointsOf(s'.db.index, r) == map[]
    ensures SameTables(s.db, s'.db)
  {
    hide Sound, OthersKeep, SliceOf;
    NewRecordIsEmpty(s.db, s.cleaned);
    GoneIsEmpty(s'.db, r, s'.cleaned);
    AllOf(s.db, s'.db, r);
    SlicesDetermine(s.db, s'.db);
    assert s'.db.records == s'.db.records - {r} == s.db.records - {r} == s.db.records;
  }

  lemma AllOf(d: Db, d': Db, r: nat)
    requires OthersKeep(d, d', r) && SliceOf(d', r) == SliceOf(d, r)
    ensures AllKeep(d, d')
  {
    hide SliceOf;
  }

  // Points left in the index, where there were none, show.
  lemma LeftPointsShow(s: State, s': State, r: nat, org: string, loaded: map<nat, string>)
    requires Inv(s) && r == s.db.nextRecord && loaded != map[]
    requires PointsOf(s'.db.index, r) == PointsFor(Restore, r, org, loaded)
    ensures !SameTables(s.db, s'.db)
  {
    hide Sound;
    NewRecordIsEmpty(s.db, s.cleaned);
    var c :| c in loaded;
    assert RestoredPoint(r, c) in PointsFor(Restore, r, org, loaded);
    assert SliceOf(s.db, r).points == PointsOf(s.db.index, r);
  }

  /**
    What a call that reported an error has left behind without the restore knowing: the record row, points in the
    index, or the mark on the archive row. Compensation undoes none of these.
  */
  datatype Residue = Nothing | LeftRecord | LeftPoints | LeftMark

  // The try block of restoreOne after the insert.
  method TryRestore(stores: Stores, r: nat, a: nat, org: string, texts: seq<string>, now: int)
    returns (reply: Reply, loaded: map<nat, string>, upserted: bool, ghost residue: Residue)
    requires stores.Standing(r, AtInsertChunks)
    requires stores.machine.attempts[r] == Attempt(Restore, AtInsertChunks, org, texts, map[], 0, 0, 0, a)
    modifies stores
    ensures stores.Valid() && old(stores.log) <= stores.log && Focus(old(stores.machine), stores.machine, r)
    ensures !reply.Ok? && stores.hidden == old(stores.hidden) ==> residue.Nothing?
    ensures stores.AllAnswered(reply.Ok?)
    ensures OthersKeep(old(stores.machine.db), stores.machine.db, r) && stores.records == old(stores.records)
    ensures stores.archive
         == if reply.Ok? || residue.LeftMark? then MarkUnarchived(old(stores.Tables()), a, now).archive
            else old(stores.archive)
    ensures match reply
            case Crash => r !in stores.machine.attempts
            case Error =>
              && stores.Standing(r, if upserted then AtUndoPoints else AtUndoRecord)
              && stores.machine.attempts[r].kind == Restore && stores.machine.attempts[r].org == org
              && (upserted ==> stores.machine.attempts[r].loaded == loaded)
              && (residue.LeftPoints? ==> !upserted && loaded != map[]) && !residue.LeftRecord?
              && PointsOf(stores.index, r)
                 == if upserted || residue.LeftPoints? then PointsFor(Restore, r, org, loaded) else map[]
            case Ok =>
              && r !in stores.machine.attempts && r in stores.records && InStep(stores.Tables(), r)
              && StoresTexts(stores.Tables(), r, texts)
  {
    hide Inv, Legal, Run, AfterCall, SameRows, NewTexts, OthersKeep, PointsOf, PointsFor, InStep, StoresTexts,
      MarkUnarchived;
    ghost var d0, failing, effect := stores.machine.db, AtInsertChunks, false;
    upserted, residue := false, Nothing;
    reply, loaded := StoreRestored(stores, r, a, org, texts, now);
    if !reply.Ok? { return; }
    if texts != [] {
      ghost var d1 := stores.machine.db;
      reply, upserted, failing, effect := IndexRestored(stores, r, a, org, loaded, now);
      OthersKeepTrans(d0, d1, stores.machine.db, r);
      residue := if failing == AtUpsert && effect then LeftPoints else Nothing;
      if !reply.Ok? { return; }
    }
    ghost var d2 := stores.machine.db;
    reply, effect := MarkRestored(stores, r, a, now);
    residue := if effect then LeftMark else Nothing;
    OthersKeepTrans(d0, d2, stores.machine.db, r);
    NoPointsFor(r, org);
    SameArchive(d0, d2, a, now);
  }

  lemma NoPointsFor(r: nat, org: string)
    ensures PointsFor(Restore, r, org, map[]) == map[]
  {
  }

  lemma SameArchive(d: Db, d': Db, a: nat, now: int)
    requires d'.archive == d.archive
    ensures MarkUnarchived(d', a, now).archive == MarkUnarchived(d, a, now).archive
  {
  }

  /**
    restoreOne on a row that was found, with the chunks of its content. done: every compensating call answered. The
    rest of the stores never changes; a restore that answers adds exactly the row's record; and a compensated failure
    leaves both stores as they were if and only if no call took effect behind its error.
  */
  method RestoreOne(stores: Stores, a: nat, row: ArchiveRow, org: string, texts: seq<string>, now: int)
    returns (outcome: Restoring, ghost done: bool, ghost residue: Residue)
    requires stores.Valid() && a in stores.archive && row.sourceId.Some? && row.snapshot.org == org
    requires row.snapshot == stores.archive[a].snapshot && row.sourceId == stores.archive[a].sourceId
    modifies stores
    ensures stores.Valid() && old(stores.log) <= stores.log
    ensures stores.AllAnswered(outcome.Restored?)
    ensures outcome.NotRestored? && stores.faults == old(stores.faults) + 1 ==> done
    ensures stores.hidden == old(stores.hidden) ==> residue.Nothing?
    ensures var r := old(stores.nextRecord);
            && r !in stores.machine.attempts && Focus(old(stores.machine), stores.machine, r)
            && OnlyAdds(old(stores.machine.db), stores.machine.db, r)
            && (outcome.Restored? ==> outcome.record == r && IsRestored(stores.Tables(), r, row, texts))
    ensures stores.archive
         == if outcome.Restored? || residue.LeftMark? then MarkUnarchived(old(stores.Tables()), a, now).archive
            else old(stores.archive)
    ensures outcome.NotRestored? && done && old(stores.archive)[a].unarchivedAt.None? ==>
      (SameTables(old(stores.Tables()), stores.Tables()) <==> residue.Nothing?)
  {
    hide Inv, Legal, Run, AfterCall, SameRows, OthersKeep, PointsOf, PointsFor, InStep, StoresTexts, MarkUnarchived,
      SameTables, InsertRecord;
    ghost var s0 := stores.machine;
    done, residue := true, Nothing;
    var reply, r, inserted := stores.RestoreToCanonical(a, row, texts, now);
    InsertOnlyAdds(s0, row.snapshot.(sourceId := row.sourceId.value));
    OthersKeepRefl(s0.db, r);
    if !reply.Ok? {
      residue := if inserted then LeftRecord else Nothing;
      LeftRecordShows(s0, stores.machine, r);
      return if reply.Crash? then RestoreCrashed else NotRestored, true, residue;
    }
    ghost var d1 := stores.machine.db;
    var loaded, upserted;
    reply, loaded, upserted, residue := TryRestore(stores, r, a, org, texts, now);
    OthersKeepTrans(s0.db, d1, stores.machine.db, r);
    SameArchive(s0.db, d1, a, now);
    if reply.Ok? { return Restored(r), true, Nothing; }
    if reply.Crash? { return RestoreCrashed, false, residue; }
    ghost var d2, marked := stores.machine.db, stores.archive;
    var crashed;
    crashed, done := CompensateFailedRestore(stores, r, org, loaded, upserted, now);
    OthersKeepTrans(s0.db, d2, stores.machine.db, r);
    outcome := if crashed then RestoreCrashed else NotRestored;
    if done && s0.db.archive[a].unarchivedAt.None? {
      FailedRestoreTells(s0, stores.machine, a, org, loaded, residue, now);
    }
  }

  lemma FailedRestoreTells(
    s: State, s': State, a: nat, org: string, loaded: map<nat, string>, residue: Residue, now: int)
    requires Inv(s) && Inv(s') && OnlyAdds(s.db, s'.db, s.db.nextRecord) && s.db.nextRecord !in s'.db.records
    requires a in s.db.archive && s.db.archive[a].unarchivedAt.None? && !residue.LeftRecord?
    requires s'.db.archive == if residue.LeftMark? then MarkUnarchived(s.db, a, now).archive else s.db.archive
    requires if residue.LeftPoints?
             then loaded != map[] && PointsOf(s'.db.index, s.db.nextRecord) == PointsFor(Restore, s.db.nextRecord, org, loaded)
             else PointsOf(s'.db.index, s.db.nextRecord) == map[]
    ensures SameTables(s.db, s'.db) <==> residue.Nothing?
  {
    hide Inv, OthersKeep, PointsOf, PointsFor;
    match residue
    case Nothing => CompensatedIsSame(s, s', s.db.nextRecord);
    case LeftPoints => LeftPointsShow(s, s', s.db.nextRecord, org, loaded);
    case LeftMark => assert MarkUnarchived(s.db, a, now).archive[a] != s.db.archive[a];
  }

  lemma InsertOnlyAdds(s: State, rec: Record)
    requires Inv(s)
    ensures s.db.nextRecord !in s.db.records
    ensures OnlyAdds(s.db, InsertRecord(s.db, rec), s.db.nextRecord)
    ensures var d' := InsertRecord(s.db, rec);
            d'.archive == s.db.archive && d'.records == s.db.records[s.db.nextRecord := rec]
  {
    hide Sound, OthersKeep;
    NewRecordIsEmpty(s.db, s.cleaned);
    InsertRecordSlices(s.db, rec);
  }

  lemma LeftRecordShows(s: State, s': State, r: nat)
    requires Inv(s) && r == s.db.nextRecord
    ensures r in s'.db.records ==> !SameTables(s.db, s'.db)
    ensures s'.db == s.db ==> SameTables(s.db, s'.db)
  {
    hide Sound;
    NewRecordIsEmpty(s.db, s.cleaned);
  }

  // ----- the whole call -----

  datatype SkipReason = ArchiveNotFoundOrOrgMismatch | AlreadyUnarchived | MissingSourceId

  datatype UnarchiveOutcome =
    | IdRestored(archiveId: nat, record: nat, sourceRecord: nat)
    | IdSkipped(archiveId: nat, reason: SkipReason)
    | IdFailed(archiveId: nat)

  // Why an id is not even tried, judged by the rows as they were looked up.
  function Skips(archive: map<nat, ArchiveRow>, a: nat, org: string): Option<SkipReason> {
    if a !in archive || archive[a].snapshot.org != org then Some(ArchiveNotFoundOrOrgMismatch)
    else if archive[a].unarchivedAt.Some? then Some(AlreadyUnarchived)
    else if archive[a].sourceId.None? then Some(MissingSourceId)
    else None
  }

  // The records that were there before, their chunks, jobs and points.
  ghost predicate OldKept(d0: Db, d: Db) {
    forall q: nat :: q < d0.nextRecord ==>
      && SliceOf(d, q) == SliceOf(d0, q)
      && (q in d.records <==> q in d0.records) && (q in d0.records ==> d.records[q] == d0.records[q])
  }

  // Rows are never added or dropped, and nothing of a row but its mark changes.
  ghost predicate RowsKept(d0: Db, d: Db) {
    && d.archive.Keys == d0.archive.Keys
    && forall a :: a in d0.archive ==> d.archive[a] == d0.archive[a].(unarchivedAt := d.archive[a].unarchivedAt)
  }

  // Id a was skipped for the reason its row gave; otherwise it failed, or its record is back and its row marked.
  ghost predicate Reported(d0: Db, d: Db, a: nat, o: UnarchiveOutcome, org: string, chunked: string -> seq<string>) {
    && o.archiveId == a
    && match Skips(d0.archive, a, org)
       case Some(reason) => o == IdSkipped(a, reason)
       case None =>
         || o == IdFailed(a)
         || (&& o.IdRestored? && d0.nextRecord <= o.record && o.sourceRecord == d0.archive[a].record
             && IsRestored(d, o.record, d0.archive[a], chunked(d0.archive[a].snapshot.body.content))
             && a in d.archive && Skips(d.archive, a, org) == Some(AlreadyUnarchived))
  }

  ghost predicate AllReported(
    d0: Db, d: Db, ids: seq<nat>, outcomes: seq<UnarchiveOutcome>, org: string, chunked: string -> seq<string>)
  {
    && |outcomes| <= |ids|
    && (forall k :: 0 <= k < |outcomes| ==> Reported(d0, d, ids[k], outcomes[k], org, chunked))
    && (forall i, k :: 0 <= i < k < |outcomes| && outcomes[i].IdRestored? && outcomes[k].IdRestored? ==>
          outcomes[i].record != outcomes[k].record)
  }

  ghost function RestoredIds(outcomes: seq<UnarchiveOutcome>): set<nat> {
    set o | o in outcomes && o.IdRestored? :: o.record
  }

  // Nothing was left behind: the only new records are the restored ones, the only marked rows are theirs.
  ghost predicate NoResidue(d0: Db, d: Db, outcomes: seq<UnarchiveOutcome>) {
    && d.records.Keys == d0.records.Keys + RestoredIds(outcomes)
    && (forall p :: p in d.index && p !in d0.index ==> d.index[p].record in RestoredIds(outcomes))
    && forall a :: a in d0.archive && a in d.archive && d.archive[a] != d0.archive[a] ==>
         exists o :: o in outcomes && o.IdRestored? && o.archiveId == a
  }

  lemma IsRestoredStays(s: State, s': State, r: nat, q: nat, row: ArchiveRow, texts: seq<string>)
    requires Inv(s) && Inv(s') && OnlyAdds(s.db, s'.db, r) && q != r && IsRestored(s.db, q, row, texts)
    ensures IsRestored(s'.db, q, row, texts)
  {
    assert q in s.db.records - {r};
    assert SliceOf(s'.db, q) == SliceOf(s.db, q);
    hide Sound, SliceOf, InStep, Synced, OthersKeep, InOrder, StoresTexts;
    SyncedIsInStep(s.db, q, s.cleaned);
    SyncedIsInStep(s'.db, q, s'.cleaned);
    OrderedIsStored(s.db, q, texts);
    OrderedIsStored(s'.db, q, texts);
  }

  // Rows only ever gain a mark.
  ghost predicate MarksGrow(d: Db, d': Db) {
    RowsKept(d, d') && forall a :: a in d.archive && d.archive[a].unarchivedAt.Some? ==> d'.archive[a].unarchivedAt.Some?
  }

  lemma MarkGrows(d: Db, d': Db, a: nat, now: int)
    requires d'.archive == d.archive || d'.archive == MarkUnarchived(d, a, now).archive
    ensures MarksGrow(d, d')
  {
  }

  lemma ReportStays(
    d0: Db, s: State, s': State, r: nat, a: nat, o: UnarchiveOutcome, org: string, chunked: string -> seq<string>)
    requires Inv(s) && Inv(s') && OnlyAdds(s.db, s'.db, r) && r !in s.db.records && MarksGrow(s.db, s'.db)
    requires Reported(d0, s.db, a, o, org, chunked)
    ensures Reported(d0, s'.db, a, o, org, chunked)
  {
    hide Inv, OnlyAdds, IsRestored;
    if Skips(d0.archive, a, org).None? && o.IdRestored? {
      var texts := chunked(d0.archive[a].snapshot.body.content);
      assert o.record in s.db.records by { assert IsRestored(s.db, o.record, d0.archive[a], texts); IsLive(s.db, o.record, d0.archive[a], texts); }
      IsRestoredStays(s, s', r, o.record, d0.archive[a], texts);
    }
  }

  lemma IsLive(d: Db, r: nat, row: ArchiveRow, texts: seq<string>)
    requires IsRestored(d, r, row, texts)
    ensures r in d.records
  {
  }

  lemma AllReportStay(
    d0: Db, s: State, s': State, r: nat, ids: seq<nat>, outcomes: seq<UnarchiveOutcome>, org: string,
    chunked: string -> seq<string>)
    requires Inv(s) && Inv(s') && OnlyAdds(s.db, s'.db, r) && r !in s.db.records && MarksGrow(s.db, s'.db)
    requires AllReported(d0, s.db, ids, outcomes, org, chunked)
    ensures AllReported(d0, s'.db, ids, outcomes, org, chunked)
    ensures forall k :: 0 <= k < |outcomes| && outcomes[k].IdRestored? ==> outcomes[k].record != r
  {
    hide Inv, OnlyAdds, MarksGrow;
    forall k | 0 <= k < |outcomes|
      ensures Reported(d0, s'.db, ids[k], outcomes[k], org, chunked)
      ensures outcomes[k].IdRestored? ==> outcomes[k].record != r
    {
      ReportStays(d0, s, s', r, ids[k], outcomes[k], org, chunked);
    }
  }

  // One pass of the loop.
  lemma Advance(
    d0: Db, s: State, s': State, ids: seq<nat>, outcomes: seq<UnarchiveOutcome>, o: UnarchiveOutcome, org: string,
    chunked: string -> seq<string>, now: int)
    requires Inv(s) && Inv(s') && d0.nextRecord <= s.db.nextRecord && |outcomes| < |ids|
    requires AllReported(d0, s.db, ids, outcomes, org, chunked)
    requires OnlyAdds(s.db, s'.db, s.db.nextRecord) && MarksGrow(s.db, s'.db)
    requires Reported(d0, s'.db, ids[|outcomes|], o, org, chunked) && (o.IdRestored? ==> o.record == s.db.nextRecord)
    ensures AllReported(d0, s'.db, ids, outcomes + [o], org, chunked)
  {
    hide Inv, OnlyAdds, MarksGrow, Reported;
    NewIsNotLive(s);
    AllReportStay(d0, s, s', s.db.nextRecord, ids, outcomes, org, chunked);
  }

  lemma NewIsNotLive(s: State)
    requires Inv(s)
    ensures s.db.nextRecord !in s.db.records
  {
    hide SliceOf, Ties, RowTies, Outbox;
  }

  lemma OldKeptStays(d0: Db, d: Db, d': Db, r: nat)
    requires OldKept(d0, d) && OnlyAdds(d, d', r) && d0.nextRecord <= r
    ensures OldKept(d0, d')
  {
    hide SliceOf;
    forall q: nat | q < d0.nextRecord
      ensures SliceOf(d', q) == SliceOf(d0, q)
      ensures (q in d'.records <==> q in d0.records) && (q in d0.records ==> d'.records[q] == d0.records[q])
    {
      KeepsRecord(d.records, d'.records, r, q);
      assert SliceOf(d, q) == SliceOf(d0, q);
    }
  }

  lemma KeepsRecord(records: map<nat, Record>, records': map<nat, Record>, r: nat, q: nat)
    requires records' - {r} == records - {r}
    ensures q != r ==> (q in records' <==> q in records) && (q in records ==> records'[q] == records[q])
  {
    assert q in records' - {r} <==> q in records - {r};
    assert q != r && q in records ==> (records' - {r})[q] == (records - {r})[q];
  }

  lemma RowsKeptTrans(d0: Db, d: Db, d': Db)
    requires RowsKept(d0, d) && MarksGrow(d, d')
    ensures RowsKept(d0, d')
  {
  }

  // findArchiveByIds, for any ids.
  function ArchiveByIds(archive: map<nat, ArchiveRow>, org: string): map<nat, ArchiveRow> {
    map a | a in archive && archive[a].snapshot.org == org :: archive[a]
  }

  // One id of the loop of unarchiveCompaction. found: the row as it was looked up before the loop.
  method UnarchiveOne(
    stores: Stores, a: nat, ghost d0: Db, found: map<nat, ArchiveRow>, org: string, chunked: string -> seq<string>,
    now: int)
    returns (aborted: bool, outcome: UnarchiveOutcome, ghost clean: bool)
    requires stores.Valid() && RowsKept(d0, stores.Tables()) && d0.nextRecord <= stores.nextRecord
    requires found == ArchiveByIds(d0.archive, org)
    modifies stores
    ensures stores.Valid() && old(stores.log) <= stores.log
    ensures stores.AllAnswered(!aborted && !outcome.IdFailed?)
    ensures !aborted && stores.hidden == old(stores.hidden) && stores.faults <= old(stores.faults) + 1 ==>
      clean || outcome.IdRestored? || (a in d0.archive && old(stores.archive)[a] != d0.archive[a])
    ensures var r := old(stores.nextRecord);
            && r !in stores.machine.attempts && Focus(old(stores.machine), stores.machine, r)
            && OnlyAdds(old(stores.machine.db), stores.machine.db, r)
            && MarksGrow(old(stores.machine.db), stores.machine.db)
            && (!aborted ==> Reported(d0, stores.Tables(), a, outcome, org, chunked))
            && (!aborted && outcome.IdRestored? ==> outcome.record == r)
    ensures !aborted && outcome.IdRestored? ==>
      stores.archive == MarkUnarchived(old(stores.Tables()), a, now).archive
    ensures !aborted && !outcome.IdRestored? && clean ==> SameTables(old(stores.Tables()), stores.Tables())
  {
    hide Inv, Legal, Run, AfterCall, SameRows, OthersKeep, InStep, StoresTexts, SameTables, MarksGrow;
    aborted, clean, outcome := false, true, IdFailed(a);
    OthersKeepRefl(stores.machine.db, stores.nextRecord);
    NewIsUnattempted(stores.machine);
    MarkGrows(stores.machine.db, stores.machine.db, a, now);
    LeftRecordShows(stores.machine, stores.machine, stores.nextRecord);
    if a !in found { return false, IdSkipped(a, ArchiveNotFoundOrOrgMismatch), true; }
    if found[a].unarchivedAt.Some? { return false, IdSkipped(a, AlreadyUnarchived), true; }
    if found[a].sourceId.None? { return false, IdSkipped(a, MissingSourceId), true; }
    ghost var d := stores.machine.db;
    var texts := chunked(found[a].snapshot.body.content);
    var restoring;
    ghost var done, residue;
    restoring, done, residue := RestoreOne(stores, a, found[a], org, texts, now);
    MarkGrows(d, stores.machine.db, a, now);
    clean := done && residue.Nothing? && d.archive[a].unarchivedAt.None?;
    match restoring {
      case Restored(r) => outcome := IdRestored(a, r, found[a].record);
      case NotRestored =>
      case RestoreCrashed => aborted := true;
    }
  }

  lemma EffectGrows(d: Db, r: nat, a: Attempt, now: int)
    ensures Effect(d, r, a, now).nextRecord == d.nextRecord
  {
    hide PointsFor, LinksFor, NewChunks, LinkPoints, DeleteRecord, ReplaceChunks, Rearmed, MarkJobPending,
      MarkJobCompleted, CloseJob, MarkUnarchived;
    StatementsKeepRecordIds(d);
  }

  lemma StatementsKeepRecordIds(d: Db)
    ensures forall links :: LinkPoints(d, links).nextRecord == d.nextRecord
    ensures forall r, org :: DeleteRecord(d, r, org).nextRecord == d.nextRecord
    ensures forall r, org, texts, at :: ReplaceChunks(d, r, org, texts, at).nextRecord == d.nextRecord
    ensures forall a, now :: Rearmed(d, a, now).nextRecord == d.nextRecord
    ensures forall j, n, at :: MarkJobPending(d, j, n, at).nextRecord == d.nextRecord
    ensures forall j :: MarkJobCompleted(d, j).nextRecord == CloseJob(d, j).nextRecord == d.nextRecord
    ensures forall a, now :: MarkUnarchived(d, a, now).nextRecord == d.nextRecord
  {
  }

  lemma StepGrows(s: State, l: Label)
    requires Enabled(s, l)
    ensures s.db.nextRecord <= Next(s, l).db.nextRecord
  {
    hide Effect, After, Settles, Loses, Conflicts, NewRow, PointsOfRows, TextsOf;
    if l.Call? { EffectGrows(s.db, l.r, s.attempts[l.r], l.now); }
  }

  // Record ids are only ever handed out upwards.
  lemma {:induction false} RunGrows(before: seq<Label>, after: seq<Label>)
    requires Legal(EMPTY, after) && before <= after
    ensures Legal(EMPTY, before) && Run(EMPTY, before).db.nextRecord <= Run(EMPTY, after).db.nextRecord
    decreases |after|
  {
    hide Next, Enabled;
    if before != after {
      RunGrows(before, after[..|after| - 1]);
      StepGrows(Run(EMPTY, after[..|after| - 1]), after[|after| - 1]);
    } else {
    }
  }

  lemma RestoredLeavesNoResidue(
    d0: Db, s: State, s': State, outcomes: seq<UnarchiveOutcome>, o: UnarchiveOutcome, now: int)
    requires Inv(s) && Inv(s') && NoResidue(d0, s.db, outcomes) && RowsKept(d0, s.db) && o.IdRestored?
    requires o.record == s.db.nextRecord && OnlyAdds(s.db, s'.db, o.record) && o.record in s'.db.records
    requires s'.db.archive == MarkUnarchived(s.db, o.archiveId, now).archive
    ensures NoResidue(d0, s'.db, outcomes + [o])
  {
    hide Inv, OthersKeep, SliceOf;
    RestoredOneMore(outcomes, o);
    var r := o.record;
    forall q ensures q in s'.db.records <==> q in s.db.records || q == r {
      KeepsRecord(s.db.records, s'.db.records, r, q);
    }
    forall p | p in s'.db.index && p !in d0.index ensures s'.db.index[p].record in RestoredIds(outcomes + [o]) {
      if s'.db.index[p].record != r { OtherPointsStay(s.db, s'.db, r, p); }
    }
    forall a | a in d0.archive && a in s'.db.archive && s'.db.archive[a] != d0.archive[a]
      ensures exists x :: x in outcomes + [o] && x.IdRestored? && x.archiveId == a
    {
      assert o in outcomes + [o];
      if a != o.archiveId {
        var x :| x in outcomes && x.IdRestored? && x.archiveId == a;
        assert x in outcomes + [o];
      }
    }
  }

  lemma ReportedLives(d0: Db, d: Db, a: nat, o: UnarchiveOutcome, org: string, chunked: string -> seq<string>)
    requires Reported(d0, d, a, o, org, chunked) && o.IdRestored?
    ensures o.record in d.records && o.archiveId == a
  {
  }

  lemma RestoredOneMore(outcomes: seq<UnarchiveOutcome>, o: UnarchiveOutcome)
    ensures RestoredIds(outcomes + [o]) == RestoredIds(outcomes) + if o.IdRestored? then {o.record} else {}
  {
    assert forall x :: x in outcomes + [o] <==> x in outcomes || x == o;
  }

  lemma OtherPointsStay(d: Db, d': Db, r: nat, p: PointId)
    requires OthersKeep(d, d', r) && p in d'.index && d'.index[p].record != r
    ensures p in d.index && d.index[p] == d'.index[p]
  {
    assert p in SliceOf(d', d'.index[p].record).points;
    assert p in SliceOf(d, d'.index[p].record).points;
  }

  lemma SameLeavesNoResidue(d0: Db, d: Db, d': Db, outcomes: seq<UnarchiveOutcome>, o: UnarchiveOutcome)
    requires NoResidue(d0, d, outcomes) && SameTables(d, d') && !o.IdRestored?
    ensures NoResidue(d0, d', outcomes + [o])
  {
    RestoredOneMore(outcomes, o);
    forall a | a in d0.archive && a in d'.archive && d'.archive[a] != d0.archive[a]
      ensures exists x :: x in outcomes + [o] && x.IdRestored? && x.archiveId == a
    {
      var x :| x in outcomes && x.IdRestored? && x.archiveId == a;
      assert x in outcomes + [o];
    }
  }

  // What holds of the outcomes so far; clean as below.
  ghost predicate Progress(
    d0: Db, d: Db, ids: seq<nat>, outcomes: seq<UnarchiveOutcome>, clean: bool, org: string, chunked: string -> seq<string>)
  {
    && AllReported(d0, d, ids, outcomes, org, chunked) && OldKept(d0, d) && RowsKept(d0, d)
    && (clean ==> NoResidue(d0, d, outcomes))
  }

  // One pass of the loop of unarchiveCompaction.
  method UnarchiveNext(
    stores: Stores, ghost d0: Db, found: map<nat, ArchiveRow>, ids: seq<nat>, outcomes: seq<UnarchiveOutcome>,
    ghost clean0: bool, org: string, chunked: string -> seq<string>, now: int)
    returns (aborted: bool, outcome: UnarchiveOutcome, ghost clean: bool)
    requires stores.Valid() && d0.nextRecord <= stores.nextRecord && |outcomes| < |ids|
    requires Progress(d0, stores.machine.db, ids, outcomes, clean0, org, chunked)
    requires found == ArchiveByIds(d0.archive, org)
    modifies stores
    ensures stores.Valid() && old(stores.log) <= stores.log && d0.nextRecord <= stores.nextRecord
    ensures stores.AllAnswered(!aborted && !outcome.IdFailed?)
    ensures Progress(d0, stores.machine.db, ids, if aborted then outcomes else outcomes + [outcome], clean && !aborted, org, chunked)
    ensures clean0 && Distinct(ids) && stores.hidden == old(stores.hidden) && stores.faults <= old(stores.faults) + 1 ==>
      aborted || clean
  {
    hide Inv, Legal, Run, OnlyAdds, Reported, MarksGrow, RowsKept, OldKept, NoResidue, SameTables, Skips, AllReported,
      Distinct, ArchiveByIds;
    ghost var s, cleanly := stores.machine, false;
    if clean0 && Distinct(ids) { UntouchedRow(d0, s.db, ids, outcomes, org, chunked); }
    aborted, outcome, cleanly := UnarchiveOne(stores, ids[|outcomes|], d0, found, org, chunked, now);
    NewIsNotLive(s);
    AllReportStay(d0, s, stores.machine, s.db.nextRecord, ids, outcomes, org, chunked);
    OldKeptStays(d0, s.db, stores.machine.db, s.db.nextRecord);
    RowsKeptTrans(d0, s.db, stores.machine.db);
    RunGrows(old(stores.log), stores.log);
    clean := clean0 && (cleanly || outcome.IdRestored?);
    if aborted { return; }
    Advance(d0, s, stores.machine, ids, outcomes, outcome, org, chunked, now);
    if clean0 && outcome.IdRestored? {
      ReportedLives(d0, stores.machine.db, ids[|outcomes|], outcome, org, chunked);
      RestoredLeavesNoResidue(d0, s, stores.machine, outcomes, outcome, now);
    } else if clean0 && cleanly {
      SameLeavesNoResidue(d0, s.db, stores.machine.db, outcomes, outcome);
    }
  }

  /**
    unarchiveCompaction: one outcome per id, in order. Records that were live before, their chunks, jobs and points are
    never touched, whatever fails; a restored id brings back its row's record as a fresh one, in step with the index,
    and marks the row, so that no later call restores it again. clean: every failed restore was compensated and no call
    took effect behind its error; then the restored records are all that was added.
  */
  method UnarchiveCompaction(stores: Stores, ids: seq<nat>, org: string, chunked: string -> seq<string>, now: int)
    returns (aborted: bool, outcomes: seq<UnarchiveOutcome>, ghost clean: bool)
    requires stores.Valid()
    modifies stores
    ensures stores.Valid() && old(stores.log) <= stores.log
    ensures AllReported(old(stores.Tables()), stores.Tables(), ids, outcomes, org, chunked)
    ensures !aborted ==> |outcomes| == |ids|
    ensures OldKept(old(stores.Tables()), stores.Tables()) && RowsKept(old(stores.Tables()), stores.Tables())
    ensures !aborted && clean ==> NoResidue(old(stores.Tables()), stores.Tables(), outcomes)
    ensures stores.AllAnswered(!aborted && Failures(outcomes) == 0)
    ensures Distinct(ids) && stores.hidden == old(stores.hidden) && stores.faults == old(stores.faults) + Failures(outcomes) ==>
      aborted || clean
  {
    hide Inv, Legal, Run, Distinct, Failures, AllReported, RowsKept, OldKept, NoResidue, ArchiveByIds;
    ghost var d0, faults, hidden := stores.machine.db, stores.faults, stores.hidden;
    var found := ArchiveByIds(stores.archive, org);
    aborted, outcomes, clean := false, [], true;
    Untouched(d0, ids, org, chunked);
    while |outcomes| < |ids|
      invariant |outcomes| <= |ids|
      invariant stores.Valid() && old(stores.log) <= stores.log && d0.nextRecord <= stores.nextRecord
      invariant Progress(d0, stores.machine.db, ids, outcomes, clean, org, chunked)
      invariant faults + Failures(outcomes) <= stores.faults && (Failures(outcomes) == 0 ==> stores.faults == faults)
      invariant hidden <= stores.hidden
      invariant Distinct(ids) && stores.hidden == hidden && stores.faults == faults + Failures(outcomes) ==> clean
    {
      var outcome;
      aborted, outcome, clean := UnarchiveNext(stores, d0, found, ids, outcomes, clean, org, chunked, now);
      if aborted { return; }
      OneMoreOutcome(outcomes, outcome);
      outcomes := outcomes + [outcome];
    }
  }

  predicate Distinct(ids: seq<nat>) {
    forall i, k :: 0 <= i < k < |ids| ==> ids[i] != ids[k]
  }

  function Failures(outcomes: seq<UnarchiveOutcome>): nat {
    if outcomes == [] then 0
    else Failures(outcomes[..|outcomes| - 1]) + if outcomes[|outcomes| - 1].IdFailed? then 1 else 0
  }

  // Among distinct ids, the row of the next one is still what it was.
  lemma UntouchedRow(
    d0: Db, d: Db, ids: seq<nat>, outcomes: seq<UnarchiveOutcome>, org: string, chunked: string -> seq<string>)
    requires Distinct(ids) && |outcomes| < |ids|
    requires AllReported(d0, d, ids, outcomes, org, chunked) && NoResidue(d0, d, outcomes) && RowsKept(d0, d)
    ensures var a := ids[|outcomes|]; a in d0.archive ==> a in d.archive && d.archive[a] == d0.archive[a]
  {
    hide IsRestored, Skips;
    forall k | 0 <= k < |outcomes| ensures outcomes[k].archiveId != ids[|outcomes|] {
      assert Reported(d0, d, ids[k], outcomes[k], org, chunked);
    }
  }

  lemma OneMoreOutcome(outcomes: seq<UnarchiveOutcome>, o: UnarchiveOutcome)
    ensures Failures(outcomes + [o]) == Failures(outcomes) + if o.IdFailed? then 1 else 0
  {
    assert (outcomes + [o])[..|outcomes|] == outcomes;
  }

  lemma Untouched(d0: Db, ids: seq<nat>, org: string, chunked: string -> seq<string>)
    ensures Progress(d0, d0, ids, [], true, org, chunked) && Failures([]) == 0
  {
  }

  // ----- once restored, always restored -----

  /** An id given twice in one call is restored twice, as two records, unless one of the two attempts fails. */
  lemma RepeatedIdIsRestoredTwice(
    d0: Db, d: Db, ids: seq<nat>, outcomes: seq<UnarchiveOutcome>, org: string, chunked: string -> seq<string>, i: nat,
    k: nat)
    requires AllReported(d0, d, ids, outcomes, org, chunked) && i < k < |outcomes| && ids[i] == ids[k]
    requires Skips(d0.archive, ids[i], org).None? && !outcomes[i].IdFailed? && !outcomes[k].IdFailed?
    ensures outcomes[i].IdRestored? && outcomes[k].IdRestored? && outcomes[i].record != outcomes[k].record
    ensures outcomes[i].record in d.records && outcomes[k].record in d.records
    ensures d.records[outcomes[i].record] == d.records[outcomes[k].record]
  {
    hide InStep, StoresTexts;
    assert Reported(d0, d, ids[i], outcomes[i], org, chunked);
    assert Reported(d0, d, ids[k], outcomes[k], org, chunked);
  }

  lemma {:induction false} NoFailures(outcomes: seq<UnarchiveOutcome>)
    requires Failures(outcomes) == 0
    ensures forall o :: o in outcomes ==> !o.IdFailed?
  {
    if outcomes != [] {
      NoFailures(outcomes[..|outcomes| - 1]);
      assert outcomes == outcomes[..|outcomes| - 1] + [outcomes[|outcomes| - 1]];
    }
  }

  /** If every call answers, each id whose row was there, of the organization and not restored yet, is restored. */
  lemma AllRestored(
    d0: Db, d: Db, ids: seq<nat>, outcomes: seq<UnarchiveOutcome>, org: string, chunked: string -> seq<string>, k: nat)
    requires AllReported(d0, d, ids, outcomes, org, chunked) && Failures(outcomes) == 0 && k < |outcomes|
    ensures outcomes[k].IdRestored? <==> Skips(d0.archive, ids[k], org).None?
  {
    hide IsRestored, Skips;
    NoFailures(outcomes);
    assert Reported(d0, d, ids[k], outcomes[k], org, chunked);
    assert outcomes[k] in outcomes;
  }

  predicate MarkedRestored(d: Db, a: nat) {
    a in d.archive && a < d.nextArchive && d.archive[a].unarchivedAt.Some?
  }

  lemma StepKeepsMark(s: State, l: Label, a: nat)
    requires Inv(s) && Enabled(s, l) && MarkedRestored(s.db, a)
    ensures MarkedRestored(Next(s, l).db, a)
  {
    hide Inv, Effect, After, Settles, Loses, Conflicts, PointsOfRows, TextsOf, NewRow;
    if l.Call? { EffectRows(s.db, l.r, s.attempts[l.r], l.now); }
  }

  /** Whatever happens after a row has been marked as restored, no later call restores it again. */
  lemma {:induction false} RestoredStaysRestored(ls: seq<Label>, more: seq<Label>, a: nat, org: string)
    requires Legal(EMPTY, ls + more) && Legal(EMPTY, ls) && MarkedRestored(Run(EMPTY, ls).db, a)
    ensures MarkedRestored(Run(EMPTY, ls + more).db, a)
    ensures Skips(Run(EMPTY, ls + more).db.archive, a, org).Some?
  {
    hide Inv, Next, Enabled;
    if more == [] {
      assert ls + more == ls;
    } else {
      var init, l := more[..|more| - 1], more[|more| - 1];
      assert (ls + more)[..|ls + more| - 1] == ls + init && (ls + more)[|ls + more| - 1] == l;
      RestoredStaysRestored(ls, init, a, org);
      EmptyInv();
      RunKeepsInv(EMPTY, ls + init);
      StepKeepsMark(Run(EMPTY, ls + init), l, a);
    }
  }
}
