/** writeCanonicalMemory, refreshCanonicalMemoryIndex and the ingest sweeper, over the stores of Deployment. */
module WritePaths {
  import opened Backoff
  import opened Common
  import opened Store
  import opened Protocol
  import opened Slices
  import opened LocalInvariant
  import opened TableInvariant
  import opened ProtocolInvariant
  import opened Guarantees
  import opened Deployment
  import opened Accounting

  datatype Outcome = Done | Failed | Crashed

  /** A write or refresh about to close its job has left the record in step, and closing keeps it so. */
  lemma ClosedInStep(s: State, r: nat, now: int)
    requires Inv(s) && r in s.attempts && s.attempts[r].at == AtClose
    ensures var s' := AfterCall(s, r, true, Ok, now);
            r in s'.db.records && InStep(s'.db, r) && r !in s'.attempts
  {
    hide Sound, SliceOf, Synced, HoldsChunks;
    assert RecordOk(s, r);
    SyncedIsInStep(s.db, r, s.cleaned);
    hide PhaseFacts;
  }

  /** ... and its chunks are the texts the attempt was to store. */
  lemma ClosedHolds(s: State, r: nat, now: int)
    requires Inv(s) && r in s.attempts && s.attempts[r].at == AtClose
    ensures StoresTexts(AfterCall(s, r, true, Ok, now).db, r, s.attempts[r].texts)
  {
    hide Sound, Synced, SliceOf, InOrder, StoresTexts;
    assert RecordOk(s, r);
    var d' := AfterCall(s, r, true, Ok, now).db;
    OrderedIsStored(s.db, r, s.attempts[r].texts);
    assert d'.chunks == s.db.chunks;
    hide Inv, AfterCall, PhaseFacts;
    SameChunksStored(s.db, d', r, s.attempts[r].texts);
  }

  lemma SameChunksStored(d: Db, d': Db, r: nat, texts: seq<string>)
    requires d'.chunks == d.chunks
    ensures StoresTexts(d', r, texts) <==> StoresTexts(d, r, texts)
  {
    forall from: nat ensures StoresFrom(d', r, texts, from) <==> StoresFrom(d, r, texts, from) {
    }
  }

  lemma MarkedInStep(s: State, r: nat, now: int)
    requires Inv(s) && r in s.attempts && s.attempts[r].at == AtMarkDone
    ensures var s' := AfterCall(s, r, true, Ok, now);
            r in s'.db.records && InStep(s'.db, r)
  {
    hide Inv, InStep, AfterCall;
    CompletionMeansInStep(s, r, now);
  }

  // The catch block of writeCanonicalMemory: drop the upserted points, then the record; errors are swallowed.
  method RollBack(stores: Stores, r: nat, org: string, loaded: map<nat, string>, upserted: bool, now: int)
    returns (crashed: bool)
    requires stores.Valid() && r in stores.machine.attempts
    requires var a := stores.machine.attempts[r];
             a.kind == Write && a.org == org
             && if upserted then a.at == AtUndoPoints && a.loaded == loaded else a.at == AtUndoRecord
    modifies stores
    ensures stores.Valid() && old(stores.log) <= stores.log
    ensures old(stores.faults) <= stores.faults && old(stores.hidden) <= stores.hidden
    ensures stores.faults == old(stores.faults) ==> !crashed && r !in stores.records
    ensures stores.NoNewIds()
    ensures r !in stores.machine.attempts && Focus(old(stores.machine), stores.machine, r)
  {
    hide Inv, Legal, Run, AfterCall, SameRows;
    if upserted {
      var undone := stores.DeleteUpserted(Write, r, org, loaded, AtUndoPoints, now);
      if undone.Crash? { return true; }
    }
    var reply := stores.DeleteRecordRow(r, org, now);
    crashed := reply.Crash?;
  }

  // Store the chunks and, if there are any, announce the indexing before anything touches the index.
  method InsertAndAnnounce(stores: Stores, r: nat, org: string, texts: seq<string>, job: nat, now: int)
    returns (reply: Reply, loaded: map<nat, string>)
    requires stores.Standing(r, AtInsertChunks)
    requires var a := stores.machine.attempts[r];
             a.kind == Write && a.org == org && a.texts == texts && a.job == job
    modifies stores
    ensures stores.Valid() && old(stores.log) <= stores.log && Focus(old(stores.machine), stores.machine, r)
    ensures stores.AllAnswered(reply.Ok?) && stores.NoNewIds()
    ensures match reply
            case Crash => r !in stores.machine.attempts
            case Error => stores.Standing(r, AtUndoRecord)
            case Ok => stores.Standing(r, AtEmbed)
    ensures r in stores.machine.attempts ==>
      stores.machine.attempts[r]
      == old(stores.machine.attempts[r]).(at := stores.machine.attempts[r].at, loaded := stores.machine.attempts[r].loaded)
    ensures reply.Ok? ==> stores.machine.attempts[r].loaded == loaded == NewTexts(old(stores.machine.db.nextChunk), texts)
    ensures stores.machine.db.records == old(stores.machine.db.records)
  {
    hide Inv, Legal, Run, AfterCall, SameRows, NewTexts, PointsFor, Next, Enabled, Stores.Valid, RowsAdded, TextsById, JobSet;
    reply, loaded := stores.InsertChunkRows(r, texts, now);
    if reply.Ok? && texts != [] {
      reply := stores.MarkQdrantAhead(r, job, now);
    }
  }

  // The try block of writeCanonicalMemory up to the upsert. A reply other than Ok is that of the first call that failed.
  method StoreChunks(stores: Stores, r: nat, org: string, texts: seq<string>, job: nat, now: int)
    returns (reply: Reply, loaded: map<nat, string>)
    requires stores.Standing(r, AtInsertChunks)
    requires var a := stores.machine.attempts[r];
             a.kind == Write && a.org == org && a.texts == texts && a.job == job
    modifies stores
    ensures stores.Valid() && old(stores.log) <= stores.log && Focus(old(stores.machine), stores.machine, r)
    ensures stores.AllAnswered(reply.Ok?) && stores.NoNewIds()
    ensures match reply
            case Crash => r !in stores.machine.attempts
            case Error => stores.Standing(r, AtUndoRecord)
            case Ok => stores.Standing(r, if texts == [] then AtClose else AtUpsert)
                       && stores.machine.attempts[r].loaded == loaded && (texts == [] <==> loaded == map[])
    ensures stores.machine.db.records == old(stores.machine.db.records)
    ensures r in stores.machine.attempts ==>
      var a := stores.machine.attempts[r]; a.kind == Write && a.org == org && a.texts == texts && a.job == job
  {
    hide Inv, Legal, Run, AfterCall, SameRows, NewTexts, PointsFor, Next, Enabled, Stores.Valid;
    NewRowsHold(stores.machine.db.nextChunk, r, texts);
    reply, loaded := InsertAndAnnounce(stores, r, org, texts, job, now);
    if !reply.Ok? { return; }
    reply := stores.EmbedBatch(r, now);
  }

  // The rest of the try block, for a record that has chunks. upserted: the points are known to be in the index.
  method IndexChunks(stores: Stores, r: nat, org: string, loaded: map<nat, string>, job: nat, now: int)
    returns (reply: Reply, upserted: bool)
    requires stores.Standing(r, AtUpsert)
    requires var a := stores.machine.attempts[r];
             a.kind == Write && a.org == org && a.texts != [] && a.loaded == loaded && a.job == job
    modifies stores
    ensures stores.Valid() && old(stores.log) <= stores.log && Focus(old(stores.machine), stores.machine, r)
    ensures stores.AllAnswered(reply.Ok?) && stores.NoNewIds()
    ensures match reply
            case Crash => r !in stores.machine.attempts
            case Error => stores.Standing(r, if upserted then AtUndoPoints else AtUndoRecord)
            case Ok => upserted && stores.Standing(r, AtClose)
    ensures stores.machine.db.records == old(stores.machine.db.records)
    ensures r in stores.machine.attempts ==>
      stores.machine.attempts[r] == old(stores.machine.attempts[r]).(at := stores.machine.attempts[r].at)
  {
    hide Inv, Legal, Run, AfterCall, SameRows, Stores.Valid, Next, Enabled, PointsFor, NewTexts;
    upserted := false;
    reply := stores.Upsert(Write, r, org, loaded, now);
    if !reply.Ok? { return; }
    upserted := true;
    reply := stores.UpdatePointIds(Write, r, loaded, now);
    if !reply.Ok? { return; }
    reply := stores.MarkQdrantCompleted(r, job, AtMarkDone, now);
  }

  // markCompleted, the last call of a write.
  method CloseWritten(stores: Stores, r: nat, org: string, loaded: map<nat, string>, job: nat, now: int)
    returns (reply: Reply)
    requires stores.Standing(r, AtClose)
    requires var a := stores.machine.attempts[r];
             a.kind == Write && a.org == org && a.job == job && a.loaded == loaded
    modifies stores
    ensures stores.Valid() && old(stores.log) <= stores.log && Focus(old(stores.machine), stores.machine, r)
    ensures stores.AllAnswered(reply.Ok?) && stores.NoNewIds()
    ensures stores.machine.db.records == old(stores.machine.db.records)
    ensures match reply
            case Crash => r !in stores.machine.attempts
            case Error =>
              && stores.Standing(r, if HasChunks(old(stores.machine.attempts[r])) then AtUndoPoints else AtUndoRecord)
              && stores.machine.attempts[r] == old(stores.machine.attempts[r]).(at := stores.machine.attempts[r].at)
            case Ok =>
              && r !in stores.machine.attempts && r in stores.machine.db.records && InStep(stores.machine.db, r)
              && StoresTexts(stores.machine.db, r, old(stores.machine.attempts[r].texts))
  {
    hide Inv, Legal, Run, AfterCall, SameRows, InStep, Next, Enabled, PointsFor, NewTexts, StoresTexts;
    ClosedInStep(stores.machine, r, now);
    ClosedHolds(stores.machine, r, now);
    reply := stores.MarkCompleted(r, job, now);
  }

  method TryWrite(stores: Stores, r: nat, org: string, texts: seq<string>, job: nat, now: int)
    returns (reply: Reply, loaded: map<nat, string>, upserted: bool)
    requires stores.Standing(r, AtInsertChunks)
    requires var a := stores.machine.attempts[r];
             a.kind == Write && a.org == org && a.texts == texts && a.job == job
    modifies stores
    ensures stores.Valid() && old(stores.log) <= stores.log && Focus(old(stores.machine), stores.machine, r)
    ensures stores.AllAnswered(reply.Ok?) && stores.NoNewIds()
    ensures match reply
            case Crash => r !in stores.machine.attempts
            case Error =>
              && stores.Standing(r, if upserted then AtUndoPoints else AtUndoRecord)
              && stores.machine.attempts[r].kind == Write && stores.machine.attempts[r].org == org
              && (upserted ==> stores.machine.attempts[r].loaded == loaded)
            case Ok =>
              && r !in stores.machine.attempts && stores.machine.db.records == old(stores.machine.db.records)
              && r in stores.machine.db.records && InStep(stores.machine.db, r)
              && StoresTexts(stores.machine.db, r, texts)
  {
    hide Inv, Legal, Run, AfterCall, SameRows, InStep, NewTexts, StoresTexts, Stores.Valid;
    upserted := false;
    reply, loaded := StoreChunks(stores, r, org, texts, job, now);
    if reply.Ok? && texts != [] {
      reply, upserted := IndexChunks(stores, r, org, loaded, job, now);
    }
    if !reply.Ok? { return; }
    reply := CloseWritten(stores, r, org, loaded, job, now);
  }

  /**
    writeCanonicalMemory on an accepted memory and the chunks of its content. Every execution is a run of the machine
    that opens and closes one attempt on one fresh record. A write that answers has stored the record and its chunks
    in step with the index; any other leaves the record, if it is still there, in step, scheduled or in the gap.
  */
  method WriteCanonicalMemory(stores: Stores, rec: Record, texts: seq<string>, now: int) returns (outcome: Outcome, r: nat)
    requires stores.Valid()
    modifies stores
    ensures stores.Valid() && old(stores.log) <= stores.log
    ensures stores.AllAnswered(outcome.Done?)
    ensures outcome.Failed? && stores.faults == old(stores.faults) + 1 && stores.hidden == old(stores.hidden) ==>
      (r in stores.records <==> r < stores.nextRecord && stores.nextJob == old(stores.nextJob))
    ensures r == old(stores.machine.db.nextRecord) && r !in stores.machine.attempts
    ensures Focus(old(stores.machine), stores.machine, r)
    ensures outcome.Done? ==>
      && r in stores.records && stores.records[r] == rec
      && InStep(stores.Tables(), r) && StoresTexts(stores.Tables(), r, texts)
    ensures r in stores.records && r !in stores.machine.gap ==>
      InStep(stores.Tables(), r) || Scheduled(stores.Tables(), r)
  {
    hide Inv, Legal, Run, AfterCall, SameRows, InStep, StoresTexts, Scheduled;
    var reply;
    reply, r := stores.AddMemory(rec, texts, now);
    NewIsUnattempted(old(stores.machine));
    outcome := if reply.Crash? then Crashed else Failed;
    if reply.Ok? {
      outcome := IndexNewRecord(stores, r, rec.org, texts, now);
    }
    if r in stores.records && r !in stores.machine.gap { SafeAtRest(stores.machine, r); }
  }

  // writeCanonicalMemory from the ingest job on.
  method IndexNewRecord(stores: Stores, r: nat, org: string, texts: seq<string>, now: int) returns (outcome: Outcome)
    requires stores.Standing(r, AtCreateJob)
    requires stores.machine.attempts[r] == Attempt(Write, AtCreateJob, org, texts, map[], 0, 0, 0, 0) && r in stores.records
    modifies stores
    ensures stores.Valid() && old(stores.log) <= stores.log
    ensures stores.AllAnswered(outcome.Done?)
    ensures outcome.Failed? && stores.faults == old(stores.faults) + 1 && stores.hidden == old(stores.hidden) ==>
      (r in stores.records <==> stores.nextJob == old(stores.nextJob))
    ensures stores.nextRecord == old(stores.nextRecord)
    ensures r !in stores.machine.attempts && Focus(old(stores.machine), stores.machine, r)
    ensures outcome.Done? ==>
      && stores.records == old(stores.records) && r in stores.records
      && InStep(stores.Tables(), r) && StoresTexts(stores.Tables(), r, texts)
  {
    hide Inv, Legal, Run, AfterCall, SameRows, InStep, StoresTexts;
    var reply, job := stores.CreateIngestJob(r, org, now);
    if !reply.Ok? { return if reply.Crash? then Crashed else Failed; }
    var loaded, upserted;
    reply, loaded, upserted := TryWrite(stores, r, org, texts, job, now);
    if !reply.Error? { return if reply.Ok? then Done else Crashed; }
    var crashed := RollBack(stores, r, org, loaded, upserted, now);
    outcome := if crashed then Crashed else Failed;
  }

  // ----- refresh -----

  // Record the point ids of the new points; if that fails, take the points out again.
  method RecordRefreshed(stores: Stores, r: nat, org: string, loaded: map<nat, string>, job: nat, now: int)
    returns (reply: Reply)
    requires stores.Standing(r, AtLink)
    requires var a := stores.machine.attempts[r];
             a.kind == Refresh && a.org == org && a.texts != [] && a.loaded == loaded && a.job == job
    modifies stores
    ensures stores.Valid() && old(stores.log) <= stores.log && Focus(old(stores.machine), stores.machine, r)
    ensures stores.AllAnswered(reply.Ok?)
    ensures match reply
            case Crash => r !in stores.machine.attempts
            case Error => stores.Standing(r, AtRearm)
            case Ok => stores.Standing(r, AtMarkDone)
    ensures r in stores.machine.attempts ==>
      stores.machine.attempts[r] == old(stores.machine.attempts[r]).(at := stores.machine.attempts[r].at)
  {
    hide Inv, Legal, Run, AfterCall, SameRows, Next, Enabled, PointsFor, NewTexts, Stores.Valid;
    reply := stores.UpdatePointIds(Refresh, r, loaded, now);
    if reply.Error? {
      var undone := stores.DeleteUpserted(Refresh, r, org, loaded, AtUnlink, now);
      if undone.Crash? { reply := Crash; }
    }
  }

  // From the new chunks to the recorded point ids, for a record that has chunks.
  method IndexRefreshed(stores: Stores, r: nat, org: string, loaded: map<nat, string>, job: nat, now: int)
    returns (reply: Reply)
    requires stores.Standing(r, AtUpsert)
    requires var a := stores.machine.attempts[r];
             a.kind == Refresh && a.org == org && a.texts != [] && a.loaded == loaded && a.job == job
    modifies stores
    ensures stores.Valid() && old(stores.log) <= stores.log && Focus(old(stores.machine), stores.machine, r)
    ensures stores.AllAnswered(reply.Ok?)
    ensures match reply
            case Crash => r !in stores.machine.attempts
            case Error => stores.Standing(r, AtRearm)
            case Ok => stores.Standing(r, AtClose)
    ensures r in stores.machine.attempts ==>
      stores.machine.attempts[r] == old(stores.machine.attempts[r]).(at := stores.machine.attempts[r].at)
  {
    hide Inv, Legal, Run, AfterCall, SameRows, Next, Enabled, PointsFor, NewTexts, Stores.Valid;
    reply := stores.Upsert(Refresh, r, org, loaded, now);
    if !reply.Ok? { return; }
    reply := RecordRefreshed(stores, r, org, loaded, job, now);
    if !reply.Ok? { return; }
    reply := stores.MarkQdrantCompleted(r, job, AtMarkDone, now);
  }

  // Store the new chunks with their pending job, then clear the old points. known: the job's id is known.
  method ReplaceAndClear(stores: Stores, r: nat, org: string, texts: seq<string>, now: int)
    returns (reply: Reply, known: bool, job: nat, loaded: map<nat, string>)
    requires stores.Standing(r, AtReplace)
    requires stores.machine.attempts[r] == Attempt(Refresh, AtReplace, org, texts, map[], 0, 0, 0, 0)
    modifies stores
    ensures stores.Valid() && old(stores.log) <= stores.log && Focus(old(stores.machine), stores.machine, r)
    ensures stores.AllAnswered(reply.Ok?)
    ensures match reply
            case Crash => r !in stores.machine.attempts
            case Error => if known && texts != [] then stores.Standing(r, AtRearm) else r !in stores.machine.attempts
            case Ok => known && stores.Standing(r, if texts != [] then AtUpsert else AtClose)
                       && (texts == [] <==> loaded == map[])
    ensures r in stores.machine.attempts ==>
      var a := stores.machine.attempts[r];
      && a.kind == Refresh && a.org == org && a.texts == texts && a.tries == 0
      && a.job == job && a.loaded == loaded
  {
    hide Inv, Legal, Run, AfterCall, SameRows, NewTexts, NewChunks, Next, Enabled, PointsFor, RowsAdded, TextsById, InOrder;
    NewRowsHold(stores.machine.db.nextChunk, r, texts);
    known := false;
    reply, job, loaded := stores.ReplaceChunkRows(r, org, texts, now);
    if !reply.Ok? { return; }
    known := true;
    reply := stores.DeletePointsOfRecord(r, org, now);
  }

  // The try block of refreshCanonicalMemoryIndex; on an error, known says whether there is a job to put back.
  method TryRefresh(stores: Stores, r: nat, org: string, texts: seq<string>, now: int)
    returns (reply: Reply, known: bool, job: nat)
    requires stores.Standing(r, AtReplace)
    requires stores.machine.attempts[r] == Attempt(Refresh, AtReplace, org, texts, map[], 0, 0, 0, 0)
    modifies stores
    ensures stores.Valid() && old(stores.log) <= stores.log && Focus(old(stores.machine), stores.machine, r)
    ensures stores.AllAnswered(reply.Ok?)
    ensures match reply
            case Crash => r !in stores.machine.attempts
            case Error => if known && texts != [] then stores.Standing(r, AtRearm) else r !in stores.machine.attempts
            case Ok => r !in stores.machine.attempts && r in stores.machine.db.records && InStep(stores.machine.db, r)
                       && StoresTexts(stores.machine.db, r, texts)
    ensures r in stores.machine.attempts ==>
      var a := stores.machine.attempts[r]; a.kind == Refresh && a.job == job && a.tries == 0
  {
    hide Inv, Legal, Run, AfterCall, SameRows, InStep, Next, Enabled, PointsFor, NewTexts, StoresTexts;
    var loaded;
    reply, known, job, loaded := ReplaceAndClear(stores, r, org, texts, now);
    if reply.Ok? && texts != [] {
      reply := IndexRefreshed(stores, r, org, loaded, job, now);
    }
    if reply.Ok? { reply := CloseRefreshed(stores, r, job, now); }
  }

  // markCompleted, the last call of a refresh.
  method CloseRefreshed(stores: Stores, r: nat, job: nat, now: int) returns (reply: Reply)
    requires stores.Standing(r, AtClose)
    requires var a := stores.machine.attempts[r]; a.kind == Refresh && a.job == job && a.tries == 0
    modifies stores
    ensures stores.Valid() && old(stores.log) <= stores.log && Focus(old(stores.machine), stores.machine, r)
    ensures stores.AllAnswered(reply.Ok?)
    ensures match reply
            case Crash => r !in stores.machine.attempts
            case Error => if HasChunks(old(stores.machine.attempts[r])) then stores.Standing(r, AtRearm)
                          else r !in stores.machine.attempts
            case Ok => r !in stores.machine.attempts && r in stores.machine.db.records && InStep(stores.machine.db, r)
                       && StoresTexts(stores.machine.db, r, old(stores.machine.attempts[r].texts))
    ensures r in stores.machine.attempts ==>
      var a := stores.machine.attempts[r]; a.kind == Refresh && a.job == job && a.tries == 0
  {
    hide Inv, Legal, Run, AfterCall, SameRows, InStep, Next, Enabled, PointsFor, NewTexts, StoresTexts;
    ClosedInStep(stores.machine, r, now);
    ClosedHolds(stores.machine, r, now);
    reply := stores.MarkCompleted(r, job, now);
  }

  /**
    refreshCanonicalMemoryIndex on a live record, its new chunks already embedded. A refresh that answers leaves the
    record in step with the new chunks; one that does not leaves it, unless it was lost before, in step or scheduled.
  */
  method RefreshCanonicalMemoryIndex(stores: Stores, r: nat, texts: seq<string>, now: int) returns (outcome: Outcome)
    requires stores.Valid() && r in stores.records && r !in stores.machine.attempts
    modifies stores
    ensures stores.Valid() && old(stores.log) <= stores.log
    ensures stores.AllAnswered(outcome.Done?)
    ensures r !in stores.machine.attempts && Focus(old(stores.machine), stores.machine, r)
    ensures outcome.Done? ==>
      r in stores.records && InStep(stores.Tables(), r) && StoresTexts(stores.Tables(), r, texts)
    ensures r in stores.records && r !in stores.machine.gap ==>
      InStep(stores.Tables(), r) || Scheduled(stores.Tables(), r)
  {
    hide Inv, Legal, Run, AfterCall, SameRows, InStep, Scheduled, Next, Enabled, StoresTexts;
    var org := stores.records[r].org;
    stores.BeginRefresh(r, texts);
    var reply, known, job := TryRefresh(stores, r, org, texts, now);
    outcome := if reply.Ok? then Done else if reply.Crash? then Crashed else Failed;
    if reply.Error? && known && texts != [] {
      var marked := stores.RescheduleRefresh(r, job, now);
      if marked.Crash? { outcome := Crashed; }
    }
    if r in stores.records && r !in stores.machine.gap { SafeAtRest(stores.machine, r); }
  }

  // ----- the ingest sweeper -----

  datatype Swept = SweptCompleted | SweptRetry | SweptFailed | SweptCrashed

  // markQdrantCompleted, the last call of a sweep.
  method MarkSwept(stores: Stores, r: nat, job: nat, now: int) returns (reply: Reply)
    requires stores.Standing(r, AtMarkDone)
    requires var a := stores.machine.attempts[r]; a.kind == Sweep && a.job == job
    modifies stores
    ensures stores.Valid() && old(stores.log) <= stores.log && Focus(old(stores.machine), stores.machine, r)
    ensures stores.AllAnswered(reply.Ok?)
    ensures SameRows(old(stores.machine.db), stores.machine.db)
    ensures match reply
            case Crash => r !in stores.machine.attempts
            case Error => stores.Standing(r, AtRearm)
            case Ok => r !in stores.machine.attempts && r in stores.machine.db.records && InStep(stores.machine.db, r)
    ensures r in stores.machine.attempts ==>
      stores.machine.attempts[r] == old(stores.machine.attempts[r]).(at := stores.machine.attempts[r].at)
  {
    hide Inv, Legal, Run, AfterCall, InStep, Next, Enabled, PointsFor, NewTexts, SameRows, Stores.Valid;
    ValidKnows(stores);
    MarkedInStep(stores.machine, r, now);
    reply := stores.MarkQdrantCompleted(r, job, AtMarkDone, now);
  }

  // The second half of sweepOne's try block: upsert, record the point ids, mark the job.
  method RebuildSwept(stores: Stores, r: nat, org: string, loaded: map<nat, string>, job: nat, now: int)
    returns (reply: Reply)
    requires stores.Standing(r, AtUpsert)
    requires var a := stores.machine.attempts[r];
             a.kind == Sweep && a.org == org && a.loaded == loaded && a.job == job
    modifies stores
    ensures stores.Valid() && old(stores.log) <= stores.log && Focus(old(stores.machine), stores.machine, r)
    ensures stores.AllAnswered(reply.Ok?)
    ensures SameRows(old(stores.machine.db), stores.machine.db)
    ensures match reply
            case Crash => r !in stores.machine.attempts
            case Error => stores.Standing(r, AtRearm)
            case Ok => r !in stores.machine.attempts && r in stores.machine.db.records && InStep(stores.machine.db, r)
    ensures r in stores.machine.attempts ==>
      stores.machine.attempts[r] == old(stores.machine.attempts[r]).(at := stores.machine.attempts[r].at)
  {
    hide Inv, Legal, Run, AfterCall, InStep, Next, Enabled, PointsFor, NewTexts, SameRows, Stores.Valid;
    ghost var d0 := stores.machine.db;
    reply := stores.Upsert(Sweep, r, org, loaded, now);
    if !reply.Ok? { return; }
    ghost var d1 := stores.machine.db;
    reply := stores.UpdatePointIds(Sweep, r, loaded, now);
    SameRowsTrans(d0, d1, stores.machine.db);
    if !reply.Ok? { return; }
    ghost var d2 := stores.machine.db;
    reply := MarkSwept(stores, r, job, now);
    SameRowsTrans(d0, d2, stores.machine.db);
  }

  // sweepOne's try block for a job whose record has chunks.
  method IndexSwept(stores: Stores, r: nat, org: string, loaded: map<nat, string>, job: nat, now: int)
    returns (reply: Reply)
    requires stores.Standing(r, AtEmbed) && loaded != map[]
    requires var a := stores.machine.attempts[r];
             a.kind == Sweep && a.org == org && a.loaded == loaded && a.job == job
    modifies stores
    ensures stores.Valid() && old(stores.log) <= stores.log && Focus(old(stores.machine), stores.machine, r)
    ensures stores.AllAnswered(reply.Ok?)
    ensures SameRows(old(stores.machine.db), stores.machine.db)
    ensures match reply
            case Crash => r !in stores.machine.attempts
            case Error => stores.Standing(r, AtRearm)
            case Ok => r !in stores.machine.attempts && r in stores.machine.db.records && InStep(stores.machine.db, r)
    ensures r in stores.machine.attempts ==>
      stores.machine.attempts[r] == old(stores.machine.attempts[r]).(at := stores.machine.attempts[r].at)
  {
    hide Inv, Legal, Run, AfterCall, InStep, Next, Enabled, PointsFor, NewTexts, Stores.Valid;
    reply := stores.EmbedBatch(r, now);
    if !reply.Ok? { return; }
    reply := stores.DeletePointsOfRecord(r, org, now);
    if !reply.Ok? { return; }
    reply := RebuildSwept(stores, r, org, loaded, job, now);
  }

  // The try block of sweepOne.
  method TrySweep(stores: Stores, j: nat, r: nat, org: string, tries: nat, limit: nat, now: int) returns (reply: Reply)
    requires stores.Valid() && r !in stores.machine.attempts
    requires j in stores.jobs && stores.jobs[j].record == r && stores.jobs[j].org == org
    modifies stores
    ensures stores.Valid() && old(stores.log) <= stores.log && Focus(old(stores.machine), stores.machine, r)
    ensures stores.AllAnswered(reply.Ok?)
    ensures SameRows(old(stores.machine.db), stores.machine.db)
    ensures match reply
            case Crash => r !in stores.machine.attempts
            case Error =>
              && stores.Standing(r, AtRearm)
              && stores.machine.attempts[r] == Attempt(Sweep, AtRearm, org, [], stores.machine.attempts[r].loaded, j, tries, limit, 0)
            case Ok =>
              && r !in stores.machine.attempts
              && (old(TextsOf(stores.machine.db, r)) != map[] ==>
                    r in stores.machine.db.records && InStep(stores.machine.db, r))
  {
    hide Inv, Legal, Run, AfterCall, InStep, Next, Enabled, PointsFor, NewTexts, TextsOf;
    var loaded := stores.BeginSweep(j, r, org, tries, limit);
    SameRowsRefl(stores.machine.db);
    if loaded == map[] {
      reply := stores.MarkQdrantCompleted(r, j, AtNoChunks, now);
    } else {
      reply := IndexSwept(stores, r, org, loaded, j, now);
    }
  }

  /**
    sweepOne on a claimed job. job is the row as claimed; if the record was deleted since, every UPDATE finds no row and
    throws, and the sweep changes nothing. A sweep that completes has closed the job, and if the record had chunks it
    is in step; one that answers otherwise counts the failure and gives up exactly at the limit.
  */
  method SweepOne(stores: Stores, j: nat, job: Job, limit: nat, now: int) returns (outcome: Swept)
    requires stores.Valid() && job.record !in stores.machine.attempts
    requires j in stores.jobs ==> stores.jobs[j].record == job.record && stores.jobs[j].org == job.org
    modifies stores
    ensures stores.Valid() && old(stores.log) <= stores.log
    ensures old(stores.faults) <= stores.faults
    ensures outcome.SweptCompleted? <==> stores.faults == old(stores.faults) && j in old(stores.jobs)
    ensures job.record !in stores.machine.attempts && Focus(old(stores.machine), stores.machine, job.record)
    ensures SameRows(old(stores.machine.db), stores.machine.db)
    ensures outcome.SweptCompleted? ==>
      j in stores.jobs && (old(TextsOf(stores.machine.db, job.record)) != map[] ==>
        job.record in stores.machine.db.records && InStep(stores.machine.db, job.record))
    ensures outcome.SweptRetry? ==> job.attempts + 1 < limit
    ensures outcome.SweptFailed? ==> limit <= job.attempts + 1
    ensures outcome in {SweptRetry, SweptFailed} && stores.faults == old(stores.faults) + 1 && j in stores.jobs ==>
      && stores.jobs[j].attempts == job.attempts + 1
      && if limit <= job.attempts + 1
         then stores.jobs[j].status.JobFailed? && stores.jobs[j].retryAt.None?
         else stores.jobs[j].status.JobPending? && stores.jobs[j].retryAt == Some(now + NextRetryDelayMs(job.attempts + 1))
  {
    hide Inv, Legal, Run, AfterCall, InStep, Next, Enabled, PointsFor, NewTexts, TextsOf, NextRetryDelayMs;
    var r := job.record;
    var giveUp := job.attempts + 1 >= limit;
    if j !in stores.jobs { return if giveUp then SweptFailed else SweptRetry; }
    var reply := TrySweep(stores, j, r, job.org, job.attempts, limit, now);
    if reply.Ok? { return SweptCompleted; }
    if reply.Crash? { return SweptCrashed; }
    var marked := stores.RecordSweepFailure(r, j, job.attempts, limit, now);
    outcome := if marked.Crash? then SweptCrashed else if giveUp then SweptFailed else SweptRetry;
  }

  // The claimed jobs, as claimed, still belong to the same records.
  ghost predicate ClaimsFit(d: Db, claimed: map<nat, Job>) {
    forall j :: j in claimed && j in d.jobs ==> d.jobs[j].record == claimed[j].record && d.jobs[j].org == claimed[j].org
  }

  lemma ClaimsStillFit(s: State, s': State, r: nat, claimed: map<nat, Job>)
    requires ClaimsFit(s.db, claimed) && SameRows(s.db, s'.db)
    requires s.attempts == map[] && Focus(s, s', r)
    ensures ClaimsFit(s'.db, claimed) && s'.db.jobs.Keys == s.db.jobs.Keys
    ensures r !in s'.attempts ==> s'.attempts == map[]
  {
    forall q | r !in s'.attempts ensures q !in s'.attempts {
      assert AttemptOn(s', q) == AttemptOn(s, q) || q == r;
    }
  }

  // A job is retried below the limit and given up on exactly at it.
  ghost predicate Judged(outcomes: map<nat, Swept>, claimed: map<nat, Job>, maxAttempts: nat) {
    forall j :: j in outcomes && j in claimed && outcomes[j] in {SweptRetry, SweptFailed} ==>
      (outcomes[j] == SweptFailed <==> maxAttempts <= claimed[j].attempts + 1)
  }

  ghost predicate Accounted(
    outcomes: map<nat, Swept>, claimed: map<nat, Job>, maxAttempts: nat, completed: nat, retried: nat, failed: nat)
  {
    && Tally(outcomes, SweptCompleted, SweptRetry, SweptFailed, completed, retried, failed)
    && Judged(outcomes, claimed, maxAttempts)
  }

  lemma OneMoreAccounted(
    outcomes: map<nat, Swept>, claimed: map<nat, Job>, maxAttempts: nat, j: nat, swept: Swept, completed: nat,
    retried: nat, failed: nat)
    requires Accounted(outcomes, claimed, maxAttempts, completed, retried, failed)
    requires j in claimed && j !in outcomes && !swept.SweptCrashed?
    requires swept.SweptRetry? ==> claimed[j].attempts + 1 < maxAttempts
    requires swept.SweptFailed? ==> maxAttempts <= claimed[j].attempts + 1
    ensures Accounted(
              outcomes[j := swept], claimed, maxAttempts, completed + if swept.SweptCompleted? then 1 else 0,
              retried + if swept.SweptRetry? then 1 else 0, failed + if swept.SweptFailed? then 1 else 0)
  {
    hide Tally, Judged;
    OneMoreJudged(outcomes, claimed, maxAttempts, j, swept);
    OneMoreTallied(outcomes, j, swept, SweptCompleted, SweptRetry, SweptFailed, completed, retried, failed);
  }

  // sweepOne on one of the claimed jobs.
  method SweepClaimed(stores: Stores, claimed: map<nat, Job>, j: nat, maxAttempts: nat, now: int) returns (swept: Swept)
    requires stores.Valid() && stores.machine.attempts == map[] && ClaimsFit(stores.machine.db, claimed) && j in claimed
    modifies stores
    ensures stores.Valid() && old(stores.log) <= stores.log && old(stores.faults) <= stores.faults
    ensures !swept.SweptCrashed? ==> stores.machine.attempts == map[]
    ensures ClaimsFit(stores.machine.db, claimed) && stores.machine.db.jobs.Keys == old(stores.machine.db.jobs.Keys)
    ensures swept.SweptCompleted? <==> stores.faults == old(stores.faults) && j in old(stores.machine.db.jobs)
    ensures swept.SweptRetry? ==> claimed[j].attempts + 1 < maxAttempts
    ensures swept.SweptFailed? ==> maxAttempts <= claimed[j].attempts + 1
  {
    hide Inv, Legal, Run, AfterCall, InStep, Next, Enabled, SameRows, ClaimsFit, Stores.Valid, Focus, TextsOf;
    ValidKnows(stores);
    ClaimFits(stores.machine.db, claimed, j);
    ghost var m := stores.machine;
    swept := SweepOne(stores, j, claimed[j], maxAttempts, now);
    ClaimsStillFit(m, stores.machine, claimed[j].record, claimed);
  }

  // The loop over the claimed jobs.
  method SweepAll(stores: Stores, claimed: map<nat, Job>, maxAttempts: nat, now: int)
    returns (crashed: bool, completed: nat, retried: nat, failed: nat, ghost outcomes: map<nat, Swept>)
    requires stores.Valid() && stores.machine.attempts == map[] && ClaimsFit(stores.machine.db, claimed)
    modifies stores
    ensures stores.Valid() && old(stores.log) <= stores.log
    ensures Accounted(outcomes, claimed, maxAttempts, completed, retried, failed) && outcomes.Keys <= claimed.Keys
    ensures !crashed ==> outcomes.Keys == claimed.Keys && stores.machine.attempts == map[]
    ensures old(stores.faults) <= stores.faults
    ensures stores.faults == old(stores.faults) && claimed.Keys <= old(stores.machine.db.jobs.Keys) ==>
      !crashed && retried == failed == 0
  {
    hide Inv, Legal, Run, AfterCall, InStep, Next, Enabled, ClaimsFit, Accounted, Stores.Valid;
    crashed, completed, retried, failed, outcomes := false, 0, 0, 0, map[];
    NothingJudged(claimed, maxAttempts);
    var todo := claimed.Keys;
    ghost var present, faults := claimed.Keys <= stores.machine.db.jobs.Keys, stores.faults;
    while todo != {}
      invariant todo <= claimed.Keys && outcomes.Keys == claimed.Keys - todo
      invariant Accounted(outcomes, claimed, maxAttempts, completed, retried, failed)
      invariant stores.Valid() && old(stores.log) <= stores.log && stores.machine.attempts == map[]
      invariant ClaimsFit(stores.machine.db, claimed) && faults <= stores.faults
      invariant present ==> claimed.Keys <= stores.machine.db.jobs.Keys
      invariant present && stores.faults == faults ==> retried == failed == 0
    {
      var j :| j in todo;
      var swept := SweepClaimed(stores, claimed, j, maxAttempts, now);
      if swept.SweptCrashed? { crashed := true; return; }
      OneMoreAccounted(outcomes, claimed, maxAttempts, j, swept, completed, retried, failed);
      todo, outcomes := todo - {j}, outcomes[j := swept];
      if swept.SweptCompleted? { completed := completed + 1; }
      else if swept.SweptRetry? { retried := retried + 1; }
      else { failed := failed + 1; }
    }
  }

  /**
    runIngestSweep: every claimed job is swept once, and unless the process dies on the way the counters tell how
    many of them were completed, put back and given up on, and add up to the number of claimed jobs.
  */
  method RunIngestSweep(stores: Stores, batchSize: nat, maxAttempts: nat, now: int, locked: set<nat>)
    returns (crashed: bool, scanned: nat, completed: nat, retried: nat, failed: nat,
             ghost claimed: map<nat, Job>, ghost outcomes: map<nat, Swept>)
    requires stores.Valid() && stores.machine.attempts == map[]
    modifies stores
    ensures stores.Valid() && old(stores.log) <= stores.log
    ensures scanned == |claimed.Keys| <= batchSize
    ensures forall j :: j in claimed ==>
      j in old(stores.jobs) && JobDue(old(stores.jobs)[j], now)
      && claimed[j] == old(stores.jobs)[j].(retryAt := Some(now + CLAIM_VISIBILITY_MS))
    ensures Accounted(outcomes, claimed, maxAttempts, completed, retried, failed) && outcomes.Keys <= claimed.Keys
    ensures !crashed ==> outcomes.Keys == claimed.Keys && scanned == completed + retried + failed
    ensures !crashed ==> stores.machine.attempts == map[] && Earliest(DueJobs(old(stores.jobs), now, locked), claimed.Keys, batchSize)
    ensures stores.faults == old(stores.faults) ==> !crashed && completed == scanned
  {
    hide Inv, Legal, Run, Next, Enabled, Ended, Judged, Earliest, DueJobs, JobDue;
    EarliestAreDue(stores.jobs, now, locked, batchSize);
    var ok, ids := stores.ClaimPendingForRetry(batchSize, now, locked);
    var jobs := map j | j in ids :: stores.jobs[j];
    assert jobs.Keys == ids;
    claimed, outcomes := jobs, map[];
    crashed, scanned, completed, retried, failed := true, |ids|, 0, 0, 0;
    NothingJudged(jobs, maxAttempts);
    if ok {
      crashed, completed, retried, failed, outcomes := SweepAll(stores, jobs, maxAttempts, now);
    }
  }

  lemma EarliestAreDue(jobs: map<nat, Job>, now: int, locked: set<nat>, limit: nat)
    ensures forall ids :: Earliest(DueJobs(jobs, now, locked), ids, limit) ==>
      |ids| <= limit && forall j :: j in ids ==> j in jobs && JobDue(jobs[j], now)
  {
    hide NotAfter, JobDue;
  }

  lemma NothingJudged(claimed: map<nat, Job>, maxAttempts: nat)
    ensures Accounted(map[], claimed, maxAttempts, 0, 0, 0)
  {
    NothingTallied(SweptCompleted, SweptRetry, SweptFailed);
  }

  lemma OneMoreJudged(outcomes: map<nat, Swept>, claimed: map<nat, Job>, maxAttempts: nat, j: nat, swept: Swept)
    requires Judged(outcomes, claimed, maxAttempts) && j in claimed
    requires swept.SweptRetry? ==> claimed[j].attempts + 1 < maxAttempts
    requires swept.SweptFailed? ==> maxAttempts <= claimed[j].attempts + 1
    ensures Judged(outcomes[j := swept], claimed, maxAttempts)
  {
  }

  lemma ClaimFits(d: Db, claimed: map<nat, Job>, j: nat)
    requires ClaimsFit(d, claimed) && j in claimed
    ensures j in d.jobs ==> d.jobs[j].record == claimed[j].record && d.jobs[j].org == claimed[j].org
  {
  }
}
