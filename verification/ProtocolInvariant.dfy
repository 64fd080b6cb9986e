/** The guarantees of the two-store protocol, in every state any interleaving of attempts, crashes and sweeps can reach. */
module ProtocolInvariant {
  import opened Common
  import opened Backoff
  import opened Store
  import opened Protocol
  import opened Slices
  import opened LocalInvariant
  import opened TableInvariant

  function AttemptOn(s: State, r: nat): Option<Attempt> {
    if r in s.attempts then Some(s.attempts[r]) else None
  }

  ghost predicate RecordOk(s: State, r: nat) {
    LocalOk(SliceOf(s.db, r), r, AttemptOn(s, r), r in s.gap)
  }

  ghost predicate Inv(s: State) {
    && Sound(s.db, s.cleaned)
    && (forall r :: r in s.attempts ==> r in s.db.records)
    && (forall r :: r in s.db.records ==> RecordOk(s, r))
  }

  // ----- one call of an attempt -----

  lemma SetJobSound(d: Db, d': Db, j: nat, job: Job, cleaned: set<nat>)
    requires Sound(d, cleaned) && j in d.jobs && job.record == d.jobs[j].record && job.org == d.jobs[j].org
    requires d' == d.(jobs := d.jobs[j := job])
    ensures Sound(d', cleaned)
  {
    JobsSound(d, d', cleaned);
  }

  ghost predicate EffectFits(d: Db, d': Db, r: nat, a: Attempt, now: int, cleaned: set<nat>) {
    && Sound(d', cleaned) && d'.records == d.records
    && OthersKeep(d, d', r)
    && SliceOf(d', r) == LocalEffect(SliceOf(d, r), r, a, now, d.nextChunk, d.nextJob)
  }

  lemma SoundIds(d: Db, cleaned: set<nat>)
    requires Sound(d, cleaned)
    ensures forall c :: c in d.chunks ==> c < d.nextChunk
    ensures forall j :: j in d.jobs ==> j < d.nextJob && d.jobs[j].record in d.records
                                        && d.jobs[j].org == d.records[d.jobs[j].record].org
  {
  }

  lemma InsertChunksFits(d: Db, r: nat, a: Attempt, now: int, cleaned: set<nat>)
    requires Sound(d, cleaned) && r in d.records && a.at == AtInsertChunks
    ensures EffectFits(d, Effect(d, r, a, now), r, a, now, cleaned)
  {
    hide Sound, OthersKeep, NewChunks, SliceOf;
    SoundIds(d, cleaned);
    InsertChunksSound(d, r, a.texts, cleaned);
    InsertChunksSlices(d, r, a.texts);
  }

  lemma ReplaceFits(d: Db, r: nat, a: Attempt, now: int, cleaned: set<nat>)
    requires Sound(d, cleaned) && r in d.records && a.at == AtReplace && a.org == OrgOf(d, r)
    ensures EffectFits(d, Effect(d, r, a, now), r, a, now, cleaned)
  {
    hide Sound, OthersKeep, NewChunks, SliceOf;
    SoundIds(d, cleaned);
    ReplaceChunksSound(d, r, a.org, a.texts, now + NextRetryDelayMs(0), cleaned);
    ReplaceChunksSlices(d, r, a.org, a.texts, now + NextRetryDelayMs(0));
  }

  // The rows an attempt works on are the record's own.
  lemma LoadedAreMine(d: Db, r: nat, a: Attempt)
    requires HoldsChunks(SliceOf(d, r), a.loaded)
    ensures forall c :: c in a.loaded ==> c in d.chunks && d.chunks[c].record == r
  {
    forall c | c in a.loaded ensures c in d.chunks && d.chunks[c].record == r {
      assert c in SliceOf(d, r).chunks;
    }
  }

  lemma LinkFits(d: Db, r: nat, a: Attempt, now: int, cleaned: set<nat>)
    requires Sound(d, cleaned) && r in d.records && a.at == AtLink && HoldsChunks(SliceOf(d, r), a.loaded)
    ensures EffectFits(d, Effect(d, r, a, now), r, a, now, cleaned)
  {
    hide Sound, OthersKeep, Linked, SliceOf, HoldsChunks;
    var links := LinksFor(a.kind, r, a.loaded);
    LoadedAreMine(d, r, a);
    LinkPointsSound(d, links, cleaned);
    LinkPointsSlices(d, r, links);
  }

  lemma CreateJobFits(d: Db, r: nat, a: Attempt, now: int, cleaned: set<nat>)
    requires Sound(d, cleaned) && r in d.records && a.at == AtCreateJob && a.org == OrgOf(d, r)
    ensures EffectFits(d, Effect(d, r, a, now), r, a, now, cleaned)
  {
    hide Sound, OthersKeep, SliceOf;
    SoundIds(d, cleaned);
    JobsSound(d, Effect(d, r, a, now), cleaned);
    CreateJobSlices(d, r, a.org);
  }

  lemma JobIsMine(d: Db, r: nat, j: nat)
    requires j in SliceOf(d, r).jobs
    ensures j in d.jobs && d.jobs[j].record == r && SliceOf(d, r).jobs[j] == d.jobs[j]
  {
  }

  lemma MarkFits(d: Db, r: nat, a: Attempt, now: int, cleaned: set<nat>)
    requires Sound(d, cleaned) && r in d.records && a.job in SliceOf(d, r).jobs
    requires a.at in {AtMarkAhead, AtMarkDone, AtClose, AtNoChunks, AtRearm}
    ensures EffectFits(d, Effect(d, r, a, now), r, a, now, cleaned)
  {
    hide Sound, OthersKeep, SliceOf, NextRetryDelayMs;
    JobIsMine(d, r, a.job);
    var d' := Effect(d, r, a, now);
    assert d' == d.(jobs := d.jobs[a.job := d'.jobs[a.job]]);
    SetJobSound(d, d', a.job, d'.jobs[a.job], cleaned);
    SetJobSlices(d, d', r, a.job, d'.jobs[a.job]);
  }

  lemma DeleteOldFits(d: Db, r: nat, a: Attempt, now: int, cleaned: set<nat>)
    requires Sound(d, cleaned) && r in d.records && a.at == AtDeleteOld && a.org == OrgOf(d, r)
    ensures EffectFits(d, Effect(d, r, a, now), r, a, now, cleaned)
  {
    assert forall p :: p in d.index && d.index[p].record == r ==> d.index[p].org == a.org;
    hide Sound, OthersKeep, SliceOf;
    ShrinkingIndexSound(d, Effect(d, r, a, now), cleaned);
    DeleteByRecordSlices(d, r, a.org);
  }

  // A point of one of the loaded rows can only be this record's.
  lemma LoadedPointsAreMine(d: Db, r: nat, a: Attempt, cleaned: set<nat>)
    requires Sound(d, cleaned) && HoldsChunks(SliceOf(d, r), a.loaded)
    ensures var ids := PointsFor(a.kind, r, a.org, a.loaded).Keys;
            forall p :: p in ids ==>
              p.chunk in d.chunks && d.chunks[p.chunk].record == r && (p in d.index ==> d.index[p].record == r)
  {
    LoadedAreMine(d, r, a);
  }

  lemma DropPointsFits(d: Db, r: nat, a: Attempt, now: int, cleaned: set<nat>)
    requires Sound(d, cleaned) && r in d.records && HoldsChunks(SliceOf(d, r), a.loaded)
    requires a.at in {AtUnlink, AtUndoPoints}
    ensures EffectFits(d, Effect(d, r, a, now), r, a, now, cleaned)
  {
    hide Sound, OthersKeep, SliceOf, HoldsChunks, PointsFor;
    LoadedPointsAreMine(d, r, a, cleaned);
    ShrinkingIndexSound(d, Effect(d, r, a, now), cleaned);
    DeletePointsSlices(d, r, PointsFor(a.kind, r, a.org, a.loaded).Keys,
                       if a.at == AtUndoPoints && a.kind == Write then None else Some(a.org));
  }

  lemma UpsertFits(d: Db, r: nat, a: Attempt, now: int, cleaned: set<nat>)
    requires Sound(d, cleaned) && r in d.records && HoldsChunks(SliceOf(d, r), a.loaded)
    requires a.at == AtUpsert && a.org == OrgOf(d, r)
    ensures EffectFits(d, Effect(d, r, a, now), r, a, now, cleaned)
  {
    hide Sound, OthersKeep, SliceOf, HoldsChunks;
    var points := PointsFor(a.kind, r, a.org, a.loaded);
    LoadedPointsAreMine(d, r, a, cleaned);
    UpsertPointsSound(d, r, points, cleaned);
    UpsertPointsSlices(d, r, points);
  }

  lemma RowEffectFits(d: Db, r: nat, a: Attempt, now: int, cleaned: set<nat>)
    requires Sound(d, cleaned) && r in d.records && a.at in {AtEmbed, AtMarkUnarchived}
    ensures EffectFits(d, Effect(d, r, a, now), r, a, now, cleaned)
  {
    var d' := Effect(d, r, a, now);
    if a.at == AtMarkUnarchived { MarkUnarchivedSound(d, a.row, now, cleaned); }
    hide Sound;
  }

  lemma PendingRowsHaveRetry(d: Db, cleaned: set<nat>)
    requires Sound(d, cleaned)
    ensures forall a :: a in d.archive && d.archive[a].status.RowPending? && d.archive[a].retryAt.None?
                        ==> d.archive[a].points == {}
  {
  }

  lemma MarkUnarchivedSound(d: Db, row: nat, now: int, cleaned: set<nat>)
    requires Sound(d, cleaned)
    ensures Sound(MarkUnarchived(d, row, now), cleaned)
  {
    hide Sound;
    PendingRowsHaveRetry(d, cleaned);
    RowEditSound(d, MarkUnarchived(d, row, now), cleaned);
  }

  lemma PhaseHolds(d: Db, r: nat, a: Attempt)
    requires PhaseFacts(SliceOf(d, r), r, a)
    ensures a.at in {AtLink, AtUnlink, AtUndoPoints, AtUpsert} ==> HoldsChunks(SliceOf(d, r), a.loaded)
    ensures a.at in {AtMarkAhead, AtMarkDone, AtClose, AtNoChunks, AtRearm} ==> a.job in SliceOf(d, r).jobs
  {
    hide Synced, SliceOf, HoldsChunks, PointsFor;
  }

  // Every call that takes effect stays within its record and keeps the tables sound.
  lemma EffectFitsAlways(d: Db, r: nat, a: Attempt, now: int, cleaned: set<nat>)
    requires Sound(d, cleaned) && r in d.records
    requires a.org == OrgOf(d, r) && PhaseFacts(SliceOf(d, r), r, a)
    requires a.at != AtUndoRecord
    ensures EffectFits(d, Effect(d, r, a, now), r, a, now, cleaned)
  {
    hide Sound, PhaseFacts, SliceOf, OrgOf, EffectFits, Effect, HoldsChunks, Synced;
    PhaseHolds(d, r, a);
    match a.at
    case AtCreateJob => CreateJobFits(d, r, a, now, cleaned);
    case AtInsertChunks => InsertChunksFits(d, r, a, now, cleaned);
    case AtReplace => ReplaceFits(d, r, a, now, cleaned);
    case AtDeleteOld => DeleteOldFits(d, r, a, now, cleaned);
    case AtLink => LinkFits(d, r, a, now, cleaned);
    case AtUpsert => UpsertFits(d, r, a, now, cleaned);
    case AtUnlink => DropPointsFits(d, r, a, now, cleaned);
    case AtUndoPoints => DropPointsFits(d, r, a, now, cleaned);
    case AtEmbed => RowEffectFits(d, r, a, now, cleaned);
    case AtMarkUnarchived => RowEffectFits(d, r, a, now, cleaned);
    case AtMarkAhead => MarkFits(d, r, a, now, cleaned);
    case AtMarkDone => MarkFits(d, r, a, now, cleaned);
    case AtClose => MarkFits(d, r, a, now, cleaned);
    case AtNoChunks => MarkFits(d, r, a, now, cleaned);
    case AtRearm => MarkFits(d, r, a, now, cleaned);
  }

  // No call adds or drops an archive row; only the last one of a restore edits one.
  lemma EffectRows(d: Db, r: nat, a: Attempt, now: int)
    ensures Effect(d, r, a, now).archive
         == if a.at == AtMarkUnarchived then MarkUnarchived(d, a.row, now).archive else d.archive
    ensures Effect(d, r, a, now).nextArchive == d.nextArchive
  {
    hide PointsFor, LinksFor, NewChunks, NextRetryDelayMs;
  }

  // A step that touches one record's share, attempt and gap entry leaves every other record as it was.
  ghost predicate OnlyTouches(s: State, s': State, r: nat) {
    && OthersKeep(s.db, s'.db, r)
    && forall q :: q != r ==>
         && AttemptOn(s', q) == AttemptOn(s, q)
         && (q in s'.gap <==> q in s.gap)
         && (q in s'.db.records <==> q in s.db.records)
  }

  lemma OthersStayOk(s: State, s': State, r: nat)
    requires Inv(s) && OnlyTouches(s, s', r)
    ensures forall q :: q in s'.db.records && q != r ==> RecordOk(s', q)
    ensures forall q :: q in s'.attempts && q != r ==> q in s'.db.records
  {
    hide Sound, SliceOf, LocalOk;
    forall q | q in s'.db.records && q != r ensures RecordOk(s', q) {
      assert RecordOk(s, q);
    }
    forall q | q in s'.attempts && q != r ensures q in s'.db.records {
      assert AttemptOn(s', q) == AttemptOn(s, q);
    }
  }

  // The history variable moves exactly as LostAfter says.
  lemma GapMatches(s: State, r: nat, effect: bool, reply: Reply, now: int)
    requires r in s.attempts
    requires var a := s.attempts[r];
             var d' := if effect then Effect(s.db, r, a, now) else s.db;
             && r in d'.records
             && (a.kind == Write && a.at in {AtUndoPoints, AtUndoRecord} ==> a.job in SliceOf(d', r).jobs)
    ensures var a := s.attempts[r];
            var s' := AfterCall(s, r, effect, reply, now);
            var next := After(a, reply, s.db.nextChunk, s.db.nextJob);
            r in s'.gap <==> LostAfter(r in s.gap, SliceOf(s'.db, r), a, next, effect)
  {
    var a := s.attempts[r];
    var d' := if effect then Effect(s.db, r, a, now) else s.db;
    hide Effect, After, OrgOf, ChunksOf;
    if exists p :: p in d'.index && d'.index[p].record == r {
      var p :| p in d'.index && d'.index[p].record == r;
      assert p in SliceOf(d', r).points;
    }
  }

  lemma SliceOrg(d: Db, r: nat)
    ensures SliceOf(d, r).org == OrgOf(d, r)
  {
  }

  lemma UndoRecordEnds(d: Db, r: nat, a: Attempt, reply: Reply, now: int)
    requires r in d.records && a.at == AtUndoRecord && a.org == OrgOf(d, r) && PhaseFacts(SliceOf(d, r), r, a)
    ensures Effect(d, r, a, now) == DropRecord(d, r)
    ensures After(a, reply, d.nextChunk, d.nextJob) == None
  {
    hide SliceOf, HoldsChunks, Synced, DropRecord;
  }

  lemma UndoRecordStep(s: State, r: nat, reply: Reply, now: int)
    requires Inv(s) && r in s.attempts && s.attempts[r].at == AtUndoRecord
    ensures Inv(AfterCall(s, r, true, reply, now))
  {
    hide Sound, SliceOf, PhaseFacts, PhaseSafe, Effect, After, Loses, DropRecord, OthersKeep;
    var s' := AfterCall(s, r, true, reply, now);
    assert RecordOk(s, r);
    SliceOrg(s.db, r);
    UndoRecordEnds(s.db, r, s.attempts[r], reply, now);
    DropRecordSound(s.db, r, s.cleaned);
    DropRecordSlices(s.db, r);
    DropRecordRows(s.db, r);
    OthersStayOk(s, s', r);
  }

  lemma DropRecordRows(d: Db, r: nat)
    ensures DropRecord(d, r).records == d.records - {r}
  {
  }

  lemma CallStep(s: State, r: nat, effect: bool, reply: Reply, now: int)
    requires Inv(s) && Enabled(s, Call(r, effect, reply, now))
    requires !(effect && s.attempts[r].at == AtUndoRecord)
    ensures Inv(AfterCall(s, r, effect, reply, now))
  {
    hide Sound, SliceOf, PhaseFacts, PhaseSafe, Effect, LocalEffect, After, Loses, LosesLocal, Settles,
      LostAfter, Safe;
    var a := s.attempts[r];
    var s' := AfterCall(s, r, effect, reply, now);
    assert RecordOk(s, r);
    SliceOrg(s.db, r);
    if effect { EffectFitsAlways(s.db, r, a, now, s.cleaned); }
    NextJobIsNew(s.db, r, s.cleaned);
    CallKeepsLocal(SliceOf(s.db, r), r, a, r in s.gap, effect, reply, now, s.db.nextChunk, s.db.nextJob);
    UndoKeepsJob(s.db, r, a, effect, now);
    GapMatches(s, r, effect, reply, now);
    OthersStayOk(s, s', r);
    assert RecordOk(s', r);
  }

  lemma NextJobIsNew(d: Db, r: nat, cleaned: set<nat>)
    requires Sound(d, cleaned)
    ensures d.nextJob !in SliceOf(d, r).jobs
  {
  }

  lemma UndoKeepsJob(d: Db, r: nat, a: Attempt, effect: bool, now: int)
    requires PhaseFacts(SliceOf(d, r), r, a) && !(effect && a.at == AtUndoRecord)
    ensures var d' := if effect then Effect(d, r, a, now) else d;
            a.kind == Write && a.at in {AtUndoPoints, AtUndoRecord} ==> a.job in SliceOf(d', r).jobs
  {
  }

  // ----- the other steps -----

  lemma LiveStayOk(s: State, s': State)
    requires Inv(s)
    requires forall q :: q in s'.db.records ==> q in s.db.records && SliceOf(s'.db, q) == SliceOf(s.db, q)
    requires forall q :: q in s'.db.records ==> AttemptOn(s', q) == AttemptOn(s, q) && (q in s'.gap <==> q in s.gap)
    ensures forall q :: q in s'.db.records ==> RecordOk(s', q)
  {
    hide Sound, SliceOf, LocalOk;
    forall q | q in s'.db.records ensures RecordOk(s', q) {
      assert RecordOk(s, q);
    }
  }

  lemma NewRecordIsEmpty(d: Db, cleaned: set<nat>)
    requires Sound(d, cleaned)
    ensures d.nextRecord !in d.records
    ensures SliceOf(d, d.nextRecord) == Slice("", map[], map[], map[])
  {
  }

  lemma NewRecordOk(org: string, r: nat, a: Attempt, lost: bool)
    requires a.org == org && a.loaded == map[]
    requires (a.kind == Write && a.at == AtCreateJob) || (a.kind == Restore && a.at == AtInsertChunks)
    ensures LocalOk(Slice(org, map[], map[], map[]), r, Some(a), lost)
  {
  }

  lemma InsertStep(s: State, s': State, rec: Record, a: Attempt)
    requires Inv(s) && a.org == rec.org && a.loaded == map[]
    requires (a.kind == Write && a.at == AtCreateJob) || (a.kind == Restore && a.at == AtInsertChunks)
    requires s' == s.(db := InsertRecord(s.db, rec), attempts := s.attempts[s.db.nextRecord := a])
    ensures Inv(s')
  {
    hide Sound, SliceOf, LocalOk, OthersKeep;
    var r := s.db.nextRecord;
    NewRecordIsEmpty(s.db, s.cleaned);
    InsertRecordSound(s.db, rec, s.cleaned);
    InsertRecordSlices(s.db, rec);
    NewRecordOk(rec.org, r, a, r in s'.gap);
    OthersStayOk(s, s', r);
    assert RecordOk(s', r);
  }

  lemma RefreshStep(s: State, r: nat, texts: seq<string>)
    requires Inv(s) && Enabled(s, StartRefresh(r, texts))
    ensures Inv(Next(s, StartRefresh(r, texts)))
  {
    hide Sound, SliceOf, Safe;
    var s' := Next(s, StartRefresh(r, texts));
    assert RecordOk(s, r);
    SliceOrg(s.db, r);
    OthersStayOk(s, s', r);
    assert RecordOk(s', r);
  }

  lemma SweepStep(s: State, j: nat, tries: nat, limit: nat)
    requires Inv(s) && Enabled(s, StartSweep(j, tries, limit))
    ensures Inv(Next(s, StartSweep(j, tries, limit)))
  {
    hide Sound, SliceOf, TextsOf, Synced;
    var s' := Next(s, StartSweep(j, tries, limit));
    var r := s.db.jobs[j].record;
    SoundIds(s.db, s.cleaned);
    SweepLoads(s.db, j);
    SliceOrg(s.db, r);
    assert RecordOk(s, r);
    OthersStayOk(s, s', r);
    if JobGuards(s.db.jobs[j]) { JobGuardsSlice(SliceOf(s.db, r), j); }
    assert RecordOk(s', r);
  }

  lemma SweepLoads(d: Db, j: nat)
    requires j in d.jobs
    ensures var r := d.jobs[j].record;
            && j in SliceOf(d, r).jobs && SliceOf(d, r).jobs[j] == d.jobs[j]
            && HoldsChunks(SliceOf(d, r), TextsOf(d, r))
            && (TextsOf(d, r) == map[] ==> SliceOf(d, r).chunks == map[])
  {
    var r := d.jobs[j].record;
    forall c | c in SliceOf(d, r).chunks ensures c in TextsOf(d, r) {
    }
  }

  // A claim only postpones retry times, so guards stay guards.
  lemma PostponedOk(v: Slice, v': Slice, r: nat, att: Option<Attempt>, lost: bool)
    requires LocalOk(v, r, att, lost)
    requires v' == v.(jobs := v'.jobs) && v'.jobs.Keys == v.jobs.Keys
    requires forall j :: j in v.jobs ==>
      (JobGuards(v.jobs[j]) ==> JobGuards(v'.jobs[j])) && (v.jobs[j].retryAt.None? ==> v'.jobs[j] == v.jobs[j])
    ensures LocalOk(v', r, att, lost)
  {
    SyncedIgnoresJobs(v, r, v'.jobs);
    if Guarded(v) {
      var j :| j in v.jobs && JobGuards(v.jobs[j]);
      JobGuardsSlice(v', j);
    }
    hide Synced, Guarded, PhaseFacts;
    if att.Some? { FactsOfPostponed(v, v', r, att.value); }
  }

  lemma FactsOfPostponed(v: Slice, v': Slice, r: nat, a: Attempt)
    requires PhaseFacts(v, r, a)
    requires v' == v.(jobs := v'.jobs) && v'.jobs.Keys == v.jobs.Keys
    requires forall j :: j in v.jobs ==> (v.jobs[j].retryAt.None? ==> v'.jobs[j] == v.jobs[j])
    ensures PhaseFacts(v', r, a)
  {
    hide Synced, HoldsChunks, PointsFor;
    SyncedIgnoresJobs(v, r, v'.jobs);
    Kept(v, v', a);
  }

  lemma ClaimStep(s: State, ids: set<nat>, now: int)
    requires Inv(s) && Enabled(s, Claim(ids, now))
    ensures Inv(Next(s, Claim(ids, now)))
  {
    hide Sound, SliceOf, LocalOk;
    var s' := Next(s, Claim(ids, now));
    SoundIds(s.db, s.cleaned);
    JobsSound(s.db, s'.db, s.cleaned);
    forall r | r in s'.db.records ensures RecordOk(s', r) {
      assert RecordOk(s, r);
      ClaimSlices(s.db, ids, now, r);
      PostponedOk(SliceOf(s.db, r), SliceOf(s'.db, r), r, AttemptOn(s, r), r in s.gap);
    }
  }

  lemma ClaimSlices(d: Db, ids: set<nat>, now: int, r: nat)
    requires forall j :: j in ids ==> j in d.jobs && JobDue(d.jobs[j], now)
    ensures var v, v' := SliceOf(d, r), SliceOf(ClaimJobs(d, ids, now), r);
            && v' == v.(jobs := v'.jobs) && v'.jobs.Keys == v.jobs.Keys
            && forall j :: j in v.jobs ==>
                 (JobGuards(v.jobs[j]) ==> JobGuards(v'.jobs[j])) && (v.jobs[j].retryAt.None? ==> v'.jobs[j] == v.jobs[j])
  {
  }

  lemma ArchiveStep(s: State, r: nat, org: string, run: nat, reason: Reason, planTime: int, now: int)
    requires Inv(s) && Enabled(s, Archive(r, org, run, reason, planTime, now))
    ensures Inv(Next(s, Archive(r, org, run, reason, planTime, now)))
  {
    hide Sound, SliceOf, LocalOk, OthersKeep;
    var s' := Next(s, Archive(r, org, run, reason, planTime, now));
    ArchiveSound(s.db, r, org, run, reason, planTime, now, s.cleaned);
    ArchiveSlices(s.db, r, org, run, reason, planTime, now);
    OthersStayOk(s, s', r);
    if !Archivable(s.db, r, org, planTime) && r in s.db.records {
      assert s' == s;
      assert RecordOk(s, r);
    }
  }

  lemma ArchiveSlices(d: Db, r: nat, org: string, run: nat, reason: Reason, planTime: int, now: int)
    ensures var d' := ArchiveRecord(d, r, org, run, reason, planTime, now);
            && OthersKeep(d, d', r)
            && d'.records == if Archivable(d, r, org, planTime) then d.records - {r} else d.records
  {
    var d' := ArchiveRecord(d, r, org, run, reason, planTime, now);
    DropRecordSlices(d, r);
    if Archivable(d, r, org, planTime) {
      forall q | q != r ensures SliceOf(d', q) == SliceOf(d, q) {
        assert SliceOf(d', q) == SliceOf(DropRecord(d, r), q);
      }
    }
  }

  lemma CleanDeleteStep(s: State, rows: set<nat>, org: string, effect: bool, ok: bool)
    requires Inv(s) && Enabled(s, CleanDelete(rows, org, effect, ok))
    ensures Inv(Next(s, CleanDelete(rows, org, effect, ok)))
  {
    var s' := Next(s, CleanDelete(rows, org, effect, ok));
    if effect {
      CleanDeleteSound(s.db, rows, org, s.cleaned);
      if !ok { SoundOfFewer(s'.db, s.cleaned + rows, s.cleaned); }
      forall q | q in s'.db.records ensures SliceOf(s'.db, q) == SliceOf(s.db, q) {
        LiveKeepPoints(s.db, rows, org, q, s.cleaned);
      }
    } else {
    }
    hide Sound, SliceOf;
    LiveStayOk(s, s');
  }

  lemma SoundOfFewer(d: Db, more: set<nat>, fewer: set<nat>)
    requires Sound(d, more) && fewer <= more
    ensures Sound(d, fewer)
  {
  }

  lemma LiveKeepPoints(d: Db, rows: set<nat>, org: string, q: nat, cleaned: set<nat>)
    requires Sound(d, cleaned) && q in d.records
    ensures SliceOf(DeletePoints(d, PointsOfRows(d, rows), Some(org)), q) == SliceOf(d, q)
  {
    var d' := DeletePoints(d, PointsOfRows(d, rows), Some(org));
    forall p | p in d.index && d.index[p].record == q ensures p !in PointsOfRows(d, rows) {
    }
    assert SliceOf(d', q).points == SliceOf(d, q).points;
  }

  lemma RowStep(s: State, s': State)
    requires Inv(s) && s' == s.(db := s.db.(archive := s'.db.archive)) && Sound(s'.db, s.cleaned)
    ensures Inv(s')
  {
    hide Sound;
    assert forall q :: SliceOf(s'.db, q) == SliceOf(s.db, q);
    hide SliceOf;
    LiveStayOk(s, s');
  }

  /** Every step of the machine keeps the invariant. */
  lemma StepKeepsInv(s: State, l: Label)
    requires Inv(s) && Enabled(s, l)
    ensures Inv(Next(s, l))
  {
    hide Inv, Sound;
    match l
    case StartWrite(rec, texts) =>
      InsertStep(s, Next(s, l), rec, Attempt(Write, AtCreateJob, rec.org, texts, map[], 0, 0, 0, 0));
    case StartRefresh(r, texts) => RefreshStep(s, r, texts);
    case StartSweep(j, tries, limit) => SweepStep(s, j, tries, limit);
    case StartRestore(a, texts) =>
      var rec := s.db.archive[a].snapshot.(sourceId := s.db.archive[a].sourceId.value);
      InsertStep(s, Next(s, l), rec, Attempt(Restore, AtInsertChunks, rec.org, texts, map[], 0, 0, 0, a));
    case Call(r, effect, reply, now) =>
      if effect && s.attempts[r].at == AtUndoRecord { UndoRecordStep(s, r, reply, now); }
      else { CallStep(s, r, effect, reply, now); }
    case Update(r, org, body, now) => UpdateStep(s, r, org, body, now);
    case Claim(ids, now) => ClaimStep(s, ids, now);
    case Archive(r, org, run, reason, planTime, now) => ArchiveStep(s, r, org, run, reason, planTime, now);
    case CleanDelete(rows, org, effect, ok) => CleanDeleteStep(s, rows, org, effect, ok);
    case Mark(a, status, now) => MarkStep(s, a, status, now);
    case ClaimCleanup(rows, now) => ClaimCleanupStep(s, rows, now);
  }

  lemma UpdateStep(s: State, r: nat, org: string, body: Body, now: int)
    requires Inv(s)
    ensures Inv(Next(s, Update(r, org, body, now)))
  {
    UpdateRecordSound(s.db, r, org, body, now, s.cleaned);
    UpdateRecordSlices(s.db, r, org, body, now);
    var s' := Next(s, Update(r, org, body, now));
    hide Sound, SliceOf;
    LiveStayOk(s, s');
  }

  lemma MarkStep(s: State, a: nat, status: RowStatus, now: int)
    requires Inv(s) && Enabled(s, Mark(a, status, now))
    ensures Inv(Next(s, Mark(a, status, now)))
  {
    var s' := Next(s, Mark(a, status, now));
    if status.RowDeleted? { assert Gone(s.db, a); }
    PendingRowsHaveRetry(s.db, s.cleaned);
    hide Sound;
    RowEditSound(s.db, s'.db, s.cleaned);
    hide Inv;
    RowStep(s, s');
  }

  lemma ClaimCleanupStep(s: State, rows: set<nat>, now: int)
    requires Inv(s) && Enabled(s, ClaimCleanup(rows, now))
    ensures Inv(Next(s, ClaimCleanup(rows, now)))
  {
    var s' := Next(s, ClaimCleanup(rows, now));
    PendingRowsHaveRetry(s.db, s.cleaned);
    hide Sound;
    RowEditSound(s.db, s'.db, s.cleaned);
    hide Inv;
    RowStep(s, s');
  }
}
