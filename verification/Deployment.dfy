/**
  The two stores as one mutable object, and the calls the write paths make on them.

  Every call may answer, report an error or be cut off by a crash, and an error or a crash may come after the call took
  effect. Beside the real tables the object carries the machine's state and the log of its steps; Valid says that the
  tables are what a legal run of the machine has made of them. Two counters tell how many calls went wrong, and how many
  of those had an effect all the same.
*/
module Deployment {
  import opened Common
  import opened Backoff
  import opened Store
  import opened Protocol
  import opened Slices
  import opened LocalInvariant
  import opened TableInvariant
  import opened ProtocolInvariant
  import opened Guarantees

  // Nobody else's attempt is opened, moved or closed.
  ghost predicate Focus(s: State, s': State, r: nat) {
    forall q :: q != r ==> AttemptOn(s', q) == AttemptOn(s, q)
  }

  // Sweeps move jobs and points, never rows in or out of the record and job tables.
  ghost predicate SameRows(d: Db, d': Db) {
    && d'.records == d.records && d'.jobs.Keys == d.jobs.Keys
    && forall j :: j in d.jobs ==> d'.jobs[j].record == d.jobs[j].record && d'.jobs[j].org == d.jobs[j].org
  }

  lemma SweepPhases(v: Slice, r: nat, a: Attempt)
    requires PhaseFacts(v, r, a) && a.kind == Sweep
    ensures a.at in {AtNoChunks, AtEmbed, AtDeleteOld, AtUpsert, AtLink, AtMarkDone, AtRearm}
            || a.at in {AtClose, AtUnlink, AtUndoPoints, AtMarkAhead, AtMarkUnarchived}
  {
    hide Synced, HoldsChunks, PointsFor;
  }

  lemma SweepEffectRows(d: Db, r: nat, a: Attempt, now: int)
    requires a.at !in {AtCreateJob, AtInsertChunks, AtReplace, AtUndoRecord}
    ensures SameRows(d, Effect(d, r, a, now))
  {
    hide PointsFor, LinksFor, NextRetryDelayMs, LinkPoints, UpsertPoints, DeleteByRecord, DeletePoints, MarkJobPending,
      MarkJobCompleted, MarkJobFailed, CloseJob, SameRows;
    SameRowsOf(d);
    SameRowsMarked(d);
  }

  lemma SameRowsOf(d: Db)
    ensures SameRows(d, d)
    ensures forall links :: SameRows(d, LinkPoints(d, links))
    ensures forall points :: SameRows(d, UpsertPoints(d, points))
    ensures forall r, org :: SameRows(d, DeleteByRecord(d, r, org))
    ensures forall ids, org :: SameRows(d, DeletePoints(d, ids, org))
    ensures forall a, now :: SameRows(d, MarkUnarchived(d, a, now))
  {
  }

  lemma SameRowsMarked(d: Db)
    ensures forall j, n, t :: SameRows(d, MarkJobPending(d, j, n, t))
    ensures forall j :: SameRows(d, MarkJobCompleted(d, j)) && SameRows(d, CloseJob(d, j))
    ensures forall j, n :: SameRows(d, MarkJobFailed(d, j, n))
  {
  }

  lemma SweepCallRows(s: State, r: nat, effect: bool, reply: Reply, now: int)
    requires Inv(s) && r in s.attempts && s.attempts[r].kind == Sweep
    ensures SameRows(s.db, AfterCall(s, r, effect, reply, now).db)
  {
    hide Sound, SliceOf, PhaseFacts, Effect, SameRows, PhaseSafe;
    var a := s.attempts[r];
    assert RecordOk(s, r);
    SweepPhases(SliceOf(s.db, r), r, a);
    SweepEffectRows(s.db, r, a, now);
    SameRowsRefl(s.db);
  }

  lemma SameRowsRefl(d: Db)
    ensures SameRows(d, d)
  {
  }

  lemma SameRowsTrans(d: Db, d1: Db, d2: Db)
    requires SameRows(d, d1) && SameRows(d1, d2)
    ensures SameRows(d, d2)
  {
  }

  lemma CallFocus(s: State, r: nat, effect: bool, reply: Reply, now: int)
    requires r in s.attempts
    ensures Focus(s, AfterCall(s, r, effect, reply, now), r)
    ensures AttemptOn(AfterCall(s, r, effect, reply, now), r)
         == After(s.attempts[r], reply, s.db.nextChunk, s.db.nextJob)
    ensures s.attempts[r].at != AtUndoRecord ==> AfterCall(s, r, effect, reply, now).db.records == s.db.records
  {
    hide After, Settles, Loses, Effect;
    if s.attempts[r].at != AtUndoRecord { EffectKeepsRecords(s.db, r, s.attempts[r], now); }
  }

  lemma EffectKeepsRecords(d: Db, r: nat, a: Attempt, now: int)
    requires a.at != AtUndoRecord
    ensures Effect(d, r, a, now).records == d.records
  {
    hide PointsFor, LinksFor, NewChunks, NextRetryDelayMs;
  }

  function ChunksOfOthers(chunks: map<nat, Chunk>, r: nat): map<nat, Chunk> {
    map c | c in chunks && chunks[c].record != r :: chunks[c]
  }

  // The rows of the texts have come, numbered and in order, under the ids from .. from + |texts| - 1.
  ghost predicate RowsAdded(
    chunks: map<nat, Chunk>, chunks': map<nat, Chunk>, from: nat, r: nat, texts: seq<string>)
  {
    && (forall c :: c in chunks' <==> c in chunks || from <= c < from + |texts|)
    && forall c :: c in chunks' ==>
         chunks'[c] == if from <= c < from + |texts| then Chunk(r, c - from, texts[c - from], None) else chunks[c]
  }

  // The texts of these rows, by id.
  ghost predicate TextsById(loaded: map<nat, string>, from: nat, texts: seq<string>) {
    && (forall c :: c in loaded <==> from <= c < from + |texts|)
    && forall c :: c in loaded ==> loaded[c] == texts[c - from]
  }

  lemma NewRowsAdded(chunks: map<nat, Chunk>, from: nat, r: nat, texts: seq<string>)
    ensures RowsAdded(chunks, chunks + NewChunks(from, r, texts), from, r, texts)
    ensures TextsById(NewTexts(from, texts), from, texts)
  {
  }

  // The rows a claim may take, under what its ORDER BY sorts them by.
  function DueJobs(jobs: map<nat, Job>, now: int, locked: set<nat>): map<nat, (int, int)> {
    map j | j in jobs && JobDue(jobs[j], now) && j !in locked :: (jobs[j].retryAt.value, 0)
  }

  function DueRows(archive: map<nat, ArchiveRow>, now: int, locked: set<nat>): map<nat, (int, int)> {
    map a | a in archive && RowDue(archive[a], now) && a !in locked :: (archive[a].retryAt.value, archive[a].archivedAt)
  }

  function Elements(ids: seq<nat>): set<nat> {
    set a | a in ids
  }

  lemma ElementsAre(ids: seq<nat>)
    ensures forall a :: a in Elements(ids) <==> a in ids
    ensures ids == [] ==> Elements(ids) == {}
  {
  }

  lemma OneMoreElement(ids: seq<nat>, a: nat)
    ensures Elements(ids + [a]) == Elements(ids) + {a}
    ensures a !in Elements(ids) ==> a !in ids
  {
  }

  predicate NotAfter(x: (int, int), y: (int, int)) {
    x.0 < y.0 || (x.0 == y.0 && x.1 <= y.1)
  }

  // ORDER BY ... LIMIT: as many as the limit allows, none of them after one that was left.
  ghost predicate Earliest(due: map<nat, (int, int)>, chosen: set<nat>, limit: nat) {
    && chosen <= due.Keys && |chosen| <= limit && (|chosen| < limit ==> chosen == due.Keys)
    && forall a, b :: a in chosen && b in due && b !in chosen ==> NotAfter(due[a], due[b])
  }

  lemma {:induction false} SomeIsEarliest(due: map<nat, (int, int)>, rest: set<nat>)
    requires rest <= due.Keys && rest != {}
    ensures exists a :: a in rest && forall b :: b in rest ==> NotAfter(due[a], due[b])
    decreases rest
  {
    var c :| c in rest;
    if rest != {c} {
      SomeIsEarliest(due, rest - {c});
      var a :| a in rest - {c} && forall b :: b in rest - {c} ==> NotAfter(due[a], due[b]);
      var first := if NotAfter(due[a], due[c]) then a else c;
      assert forall b :: b in rest ==> b == c || b in rest - {c};
      assert first in rest && forall b :: b in rest ==> NotAfter(due[first], due[b]);
    } else {
      assert forall b :: b in rest ==> b == c;
    }
  }

  lemma TakeNext(due: map<nat, (int, int)>, taken: set<nat>, a: nat)
    requires Earliest(due, taken, |taken|) && a in due.Keys - taken
    requires forall b :: b in due.Keys - taken ==> NotAfter(due[a], due[b])
    ensures |taken + {a}| == |taken| + 1 && Earliest(due, taken + {a}, |taken| + 1)
  {
    hide NotAfter;
    forall c, b | c in taken + {a} && b in due && b !in taken + {a} ensures NotAfter(due[c], due[b]) {
      assert b in due.Keys - taken;
    }
  }

  lemma AllTaken(due: map<nat, (int, int)>, taken: set<nat>, limit: nat)
    requires Earliest(due, taken, |taken|) && |taken| <= limit && (due.Keys - taken == {} || |taken| == limit)
    ensures Earliest(due, taken, limit)
  {
    forall a | a in due.Keys && due.Keys - taken == {} ensures a in taken {
      assert a !in due.Keys - taken;
    }
  }

  method EarliestOf(due: map<nat, (int, int)>, limit: nat) returns (chosen: seq<nat>)
    ensures Earliest(due, Elements(chosen), limit)
    ensures |chosen| <= limit && forall a :: a in chosen ==> a in due
    ensures forall i, k :: 0 <= i < k < |chosen| ==> chosen[i] != chosen[k]
  {
    hide NotAfter, Elements;
    chosen := [];
    ElementsAre(chosen);
    var rest := due.Keys;
    while rest != {} && |chosen| < limit
      invariant rest == due.Keys - Elements(chosen) && |Elements(chosen)| == |chosen| <= limit
      invariant Earliest(due, Elements(chosen), |chosen|)
      invariant forall i, k :: 0 <= i < k < |chosen| ==> chosen[i] != chosen[k]
      decreases rest
    {
      hide Earliest;
      SomeIsEarliest(due, rest);
      var a :| a in rest && forall b :: b in rest ==> NotAfter(due[a], due[b]);
      TakeNext(due, Elements(chosen), a);
      OneMoreElement(chosen, a);
      rest, chosen := rest - {a}, chosen + [a];
    }
    ElementsAre(chosen);
    AllTaken(due, Elements(chosen), limit);
  }

  lemma JobsClaimed(s: State, ids: set<nat>, now: int)
    requires forall j :: j in ids ==> j in s.db.jobs && JobDue(s.db.jobs[j], now)
    ensures Enabled(s, Claim(ids, now)) && Next(s, Claim(ids, now)) == s.(db := ClaimJobs(s.db, ids, now))
  {
  }

  lemma CleanupClaimed(s: State, ids: set<nat>, now: int)
    requires forall a :: a in ids ==> a in s.db.archive && RowDue(s.db.archive[a], now)
    ensures Enabled(s, ClaimCleanup(ids, now)) && Next(s, ClaimCleanup(ids, now)) == s.(db := ClaimRows(s.db, ids, now))
  {
  }

  lemma RowMarked(s: State, a: nat, status: RowStatus, now: int)
    requires a in s.db.archive && (status.RowDeleted? ==> a in s.cleaned || s.db.archive[a].points == {})
    ensures Enabled(s, Mark(a, status, now)) && Next(s, Mark(a, status, now)) == s.(db := MarkRow(s.db, a, status, now))
  {
  }

  lemma RecordArchived(s: State, r: nat, org: string, run: nat, reason: Reason, planTime: int, now: int)
    requires r !in s.attempts
    ensures var l := Archive(r, org, run, reason, planTime, now);
            Enabled(s, l) && Next(s, l) == s.(db := ArchiveRecord(s.db, r, org, run, reason, planTime, now))
  {
  }

  lemma PointsCleaned(s: State, rows: set<nat>, org: string)
    requires forall a :: a in rows ==> a in s.db.archive && s.db.archive[a].snapshot.org == org
    ensures forall effect, ok :: (ok ==> effect) ==>
      var l := CleanDelete(rows, org, effect, ok);
      && Enabled(s, l)
      && Next(s, l).db == if effect then DeletePoints(s.db, PointsOfRows(s.db, rows), Some(org)) else s.db
  {
  }

  lemma DueJobsAreDue(jobs: map<nat, Job>, now: int, locked: set<nat>)
    ensures forall j :: j in DueJobs(jobs, now, locked) ==> j in jobs && JobDue(jobs[j], now)
  {
  }

  lemma DueRowsAreDue(archive: map<nat, ArchiveRow>, now: int, locked: set<nat>)
    ensures forall a :: a in DueRows(archive, now, locked) ==> a in archive && RowDue(archive[a], now)
  {
  }

  // The point an attempt of that kind puts in the index for one of its rows.
  predicate UpsertedBy(kind: Kind, r: nat, loaded: map<nat, string>, p: PointId) {
    p.chunk in loaded && p == if kind == Restore then RestoredPoint(r, p.chunk) else ChunkPoint(p.chunk)
  }

  // The chunks with the points of the loaded ones recorded.
  function PointsRecorded(chunks: map<nat, Chunk>, kind: Kind, r: nat, loaded: map<nat, string>): map<nat, Chunk> {
    map c | c in chunks ::
      if c in loaded then chunks[c].(point := Some(if kind == Restore then RestoredPoint(r, c) else ChunkPoint(c))) else chunks[c]
  }

  lemma UpsertedAre(kind: Kind, r: nat, org: string, loaded: map<nat, string>)
    ensures forall p :: p in PointsFor(kind, r, org, loaded) <==> UpsertedBy(kind, r, loaded, p)
    ensures forall p :: p in PointsFor(kind, r, org, loaded) ==>
      PointsFor(kind, r, org, loaded)[p] == Point(r, org, loaded[p.chunk])
  {
  }

  // The jobs with those columns of one of them set, if it is there.
  function JobSet(jobs: map<nat, Job>, j: nat, status: JobStatus, attempts: nat, retryAt: Option<int>): map<nat, Job> {
    if j in jobs then jobs[j := jobs[j].(status := status, attempts := attempts, retryAt := retryAt)] else jobs
  }

  /** The jobs a claim takes: due ones nobody has locked, all of them below the limit, and none before an earlier one. */
  lemma EarliestJobsAre(jobs: map<nat, Job>, now: int, locked: set<nat>, ids: set<nat>, limit: nat, j: nat, k: nat)
    requires Earliest(DueJobs(jobs, now, locked), ids, limit) && j in ids
    ensures j in jobs && j !in locked && jobs[j].status.JobPending? && jobs[j].retryAt.Some? && jobs[j].retryAt.value <= now
    ensures k in jobs && k !in locked && k !in ids
            && jobs[k].status.JobPending? && jobs[k].retryAt.Some? && jobs[k].retryAt.value <= now ==>
              |ids| == limit && jobs[j].retryAt.value <= jobs[k].retryAt.value
  {
    var due := DueJobs(jobs, now, locked);
    assert j in due;
    assert k in due <==> k in jobs && JobDue(jobs[k], now) && k !in locked;
  }

  /** The rows a cleanup claim takes, likewise: past their grace period, with points, by retry time and then by age. */
  lemma EarliestRowsAre(
    archive: map<nat, ArchiveRow>, now: int, locked: set<nat>, ids: set<nat>, limit: nat, a: nat, b: nat)
    requires Earliest(DueRows(archive, now, locked), ids, limit) && a in ids
    ensures a in archive && a !in locked && archive[a].status.RowPending? && archive[a].points != {}
    ensures archive[a].retryAt.Some? && archive[a].retryAt.value <= now && archive[a].archivedAt < now - 60_000
    ensures b in archive && b !in locked && b !in ids && archive[b].status.RowPending? && archive[b].points != {}
            && archive[b].retryAt.Some? && archive[b].retryAt.value <= now && archive[b].archivedAt < now - 60_000 ==>
              && |ids| == limit && archive[a].retryAt.value <= archive[b].retryAt.value
              && (archive[a].retryAt == archive[b].retryAt ==> archive[a].archivedAt <= archive[b].archivedAt)
  {
    var due := DueRows(archive, now, locked);
    assert a in due;
    assert b in due <==> b in archive && RowDue(archive[b], now) && b !in locked;
  }

  // The calls of a compaction, as far as it matters which of them went wrong.
  datatype Operation = CreatingRun | ArchivingRecord | MarkingRow | CompletingRun | OtherCall

  // A call that did not answer, and whether it had taken effect.
  datatype CallFault = CallFault(op: Operation, effect: bool)

  // A mark of an archive row whose call did not answer.
  datatype MissedMark = MissedMark(row: nat, status: RowStatus, effect: bool)

  class Stores {
    var records: map<nat, Record>
    var chunks: map<nat, Chunk>
    var jobs: map<nat, Job>
    var archive: map<nat, ArchiveRow>
    var index: map<PointId, Point>
    var nextRecord: nat
    var nextChunk: nat
    var nextJob: nat
    var nextArchive: nat
    ghost var machine: State
    ghost var log: seq<Label>
    // How many calls have reported an error or died so far, and how many of those had taken effect all the same.
    ghost var faults: nat
    ghost var hidden: nat
    ghost var lastFault: CallFault
    ghost var missed: seq<MissedMark>

    ghost function Tables(): Db
      reads `records, `chunks, `jobs, `archive, `index, `nextRecord, `nextChunk, `nextJob, `nextArchive
    {
      Db(records, chunks, jobs, archive, index, nextRecord, nextChunk, nextJob, nextArchive)
    }

    ghost predicate Tracks()
      reads `machine, `log
    {
      Legal(EMPTY, log) && machine == Run(EMPTY, log) && Inv(machine)
    }

    ghost predicate Valid()
      reads `records, `chunks, `jobs, `archive, `index, `nextRecord, `nextChunk, `nextJob, `nextArchive, `machine, `log
    {
      Tracks() && machine.db == Tables()
    }

    constructor ()
      ensures Valid() && machine == EMPTY
    {
      records, chunks, jobs, archive, index := map[], map[], map[], map[], map[];
      nextRecord, nextChunk, nextJob, nextArchive := 1, 1, 1, 1;
      machine, log, faults, hidden, lastFault, missed := EMPTY, [], 0, 0, CallFault(OtherCall, false), [];
    }

    // One call more, which took effect or not and answered or not.
    twostate predicate Answered(effect: bool, reply: Reply)
      reads `faults, `hidden
    {
      && faults == old(faults) + (if reply.Ok? then 0 else 1)
      && hidden == old(hidden) + (if effect && !reply.Ok? then 1 else 0)
    }

    // Some calls more, all of which answered if and only if ok.
    twostate predicate AllAnswered(ok: bool)
      reads `faults, `hidden
    {
      old(faults) <= faults && old(hidden) <= hidden && (ok <==> faults == old(faults))
    }

    // No record and no job has been inserted, not even one that is gone again.
    twostate predicate NoNewIds()
      reads `nextRecord, `nextJob
    {
      nextRecord == old(nextRecord) && nextJob == old(nextJob)
    }

    // What becomes of a call: it answers, which means that it took effect, or it is counted as a fault.
    method Fault(ghost op: Operation := OtherCall) returns (effect: bool, reply: Reply)
      modifies `faults, `hidden, `lastFault
      ensures (reply.Ok? ==> effect) && Answered(effect, reply)
      ensures lastFault == if reply.Ok? then old(lastFault) else CallFault(op, effect)
    {
      effect := *;
      reply := *;
      if !effect && reply.Ok? { reply := Error; }
      if !reply.Ok? {
        faults := faults + 1;
        if effect { hidden := hidden + 1; }
        lastFault := CallFault(op, effect);
      }
    }

    ghost method Took(l: Label)
      requires Tracks() && Enabled(machine, l) && Next(machine, l).db == Tables()
      modifies `machine, `log
      ensures Valid() && machine == Next(old(machine), l) && log == old(log) + [l]
    {
      hide Inv;
      StepKeepsInv(machine, l);
      RunAppends(EMPTY, log, l);
      machine, log := Next(machine, l), log + [l];
    }

    ghost method TookCall(r: nat, effect: bool, reply: Reply, now: int)
      requires Tracks() && r in machine.attempts && (reply.Ok? ==> effect)
      requires Tables() == if effect then Effect(machine.db, r, machine.attempts[r], now) else machine.db
      modifies `machine, `log
      ensures Valid() && machine == AfterCall(old(machine), r, effect, reply, now)
      ensures log == old(log) + [Call(r, effect, reply, now)]
      ensures Focus(old(machine), machine, r)
      ensures AttemptOn(machine, r)
           == After(old(machine.attempts[r]), reply, old(machine.db.nextChunk), old(machine.db.nextJob))
      ensures old(machine.attempts[r].kind) == Sweep ==> SameRows(old(machine.db), machine.db)
      ensures old(machine.attempts[r].at) != AtUndoRecord ==> machine.db.records == old(machine.db.records)
    {
      hide Inv, Legal, Run, Effect, SameRows, After, Settles, Loses;
      CallFocus(machine, r, effect, reply, now);
      if machine.attempts[r].kind == Sweep { SweepCallRows(machine, r, effect, reply, now); }
      Took(Call(r, effect, reply, now));
    }

    // What one call of record r's attempt leaves behind; the log's last label says whether it took effect.
    twostate predicate Called(r: nat, at: Phase, reply: Reply, now: int)
      reads this
    {
      && Valid()
      && old(r in machine.attempts && machine.attempts[r].at == at)
      && |log| == |old(log)| + 1
      && log[|old(log)|].Call?
      && var effect := log[|old(log)|].effect;
         && (reply.Ok? ==> effect) && Answered(effect, reply)
         && machine == AfterCall(old(machine), r, effect, reply, now)
         && log == old(log) + [Call(r, effect, reply, now)]
         && Focus(old(machine), machine, r)
         && AttemptOn(machine, r)
            == After(old(machine.attempts[r]), reply, old(machine.db.nextChunk), old(machine.db.nextJob))
         && (old(machine.attempts[r].kind) == Sweep ==> SameRows(old(machine.db), machine.db))
         && (at != AtUndoRecord ==> machine.db.records == old(machine.db.records))
         && (at !in {AtCreateJob, AtReplace} ==> NoNewIds()) && nextRecord == old(nextRecord)
    }

    ghost predicate Standing(r: nat, at: Phase)
      reads this
    {
      Valid() && r in machine.attempts && machine.attempts[r].at == at
    }

    method CreateIngestJob(r: nat, org: string, now: int) returns (reply: Reply, job: nat)
      requires Standing(r, AtCreateJob) && machine.attempts[r].org == org
      modifies this
      ensures Called(r, AtCreateJob, reply, now) && job == old(machine.db.nextJob)
      ensures jobs == if log[|old(log)|].effect then old(jobs)[job := Job(r, org, JobPending, 0, None, false)] else old(jobs)
      ensures nextJob == old(nextJob) + if log[|old(log)|].effect then 1 else 0
    {
      hide Inv, Legal, Run, AfterCall, After, SameRows, Next, Enabled, Focus;
      var e;
      e, reply := Fault();
      job := nextJob;
      if e {
        jobs, nextJob := jobs[nextJob := Job(r, org, JobPending, 0, None, false)], nextJob + 1;
      }
      TookCall(r, e, reply, now);
    }

    method InsertChunkRows(r: nat, texts: seq<string>, now: int)
      returns (reply: Reply, loaded: map<nat, string>)
      requires Standing(r, AtInsertChunks) && machine.attempts[r].texts == texts
      modifies this
      ensures Called(r, AtInsertChunks, reply, now)
      ensures loaded == NewTexts(old(machine.db.nextChunk), texts) && TextsById(loaded, old(nextChunk), texts)
      ensures if log[|old(log)|].effect then RowsAdded(old(chunks), chunks, old(nextChunk), r, texts) else chunks == old(chunks)
    {
      hide Inv, Legal, Run, AfterCall, After, SameRows, Next, Enabled, Focus, NewChunks, NewTexts, RowsAdded, TextsById;
      NewRowsAdded(chunks, nextChunk, r, texts);
      var e;
      e, reply := Fault();
      loaded := NewTexts(nextChunk, texts);
      if e {
        chunks, nextChunk := chunks + NewChunks(nextChunk, r, texts), nextChunk + |texts|;
      }
      TookCall(r, e, reply, now);
    }

    // The transaction of replaceChunksForRecordWithPendingIngest.
    method ReplaceChunkRows(r: nat, org: string, texts: seq<string>, now: int)
      returns (reply: Reply, job: nat, loaded: map<nat, string>)
      requires Standing(r, AtReplace) && machine.attempts[r].texts == texts && machine.attempts[r].org == org
      modifies this
      ensures Called(r, AtReplace, reply, now)
      ensures job == old(machine.db.nextJob)
      ensures loaded == NewTexts(old(machine.db.nextChunk), texts) && TextsById(loaded, old(nextChunk), texts)
      ensures if log[|old(log)|].effect
              then
                && RowsAdded(ChunksOfOthers(old(chunks), r), chunks, old(nextChunk), r, texts)
                && jobs == old(jobs)[job := Job(r, org, JobPending, 0, Some(now + BASE_MS), false)]
              else chunks == old(chunks) && jobs == old(jobs)
    {
      hide Inv, Legal, Run, AfterCall, After, SameRows, Next, Enabled, Focus, ReplaceChunks, NextRetryDelayMs, RowsAdded,
        TextsById, NewTexts;
      NewRowsAdded(chunks, nextChunk, r, texts);
      DelaysAre(0);
      var e;
      e, reply := Fault();
      job, loaded := nextJob, NewTexts(nextChunk, texts);
      if e { ReplaceStatements(r, org, texts, now + NextRetryDelayMs(0)); }
      hide NewTexts;
      TookCall(r, e, reply, now);
    }

    method ReplaceStatements(r: nat, org: string, texts: seq<string>, retryAt: int)
      modifies `chunks, `nextChunk, `jobs, `nextJob
      ensures Tables() == ReplaceChunks(old(Tables()), r, org, texts, retryAt)
      ensures RowsAdded(ChunksOfOthers(old(chunks), r), chunks, old(nextChunk), r, texts)
      ensures jobs == old(jobs)[old(nextJob) := Job(r, org, JobPending, 0, Some(retryAt), false)]
    {
      hide RowsAdded, NewChunks;
      NewRowsAdded(ChunksOfOthers(chunks, r), nextChunk, r, texts);
      chunks := map c | c in chunks && chunks[c].record != r :: chunks[c];
      chunks := chunks + NewChunks(nextChunk, r, texts);
      nextChunk := nextChunk + |texts|;
      jobs, nextJob := jobs[nextJob := Job(r, org, JobPending, 0, Some(retryAt), false)], nextJob + 1;
    }

    // embedBatch touches neither store.
    method EmbedBatch(r: nat, now: int) returns (reply: Reply)
      requires Standing(r, AtEmbed)
      modifies this
      ensures Called(r, AtEmbed, reply, now)
    {
      hide Inv, Legal, Run, AfterCall, After, SameRows, Next, Enabled, Focus;
      var e;
      e, reply := Fault();
      TookCall(r, e, reply, now);
    }

    method SetJobPending(j: nat, attempts: nat, retryAt: int)
      modifies `jobs
      ensures Tables() == MarkJobPending(old(Tables()), j, attempts, retryAt)
      ensures jobs == JobSet(old(jobs), j, JobPending, attempts, Some(retryAt))
    {
      if j in jobs {
        jobs := jobs[j := jobs[j].(status := JobPending, attempts := attempts, retryAt := Some(retryAt))];
      }
    }

    method SetJobFailed(j: nat, attempts: nat)
      modifies `jobs
      ensures Tables() == MarkJobFailed(old(Tables()), j, attempts)
      ensures jobs == JobSet(old(jobs), j, JobFailed, attempts, None)
    {
      if j in jobs { jobs := jobs[j := jobs[j].(status := JobFailed, attempts := attempts, retryAt := None)]; }
    }

    method MarkQdrantAhead(r: nat, job: nat, now: int) returns (reply: Reply)
      requires Standing(r, AtMarkAhead) && machine.attempts[r].job == job
      modifies this
      ensures Called(r, AtMarkAhead, reply, now)
      ensures jobs == if log[|old(log)|].effect then JobSet(old(jobs), job, JobPending, 0, Some(now + 1_000)) else old(jobs)
    {
      hide Inv, Legal, Run, AfterCall, After, SameRows, Next, Enabled, Focus, NextRetryDelayMs, JobSet;
      DelaysAre(0);
      var e;
      e, reply := Fault();
      if e { SetJobPending(job, 0, now + NextRetryDelayMs(0)); }
      TookCall(r, e, reply, now);
    }

    // markQdrantCompleted, at the end of an attempt or for a job without chunks.
    method MarkQdrantCompleted(r: nat, job: nat, ghost at: Phase, now: int) returns (reply: Reply)
      requires Standing(r, at) && at in {AtMarkDone, AtNoChunks} && machine.attempts[r].job == job
      modifies this
      ensures Called(r, at, reply, now)
      ensures jobs == if log[|old(log)|].effect && job in old(jobs)
                      then old(jobs)[job := old(jobs)[job].(status := JobCompleted, retryAt := None)] else old(jobs)
    {
      hide Inv, Legal, Run, AfterCall, After, SameRows, Next, Enabled, Focus;
      var e;
      e, reply := Fault();
      if e && job in jobs {
        jobs := jobs[job := jobs[job].(status := JobCompleted, retryAt := None)];
      }
      TookCall(r, e, reply, now);
    }

    method MarkCompleted(r: nat, job: nat, now: int) returns (reply: Reply)
      requires Standing(r, AtClose) && machine.attempts[r].job == job
      modifies this
      ensures Called(r, AtClose, reply, now)
      ensures jobs == if log[|old(log)|].effect && job in old(jobs)
                      then old(jobs)[job := old(jobs)[job].(closed := true)] else old(jobs)
    {
      hide Inv, Legal, Run, AfterCall, After, SameRows, Next, Enabled, Focus;
      var e;
      e, reply := Fault();
      if e && job in jobs { jobs := jobs[job := jobs[job].(closed := true)]; }
      TookCall(r, e, reply, now);
    }

    // The sweeper's bookkeeping after a failure: give up at the limit, otherwise reschedule.
    method RecordSweepFailure(r: nat, job: nat, tries: nat, limit: nat, now: int) returns (reply: Reply)
      requires Standing(r, AtRearm) && machine.attempts[r].kind == Sweep && machine.attempts[r].job == job
      requires machine.attempts[r].tries == tries && machine.attempts[r].limit == limit
      modifies this
      ensures Called(r, AtRearm, reply, now)
      ensures jobs == if !log[|old(log)|].effect then old(jobs)
                      else if limit <= tries + 1 then JobSet(old(jobs), job, JobFailed, tries + 1, None)
                      else JobSet(old(jobs), job, JobPending, tries + 1, Some(now + NextRetryDelayMs(tries + 1)))
    {
      hide Inv, Legal, Run, AfterCall, After, SameRows, Next, Enabled, Focus, NextRetryDelayMs, JobSet, MarkJobPending,
        MarkJobFailed;
      var e;
      e, reply := Fault();
      if e {
        if tries + 1 >= limit {
          SetJobFailed(job, tries + 1);
        } else {
          SetJobPending(job, tries + 1, now + NextRetryDelayMs(tries + 1));
        }
      }
      TookCall(r, e, reply, now);
    }

    method RescheduleRefresh(r: nat, job: nat, now: int) returns (reply: Reply)
      requires Standing(r, AtRearm) && machine.attempts[r].kind == Refresh && machine.attempts[r].job == job
      requires machine.attempts[r].tries == 0
      modifies this
      ensures Called(r, AtRearm, reply, now)
      ensures jobs == if log[|old(log)|].effect then JobSet(old(jobs), job, JobPending, 0, Some(now + 1_000)) else old(jobs)
    {
      hide Inv, Legal, Run, AfterCall, After, SameRows, Next, Enabled, Focus, NextRetryDelayMs, JobSet;
      DelaysAre(0);
      var e;
      e, reply := Fault();
      if e { SetJobPending(job, 0, now + NextRetryDelayMs(0)); }
      TookCall(r, e, reply, now);
    }

    method DeletePointsOfRecord(r: nat, org: string, now: int) returns (reply: Reply)
      requires Standing(r, AtDeleteOld) && machine.attempts[r].org == org
      modifies this
      ensures Called(r, AtDeleteOld, reply, now)
      ensures index == if !log[|old(log)|].effect then old(index)
                       else map p | p in old(index) && !(old(index)[p].record == r && old(index)[p].org == org) :: old(index)[p]
    {
      hide Inv, Legal, Run, AfterCall, After, SameRows, Next, Enabled, Focus;
      var e;
      e, reply := Fault();
      if e { index := map p | p in index && !(index[p].record == r && index[p].org == org) :: index[p]; }
      TookCall(r, e, reply, now);
    }

    method Upsert(kind: Kind, r: nat, org: string, loaded: map<nat, string>, now: int)
      returns (reply: Reply)
      requires Standing(r, AtUpsert) && machine.attempts[r].org == org && machine.attempts[r].loaded == loaded
      requires machine.attempts[r].kind == kind
      modifies this
      ensures Called(r, AtUpsert, reply, now)
      ensures forall p :: p in index <==> p in old(index) || (log[|old(log)|].effect && UpsertedBy(kind, r, loaded, p))
      ensures forall p :: p in index ==>
        index[p] == if log[|old(log)|].effect && UpsertedBy(kind, r, loaded, p) then Point(r, org, loaded[p.chunk]) else old(index)[p]
    {
      hide Inv, Legal, Run, AfterCall, After, SameRows, Next, Enabled, Focus, PointsFor, UpsertedBy;
      UpsertedAre(kind, r, org, loaded);
      var e;
      e, reply := Fault();
      if e { index := index + PointsFor(kind, r, org, loaded); }
      TookCall(r, e, reply, now);
    }

    method RecordPoints(kind: Kind, r: nat, loaded: map<nat, string>)
      modifies `chunks
      ensures Tables() == LinkPoints(old(Tables()), LinksFor(kind, r, loaded))
      ensures chunks == PointsRecorded(old(chunks), kind, r, loaded)
    {
      var links := LinksFor(kind, r, loaded);
      chunks := map c | c in chunks :: if c in links then chunks[c].(point := Some(links[c])) else chunks[c];
    }

    method UpdatePointIds(kind: Kind, r: nat, loaded: map<nat, string>, now: int)
      returns (reply: Reply)
      requires Standing(r, AtLink) && machine.attempts[r].loaded == loaded && machine.attempts[r].kind == kind
      modifies this
      ensures Called(r, AtLink, reply, now)
      ensures chunks == if log[|old(log)|].effect then PointsRecorded(old(chunks), kind, r, loaded) else old(chunks)
    {
      hide Inv, Legal, Run, AfterCall, After, SameRows, Next, Enabled, Focus, LinksFor, LinkPoints;
      var e;
      e, reply := Fault();
      if e { RecordPoints(kind, r, loaded); }
      TookCall(r, e, reply, now);
    }

    method RemovePoints(ids: set<PointId>, org: Option<string>)
      modifies `index
      ensures Tables() == DeletePoints(old(Tables()), ids, org)
      ensures index == map p | p in old(index) && !(p in ids && (org.None? || old(index)[p].org == org.value)) :: old(index)[p]
    {
      index := map p | p in index && !(p in ids && (org.None? || index[p].org == org.value)) :: index[p];
    }

    // Best-effort removal of the points an attempt has upserted; a write's goes by the ids alone.
    method DeleteUpserted(kind: Kind, r: nat, org: string, loaded: map<nat, string>, ghost at: Phase, now: int)
      returns (reply: Reply)
      requires Standing(r, at) && at in {AtUnlink, AtUndoPoints} && (at == AtUnlink ==> kind != Write)
      requires machine.attempts[r].kind == kind && machine.attempts[r].org == org
      requires machine.attempts[r].loaded == loaded
      modifies this
      ensures Called(r, at, reply, now)
      ensures forall p :: p in index <==>
        p in old(index)
        && !(log[|old(log)|].effect && UpsertedBy(kind, r, loaded, p) && (kind == Write || old(index)[p].org == org))
      ensures forall p :: p in index ==> index[p] == old(index)[p]
    {
      hide Inv, Legal, Run, AfterCall, After, SameRows, Next, Enabled, Focus, PointsFor, DeletePoints, UpsertedBy;
      var e;
      e, reply := Fault();
      var ids := PointsFor(kind, r, org, loaded).Keys;
      UpsertedAre(kind, r, org, loaded);
      if e { RemovePoints(ids, if kind == Write then None else Some(org)); }
      TookCall(r, e, reply, now);
    }

    // DELETE FROM memory_records with its cascades, as the last act of a rollback or a compensation.
    method DeleteRecordRow(r: nat, org: string, now: int) returns (reply: Reply)
      requires Standing(r, AtUndoRecord) && machine.attempts[r].org == org
      modifies this
      ensures Called(r, AtUndoRecord, reply, now) && (reply.Ok? ==> r !in records)
    {
      hide Inv, Legal, Run, AfterCall, After, SameRows, Next, Enabled, Focus;
      UndoneOrg(machine, r);
      var e;
      e, reply := Fault();
      if e && r in records && records[r].org == org { DropRow(r); }
      hide DropRecord;
      TookCall(r, e, reply, now);
    }

    method MarkRowUnarchived(r: nat, a: nat, now: int) returns (reply: Reply)
      requires Standing(r, AtMarkUnarchived) && machine.attempts[r].row == a
      modifies this
      ensures Called(r, AtMarkUnarchived, reply, now)
      ensures archive == if log[|old(log)|].effect && a in old(archive)
                         then old(archive)[a := old(archive)[a].(unarchivedAt := Some(now))] else old(archive)
    {
      hide Inv, Legal, Run, AfterCall, After, SameRows, Next, Enabled, Focus;
      var e;
      e, reply := Fault();
      if e && a in archive { archive := archive[a := archive[a].(unarchivedAt := Some(now))]; }
      TookCall(r, e, reply, now);
    }

    // A new record's attempt stays open only if the insert answered.
    ghost method Opened(l: Label, stays: bool, now: int)
      requires Tracks() && Enabled(machine, l) && (l.StartWrite? || l.StartRestore?)
      requires Next(machine, l).db == Tables() && machine.db.nextRecord !in machine.attempts
      modifies `machine, `log
      ensures Valid() && old(log) <= log && Focus(old(machine), machine, old(machine.db.nextRecord))
      ensures if stays then machine == Next(old(machine), l) else machine.attempts == old(machine.attempts)
    {
      hide Inv, Legal, Run, AfterCall, After, SameRows, InsertRecord, Enabled;
      Took(l);
      if !stays {
        CrashCloses(old(machine), l, old(machine.db.nextRecord), now);
        TookCall(old(machine.db.nextRecord), false, Crash, now);
      }
    }

    // addMemory: one transaction; the new record's attempt is open only if the call answered.
    method AddMemory(rec: Record, texts: seq<string>, now: int) returns (reply: Reply, r: nat)
      requires Valid()
      modifies this
      ensures Valid() && old(log) <= log && r == old(machine.db.nextRecord)
      ensures Focus(old(machine), machine, r) && AllAnswered(reply.Ok?)
      ensures reply.Ok? ==> r in records && records[r] == rec && nextRecord == r + 1
      ensures if reply.Ok?
              then Standing(r, AtCreateJob) && machine.attempts[r] == Attempt(Write, AtCreateJob, rec.org, texts, map[], 0, 0, 0, 0)
              else r !in machine.attempts
      ensures nextJob == old(nextJob)
      ensures !reply.Ok? && hidden == old(hidden) ==> Tables() == old(Tables())
    {
      hide Inv, Legal, Run, AfterCall, After, SameRows;
      var e;
      e, reply := Fault();
      r := nextRecord;
      NewIsUnattempted(machine);
      if e {
        records, nextRecord := records[nextRecord := rec], nextRecord + 1;
        Opened(StartWrite(rec, texts), reply.Ok?, now);
      }
    }

    method InsertRow(rec: Record)
      modifies `records, `nextRecord
      ensures Tables() == InsertRecord(old(Tables()), rec)
    {
      records, nextRecord := records[nextRecord := rec], nextRecord + 1;
    }

    // INSERT INTO memory_records from an archive row.
    method RestoreToCanonical(a: nat, row: ArchiveRow, texts: seq<string>, now: int)
      returns (reply: Reply, r: nat, ghost e: bool)
      requires Valid() && a in machine.db.archive && row.sourceId.Some?
      requires row.snapshot == machine.db.archive[a].snapshot && row.sourceId == machine.db.archive[a].sourceId
      modifies this
      ensures Valid() && old(log) <= log && r == old(machine.db.nextRecord)
      ensures Focus(old(machine), machine, r)
      ensures (reply.Ok? ==> e) && Answered(e, reply)
      ensures machine.db
           == if e then InsertRecord(old(machine.db), row.snapshot.(sourceId := row.sourceId.value)) else old(machine.db)
      ensures if reply.Ok?
              then Standing(r, AtInsertChunks)
                   && machine.attempts[r] == Attempt(Restore, AtInsertChunks, row.snapshot.org, texts, map[], 0, 0, 0, a)
              else r !in machine.attempts
    {
      hide Inv, Legal, Run, AfterCall, After, SameRows, InsertRecord;
      var inserted;
      inserted, reply := Fault();
      e := inserted;
      r := nextRecord;
      NewIsUnattempted(machine);
      if inserted {
        InsertRow(row.snapshot.(sourceId := row.sourceId.value));
        Opened(StartRestore(a, texts), reply.Ok?, now);
      }
    }

    // refreshCanonicalMemoryIndex starts on a live record nobody else is working on.
    ghost method BeginRefresh(r: nat, texts: seq<string>)
      requires Valid() && r in machine.db.records && r !in machine.attempts
      modifies `machine, `log
      ensures Valid() && old(log) <= log && Focus(old(machine), machine, r)
      ensures Standing(r, AtReplace)
      ensures machine.attempts[r]
           == Attempt(Refresh, AtReplace, machine.db.records[r].org, texts, map[], 0, 0, 0, 0)
      ensures machine.db == old(machine.db)
    {
      hide Inv, Legal, Run;
      Took(StartRefresh(r, texts));
    }

    // getChunksByRecordId, as sweepOne starts on a claimed job.
    method BeginSweep(j: nat, r: nat, org: string, tries: nat, limit: nat) returns (loaded: map<nat, string>)
      requires Valid() && j in jobs && jobs[j].record == r && jobs[j].org == org && r !in machine.attempts
      modifies `machine, `log
      ensures Valid() && old(log) <= log && Focus(old(machine), machine, r)
      ensures loaded == TextsOf(machine.db, r) && machine.db == old(machine.db)
      ensures Standing(r, if loaded == map[] then AtNoChunks else AtEmbed)
      ensures machine.attempts[r]
           == Attempt(Sweep, machine.attempts[r].at, org, [], loaded, j, tries, limit, 0)
    {
      hide Inv, Legal, Run;
      loaded := map c | c in chunks && chunks[c].record == r :: chunks[c].text;
      Took(StartSweep(j, tries, limit));
    }

    method PushJobs(ids: set<nat>, now: int)
      modifies `jobs
      ensures Tables() == ClaimJobs(old(Tables()), ids, now)
    {
      jobs := map j | j in jobs :: if j in ids then jobs[j].(retryAt := Some(now + CLAIM_VISIBILITY_MS)) else jobs[j];
    }

    method PushRows(ids: set<nat>, now: int)
      modifies `archive
      ensures Tables() == ClaimRows(old(Tables()), ids, now)
    {
      archive := map a | a in archive ::
        if a in ids then archive[a].(retryAt := Some(now + CLEANUP_VISIBILITY_MS)) else archive[a];
    }

    // claimPendingForRetry: the earliest due rows that no other transaction has locked become invisible for a while.
    method ClaimPendingForRetry(limit: nat, now: int, locked: set<nat>) returns (ok: bool, ids: set<nat>)
      requires Valid()
      modifies this
      ensures Valid() && old(log) <= log && machine.attempts == old(machine.attempts) && AllAnswered(ok)
      ensures if ok then Earliest(DueJobs(old(jobs), now, locked), ids, limit) else ids == {}
      ensures jobs.Keys == old(jobs).Keys && records == old(records)
      ensures forall j :: j in jobs ==>
        var claimed := old(jobs)[j].(retryAt := Some(now + CLAIM_VISIBILITY_MS));
        (jobs[j] == claimed || jobs[j] == old(jobs)[j]) && (ok ==> jobs[j] == if j in ids then claimed else old(jobs)[j])
    {
      hide Inv, Legal, Run, DueJobs, Earliest, JobDue, Elements, Enabled, Next;
      ids := {};
      DueJobsAreDue(jobs, now, locked);
      var e, reply := Fault();
      var first := EarliestOf(DueJobs(jobs, now, locked), limit);
      var chosen := Elements(first);
      ElementsAre(first);
      if e {
        PushJobs(chosen, now);
        JobsClaimed(machine, chosen, now);
        Took(Claim(chosen, now));
      }
      ok := reply.Ok?;
      if ok { ids := chosen; }
    }

    // ----- compaction -----

    // Outside the attempts: a step of compaction, which took effect or did not.
    twostate predicate Compacted(l: Label, effect: bool)
      reads this
    {
      && Valid() && old(Enabled(machine, l))
      && log == old(log) + (if effect then [l] else [])
      && machine == if effect then Next(old(machine), l) else old(machine)
    }

    // applyCompactionRecord: the record, its chunks and its jobs go, and a row with its fields comes.
    method ApplyCompactionRecord(r: nat, org: string, run: nat, reason: Reason, planTime: int, now: int)
      returns (reply: Reply, ghost effect: bool, archived: Option<nat>, points: set<PointId>)
      requires Valid() && r !in machine.attempts
      modifies this
      ensures Compacted(Archive(r, org, run, reason, planTime, now), effect)
      ensures (reply.Ok? ==> effect) && Answered(effect, reply)
      ensures !reply.Ok? ==> lastFault == CallFault(ArchivingRecord, effect)
      ensures reply.Ok? ==>
        if Archivable(old(Tables()), r, org, planTime)
        then archived == Some(old(nextArchive)) && points == RecordedPoints(old(Tables()), r)
        else archived == None
      ensures effect && Archivable(old(Tables()), r, org, planTime) ==>
        var row := old(records)[r];
        var recorded := RecordedPoints(old(Tables()), r);
        archive == old(archive)[old(nextArchive) := ArchiveRow(
          run, r, row, Some(row.sourceId), reason, recorded, RowPending, 0, if recorded == {} then None else Some(now), now, None)]
    {
      hide Inv, Legal, Run, ArchiveRecord, RecordedPoints, Conflicts, Enabled, Next;
      RecordArchived(machine, r, org, run, reason, planTime, now);
      var e;
      e, reply := Fault(ArchivingRecord);
      effect, archived, points := e, None, {};
      if r in records { NeverConflictsNow(machine, r, run); }
      if e {
        archived, points := ArchiveStatement(r, org, run, reason, planTime, now);
        Took(Archive(r, org, run, reason, planTime, now));
      }
    }

    method ArchiveStatement(r: nat, org: string, run: nat, reason: Reason, planTime: int, now: int)
      returns (archived: Option<nat>, points: set<PointId>)
      modifies `records, `chunks, `jobs, `archive, `nextArchive
      ensures Tables() == ArchiveRecord(old(Tables()), r, org, run, reason, planTime, now)
      ensures archived == if Archivable(old(Tables()), r, org, planTime) && !Conflicts(old(Tables()), r, run)
                          then Some(old(nextArchive)) else None
      ensures archived.Some? ==>
        && points == RecordedPoints(old(Tables()), r) && r in old(records)
        && archive == old(archive)[old(nextArchive) := ArchiveRow(
             run, r, old(records)[r], Some(old(records)[r].sourceId), reason, points, RowPending, 0,
             if points == {} then None else Some(now), now, None)]
    {
      hide DropRecord;
      archived, points := None, {};
      if r !in records || records[r].org != org || planTime < records[r].updatedAt { return; }
      points := set c | c in chunks && chunks[c].record == r && chunks[c].point.Some? :: chunks[c].point.value;
      var row := ArchiveRow(run, r, records[r], Some(records[r].sourceId), reason, points, RowPending, 0,
                            if points == {} then None else Some(now), now, None);
      DropRow(r);
      if exists a :: a in archive && archive[a].run == run && archive[a].record == r { return; }
      archived := Some(nextArchive);
      archive, nextArchive := archive[nextArchive := row], nextArchive + 1;
    }

    // DELETE FROM memory_records: chunks and ingest jobs go with the record.
    method DropRow(r: nat)
      modifies `records, `chunks, `jobs
      ensures Tables() == DropRecord(old(Tables()), r) && r !in records
    {
      records := records - {r};
      chunks := map c | c in chunks && chunks[c].record != r :: chunks[c];
      jobs := map j | j in jobs && jobs[j].record != r :: jobs[j];
    }

    // One vector delete of the recorded points of some rows of one organization.
    method DeleteArchivedPoints(ghost rows: set<nat>, ids: set<PointId>, org: string)
      returns (reply: Reply, ghost effect: bool)
      requires Valid() && ids == PointsOfRows(machine.db, rows)
      requires forall a :: a in rows ==> a in machine.db.archive && machine.db.archive[a].snapshot.org == org
      modifies this
      ensures Compacted(CleanDelete(rows, org, effect, reply.Ok?), true)
      ensures (reply.Ok? ==> effect) && Answered(effect, reply)
      ensures !reply.Ok? ==> lastFault == CallFault(OtherCall, effect)
      ensures archive == old(archive) && missed == old(missed)
      ensures index == if !effect then old(index)
                       else map p | p in old(index) && !(p in ids && old(index)[p].org == org) :: old(index)[p]
    {
      hide Inv, Legal, Run, PointsOfRows, Enabled, Next;
      PointsCleaned(machine, rows, org);
      var e;
      e, reply := Fault();
      effect := e;
      if e { index := map p | p in index && !(p in ids && InOrg(index[p], Some(org))) :: index[p]; }
      Took(CleanDelete(rows, org, e, reply.Ok?));
    }

    method MarkQdrantStatus(a: nat, status: RowStatus, now: int) returns (reply: Reply, ghost effect: bool)
      requires Valid() && a in machine.db.archive
      requires status.RowDeleted? ==> a in machine.cleaned || machine.db.archive[a].points == {}
      modifies this
      ensures Compacted(Mark(a, status, now), effect)
      ensures a in old(archive) && archive == if !effect then old(archive) else old(archive)[a := old(archive)[a].(
        status := status, attempts := old(archive)[a].attempts + 1,
        retryAt := if status.RowPending? then Some(now + CLEANUP_RETRY_MS) else None)]
      ensures (reply.Ok? ==> effect) && Answered(effect, reply)
      ensures !reply.Ok? ==> lastFault == CallFault(MarkingRow, effect)
      ensures missed == old(missed) + if reply.Ok? then [] else [MissedMark(a, status, effect)]
    {
      hide Valid, Enabled, Next, MarkRow;
      ValidKnows(this);
      RowMarked(machine, a, status, now);
      var e;
      e, reply := Fault(MarkingRow);
      effect := e;
      if e { UpdateRowStatus(a, status, now); }
      if !reply.Ok? { missed := missed + [MissedMark(a, status, e)]; }
    }

    // The UPDATE of markQdrantStatus.
    method UpdateRowStatus(a: nat, status: RowStatus, now: int)
      requires Valid() && a in machine.db.archive
      requires status.RowDeleted? ==> a in machine.cleaned || machine.db.archive[a].points == {}
      modifies `archive, `machine, `log
      ensures Compacted(Mark(a, status, now), true)
      ensures a in old(archive) && archive == old(archive)[a := old(archive)[a].(
        status := status, attempts := old(archive)[a].attempts + 1,
        retryAt := if status.RowPending? then Some(now + CLEANUP_RETRY_MS) else None)]
    {
      hide Inv, Legal, Run, Enabled, Next, MarkRow;
      RowMarked(machine, a, status, now);
      SetRowStatus(a, status, now);
      Took(Mark(a, status, now));
    }

    method SetRowStatus(a: nat, status: RowStatus, now: int)
      requires a in archive
      modifies `archive
      ensures Tables() == MarkRow(old(Tables()), a, status, now)
      ensures archive == old(archive)[a := old(archive)[a].(
        status := status, attempts := old(archive)[a].attempts + 1,
        retryAt := if status.RowPending? then Some(now + CLEANUP_RETRY_MS) else None)]
    {
      var retryAt := if status.RowPending? then Some(now + CLEANUP_RETRY_MS) else None;
      archive := archive[a := archive[a].(status := status, attempts := archive[a].attempts + 1, retryAt := retryAt)];
    }

    // claimPendingQdrantCleanup, likewise, in some order.
    method ClaimPendingQdrantCleanup(limit: nat, now: int, locked: set<nat>) returns (ok: bool, ids: seq<nat>)
      requires Valid()
      modifies this
      ensures Valid() && old(log) <= log && machine.attempts == old(machine.attempts) && AllAnswered(ok)
      ensures missed == old(missed)
      ensures if ok then Earliest(DueRows(old(archive), now, locked), Elements(ids), limit) else ids == []
      ensures |ids| <= limit && forall i, k :: 0 <= i < k < |ids| ==> ids[i] != ids[k]
      ensures forall a :: a in ids ==> a in old(archive) && RowDue(old(archive)[a], now)
      ensures archive.Keys == old(archive).Keys
      ensures forall a :: a in archive ==>
        archive[a] == old(archive)[a].(retryAt := if a in ids then Some(now + CLEANUP_VISIBILITY_MS) else archive[a].retryAt)
      ensures ok ==> forall a :: a in archive && a !in ids ==> archive[a] == old(archive)[a]
    {
      hide Inv, Legal, Run, DueRows, Earliest, RowDue, Elements, Enabled, Next;
      DueRowsAreDue(archive, now, locked);
      var e, reply := Fault();
      ids := EarliestOf(DueRows(archive, now, locked), limit);
      var chosen := Elements(ids);
      ElementsAre(ids);
      if e {
        PushRows(chosen, now);
        CleanupClaimed(machine, chosen, now);
        Took(ClaimCleanup(chosen, now));
      }
      ok := reply.Ok?;
      if !ok { ids := []; }
    }
  }

  lemma NeverConflictsNow(s: State, r: nat, run: nat)
    requires Inv(s) && r in s.db.records
    ensures !Conflicts(s.db, r, run)
  {
    NeverConflicts(s.db, r, run);
  }

  lemma ValidKnows(stores: Stores)
    requires stores.Valid()
    ensures Inv(stores.machine) && stores.machine.db == stores.Tables()
  {
  }

  lemma UndoneOrg(s: State, r: nat)
    requires Inv(s) && r in s.attempts && s.attempts[r].at == AtUndoRecord
    ensures r in s.db.records && s.db.records[r].org == s.attempts[r].org
  {
    hide Sound, Synced, HoldsChunks, PointsFor;
    assert RecordOk(s, r);
    SliceOrg(s.db, r);
  }

  lemma NewIsUnattempted(s: State)
    requires Inv(s)
    ensures s.db.nextRecord !in s.attempts && s.db.nextRecord !in s.db.records
  {
  }

  // A start cut off before its first call leaves no attempt behind.
  lemma CrashCloses(s: State, l: Label, r: nat, now: int)
    requires Enabled(s, l) && r == s.db.nextRecord && r !in s.attempts
    requires l.StartWrite? || l.StartRestore?
    ensures AfterCall(Next(s, l), r, false, Crash, now).attempts == s.attempts
  {
  }
}
