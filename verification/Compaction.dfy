/** applyCompaction from its candidates on, over the stores of Deployment. */
module Compaction {
  import opened Common
  import opened Store
  import opened Protocol
  import opened Slices
  import opened LocalInvariant
  import opened TableInvariant
  import opened ProtocolInvariant
  import opened Guarantees
  import opened Deployment

  ghost function Ids(moved: seq<Candidate>): set<nat> {
    set c | c in moved :: c.record
  }

  // The row carries the candidate's record as it was, the reason, the run and all of its recorded points.
  ghost predicate ArchivedAs(row: ArchiveRow, d: Db, c: Candidate, run: nat) {
    && c.record in d.records
    && row.run == run && row.record == c.record && row.reason == c.reason
    && row.snapshot == d.records[c.record] && row.sourceId == Some(d.records[c.record].sourceId)
    && row.points == RecordedPoints(d, c.record) && row.unarchivedAt == None
  }

  /**
    From d to d' exactly the candidates of moved went from the record table to the archive, one row each, in order;
    every other record, chunk and row is as it was, and the index lost only points of the moved records.
  */
  ghost predicate Moved(d: Db, d': Db, moved: seq<Candidate>, run: nat) {
    && d'.records == d.records - Ids(moved)
    && d'.chunks == (map c | c in d.chunks && d.chunks[c].record !in Ids(moved) :: d.chunks[c])
    && d'.nextArchive == d.nextArchive + |moved|
    && (forall a :: a in d'.archive <==> a in d.archive || d.nextArchive <= a < d'.nextArchive)
    && (forall a :: a in d.archive ==> a in d'.archive && d'.archive[a] == d.archive[a])
    && (forall k :: 0 <= k < |moved| ==> ArchivedAs(d'.archive[d.nextArchive + k], d, moved[k], run))
    && (forall p :: p in d'.index ==> p in d.index && d'.index[p] == d.index[p])
    && (forall p :: p in d.index && p !in d'.index ==> d.index[p].record in Ids(moved))
  }

  lemma NothingMoved(d: Db, run: nat)
    requires forall a :: a in d.archive ==> a < d.nextArchive
    ensures Moved(d, d, [], run)
  {
  }

  lemma OneMoved(d: Db, r: nat, org: string, run: nat, reason: Reason, planTime: int, now: int)
    requires Tables(d)
    ensures var d' := ArchiveRecord(d, r, org, run, reason, planTime, now);
            Moved(d, d', if Archivable(d, r, org, planTime) then [Candidate(r, reason)] else [], run)
  {
    hide RecordedPoints;
    if Archivable(d, r, org, planTime) {
      NeverConflicts(d, r, run);
      assert Ids([Candidate(r, reason)]) == {r};
    }
  }

  lemma IdsOfBoth(m: seq<Candidate>, n: seq<Candidate>)
    ensures Ids(m + n) == Ids(m) + Ids(n)
  {
    assert forall c :: c in m + n <==> c in m || c in n;
  }

  lemma MovedTrans(d0: Db, d: Db, d': Db, m: seq<Candidate>, n: seq<Candidate>, run: nat)
    requires Moved(d0, d, m, run) && Moved(d, d', n, run)
    ensures Moved(d0, d', m + n, run)
  {
    hide RecordedPoints, Ids;
    IdsOfBoth(m, n);
    forall k | 0 <= k < |n| ensures ArchivedAs(d'.archive[d0.nextArchive + |m| + k], d0, n[k], run) {
      assert ArchivedAs(d'.archive[d.nextArchive + k], d, n[k], run);
      SamePointsRecorded(d0, d, m, n[k].record);
    }
    forall k | 0 <= k < |m + n| ensures ArchivedAs(d'.archive[d0.nextArchive + k], d0, (m + n)[k], run) {
      if k < |m| {
        assert d'.archive[d0.nextArchive + k] == d.archive[d0.nextArchive + k];
      } else {
        assert (m + n)[k] == n[k - |m|];
      }
    }
  }

  lemma SamePointsRecorded(d0: Db, d: Db, m: seq<Candidate>, r: nat)
    requires d.chunks == (map c | c in d0.chunks && d0.chunks[c].record !in Ids(m) :: d0.chunks[c]) && r !in Ids(m)
    ensures RecordedPoints(d, r) == RecordedPoints(d0, r)
  {
    hide Ids;
    forall p | p in RecordedPoints(d0, r) ensures p in RecordedPoints(d, r) {
      var c :| c in d0.chunks && d0.chunks[c].record == r && d0.chunks[c].point == Some(p);
      assert c in d.chunks && d.chunks[c] == d0.chunks[c];
    }
  }

  // Bookkeeping on one of the new rows, and removing points of the moved records, moves nothing else.
  lemma BookkeepingMoves(d: Db, d1: Db, moved: seq<Candidate>, run: nat, a: nat, status: RowStatus, now: int)
    requires Moved(d, d1, moved, run) && d.nextArchive <= a
    requires forall b :: b in d.archive ==> b < d.nextArchive
    ensures Moved(d, MarkRow(d1, a, status, now), moved, run)
  {
    hide RecordedPoints, Ids;
  }

  lemma CleaningMoves(d: Db, d1: Db, moved: seq<Candidate>, run: nat, ids: set<PointId>, org: Option<string>)
    requires Moved(d, d1, moved, run)
    requires forall p :: p in ids && p in d.index ==> d.index[p].record in Ids(moved)
    ensures Moved(d, DeletePoints(d1, ids, org), moved, run)
  {
    hide RecordedPoints, Ids;
  }

  // Sound tables: every point a row lists belongs, in the index, to the row's own record.
  lemma RowPointsBelong(s: State, a: nat)
    requires Inv(s) && a in s.db.archive
    ensures PointsOfRows(s.db, {a}) == s.db.archive[a].points
    ensures forall p :: p in s.db.archive[a].points && p in s.db.index ==> s.db.index[p].record == s.db.archive[a].record
  {
    hide SliceOf, Tables, Ties, Outbox;
    assert forall p :: p in PointsOfRows(s.db, {a}) <==> p in s.db.archive[a].points;
  }

  lemma RowIdsBelow(s: State)
    requires Inv(s)
    ensures forall a :: a in s.db.archive ==> a < s.db.nextArchive
  {
    hide SliceOf, Ties, RowTies, Outbox;
  }

  // ----- one candidate -----

  // The newest archive row lists no points.
  predicate LastRowBare(d: Db) {
    1 <= d.nextArchive && d.nextArchive - 1 in d.archive && d.archive[d.nextArchive - 1].points == {}
  }

  // The sweeper will come back to the row.
  predicate ToSweep(row: ArchiveRow) {
    row.status.RowPending? && row.retryAt.Some?
  }

  // A row nobody has given up on: its cleanup is done, or comes again, or has no point to delete.
  predicate InHand(row: ArchiveRow) {
    row.status.RowDeleted? || ToSweep(row) || (row.status.RowPending? && row.points == {})
  }

  // No call since then has given up on a row.
  ghost predicate GivesUpNothing(log: seq<Label>, log': seq<Label>) {
    log <= log' && forall i :: |log| <= i < |log'| ==> !(log'[i].Mark? && log'[i].status.RowFailed?)
  }

  lemma GivesUpNothingTrans(log0: seq<Label>, log: seq<Label>, log': seq<Label>)
    requires GivesUpNothing(log0, log) && GivesUpNothing(log, log')
    ensures GivesUpNothing(log0, log')
  {
    forall i | |log0| <= i < |log'| ensures !(log'[i].Mark? && log'[i].status.RowFailed?) {
      if i < |log| { assert log'[i] == log[i]; }
    }
  }

  lemma NothingGivenUp(log: seq<Label>)
    ensures GivesUpNothing(log, log)
  {
  }

  datatype Step = Skipped | Archived(clean: bool) | Threw(failRun: bool) | Died

  // The new row of a candidate just archived from d.
  ghost predicate NewRowOf(d: Db, s: State, a: nat, c: Candidate, org: string, run: nat) {
    && Moved(d, s.db, [c], run) && a == d.nextArchive && a in s.db.archive && s.db.archive[a].snapshot.org == org
    && forall b :: b in d.archive ==> b < d.nextArchive
  }

  lemma MarkedNewRow(d: Db, s: State, a: nat, c: Candidate, org: string, run: nat, status: RowStatus, now: int)
    requires NewRowOf(d, s, a, c, org, run) && Enabled(s, Mark(a, status, now))
    ensures var s' := Next(s, Mark(a, status, now));
            && NewRowOf(d, s', a, c, org, run) && s'.attempts == s.attempts && s'.cleaned == s.cleaned
  {
    hide Moved;
    BookkeepingMoves(d, s.db, [c], run, a, status, now);
  }

  lemma CleanedNewRow(d: Db, s: State, a: nat, c: Candidate, org: string, run: nat, effect: bool, ok: bool)
    requires NewRowOf(d, s, a, c, org, run) && Inv(s) && Enabled(s, CleanDelete({a}, org, effect, ok))
    ensures var s' := Next(s, CleanDelete({a}, org, effect, ok));
            && NewRowOf(d, s', a, c, org, run) && s'.db.archive == s.db.archive
            && s'.attempts == s.attempts && (ok ==> a in s'.cleaned)
  {
    hide Inv, RecordedPoints;
    RowPointsBelong(s, a);
    assert ArchivedAs(s.db.archive[d.nextArchive + 0], d, [c][0], run);
    assert c.record in Ids([c]) by { assert c in [c]; }
    hide Moved, DeletePoints, PointsOfRows;
    MovedPoints(d, s.db, [c], run, PointsOfRows(s.db, {a}), c.record);
    CleaningMoves(d, s.db, [c], run, PointsOfRows(s.db, {a}), Some(org));
  }

  // Points of a moved record that the index still holds were that record's before.
  lemma MovedPoints(d: Db, d1: Db, moved: seq<Candidate>, run: nat, ids: set<PointId>, r: nat)
    requires Moved(d, d1, moved, run) && r in Ids(moved)
    requires forall p :: p in ids && p in d1.index ==> d1.index[p].record == r
    ensures forall p :: p in ids && p in d.index ==> d.index[p].record in Ids(moved)
  {
    hide RecordedPoints, Ids;
  }

  lemma HasNewRow(d: Db, s: State, a: nat, c: Candidate, org: string, run: nat)
    requires NewRowOf(d, s, a, c, org, run)
    ensures a in s.db.archive && s.db.archive[a].snapshot.org == org && s.db.nextArchive == a + 1
  {
    hide Moved;
    NewRowIsLast(d, s, a, c, org, run);
  }

  // markQdrantStatus on the new row.
  method MarkNewRow(stores: Stores, a: nat, c: Candidate, org: string, ghost run: nat, ghost d: Db, status: RowStatus, now: int)
    returns (reply: Reply, ghost effect: bool)
    requires stores.Valid() && NewRowOf(d, stores.machine, a, c, org, run) && !status.RowFailed?
    requires status.RowDeleted? ==> a in stores.machine.cleaned || stores.machine.db.archive[a].points == {}
    modifies stores
    ensures stores.Valid() && stores.machine.attempts == old(stores.machine.attempts)
    ensures (reply.Ok? ==> effect) && stores.Answered(effect, reply) && GivesUpNothing(old(stores.log), stores.log)
    ensures NewRowOf(d, stores.machine, a, c, org, run) && a in stores.archive && a in old(stores.archive)
    ensures
      var row := old(stores.archive)[a];
      stores.archive[a] == if !effect then row else row.(
        status := status, attempts := row.attempts + 1,
        retryAt := if status.RowPending? then Some(now + CLEANUP_RETRY_MS) else None)
    ensures !reply.Ok? ==> stores.lastFault.op == MarkingRow
  {
    hide Inv, Legal, Run, Moved, MarkRow;
    ghost var s := stores.machine;
    reply, effect := stores.MarkQdrantStatus(a, status, now);
    MarkedNewRow(d, s, a, c, org, run, status, now);
  }

  /**
    From the vector delete on. Its failures leave the row in the outbox: it is given another time to be retried unless a
    mark took effect behind its error, and never given up on.
  */
  method CleanUpRow(
    stores: Stores, a: nat, points: set<PointId>, c: Candidate, org: string, ghost run: nat, ghost d: Db, now: int)
    returns (step: Step)
    requires stores.Valid() && NewRowOf(d, stores.machine, a, c, org, run)
    requires points == stores.machine.db.archive[a].points && InHand(stores.machine.db.archive[a])
    requires stores.machine.db.archive[a].status.RowPending?
    modifies stores
    ensures stores.Valid() && stores.machine.attempts == old(stores.machine.attempts)
    ensures GivesUpNothing(old(stores.log), stores.log)
    ensures stores.AllAnswered(step == Archived(true))
    ensures NewRowOf(d, stores.machine, a, c, org, run) && a in stores.archive && InHand(stores.archive[a])
    ensures step.Archived? || step == Threw(false) || step.Died?
    ensures step == Archived(true) ==> stores.archive[a].status.RowDeleted?
    ensures step == Archived(false) ==>
      ToSweep(stores.archive[a]) || (stores.archive[a].status.RowDeleted? && old(stores.hidden) < stores.hidden)
    ensures step == Archived(false) && stores.faults == old(stores.faults) + 1 ==>
      stores.archive[a].status.RowPending? && stores.archive[a].retryAt == Some(now + CLEANUP_RETRY_MS)
    ensures step == Threw(false) ==> points == {} && stores.lastFault.op == MarkingRow
    ensures step.Died? ==> stores.lastFault.op in {MarkingRow, OtherCall}
    ensures stores.archive[a].points == points
  {
    hide Inv, Legal, Run, Next, Enabled, DeletePoints, PointsOfRows, NewRowOf;
    var reply;
    ghost var s, effect := stores.machine, false;
    HasNewRow(d, s, a, c, org, run);
    if points == {} {
      reply, effect := MarkNewRow(stores, a, c, org, run, d, RowDeleted, now);
      return if reply.Ok? then Archived(true) else if reply.Crash? then Died else Threw(false);
    }
    RowPointsBelong(s, a);
    reply, effect := stores.DeleteArchivedPoints({a}, points, org);
    CleanedNewRow(d, s, a, c, org, run, effect, reply.Ok?);
    if reply.Ok? {
      reply, effect := MarkNewRow(stores, a, c, org, run, d, RowDeleted, now);
      if reply.Ok? { return Archived(true); }
    }
    if reply.Crash? { return Died; }
    reply, effect := MarkNewRow(stores, a, c, org, run, d, RowPending, now);
    step := if reply.Crash? then Died else Archived(false);
  }

  /**
    The loop body of applyCompaction for one candidate. moved: the record is gone, also where the call that took it
    away reported an error. Archived(true): its row is marked deleted; Archived(false): the sweeper will come back to it.
  */
  method ApplyCandidate(stores: Stores, c: Candidate, org: string, run: nat, planTime: int, now: int)
    returns (step: Step, ghost moved: bool)
    requires stores.Valid() && c.record !in stores.machine.attempts
    modifies stores
    ensures stores.Valid() && stores.machine.attempts == old(stores.machine.attempts)
    ensures GivesUpNothing(old(stores.log), stores.log)
    ensures stores.AllAnswered(step.Skipped? || step == Archived(true))
    ensures Moved(old(stores.machine.db), stores.machine.db, if moved then [c] else [], run)
    ensures moved ==> Archivable(old(stores.machine.db), c.record, org, planTime)
    ensures step.Skipped? ==> !Archivable(old(stores.machine.db), c.record, org, planTime) && !moved
    ensures step.Archived? ==> moved
    ensures moved ==> old(stores.nextArchive) in stores.archive && InHand(stores.archive[old(stores.nextArchive)])
    ensures step == Archived(true) ==> stores.archive[old(stores.nextArchive)].status.RowDeleted?
    ensures step == Archived(false) ==>
      var row := stores.archive[old(stores.nextArchive)];
      ToSweep(row) || (row.status.RowDeleted? && old(stores.hidden) < stores.hidden)
    ensures step == Threw(true) ==> stores.lastFault.op == ArchivingRecord
    ensures step == Threw(false) ==> stores.lastFault.op == MarkingRow && LastRowBare(stores.machine.db)
    ensures step.Died? ==> stores.lastFault.op in {ArchivingRecord, MarkingRow, OtherCall}
  {
    hide Inv, Legal, Run, ArchiveRecord, Moved, MarkRow, DeletePoints, PointsOfRows, RecordedPoints;
    ghost var d, effect := stores.machine.db, false;
    moved := false;
    RowIdsBelow(stores.machine);
    NothingMoved(d, run);
    TablesOf(stores.machine);
    OneMoved(d, c.record, org, run, c.reason, planTime, now);
    var reply, archived, points;
    reply, effect, archived, points := stores.ApplyCompactionRecord(c.record, org, run, c.reason, planTime, now);
    moved := effect && Archivable(d, c.record, org, planTime);
    if !reply.Ok? { return if reply.Crash? then Died else Threw(true), moved; }
    if archived.None? { return Skipped, moved; }
    ArchivedNewRow(d, stores.machine.db, c, org, run, planTime);
    step := CleanUpRow(stores, archived.value, points, c, org, run, d, now);
    NewRowIsLast(d, stores.machine, archived.value, c, org, run);
  }

  lemma NewRowIsLast(d: Db, s: State, a: nat, c: Candidate, org: string, run: nat)
    requires NewRowOf(d, s, a, c, org, run)
    ensures s.db.nextArchive == a + 1 && a in s.db.archive
  {
  }

  lemma ArchivedNewRow(d: Db, d': Db, c: Candidate, org: string, run: nat, planTime: int)
    requires Moved(d, d', [c], run) && Archivable(d, c.record, org, planTime)
    ensures d.nextArchive in d'.archive && d'.archive[d.nextArchive].snapshot.org == org
    ensures d'.archive[d.nextArchive].points == RecordedPoints(d, c.record)
  {
    hide RecordedPoints, Ids;
    assert ArchivedAs(d'.archive[d.nextArchive + 0], d, [c][0], run);
  }

  lemma TablesOf(s: State)
    requires Inv(s)
    ensures Tables(s.db)
  {
    hide SliceOf;
  }

  // ----- the run -----

  datatype RunStatus = RunPending | RunCompleted | RunFailed

  datatype CompactionRun = CompactionRun(id: nat, status: RunStatus, archivedCount: nat, qdrantFailed: nat)

  // The row of the key as createCompactionRun finds or inserts it.
  function OpenedRow(rows: map<string, CompactionRun>, key: string, nextRun: nat): CompactionRun {
    if key in rows then rows[key] else CompactionRun(nextRun, RunPending, 0, 0)
  }

  // compaction_runs, keyed by the unique idempotency key.
  class RunTable {
    var rows: map<string, CompactionRun>
    var nextRun: nat

    // The id is a sequence: no two runs share one.
    ghost predicate Valid()
      reads this
    {
      && (forall key :: key in rows ==> rows[key].id < nextRun)
      && forall key, other :: key in rows && other in rows && key != other ==> rows[key].id != rows[other].id
    }

    constructor ()
      ensures Valid() && rows == map[] && nextRun == 1
    {
      rows, nextRun := map[], 1;
    }

    // createCompactionRun: insert, or on a conflict read the row that is there.
    method CreateCompactionRun(stores: Stores, key: string) returns (reply: Reply, run: CompactionRun)
      requires Valid()
      modifies this, stores`faults, stores`hidden, stores`lastFault
      ensures Valid() && forall other :: other in old(rows) ==> other in rows && rows[other] == old(rows)[other]
      ensures reply.Ok? ==> key in rows && rows[key] == run && rows.Keys == old(rows).Keys + {key}
      ensures reply.Ok? && key in old(rows) ==> run == old(rows)[key]
      ensures reply.Ok? && key !in old(rows) ==>
        run == CompactionRun(old(nextRun), RunPending, 0, 0) && forall other :: other in old(rows) ==> old(rows)[other].id != run.id
      ensures stores.AllAnswered(reply.Ok?) && (!reply.Ok? ==> stores.lastFault.op == CreatingRun)
      ensures var begun := OpenedRow(old(rows), key, old(nextRun));
              && (reply.Ok? ==> run == begun)
              && rows == if reply.Ok? || stores.lastFault.effect then old(rows)[key := begun] else old(rows)
    {
      var e;
      e, reply := stores.Fault(CreatingRun);
      run := OpenedRow(rows, key, nextRun);
      if e {
        if key !in rows { nextRun := nextRun + 1; }
        rows := rows[key := run];
      }
    }

    method CompleteCompactionRun(stores: Stores, key: string, status: RunStatus, archived: nat, failed: nat)
      returns (reply: Reply)
      requires Valid() && key in rows
      modifies `rows, stores`faults, stores`hidden, stores`lastFault
      ensures Valid() && stores.AllAnswered(reply.Ok?) && (!reply.Ok? ==> stores.lastFault.op == CompletingRun)
      ensures reply.Ok? ==> stores.lastFault == old(stores.lastFault)
      ensures
        var row := old(rows)[key].(status := status, archivedCount := archived, qdrantFailed := failed);
        rows == if reply.Ok? || stores.lastFault.effect then old(rows)[key := row] else old(rows)
    {
      var e;
      e, reply := stores.Fault(CompletingRun);
      if e { rows := rows[key := rows[key].(status := status, archivedCount := archived, qdrantFailed := failed)]; }
    }
  }

  ghost function Eligible(d: Db, cs: seq<Candidate>, org: string, planTime: int): seq<Candidate> {
    if cs == [] then []
    else
      var last := cs[|cs| - 1];
      Eligible(d, cs[..|cs| - 1], org, planTime) + if Archivable(d, last.record, org, planTime) then [last] else []
  }

  lemma {:induction false} EligibleAre(d: Db, cs: seq<Candidate>, org: string, planTime: int)
    ensures forall c :: c in Eligible(d, cs, org, planTime) <==> c in cs && Archivable(d, c.record, org, planTime)
    ensures |Eligible(d, cs, org, planTime)| <= |cs|
  {
    if cs != [] {
      EligibleAre(d, cs[..|cs| - 1], org, planTime);
      assert cs == cs[..|cs| - 1] + [cs[|cs| - 1]];
    }
  }

  // A candidate not yet handled is as eligible as it was when the run began.
  lemma StillEligible(d0: Db, d: Db, cs: seq<Candidate>, i: nat, org: string, run: nat, planTime: int)
    requires i < |cs| && forall j, k :: 0 <= j < k < |cs| ==> cs[j].record != cs[k].record
    requires Moved(d0, d, Eligible(d0, cs[..i], org, planTime), run)
    ensures Archivable(d, cs[i].record, org, planTime) <==> Archivable(d0, cs[i].record, org, planTime)
    ensures Eligible(d0, cs[..i + 1], org, planTime)
         == Eligible(d0, cs[..i], org, planTime) + if Archivable(d0, cs[i].record, org, planTime) then [cs[i]] else []
  {
    assert cs[..i + 1][..i] == cs[..i];
    EligibleAre(d0, cs[..i], org, planTime);
    hide RecordedPoints, ArchivedAs;
    assert cs[i].record !in Ids(Eligible(d0, cs[..i], org, planTime));
  }

  // Nobody has given up on a row the run added.
  ghost predicate AllInHand(d0: Db, d: Db) {
    forall a :: d0.nextArchive <= a < d.nextArchive ==> a in d.archive && InHand(d.archive[a])
  }

  // The rows the run added whose cleanup is still to be done.
  ghost function Uncleaned(d0: Db, d: Db): set<nat> {
    set a | d0.nextArchive <= a < d.nextArchive && a in d.archive && !d.archive[a].status.RowDeleted?
  }

  // Every row the run added is marked deleted.
  ghost predicate AllCleaned(d0: Db, d: Db) {
    forall a :: d0.nextArchive <= a < d.nextArchive ==> a in d.archive && d.archive[a].status.RowDeleted?
  }

  datatype Loop = Finished | LoopThrew(failRun: bool) | LoopDied

  // The loop of applyCompaction. qdrantFailed counts the rows whose cleanup is still to be done, and those where it was
  // done behind an error.
  method ArchiveCandidates(stores: Stores, cs: seq<Candidate>, org: string, run: nat, planTime: int, now: int)
    returns (loop: Loop, archivedIds: seq<nat>, skipped: nat, qdrantFailed: nat, ghost moved: seq<Candidate>)
    requires stores.Valid() && forall c :: c in cs ==> c.record !in stores.machine.attempts
    requires forall j, k :: 0 <= j < k < |cs| ==> cs[j].record != cs[k].record
    modifies stores
    ensures stores.Valid() && stores.machine.attempts == old(stores.machine.attempts)
    ensures GivesUpNothing(old(stores.log), stores.log)
    ensures stores.AllAnswered(loop.Finished? && qdrantFailed == 0)
    ensures AllInHand(old(stores.machine.db), stores.machine.db)
    ensures Moved(old(stores.machine.db), stores.machine.db, moved, run)
    ensures moved <= Eligible(old(stores.machine.db), cs, org, planTime)
    ensures loop.Finished? ==>
      && moved == Eligible(old(stores.machine.db), cs, org, planTime) && |archivedIds| + skipped == |cs|
      && |archivedIds| == |moved| && (forall k :: 0 <= k < |moved| ==> archivedIds[k] == moved[k].record)
      && (qdrantFailed == 0 ==> AllCleaned(old(stores.machine.db), stores.machine.db))
      && var left := |Uncleaned(old(stores.machine.db), stores.machine.db)|;
         left <= qdrantFailed <= left + stores.hidden - old(stores.hidden)
    ensures loop == LoopThrew(true) ==> stores.lastFault.op == ArchivingRecord
    ensures loop == LoopThrew(false) ==> stores.lastFault.op == MarkingRow && LastRowBare(stores.machine.db)
    ensures loop.LoopDied? ==> stores.lastFault.op in {ArchivingRecord, MarkingRow, OtherCall}
  {
    hide Inv, Legal, Run, Moved, Eligible, AllCleaned, Archivable, AllInHand, InHand, Uncleaned, GivesUpNothing,
      LastRowBare, Stores.Valid;
    ValidKnows(stores);
    ghost var d0 := stores.machine.db;
    ghost var faults, hidden := stores.faults, stores.hidden;
    archivedIds, skipped, qdrantFailed, moved := [], 0, 0, [];
    RowIdsBelow(stores.machine);
    NothingMoved(d0, run);
    NoneCleaned(d0, cs, org, planTime);
    NothingGivenUp(stores.log);
    var i := 0;
    while i < |cs|
      invariant 0 <= i <= |cs|
      invariant stores.Valid() && GivesUpNothing(old(stores.log), stores.log)
      invariant stores.machine.attempts == old(stores.machine.attempts)
      invariant AllInHand(d0, stores.machine.db)
      invariant var left := |Uncleaned(d0, stores.machine.db)|; left <= qdrantFailed <= left + stores.hidden - hidden
      invariant moved == Eligible(d0, cs[..i], org, planTime) && Moved(d0, stores.machine.db, moved, run)
      invariant |archivedIds| + skipped == i && |archivedIds| == |moved|
      invariant forall k :: 0 <= k < |moved| ==> archivedIds[k] == moved[k].record
      invariant faults <= stores.faults && hidden <= stores.hidden && (qdrantFailed == 0 <==> stores.faults == faults)
    {
      ghost var d, log := stores.machine.db, stores.log;
      ValidKnows(stores);
      StillEligible(d0, d, cs, i, org, run, planTime);
      PrefixEligible(d0, cs, i, org, planTime);
      var step;
      ghost var gone;
      step, gone := ApplyCandidate(stores, cs[i], org, run, planTime, now);
      ghost var more := if gone then [cs[i]] else [];
      MovedTrans(d0, d, stores.machine.db, moved, more, run);
      ValidKnows(stores);
      OneMoreInHand(d0, d, stores.machine.db, moved, more, run);
      GivesUpNothingTrans(old(stores.log), log, stores.log);
      moved := moved + more;
      match step {
        case Died => return LoopDied, archivedIds, skipped, qdrantFailed, moved;
        case Threw(failRun) => return LoopThrew(failRun), archivedIds, skipped, qdrantFailed, moved;
        case Skipped => skipped := skipped + 1;
        case Archived(clean) =>
          archivedIds := archivedIds + [cs[i].record];
          if !clean { qdrantFailed := qdrantFailed + 1; }
      }
      i := i + 1;
    }
    assert cs[..i] == cs;
    NoneUncleaned(d0, stores.machine.db);
    loop := Finished;
  }

  lemma NoneCleaned(d: Db, cs: seq<Candidate>, org: string, planTime: int)
    ensures Eligible(d, cs[..0], org, planTime) == []
    ensures AllInHand(d, d) && Uncleaned(d, d) == {}
  {
  }

  lemma {:induction false} PrefixEligible(d: Db, cs: seq<Candidate>, i: nat, org: string, planTime: int)
    requires i < |cs|
    ensures Eligible(d, cs[..i + 1], org, planTime) <= Eligible(d, cs, org, planTime)
    ensures Eligible(d, cs[..i], org, planTime) <= Eligible(d, cs, org, planTime)
    decreases |cs| - i
  {
    assert cs[..i + 1][..i] == cs[..i];
    if i + 1 < |cs| {
      PrefixEligible(d, cs, i + 1, org, planTime);
    } else {
      assert cs[..i + 1] == cs;
    }
  }

  lemma OneMoreRow(d0: Db, d: Db, d': Db, moved: seq<Candidate>, more: seq<Candidate>, run: nat)
    requires Moved(d0, d, moved, run) && Moved(d, d', more, run) && |more| <= 1
    requires AllInHand(d0, d) && (more != [] ==> d.nextArchive in d'.archive && InHand(d'.archive[d.nextArchive]))
    ensures AllInHand(d0, d') && d.nextArchive !in Uncleaned(d0, d)
    ensures Uncleaned(d0, d')
         == Uncleaned(d0, d) + if more != [] && !d'.archive[d.nextArchive].status.RowDeleted? then {d.nextArchive} else {}
  {
    hide RecordedPoints, Ids, ArchivedAs, InHand;
  }

  lemma OneMoreInHand(d0: Db, d: Db, d': Db, moved: seq<Candidate>, more: seq<Candidate>, run: nat)
    requires Moved(d0, d, moved, run) && Moved(d, d', more, run) && |more| <= 1
    requires AllInHand(d0, d) && (more != [] ==> d.nextArchive in d'.archive && InHand(d'.archive[d.nextArchive]))
    ensures AllInHand(d0, d')
    ensures |Uncleaned(d0, d')|
         == |Uncleaned(d0, d)| + if more != [] && !d'.archive[d.nextArchive].status.RowDeleted? then 1 else 0
  {
    hide Moved, AllInHand, InHand, Uncleaned;
    OneMoreRow(d0, d, d', moved, more, run);
  }

  lemma NoneUncleaned(d0: Db, d: Db)
    requires AllInHand(d0, d)
    ensures |Uncleaned(d0, d)| == 0 ==> AllCleaned(d0, d)
  {
    forall a | |Uncleaned(d0, d)| == 0 && d0.nextArchive <= a < d.nextArchive ensures d.archive[a].status.RowDeleted? {
      assert a !in Uncleaned(d0, d);
    }
  }

  datatype ApplyResult =
    | Applied(archivedIds: seq<nat>, skipped: nat, qdrantFailed: nat)
    | Replayed(archived: nat, qdrantPending: nat)
    | ApplyThrew
    | ApplyDied

  // None of the recorded points of the rows added since is left in the index.
  ghost predicate NewRowsGone(d0: Db, d: Db) {
    forall a :: d0.nextArchive <= a < d.nextArchive ==> a in d.archive && Gone(d, a)
  }

  // The run row after a call that threw or died in its last fault; begun is the row it began with.
  ghost predicate RowTells(
    result: ApplyResult, fault: CallFault, begun: CompactionRun, before: map<string, CompactionRun>,
    after: map<string, CompactionRun>, key: string)
  {
    match fault.op
    case OtherCall => result.ApplyDied? && after == before[key := begun]
    case CreatingRun => after == if fault.effect then before[key := begun] else before
    case ArchivingRecord =>
      after == before[key := if result.ApplyThrew? then CompactionRun(begun.id, RunFailed, 0, 0) else begun]
    case CompletingRun =>
      && key in after && after == before[key := after[key]]
      && if fault.effect then after[key].status in {RunCompleted, RunFailed} else after[key] == begun
    case MarkingRow => after == before[key := begun]
  }

  /**
    A run row that is pending when applyCompaction throws stays pending if and only if the call that threw was the status
    mark, or a call on the run row itself, which is pending afterwards exactly if it was being created or the closing
    had no effect. Any other error marks the run as failed.
  */
  lemma StaysPendingIff(
    fault: CallFault, begun: CompactionRun, before: map<string, CompactionRun>, after: map<string, CompactionRun>,
    key: string)
    requires RowTells(ApplyThrew, fault, begun, before, after, key) && begun.status.RunPending? && key in after
    requires key in before ==> before[key] == begun
    ensures after[key].status.RunPending?
       <==> fault.op in {MarkingRow, CreatingRun} || (fault.op == CompletingRun && !fault.effect)
  {
  }

  lemma CleanedAreGone(d0: Db, s: State)
    requires Inv(s) && AllCleaned(d0, s.db)
    ensures NewRowsGone(d0, s.db)
  {
    hide SliceOf, Tables, Ties, RowTies;
  }

  // applyCompaction once its run row is there: the loop, and the call that closes the row.
  method ArchiveAndClose(
    stores: Stores, runs: RunTable, key: string, org: string, cs: seq<Candidate>, planTime: int, now: int)
    returns (result: ApplyResult, ghost moved: seq<Candidate>)
    requires stores.Valid() && forall c :: c in cs ==> c.record !in stores.machine.attempts
    requires forall j, k :: 0 <= j < k < |cs| ==> cs[j].record != cs[k].record
    requires runs.Valid() && key in runs.rows
    modifies stores, runs
    ensures stores.Valid() && runs.Valid() && stores.machine.attempts == old(stores.machine.attempts)
    ensures GivesUpNothing(old(stores.log), stores.log) && AllInHand(old(stores.machine.db), stores.machine.db)
    ensures stores.AllAnswered(result.Applied? && result.qdrantFailed == 0) && !result.Replayed?
    ensures Moved(old(stores.machine.db), stores.machine.db, moved, old(runs.rows)[key].id)
    ensures moved <= Eligible(old(stores.machine.db), cs, org, planTime)
    ensures match result
            case Applied(archivedIds, skipped, qdrantFailed) =>
              && moved == Eligible(old(stores.machine.db), cs, org, planTime)
              && |archivedIds| == |moved| && (forall k :: 0 <= k < |moved| ==> archivedIds[k] == moved[k].record)
              && |archivedIds| + skipped == |cs|
              && (qdrantFailed == 0 ==> NewRowsGone(old(stores.machine.db), stores.machine.db))
              && (var left := |Uncleaned(old(stores.machine.db), stores.machine.db)|;
                  left <= qdrantFailed <= left + stores.hidden - old(stores.hidden))
              && runs.rows == old(runs.rows)[key := CompactionRun(old(runs.rows)[key].id, RunCompleted, |archivedIds|, qdrantFailed)]
            case _ => stores.lastFault.op != CreatingRun
                      && RowTells(result, stores.lastFault, old(runs.rows)[key], old(runs.rows), runs.rows, key)
    ensures result.ApplyThrew? && stores.lastFault.op == MarkingRow ==> LastRowBare(stores.machine.db)
  {
    hide Inv, Legal, Run, Moved, Eligible, AllCleaned, NewRowsGone, LastRowBare, Stores.Valid, AllInHand, GivesUpNothing,
      Uncleaned, RunTable.Valid;
    ghost var d := stores.machine.db;
    var run := runs.rows[key].id;
    var loop, archivedIds, skipped, qdrantFailed;
    loop, archivedIds, skipped, qdrantFailed, moved := ArchiveCandidates(stores, cs, org, run, planTime, now);
    var reply: Reply;
    if loop.LoopThrew? && loop.failRun {
      reply := runs.CompleteCompactionRun(stores, key, RunFailed, 0, 0);
      return if reply.Crash? then ApplyDied else ApplyThrew, moved;
    }
    if !loop.Finished? { return if loop.LoopDied? then ApplyDied else ApplyThrew, moved; }
    reply := runs.CompleteCompactionRun(stores, key, RunCompleted, |archivedIds|, qdrantFailed);
    if !reply.Ok? { return if reply.Crash? then ApplyDied else ApplyThrew, moved; }
    ValidKnows(stores);
    if qdrantFailed == 0 { CleanedAreGone(d, stores.machine); }
    result := Applied(archivedIds, skipped, qdrantFailed);
  }

  /**
    applyCompaction from the candidates on. A completed run has archived exactly the candidates still live in the
    organization and not updated since plan time, one row each in candidate order, and counts every candidate once; if
    it reports no failed cleanup, none of their recorded points is left in the index, and in general its count of failed
    cleanups is the number of its rows still to be cleaned, up to the marks that took effect behind an error. No run, cut
    short or not, gives up on a row: each of its rows is deleted, or will be claimed by the sweeper, or has no points. A run
    cut short has archived a prefix of them and nothing else, and its run row tells what cut it short as far as RowTells
    says. A key whose run has completed is answered from the run row alone.
  */
  method ApplyCompaction(
    stores: Stores, runs: RunTable, key: string, org: string, cs: seq<Candidate>, planTime: int, now: int)
    returns (result: ApplyResult, ghost run: nat, ghost moved: seq<Candidate>)
    requires stores.Valid() && runs.Valid() && forall c :: c in cs ==> c.record !in stores.machine.attempts
    requires forall j, k :: 0 <= j < k < |cs| ==> cs[j].record != cs[k].record
    modifies stores, runs
    ensures stores.Valid() && runs.Valid() && stores.machine.attempts == old(stores.machine.attempts)
    ensures GivesUpNothing(old(stores.log), stores.log) && AllInHand(old(stores.machine.db), stores.machine.db)
    ensures stores.AllAnswered((result.Applied? && result.qdrantFailed == 0) || result.Replayed?)
    ensures Moved(old(stores.machine.db), stores.machine.db, moved, run)
    ensures moved <= Eligible(old(stores.machine.db), cs, org, planTime)
    ensures match result
            case Applied(archivedIds, skipped, qdrantFailed) =>
              && moved == Eligible(old(stores.machine.db), cs, org, planTime)
              && |archivedIds| == |moved| && (forall k :: 0 <= k < |moved| ==> archivedIds[k] == moved[k].record)
              && |archivedIds| + skipped == |cs|
              && (qdrantFailed == 0 ==> NewRowsGone(old(stores.machine.db), stores.machine.db))
              && (var left := |Uncleaned(old(stores.machine.db), stores.machine.db)|;
                  left <= qdrantFailed <= left + stores.hidden - old(stores.hidden))
              && key in runs.rows && runs.rows[key] == CompactionRun(run, RunCompleted, |archivedIds|, qdrantFailed)
            case Replayed(archived, qdrantPending) =>
              && runs.rows == old(runs.rows) && stores.log == old(stores.log) && key in old(runs.rows)
              && old(runs.rows)[key] == CompactionRun(run, RunCompleted, archived, qdrantPending)
            case _ => RowTells(result, stores.lastFault, OpenedRow(old(runs.rows), key, old(runs.nextRun)), old(runs.rows), runs.rows, key)
    ensures result.ApplyThrew? && stores.lastFault.op == MarkingRow ==> LastRowBare(stores.machine.db)
    ensures key in old(runs.rows) && old(runs.rows)[key].status.RunCompleted? ==>
      stores.log == old(stores.log) && !result.Applied? && runs.rows == old(runs.rows)
  {
    hide Inv, Legal, Run, Moved, Eligible, NewRowsGone, LastRowBare, Stores.Valid, AllInHand, GivesUpNothing,
      Uncleaned, RunTable.Valid;
    NothingGivenUp(stores.log);
    ValidKnows(stores);
    moved := [];
    RowIdsBelow(stores.machine);
    NoneCleaned(stores.machine.db, cs, org, planTime);
    var reply, row := runs.CreateCompactionRun(stores, key);
    run := row.id;
    NothingMoved(stores.machine.db, run);
    if !reply.Ok? { return if reply.Crash? then ApplyDied else ApplyThrew, run, moved; }
    if row.status.RunCompleted? { return Replayed(row.archivedCount, row.qdrantFailed), run, moved; }
    result, moved := ArchiveAndClose(stores, runs, key, org, cs, planTime, now);
  }
}
