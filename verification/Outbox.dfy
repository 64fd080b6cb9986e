/** runOutboxSweep: finishing the vector cleanup of archived records, one organization at a time. */
module Outbox {
  import opened Common
  import opened Store
  import opened Protocol
  import opened TableInvariant
  import opened ProtocolInvariant
  import opened Guarantees
  import opened Deployment
  import opened Accounting
  import CleanupBudget

  datatype PendingRow = PendingRow(archiveId: nat, org: string, points: set<PointId>, attempts: nat)

  datatype Cleaning = Cleaned | CleanRetry | CleanFailed

  predicate Distinct(rows: seq<PendingRow>) {
    forall i, k :: 0 <= i < k < |rows| ==> rows[i].archiveId != rows[k].archiveId
  }

  // The rows of one organization, in the order they were claimed.
  function RowsOf(rows: seq<PendingRow>, org: string): seq<PendingRow> {
    if rows == [] then []
    else
      var last := rows[|rows| - 1];
      RowsOf(rows[..|rows| - 1], org) + if last.org == org then [last] else []
  }

  function Orgs(rows: seq<PendingRow>): set<string> {
    set row | row in rows :: row.org
  }

  ghost function IdsOf(rows: seq<PendingRow>): set<nat> {
    set row | row in rows :: row.archiveId
  }

  lemma {:induction false} RowsOfAre(rows: seq<PendingRow>, org: string)
    ensures forall row :: row in RowsOf(rows, org) <==> row in rows && row.org == org
    ensures Distinct(rows) ==> Distinct(RowsOf(rows, org))
  {
    if rows != [] {
      var init, last := rows[..|rows| - 1], rows[|rows| - 1];
      RowsOfAre(init, org);
      assert rows == init + [last];
      if Distinct(rows) {
        forall i | 0 <= i < |RowsOf(init, org)| ensures RowsOf(init, org)[i].archiveId != last.archiveId {
          assert RowsOf(init, org)[i] in init;
        }
      }
    }
  }

  // groupRowsByOrganization
  method GroupRowsByOrganization(pending: seq<PendingRow>) returns (groups: map<string, seq<PendingRow>>)
    ensures groups.Keys == Orgs(pending)
    ensures forall org :: org in groups ==> groups[org] == RowsOf(pending, org)
  {
    groups := map[];
    var i := 0;
    while i < |pending|
      invariant 0 <= i <= |pending|
      invariant groups.Keys == Orgs(pending[..i])
      invariant forall org :: org in groups ==> groups[org] == RowsOf(pending[..i], org)
      invariant forall org :: org !in groups ==> RowsOf(pending[..i], org) == []
    {
      var row := pending[i];
      assert pending[..i + 1] == pending[..i] + [row];
      assert pending[..i + 1][..i] == pending[..i];
      var rows := if row.org in groups then groups[row.org] else [];
      groups := groups[row.org := rows + [row]];
      i := i + 1;
    }
    assert pending[..|pending|] == pending;
  }

  // flattenPointIds
  method FlattenPointIds(rows: seq<PendingRow>) returns (ids: set<PointId>)
    ensures forall p :: p in ids <==> exists row :: row in rows && p in row.points
  {
    ids := {};
    for i := 0 to |rows|
      invariant forall p :: p in ids <==> exists k :: 0 <= k < i && p in rows[k].points
    {
      ids := ids + rows[i].points;
    }
  }

  // The claimed rows still carry the points and organization they were claimed with.
  ghost predicate RowsFit(d: Db, rows: seq<PendingRow>) {
    forall row :: row in rows ==>
      row.archiveId in d.archive && d.archive[row.archiveId].points == row.points
      && d.archive[row.archiveId].snapshot.org == row.org
  }

  // A sweep changes nothing but the bookkeeping of its own rows, and removes points.
  ghost predicate OnlyCleans(d: Db, d': Db, ids: set<nat>) {
    && d' == d.(archive := d'.archive, index := d'.index) && d'.archive.Keys == d.archive.Keys
    && (forall a :: a in d.archive ==>
          d'.archive[a] == d.archive[a].(status := d'.archive[a].status, attempts := d'.archive[a].attempts,
            retryAt := d'.archive[a].retryAt))
    && (forall a :: a in d.archive && a !in ids ==> d'.archive[a] == d.archive[a])
    && (forall p :: p in d'.index ==> p in d.index && d'.index[p] == d.index[p])
    && (forall p :: p in d.index && p !in d'.index ==> exists a :: a in ids && a in d.archive && p in d.archive[a].points)
  }

  lemma OnlyCleansTrans(d: Db, d1: Db, d2: Db, ids: set<nat>, ids': set<nat>)
    requires OnlyCleans(d, d1, ids) && OnlyCleans(d1, d2, ids')
    ensures OnlyCleans(d, d2, ids + ids')
  {
    forall p | p in d.index && p !in d2.index ensures exists a :: a in ids + ids' && a in d.archive && p in d.archive[a].points {
      if p in d1.index {
        var a :| a in ids' && a in d1.archive && p in d1.archive[a].points;
        assert a in ids + ids' && a in d.archive && p in d.archive[a].points;
      } else {
        var a :| a in ids && a in d.archive && p in d.archive[a].points;
        assert a in ids + ids';
      }
    }
  }

  lemma OnlyCleansRefl(d: Db, ids: set<nat>)
    ensures OnlyCleans(d, d, ids)
  {
  }

  lemma MarkOnlyCleans(d: Db, a: nat, status: RowStatus, now: int)
    ensures OnlyCleans(d, MarkRow(d, a, status, now), {a})
  {
  }

  lemma DeleteOnlyCleans(d: Db, rows: set<nat>, org: string)
    requires forall a :: a in rows ==> a in d.archive
    ensures OnlyCleans(d, DeletePoints(d, PointsOfRows(d, rows), Some(org)), rows)
  {
    var d' := DeletePoints(d, PointsOfRows(d, rows), Some(org));
    forall p | p in d.index && p !in d'.index ensures exists a :: a in rows && a in d.archive && p in d.archive[a].points {
      assert p in PointsOfRows(d, rows);
    }
  }

  lemma RowsStillFit(d: Db, d': Db, ids: set<nat>, rows: seq<PendingRow>)
    requires RowsFit(d, rows) && OnlyCleans(d, d', ids)
    ensures RowsFit(d', rows)
  {
  }

  // A row that was not cleaned is given up on exactly at the limit.
  ghost predicate Judged(outcomes: map<nat, Cleaning>, rows: seq<PendingRow>, maxAttempts: nat) {
    forall row :: row in rows && row.archiveId in outcomes && outcomes[row.archiveId] != Cleaned ==>
      (outcomes[row.archiveId] == CleanFailed <==> maxAttempts <= row.attempts + 1)
  }

  // The marks that did not answer, from the n-th on.
  ghost function MissedSince(missed: seq<MissedMark>, n: nat): set<MissedMark>
    requires n <= |missed|
  {
    set m | m in missed[n..]
  }

  lemma MissedGrows(missed: seq<MissedMark>, missed': seq<MissedMark>, n: nat)
    requires missed <= missed' && n <= |missed|
    ensures MissedSince(missed, n) <= MissedSince(missed', n)
    ensures MissedSince(missed', |missed|) <= MissedSince(missed', n)
  {
    forall m | m in missed[n..] ensures m in missed'[n..] {
      var i :| 0 <= i < |missed[n..]| && missed[n..][i] == m;
      assert missed'[n..][i] == m;
    }
    forall m | m in missed'[|missed|..] ensures m in missed'[n..] {
      var i :| 0 <= i < |missed'[|missed|..]| && missed'[|missed|..][i] == m;
      assert missed'[n..][i + |missed| - n] == m;
    }
  }

  ghost predicate WasMissed(misses: set<MissedMark>, a: nat, status: RowStatus) {
    MissedMark(a, status, false) in misses || MissedMark(a, status, true) in misses
  }

  // One attempt more than before, and another one only where the mark as deleted took effect behind its error.
  ghost predicate Counted(attempts: nat, row: ArchiveRow, a: nat, misses: set<MissedMark>) {
    row.attempts == attempts + 1 || (row.attempts == attempts + 2 && MissedMark(a, RowDeleted, true) in misses)
  }

  /**
    What a row counted as that has become, after so many attempts. A row counted as cleaned is marked deleted. Of the
    others, unless the call that was to mark it did not answer, one counted as failed is given up on and one counted
    as retried will be claimed again; either way the attempt is counted.
  */
  ghost predicate EndsAs(attempts: nat, row: ArchiveRow, a: nat, end: Cleaning, misses: set<MissedMark>, now: int) {
    match end
    case Cleaned => row.status.RowDeleted? && row.attempts == attempts + 1
    case CleanRetry =>
      || WasMissed(misses, a, RowPending)
      || (row.status.RowPending? && row.retryAt == Some(now + CLEANUP_RETRY_MS) && Counted(attempts, row, a, misses))
    case CleanFailed =>
      || WasMissed(misses, a, RowFailed)
      || (row.status.RowFailed? && row.retryAt.None? && Counted(attempts, row, a, misses))
  }

  lemma EndsAsStill(
    attempts: nat, row: ArchiveRow, a: nat, end: Cleaning, misses: set<MissedMark>, misses': set<MissedMark>, now: int)
    requires EndsAs(attempts, row, a, end, misses, now) && misses <= misses'
    ensures EndsAs(attempts, row, a, end, misses', now)
  {
  }

  // Every row has become what it was counted as.
  ghost predicate EndsShow(d: Db, d': Db, outcomes: map<nat, Cleaning>, misses: set<MissedMark>, now: int) {
    forall a :: a in outcomes ==>
      && a in d.archive && a in d'.archive
      && EndsAs(d.archive[a].attempts, d'.archive[a], a, outcomes[a], misses, now)
  }

  lemma MarkedRow(s: State, a: nat, status: RowStatus, now: int)
    requires Enabled(s, Mark(a, status, now))
    ensures var s' := Next(s, Mark(a, status, now));
            OnlyCleans(s.db, s'.db, {a}) && s'.attempts == s.attempts && s'.cleaned == s.cleaned
  {
    MarkOnlyCleans(s.db, a, status, now);
  }

  // markQdrantStatus on one claimed row.
  method MarkClaimed(stores: Stores, a: nat, status: RowStatus, now: int) returns (reply: Reply, ghost effect: bool)
    requires stores.Valid() && a in stores.machine.db.archive
    requires status.RowDeleted? ==> a in stores.machine.cleaned
    modifies stores
    ensures stores.Valid() && stores.machine.attempts == old(stores.machine.attempts)
    ensures (reply.Ok? ==> effect) && stores.Answered(effect, reply)
    ensures stores.missed == old(stores.missed) + if reply.Ok? then [] else [MissedMark(a, status, effect)]
    ensures stores.log == old(stores.log) + if effect then [Mark(a, status, now)] else []
    ensures stores.machine.cleaned == old(stores.machine.cleaned)
    ensures OnlyCleans(old(stores.machine.db), stores.machine.db, {a})
    ensures a in old(stores.archive) && a in stores.archive
    ensures
      var row := old(stores.archive)[a];
      stores.archive[a] == if !effect then row else row.(
        status := status, attempts := row.attempts + 1,
        retryAt := if status.RowPending? then Some(now + CLEANUP_RETRY_MS) else None)
  {
    hide Inv, Legal, Run, OnlyCleans, MarkRow;
    ghost var s := stores.machine;
    OnlyCleansRefl(s.db, {a});
    reply, effect := stores.MarkQdrantStatus(a, status, now);
    MarkedRow(s, a, status, now);
    OnlyCleansKeys(s.db, stores.machine.db, {a});
  }

  lemma OnlyCleansKeys(d: Db, d': Db, ids: set<nat>)
    requires OnlyCleans(d, d', ids)
    ensures d'.archive.Keys == d.archive.Keys
  {
  }

  /**
    markRowFailure; errors of the bookkeeping itself are swallowed. If the call of the mark answers, the row has one
    attempt more and is given up on exactly at the limit, and otherwise is retried after half a minute.
  */
  method MarkRowFailure(stores: Stores, row: PendingRow, maxAttempts: nat, now: int)
    returns (died: bool, outcome: Cleaning, ghost effect: bool)
    requires stores.Valid() && row.archiveId in stores.machine.db.archive
    modifies stores
    ensures stores.Valid() && stores.machine.attempts == old(stores.machine.attempts)
    ensures old(stores.faults) <= stores.faults && old(stores.hidden) <= stores.hidden && (died ==> old(stores.faults) < stores.faults)
    ensures stores.machine.cleaned == old(stores.machine.cleaned)
    ensures OnlyCleans(old(stores.machine.db), stores.machine.db, {row.archiveId})
    ensures outcome == if maxAttempts <= row.attempts + 1 then CleanFailed else CleanRetry
    ensures stores.faults == old(stores.faults) ==> effect
    ensures row.archiveId in old(stores.archive) && row.archiveId in stores.archive
    ensures
      var giveUp := maxAttempts <= row.attempts + 1;
      var status := if giveUp then RowFailed else RowPending;
      var before := old(stores.archive)[row.archiveId];
      && status == CleanupBudget.FailureMark(row.attempts, maxAttempts)
      && stores.log == old(stores.log) + (if effect then [Mark(row.archiveId, status, now)] else [])
      && stores.missed
         == old(stores.missed)
            + (if stores.faults == old(stores.faults) then [] else [MissedMark(row.archiveId, status, effect)])
      && stores.archive[row.archiveId] == if !effect then before else before.(
           status := status, attempts := before.attempts + 1,
           retryAt := if giveUp then None else Some(now + CLEANUP_RETRY_MS))
  {
    hide Inv, Legal, Run, OnlyCleans;
    var giveUp := row.attempts + 1 >= maxAttempts;
    var reply;
    reply, effect := MarkClaimed(stores, row.archiveId, if giveUp then RowFailed else RowPending, now);
    died := reply.Crash?;
    outcome := if giveUp then CleanFailed else CleanRetry;
  }

  // One row after its batch's delete call; deleted says whether that call answered.
  method SweepRow(stores: Stores, row: PendingRow, deleted: bool, maxAttempts: nat, now: int)
    returns (died: bool, outcome: Cleaning)
    requires stores.Valid() && row.archiveId in stores.machine.db.archive
    requires deleted ==> row.archiveId in stores.machine.cleaned
    modifies stores
    ensures stores.Valid() && old(stores.log) <= stores.log && stores.machine.attempts == old(stores.machine.attempts)
    ensures deleted ==> stores.AllAnswered(!died && outcome == Cleaned)
    ensures old(stores.faults) <= stores.faults && old(stores.hidden) <= stores.hidden
    ensures old(stores.missed) <= stores.missed && stores.machine.cleaned == old(stores.machine.cleaned)
    ensures OnlyCleans(old(stores.machine.db), stores.machine.db, {row.archiveId})
    ensures !died && outcome == Cleaned ==> deleted
    ensures row.archiveId in old(stores.archive) && row.archiveId in stores.archive
    ensures !died ==> EndsAs(
      old(stores.archive)[row.archiveId].attempts, stores.archive[row.archiveId], row.archiveId, outcome,
      MissedSince(stores.missed, |old(stores.missed)|), now)
    ensures outcome != Cleaned ==> (outcome == CleanFailed <==> maxAttempts <= row.attempts + 1)
  {
    hide Inv, Legal, Run, OnlyCleans;
    ghost var d, effect := stores.machine.db, false;
    if deleted {
      var reply;
      reply, effect := MarkClaimed(stores, row.archiveId, RowDeleted, now);
      if !reply.Error? { return reply.Crash?, Cleaned; }
    }
    ghost var d1, behind, missed := stores.machine.db, deleted && effect, stores.missed;
    OnlyCleansRefl(d, {row.archiveId});
    OnlyCleansKeys(d, d1, {row.archiveId});
    died, outcome, effect := MarkRowFailure(stores, row, maxAttempts, now);
    OnlyCleansTrans(d, d1, stores.machine.db, {row.archiveId}, {row.archiveId});
    assert {row.archiveId} + {row.archiveId} == {row.archiveId};
    MissedMarks(stores.missed, |old(stores.missed)|);
    if behind { assert stores.missed[|old(stores.missed)|] == MissedMark(row.archiveId, RowDeleted, true); }
    if |missed| < |stores.missed| { assert stores.missed[|missed|].row == row.archiveId; }
  }

  lemma MissedMarks(missed: seq<MissedMark>, n: nat)
    requires n <= |missed|
    ensures forall i :: n <= i < |missed| ==> missed[i] in MissedSince(missed, n)
  {
    forall i | n <= i < |missed| ensures missed[i] in missed[n..] {
      assert missed[n..][i - n] == missed[i];
    }
  }

  lemma EndsStay(
    d: Db, d1: Db, d2: Db, outcomes: map<nat, Cleaning>, ids: set<nat>, misses: set<MissedMark>, misses': set<MissedMark>,
    now: int)
    requires EndsShow(d, d1, outcomes, misses, now) && misses <= misses'
    requires OnlyCleans(d1, d2, ids) && outcomes.Keys !! ids
    ensures EndsShow(d, d2, outcomes, misses', now)
  {
    hide EndsAs;
    forall a | a in outcomes
      ensures a in d2.archive && EndsAs(d.archive[a].attempts, d2.archive[a], a, outcomes[a], misses', now)
    {
      EndsAsStill(d.archive[a].attempts, d1.archive[a], a, outcomes[a], misses, misses', now);
    }
  }

  lemma OneMoreRow(
    d: Db, d': Db, outcomes: map<nat, Cleaning>, rows: seq<PendingRow>, i: nat, end: Cleaning, maxAttempts: nat,
    misses: set<MissedMark>, now: int)
    requires i < |rows| && Distinct(rows) && outcomes.Keys == IdsOf(rows[..i])
    requires Judged(outcomes, rows, maxAttempts) && EndsShow(d, d', outcomes, misses, now)
    requires end != Cleaned ==> (end == CleanFailed <==> maxAttempts <= rows[i].attempts + 1)
    requires
      var a := rows[i].archiveId;
      a in d.archive && a in d'.archive && EndsAs(d.archive[a].attempts, d'.archive[a], a, end, misses, now)
    ensures rows[i].archiveId !in outcomes
    ensures var outcomes' := outcomes[rows[i].archiveId := end];
            && outcomes'.Keys == IdsOf(rows[..i + 1])
            && Judged(outcomes', rows, maxAttempts) && EndsShow(d, d', outcomes', misses, now)
  {
    hide EndsAs;
    assert rows[..i + 1] == rows[..i] + [rows[i]];
    forall row | row in rows[..i] ensures row.archiveId != rows[i].archiveId {
      var k :| 0 <= k < i && rows[k] == row;
    }
  }

  // Where the marking of a batch stands after its first i rows; d is the store when it began.
  ghost predicate Marked(
    d: Db, d': Db, rows: seq<PendingRow>, i: nat, outcomes: map<nat, Cleaning>, maxAttempts: nat, cleaned: nat,
    retried: nat, failed: nat, misses: set<MissedMark>, now: int)
  {
    && i <= |rows| && OnlyCleans(d, d', IdsOf(rows[..i])) && RowsFit(d', rows) && outcomes.Keys == IdsOf(rows[..i])
    && Tally(outcomes, Cleaned, CleanRetry, CleanFailed, cleaned, retried, failed)
    && Judged(outcomes, rows, maxAttempts) && EndsShow(d, d', outcomes, misses, now)
  }

  lemma OneMoreMarked(
    d: Db, d1: Db, d2: Db, rows: seq<PendingRow>, i: nat, outcomes: map<nat, Cleaning>, end: Cleaning, maxAttempts: nat,
    cleaned: nat, retried: nat, failed: nat, misses: set<MissedMark>, more: set<MissedMark>, misses': set<MissedMark>,
    now: int)
    requires i < |rows| && Distinct(rows) && misses <= misses' && more <= misses'
    requires Marked(d, d1, rows, i, outcomes, maxAttempts, cleaned, retried, failed, misses, now)
    requires OnlyCleans(d1, d2, {rows[i].archiveId})
    requires end != Cleaned ==> (end == CleanFailed <==> maxAttempts <= rows[i].attempts + 1)
    requires
      var a := rows[i].archiveId;
      a in d1.archive && a in d2.archive && EndsAs(d1.archive[a].attempts, d2.archive[a], a, end, more, now)
    ensures Marked(
              d, d2, rows, i + 1, outcomes[rows[i].archiveId := end], maxAttempts,
              cleaned + if end == Cleaned then 1 else 0, retried + if end == CleanRetry then 1 else 0,
              failed + if end == CleanFailed then 1 else 0, misses', now)
  {
    hide OnlyCleans, Tally, Judged, EndsShow, EndsAs, RowsFit, IdsOf, Distinct;
    var a := rows[i].archiveId;
    BatchStays(d, d1, d2, rows, i, outcomes, misses, misses', now);
    EndsAsStill(d1.archive[a].attempts, d2.archive[a], a, end, more, misses', now);
    OneMoreRow(d, d2, outcomes, rows, i, end, maxAttempts, misses', now);
    OneMoreTallied(outcomes, a, end, Cleaned, CleanRetry, CleanFailed, cleaned, retried, failed);
  }

  lemma NothingMarked(d: Db, rows: seq<PendingRow>, maxAttempts: nat, misses: set<MissedMark>, now: int)
    requires RowsFit(d, rows)
    ensures Marked(d, d, rows, 0, map[], maxAttempts, 0, 0, 0, misses, now)
  {
    hide OnlyCleans, Tally, Judged, EndsShow, RowsFit;
    NothingTallied(Cleaned, CleanRetry, CleanFailed);
    NothingJudged(rows, maxAttempts, d, d, misses, now);
    OnlyCleansRefl(d, IdsOf(rows[..0]));
  }

  // The rows of a batch, marked one by one.
  method MarkBatch(stores: Stores, rows: seq<PendingRow>, deleted: bool, maxAttempts: nat, now: int)
    returns (died: bool, cleaned: nat, retried: nat, failed: nat, ghost outcomes: map<nat, Cleaning>)
    requires stores.Valid() && Distinct(rows) && RowsFit(stores.machine.db, rows)
    requires deleted ==> IdsOf(rows) <= stores.machine.cleaned
    modifies stores
    ensures stores.Valid() && old(stores.log) <= stores.log && stores.machine.attempts == old(stores.machine.attempts)
    ensures old(stores.faults) <= stores.faults && old(stores.hidden) <= stores.hidden && old(stores.missed) <= stores.missed
    ensures deleted ==> stores.AllAnswered(!died && retried == failed == 0)
    ensures !deleted && !died ==> retried + failed == |rows|
    ensures OnlyCleans(old(stores.machine.db), stores.machine.db, IdsOf(rows))
    ensures Tally(outcomes, Cleaned, CleanRetry, CleanFailed, cleaned, retried, failed)
    ensures Judged(outcomes, rows, maxAttempts)
    ensures EndsShow(
      old(stores.machine.db), stores.machine.db, outcomes, MissedSince(stores.missed, |old(stores.missed)|), now)
    ensures outcomes.Keys <= IdsOf(rows) && (!died ==> outcomes.Keys == IdsOf(rows))
  {
    hide Inv, Legal, Run, Marked, RowsFit, OnlyCleans, Distinct, IdsOf, Stores.Valid, EndsShow, EndsAs, MissedSince;
    ghost var d, faults, hidden, n := stores.machine.db, stores.faults, stores.hidden, |stores.missed|;
    died, cleaned, retried, failed, outcomes := false, 0, 0, 0, map[];
    NothingMarked(d, rows, maxAttempts, MissedSince(stores.missed, n), now);
    var i := 0;
    while i < |rows|
      invariant 0 <= i <= |rows| && stores.Valid() && old(stores.log) <= stores.log
      invariant stores.machine.attempts == old(stores.machine.attempts)
      invariant stores.machine.cleaned == old(stores.machine.cleaned)
      invariant old(stores.missed) <= stores.missed
      invariant Marked(
        d, stores.machine.db, rows, i, outcomes, maxAttempts, cleaned, retried, failed, MissedSince(stores.missed, n), now)
      invariant faults <= stores.faults && hidden <= stores.hidden
      invariant if deleted then retried == failed == 0 <==> stores.faults == faults else retried + failed == i
    {
      ghost var d1, missed := stores.machine.db, stores.missed;
      ghost var misses := MissedSince(missed, n);
      MarkedFits(d, d1, rows, i, outcomes, maxAttempts, cleaned, retried, failed, misses, now);
      ValidKnows(stores);
      var outcome;
      died, outcome := SweepRow(stores, rows[i], deleted, maxAttempts, now);
      MissedGrows(missed, stores.missed, n);
      ghost var misses' := MissedSince(stores.missed, n);
      if died {
        DiedMarking(
          d, d1, stores.machine.db, rows, i, outcomes, maxAttempts, cleaned, retried, failed, misses, misses', now);
        return;
      }
      ValidKnows(stores);
      OneMoreMarked(
        d, d1, stores.machine.db, rows, i, outcomes, outcome, maxAttempts, cleaned, retried, failed, misses,
        MissedSince(stores.missed, |missed|), misses', now);
      outcomes := outcomes[rows[i].archiveId := outcome];
      if outcome == Cleaned { cleaned := cleaned + 1; }
      else if outcome == CleanRetry { retried := retried + 1; }
      else { failed := failed + 1; }
      i := i + 1;
    }
    AllMarked(
      d, stores.machine.db, rows, outcomes, maxAttempts, cleaned, retried, failed, MissedSince(stores.missed, n), now);
  }

  lemma MarkedFits(
    d: Db, d': Db, rows: seq<PendingRow>, i: nat, outcomes: map<nat, Cleaning>, maxAttempts: nat, cleaned: nat,
    retried: nat, failed: nat, misses: set<MissedMark>, now: int)
    requires Marked(d, d', rows, i, outcomes, maxAttempts, cleaned, retried, failed, misses, now) && i < |rows|
    ensures rows[i].archiveId in d'.archive && rows[i].archiveId in IdsOf(rows)
  {
    RowFits(d', rows, i);
  }

  lemma DiedMarking(
    d: Db, d1: Db, d2: Db, rows: seq<PendingRow>, i: nat, outcomes: map<nat, Cleaning>, maxAttempts: nat, cleaned: nat,
    retried: nat, failed: nat, misses: set<MissedMark>, misses': set<MissedMark>, now: int)
    requires Marked(d, d1, rows, i, outcomes, maxAttempts, cleaned, retried, failed, misses, now)
    requires i < |rows| && Distinct(rows) && misses <= misses' && OnlyCleans(d1, d2, {rows[i].archiveId})
    ensures OnlyCleans(d, d2, IdsOf(rows)) && Tally(outcomes, Cleaned, CleanRetry, CleanFailed, cleaned, retried, failed)
    ensures Judged(outcomes, rows, maxAttempts) && EndsShow(d, d2, outcomes, misses', now) && outcomes.Keys <= IdsOf(rows)
  {
    hide OnlyCleans, Tally, Judged, EndsShow, RowsFit, IdsOf, Distinct;
    BatchStays(d, d1, d2, rows, i, outcomes, misses, misses', now);
    OnlyCleansMore(d, d2, IdsOf(rows[..i + 1]), IdsOf(rows));
  }

  lemma OnlyCleansMore(d: Db, d': Db, ids: set<nat>, ids': set<nat>)
    requires OnlyCleans(d, d', ids) && ids <= ids'
    ensures OnlyCleans(d, d', ids')
  {
    OnlyCleansRefl(d', ids');
    OnlyCleansTrans(d, d', d', ids, ids');
    assert ids + ids' == ids';
  }

  lemma AllMarked(
    d: Db, d': Db, rows: seq<PendingRow>, outcomes: map<nat, Cleaning>, maxAttempts: nat, cleaned: nat, retried: nat,
    failed: nat, misses: set<MissedMark>, now: int)
    requires Marked(d, d', rows, |rows|, outcomes, maxAttempts, cleaned, retried, failed, misses, now)
    ensures OnlyCleans(d, d', IdsOf(rows)) && outcomes.Keys == IdsOf(rows)
    ensures Tally(outcomes, Cleaned, CleanRetry, CleanFailed, cleaned, retried, failed)
    ensures Judged(outcomes, rows, maxAttempts) && EndsShow(d, d', outcomes, misses, now)
  {
    assert rows[..|rows|] == rows;
  }

  lemma NothingJudged(rows: seq<PendingRow>, maxAttempts: nat, d: Db, d': Db, misses: set<MissedMark>, now: int)
    ensures Judged(map[], rows, maxAttempts) && EndsShow(d, d', map[], misses, now)
  {
  }

  lemma RowFits(d: Db, rows: seq<PendingRow>, i: nat)
    requires RowsFit(d, rows) && i < |rows|
    ensures rows[i].archiveId in d.archive && rows[i].archiveId in IdsOf(rows)
  {
    assert rows[i] in rows;
  }

  lemma BatchStays(
    d: Db, d1: Db, d2: Db, rows: seq<PendingRow>, i: nat, outcomes: map<nat, Cleaning>, misses: set<MissedMark>,
    misses': set<MissedMark>, now: int)
    requires i < |rows| && Distinct(rows) && outcomes.Keys == IdsOf(rows[..i]) && RowsFit(d1, rows)
    requires OnlyCleans(d, d1, IdsOf(rows[..i])) && OnlyCleans(d1, d2, {rows[i].archiveId})
    requires EndsShow(d, d1, outcomes, misses, now) && misses <= misses'
    ensures OnlyCleans(d, d2, IdsOf(rows[..i + 1])) && RowsFit(d2, rows) && EndsShow(d, d2, outcomes, misses', now)
    ensures IdsOf(rows[..i]) <= IdsOf(rows[..i + 1]) <= IdsOf(rows)
    ensures var a := rows[i].archiveId; a in d.archive && a in d1.archive && d1.archive[a] == d.archive[a]
  {
    var a := rows[i].archiveId;
    hide OnlyCleans, EndsShow, IdsOf, RowsFit, Distinct;
    OneMoreId(d1, rows, i);
    OnlyCleansTrans(d, d1, d2, IdsOf(rows[..i]), {a});
    RowsStillFit(d1, d2, {a}, rows);
    EndsStay(d, d1, d2, outcomes, {a}, misses, misses', now);
    UntouchedRow(d, d1, IdsOf(rows[..i]), a);
  }

  lemma OneMoreId(d: Db, rows: seq<PendingRow>, i: nat)
    requires i < |rows| && Distinct(rows) && RowsFit(d, rows)
    ensures var a := rows[i].archiveId;
            && IdsOf(rows[..i + 1]) == IdsOf(rows[..i]) + {a} && IdsOf(rows[..i + 1]) <= IdsOf(rows)
            && a !in IdsOf(rows[..i]) && a in d.archive
  {
    assert rows[i] in rows;
    assert rows[..i + 1] == rows[..i] + [rows[i]];
    forall b | b in IdsOf(rows[..i]) ensures b != rows[i].archiveId {
      var k :| 0 <= k < i && rows[k].archiveId == b;
    }
  }

  lemma UntouchedRow(d: Db, d': Db, ids: set<nat>, a: nat)
    requires OnlyCleans(d, d', ids) && a !in ids && a in d'.archive
    ensures a in d.archive && d'.archive[a] == d.archive[a]
  {
  }

  lemma DeletedBatch(s: State, rows: set<nat>, org: string, effect: bool, ok: bool)
    requires Enabled(s, CleanDelete(rows, org, effect, ok))
    ensures var s' := Next(s, CleanDelete(rows, org, effect, ok));
            && OnlyCleans(s.db, s'.db, rows) && s'.attempts == s.attempts && (ok ==> rows <= s'.cleaned)
            && s'.db.archive == s.db.archive
  {
    hide PointsOfRows, OnlyCleans;
    DeleteOnlyCleans(s.db, rows, org);
    OnlyCleansRefl(s.db, rows);
  }

  lemma FlattenedPoints(d: Db, rows: seq<PendingRow>, ids: set<PointId>)
    requires RowsFit(d, rows) && forall p :: p in ids <==> exists row :: row in rows && p in row.points
    ensures ids == PointsOfRows(d, IdsOf(rows))
  {
    forall p | p in PointsOfRows(d, IdsOf(rows)) ensures p in ids {
      var a :| a in IdsOf(rows) && a in d.archive && p in d.archive[a].points;
      var row :| row in rows && row.archiveId == a;
      assert p in row.points;
    }
    forall p | p in ids ensures p in PointsOfRows(d, IdsOf(rows)) {
      var row :| row in rows && p in row.points;
      assert row.archiveId in IdsOf(rows);
    }
  }

  /**
    sweepBatch: one delete call, for exactly the points of these rows and in their organization, and then one mark for
    each row. A row counts as cleaned only if that call answered and the mark did; and every row has become what it was
    counted as, unless the call that was to mark it did not answer.
  */
  method SweepBatch(stores: Stores, rows: seq<PendingRow>, ghost org: string, maxAttempts: nat, now: int)
    returns (died: bool, cleaned: nat, retried: nat, failed: nat, ghost outcomes: map<nat, Cleaning>)
    requires stores.Valid() && Distinct(rows) && RowsFit(stores.machine.db, rows)
    requires forall row :: row in rows ==> row.org == org
    modifies stores
    ensures stores.Valid() && old(stores.log) <= stores.log && stores.machine.attempts == old(stores.machine.attempts)
    ensures stores.AllAnswered(!died && retried == failed == 0)
    ensures rows != [] ==>
      old(stores.log) < stores.log
      && var l := stores.log[|old(stores.log)|]; l.CleanDelete? && l.rows == IdsOf(rows) && l.org == org
    ensures OnlyCleans(old(stores.machine.db), stores.machine.db, IdsOf(rows))
    ensures Tally(outcomes, Cleaned, CleanRetry, CleanFailed, cleaned, retried, failed)
    ensures Judged(outcomes, rows, maxAttempts) && old(stores.missed) <= stores.missed
    ensures EndsShow(
      old(stores.machine.db), stores.machine.db, outcomes, MissedSince(stores.missed, |old(stores.missed)|), now)
    ensures outcomes.Keys <= IdsOf(rows) && (!died ==> outcomes.Keys == IdsOf(rows))
  {
    hide Inv, Legal, Run, OnlyCleans, Tally, Judged, EndsShow, MissedSince, PointsOfRows;
    ghost var s, effect := stores.machine, false;
    if rows == [] {
      died, cleaned, retried, failed, outcomes := false, 0, 0, 0, map[];
      NothingTallied(Cleaned, CleanRetry, CleanFailed);
      NothingJudged(rows, maxAttempts, s.db, s.db, MissedSince(stores.missed, |stores.missed|), now);
      OnlyCleansRefl(s.db, IdsOf(rows));
      return;
    }
    var ids := FlattenPointIds(rows);
    FlattenedPoints(s.db, rows, ids);
    var reply;
    reply, effect := stores.DeleteArchivedPoints(IdsOf(rows), ids, rows[0].org);
    DeletedBatch(s, IdsOf(rows), org, effect, reply.Ok?);
    RowsStillFit(s.db, stores.machine.db, IdsOf(rows), rows);
    hide RowsFit;
    if reply.Crash? {
      died, cleaned, retried, failed, outcomes := true, 0, 0, 0, map[];
      NothingTallied(Cleaned, CleanRetry, CleanFailed);
      NothingJudged(rows, maxAttempts, s.db, stores.machine.db, MissedSince(stores.missed, |stores.missed|), now);
      return;
    }
    ghost var d := stores.machine.db;
    died, cleaned, retried, failed, outcomes := MarkBatch(stores, rows, reply.Ok?, maxAttempts, now);
    SameArchiveShows(s.db, d, stores.machine.db, outcomes, MissedSince(stores.missed, |old(stores.missed)|), now);
    OnlyCleansTrans(s.db, d, stores.machine.db, IdsOf(rows), IdsOf(rows));
    assert IdsOf(rows) + IdsOf(rows) == IdsOf(rows);
  }

  lemma SameArchiveShows(
    d: Db, d1: Db, d2: Db, outcomes: map<nat, Cleaning>, misses: set<MissedMark>, now: int)
    requires EndsShow(d1, d2, outcomes, misses, now) && d1.archive == d.archive
    ensures EndsShow(d, d2, outcomes, misses, now)
  {
  }

  // The claimed rows of the organizations in a set.
  ghost function IdsIn(rows: seq<PendingRow>, orgs: set<string>): set<nat> {
    set row | row in rows && row.org in orgs :: row.archiveId
  }

  lemma GroupIds(rows: seq<PendingRow>, orgs: set<string>, org: string)
    requires Distinct(rows)
    ensures Distinct(RowsOf(rows, org)) && forall row :: row in RowsOf(rows, org) ==> row.org == org
    ensures IdsIn(rows, orgs + {org}) == IdsIn(rows, orgs) + IdsOf(RowsOf(rows, org))
    ensures org !in orgs ==> IdsIn(rows, orgs) !! IdsOf(RowsOf(rows, org))
    ensures IdsOf(RowsOf(rows, org)) <= IdsOf(rows)
  {
    RowsOfAre(rows, org);
    forall row, row' | row in rows && row' in rows && row.archiveId == row'.archiveId ensures row == row' {
      var i, k :| 0 <= i < |rows| && 0 <= k < |rows| && rows[i] == row && rows[k] == row';
    }
  }

  lemma FitsGroup(d: Db, rows: seq<PendingRow>, org: string)
    requires RowsFit(d, rows)
    ensures RowsFit(d, RowsOf(rows, org))
  {
    RowsOfAre(rows, org);
  }

  lemma JudgedTogether(o: map<nat, Cleaning>, p: map<nat, Cleaning>, rows: seq<PendingRow>, org: string, maxAttempts: nat)
    requires Distinct(rows) && Judged(o, rows, maxAttempts) && Judged(p, RowsOf(rows, org), maxAttempts)
    requires p.Keys <= IdsOf(RowsOf(rows, org))
    ensures Judged(o + p, rows, maxAttempts)
  {
    RowsOfAre(rows, org);
    forall row | row in rows && row.archiveId in p ensures row in RowsOf(rows, org) {
      var row' :| row' in RowsOf(rows, org) && row'.archiveId == row.archiveId;
      var i, k :| 0 <= i < |rows| && 0 <= k < |rows| && rows[i] == row && rows[k] == row';
    }
  }

  lemma EndsTogether(
    d: Db, d1: Db, d2: Db, o: map<nat, Cleaning>, p: map<nat, Cleaning>, ids: set<nat>, misses: set<MissedMark>,
    more: set<MissedMark>, misses': set<MissedMark>, now: int)
    requires EndsShow(d, d1, o, misses, now) && EndsShow(d1, d2, p, more, now) && misses <= misses' && more <= misses'
    requires OnlyCleans(d, d1, o.Keys) && OnlyCleans(d1, d2, ids) && o.Keys !! ids && p.Keys <= ids
    ensures EndsShow(d, d2, o + p, misses', now)
  {
    hide OnlyCleans, EndsAs;
    EndsStay(d, d1, d2, o, ids, misses, misses', now);
    forall a | a in p
      ensures a in d.archive && a in d2.archive && EndsAs(d.archive[a].attempts, d2.archive[a], a, p[a], misses', now)
    {
      UntouchedRow(d, d1, o.Keys, a);
      EndsAsStill(d1.archive[a].attempts, d2.archive[a], a, p[a], more, misses', now);
    }
  }

  lemma {:induction false} DistinctIds(rows: seq<PendingRow>)
    requires Distinct(rows)
    ensures |IdsOf(rows)| == |rows|
  {
    if rows != [] {
      var init, last := rows[..|rows| - 1], rows[|rows| - 1];
      DistinctIds(init);
      assert rows == init + [last];
      assert IdsOf(rows) == IdsOf(init) + {last.archiveId};
    }
  }

  // Where the sweep stands: the rows of ids have ended as outcomes says, and nothing else has changed since d.
  ghost predicate Progress(
    d: Db, d': Db, pending: seq<PendingRow>, outcomes: map<nat, Cleaning>, maxAttempts: nat, cleaned: nat, retried: nat,
    failed: nat, misses: set<MissedMark>, now: int)
  {
    && OnlyCleans(d, d', IdsOf(pending)) && RowsFit(d', pending) && outcomes.Keys <= IdsOf(pending)
    && Tally(outcomes, Cleaned, CleanRetry, CleanFailed, cleaned, retried, failed)
    && Judged(outcomes, pending, maxAttempts) && EndsShow(d, d', outcomes, misses, now)
  }

  // One group of the loop; n marks had not answered when the sweep began.
  method SweepGroup(
    stores: Stores, ghost d: Db, ghost pending: seq<PendingRow>, ghost swept: set<string>, rows: seq<PendingRow>,
    ghost org: string, maxAttempts: nat, now: int, cleaned0: nat, retried0: nat, failed0: nat,
    ghost outcomes0: map<nat, Cleaning>, ghost n: nat)
    returns (died: bool, cleaned: nat, retried: nat, failed: nat, ghost outcomes: map<nat, Cleaning>)
    requires stores.Valid() && Distinct(pending) && rows == RowsOf(pending, org) && org !in swept && n <= |stores.missed|
    requires Progress(
      d, stores.machine.db, pending, outcomes0, maxAttempts, cleaned0, retried0, failed0, MissedSince(stores.missed, n), now)
    requires outcomes0.Keys == IdsIn(pending, swept) && OnlyCleans(d, stores.machine.db, outcomes0.Keys)
    modifies stores
    ensures stores.Valid() && old(stores.log) <= stores.log && stores.machine.attempts == old(stores.machine.attempts)
    ensures stores.AllAnswered(!died && retried == retried0 && failed == failed0)
    ensures retried0 <= retried && failed0 <= failed && old(stores.missed) <= stores.missed
    ensures Progress(
      d, stores.machine.db, pending, outcomes, maxAttempts, cleaned, retried, failed, MissedSince(stores.missed, n), now)
    ensures !died ==> outcomes.Keys == IdsIn(pending, swept + {org}) && OnlyCleans(d, stores.machine.db, outcomes.Keys)
  {
    hide Inv, Legal, Run, OnlyCleans, Tally, Judged, EndsShow, MissedSince, Progress, RowsFit, Distinct, RowsOf, IdsOf, IdsIn,
      Stores.Valid;
    ghost var d1, more, missed := stores.machine.db, map[], stores.missed;
    GroupFits(
      d, d1, pending, swept, org, outcomes0, maxAttempts, cleaned0, retried0, failed0, MissedSince(missed, n), now);
    died, cleaned, retried, failed, more := SweepBatch(stores, rows, org, maxAttempts, now);
    MissedGrows(missed, stores.missed, n);
    GroupProgress(
      d, d1, stores.machine.db, pending, swept, org, outcomes0, more, maxAttempts, cleaned0, retried0, failed0, cleaned,
      retried, failed, MissedSince(missed, n), MissedSince(stores.missed, |missed|), MissedSince(stores.missed, n), now);
    cleaned, retried, failed := cleaned0 + cleaned, retried0 + retried, failed0 + failed;
    outcomes := outcomes0 + more;
  }

  lemma GroupFits(
    d: Db, d1: Db, rows: seq<PendingRow>, swept: set<string>, org: string, o: map<nat, Cleaning>, maxAttempts: nat,
    cleaned: nat, retried: nat, failed: nat, misses: set<MissedMark>, now: int)
    requires Distinct(rows) && Progress(d, d1, rows, o, maxAttempts, cleaned, retried, failed, misses, now)
    ensures Distinct(RowsOf(rows, org)) && RowsFit(d1, RowsOf(rows, org))
    ensures forall row :: row in RowsOf(rows, org) ==> row.org == org
  {
    hide OnlyCleans, Tally, Judged, EndsShow, RowsFit, Distinct, RowsOf, IdsOf, IdsIn;
    GroupIds(rows, swept, org);
    FitsGroup(d1, rows, org);
  }

  lemma GroupProgress(
    d: Db, d1: Db, d2: Db, rows: seq<PendingRow>, swept: set<string>, org: string, o: map<nat, Cleaning>,
    p: map<nat, Cleaning>, maxAttempts: nat, cleaned0: nat, retried0: nat, failed0: nat, cleaned: nat, retried: nat,
    failed: nat, misses: set<MissedMark>, more: set<MissedMark>, misses': set<MissedMark>, now: int)
    requires Distinct(rows) && org !in swept && o.Keys == IdsIn(rows, swept) && misses <= misses' && more <= misses'
    requires Progress(d, d1, rows, o, maxAttempts, cleaned0, retried0, failed0, misses, now) && OnlyCleans(d, d1, o.Keys)
    requires OnlyCleans(d1, d2, IdsOf(RowsOf(rows, org)))
    requires Tally(p, Cleaned, CleanRetry, CleanFailed, cleaned, retried, failed)
    requires p.Keys <= IdsOf(RowsOf(rows, org)) && Judged(p, RowsOf(rows, org), maxAttempts)
    requires EndsShow(d1, d2, p, more, now)
    ensures Progress(
              d, d2, rows, o + p, maxAttempts, cleaned0 + cleaned, retried0 + retried, failed0 + failed, misses', now)
    ensures p.Keys == IdsOf(RowsOf(rows, org)) ==>
      (o + p).Keys == IdsIn(rows, swept + {org}) && OnlyCleans(d, d2, (o + p).Keys)
  {
    hide OnlyCleans, Tally, Judged, EndsShow, RowsFit, Distinct, RowsOf, IdsOf, IdsIn;
    GroupSwept(d, d1, d2, rows, swept, org, o, p, maxAttempts, misses, more, misses', now);
    BothTallied(o, p, Cleaned, CleanRetry, CleanFailed, cleaned0, retried0, failed0, cleaned, retried, failed);
  }

  // The groups, one after the other.
  method SweepGroups(
    stores: Stores, ghost pending: seq<PendingRow>, groups: map<string, seq<PendingRow>>, maxAttempts: nat, now: int)
    returns (died: bool, cleaned: nat, retried: nat, failed: nat, ghost outcomes: map<nat, Cleaning>)
    requires stores.Valid() && Distinct(pending) && RowsFit(stores.machine.db, pending)
    requires groups.Keys == Orgs(pending) && forall org :: org in groups ==> groups[org] == RowsOf(pending, org)
    modifies stores
    ensures stores.Valid() && old(stores.log) <= stores.log && stores.machine.attempts == old(stores.machine.attempts)
    ensures stores.AllAnswered(!died && retried == failed == 0) && old(stores.missed) <= stores.missed
    ensures Progress(
      old(stores.machine.db), stores.machine.db, pending, outcomes, maxAttempts, cleaned, retried, failed,
      MissedSince(stores.missed, |old(stores.missed)|), now)
    ensures !died ==> outcomes.Keys == IdsOf(pending)
  {
    hide Inv, Legal, Run, Progress, Distinct, RowsOf, RowsFit, IdsOf, IdsIn, Orgs, Stores.Valid, OnlyCleans, MissedSince;
    ghost var d, faults, hidden, n := stores.machine.db, stores.faults, stores.hidden, |stores.missed|;
    died, cleaned, retried, failed, outcomes := false, 0, 0, 0, map[];
    NoProgress(d, pending, maxAttempts, MissedSince(stores.missed, n), now);
    var todo := groups.Keys;
    ghost var swept := {};
    while todo != {}
      invariant todo <= groups.Keys && swept == groups.Keys - todo
      invariant stores.Valid() && old(stores.log) <= stores.log
      invariant stores.machine.attempts == old(stores.machine.attempts)
      invariant outcomes.Keys == IdsIn(pending, swept) && faults <= stores.faults && hidden <= stores.hidden
      invariant retried == failed == 0 <==> stores.faults == faults
      invariant old(stores.missed) <= stores.missed && OnlyCleans(d, stores.machine.db, outcomes.Keys)
      invariant Progress(
        d, stores.machine.db, pending, outcomes, maxAttempts, cleaned, retried, failed, MissedSince(stores.missed, n), now)
    {
      var org :| org in todo;
      died, cleaned, retried, failed, outcomes :=
        SweepGroup(stores, d, pending, swept, groups[org], org, maxAttempts, now, cleaned, retried, failed, outcomes, n);
      if died { return; }
      todo, swept := todo - {org}, swept + {org};
    }
    assert swept == Orgs(pending);
    AllGroups(pending);
  }

  lemma NoProgress(d: Db, pending: seq<PendingRow>, maxAttempts: nat, misses: set<MissedMark>, now: int)
    requires RowsFit(d, pending)
    ensures Progress(d, d, pending, map[], maxAttempts, 0, 0, 0, misses, now) && IdsIn(pending, {}) == {}
    ensures OnlyCleans(d, d, {})
  {
    NothingTallied(Cleaned, CleanRetry, CleanFailed);
    NothingJudged(pending, maxAttempts, d, d, misses, now);
    OnlyCleansRefl(d, IdsOf(pending));
    OnlyCleansRefl(d, {});
    NoGroups(pending);
  }

  lemma NoGroups(rows: seq<PendingRow>)
    ensures IdsIn(rows, {}) == {}
  {
  }

  lemma AllGroups(rows: seq<PendingRow>)
    ensures IdsIn(rows, Orgs(rows)) == IdsOf(rows)
  {
  }

  lemma GroupSwept(
    d: Db, d1: Db, d2: Db, rows: seq<PendingRow>, swept: set<string>, org: string, o: map<nat, Cleaning>,
    p: map<nat, Cleaning>, maxAttempts: nat, misses: set<MissedMark>, more: set<MissedMark>, misses': set<MissedMark>,
    now: int)
    requires Distinct(rows) && org !in swept && RowsFit(d1, rows) && misses <= misses' && more <= misses'
    requires OnlyCleans(d, d1, o.Keys) && OnlyCleans(d1, d2, IdsOf(RowsOf(rows, org)))
    requires o.Keys == IdsIn(rows, swept) && o.Keys <= IdsOf(rows)
    requires Judged(o, rows, maxAttempts) && EndsShow(d, d1, o, misses, now)
    requires p.Keys <= IdsOf(RowsOf(rows, org)) && Judged(p, RowsOf(rows, org), maxAttempts) && EndsShow(d1, d2, p, more, now)
    ensures OnlyCleans(d, d2, IdsOf(rows)) && RowsFit(d2, rows)
    ensures o.Keys !! p.Keys && (o + p).Keys <= IdsOf(rows)
    ensures p.Keys == IdsOf(RowsOf(rows, org)) ==>
      (o + p).Keys == IdsIn(rows, swept + {org}) && OnlyCleans(d, d2, (o + p).Keys)
    ensures Judged(o + p, rows, maxAttempts) && EndsShow(d, d2, o + p, misses', now)
  {
    hide OnlyCleans, Judged, EndsShow, RowsFit, Distinct, RowsOf;
    GroupIds(rows, swept, org);
    var ids := IdsOf(RowsOf(rows, org));
    OnlyCleansTrans(d, d1, d2, o.Keys, ids);
    OnlyCleansMore(d, d2, o.Keys + ids, IdsOf(rows));
    RowsStillFit(d1, d2, ids, rows);
    JudgedTogether(o, p, rows, org, maxAttempts);
    EndsTogether(d, d1, d2, o, p, ids, misses, more, misses', now);
    assert (o + p).Keys == o.Keys + p.Keys;
  }

  function RowsClaimed(archive: map<nat, ArchiveRow>, ids: seq<nat>): seq<PendingRow>
    requires forall a :: a in ids ==> a in archive
  {
    seq(|ids|, i requires 0 <= i < |ids| =>
      var row := archive[ids[i]];
      PendingRow(ids[i], row.snapshot.org, row.points, row.attempts))
  }

  // What a claimed row hands to the sweeper.
  ghost predicate ClaimedAs(rows: seq<PendingRow>, archive: map<nat, ArchiveRow>, now: int) {
    forall row :: row in rows ==>
      && row.archiveId in archive && RowDue(archive[row.archiveId], now)
      && row.org == archive[row.archiveId].snapshot.org && row.points == archive[row.archiveId].points
      && row.attempts == archive[row.archiveId].attempts
  }

  /**
    runOutboxSweep: every claimed row ends in exactly one way and the counters add up to the rows claimed, also after
    the grouping by organization. A row counted as cleaned has none of its points left in the index; one counted as failed
    is given up on and one counted as retried will be claimed again, with one attempt more than it was claimed with,
    unless the call that was to mark it did not answer.
  */
  method RunOutboxSweep(stores: Stores, batchSize: nat, maxAttempts: nat, now: int, locked: set<nat>)
    returns (aborted: bool, scanned: nat, cleaned: nat, retried: nat, failed: nat,
             ghost pending: seq<PendingRow>, ghost outcomes: map<nat, Cleaning>)
    requires stores.Valid()
    modifies stores
    ensures stores.Valid() && old(stores.log) <= stores.log && stores.machine.attempts == old(stores.machine.attempts)
    ensures stores.AllAnswered(!aborted && cleaned == scanned)
    ensures !aborted ==> Earliest(DueRows(old(stores.archive), now, locked), IdsOf(pending), batchSize)
    ensures scanned == |pending| <= batchSize && Distinct(pending) && ClaimedAs(pending, old(stores.archive), now)
    ensures Tally(outcomes, Cleaned, CleanRetry, CleanFailed, cleaned, retried, failed)
    ensures Judged(outcomes, pending, maxAttempts)
    ensures outcomes.Keys <= IdsOf(pending)
    ensures !aborted ==> outcomes.Keys == IdsOf(pending) && scanned == cleaned + retried + failed
    ensures forall a :: a in outcomes && outcomes[a] == Cleaned ==>
      a in stores.machine.db.archive && Gone(stores.machine.db, a)
    ensures old(stores.missed) <= stores.missed
    ensures var misses := MissedSince(stores.missed, |old(stores.missed)|);
            forall row :: row in pending && row.archiveId in outcomes ==>
              && row.archiveId in stores.archive
              && EndsAs(row.attempts, stores.archive[row.archiveId], row.archiveId, outcomes[row.archiveId], misses, now)
  {
    hide Inv, Legal, Run, OnlyCleans, Judged, EndsShow, EndsAs, MissedSince, RowsFit, Gone, Ended, RowsClaimed, ClaimedAs,
      Distinct, RowDue, Earliest, DueRows, IdsOf, Elements, Stores.Valid;
    var ok, ids := stores.ClaimPendingQdrantCleanup(batchSize, now, locked);
    var rows := RowsClaimed(stores.archive, ids);
    pending := rows;
    ValidKnows(stores);
    ClaimedFit(old(stores.archive), stores.machine.db, ids, now);
    aborted, scanned, cleaned, retried, failed, outcomes := true, |ids|, 0, 0, 0, map[];
    NothingTallied(Cleaned, CleanRetry, CleanFailed);
    ghost var d := stores.machine.db;
    NothingJudged(rows, maxAttempts, d, d, MissedSince(stores.missed, |stores.missed|), now);
    DistinctIds(rows);
    if ok {
      var groups := GroupRowsByOrganization(rows);
      aborted, cleaned, retried, failed, outcomes := SweepGroups(stores, rows, groups, maxAttempts, now);
    }
    ValidKnows(stores);
    CleanedAreGone(d, outcomes, stores.machine, MissedSince(stores.missed, |old(stores.missed)|), now);
    ClaimedAttempts(d, ids);
    RowsEnd(d, stores.machine.db, rows, outcomes, MissedSince(stores.missed, |old(stores.missed)|), now);
  }

  lemma ClaimedAttempts(d: Db, ids: seq<nat>)
    requires forall a :: a in ids ==> a in d.archive
    ensures forall row :: row in RowsClaimed(d.archive, ids) ==>
      row.archiveId in d.archive && row.attempts == d.archive[row.archiveId].attempts
  {
  }

  lemma RowsEnd(
    d: Db, d': Db, rows: seq<PendingRow>, outcomes: map<nat, Cleaning>, misses: set<MissedMark>, now: int)
    requires EndsShow(d, d', outcomes, misses, now)
    requires forall row :: row in rows ==> row.archiveId in d.archive && row.attempts == d.archive[row.archiveId].attempts
    ensures forall row :: row in rows && row.archiveId in outcomes ==>
      && row.archiveId in d'.archive
      && EndsAs(row.attempts, d'.archive[row.archiveId], row.archiveId, outcomes[row.archiveId], misses, now)
  {
    hide EndsAs;
  }

  lemma ClaimedIds(archive: map<nat, ArchiveRow>, ids: seq<nat>)
    requires forall a :: a in ids ==> a in archive
    ensures IdsOf(RowsClaimed(archive, ids)) == Elements(ids)
  {
    var rows := RowsClaimed(archive, ids);
    forall a | a in ids ensures a in IdsOf(rows) {
      var i :| 0 <= i < |ids| && ids[i] == a;
      assert rows[i] in rows && rows[i].archiveId == a;
    }
  }

  lemma ClaimedFit(before: map<nat, ArchiveRow>, d: Db, ids: seq<nat>, now: int)
    requires forall a :: a in ids ==> a in before && RowDue(before[a], now)
    requires d.archive.Keys == before.Keys
    requires forall a :: a in d.archive ==> d.archive[a] == before[a].(retryAt := d.archive[a].retryAt)
    requires forall i, k :: 0 <= i < k < |ids| ==> ids[i] != ids[k]
    ensures var rows := RowsClaimed(d.archive, ids);
            |rows| == |ids| && RowsFit(d, rows) && ClaimedAs(rows, before, now) && Distinct(rows) && IdsOf(rows) == Elements(ids)
  {
    hide RowDue;
    ClaimedIds(d.archive, ids);
  }

  lemma CleanedAreGone(d: Db, outcomes: map<nat, Cleaning>, s: State, misses: set<MissedMark>, now: int)
    requires Inv(s) && EndsShow(d, s.db, outcomes, misses, now)
    ensures forall a :: a in outcomes && outcomes[a] == Cleaned ==> a in s.db.archive && Gone(s.db, a)
  {
  }
}
