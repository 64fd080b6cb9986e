/** The cleanup outbox's retry budget: no archive row has more than maxAttempts recorded failures. */
module CleanupBudget {
  import opened Common
  import opened Store
  import opened Protocol
  import opened Slices
  import opened LocalInvariant
  import opened TableInvariant
  import opened ProtocolInvariant
  import opened Guarantees
  import opened Leases

  // markRowFailure's rule on a count of earlier attempts: give up at the limit, otherwise back to pending.
  function FailureMark(attempts: nat, maxAttempts: nat): RowStatus {
    if maxAttempts <= attempts + 1 then RowFailed else RowPending
  }

  // A mark on a row still pending, and if it records a failure, the one the rule gives for the row's own count.
  predicate FreshMark(s: State, l: Label, maxAttempts: nat) {
    l.Mark? && l.a in s.db.archive ==>
      var row := s.db.archive[l.a];
      row.status.RowPending? && (l.status.RowDeleted? || l.status == FailureMark(row.attempts, maxAttempts))
  }

  ghost predicate FreshMarks(ls: seq<Label>, maxAttempts: nat)
    requires Legal(EMPTY, ls)
  {
    ls == [] || (FreshMarks(ls[..|ls| - 1], maxAttempts) && FreshMark(Run(EMPTY, ls[..|ls| - 1]), ls[|ls| - 1], maxAttempts))
  }

  // How many failures of row a have been recorded.
  function RowFailures(ls: seq<Label>, a: nat): nat {
    if ls == [] then 0
    else
      var l := ls[|ls| - 1];
      RowFailures(ls[..|ls| - 1], a) + if l.Mark? && l.a == a && !l.status.RowDeleted? then 1 else 0
  }

  // Pending below the limit, failed exactly at it.
  predicate RowWithin(row: ArchiveRow, maxAttempts: nat) {
    match row.status
    case RowPending => row.attempts < maxAttempts
    case RowFailed => row.attempts == maxAttempts
    case RowDeleted => row.attempts <= maxAttempts
  }

  // What one step does to row a's status and count.
  lemma RowStep(s: State, l: Label, a: nat)
    requires Inv(s) && Enabled(s, l)
    ensures var d, d' := s.db, Next(s, l).db;
            && (d'.nextArchive <= a ==> d.nextArchive <= a && !(l.Mark? && l.a == a))
            && (a in d'.archive ==>
                  if a in d.archive then
                    var marked := l.Mark? && l.a == a;
                    && d'.archive[a].status == (if marked then l.status else d.archive[a].status)
                    && d'.archive[a].attempts == d.archive[a].attempts + if marked then 1 else 0
                  else d'.archive[a].status.RowPending? && d'.archive[a].attempts == 0 && d.nextArchive <= a
                       && !(l.Mark? && l.a == a))
  {
    RowIdsBelow(s);
    OneMark(s, l, a);
    hide Inv;
    if a in s.db.archive && !(l.Mark? && l.a == a) {
      hide Next;
      UnmarkedRow(s, l, a);
    } else {
      hide Effect, After, Settles, Loses, Conflicts, PointsOfRows, TextsOf, RecordedPoints;
      if l.Call? { EffectLeavesRow(s.db, l.r, s.attempts[l.r], l.now, a); }
    }
  }

  /**
    The cleanup budget: in every run whose marks follow the rule on the row as it is, a row has at most maxAttempts
    recorded failures, and that many exactly when it has been given up on.
  */
  lemma {:induction false} CleanupsAreBounded(ls: seq<Label>, maxAttempts: nat, a: nat)
    requires Legal(EMPTY, ls) && FreshMarks(ls, maxAttempts) && 1 <= maxAttempts
    ensures RowFailures(ls, a) <= maxAttempts
    ensures var d := Run(EMPTY, ls).db;
            && (d.nextArchive <= a ==> RowFailures(ls, a) == 0)
            && (a in d.archive ==>
                  && RowWithin(d.archive[a], maxAttempts)
                  && d.archive[a].attempts == RowFailures(ls, a) + (if d.archive[a].status.RowDeleted? then 1 else 0)
                  && (RowFailures(ls, a) == maxAttempts <==> d.archive[a].status.RowFailed?))
            && (a !in d.archive ==> RowFailures(ls, a) == 0)
  {
    if ls != [] {
      var init, l := ls[..|ls| - 1], ls[|ls| - 1];
      CleanupsAreBounded(init, maxAttempts, a);
      ReachedInv(init);
      var s := Run(EMPTY, init);
      hide Inv, Next;
      RowStep(s, l, a);
      RowsStay(s, l, a);
    }
  }

  // Archive rows are never removed, and only existing ones are marked.
  lemma RowsStay(s: State, l: Label, a: nat)
    requires Inv(s) && Enabled(s, l)
    ensures a in s.db.archive ==> a in Next(s, l).db.archive
    ensures l.Mark? && l.a == a ==> a in s.db.archive
  {
    RowIdsBelow(s);
    hide Inv;
    if a in s.db.archive && !(l.Mark? && l.a == a) {
      hide Next;
      UnmarkedRow(s, l, a);
    }
  }

  /**
    The exact condition for one failure mark by a sweeper that claimed the row with n attempts. On any row, the budget
    holds afterwards if and only if the row's own count bears out the decision; on a row pending within its budget, if
    and only if n leads to the decision the row's own count leads to, as it does while the claimed count still agrees.
  */
  lemma FailureMarkFitsIff(s: State, a: nat, n: nat, maxAttempts: nat, now: int)
    requires a in s.db.archive
    ensures var l, row := Mark(a, FailureMark(n, maxAttempts), now), s.db.archive[a];
            && Enabled(s, l) && a in Next(s, l).db.archive
            && (RowWithin(Next(s, l).db.archive[a], maxAttempts)
                <==> if maxAttempts <= n + 1 then row.attempts + 1 == maxAttempts else row.attempts + 1 < maxAttempts)
            && (row.status.RowPending? && RowWithin(row, maxAttempts) ==>
                  (RowWithin(Next(s, l).db.archive[a], maxAttempts)
                   <==> FailureMark(n, maxAttempts) == FailureMark(row.attempts, maxAttempts)))
  {
  }

  /**
    A row that applyCompaction has put back to pending itself has used one attempt, which follows the rule if and only
    if the limit is above one.
  */
  lemma ApplyMarkFitsIff(s: State, a: nat, maxAttempts: nat, now: int)
    requires a in s.db.archive && s.db.archive[a].status.RowPending? && s.db.archive[a].attempts == 0
    ensures FreshMark(s, Mark(a, RowPending, now), maxAttempts) <==> 2 <= maxAttempts
  {
  }

  // ----- what holding the lease means -----

  predicate SnapshotHolds(d: Db, a: nat, n: nat) {
    a < d.nextArchive && a in d.archive && d.archive[a].status.RowPending? && d.archive[a].attempts == n
  }

  lemma {:induction false} SnapshotStays(ls: seq<Label>, i: nat, k: nat, a: nat, n: nat)
    requires Legal(EMPTY, ls) && NoRowMark(ls, i, k, a)
    requires Legal(EMPTY, ls[..i]) && SnapshotHolds(Run(EMPTY, ls[..i]).db, a, n)
    ensures Legal(EMPTY, ls[..k]) && SnapshotHolds(Run(EMPTY, ls[..k]).db, a, n)
    decreases k
  {
    hide Next, Enabled;
    PrefixLegal(ls, k);
    if i < k {
      SnapshotStays(ls, i, k - 1, a, n);
      PrefixLegal(ls, k - 1);
      UnmarkedRow(Run(EMPTY, ls[..k - 1]), ls[k - 1], a);
    }
  }

  lemma ClaimSnapshot(s: State, l: Label, a: nat)
    requires Inv(s) && l.ClaimCleanup? && Enabled(s, l) && a in l.rows
    ensures a in s.db.archive && SnapshotHolds(Next(s, l).db, a, s.db.archive[a].attempts)
  {
    RowIdsBelow(s);
    hide Inv;
  }

  // Step k marks a row by the rule on its count at step i, when it was claimed, and nobody has marked it in between.
  ghost predicate ClaimedAt(ls: seq<Label>, i: nat, k: nat, maxAttempts: nat)
    requires Legal(EMPTY, ls)
  {
    && i < k < |ls| && Legal(EMPTY, ls[..i]) && ls[i].ClaimCleanup? && ls[k].Mark? && ls[k].a in ls[i].rows
    && NoRowMark(ls, i + 1, k, ls[k].a)
    && var archive := Run(EMPTY, ls[..i]).db.archive;
       ls[k].a in archive && (ls[k].status.RowDeleted? || ls[k].status == FailureMark(archive[ls[k].a].attempts, maxAttempts))
  }

  /** A mark by the rule on the claimed count, with no other mark since the claim, is a mark by the rule on the row. */
  lemma ClaimedMarkIsFresh(ls: seq<Label>, i: nat, k: nat, maxAttempts: nat)
    requires Legal(EMPTY, ls) && ClaimedAt(ls, i, k, maxAttempts)
    ensures Legal(EMPTY, ls[..k]) && FreshMark(Run(EMPTY, ls[..k]), ls[k], maxAttempts)
  {
    hide Inv, Next, Enabled;
    PrefixLegal(ls, i);
    PrefixLegal(ls, k);
    ReachedInv(ls[..i]);
    ClaimSnapshot(Run(EMPTY, ls[..i]), ls[i], ls[k].a);
    SnapshotStays(ls, i + 1, k, ls[k].a, Run(EMPTY, ls[..i]).db.archive[ls[k].a].attempts);
  }

  lemma {:induction false} UnmarkedIsPending(ls: seq<Label>, a: nat)
    requires Legal(EMPTY, ls) && RowMarks(ls, a) == 0
    ensures var d := Run(EMPTY, ls).db;
            a in d.archive ==> d.archive[a].status.RowPending? && d.archive[a].attempts == 0
  {
    if ls != [] {
      var init, l := ls[..|ls| - 1], ls[|ls| - 1];
      UnmarkedIsPending(init, a);
      ReachedInv(init);
      hide Inv, Next, Enabled;
      RowStep(Run(EMPTY, init), l, a);
    }
  }

  // Step k is applyCompaction's own mark, the first on its row.
  predicate FirstMark(ls: seq<Label>, k: nat) {
    k < |ls| && ls[k].Mark? && !ls[k].status.RowFailed? && RowMarks(ls[..k], ls[k].a) == 0
  }

  ghost predicate MarksHoldLeases(ls: seq<Label>, maxAttempts: nat)
    requires Legal(EMPTY, ls)
  {
    forall k :: 0 <= k < |ls| && ls[k].Mark? ==> FirstMark(ls, k) || exists i :: ClaimedAt(ls, i, k, maxAttempts)
  }

  lemma {:induction false} LeasedMarksAreFresh(ls: seq<Label>, n: nat, maxAttempts: nat)
    requires Legal(EMPTY, ls) && MarksHoldLeases(ls, maxAttempts) && n <= |ls| && 2 <= maxAttempts
    ensures Legal(EMPTY, ls[..n]) && FreshMarks(ls[..n], maxAttempts)
    decreases n
  {
    hide Next, Enabled, ClaimedAt, RowMarks;
    PrefixLegal(ls, n);
    if n > 0 {
      LeasedMarksAreFresh(ls, n - 1, maxAttempts);
      assert ls[..n][..n - 1] == ls[..n - 1];
      if ls[n - 1].Mark? {
        MarkIsFresh(ls, n - 1, maxAttempts);
      }
    }
  }

  lemma MarkIsFresh(ls: seq<Label>, k: nat, maxAttempts: nat)
    requires Legal(EMPTY, ls) && k < |ls| && ls[k].Mark? && 2 <= maxAttempts
    requires FirstMark(ls, k) || exists i :: ClaimedAt(ls, i, k, maxAttempts)
    ensures Legal(EMPTY, ls[..k]) && FreshMark(Run(EMPTY, ls[..k]), ls[k], maxAttempts)
  {
    hide Next, Enabled;
    PrefixLegal(ls, k);
    if FirstMark(ls, k) {
      UnmarkedIsPending(ls[..k], ls[k].a);
    } else {
      var i :| ClaimedAt(ls, i, k, maxAttempts);
      ClaimedMarkIsFresh(ls, i, k, maxAttempts);
    }
  }

  /**
    The budget of every run in which sweepers hold the leases of the rows they mark and applyCompaction marks a row
    only once: for any limit above one, at most that many failures are recorded, and that many exactly for a failed row.
  */
  lemma LeasedCleanupsAreBounded(ls: seq<Label>, maxAttempts: nat, a: nat)
    requires Legal(EMPTY, ls) && MarksHoldLeases(ls, maxAttempts) && 2 <= maxAttempts
    ensures RowFailures(ls, a) <= maxAttempts
    ensures var d := Run(EMPTY, ls).db;
            a in d.archive ==> (RowFailures(ls, a) == maxAttempts <==> d.archive[a].status.RowFailed?)
  {
    hide FreshMarks, MarksHoldLeases, RowFailures, RowWithin;
    LeasedMarksAreFresh(ls, |ls|, maxAttempts);
    assert ls[..|ls|] == ls;
    CleanupsAreBounded(ls, maxAttempts, a);
  }
}
