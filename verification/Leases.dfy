/** Claims as leases, and the retry budget, over every run of any number of sweepers. */
module Leases {
  import opened Common
  import opened Backoff
  import opened Store
  import opened Protocol
  import opened Slices
  import opened LocalInvariant
  import opened TableInvariant
  import opened ProtocolInvariant
  import opened Guarantees

  // A call that writes job j's index status.
  predicate MarksJob(s: State, l: Label, j: nat) {
    && l.Call? && l.effect && l.r in s.attempts && s.attempts[l.r].job == j
    && s.attempts[l.r].at in {AtMarkAhead, AtMarkDone, AtNoChunks, AtRearm}
  }

  // Between positions i and k of the run nobody marks job j.
  ghost predicate NoJobMark(ls: seq<Label>, i: nat, k: nat, j: nat)
    requires Legal(EMPTY, ls) && i <= k <= |ls|
  {
    forall n :: i <= n < k ==> Legal(EMPTY, ls[..n]) && !MarksJob(Run(EMPTY, ls[..n]), ls[n], j)
  }

  lemma {:induction false} PrefixLegal(ls: seq<Label>, n: nat)
    requires Legal(EMPTY, ls) && n <= |ls|
    ensures Legal(EMPTY, ls[..n])
    ensures n < |ls| ==> Enabled(Run(EMPTY, ls[..n]), ls[n]) && Legal(EMPTY, ls[..n + 1])
                         && Run(EMPTY, ls[..n + 1]) == Next(Run(EMPTY, ls[..n]), ls[n])
    decreases |ls| - n
  {
    hide Enabled, Next;
    if n == |ls| {
      assert ls[..n] == ls;
    } else {
      PrefixLegal(ls, n + 1);
      assert ls[..n + 1][..n] == ls[..n];
    }
  }

  lemma {:induction false} ReachedInv(ls: seq<Label>)
    requires Legal(EMPTY, ls)
    ensures Inv(Run(EMPTY, ls))
  {
    EmptyInv();
    RunKeepsInv(EMPTY, ls);
  }

  // Job j is gone, or its row says what it said.
  ghost predicate SameJob(d: Db, d': Db, j: nat) {
    && d.nextJob <= d'.nextJob
    && (j < d.nextJob && j in d'.jobs ==>
          && j in d.jobs
          && d'.jobs[j].status == d.jobs[j].status && d'.jobs[j].attempts == d.jobs[j].attempts
          && d'.jobs[j].retryAt == d.jobs[j].retryAt)
  }

  lemma EffectLeavesJobs(d: Db, r: nat, a: Attempt, now: int)
    requires a.at !in {AtMarkAhead, AtMarkDone, AtNoChunks, AtRearm} && a.at !in {AtCreateJob, AtReplace, AtClose, AtUndoRecord}
    ensures Effect(d, r, a, now).jobs == d.jobs && Effect(d, r, a, now).nextJob == d.nextJob
  {
    hide PointsFor, LinksFor, NewChunks;
  }

  lemma MarkLeavesJob(d: Db, r: nat, a: Attempt, now: int, j: nat)
    requires a.job != j && a.at in {AtMarkAhead, AtMarkDone, AtNoChunks, AtRearm}
    ensures SameJob(d, Effect(d, r, a, now), j)
  {
    hide NextRetryDelayMs;
    assert Effect(d, r, a, now) == d.(jobs := Effect(d, r, a, now).jobs);
  }

  lemma StoreLeavesJob(d: Db, r: nat, a: Attempt, now: int, j: nat)
    requires a.at in {AtCreateJob, AtReplace, AtClose, AtUndoRecord}
    ensures SameJob(d, Effect(d, r, a, now), j)
  {
    hide NewChunks;
  }

  lemma UnmarkedEffect(d: Db, r: nat, a: Attempt, now: int, j: nat)
    requires !(a.job == j && a.at in {AtMarkAhead, AtMarkDone, AtNoChunks, AtRearm})
    ensures SameJob(d, Effect(d, r, a, now), j)
  {
    hide Effect;
    if a.at in {AtMarkAhead, AtMarkDone, AtNoChunks, AtRearm} {
      MarkLeavesJob(d, r, a, now, j);
    } else if a.at in {AtCreateJob, AtReplace, AtClose, AtUndoRecord} {
      StoreLeavesJob(d, r, a, now, j);
    } else {
      EffectLeavesJobs(d, r, a, now);
    }
  }

  lemma UnmarkedArchive(d: Db, r: nat, org: string, run: nat, reason: Reason, planTime: int, now: int, j: nat)
    ensures SameJob(d, ArchiveRecord(d, r, org, run, reason, planTime, now), j)
  {
    hide Conflicts, NewRow;
  }

  // What a step that does not mark job j can do to its row: push the retry time by a claim, or take it away.
  lemma UnmarkedJob(s: State, l: Label, j: nat)
    requires Enabled(s, l) && !MarksJob(s, l, j) && j < s.db.nextJob
    ensures var s' := Next(s, l);
            && j < s'.db.nextJob
            && if l.Claim? && j in l.jobIds
               then j in s'.db.jobs && s'.db.jobs[j] == s.db.jobs[j].(retryAt := Some(l.now + CLAIM_VISIBILITY_MS))
               else SameJob(s.db, s'.db, j)
  {
    hide Effect, After, Settles, Loses, ArchiveRecord, PointsOfRows, TextsOf;
    if l.Call? && l.effect { UnmarkedEffect(s.db, l.r, s.attempts[l.r], l.now, j); }
    if l.Archive? { UnmarkedArchive(s.db, l.r, l.org, l.run, l.reason, l.planTime, l.now, j); }
  }

  // ----- ingest claims -----

  // Whoever sees the row before time t cannot claim it.
  ghost predicate LeasedUntil(d: Db, j: nat, t: int) {
    && j < d.nextJob
    && (j in d.jobs ==> d.jobs[j].status.JobPending? && d.jobs[j].retryAt.Some? && t <= d.jobs[j].retryAt.value)
  }

  lemma LeaseStep(s: State, l: Label, j: nat, t: int)
    requires Enabled(s, l) && !MarksJob(s, l, j) && LeasedUntil(s.db, j, t)
    ensures LeasedUntil(Next(s, l).db, j, t)
    ensures l.Claim? && j in l.jobIds ==> t <= l.now
  {
    hide Next;
    UnmarkedJob(s, l, j);
  }

  lemma {:induction false} LeaseHolds(ls: seq<Label>, i: nat, k: nat, j: nat, t: int)
    requires Legal(EMPTY, ls) && i <= k <= |ls| && NoJobMark(ls, i, k, j)
    requires Legal(EMPTY, ls[..i]) && LeasedUntil(Run(EMPTY, ls[..i]).db, j, t)
    ensures Legal(EMPTY, ls[..k]) && LeasedUntil(Run(EMPTY, ls[..k]).db, j, t)
    decreases k
  {
    hide LeasedUntil, Next, Enabled, MarksJob;
    PrefixLegal(ls, k);
    if i < k {
      assert NoJobMark(ls, i, k - 1, j);
      LeaseHolds(ls, i, k - 1, j, t);
      PrefixLegal(ls, k - 1);
      LeaseStep(Run(EMPTY, ls[..k - 1]), ls[k - 1], j, t);
    }
  }

  lemma ClaimLeases(s: State, l: Label, j: nat)
    requires Inv(s) && l.Claim? && Enabled(s, l) && j in l.jobIds
    ensures LeasedUntil(Next(s, l).db, j, l.now + CLAIM_VISIBILITY_MS)
  {
    hide Sound;
    SoundIds(s.db, s.cleaned);
  }

  /**
    In every run, with any number of sweepers, two claims that return the same job with no mark on it in between are at
    least one visibility window apart on the clock.
  */
  lemma ClaimsAreLeases(ls: seq<Label>, i: nat, k: nat, j: nat)
    requires Legal(EMPTY, ls) && i < k < |ls| && NoJobMark(ls, i + 1, k, j)
    requires ls[i].Claim? && ls[k].Claim? && j in ls[i].jobIds && j in ls[k].jobIds
    ensures ls[i].now + CLAIM_VISIBILITY_MS <= ls[k].now
  {
    hide Inv, LeasedUntil, Next, NoJobMark;
    PrefixLegal(ls, i);
    PrefixLegal(ls, k);
    ReachedInv(ls[..i]);
    ClaimLeases(Run(EMPTY, ls[..i]), ls[i], j);
    LeaseHolds(ls, i + 1, k, j, ls[i].now + CLAIM_VISIBILITY_MS);
    LeaseStep(Run(EMPTY, ls[..k]), ls[k], j, ls[i].now + CLAIM_VISIBILITY_MS);
  }

  // Settled: completed or failed, or gone.
  predicate Settled(d: Db, j: nat) {
    j < d.nextJob && (j in d.jobs ==> !d.jobs[j].status.JobPending?)
  }

  lemma {:induction false} SettledStays(ls: seq<Label>, i: nat, k: nat, j: nat)
    requires Legal(EMPTY, ls) && i <= k <= |ls| && NoJobMark(ls, i, k, j)
    requires Legal(EMPTY, ls[..i]) && Settled(Run(EMPTY, ls[..i]).db, j)
    ensures Legal(EMPTY, ls[..k]) && Settled(Run(EMPTY, ls[..k]).db, j)
    decreases k
  {
    hide Next, Enabled, MarksJob;
    PrefixLegal(ls, k);
    if i < k {
      assert NoJobMark(ls, i, k - 1, j);
      SettledStays(ls, i, k - 1, j);
      PrefixLegal(ls, k - 1);
      SettledStep(Run(EMPTY, ls[..k - 1]), ls[k - 1], j);
    }
  }

  lemma SettledStep(s: State, l: Label, j: nat)
    requires Enabled(s, l) && !MarksJob(s, l, j) && Settled(s.db, j)
    ensures Settled(Next(s, l).db, j)
  {
    hide Next;
    UnmarkedJob(s, l, j);
  }

  /** A completed, failed or deleted job is not claimed again, unless somebody marks it pending first. */
  lemma SettledIsNotClaimed(ls: seq<Label>, i: nat, k: nat, j: nat)
    requires Legal(EMPTY, ls) && i <= k < |ls| && NoJobMark(ls, i, k, j)
    requires Legal(EMPTY, ls[..i]) && Settled(Run(EMPTY, ls[..i]).db, j)
    ensures ls[k].Claim? ==> j !in ls[k].jobIds
  {
    hide Next, NoJobMark;
    SettledStays(ls, i, k, j);
    PrefixLegal(ls, k);
  }

  // ----- cleanup claims -----

  // Bookkeeping of row a is what it was.
  ghost predicate SameRow(d: Db, d': Db, a: nat) {
    && d.nextArchive <= d'.nextArchive
    && (a in d.archive && a < d.nextArchive ==>
          && a in d'.archive
          && d'.archive[a].status == d.archive[a].status && d'.archive[a].attempts == d.archive[a].attempts
          && d'.archive[a].retryAt == d.archive[a].retryAt)
  }

  lemma EffectLeavesRow(d: Db, r: nat, b: Attempt, now: int, a: nat)
    ensures SameRow(d, Effect(d, r, b, now), a) && Effect(d, r, b, now).archive.Keys == d.archive.Keys
    ensures Effect(d, r, b, now).nextArchive == d.nextArchive
  {
    hide Effect;
    EffectRows(d, r, b, now);
  }

  lemma UnmarkedRow(s: State, l: Label, a: nat)
    requires Enabled(s, l) && !(l.Mark? && l.a == a) && a in s.db.archive && a < s.db.nextArchive
    ensures var s' := Next(s, l);
            && a < s'.db.nextArchive && a in s'.db.archive
            && if l.ClaimCleanup? && a in l.rows
               then s'.db.archive[a] == s.db.archive[a].(retryAt := Some(l.now + CLEANUP_VISIBILITY_MS))
               else SameRow(s.db, s'.db, a)
  {
    hide Effect, After, Settles, Loses, Conflicts, PointsOfRows, TextsOf, NewRow;
    if l.Call? { EffectLeavesRow(s.db, l.r, s.attempts[l.r], l.now, a); }
  }

  ghost predicate NoRowMark(ls: seq<Label>, i: nat, k: nat, a: nat) {
    i <= k <= |ls| && forall n :: i <= n < k ==> !(ls[n].Mark? && ls[n].a == a)
  }

  ghost predicate RowLeasedUntil(d: Db, a: nat, t: int) {
    && a in d.archive && a < d.nextArchive
    && d.archive[a].status.RowPending? && d.archive[a].retryAt.Some? && t <= d.archive[a].retryAt.value
  }

  lemma RowLeaseStep(s: State, l: Label, a: nat, t: int)
    requires Enabled(s, l) && !(l.Mark? && l.a == a) && RowLeasedUntil(s.db, a, t)
    ensures RowLeasedUntil(Next(s, l).db, a, t)
    ensures l.ClaimCleanup? && a in l.rows ==> t <= l.now
  {
    hide Next;
    UnmarkedRow(s, l, a);
  }

  lemma {:induction false} RowLeaseHolds(ls: seq<Label>, i: nat, k: nat, a: nat, t: int)
    requires Legal(EMPTY, ls) && NoRowMark(ls, i, k, a)
    requires Legal(EMPTY, ls[..i]) && RowLeasedUntil(Run(EMPTY, ls[..i]).db, a, t)
    ensures Legal(EMPTY, ls[..k]) && RowLeasedUntil(Run(EMPTY, ls[..k]).db, a, t)
    decreases k
  {
    hide RowLeasedUntil, Next, Enabled;
    PrefixLegal(ls, k);
    if i < k {
      RowLeaseHolds(ls, i, k - 1, a, t);
      PrefixLegal(ls, k - 1);
      RowLeaseStep(Run(EMPTY, ls[..k - 1]), ls[k - 1], a, t);
    }
  }

  lemma RowClaimLeases(s: State, l: Label, a: nat)
    requires Inv(s) && l.ClaimCleanup? && Enabled(s, l) && a in l.rows
    ensures RowLeasedUntil(Next(s, l).db, a, l.now + CLEANUP_VISIBILITY_MS)
  {
    hide SliceOf, Ties, RowTies, Outbox;
  }

  /** The same for the cleanup outbox: two claims of one row with no mark in between are a visibility window apart. */
  lemma CleanupClaimsAreLeases(ls: seq<Label>, i: nat, k: nat, a: nat)
    requires Legal(EMPTY, ls) && i < k < |ls| && NoRowMark(ls, i + 1, k, a)
    requires ls[i].ClaimCleanup? && ls[k].ClaimCleanup? && a in ls[i].rows && a in ls[k].rows
    ensures ls[i].now + CLEANUP_VISIBILITY_MS <= ls[k].now
  {
    hide Inv, RowLeasedUntil, Next, NoRowMark;
    PrefixLegal(ls, i);
    PrefixLegal(ls, k);
    ReachedInv(ls[..i]);
    RowClaimLeases(Run(EMPTY, ls[..i]), ls[i], a);
    RowLeaseHolds(ls, i + 1, k, a, ls[i].now + CLEANUP_VISIBILITY_MS);
    RowLeaseStep(Run(EMPTY, ls[..k]), ls[k], a, ls[i].now + CLEANUP_VISIBILITY_MS);
  }

  // How often row a was marked.
  function RowMarks(ls: seq<Label>, a: nat): nat {
    if ls == [] then 0
    else
      var l := ls[|ls| - 1];
      RowMarks(ls[..|ls| - 1], a) + if l.Mark? && l.a == a then 1 else 0
  }

  /** Every mark of an archive row counts as one attempt, and nothing else does. */
  lemma {:induction false} MarksAreCounted(ls: seq<Label>, a: nat)
    requires Legal(EMPTY, ls)
    ensures var d := Run(EMPTY, ls).db;
            && (a in d.archive ==> d.archive[a].attempts == RowMarks(ls, a))
            && (d.nextArchive <= a ==> RowMarks(ls, a) == 0)
  {
    if ls != [] {
      var init, l := ls[..|ls| - 1], ls[|ls| - 1];
      MarksAreCounted(init, a);
      ReachedInv(init);
      RowIdsBelow(Run(EMPTY, init));
      hide Inv, Enabled, Next;
      OneMark(Run(EMPTY, init), l, a);
    }
  }

  lemma RowIdsBelow(s: State)
    requires Inv(s)
    ensures forall a :: a in s.db.archive ==> a < s.db.nextArchive
  {
    hide SliceOf, Ties, RowTies, Outbox;
  }

  lemma OneMark(s: State, l: Label, a: nat)
    requires Enabled(s, l) && forall b :: b in s.db.archive ==> b < s.db.nextArchive
    ensures var d, d' := s.db, Next(s, l).db;
            && d.nextArchive <= d'.nextArchive
            && (a in d'.archive ==>
                  if a in d.archive
                  then d'.archive[a].attempts == d.archive[a].attempts + if l.Mark? && l.a == a then 1 else 0
                  else d'.archive[a].attempts == 0 && d.nextArchive <= a && !(l.Mark? && l.a == a))
            && (d'.nextArchive <= a ==> !(l.Mark? && l.a == a))
  {
    if a in s.db.archive && !(l.Mark? && l.a == a) {
      hide Next;
      UnmarkedRow(s, l, a);
    } else {
      hide Effect, After, Settles, Loses, Conflicts, PointsOfRows, TextsOf, RecordedPoints;
      if l.Call? { EffectLeavesRow(s.db, l.r, s.attempts[l.r], l.now, a); }
    }
  }
}
