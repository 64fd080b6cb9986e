/** The ingest sweeper's retry budget: no job fails more than maxAttempts recorded sweeps. */
module RetryBudget {
  import opened Common
  import opened Backoff
  import opened Store
  import opened Protocol
  import opened Slices
  import opened LocalInvariant
  import opened TableInvariant
  import opened ProtocolInvariant
  import opened Guarantees
  import opened Leases

  // A sweep that starts on the job row as it is, pending, with the configured limit.
  predicate FreshSweep(s: State, l: Label, limit: nat) {
    l.StartSweep? && l.j in s.db.jobs ==>
      s.db.jobs[l.j].status.JobPending? && l.tries == s.db.jobs[l.j].attempts && l.limit == limit
  }

  ghost predicate FreshSweeps(ls: seq<Label>, limit: nat)
    requires Legal(EMPTY, ls)
  {
    ls == [] || (FreshSweeps(ls[..|ls| - 1], limit) && FreshSweep(Run(EMPTY, ls[..|ls| - 1]), ls[|ls| - 1], limit))
  }

  // The step records one failed sweep of job j.
  predicate RecordsFailure(s: State, l: Label, j: nat) {
    && l.Call? && l.effect && l.r in s.attempts
    && s.attempts[l.r].kind == Sweep && s.attempts[l.r].at == AtRearm && s.attempts[l.r].job == j
  }

  ghost function Failures(ls: seq<Label>, j: nat): nat
    requires Legal(EMPTY, ls)
  {
    if ls == [] then 0
    else Failures(ls[..|ls| - 1], j) + if RecordsFailure(Run(EMPTY, ls[..|ls| - 1]), ls[|ls| - 1], j) then 1 else 0
  }

  predicate JobWithin(job: Job, limit: nat) {
    job.attempts <= limit && (job.attempts == limit <==> job.status.JobFailed?)
  }

  // The attempt still knows how often its job has failed.
  predicate AttemptFits(d: Db, a: Attempt, limit: nat) {
    match a.kind
    case Restore => true
    case Sweep => a.limit == limit && a.tries < limit && (a.job in d.jobs ==> d.jobs[a.job].attempts == a.tries)
    case _ => a.tries == 0 && (a.at in {AtCreateJob, AtReplace} || (a.job in d.jobs ==> d.jobs[a.job].attempts == 0))
  }

  ghost predicate Within(s: State, limit: nat) {
    && (forall j :: j in s.db.jobs ==> JobWithin(s.db.jobs[j], limit))
    && (forall r :: r in s.attempts ==> AttemptFits(s.db, s.attempts[r], limit))
  }

  lemma AttemptJob(s: State, r: nat)
    requires Inv(s) && r in s.attempts
    ensures var a := s.attempts[r];
            && (a.kind == Restore || a.at in {AtCreateJob, AtReplace}
                || (a.job in s.db.jobs && s.db.jobs[a.job].record == r))
            && (a.kind == Sweep ==> a.at !in {AtCreateJob, AtReplace})
            && (a.at == AtRearm ==> a.kind in {Refresh, Sweep})
            && (a.at == AtCreateJob ==> a.kind == Write) && (a.at == AtReplace ==> a.kind == Refresh)
            && (a.at in {AtMarkAhead, AtMarkDone, AtNoChunks} ==> a.kind != Restore)
            && (a.at == AtMarkAhead ==> a.kind == Write)
  {
    hide Sound, Synced, HoldsChunks, PointsFor;
    assert RecordOk(s, r);
  }

  // Every effect on the job table, job by job.
  ghost predicate JobMoves(d: Db, d': Db, a: Attempt, j: nat) {
    d.nextJob <= d'.nextJob && (j in d'.jobs ==>
      if j == d.nextJob && d.nextJob < d'.nextJob then d'.jobs[j].attempts == 0 && d'.jobs[j].status.JobPending?
      else
        && j in d.jobs
        && if j == a.job && a.at == AtRearm && a.kind == Sweep
           then d'.jobs[j].attempts == a.tries + 1 && (d'.jobs[j].status.JobFailed? <==> a.limit <= a.tries + 1)
           else if j == a.job && a.at in {AtMarkAhead, AtMarkDone, AtNoChunks, AtRearm}
           then !d'.jobs[j].status.JobFailed?
                && d'.jobs[j].attempts == if a.at == AtMarkAhead then 0 else if a.at == AtRearm then a.tries else d.jobs[j].attempts
           else d'.jobs[j].attempts == d.jobs[j].attempts && d'.jobs[j].status == d.jobs[j].status)
  }

  lemma RearmMoves(d: Db, r: nat, a: Attempt, now: int, j: nat)
    requires a.at == AtRearm && a.kind in {Refresh, Sweep}
    ensures JobMoves(d, Effect(d, r, a, now), a, j)
  {
    hide NextRetryDelayMs;
  }

  lemma MarkMoves(d: Db, r: nat, a: Attempt, now: int, j: nat)
    requires a.at in {AtMarkAhead, AtMarkDone, AtNoChunks}
    ensures JobMoves(d, Effect(d, r, a, now), a, j)
  {
    hide NextRetryDelayMs, Rearmed;
  }

  lemma StoreMoves(d: Db, r: nat, a: Attempt, now: int, j: nat)
    requires a.at in {AtCreateJob, AtReplace, AtClose, AtUndoRecord}
    ensures JobMoves(d, Effect(d, r, a, now), a, j)
  {
    hide NewChunks;
  }

  lemma EffectMoves(d: Db, r: nat, a: Attempt, now: int, j: nat)
    requires a.at == AtRearm ==> a.kind in {Refresh, Sweep}
    ensures JobMoves(d, Effect(d, r, a, now), a, j)
  {
    hide Effect;
    if a.at == AtRearm {
      RearmMoves(d, r, a, now, j);
    } else if a.at in {AtMarkAhead, AtMarkDone, AtNoChunks} {
      MarkMoves(d, r, a, now, j);
    } else if a.at in {AtCreateJob, AtReplace, AtClose, AtUndoRecord} {
      StoreMoves(d, r, a, now, j);
    } else {
      EffectLeavesJobs(d, r, a, now);
    }
  }

  lemma CallKeepsJobs(s: State, r: nat, effect: bool, reply: Reply, now: int, limit: nat, j: nat)
    requires Inv(s) && Within(s, limit) && 1 <= limit && r in s.attempts
    ensures var d' := AfterCall(s, r, effect, reply, now).db; j in d'.jobs ==> JobWithin(d'.jobs[j], limit)
  {
    hide Inv, Effect, After, Loses;
    AttemptJob(s, r);
    if effect { EffectMoves(s.db, r, s.attempts[r], now, j); }
  }

  // Somebody else's attempt: its job is another record's, so the call has not touched it.
  lemma CallKeepsOthers(s: State, r: nat, effect: bool, reply: Reply, now: int, limit: nat, q: nat)
    requires Inv(s) && Within(s, limit) && r in s.attempts && q in s.attempts && q != r
    ensures AttemptFits(AfterCall(s, r, effect, reply, now).db, s.attempts[q], limit)
  {
    NextJobIsFresh(s);
    assert AttemptFits(s.db, s.attempts[q], limit);
    hide Inv, Effect, After, Loses, Settles, Within;
    AttemptJob(s, r);
    AttemptJob(s, q);
    if effect { EffectMoves(s.db, r, s.attempts[r], now, s.attempts[q].job); }
  }

  lemma NextJobIsFresh(s: State)
    requires Inv(s)
    ensures s.db.nextJob !in s.db.jobs
  {
    hide SliceOf, Ties, RowTies, Outbox;
  }

  // What an attempt carries over to its next call.
  lemma AfterShape(a: Attempt, reply: Reply, nextChunk: nat, nextJob: nat)
    requires (a.at == AtCreateJob ==> a.kind == Write) && (a.at == AtReplace ==> a.kind == Refresh)
    requires a.at == AtRearm ==> a.kind in {Refresh, Sweep}
    ensures var next := After(a, reply, nextChunk, nextJob);
            next.Some? ==>
              var b := next.value;
              && b.kind == a.kind && b.tries == a.tries && b.limit == a.limit
              && (b.at == AtRearm ==> a.at != AtRearm)
              && if a.at in {AtCreateJob, AtReplace} then reply.Ok? && b.job == nextJob else b.job == a.job && a.at != AtRearm
  {
    hide NewTexts;
  }

  lemma CallKeepsOwn(s: State, r: nat, effect: bool, reply: Reply, now: int, limit: nat)
    requires Inv(s) && Within(s, limit) && r in s.attempts && (reply.Ok? ==> effect)
    ensures var s' := AfterCall(s, r, effect, reply, now);
            r in s'.attempts ==> AttemptFits(s'.db, s'.attempts[r], limit)
  {
    NextJobIsFresh(s);
    hide Inv, Loses, Effect, After;
    AttemptJob(s, r);
    var a := s.attempts[r];
    AfterShape(a, reply, s.db.nextChunk, s.db.nextJob);
    assert AttemptFits(s.db, a, limit);
    hide Within;
    if effect {
      EffectMoves(s.db, r, a, now, a.job);
      EffectMoves(s.db, r, a, now, s.db.nextJob);
    }
  }

  lemma CallKeepsWithin(s: State, r: nat, effect: bool, reply: Reply, now: int, limit: nat)
    requires Inv(s) && Within(s, limit) && 1 <= limit && r in s.attempts && (reply.Ok? ==> effect)
    ensures Within(AfterCall(s, r, effect, reply, now), limit)
  {
    var s' := AfterCall(s, r, effect, reply, now);
    hide Inv, Effect, After, Loses, JobWithin, AttemptFits;
    forall j | j in s'.db.jobs ensures JobWithin(s'.db.jobs[j], limit) {
      CallKeepsJobs(s, r, effect, reply, now, limit, j);
    }
    forall q | q in s'.attempts ensures AttemptFits(s'.db, s'.attempts[q], limit) {
      if q == r {
        CallKeepsOwn(s, r, effect, reply, now, limit);
      } else {
        CallKeepsOthers(s, r, effect, reply, now, limit, q);
      }
    }
  }

  // The job table as a step that is no call leaves it: fewer jobs, with other retry times.
  lemma OtherStepJobs(s: State, l: Label)
    requires Enabled(s, l) && !l.Call?
    ensures Next(s, l).db.nextJob == s.db.nextJob
    ensures forall j :: j in Next(s, l).db.jobs ==>
      j in s.db.jobs && Next(s, l).db.jobs[j].attempts == s.db.jobs[j].attempts
      && Next(s, l).db.jobs[j].status == s.db.jobs[j].status
  {
    hide Conflicts, NewRow, PointsOfRows, TextsOf;
  }

  lemma OtherStepKeepsWithin(s: State, l: Label, limit: nat)
    requires Enabled(s, l) && !l.Call? && Within(s, limit) && FreshSweep(s, l, limit)
    ensures Within(Next(s, l), limit)
  {
    var s' := Next(s, l);
    OtherStepJobs(s, l);
    hide ArchiveRecord, PointsOfRows, TextsOf, ClaimJobs, DeletePoints, MarkRow, ClaimRows, UpdateRecord, InsertRecord;
    forall r | r in s'.attempts ensures AttemptFits(s'.db, s'.attempts[r], limit) {
      if r in s.attempts && s'.attempts[r] == s.attempts[r] { assert AttemptFits(s.db, s.attempts[r], limit); }
    }
  }

  lemma StepKeepsWithin(s: State, l: Label, limit: nat)
    requires Inv(s) && Enabled(s, l) && Within(s, limit) && 1 <= limit && FreshSweep(s, l, limit)
    ensures Within(Next(s, l), limit)
  {
    hide Inv, Within, AfterCall;
    if l.Call? { CallKeepsWithin(s, l.r, l.effect, l.reply, l.now, limit); }
    else { OtherStepKeepsWithin(s, l, limit); }
  }

  /**
    One step's part in the count: a row that stays gains an attempt exactly when a failure of it is recorded, and then
    it had fewer than the limit. A new row has a new id.
  */
  ghost predicate Counts(s: State, l: Label, d': Db, limit: nat, j: nat) {
    var n := if RecordsFailure(s, l, j) then 1 else 0;
    && s.db.nextJob <= d'.nextJob
    && (n == 1 ==> j in s.db.jobs && s.db.jobs[j].attempts < limit)
    && (j in d'.jobs ==>
          if j in s.db.jobs then d'.jobs[j].attempts == s.db.jobs[j].attempts + n
          else d'.jobs[j].attempts == 0 && s.db.nextJob <= j)
  }

  // The same for the tables alone: what one effect adds to job j's count.
  predicate CountsTo(d: Db, d': Db, limit: nat, j: nat, n: nat) {
    && d.nextJob <= d'.nextJob
    && (n == 1 ==> j in d.jobs && d.jobs[j].attempts < limit)
    && (j in d'.jobs ==>
          if j in d.jobs then d'.jobs[j].attempts == d.jobs[j].attempts + n
          else d'.jobs[j].attempts == 0 && d.nextJob <= j)
  }

  lemma MovesCount(d: Db, d': Db, a: Attempt, limit: nat, j: nat)
    requires JobMoves(d, d', a, j) && AttemptFits(d, a, limit) && d.nextJob !in d.jobs
    requires a.kind == Restore || a.at in {AtCreateJob, AtReplace} || a.job in d.jobs
    requires a.at in {AtMarkAhead, AtMarkDone, AtNoChunks, AtRearm} ==> a.kind != Restore
    requires a.at == AtMarkAhead ==> a.kind == Write
    ensures CountsTo(d, d', limit, j, if a.kind == Sweep && a.at == AtRearm && a.job == j then 1 else 0)
  {
  }

  lemma EffectCounts(s: State, r: nat, reply: Reply, now: int, limit: nat, j: nat)
    requires Inv(s) && Within(s, limit) && r in s.attempts
    ensures Counts(s, Call(r, true, reply, now), Effect(s.db, r, s.attempts[r], now), limit, j)
  {
    NextJobIsFresh(s);
    assert AttemptFits(s.db, s.attempts[r], limit);
    hide Inv, Effect, Within, JobMoves, AttemptFits;
    AttemptJob(s, r);
    EffectMoves(s.db, r, s.attempts[r], now, j);
    MovesCount(s.db, Effect(s.db, r, s.attempts[r], now), s.attempts[r], limit, j);
  }

  lemma CallCounts(s: State, r: nat, effect: bool, reply: Reply, now: int, limit: nat, j: nat)
    requires Inv(s) && Within(s, limit) && r in s.attempts
    ensures Counts(s, Call(r, effect, reply, now), AfterCall(s, r, effect, reply, now).db, limit, j)
  {
    NoJobsAhead(s);
    hide Inv, Effect, After, Loses, Within;
    if effect {
      EffectCounts(s, r, reply, now, limit, j);
      hide Counts;
    }
  }

  lemma StepCounts(s: State, l: Label, limit: nat, j: nat)
    requires Inv(s) && Enabled(s, l) && Within(s, limit)
    ensures Counts(s, l, Next(s, l).db, limit, j)
  {
    hide Inv, AfterCall;
    if l.Call? { CallCounts(s, l.r, l.effect, l.reply, l.now, limit, j); }
    else { OtherStepJobs(s, l); }
  }

  /**
    The retry budget: in every run whose sweeps start on the rows as they are, the attempt count of a job is the number
    of failed sweeps recorded for it, that number never exceeds maxAttempts, and it reaches it exactly when the job is
    given up on.
  */
  lemma {:induction false} RetriesAreBounded(ls: seq<Label>, limit: nat, j: nat)
    requires Legal(EMPTY, ls) && FreshSweeps(ls, limit) && 1 <= limit
    ensures Within(Run(EMPTY, ls), limit) && Failures(ls, j) <= limit
    ensures var d := Run(EMPTY, ls).db;
            && (d.nextJob <= j ==> Failures(ls, j) == 0)
            && (j in d.jobs ==> Failures(ls, j) == d.jobs[j].attempts && (Failures(ls, j) == limit <==> d.jobs[j].status.JobFailed?))
  {
    if ls != [] {
      var init, l := ls[..|ls| - 1], ls[|ls| - 1];
      RetriesAreBounded(init, limit, j);
      ReachedInv(init);
      var s := Run(EMPTY, init);
      hide Inv, Enabled, Next, FreshSweep, RecordsFailure, AttemptFits;
      StepKeepsWithin(s, l, limit);
      StepCounts(s, l, limit, j);
      NoJobsAhead(s);
    }
  }

  lemma NoJobsAhead(s: State)
    requires Inv(s)
    ensures forall j :: j in s.db.jobs ==> j < s.db.nextJob
  {
    hide SliceOf, Ties, RowTies, Outbox;
  }

  /**
    A sweeper that works on an older snapshot of its job writes that snapshot's count plus one: the count grows by one
    if and only if the snapshot still agrees with the row.
  */
  lemma FailureCountsIff(s: State, r: nat, reply: Reply, now: int)
    requires Inv(s) && r in s.attempts && s.attempts[r].kind == Sweep && s.attempts[r].at == AtRearm
    ensures var j := s.attempts[r].job;
            var d' := AfterCall(s, r, true, reply, now).db;
            && j in s.db.jobs && j in d'.jobs
            && (d'.jobs[j].attempts == s.db.jobs[j].attempts + 1 <==> s.attempts[r].tries == s.db.jobs[j].attempts)
  {
    hide Inv, After, Loses;
    AttemptJob(s, r);
  }

  // ----- what holding the lease means -----

  // Job j is gone, or still pending with n attempts.
  predicate SnapshotHolds(d: Db, j: nat, n: nat) {
    j < d.nextJob && (j in d.jobs ==> d.jobs[j].status.JobPending? && d.jobs[j].attempts == n)
  }

  lemma SnapshotStep(s: State, l: Label, j: nat, n: nat)
    requires Enabled(s, l) && !MarksJob(s, l, j) && SnapshotHolds(s.db, j, n)
    ensures SnapshotHolds(Next(s, l).db, j, n)
  {
    hide Next;
    UnmarkedJob(s, l, j);
  }

  lemma {:induction false} SnapshotStays(ls: seq<Label>, i: nat, k: nat, j: nat, n: nat)
    requires Legal(EMPTY, ls) && i <= k <= |ls| && NoJobMark(ls, i, k, j)
    requires Legal(EMPTY, ls[..i]) && SnapshotHolds(Run(EMPTY, ls[..i]).db, j, n)
    ensures Legal(EMPTY, ls[..k]) && SnapshotHolds(Run(EMPTY, ls[..k]).db, j, n)
    decreases k
  {
    hide Next, Enabled, MarksJob, SnapshotHolds;
    PrefixLegal(ls, k);
    if i < k {
      assert NoJobMark(ls, i, k - 1, j);
      SnapshotStays(ls, i, k - 1, j, n);
      PrefixLegal(ls, k - 1);
      SnapshotStep(Run(EMPTY, ls[..k - 1]), ls[k - 1], j, n);
    }
  }

  lemma ClaimSnapshot(s: State, l: Label, j: nat)
    requires Inv(s) && l.Claim? && Enabled(s, l) && j in l.jobIds
    ensures j in s.db.jobs && SnapshotHolds(Next(s, l).db, j, s.db.jobs[j].attempts)
  {
    NoJobsAhead(s);
    hide Inv;
  }

  // Step k starts a sweep on a job as it was claimed at step i, and nobody has marked the job in between.
  ghost predicate ClaimedAt(ls: seq<Label>, i: nat, k: nat, limit: nat)
    requires Legal(EMPTY, ls)
  {
    && i < k < |ls| && Legal(EMPTY, ls[..i]) && ls[i].Claim? && ls[k].StartSweep? && ls[k].j in ls[i].jobIds
    && NoJobMark(ls, i + 1, k, ls[k].j) && ls[k].limit == limit
    && ls[k].j in Run(EMPTY, ls[..i]).db.jobs && ls[k].tries == Run(EMPTY, ls[..i]).db.jobs[ls[k].j].attempts
  }

  /** A sweep begun after its claim, with no mark on the job in between, starts on the row's own count. */
  lemma ClaimedSweepIsFresh(ls: seq<Label>, i: nat, k: nat, limit: nat)
    requires Legal(EMPTY, ls) && ClaimedAt(ls, i, k, limit)
    ensures Legal(EMPTY, ls[..k]) && FreshSweep(Run(EMPTY, ls[..k]), ls[k], limit)
  {
    hide Inv, Next, Enabled, NoJobMark;
    PrefixLegal(ls, i);
    PrefixLegal(ls, k);
    ReachedInv(ls[..i]);
    ClaimSnapshot(Run(EMPTY, ls[..i]), ls[i], ls[k].j);
    SnapshotStays(ls, i + 1, k, ls[k].j, ls[k].tries);
  }

  // Every sweep of the run starts on a claimed job that nobody has marked since.
  ghost predicate SweepsHoldLeases(ls: seq<Label>, limit: nat)
    requires Legal(EMPTY, ls)
  {
    forall k :: 0 <= k < |ls| && ls[k].StartSweep? ==> exists i :: ClaimedAt(ls, i, k, limit)
  }

  lemma {:induction false} LeasedSweepsAreFresh(ls: seq<Label>, n: nat, limit: nat)
    requires Legal(EMPTY, ls) && SweepsHoldLeases(ls, limit) && n <= |ls|
    ensures Legal(EMPTY, ls[..n]) && FreshSweeps(ls[..n], limit)
    decreases n
  {
    hide Next, Enabled, ClaimedAt;
    PrefixLegal(ls, n);
    if n > 0 {
      LeasedSweepsAreFresh(ls, n - 1, limit);
      assert ls[..n][..n - 1] == ls[..n - 1];
      if ls[n - 1].StartSweep? {
        var i :| ClaimedAt(ls, i, n - 1, limit);
        ClaimedSweepIsFresh(ls, i, n - 1, limit);
      }
    }
  }

  /** The retry budget of every run in which sweepers hold the leases of the jobs they sweep. */
  lemma LeasedRetriesAreBounded(ls: seq<Label>, limit: nat, j: nat)
    requires Legal(EMPTY, ls) && SweepsHoldLeases(ls, limit) && 1 <= limit
    ensures Failures(ls, j) <= limit
    ensures var d := Run(EMPTY, ls).db;
            j in d.jobs ==> Failures(ls, j) == d.jobs[j].attempts && (Failures(ls, j) == limit <==> d.jobs[j].status.JobFailed?)
  {
    hide FreshSweeps, SweepsHoldLeases, Failures;
    LeasedSweepsAreFresh(ls, |ls|, limit);
    assert ls[..|ls|] == ls;
    RetriesAreBounded(ls, limit, j);
  }
}
