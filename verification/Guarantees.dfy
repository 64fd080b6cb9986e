/** What the two-store protocol promises, stated on the tables, for every run from empty stores. */
module Guarantees {
  import opened Common
  import opened Store
  import opened Protocol
  import opened Slices
  import opened LocalInvariant
  import opened TableInvariant
  import opened ProtocolInvariant

  // Record r's stored chunks, its recorded point ids and its points in the index are in step.
  ghost predicate InStep(d: Db, r: nat)
    requires r in d.records
  {
    && (forall c :: c in d.chunks && d.chunks[c].record == r ==>
          && d.chunks[c].point.Some?
          && d.chunks[c].point.value in d.index
          && d.index[d.chunks[c].point.value] == Point(r, d.records[r].org, d.chunks[c].text))
    && (forall p :: p in d.index && d.index[p].record == r ==>
          p.chunk in d.chunks && d.chunks[p.chunk].record == r && d.chunks[p.chunk].point == Some(p))
  }

  // Record r's chunks are the given texts: one chunk each, numbered and in order, under the ids from .. from + |texts| - 1.
  ghost predicate StoresFrom(d: Db, r: nat, texts: seq<string>, from: nat) {
    && (forall c :: c in d.chunks && d.chunks[c].record == r <==> from <= c < from + |texts|)
    && forall c :: from <= c < from + |texts| ==>
         c in d.chunks && d.chunks[c].index == c - from && d.chunks[c].text == texts[c - from]
  }

  ghost predicate StoresTexts(d: Db, r: nat, texts: seq<string>) {
    exists from: nat :: StoresFrom(d, r, texts, from)
  }

  lemma OrderedIsStored(d: Db, r: nat, texts: seq<string>)
    ensures InOrder(SliceOf(d, r).chunks, texts) <==> StoresTexts(d, r, texts)
  {
    var chunks := SliceOf(d, r).chunks;
    forall from: nat ensures InOrderFrom(chunks, texts, from) <==> StoresFrom(d, r, texts, from) {
      assert forall c :: c in chunks <==> c in d.chunks && d.chunks[c].record == r;
      if StoresFrom(d, r, texts, from) {
        forall c | c in chunks ensures chunks[c].index == c - from && chunks[c].text == texts[c - from] {
          assert from <= c < from + |texts|;
        }
      }
      if InOrderFrom(chunks, texts, from) {
        forall c | from <= c < from + |texts|
          ensures c in d.chunks && d.chunks[c].index == c - from && d.chunks[c].text == texts[c - from]
        {
          assert c in chunks;
        }
      }
    }
  }

  // Some job of r will be retried, or waits for an operator.
  ghost predicate Scheduled(d: Db, r: nat) {
    exists j :: j in d.jobs && d.jobs[j].record == r
                && ((d.jobs[j].status.JobPending? && d.jobs[j].retryAt.Some?) || d.jobs[j].status.JobFailed?)
  }

  lemma SyncedIsInStep(d: Db, r: nat, cleaned: set<nat>)
    requires Sound(d, cleaned) && r in d.records
    ensures Synced(SliceOf(d, r), r) <==> InStep(d, r)
  {
    var v := SliceOf(d, r);
    if Synced(v, r) {
      forall c | c in d.chunks && d.chunks[c].record == r
        ensures d.chunks[c].point.Some? && d.chunks[c].point.value in d.index
        ensures d.index[d.chunks[c].point.value] == Point(r, d.records[r].org, d.chunks[c].text)
      {
        assert c in v.chunks && Recorded(v, r, c);
      }
      forall p | p in d.index && d.index[p].record == r
        ensures p.chunk in d.chunks && d.chunks[p.chunk].record == r && d.chunks[p.chunk].point == Some(p)
      {
        assert p in v.points;
      }
    }
    if InStep(d, r) {
      forall c | c in v.chunks ensures Recorded(v, r, c) {
        assert d.chunks[c].point.value in v.points;
      }
    }
  }

  lemma GuardedIsScheduled(d: Db, r: nat)
    ensures Guarded(SliceOf(d, r)) <==> Scheduled(d, r)
  {
    var v := SliceOf(d, r);
    if Guarded(v) {
      var j :| j in v.jobs && JobGuards(v.jobs[j]);
      assert j in d.jobs && d.jobs[j].record == r;
    }
    if Scheduled(d, r) {
      var j :| j in d.jobs && d.jobs[j].record == r && JobGuards(d.jobs[j]);
      assert j in v.jobs && JobGuards(v.jobs[j]);
    }
  }

  lemma {:induction false} RunKeepsInv(s: State, ls: seq<Label>)
    requires Inv(s) && Legal(s, ls)
    ensures Inv(Run(s, ls))
  {
    hide Inv;
    if ls != [] {
      RunKeepsInv(s, ls[..|ls| - 1]);
      StepKeepsInv(Run(s, ls[..|ls| - 1]), ls[|ls| - 1]);
    }
  }

  lemma EmptyInv()
    ensures Inv(EMPTY)
  {
  }

  // ----- crash-safe ingest -----

  /**
    In every reachable state, a live record that is not in the gap and has no attempt under way is in step with the
    index or scheduled for repair.
  */
  lemma CrashSafeIngest(ls: seq<Label>, r: nat)
    requires Legal(EMPTY, ls)
    requires var s := Run(EMPTY, ls); r in s.db.records && r !in s.attempts && r !in s.gap
    ensures var s := Run(EMPTY, ls); InStep(s.db, r) || Scheduled(s.db, r)
  {
    EmptyInv();
    RunKeepsInv(EMPTY, ls);
    var s := Run(EMPTY, ls);
    SafeAtRest(s, r);
  }

  /**
    The step leaves record r in one of the windows: its attempt ends in a window of Loses, or a sweep starts on a job
    that is no longer guarding it, its lease having run out.
  */
  predicate OpensWindow(s: State, l: Label, r: nat) {
    match l
    case Call(q, effect, reply, now) =>
      && q == r && r in s.attempts
      && (After(s.attempts[r], reply, s.db.nextChunk, s.db.nextJob).None? || s.attempts[r].at == AtNoChunks)
      && Loses(if effect then Effect(s.db, r, s.attempts[r], now) else s.db, r, s.attempts[r], effect)
    case StartSweep(j, _, _) => j in s.db.jobs && s.db.jobs[j].record == r && !JobGuards(s.db.jobs[j])
    case _ => false
  }

  ghost predicate StaysOutOfWindows(ls: seq<Label>, r: nat)
    requires Legal(EMPTY, ls)
  {
    ls == [] || (StaysOutOfWindows(ls[..|ls| - 1], r) && !OpensWindow(Run(EMPTY, ls[..|ls| - 1]), ls[|ls| - 1], r))
  }

  lemma StepKeepsGap(s: State, l: Label, r: nat)
    requires Enabled(s, l) && r !in s.gap && !OpensWindow(s, l, r)
    ensures r !in Next(s, l).gap
  {
    hide Effect, After, Loses, Settles, ArchiveRecord, TextsOf, PointsOfRows, DeletePoints;
  }

  lemma {:induction false} OutOfWindowsOutOfGap(ls: seq<Label>, r: nat)
    requires Legal(EMPTY, ls) && StaysOutOfWindows(ls, r)
    ensures r !in Run(EMPTY, ls).gap
  {
    hide Enabled, Next, OpensWindow;
    if ls != [] {
      OutOfWindowsOutOfGap(ls[..|ls| - 1], r);
      StepKeepsGap(Run(EMPTY, ls[..|ls| - 1]), ls[|ls| - 1], r);
    }
  }

  /**
    Crash-safe ingest, with the windows spelled out: in every run of any interleaving that never leaves record r in a
    window, r is in step or scheduled for repair whenever no attempt on it is under way, wherever attempts were cut off.
  */
  lemma CrashSafeOutsideWindows(ls: seq<Label>, r: nat)
    requires Legal(EMPTY, ls) && StaysOutOfWindows(ls, r)
    requires var s := Run(EMPTY, ls); r in s.db.records && r !in s.attempts
    ensures var s := Run(EMPTY, ls); InStep(s.db, r) || Scheduled(s.db, r)
  {
    OutOfWindowsOutOfGap(ls, r);
    CrashSafeIngest(ls, r);
  }

  lemma SafeAtRest(s: State, r: nat)
    requires Inv(s) && r in s.db.records && r !in s.attempts && r !in s.gap
    ensures InStep(s.db, r) || Scheduled(s.db, r)
  {
    assert RecordOk(s, r);
    hide SliceOf, Sound, Synced, Guarded;
    SyncedIsInStep(s.db, r, s.cleaned);
    GuardedIsScheduled(s.db, r);
  }

  lemma RepairIsSafe(v: Slice, r: nat, a: Attempt)
    requires LocalOk(v, r, Some(a), false) && a.kind in {Refresh, Sweep}
    ensures Safe(v, r)
  {
    hide Synced, Guarded, HoldsChunks, PointsFor;
  }

  /** Even while a refresh or a sweep is under way, at every one of its steps. */
  lemma SafeDuringRepair(s: State, r: nat)
    requires Inv(s) && r in s.attempts && r !in s.gap && s.attempts[r].kind in {Refresh, Sweep}
    ensures InStep(s.db, r) || Scheduled(s.db, r)
  {
    hide SliceOf, Sound, LocalOk, Synced, Guarded;
    assert RecordOk(s, r);
    RepairIsSafe(SliceOf(s.db, r), r, s.attempts[r]);
    SyncedIsInStep(s.db, r, s.cleaned);
    GuardedIsScheduled(s.db, r);
  }

  /** A write, refresh or sweep whose completion mark answered has left the record in step, gap or not. */
  lemma CompletionMeansInStep(s: State, r: nat, now: int)
    requires Inv(s) && r in s.attempts && s.attempts[r].at == AtMarkDone
    ensures var s' := Next(s, Call(r, true, Ok, now));
            && Inv(s') && r in s'.db.records && InStep(s'.db, r) && r !in s'.gap
            && s.attempts[r].job in s'.db.jobs && s'.db.jobs[s.attempts[r].job].status == JobCompleted
  {
    hide Sound, HoldsChunks, Effect, Synced, InStep;
    var a := s.attempts[r];
    var s' := Next(s, Call(r, true, Ok, now));
    StepKeepsInv(s, Call(r, true, Ok, now));
    assert RecordOk(s, r);
    MarkDoneSlices(s.db, r, a, now);
    SyncedIsInStep(s'.db, r, s'.cleaned);
  }

  lemma MarkDoneSlices(d: Db, r: nat, a: Attempt, now: int)
    requires r in d.records && a.at == AtMarkDone && a.job in SliceOf(d, r).jobs && Synced(SliceOf(d, r), r)
    ensures var d' := Effect(d, r, a, now);
            && a.job in d'.jobs && d'.jobs[a.job].status == JobCompleted
            && d'.records == d.records && Synced(SliceOf(d', r), r)
  {
    var d' := Effect(d, r, a, now);
    JobIsMine(d, r, a.job);
    SetJobSlices(d, d', r, a.job, d'.jobs[a.job]);
    SyncedIgnoresJobs(SliceOf(d, r), r, SliceOf(d', r).jobs);
  }

  // A sweep of job j and its first n calls, each of them answered.
  function ThroughSweep(j: nat, tries: nat, limit: nat, r: nat, now: int, n: nat): seq<Label> {
    if n == 0 then [StartSweep(j, tries, limit)]
    else ThroughSweep(j, tries, limit, r, now, n - 1) + [Call(r, true, Ok, now)]
  }

  // The attempt stands at a phase with its answer pending; one answered call moves it on.
  lemma AnsweredCall(s: State, r: nat, now: int, next: Phase)
    requires Inv(s) && r in s.attempts
    requires After(s.attempts[r], Ok, s.db.nextChunk, s.db.nextJob) == Some(s.attempts[r].(at := next))
    ensures var s' := Next(s, Call(r, true, Ok, now));
            Inv(s') && r in s'.attempts && s'.attempts[r] == s.attempts[r].(at := next)
  {
    hide Inv;
    StepKeepsInv(s, Call(r, true, Ok, now));
  }

  lemma RunAppends(s: State, ls: seq<Label>, l: Label)
    requires Legal(s, ls) && Enabled(Run(s, ls), l)
    ensures Legal(s, ls + [l]) && Run(s, ls + [l]) == Next(Run(s, ls), l)
  {
    assert (ls + [l])[..|ls|] == ls;
  }

  lemma SweepStarts(s: State, j: nat, tries: nat, limit: nat, now: int)
    requires Inv(s) && Enabled(s, StartSweep(j, tries, limit))
    requires TextsOf(s.db, s.db.jobs[j].record) != map[]
    ensures var r := s.db.jobs[j].record;
            var ls := ThroughSweep(j, tries, limit, r, now, 0);
            && Legal(s, ls)
            && var s' := Run(s, ls);
               Inv(s') && r in s'.attempts && s'.attempts[r].kind == Sweep && s'.attempts[r].at == AtEmbed
               && s'.attempts[r].job == j && s'.attempts[r].loaded != map[]
  {
    hide Inv, TextsOf;
    var start: seq<Label> := [];
    StepKeepsInv(s, StartSweep(j, tries, limit));
    RunAppends(s, start, StartSweep(j, tries, limit));
    assert start + [StartSweep(j, tries, limit)] == [StartSweep(j, tries, limit)];
  }

  /** From any state, however the record was left, a sweep that runs through brings it back in step. */
  lemma SweepRestores(s: State, j: nat, tries: nat, limit: nat, now: int)
    requires Inv(s) && Enabled(s, StartSweep(j, tries, limit))
    requires TextsOf(s.db, s.db.jobs[j].record) != map[]
    ensures var r := s.db.jobs[j].record;
            var ls := ThroughSweep(j, tries, limit, r, now, 5);
            && Legal(s, ls)
            && var s' := Run(s, ls);
               r in s'.db.records && InStep(s'.db, r) && r !in s'.gap
               && j in s'.db.jobs && s'.db.jobs[j].status == JobCompleted
  {
    hide Inv, InStep, Effect, TextsOf, Run, Legal, AfterCall;
    var r := s.db.jobs[j].record;
    SweepStarts(s, j, tries, limit, now);
    var call := Call(r, true, Ok, now);
    var phases := [AtDeleteOld, AtUpsert, AtLink, AtMarkDone];
    var n := 0;
    while n < 4
      invariant n <= 4
      invariant var ls := ThroughSweep(j, tries, limit, r, now, n);
                && Legal(s, ls)
                && var s' := Run(s, ls);
                   Inv(s') && r in s'.attempts && s'.attempts[r].kind == Sweep && s'.attempts[r].job == j
                   && s'.attempts[r].loaded != map[]
                   && s'.attempts[r].at == if n == 0 then AtEmbed else phases[n - 1]
    {
      var ls := ThroughSweep(j, tries, limit, r, now, n);
      AnsweredCall(Run(s, ls), r, now, phases[n]);
      RunAppends(s, ls, call);
      n := n + 1;
    }
    var ls := ThroughSweep(j, tries, limit, r, now, 4);
    CompletionMeansInStep(Run(s, ls), r, now);
    RunAppends(s, ls, call);
  }

  // ----- where the plain claim fails -----

  // Chunks without points are out of step.
  lemma UnindexedIsUnsynced(v: Slice, r: nat, c: nat)
    requires c in v.chunks && v.points == map[]
    ensures !Synced(v, r)
  {
    assert !Recorded(v, r, c);
  }

  lemma OneJobGuards(v: Slice, j: nat, job: Job)
    requires v.jobs == map[j := job]
    ensures Guarded(v) <==> JobGuards(job)
  {
    if JobGuards(job) { assert JobGuards(v.jobs[j]); }
  }

  lemma CutWriteLocal(v: Slice, r: nat, a: Attempt, effect: bool, now: int, nextChunk: nat, nextJob: nat)
    requires PhaseFacts(v, r, a) && a.kind == Write && a.at in {AtInsertChunks, AtMarkAhead} && a.texts != []
    ensures var v' := if effect then LocalEffect(v, r, a, now, nextChunk, nextJob) else v;
            Safe(v', r) <==> (effect <==> a.at == AtMarkAhead)
  {
    var v' := if effect then LocalEffect(v, r, a, now, nextChunk, nextJob) else v;
    var job := Job(r, a.org, JobPending, 0, None, false);
    assert v'.jobs == map[a.job := if effect && a.at == AtMarkAhead then v'.jobs[a.job] else job];
    OneJobGuards(v', a.job, v'.jobs[a.job]);
    hide Synced, Guarded;
    if a.at == AtInsertChunks && !effect {
      EmptySyncs(v', r);
    } else if a.at == AtInsertChunks {
      assert nextChunk in NewIds(nextChunk, |a.texts|);
      UnindexedIsUnsynced(v', r, nextChunk);
    } else {
      var c :| c in a.loaded;
      UnindexedIsUnsynced(v', r, c);
    }
  }

  lemma CutRestoreLocal(v: Slice, r: nat, a: Attempt, effect: bool, now: int, nextChunk: nat, nextJob: nat)
    requires PhaseFacts(v, r, a) && a.kind == Restore && a.at in {AtInsertChunks, AtEmbed, AtUpsert, AtLink}
    requires a.org == v.org && a.texts != []
    ensures var v' := if effect then LocalEffect(v, r, a, now, nextChunk, nextJob) else v;
            Safe(v', r) <==> (a.at == AtInsertChunks && !effect) || (a.at == AtLink && effect)
  {
    var v' := if effect then LocalEffect(v, r, a, now, nextChunk, nextJob) else v;
    assert v'.jobs == map[] && !Guarded(v');
    if a.at == AtInsertChunks && !effect {
      EmptySyncs(v', r);
    } else if a.at == AtLink && effect {
      LinkSyncs(v, r, a);
    } else if a.at == AtInsertChunks {
      assert nextChunk in NewIds(nextChunk, |a.texts|);
      assert nextChunk in v'.chunks;
      UnrecordedIsUnsynced(v', r, nextChunk);
    } else {
      var c :| c in a.loaded;
      UnrecordedIsUnsynced(v', r, c);
    }
  }

  lemma UnrecordedIsUnsynced(v: Slice, r: nat, c: nat)
    requires c in v.chunks && v.chunks[c].point.None?
    ensures !Synced(v, r)
  {
    assert !Recorded(v, r, c);
  }

  /**
    A restore that dies before its points are recorded leaves the restored record in step if and only if the call it
    died in was the chunk insert and did not take effect, or the recording and did. Nothing ever repairs the others: a
    restored record has no ingest job.
  */
  lemma CutRestoreIsSafeIff(s: State, r: nat, effect: bool, now: int)
    requires Inv(s) && r in s.attempts && s.attempts[r].kind == Restore && s.attempts[r].texts != []
    requires s.attempts[r].at in {AtInsertChunks, AtEmbed, AtUpsert, AtLink}
    ensures var at, d' := s.attempts[r].at, Next(s, Call(r, effect, Crash, now)).db;
            && r in d'.records
            && (InStep(d', r) || Scheduled(d', r) <==> (at == AtInsertChunks && !effect) || (at == AtLink && effect))
  {
    var a := s.attempts[r];
    var s' := Next(s, Call(r, effect, Crash, now));
    StepKeepsInv(s, Call(r, effect, Crash, now));
    hide Sound, SliceOf, PhaseFacts, PhaseSafe, Effect, LocalEffect, Loses, InStep, Scheduled, Synced, Guarded;
    assert RecordOk(s, r);
    SliceOrg(s.db, r);
    if effect { EffectFitsAlways(s.db, r, a, now, s.cleaned); }
    CutRestoreLocal(SliceOf(s.db, r), r, a, effect, now, s.db.nextChunk, s.db.nextJob);
    SyncedIsInStep(s'.db, r, s'.cleaned);
    GuardedIsScheduled(s'.db, r);
  }

  /**
    A write that dies storing or announcing its chunks leaves the record in step or scheduled if and only if the call it
    died in was the insert and did not take effect, or the write-ahead mark and did: the gap before the mark is real,
    and it is all there is.
  */
  lemma CutWriteIsSafeIff(s: State, r: nat, effect: bool, now: int)
    requires Inv(s) && r in s.attempts && s.attempts[r].kind == Write && s.attempts[r].texts != []
    requires s.attempts[r].at in {AtInsertChunks, AtMarkAhead}
    ensures var d' := Next(s, Call(r, effect, Crash, now)).db;
            && r in d'.records
            && (InStep(d', r) || Scheduled(d', r) <==> (effect <==> s.attempts[r].at == AtMarkAhead))
  {
    var a := s.attempts[r];
    var s' := Next(s, Call(r, effect, Crash, now));
    StepKeepsInv(s, Call(r, effect, Crash, now));
    hide Sound, SliceOf, PhaseFacts, PhaseSafe, Effect, LocalEffect, Loses, InStep, Scheduled, Synced, Guarded;
    assert RecordOk(s, r);
    SliceOrg(s.db, r);
    if effect { EffectFitsAlways(s.db, r, a, now, s.cleaned); }
    CutWriteLocal(SliceOf(s.db, r), r, a, effect, now, s.db.nextChunk, s.db.nextJob);
    SyncedIsInStep(s'.db, r, s'.cleaned);
    GuardedIsScheduled(s'.db, r);
  }

  /**
    A sweep that finds no chunks marks its job completed without deleting anything, so it leaves the record in step
    if and only if the index held no point of the record.
  */
  lemma EmptySweepInStepIff(s: State, r: nat, now: int)
    requires Inv(s) && r in s.attempts && s.attempts[r].at == AtNoChunks
    ensures var s' := Next(s, Call(r, true, Ok, now));
            && r in s'.db.records
            && (InStep(s'.db, r) <==> !exists p :: p in s.db.index && s.db.index[p].record == r)
  {
    EmptySweepFacts(s, r);
    hide Inv, InStep, After, Loses;
    WithoutChunks(s.db, r);
    SameRest(s.db, Next(s, Call(r, true, Ok, now)).db, r);
  }

  lemma EmptySweepFacts(s: State, r: nat)
    requires Inv(s) && r in s.attempts && s.attempts[r].at == AtNoChunks
    ensures r in s.db.records && forall c :: c in s.db.chunks ==> s.db.chunks[c].record != r
  {
    hide Sound;
    assert RecordOk(s, r);
    assert forall c :: c in s.db.chunks && s.db.chunks[c].record == r ==> c in SliceOf(s.db, r).chunks;
  }

  lemma WithoutChunks(d: Db, r: nat)
    requires r in d.records && forall c :: c in d.chunks ==> d.chunks[c].record != r
    ensures InStep(d, r) <==> !exists p :: p in d.index && d.index[p].record == r
  {
  }

  lemma SameRest(d: Db, d': Db, r: nat)
    requires r in d.records && d' == d.(jobs := d'.jobs)
    ensures InStep(d', r) <==> InStep(d, r)
  {
  }

  // A sweep of a claimed job that deletes the old points and then crashes.
  function CutSweep(j: nat, tries: nat, limit: nat, r: nat, now: int): seq<Label> {
    [StartSweep(j, tries, limit), Call(r, true, Ok, now), Call(r, true, Crash, now)]
  }

  lemma ThreeSteps(s: State, l0: Label, l1: Label, l2: Label)
    requires Enabled(s, l0) && Enabled(Next(s, l0), l1) && Enabled(Next(Next(s, l0), l1), l2)
    ensures Legal(s, [l0, l1, l2]) && Run(s, [l0, l1, l2]) == Next(Next(Next(s, l0), l1), l2)
  {
    hide Enabled, Next;
    var start: seq<Label> := [];
    RunAppends(s, start, l0);
    assert start + [l0] == [l0];
    RunAppends(s, [l0], l1);
    assert [l0] + [l1] == [l0, l1];
    RunAppends(s, [l0, l1], l2);
    assert [l0, l1] + [l2] == [l0, l1, l2];
  }

  lemma CutSweepRun(s: State, j: nat, tries: nat, limit: nat, now: int)
    requires Enabled(s, StartSweep(j, tries, limit)) && TextsOf(s.db, s.db.jobs[j].record) != map[]
    ensures var r := s.db.jobs[j].record;
            var ls := CutSweep(j, tries, limit, r, now);
            && Legal(s, ls)
            && Run(s, ls).db == DeleteByRecord(s.db, r, s.db.jobs[j].org)
  {
    hide TextsOf, Legal, Run, DeleteByRecord, Loses;
    var r := s.db.jobs[j].record;
    ThreeSteps(s, StartSweep(j, tries, limit), Call(r, true, Ok, now), Call(r, true, Crash, now));
  }

  /**
    A sweeper that starts on a job and crashes after its delete leaves the record out of step, and scheduled if and only
    if it was scheduled before: nothing is left to repair it exactly where the sweeper's lease had run out and another
    one has completed the job.
  */
  lemma StaleClaimLosesPoints(s: State, j: nat, tries: nat, limit: nat, now: int)
    requires Inv(s) && Enabled(s, StartSweep(j, tries, limit))
    requires TextsOf(s.db, s.db.jobs[j].record) != map[]
    ensures var r := s.db.jobs[j].record;
            var ls := CutSweep(j, tries, limit, r, now);
            && Legal(s, ls)
            && var s' := Run(s, ls);
               r in s'.db.records && !InStep(s'.db, r) && (Scheduled(s'.db, r) <==> Scheduled(s.db, r))
  {
    var r := s.db.jobs[j].record;
    CutSweepRun(s, j, tries, limit, now);
    SoundIds(s.db, s.cleaned);
    hide Run, Legal, Inv, InStep, Scheduled, DeleteByRecord, TextsOf, Enabled;
    DeletedPointsLost(s.db, r);
  }

  lemma DeletedPointsLost(d: Db, r: nat)
    requires r in d.records && TextsOf(d, r) != map[]
    ensures var d' := DeleteByRecord(d, r, d.records[r].org);
            && d'.records == d.records && (Scheduled(d', r) <==> Scheduled(d, r))
            && ((forall p :: p in d.index && d.index[p].record == r ==> d.index[p].org == d.records[r].org) ==> !InStep(d', r))
  {
    var d' := DeleteByRecord(d, r, d.records[r].org);
    var c :| c in TextsOf(d, r);
    assert c in d'.chunks && d'.chunks[c].record == r;
  }

  // ----- archiving and cleanup -----

  /** No live record has the id of an archived one, and no record is archived twice. */
  lemma ArchivedIsNeverLive(ls: seq<Label>, a: nat, b: nat)
    requires Legal(EMPTY, ls)
    requires var d := Run(EMPTY, ls).db; a in d.archive && b in d.archive
    ensures var d := Run(EMPTY, ls).db;
            && d.archive[a].record !in d.records
            && (d.archive[a].record == d.archive[b].record ==> a == b)
  {
    EmptyInv();
    RunKeepsInv(EMPTY, ls);
  }

  /**
    Archiving one record: nothing but that record, its chunks and its jobs leaves the tables, and exactly one row with
    the record's own fields enters the archive; the conflict clause never drops a deleted record.
  */
  lemma ArchivingLosesNothing(s: State, r: nat, org: string, run: nat, reason: Reason, planTime: int, now: int)
    requires Inv(s) && r !in s.attempts
    ensures var d, d' := s.db, Next(s, Archive(r, org, run, reason, planTime, now)).db;
            if r in d.records && d.records[r].org == org && d.records[r].updatedAt <= planTime then
              && d'.records == d.records - {r}
              && d'.archive.Keys == d.archive.Keys + {d.nextArchive} && d.nextArchive !in d.archive
              && (forall a :: a in d.archive ==> d'.archive[a] == d.archive[a])
              && var row := d'.archive[d.nextArchive];
                 row.record == r && row.snapshot == d.records[r] && row.run == run && row.reason == reason
                 && row.sourceId == Some(d.records[r].sourceId) && row.unarchivedAt == None
            else d' == d
  {
    if Archivable(s.db, r, org, planTime) { NeverConflicts(s.db, r, run); }
  }

  /** A record edited after a plan was made is not archived by that plan, and carries the edit. */
  lemma EditedIsNotArchived(
    s: State, r: nat, org: string, body: Body, now: int, other: string, run: nat, reason: Reason, planTime: int, later: int)
    requires r in s.db.records && s.db.records[r].org == org && r !in s.attempts && planTime < now
    ensures var s' := Next(s, Update(r, org, body, now));
            && Enabled(s', Archive(r, other, run, reason, planTime, later))
            && var d' := Next(s', Archive(r, other, run, reason, planTime, later)).db;
               && d'.records == s.db.records[r := Record(org, body, s.db.records[r].sourceId, s.db.records[r].createdAt, now)]
               && d' == s.db.(records := d'.records)
  {
  }

  /** An edit meant for another organization's record changes nothing. */
  lemma EditStaysInOrganization(s: State, r: nat, org: string, body: Body, now: int)
    requires r !in s.db.records || s.db.records[r].org != org
    ensures Next(s, Update(r, org, body, now)) == s
  {
  }

  /**
    Cleanup is never forgotten: in every reachable state a recorded point of an archived record that is still in the
    index is listed in a row the sweeper will claim again or has given up on, and a row marked deleted has none left.
  */
  lemma CleanupNeverForgotten(ls: seq<Label>, a: nat, p: PointId)
    requires Legal(EMPTY, ls)
    requires var d := Run(EMPTY, ls).db; a in d.archive && p in d.archive[a].points && p in d.index
    ensures var row := Run(EMPTY, ls).db.archive[a];
            (row.status == RowPending && row.retryAt.Some?) || row.status == RowFailed
  {
    EmptyInv();
    RunKeepsInv(EMPTY, ls);
    assert !Gone(Run(EMPTY, ls).db, a);
  }

  /** The row of a record that was in step lists all of its points. */
  lemma InStepRowListsAll(s: State, r: nat, org: string, run: nat, reason: Reason, planTime: int, now: int, p: PointId)
    requires Inv(s) && r !in s.attempts && Archivable(s.db, r, org, planTime)
    requires p in s.db.index && s.db.index[p].record == r
    ensures var d' := Next(s, Archive(r, org, run, reason, planTime, now)).db;
            s.db.nextArchive in d'.archive
            && (InStep(s.db, r) ==> p in d'.archive[s.db.nextArchive].points)
  {
    ArchivesRecorded(s, r, org, run, reason, planTime, now);
    hide Inv, Next, ArchiveRecord;
    if InStep(s.db, r) {
      assert s.db.chunks[p.chunk].point == Some(p);
      assert p in RecordedPoints(s.db, r);
    }
  }

  lemma ArchivesRecorded(s: State, r: nat, org: string, run: nat, reason: Reason, planTime: int, now: int)
    requires Inv(s) && r !in s.attempts && Archivable(s.db, r, org, planTime)
    ensures var d' := Next(s, Archive(r, org, run, reason, planTime, now)).db;
            s.db.nextArchive in d'.archive && d'.archive[s.db.nextArchive].points == RecordedPoints(s.db, r)
  {
    NeverConflicts(s.db, r, run);
    hide Inv, RecordedPoints, DropRecord;
  }

  /**
    A point that was upserted but not recorded before its record was archived stays in the index and is listed in no
    row at all: exactly the points whose chunk is gone or does not record them.
  */
  lemma UnrecordedPointLeaksIff(s: State, r: nat, org: string, run: nat, reason: Reason, planTime: int, now: int, p: PointId)
    requires Inv(s) && r !in s.attempts && Archivable(s.db, r, org, planTime)
    requires p in s.db.index && s.db.index[p].record == r
    ensures var d' := Next(s, Archive(r, org, run, reason, planTime, now)).db;
            && p in d'.index
            && ((forall a :: a in d'.archive ==> p !in d'.archive[a].points)
                <==> !(p.chunk in s.db.chunks && s.db.chunks[p.chunk].point == Some(p)))
  {
    var d := s.db;
    NeverConflicts(d, r, run);
    var d' := Next(s, Archive(r, org, run, reason, planTime, now)).db;
    if p.chunk in d.chunks && d.chunks[p.chunk].point == Some(p) {
      assert p in RecordedPoints(d, r);
      assert p in d'.archive[d.nextArchive].points;
    } else {
      forall a | a in d'.archive ensures p !in d'.archive[a].points {
        assert a in d.archive ==> d.archive[a].record !in d.records;
      }
    }
  }
}
