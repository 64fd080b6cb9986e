/** Runs from empty stores: an ordinary write, and one run into each of the states in which nothing repairs a record. */
module Scenarios {
  import opened Common
  import opened Backoff
  import opened Store
  import opened Protocol
  import opened Slices
  import opened LocalInvariant
  import opened TableInvariant
  import opened ProtocolInvariant
  import opened Guarantees
  import opened Deployment
  import opened WritePaths

  lemma Extends(ls: seq<Label>, l: Label)
    requires Legal(EMPTY, ls) && Enabled(Run(EMPTY, ls), l)
    ensures Legal(EMPTY, ls + [l]) && Run(EMPTY, ls + [l]) == Next(Run(EMPTY, ls), l)
    ensures Inv(Run(EMPTY, ls)) && Inv(Run(EMPTY, ls + [l]))
    ensures forall r :: StaysOutOfWindows(ls, r) && !OpensWindow(Run(EMPTY, ls), l, r) ==> StaysOutOfWindows(ls + [l], r)
  {
    hide Inv, Enabled, Next, OpensWindow;
    RunAppends(EMPTY, ls, l);
    EmptyInv();
    RunKeepsInv(EMPTY, ls);
    RunKeepsInv(EMPTY, ls + [l]);
    assert (ls + [l])[..|ls|] == ls;
  }

  // ----- an ordinary write -----

  const WRITE_PHASES :=
    [AtCreateJob, AtInsertChunks, AtMarkAhead, AtEmbed, AtUpsert, AtLink, AtMarkDone, AtClose]

  // The first write stands at its n-th call, all calls before having answered.
  ghost predicate Writing(s: State, rec: Record, texts: seq<string>, n: nat) {
    && n < 8 && s.attempts.Keys == {1} && s.db.records == map[1 := rec] && s.db.archive == map[] && s.gap == {}
    && s.db.nextRecord == 2 && s.db.nextArchive == 1
    && s.db.nextJob == (if n == 0 then 1 else 2) && s.db.jobs.Keys == (if n == 0 then {} else {1})
    && (n == 7 ==> s.db.jobs[1].status == JobCompleted)
    && var a := s.attempts[1];
       && a.kind == Write && a.at == WRITE_PHASES[n] && a.org == rec.org && a.texts == texts
       && (n != 0 ==> a.job == 1 && s.db.jobs[1].record == 1 && s.db.jobs[1].org == rec.org)
  }

  lemma WriteStarts(rec: Record, texts: seq<string>)
    ensures var l := StartWrite(rec, texts); Enabled(EMPTY, l) && Writing(Next(EMPTY, l), rec, texts, 0)
  {
  }

  lemma StartedAlone(rec: Record, texts: seq<string>)
    ensures Next(EMPTY, StartWrite(rec, texts)).attempts.Keys == {1}
  {
  }

  lemma BareRow(s: State, rec: Record, now: int)
    requires s.db == Next(EMPTY, StartWrite(rec, [])).db && s.attempts == map[]
    ensures var l := Archive(1, rec.org, 1, Decay(0.0), rec.updatedAt, now);
            && Enabled(s, l)
            && var d' := Next(s, l).db;
               && 1 in d'.archive && d'.archive[1].snapshot == rec && d'.archive[1].points == {}
               && d'.archive[1].status.RowPending? && forall t :: !RowDue(d'.archive[1], t)
  {
    assert RecordedPoints(s.db, 1) == {};
  }

  lemma WriteCalls(s: State, rec: Record, texts: seq<string>, n: nat, now: int)
    requires Writing(s, rec, texts, n) && texts != [] && n < 7
    ensures var l := Call(1, true, Ok, now);
            Enabled(s, l) && Writing(Next(s, l), rec, texts, n + 1) && !OpensWindow(s, l, 1)
  {
    hide PointsFor, LinksFor, NewChunks, NewTexts, NextRetryDelayMs;
    assert HasChunks(s.attempts[1]);
  }

  lemma {:induction false} WriteContinues(ls: seq<Label>, rec: Record, texts: seq<string>, n: nat, m: nat, now: int)
    returns (more: seq<Label>)
    requires Legal(EMPTY, ls) && Writing(Run(EMPTY, ls), rec, texts, n) && texts != [] && n <= m < 8
    ensures ls <= more && Legal(EMPTY, more) && Inv(Run(EMPTY, more)) && Writing(Run(EMPTY, more), rec, texts, m)
    ensures StaysOutOfWindows(ls, 1) ==> StaysOutOfWindows(more, 1)
    decreases m
  {
    hide Enabled, Next, OpensWindow, Writing, Inv;
    more := ls;
    EmptyInv();
    RunKeepsInv(EMPTY, ls);
    if n < m {
      more := WriteContinues(ls, rec, texts, n, m - 1, now);
      var l := Call(1, true, Ok, now);
      WriteCalls(Run(EMPTY, more), rec, texts, m - 1, now);
      Extends(more, l);
      more := more + [l];
    }
  }

  // The first write is complete.
  ghost predicate Written(s: State, rec: Record, texts: seq<string>) {
    && Inv(s) && s.attempts == map[] && s.db.records == map[1 := rec] && s.db.archive == map[] && s.gap == {}
    && s.db.nextRecord == 2 && s.db.nextArchive == 1 && s.db.nextJob == 2
    && s.db.jobs.Keys == {1} && s.db.jobs[1].record == 1 && s.db.jobs[1].org == rec.org
    && s.db.jobs[1].status == JobCompleted && InStep(s.db, 1)
    && StoresTexts(s.db, 1, texts) && TextsOf(s.db, 1) != map[]
  }

  lemma WriteCloses(s: State, rec: Record, texts: seq<string>, now: int)
    requires Inv(s) && Writing(s, rec, texts, 7) && texts != []
    ensures var l := Call(1, true, Ok, now); Enabled(s, l) && Written(Next(s, l), rec, texts) && !OpensWindow(s, l, 1)
  {
    hide Inv, InStep, TextsOf, StoresTexts, Enabled, Next, OpensWindow, AfterCall;
    ClosedInStep(s, 1, now);
    ClosedHolds(s, 1, now);
    StoredIsThere(AfterCall(s, 1, true, Ok, now).db, 1, texts);
    ClosingCall(s, rec, texts, now);
    StepKeepsInv(s, Call(1, true, Ok, now));
  }

  lemma ClosingCall(s: State, rec: Record, texts: seq<string>, now: int)
    requires Writing(s, rec, texts, 7)
    ensures var l := Call(1, true, Ok, now);
            && Enabled(s, l) && !OpensWindow(s, l, 1) && Next(s, l) == AfterCall(s, 1, true, Ok, now)
            && Next(s, l) == s.(db := CloseJob(s.db, 1), attempts := map[])
  {
  }

  lemma StoredIsThere(d: Db, r: nat, texts: seq<string>)
    requires StoresTexts(d, r, texts) && texts != []
    ensures TextsOf(d, r) != map[]
  {
    var from: nat :| StoresFrom(d, r, texts, from);
    assert from in d.chunks && d.chunks[from].record == r;
    assert from in TextsOf(d, r);
  }

  lemma WriteFinishes(ls: seq<Label>, rec: Record, texts: seq<string>, n: nat, now: int) returns (more: seq<Label>)
    requires Legal(EMPTY, ls) && Writing(Run(EMPTY, ls), rec, texts, n) && texts != [] && n < 8
    ensures ls <= more && Legal(EMPTY, more) && Written(Run(EMPTY, more), rec, texts)
    ensures StaysOutOfWindows(ls, 1) ==> StaysOutOfWindows(more, 1)
  {
    hide Enabled, Next, OpensWindow, Writing, Written;
    more := WriteContinues(ls, rec, texts, n, 7, now);
    WriteCloses(Run(EMPTY, more), rec, texts, now);
    Extends(more, Call(1, true, Ok, now));
    more := more + [Call(1, true, Ok, now)];
  }

  lemma WriteUpTo(rec: Record, texts: seq<string>, n: nat, now: int) returns (ls: seq<Label>)
    requires texts != [] && n < 8
    ensures Legal(EMPTY, ls) && Inv(Run(EMPTY, ls)) && Writing(Run(EMPTY, ls), rec, texts, n)
    ensures StaysOutOfWindows(ls, 1)
  {
    hide Enabled, Next, OpensWindow, Writing, Inv;
    var start: seq<Label> := [];
    WriteStarts(rec, texts);
    NoWindowAtStart(rec, texts);
    Extends(start, StartWrite(rec, texts));
    ls := WriteContinues(start + [StartWrite(rec, texts)], rec, texts, 0, n, now);
  }

  /** A write all of whose calls answer never leaves its record in a window, and leaves it in step. */
  lemma CompletedWrite(rec: Record, texts: seq<string>, now: int) returns (ls: seq<Label>)
    requires texts != []
    ensures Legal(EMPTY, ls) && StaysOutOfWindows(ls, 1) && Written(Run(EMPTY, ls), rec, texts)
  {
    hide Writing, Written;
    ls := WriteUpTo(rec, texts, 0, now);
    ls := WriteFinishes(ls, rec, texts, 0, now);
  }

  lemma NoWindowAtStart(rec: Record, texts: seq<string>)
    ensures !OpensWindow(EMPTY, StartWrite(rec, texts), 1)
  {
  }

  // ----- runs that lose a record -----

  // Record r is live, nobody works on it, it is out of step and nothing is scheduled.
  ghost predicate Lost(s: State, r: nat) {
    r in s.db.records && r !in s.attempts && !InStep(s.db, r) && !Scheduled(s.db, r)
  }

  lemma CrashEnds(s: State, r: nat, effect: bool, now: int)
    requires r in s.attempts
    ensures Enabled(s, Call(r, effect, Crash, now)) && r !in Next(s, Call(r, effect, Crash, now)).attempts
  {
  }

  lemma InsertCut(s: State, rec: Record, texts: seq<string>, now: int)
    requires Inv(s) && Writing(s, rec, texts, 1) && texts != []
    ensures Enabled(s, Call(1, true, Crash, now)) && Lost(Next(s, Call(1, true, Crash, now)), 1)
  {
    hide Inv, InStep, Scheduled, Next, Enabled;
    CrashEnds(s, 1, true, now);
    CutWriteIsSafeIff(s, 1, true, now);
  }

  /** A write that dies between storing its chunks and announcing them. */
  lemma CutWriteReached(rec: Record, texts: seq<string>, now: int) returns (ls: seq<Label>)
    requires texts != []
    ensures Legal(EMPTY, ls) && Lost(Run(EMPTY, ls), 1)
  {
    hide Enabled, Next, Inv, Lost, Run, Legal, Writing;
    ls := WriteUpTo(rec, texts, 1, now);
    InsertCut(Run(EMPTY, ls), rec, texts, now);
    Extends(ls, Call(1, true, Crash, now));
    ls := ls + [Call(1, true, Crash, now)];
  }

  // The archive row of the first record, restored as record 2 up to its embedding call.
  ghost predicate Restoring(s: State, rec: Record, texts: seq<string>, at: Phase) {
    && Inv(s) && 2 in s.attempts && s.attempts[2] == Attempt(Restore, at, rec.org, texts, s.attempts[2].loaded, 0, 0, 0, 1)
  }

  lemma ArchiveWritten(s: State, rec: Record, texts: seq<string>, now: int)
    requires Written(s, rec, texts)
    ensures var l := Archive(1, rec.org, 1, Decay(0.0), rec.updatedAt, now);
            && Enabled(s, l)
            && var d' := Next(s, l).db;
               && d'.nextRecord == 2 && 1 in d'.archive && d'.archive[1].sourceId.Some? && d'.archive[1].snapshot == rec
  {
    hide Inv, InStep, TextsOf, StoresTexts, ArchiveRecord;
    ArchivingLosesNothing(s, 1, rec.org, 1, Decay(0.0), rec.updatedAt, now);
    ArchiveMakesNoRecord(s.db, 1, rec.org, 1, Decay(0.0), rec.updatedAt, now);
  }

  lemma ArchiveMakesNoRecord(d: Db, r: nat, org: string, run: nat, reason: Reason, planTime: int, now: int)
    ensures ArchiveRecord(d, r, org, run, reason, planTime, now).nextRecord == d.nextRecord
  {
  }

  lemma RestoreStarts(s: State, rec: Record, texts: seq<string>, now: int)
    requires Inv(s) && s.db.nextRecord == 2 && 1 in s.db.archive && s.db.archive[1].sourceId.Some?
    requires s.db.archive[1].snapshot == rec
    ensures Enabled(s, StartRestore(1, texts)) && Restoring(Next(s, StartRestore(1, texts)), rec, texts, AtInsertChunks)
  {
    StepKeepsInv(s, StartRestore(1, texts));
    hide Inv;
  }

  lemma RestoreStores(s: State, rec: Record, texts: seq<string>, now: int)
    requires Restoring(s, rec, texts, AtInsertChunks)
    ensures Enabled(s, Call(2, true, Ok, now)) && Restoring(Next(s, Call(2, true, Ok, now)), rec, texts, AtEmbed)
  {
    StepKeepsInv(s, Call(2, true, Ok, now));
    hide Inv, NewTexts, NewChunks;
  }

  /** A restore that dies after storing its chunks. */
  lemma CutRestoreReached(rec: Record, texts: seq<string>, now: int) returns (ls: seq<Label>)
    requires texts != []
    ensures Legal(EMPTY, ls) && Lost(Run(EMPTY, ls), 2)
  {
    hide Enabled, Next, Inv, InStep, Scheduled, Run, Legal, Written, OpensWindow, Lost;
    ls := CompletedWrite(rec, texts, now);
    ArchiveWritten(Run(EMPTY, ls), rec, texts, now);
    Extends(ls, Archive(1, rec.org, 1, Decay(0.0), rec.updatedAt, now));
    ls := ls + [Archive(1, rec.org, 1, Decay(0.0), rec.updatedAt, now)];
    RestoreStarts(Run(EMPTY, ls), rec, texts, now);
    Extends(ls, StartRestore(1, texts));
    ls := ls + [StartRestore(1, texts)];
    RestoreStores(Run(EMPTY, ls), rec, texts, now);
    Extends(ls, Call(2, true, Ok, now));
    ls := ls + [Call(2, true, Ok, now)];
    EmbedCut(Run(EMPTY, ls), rec, texts, now);
    Extends(ls, Call(2, true, Crash, now));
    ls := ls + [Call(2, true, Crash, now)];
  }

  lemma EmbedCut(s: State, rec: Record, texts: seq<string>, now: int)
    requires Restoring(s, rec, texts, AtEmbed) && texts != []
    ensures Enabled(s, Call(2, true, Crash, now)) && Lost(Next(s, Call(2, true, Crash, now)), 2)
  {
    CrashEnds(s, 2, true, now);
    CutRestoreIsSafeIff(s, 2, true, now);
  }

  // The record's chunks are gone, its points are not, and its job 2 waits for a sweep.
  ghost predicate Emptied(s: State) {
    && Inv(s) && s.attempts == map[] && 1 in s.db.records && s.db.jobs.Keys == {1, 2}
    && s.db.jobs[1].status == JobCompleted && s.db.jobs[2].record == 1 && JobGuards(s.db.jobs[2])
    && TextsOf(s.db, 1) == map[] && exists p :: p in s.db.index && s.db.index[p].record == 1
  }

  lemma InStepHasPoint(d: Db, r: nat)
    requires r in d.records && InStep(d, r) && TextsOf(d, r) != map[]
    ensures exists p :: p in d.index && d.index[p].record == r
  {
    var c :| c in TextsOf(d, r);
    assert d.chunks[c].point.value in d.index;
  }

  lemma RefreshStarts(s: State, rec: Record, texts: seq<string>)
    requires Written(s, rec, texts)
    ensures var l := StartRefresh(1, []);
            && Enabled(s, l)
            && Next(s, l) == s.(attempts := map[1 := Attempt(Refresh, AtReplace, rec.org, [], map[], 0, 0, 0, 0)])
  {
  }

  // The record's chunks are replaced by none, under a new job with a retry time.
  ghost predicate Replaced(s: State, s': State) {
    && s'.attempts.Keys == {1} && s'.db.records == s.db.records && s'.db.index == s.db.index
    && TextsOf(s'.db, 1) == map[] && s'.db.jobs.Keys == s.db.jobs.Keys + {2}
    && (forall j :: j in s.db.jobs && j != 2 ==> s'.db.jobs[j] == s.db.jobs[j])
    && s'.db.jobs[2].record == 1 && JobGuards(s'.db.jobs[2])
  }

  lemma RefreshEmpties(s: State, rec: Record, texts: seq<string>, now: int)
    requires Written(s.(attempts := map[]), rec, texts)
    requires s.attempts == map[1 := Attempt(Refresh, AtReplace, rec.org, [], map[], 0, 0, 0, 0)]
    ensures var l := Call(1, true, Ok, now); Enabled(s, l) && Replaced(s, Next(s, l))
  {
    hide Inv, InStep;
    var none: seq<string> := [];
    assert forall c :: c !in NewIds(s.db.nextChunk, 0);
    assert NewChunks(s.db.nextChunk, 1, none) == map[];
  }

  /** A refresh to an empty content that dies before its delete, and the sweep that follows. */
  lemma EmptySweepReached(rec: Record, texts: seq<string>, now: int) returns (ls: seq<Label>)
    requires texts != []
    ensures Legal(EMPTY, ls) && Lost(Run(EMPTY, ls), 1)
  {
    hide Enabled, Next, Inv, InStep, Scheduled, Run, Legal, Written, OpensWindow, Lost, TextsOf;
    ls := EmptiedReached(rec, texts, now);
    SweepFindsNothing(Run(EMPTY, ls));
    Extends(ls, StartSweep(2, 0, 5));
    ls := ls + [StartSweep(2, 0, 5)];
    EmptySweepLoses(Run(EMPTY, ls), now);
    Extends(ls, Call(1, true, Ok, now));
    ls := ls + [Call(1, true, Ok, now)];
  }

  lemma EmptiedReached(rec: Record, texts: seq<string>, now: int) returns (ls: seq<Label>)
    requires texts != []
    ensures Legal(EMPTY, ls) && Emptied(Run(EMPTY, ls))
  {
    hide Enabled, Next, Inv, InStep, Run, Legal, OpensWindow, TextsOf;
    ls := CompletedWrite(rec, texts, now);
    var s := Run(EMPTY, ls);
    InStepHasPoint(s.db, 1);
    RefreshStarts(s, rec, texts);
    Extends(ls, StartRefresh(1, []));
    ls := ls + [StartRefresh(1, [])];
    RefreshEmpties(Run(EMPTY, ls), rec, texts, now);
    Extends(ls, Call(1, true, Ok, now));
    ls := ls + [Call(1, true, Ok, now)];
    CrashWithoutEffect(Run(EMPTY, ls), 1, now);
    Extends(ls, Call(1, false, Crash, now));
    ls := ls + [Call(1, false, Crash, now)];
  }

  lemma CrashWithoutEffect(s: State, r: nat, now: int)
    requires s.attempts.Keys == {r}
    ensures var l := Call(r, false, Crash, now); Enabled(s, l) && Next(s, l).db == s.db && Next(s, l).attempts == map[]
  {
  }

  // A sweep of job 2 stands before the mark that closes it.
  ghost predicate AboutToClose(s: State) {
    && Inv(s) && 1 in s.attempts && s.attempts[1].at == AtNoChunks && s.attempts[1].kind == Sweep && s.attempts[1].job == 2
    && s.db.jobs.Keys == {1, 2} && s.db.jobs[1].status == JobCompleted
    && exists p :: p in s.db.index && s.db.index[p].record == 1
  }

  lemma SweepFindsNothing(s: State)
    requires Emptied(s)
    ensures Enabled(s, StartSweep(2, 0, 5)) && AboutToClose(Next(s, StartSweep(2, 0, 5)))
  {
    StepKeepsInv(s, StartSweep(2, 0, 5));
    hide Inv, TextsOf, StoresTexts;
  }

  lemma EmptySweepLoses(s: State, now: int)
    requires AboutToClose(s)
    ensures Enabled(s, Call(1, true, Ok, now)) && Lost(Next(s, Call(1, true, Ok, now)), 1)
  {
    EmptySweepInStepIff(s, 1, now);
    hide Inv, InStep, Enabled, Next, Scheduled;
    ClosesNothing(s, now);
  }

  lemma ClosesNothing(s: State, now: int)
    requires AboutToClose(s)
    ensures var l := Call(1, true, Ok, now);
            && Enabled(s, l) && 1 !in Next(s, l).attempts && Next(s, l).db == MarkJobCompleted(s.db, 2)
            && !Scheduled(Next(s, l).db, 1)
  {
    hide Inv, InStep, Loses;
  }

  // ----- a stale claim -----

  lemma AnnouncedIsDue(s: State, rec: Record, texts: seq<string>, now: int)
    requires Writing(s, rec, texts, 2) && texts != []
    ensures var s', t := Next(s, Call(1, true, Ok, now)), now + NextRetryDelayMs(0);
            1 in s'.db.jobs && JobDue(s'.db.jobs[1], t)
  {
    hide PointsFor, LinksFor, NewChunks, NewTexts, NextRetryDelayMs;
  }

  lemma ClaimLeavesWrite(s: State, rec: Record, texts: seq<string>, t: int)
    requires Writing(s, rec, texts, 3) && JobDue(s.db.jobs[1], t)
    ensures var l := Claim({1}, t); Enabled(s, l) && Writing(Next(s, l), rec, texts, 3)
  {
  }

  lemma NothingScheduled(s: State, rec: Record, texts: seq<string>)
    requires Written(s, rec, texts)
    ensures !Scheduled(s.db, 1) && Enabled(s, StartSweep(1, 0, 5)) && s.db.jobs[1].record == 1
  {
    hide Inv, InStep, TextsOf, StoresTexts;
  }

  lemma {:induction false} RunsTogether(ls: seq<Label>, ms: seq<Label>)
    requires Legal(EMPTY, ls) && Legal(Run(EMPTY, ls), ms)
    ensures Legal(EMPTY, ls + ms) && Run(EMPTY, ls + ms) == Run(Run(EMPTY, ls), ms)
  {
    hide Enabled, Next;
    if ms == [] {
      assert ls + ms == ls;
    } else {
      var init, l := ms[..|ms| - 1], ms[|ms| - 1];
      RunsTogether(ls, init);
      RunAppends(EMPTY, ls + init, l);
      assert (ls + init) + [l] == ls + ms;
    }
  }

  /**
    A write takes longer than its first retry delay, so that a sweeper claims its job; the write completes, and only then
    does the sweeper start, to die after its delete.
  */
  lemma StaleClaimReached(rec: Record, texts: seq<string>, now: int) returns (ls: seq<Label>)
    requires texts != []
    ensures Legal(EMPTY, ls) && Claim({1}, now + NextRetryDelayMs(0)) in ls
    ensures 1 in Run(EMPTY, ls).db.records && !InStep(Run(EMPTY, ls).db, 1) && !Scheduled(Run(EMPTY, ls).db, 1)
  {
    hide Enabled, Next, Inv, InStep, Scheduled, OpensWindow, Writing, NextRetryDelayMs, TextsOf, CutSweep, Run, Legal;
    ls := ClaimedMeanwhile(rec, texts, now);
    var claimed := ls;
    ls := WriteFinishes(ls, rec, texts, 3, now);
    var s := Run(EMPTY, ls);
    NothingScheduled(s, rec, texts);
    StaleClaimLosesPoints(s, 1, 0, 5, now);
    RunsTogether(ls, CutSweep(1, 0, 5, 1, now));
    ls := ls + CutSweep(1, 0, 5, 1, now);
  }

  lemma ClaimedMeanwhile(rec: Record, texts: seq<string>, now: int) returns (ls: seq<Label>)
    requires texts != []
    ensures Legal(EMPTY, ls) && Writing(Run(EMPTY, ls), rec, texts, 3) && Claim({1}, now + NextRetryDelayMs(0)) in ls
  {
    hide Enabled, Next, Inv, OpensWindow, Writing, NextRetryDelayMs, Run, Legal;
    ls := WriteUpTo(rec, texts, 2, now);
    var s := Run(EMPTY, ls);
    WriteCalls(s, rec, texts, 2, now);
    AnnouncedIsDue(s, rec, texts, now);
    Extends(ls, Call(1, true, Ok, now));
    ls := ls + [Call(1, true, Ok, now)];
    ClaimLeavesWrite(Run(EMPTY, ls), rec, texts, now + NextRetryDelayMs(0));
    Extends(ls, Claim({1}, now + NextRetryDelayMs(0)));
    ls := ls + [Claim({1}, now + NextRetryDelayMs(0))];
  }

  // ----- a row without points -----

  /**
    A record without chunks, archived: its row lists no points, stays pending until it is marked, and is never claimed.
    A compaction whose status mark for it fails throws without marking its run as failed.
  */
  lemma BareRowReached(rec: Record, now: int) returns (ls: seq<Label>)
    ensures Legal(EMPTY, ls) && var d := Run(EMPTY, ls).db;
            && 1 in d.archive && d.archive[1].snapshot == rec && d.archive[1].points == {}
            && d.archive[1].status.RowPending? && forall t :: !RowDue(d.archive[1], t)
  {
    hide Enabled, Next, Inv, OpensWindow;
    var start: seq<Label> := [];
    var none: seq<string> := [];
    WriteStarts(rec, none);
    hide Writing;
    Extends(start, StartWrite(rec, none));
    ls := start + [StartWrite(rec, none)];
    assert Run(EMPTY, ls).attempts.Keys == {1} by { StartedAlone(rec, none); }
    CrashWithoutEffect(Run(EMPTY, ls), 1, now);
    Extends(ls, Call(1, false, Crash, now));
    ls := ls + [Call(1, false, Crash, now)];
    BareRow(Run(EMPTY, ls), rec, now);
    Extends(ls, Archive(1, rec.org, 1, Decay(0.0), rec.updatedAt, now));
    ls := ls + [Archive(1, rec.org, 1, Decay(0.0), rec.updatedAt, now)];
  }
}
