/** The goal run repository: runs, their numbered iterations and the memories linked to them. */
module GoalRuns {
  import opened Common

  datatype RunStatus = Active | Completed | Abandoned

  datatype GoalRun = GoalRun(org: string, goal: string, status: RunStatus, iterationCount: nat, closedAt: Option<int>, note: Option<string>)

  datatype Iteration = Iteration(run: nat, org: string, index: nat, attempt: string, outcome: string)

  datatype Memory = Memory(org: string, goalRun: Option<nat>)

  datatype Goals = Goals(
    runs: map<nat, GoalRun>, iterations: map<nat, Iteration>, memories: map<nat, Memory>, nextRun: nat, nextIteration: nat)

  // ----- the statements -----

  predicate IsActive(g: Goals, r: nat, org: string) {
    r in g.runs && g.runs[r].org == org && g.runs[r].status.Active?
  }

  function InsertRun(g: Goals, org: string, goal: string): Goals {
    g.(runs := g.runs[g.nextRun := GoalRun(org, goal, Active, 0, None, None)], nextRun := g.nextRun + 1)
  }

  function Bump(g: Goals, r: nat): Goals
    requires r in g.runs
  {
    g.(runs := g.runs[r := g.runs[r].(iterationCount := g.runs[r].iterationCount + 1)])
  }

  function InsertIteration(g: Goals, it: Iteration): Goals {
    g.(iterations := g.iterations[g.nextIteration := it], nextIteration := g.nextIteration + 1)
  }

  // Only memories of the same organization are linked.
  function LinkMemories(g: Goals, r: nat, ids: set<nat>, org: string): Goals {
    g.(memories := map m | m in g.memories ::
      if m in ids && g.memories[m].org == org then g.memories[m].(goalRun := Some(r)) else g.memories[m])
  }

  function Close(g: Goals, r: nat, status: RunStatus, note: Option<string>, now: int): Goals
    requires r in g.runs
  {
    g.(runs := g.runs[r := g.runs[r].(status := status, note := note, closedAt := Some(now))])
  }

  // ----- committed operations -----

  datatype Op =
    | Start(org: string, goal: string)
    | Record(r: nat, org: string, attempt: string, outcome: string, memoryIds: set<nat>)
    | CloseRun(r: nat, org: string, abandon: bool, note: Option<string>, now: int)

  // What the operation leaves when it commits; on a run that is not active it changes nothing.
  function Apply(g: Goals, op: Op): Goals {
    match op
    case Start(org, goal) => InsertRun(g, org, goal)
    case Record(r, org, attempt, outcome, ids) =>
      if !IsActive(g, r, org) then g
      else
        var bumped := Bump(g, r);
        var it := Iteration(r, org, bumped.runs[r].iterationCount, attempt, outcome);
        LinkMemories(InsertIteration(bumped, it), r, ids, org)
    case CloseRun(r, org, abandon, note, now) =>
      if !IsActive(g, r, org) then g else Close(g, r, if abandon then Abandoned else Completed, note, now)
  }

  function Run(g: Goals, ops: seq<Op>): Goals {
    if ops == [] then g else Apply(Run(g, ops[..|ops| - 1]), ops[|ops| - 1])
  }

  const EMPTY := Goals(map[], map[], map[], 1, 1)

  // ----- what every reachable state keeps -----

  ghost predicate HasIndex(g: Goals, r: nat, k: nat) {
    exists i :: i in g.iterations && g.iterations[i].run == r && g.iterations[i].index == k
  }

  /** The iterations of every run carry exactly the indices 1 to iteration_count, each once; only active runs are open. */
  ghost predicate Sound(g: Goals) {
    && (forall r :: r in g.runs ==> r < g.nextRun)
    && (forall i :: i in g.iterations ==>
          && i < g.nextIteration && g.iterations[i].run in g.runs
          && 1 <= g.iterations[i].index <= g.runs[g.iterations[i].run].iterationCount)
    && (forall i, k :: i in g.iterations && k in g.iterations && i != k && g.iterations[i].run == g.iterations[k].run ==>
          g.iterations[i].index != g.iterations[k].index)
    && (forall r, k :: r in g.runs && 1 <= k <= g.runs[r].iterationCount ==> HasIndex(g, r, k))
    && (forall r :: r in g.runs ==> (g.runs[r].closedAt.None? <==> g.runs[r].status.Active?))
  }

  /** A closed run and its iterations never change again, and no iteration is ever rewritten. */
  ghost predicate KeepsClosed(g: Goals, g': Goals) {
    && (forall r :: r in g.runs ==> r in g'.runs && (!g.runs[r].status.Active? ==> g'.runs[r] == g.runs[r]))
    && (forall i :: i in g.iterations ==> i in g'.iterations && g'.iterations[i] == g.iterations[i])
    && (forall i :: i in g'.iterations && g'.iterations[i].run in g.runs && !g.runs[g'.iterations[i].run].status.Active? ==>
          i in g.iterations)
  }

  lemma RecordKeeps(g: Goals, op: Op)
    requires Sound(g) && op.Record? && IsActive(g, op.r, op.org)
    ensures Sound(Apply(g, op)) && KeepsClosed(g, Apply(g, op))
  {
    var g' := Apply(g, op);
    assert g'.iterations == g.iterations[g.nextIteration := Iteration(op.r, op.org, g.runs[op.r].iterationCount + 1, op.attempt, op.outcome)];
    assert g'.runs == g.runs[op.r := g.runs[op.r].(iterationCount := g.runs[op.r].iterationCount + 1)];
    RecordIndices(g, g', op.r);
    RecordRows(g, g', op.r);
    hide HasIndex, Apply, LinkMemories;
  }

  // The new iteration is one more row, with an index nobody else of the run has.
  lemma RecordRows(g: Goals, g': Goals, r: nat)
    requires Sound(g) && r in g.runs && g'.runs == g.runs[r := g.runs[r].(iterationCount := g.runs[r].iterationCount + 1)]
    requires g.nextIteration in g'.iterations && g'.iterations == g.iterations[g.nextIteration := g'.iterations[g.nextIteration]]
    requires g'.iterations[g.nextIteration].run == r && g'.iterations[g.nextIteration].index == g.runs[r].iterationCount + 1
    ensures forall i, k :: i in g'.iterations && k in g'.iterations && i != k && g'.iterations[i].run == g'.iterations[k].run ==>
      g'.iterations[i].index != g'.iterations[k].index
  {
    hide HasIndex;
  }

  // The new iteration has the new last index, the others keep theirs.
  lemma RecordIndices(g: Goals, g': Goals, r: nat)
    requires Sound(g) && r in g.runs && g'.runs == g.runs[r := g.runs[r].(iterationCount := g.runs[r].iterationCount + 1)]
    requires g.nextIteration in g'.iterations && g'.iterations == g.iterations[g.nextIteration := g'.iterations[g.nextIteration]]
    requires g'.iterations[g.nextIteration].run == r && g'.iterations[g.nextIteration].index == g.runs[r].iterationCount + 1
    ensures forall q: nat, k: nat :: q in g'.runs && 1 <= k <= g'.runs[q].iterationCount ==> HasIndex(g', q, k)
  {
    forall q: nat, k: nat | q in g'.runs && 1 <= k <= g'.runs[q].iterationCount ensures HasIndex(g', q, k) {
      if q != r || k != g'.runs[q].iterationCount {
        assert HasIndex(g, q, k);
        var i :| i in g.iterations && g.iterations[i].run == q && g.iterations[i].index == k;
        assert i in g'.iterations && g'.iterations[i] == g.iterations[i];
      }
    }
  }

  lemma StartKeeps(g: Goals, org: string, goal: string)
    requires Sound(g)
    ensures Sound(InsertRun(g, org, goal)) && KeepsClosed(g, InsertRun(g, org, goal))
  {
    var g' := InsertRun(g, org, goal);
    SameIndices(g, g');
    hide HasIndex;
    assert g.nextRun !in g.runs;
    assert forall r :: r in g.runs ==> r in g'.runs && g'.runs[r] == g.runs[r];
    forall r: nat, k: nat | r in g'.runs && 1 <= k <= g'.runs[r].iterationCount ensures HasIndex(g', r, k) {
      assert r in g.runs;
    }
  }

  lemma CloseKeeps(g: Goals, r: nat, status: RunStatus, note: Option<string>, now: int)
    requires Sound(g) && r in g.runs && g.runs[r].status.Active? && !status.Active?
    ensures Sound(Close(g, r, status, note, now)) && KeepsClosed(g, Close(g, r, status, note, now))
  {
    SameIndices(g, Close(g, r, status, note, now));
    hide HasIndex;
  }

  lemma SameIndices(g: Goals, g': Goals)
    requires g'.iterations == g.iterations
    ensures forall r, k :: HasIndex(g', r, k) <==> HasIndex(g, r, k)
  {
  }

  lemma StepKeeps(g: Goals, op: Op)
    requires Sound(g)
    ensures Sound(Apply(g, op)) && KeepsClosed(g, Apply(g, op))
  {
    hide Sound, KeepsClosed;
    KeepsRefl(g);
    match op
    case Start(org, goal) => StartKeeps(g, org, goal);
    case Record(r, org, attempt, outcome, ids) =>
      if IsActive(g, r, org) { RecordKeeps(g, op); }
    case CloseRun(r, org, abandon, note, now) =>
      if IsActive(g, r, org) { CloseKeeps(g, r, if abandon then Abandoned else Completed, note, now); }
  }

  lemma {:induction false} ReachableIsSound(ops: seq<Op>)
    ensures Sound(Run(EMPTY, ops))
  {
    hide Sound, Apply;
    if ops == [] {
      EmptyIsSound();
    } else {
      ReachableIsSound(ops[..|ops| - 1]);
      StepKeeps(Run(EMPTY, ops[..|ops| - 1]), ops[|ops| - 1]);
    }
  }

  lemma EmptyIsSound()
    ensures Sound(EMPTY)
  {
  }

  lemma KeepsTrans(g: Goals, g1: Goals, g2: Goals)
    requires KeepsClosed(g, g1) && KeepsClosed(g1, g2)
    ensures KeepsClosed(g, g2)
  {
  }

  /** Whatever happens after a run has been closed, its row and its iterations stay what they were. */
  lemma {:induction false} ClosedRunsAreFinal(ops: seq<Op>, more: seq<Op>)
    ensures KeepsClosed(Run(EMPTY, ops), Run(EMPTY, ops + more))
  {
    hide KeepsClosed, Apply, Sound;
    ReachableIsSound(ops);
    if more == [] {
      assert ops + more == ops;
      KeepsRefl(Run(EMPTY, ops));
    } else {
      var init := more[..|more| - 1];
      ClosedRunsAreFinal(ops, init);
      ReachableIsSound(ops + init);
      StepKeeps(Run(EMPTY, ops + init), more[|more| - 1]);
      assert (ops + more)[..|ops + more| - 1] == ops + init;
      KeepsTrans(Run(EMPTY, ops), Run(EMPTY, ops + init), Run(EMPTY, ops + more));
    }
  }

  lemma KeepsRefl(g: Goals)
    ensures KeepsClosed(g, g)
  {
  }

  // The iteration is there under a fresh id, its run has counted it, and of the listed memories exactly those of the
  // run's organization now belong to the run; no other row has changed.
  predicate Recorded(g: Goals, g': Goals, it: Iteration, memoryIds: set<nat>) {
    && it.run in g.runs
    && g'.runs == g.runs[it.run := g.runs[it.run].(iterationCount := it.index)]
    && g'.iterations == g.iterations[g.nextIteration := it]
    && g'.memories.Keys == g.memories.Keys
    && forall m :: m in g.memories ==>
         if m in memoryIds && g.memories[m].org == it.org
         then g'.memories[m].goalRun == Some(it.run) && g'.memories[m].org == it.org
         else g'.memories[m] == g.memories[m]
  }

  lemma RecordIs(g: Goals, r: nat, org: string, attempt: string, outcome: string, ids: set<nat>)
    requires IsActive(g, r, org)
    ensures Recorded(
              g, Apply(g, Record(r, org, attempt, outcome, ids)),
              Iteration(r, org, g.runs[r].iterationCount + 1, attempt, outcome), ids)
  {
  }

  // ----- the repository -----

  datatype GoalError = NotActive | Failed

  class Repository {
    var goals: Goals
    // How many statements have failed so far, and how many of them had been committed all the same, their answer lost.
    ghost var faults: nat
    ghost var lost: nat

    constructor ()
      ensures goals == EMPTY
    {
      goals, faults, lost := EMPTY, 0, 0;
    }

    // A statement inside a transaction: if it fails, the transaction is rolled back.
    method Fails() returns (failed: bool)
      modifies `faults
      ensures faults == old(faults) + if failed then 1 else 0
    {
      failed := *;
      if failed { faults := faults + 1; }
    }

    // A statement that commits: its effect may stay although its answer is lost.
    method Commits() returns (effect: bool, ok: bool)
      modifies `faults, `lost
      ensures (ok ==> effect) && faults == old(faults) + if ok then 0 else 1
      ensures lost == old(lost) + if effect && !ok then 1 else 0
    {
      effect, ok := *, *;
      if !effect { ok := false; }
      if !ok {
        faults := faults + 1;
        if effect { lost := lost + 1; }
      }
    }

    method StartRun(org: string, goal: string) returns (r: Result<nat, GoalError>)
      modifies this
      ensures r.Success? ==> goals == Apply(old(goals), Start(org, goal)) && r.value == old(goals).nextRun
      ensures goals == if r.Success? || lost != old(lost) then Apply(old(goals), Start(org, goal)) else old(goals)
      ensures r.Success? ==>
        && goals.runs == old(goals).runs[r.value := GoalRun(org, goal, Active, 0, None, None)]
        && goals.iterations == old(goals).iterations && goals.memories == old(goals).memories
      ensures r.Success? <==> faults == old(faults)
    {
      var effect, ok := Commits();
      var id := goals.nextRun;
      if effect { goals := InsertRun(goals, org, goal); }
      r := if ok then Success(id) else Failure(Failed);
    }

    /**
      recordIteration: one transaction. It commits the bump, the iteration and the links together or leaves every table
      as it was, and it answers NotActive only when the run is missing, closed or another organization's. A failing
      statement leaves the tables as they were; only a COMMIT whose answer is lost leaves the changes behind a failure.
    */
    method RecordIteration(run: nat, org: string, attempt: string, outcome: string, memoryIds: set<nat>)
      returns (r: Result<Iteration, GoalError>)
      modifies this
      ensures r == Failure(Failed) <==> faults != old(faults)
      ensures var op := Record(run, org, attempt, outcome, memoryIds);
              && (r.Success? ==> IsActive(old(goals), run, org) && goals == Apply(old(goals), op)
                                 && r.value == Iteration(run, org, old(goals).runs[run].iterationCount + 1, attempt, outcome))
              && (r == Failure(NotActive) ==> !IsActive(old(goals), run, org) && goals == old(goals))
              && (goals == if r.Success? || lost != old(lost) then Apply(old(goals), op) else old(goals))
              && (!IsActive(old(goals), run, org) ==> r.Failure? && goals == old(goals) && lost == old(lost))
      ensures r.Success? ==> Recorded(old(goals), goals, r.value, memoryIds)
    {
      var work := goals;
      var failed := Fails();
      if failed { return Failure(Failed); }
      if !IsActive(work, run, org) { return Failure(NotActive); }
      work := Bump(work, run);
      var it := Iteration(run, org, work.runs[run].iterationCount, attempt, outcome);
      failed := Fails();
      if failed { return Failure(Failed); }
      work := InsertIteration(work, it);
      if memoryIds != {} {
        failed := Fails();
        if failed { return Failure(Failed); }
        work := LinkMemories(work, run, memoryIds, org);
      }
      NoMemoriesLinked(work, run, org);
      RecordIs(goals, run, org, attempt, outcome, memoryIds);
      var committed, ok := Commits();
      if committed { goals := work; }
      r := if ok then Success(it) else Failure(Failed);
    }

    // complete and abandon
    method CloseGoalRun(run: nat, org: string, abandon: bool, note: Option<string>, now: int) returns (r: Result<GoalRun, GoalError>)
      modifies this
      ensures r == Failure(Failed) <==> faults != old(faults)
      ensures var op := CloseRun(run, org, abandon, note, now);
              && (r.Success? ==> IsActive(old(goals), run, org) && goals == Apply(old(goals), op) && r.value == goals.runs[run])
              && (r == Failure(NotActive) ==> !IsActive(old(goals), run, org) && goals == old(goals))
              && (goals == if r.Success? || (lost != old(lost) && IsActive(old(goals), run, org)) then Apply(old(goals), op)
                           else old(goals))
      ensures r.Success? ==>
        && r.value == old(goals).runs[run].(status := if abandon then Abandoned else Completed, note := note, closedAt := Some(now))
        && goals == old(goals).(runs := old(goals).runs[run := r.value])
    {
      var effect, ok := Commits();
      var active := IsActive(goals, run, org);
      if effect && active { goals := Close(goals, run, if abandon then Abandoned else Completed, note, now); }
      if !ok { return Failure(Failed); }
      r := if active then Success(goals.runs[run]) else Failure(NotActive);
    }
  }

  lemma NoMemoriesLinked(g: Goals, r: nat, org: string)
    ensures LinkMemories(g, r, {}, org) == g
  {
  }
}
