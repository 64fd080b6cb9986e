/** How a sweep accounts for the rows it claimed. */
module Accounting {
  // The rows that ended that way.
  ghost function Ended<K>(outcomes: map<nat, K>, kind: K): set<nat> {
    set j | j in outcomes && outcomes[j] == kind
  }

  // The counters tell how many rows ended each way, and together they count every row once.
  ghost predicate Tally<K>(outcomes: map<nat, K>, done: K, retry: K, failed: K, x: nat, y: nat, z: nat) {
    && x == |Ended(outcomes, done)| && y == |Ended(outcomes, retry)| && z == |Ended(outcomes, failed)|
    && x + y + z == |outcomes.Keys|
  }

  lemma NothingTallied<K>(done: K, retry: K, failed: K)
    ensures Tally(map[], done, retry, failed, 0, 0, 0)
  {
    var none: map<nat, K> := map[];
    assert Ended(none, done) == Ended(none, retry) == Ended(none, failed) == {};
  }

  lemma OneMoreEnded<K>(outcomes: map<nat, K>, j: nat, end: K, kind: K)
    requires j !in outcomes
    ensures |Ended(outcomes[j := end], kind)| == |Ended(outcomes, kind)| + if end == kind then 1 else 0
  {
    var outcomes' := outcomes[j := end];
    if end == kind {
      assert Ended(outcomes', kind) == Ended(outcomes, kind) + {j};
    } else {
      assert Ended(outcomes', kind) == Ended(outcomes, kind);
    }
  }

  lemma OneMoreTallied<K>(
    outcomes: map<nat, K>, j: nat, end: K, done: K, retry: K, failed: K, x: nat, y: nat, z: nat)
    requires Tally(outcomes, done, retry, failed, x, y, z) && j !in outcomes
    requires done != retry && done != failed && retry != failed
    ensures var outcomes' := outcomes[j := end];
            && (end == done ==> Tally(outcomes', done, retry, failed, x + 1, y, z))
            && (end == retry ==> Tally(outcomes', done, retry, failed, x, y + 1, z))
            && (end == failed ==> Tally(outcomes', done, retry, failed, x, y, z + 1))
  {
    assert outcomes[j := end].Keys == outcomes.Keys + {j};
    OneMoreEnded(outcomes, j, end, done);
    OneMoreEnded(outcomes, j, end, retry);
    OneMoreEnded(outcomes, j, end, failed);
  }

  lemma BothEnded<K>(o: map<nat, K>, p: map<nat, K>, kind: K)
    requires o.Keys !! p.Keys
    ensures |Ended(o + p, kind)| == |Ended(o, kind)| + |Ended(p, kind)|
  {
    assert Ended(o + p, kind) == Ended(o, kind) + Ended(p, kind);
  }

  lemma BothTallied<K>(
    o: map<nat, K>, p: map<nat, K>, done: K, retry: K, failed: K, x: nat, y: nat, z: nat, x': nat, y': nat, z': nat)
    requires Tally(o, done, retry, failed, x, y, z) && Tally(p, done, retry, failed, x', y', z') && o.Keys !! p.Keys
    ensures Tally(o + p, done, retry, failed, x + x', y + y', z + z')
  {
    assert (o + p).Keys == o.Keys + p.Keys;
    BothEnded(o, p, done);
    BothEnded(o, p, retry);
    BothEnded(o, p, failed);
  }
}
