/** createTokenBucketLimiter: a token bucket per key, with stale buckets swept away. */
module RateLimiter {
  import opened Common

  datatype Bucket = Bucket(tokens: real, lastRefillMs: real)

  datatype Decision = Decision(allowed: bool, remaining: int, retryAfterMs: int)

  // capacity tokens, refilled over windowMs.
  datatype Options = Options(capacity: int, windowMs: real) {
    ghost predicate Valid() {
      1 <= capacity && 0.0 < windowMs
    }
  }

  datatype OptionError = CapacityNotPositive | WindowNotPositive

  // One request: whose, and the clock when it came.
  datatype Request = Request(key: string, t: real)

  type Buckets = map<string, Bucket>

  function Rate(o: Options): (r: real)
    requires o.Valid()
    ensures 0.0 < r
  {
    o.capacity as real / o.windowMs
  }

  function Ceil(x: real): int {
    -((-x).Floor)
  }

  // ----- the limiter that never forgets -----

  // What a key's bucket holds at time t; no bucket is a full one.
  function Level(o: Options, b: Buckets, key: string, t: real): real
    requires o.Valid()
  {
    if key !in b then o.capacity as real
    else
      var elapsed := if b[key].lastRefillMs < t then t - b[key].lastRefillMs else 0.0;
      var refilled := b[key].tokens + elapsed * Rate(o);
      if refilled < o.capacity as real then refilled else o.capacity as real
  }

  function Allows(o: Options, b: Buckets, q: Request): bool
    requires o.Valid()
  {
    1.0 <= Level(o, b, q.key, q.t)
  }

  function Serve(o: Options, b: Buckets, q: Request): Buckets
    requires o.Valid()
  {
    var level := Level(o, b, q.key, q.t);
    b[q.key := Bucket(if 1.0 <= level then level - 1.0 else level, q.t)]
  }

  function DecisionFor(o: Options, b: Buckets, q: Request): Decision
    requires o.Valid()
  {
    var level := Level(o, b, q.key, q.t);
    if 1.0 <= level then Decision(true, (level - 1.0).Floor, 0)
    else Decision(false, 0, Ceil((1.0 - level) / Rate(o)))
  }

  function Served(o: Options, qs: seq<Request>): Buckets
    requires o.Valid()
  {
    if qs == [] then map[] else Serve(o, Served(o, qs[..|qs| - 1]), qs[|qs| - 1])
  }

  // ----- the limiter that sweeps -----

  datatype State = State(buckets: Buckets, nextSweepMs: real)

  function Sweep(b: Buckets, nowMs: real, windowMs: real): Buckets {
    map key | key in b && nowMs - windowMs < b[key].lastRefillMs :: b[key]
  }

  function Swept(o: Options, s: State, t: real): State {
    if s.nextSweepMs <= t then State(Sweep(s.buckets, t, o.windowMs), t + o.windowMs) else s
  }

  function Check(o: Options, s: State, q: Request): State
    requires o.Valid()
  {
    var swept := Swept(o, s, q.t);
    swept.(buckets := Serve(o, swept.buckets, q))
  }

  const INITIAL := State(map[], 0.0)

  function Run(o: Options, qs: seq<Request>): State
    requires o.Valid()
  {
    if qs == [] then INITIAL else Check(o, Run(o, qs[..|qs| - 1]), qs[|qs| - 1])
  }

  // The decision the limiter returns for the next request.
  function Decides(o: Options, s: State, q: Request): Decision
    requires o.Valid()
  {
    DecisionFor(o, Swept(o, s, q.t).buckets, q)
  }

  class Limiter {
    const options: Options
    var buckets: Buckets
    var nextSweepMs: real

    ghost predicate Valid()
      reads this
    {
      options.Valid()
    }

    ghost function Abs(): State
      reads this
    {
      State(buckets, nextSweepMs)
    }

    constructor (o: Options)
      requires o.Valid()
      ensures Valid() && options == o && Abs() == INITIAL
    {
      options, buckets, nextSweepMs := o, map[], 0.0;
    }

    // sweepStaleBuckets
    method SweepStaleBuckets(nowMs: real)
      modifies `buckets
      ensures buckets == Sweep(old(buckets), nowMs, options.windowMs)
    {
      var staleAtOrBeforeMs := nowMs - options.windowMs;
      var all := buckets;
      var todo := buckets.Keys;
      while todo != {}
        invariant todo <= all.Keys
        invariant buckets == map key | key in all && (key in todo || staleAtOrBeforeMs < all[key].lastRefillMs) :: all[key]
      {
        var key :| key in todo;
        if buckets[key].lastRefillMs <= staleAtOrBeforeMs { buckets := buckets - {key}; }
        todo := todo - {key};
      }
    }

    /** One check: the decision and the new state are those of the machine above. */
    method CheckKey(key: string, t: real) returns (decision: Decision)
      requires Valid()
      modifies this
      ensures Valid() && Abs() == Check(options, old(Abs()), Request(key, t))
      ensures decision == Decides(options, old(Abs()), Request(key, t))
    {
      if t >= nextSweepMs {
        SweepStaleBuckets(t);
        nextSweepMs := t + options.windowMs;
      }
      var capacity := options.capacity as real;
      var refillRatePerMs := capacity / options.windowMs;
      assert refillRatePerMs == Rate(options);
      hide Rate, Ceil;
      var bucket := if key in buckets then buckets[key] else Bucket(capacity, t);
      var elapsed := if t - bucket.lastRefillMs > 0.0 then t - bucket.lastRefillMs else 0.0;
      var filled := bucket.tokens + elapsed * refillRatePerMs;
      var refilled := if capacity < filled then capacity else filled;
      NoTimeNoRefill(refillRatePerMs);
      assert refilled == Level(options, buckets, key, t);
      hide Level;
      if refilled >= 1.0 {
        buckets := buckets[key := Bucket(refilled - 1.0, t)];
        return Decision(true, (refilled - 1.0).Floor, 0);
      }
      buckets := buckets[key := Bucket(refilled, t)];
      var tokensNeeded := 1.0 - refilled;
      decision := Decision(false, 0, Ceil(tokensNeeded / refillRatePerMs));
    }
  }

  lemma NoTimeNoRefill(rate: real)
    ensures 0.0 * rate == 0.0
  {
  }

  method CreateTokenBucketLimiter(capacity: int, windowMs: real) returns (r: Result<Limiter, OptionError>)
    ensures capacity < 1 ==> r == Failure(CapacityNotPositive)
    ensures 1 <= capacity && windowMs <= 0.0 ==> r == Failure(WindowNotPositive)
    ensures 1 <= capacity && 0.0 < windowMs ==>
      r.Success? && r.value.options == Options(capacity, windowMs) && r.value.Valid() && r.value.Abs() == INITIAL
  {
    if capacity < 1 { return Failure(CapacityNotPositive); }
    if windowMs <= 0.0 { return Failure(WindowNotPositive); }
    var limiter := new Limiter(Options(capacity, windowMs));
    r := Success(limiter);
  }

  // ----- sweeping is invisible -----

  // The clock never goes back.
  predicate Timely(qs: seq<Request>) {
    forall i, k :: 0 <= i < k < |qs| ==> qs[i].t <= qs[k].t
  }

  // At time t and ever after, both hold the same tokens for every key.
  ghost predicate Agree(o: Options, b: Buckets, c: Buckets, t: real)
    requires o.Valid()
  {
    forall key, u :: t <= u ==> Level(o, b, key, u) == Level(o, c, key, u)
  }

  // Buckets never hold a negative number of tokens.
  ghost predicate Filled(b: Buckets) {
    forall key :: key in b ==> 0.0 <= b[key].tokens
  }

  lemma WindowRefills(o: Options, elapsed: real)
    requires o.Valid() && o.windowMs <= elapsed
    ensures o.capacity as real <= elapsed * Rate(o)
  {
    assert o.windowMs * Rate(o) == o.capacity as real;
    assert o.windowMs * Rate(o) <= elapsed * Rate(o);
  }

  // A stale bucket is full again, which is what no bucket means.
  lemma SweepAgrees(o: Options, b: Buckets, t: real)
    requires o.Valid() && Filled(b)
    ensures Agree(o, b, Sweep(b, t, o.windowMs), t)
  {
    hide Rate;
    forall key, u | t <= u ensures Level(o, b, key, u) == Level(o, Sweep(b, t, o.windowMs), key, u) {
      if key in b && b[key].lastRefillMs <= t - o.windowMs {
        WindowRefills(o, u - b[key].lastRefillMs);
      }
    }
  }

  lemma ServeAgrees(o: Options, b: Buckets, c: Buckets, q: Request)
    requires o.Valid() && Agree(o, b, c, q.t)
    ensures Agree(o, Serve(o, b, q), Serve(o, c, q), q.t)
    ensures DecisionFor(o, b, q) == DecisionFor(o, c, q)
  {
    hide Rate, Level, Serve;
    assert Level(o, b, q.key, q.t) == Level(o, c, q.key, q.t);
    forall key, u | q.t <= u ensures Level(o, Serve(o, b, q), key, u) == Level(o, Serve(o, c, q), key, u) {
      LevelServed(o, b, q, key, u);
      LevelServed(o, c, q, key, u);
    }
  }

  // A served key's level depends on its level at that moment only, another key's is what it was.
  lemma LevelServed(o: Options, b: Buckets, q: Request, key: string, u: real)
    requires o.Valid() && q.t <= u
    ensures Level(o, Serve(o, b, q), key, u)
         == if key != q.key then Level(o, b, key, u)
            else Level(o, map[key := Bucket(Level(o, b, key, q.t) - if 1.0 <= Level(o, b, key, q.t) then 1.0 else 0.0, q.t)], key, u)
  {
    hide Rate;
  }

  lemma LevelIsFilled(o: Options, b: Buckets, key: string, t: real)
    requires o.Valid() && Filled(b)
    ensures 0.0 <= Level(o, b, key, t) <= o.capacity as real
  {
    if key in b && b[key].lastRefillMs < t {
      assert 0.0 <= (t - b[key].lastRefillMs) * Rate(o);
    }
  }

  lemma {:induction false} RunsAgree(o: Options, qs: seq<Request>, t: real)
    requires o.Valid() && Timely(qs) && (qs != [] ==> qs[|qs| - 1].t <= t)
    ensures Agree(o, Served(o, qs), Run(o, qs).buckets, t) && Filled(Run(o, qs).buckets) && Filled(Served(o, qs))
  {
    hide Level, Rate;
    if qs != [] {
      var init, q := qs[..|qs| - 1], qs[|qs| - 1];
      RunsAgree(o, init, q.t);
      SweptAgrees(o, Run(o, init), q.t);
      var swept := Swept(o, Run(o, init), q.t).buckets;
      ServeAgrees(o, Served(o, init), swept, q);
      LevelIsFilled(o, Served(o, init), q.key, q.t);
      LevelIsFilled(o, swept, q.key, q.t);
    }
  }

  lemma SweptAgrees(o: Options, s: State, t: real)
    requires o.Valid() && Filled(s.buckets)
    ensures Agree(o, s.buckets, Swept(o, s, t).buckets, t) && Filled(Swept(o, s, t).buckets)
  {
    SweepAgrees(o, s.buckets, t);
  }

  /** Sweeping is invisible: with a clock that does not go back, every decision is that of a limiter that never deletes. */
  lemma SweepingIsInvisible(o: Options, qs: seq<Request>, q: Request)
    requires o.Valid() && Timely(qs + [q])
    ensures Decides(o, Run(o, qs), q) == DecisionFor(o, Served(o, qs), q)
  {
    hide Level, Rate;
    assert forall i, k :: 0 <= i < k < |qs| ==> qs[i] == (qs + [q])[i] && qs[k] == (qs + [q])[k];
    if qs != [] { assert (qs + [q])[|qs| - 1].t <= (qs + [q])[|qs|].t; }
    RunsAgree(o, qs, q.t);
    SweptAgrees(o, Run(o, qs), q.t);
    ServeAgrees(o, Served(o, qs), Swept(o, Run(o, qs), q.t).buckets, q);
  }

  /** After every check each stored bucket was touched within the last two windows, so idle keys cost no memory. */
  lemma {:induction false} BucketsAreRecent(o: Options, qs: seq<Request>, key: string)
    requires o.Valid() && Timely(qs) && qs != [] && 0.0 <= qs[0].t
    ensures var s, t := Run(o, qs), qs[|qs| - 1].t;
            && t < s.nextSweepMs <= t + o.windowMs
            && (key in s.buckets ==> t - 2.0 * o.windowMs < s.buckets[key].lastRefillMs <= t
                                     && s.nextSweepMs - 2.0 * o.windowMs < s.buckets[key].lastRefillMs)
  {
    hide Level, Rate, Serve;
    var init, q := qs[..|qs| - 1], qs[|qs| - 1];
    ServeTouches(o, Swept(o, Run(o, init), q.t).buckets, q);
    if init == [] {
      assert Run(o, init) == INITIAL;
    } else {
      assert init[|init| - 1].t <= q.t && init[0] == qs[0];
      BucketsAreRecent(o, init, key);
    }
  }

  lemma ServeTouches(o: Options, b: Buckets, q: Request)
    requires o.Valid()
    ensures var c := Serve(o, b, q);
            && c.Keys == b.Keys + {q.key} && c[q.key].lastRefillMs == q.t
            && forall key :: key in b && key != q.key ==> c[key] == b[key]
  {
  }

  // ----- the rate bound -----

  // How often a key was allowed between s and e.
  function AllowedIn(o: Options, qs: seq<Request>, key: string, s: real, e: real): nat
    requires o.Valid()
  {
    if qs == [] then 0
    else
      var init, q := qs[..|qs| - 1], qs[|qs| - 1];
      AllowedIn(o, init, key, s, e)
      + if q.key == key && s <= q.t <= e && Decides(o, Run(o, init), q).allowed then 1 else 0
  }

  // What a bucket gains in d milliseconds.
  function Refill(o: Options, d: real): real
    requires o.Valid()
  {
    d * Rate(o)
  }

  lemma RefillAdds(o: Options, d: real, d': real)
    requires o.Valid()
    ensures Refill(o, d + d') == Refill(o, d) + Refill(o, d')
    ensures 0.0 <= d ==> 0.0 <= Refill(o, d)
  {
  }

  // Waiting adds at most the refill.
  lemma LevelGrows(o: Options, b: Buckets, key: string, t: real, u: real)
    requires o.Valid() && t <= u
    ensures Level(o, b, key, t) <= Level(o, b, key, u) <= Level(o, b, key, t) + Refill(o, u - t)
  {
    hide Rate;
    assert 0.0 <= (u - t) * Rate(o);
    if key in b && b[key].lastRefillMs < u {
      var last := b[key].lastRefillMs;
      if last < t {
        assert (u - last) * Rate(o) == (t - last) * Rate(o) + (u - t) * Rate(o);
      } else {
        assert (u - last) * Rate(o) <= (u - t) * Rate(o);
        assert 0.0 <= (u - last) * Rate(o);
      }
    }
  }

  lemma ServeSpends(o: Options, b: Buckets, q: Request, key: string)
    requires o.Valid() && Filled(b)
    ensures Level(o, Serve(o, b, q), key, q.t)
         == Level(o, b, key, q.t) - if q.key == key && Allows(o, b, q) then 1.0 else 0.0
  {
    LevelIsFilled(o, b, q.key, q.t);
    hide Rate;
  }

  // The last request's time, but no earlier than s.
  function LastFrom(qs: seq<Request>, s: real): real {
    if qs != [] && s < qs[|qs| - 1].t then qs[|qs| - 1].t else s
  }

  // Since s, what was allowed and what is left in the bucket never exceed a full bucket and the refill.
  lemma {:induction false} Potential(o: Options, qs: seq<Request>, key: string, s: real, e: real)
    requires o.Valid() && Timely(qs) && s <= e && (qs != [] ==> qs[|qs| - 1].t <= e)
    ensures var t := LastFrom(qs, s);
            AllowedIn(o, qs, key, s, e) as real + Level(o, Served(o, qs), key, t)
            <= o.capacity as real + Refill(o, t - s)
  {
    hide Rate, Level, Decides, Refill;
    RefillAdds(o, 0.0, 0.0);
    RunsAgree(o, qs, e);
    if qs == [] {
      LevelIsFilled(o, map[], key, s);
    } else {
      var init, q := qs[..|qs| - 1], qs[|qs| - 1];
      Potential(o, init, key, s, e);
      if s <= q.t {
        assert (forall i :: 0 <= i < |init| ==> init[i].t <= q.t) && init + [q] == qs;
        PotentialStep(o, init, q, key, s, e);
      } else {
        NothingAllowedBefore(o, qs, key, s, e);
        LevelIsFilled(o, Served(o, qs), key, s);
      }
    }
  }

  lemma PotentialStep(o: Options, init: seq<Request>, q: Request, key: string, s: real, e: real)
    requires o.Valid() && Timely(init + [q]) && Timely(init) && s <= q.t <= e && LastFrom(init, s) <= q.t
    requires AllowedIn(o, init, key, s, e) as real + Level(o, Served(o, init), key, LastFrom(init, s))
             <= o.capacity as real + Refill(o, LastFrom(init, s) - s)
    ensures AllowedIn(o, init + [q], key, s, e) as real + Level(o, Served(o, init + [q]), key, q.t)
            <= o.capacity as real + Refill(o, q.t - s)
  {
    hide Rate, Level, Decides, Refill, Allows;
    assert (init + [q])[..|init + [q]| - 1] == init;
    if init != [] { assert (init + [q])[|init| - 1].t <= (init + [q])[|init|].t; }
    RunsAgree(o, init, q.t);
    Decided(o, init, q);
    ServeSpends(o, Served(o, init), q, key);
    LevelGrows(o, Served(o, init), key, LastFrom(init, s), q.t);
    RefillAdds(o, LastFrom(init, s) - s, q.t - LastFrom(init, s));
  }

  lemma Decided(o: Options, qs: seq<Request>, q: Request)
    requires o.Valid() && Timely(qs + [q])
    ensures Decides(o, Run(o, qs), q).allowed <==> Allows(o, Served(o, qs), q)
  {
    hide Level, Rate;
    SweepingIsInvisible(o, qs, q);
  }

  lemma {:induction false} NothingAllowedBefore(o: Options, qs: seq<Request>, key: string, s: real, e: real)
    requires o.Valid() && Timely(qs) && (qs != [] ==> qs[|qs| - 1].t < s)
    ensures AllowedIn(o, qs, key, s, e) == 0
  {
    if qs != [] {
      NothingAllowedBefore(o, qs[..|qs| - 1], key, s, e);
    }
  }

  lemma {:induction false} NothingAllowedAfter(o: Options, qs: seq<Request>, n: nat, key: string, s: real, e: real)
    requires o.Valid() && Timely(qs) && n <= |qs| && forall i :: n <= i < |qs| ==> e < qs[i].t
    ensures AllowedIn(o, qs, key, s, e) == AllowedIn(o, qs[..n], key, s, e)
    decreases |qs|
  {
    if n < |qs| {
      NothingAllowedAfter(o, qs[..|qs| - 1], n, key, s, e);
      assert qs[..|qs| - 1][..n] == qs[..n];
    } else {
      assert qs[..n] == qs;
    }
  }

  // The requests up to time e.
  function UpTo(qs: seq<Request>, e: real): nat {
    if qs == [] || qs[|qs| - 1].t <= e then |qs| else UpTo(qs[..|qs| - 1], e)
  }

  lemma {:induction false} UpToSplits(qs: seq<Request>, e: real)
    requires Timely(qs)
    ensures var n := UpTo(qs, e);
            && n <= |qs| && (n > 0 ==> qs[n - 1].t <= e) && forall i :: n <= i < |qs| ==> e < qs[i].t
  {
    if qs != [] && e < qs[|qs| - 1].t {
      UpToSplits(qs[..|qs| - 1], e);
    }
  }

  /**
    The rate bound: in every run with a clock that does not go back, one key is allowed at most
    capacity + (e - s) * capacity / windowMs requests between any times s and e.
  */
  lemma RateBound(o: Options, qs: seq<Request>, key: string, s: real, e: real)
    requires o.Valid() && Timely(qs) && s <= e
    ensures AllowedIn(o, qs, key, s, e) as real <= o.capacity as real + (e - s) * (o.capacity as real / o.windowMs)
  {
    hide Level, AllowedIn, UpTo, Refill;
    UpToSplits(qs, e);
    var n := UpTo(qs, e);
    NothingAllowedAfter(o, qs, n, key, s, e);
    Potential(o, qs[..n], key, s, e);
    RunsAgree(o, qs[..n], e);
    var t := LastFrom(qs[..n], s);
    LevelIsFilled(o, Served(o, qs[..n]), key, t);
    RefillAdds(o, t - s, e - t);
    RefillAdds(o, e - t, 0.0);
    RefillIs(o, e - s);
  }

  lemma RefillIs(o: Options, d: real)
    requires o.Valid()
    ensures Refill(o, d) == d * (o.capacity as real / o.windowMs)
  {
  }

  // ----- retryAfterMs -----

  lemma CeilIsLeast(x: real, d: int)
    ensures x <= d as real <==> Ceil(x) <= d
  {
  }

  // Other keys' requests leave a key's bucket alone.
  lemma {:induction false} OthersDoNotMatter(o: Options, qs: seq<Request>, more: seq<Request>, key: string)
    requires o.Valid() && forall q :: q in more ==> q.key != key
    ensures var b, c := Served(o, qs), Served(o, qs + more);
            (key in b <==> key in c) && (key in b ==> b[key] == c[key])
  {
    hide Level, Rate;
    if more == [] {
      assert qs + more == qs;
    } else {
      var init := more[..|more| - 1];
      OthersDoNotMatter(o, qs, init, key);
      assert (qs + more)[..|qs + more| - 1] == qs + init;
    }
  }

  /**
    retryAfterMs is exact in whole milliseconds: after a denial at time t, and whatever other keys do meanwhile, the
    next request of the key d milliseconds later is allowed if and only if d has reached retryAfterMs.
  */
  lemma RetryAfterIsExact(o: Options, qs: seq<Request>, q: Request, more: seq<Request>, d: nat)
    requires o.Valid() && Timely(qs + [q] + more + [Request(q.key, q.t + d as real)])
    requires forall x :: x in more ==> x.key != q.key
    requires !Decides(o, Run(o, qs), q).allowed
    ensures var decision := Decides(o, Run(o, qs), q);
            && 1 <= decision.retryAfterMs
            && (Decides(o, Run(o, qs + [q] + more), Request(q.key, q.t + d as real)).allowed
                <==> decision.retryAfterMs <= d)
  {
    hide Level, Rate, Run, Decides;
    var all := qs + [q] + more;
    var later := Request(q.key, q.t + d as real);
    Prefixes(qs, q, more, later);
    SweepingIsInvisible(o, qs, q);
    SweepingIsInvisible(o, all, later);
    RunsAgree(o, qs, q.t);
    OthersDoNotMatter(o, qs + [q], more, q.key);
    assert (qs + [q])[..|qs + [q]| - 1] == qs;
    DeniedThenLater(o, Served(o, qs), q, Served(o, all), d);
  }

  lemma Prefixes(qs: seq<Request>, q: Request, more: seq<Request>, later: Request)
    requires Timely(qs + [q] + more + [later])
    ensures Timely(qs + [q]) && Timely(qs) && (qs != [] ==> qs[|qs| - 1].t <= q.t)
  {
    var all := qs + [q] + more + [later];
    assert forall i :: 0 <= i < |qs| ==> all[i] == qs[i];
    assert all[|qs|] == q;
    forall i, k | 0 <= i < k < |qs + [q]| ensures (qs + [q])[i].t <= (qs + [q])[k].t {
      assert all[i].t <= all[k].t;
    }
    if qs != [] { assert all[|qs| - 1].t <= all[|qs|].t; }
  }

  lemma DeniedThenLater(o: Options, b: Buckets, q: Request, c: Buckets, d: nat)
    requires o.Valid() && !Allows(o, b, q) && Filled(b)
    requires var b' := Serve(o, b, q); q.key in c && c[q.key] == b'[q.key]
    ensures 1 <= DecisionFor(o, b, q).retryAfterMs
    ensures Allows(o, c, Request(q.key, q.t + d as real)) <==> DecisionFor(o, b, q).retryAfterMs <= d
  {
    var level, rate := Level(o, b, q.key, q.t), Rate(o);
    hide Rate, Level, Ceil;
    assert Level(o, c, q.key, q.t + d as real)
        == if level + d as real * rate < o.capacity as real then level + d as real * rate else o.capacity as real by {
      LevelAfter(o, c, q.key, q.t, d as real);
    }
    DividesOut(1.0 - level, d as real, rate);
    DividesOut(1.0 - level, 0.0, rate);
    CeilIsLeast((1.0 - level) / rate, d);
    CeilIsLeast((1.0 - level) / rate, 0);
  }

  lemma LevelAfter(o: Options, c: Buckets, key: string, t: real, d: real)
    requires o.Valid() && key in c && c[key].lastRefillMs == t && 0.0 <= d
    ensures var filled := c[key].tokens + d * Rate(o);
            Level(o, c, key, t + d) == if filled < o.capacity as real then filled else o.capacity as real
  {
    assert (t + d) - t == d;
  }

  lemma DividesOut(need: real, d: real, rate: real)
    requires 0.0 < rate
    ensures need / rate <= d <==> need <= d * rate
  {
    var x := need / rate;
    assert x * rate == need;
    if x <= d { assert x * rate <= d * rate; }
    if d < x { assert d * rate < x * rate; }
  }

  // ----- remaining -----

  // The same request n times over.
  function Again(q: Request, n: nat): (r: seq<Request>)
    ensures |r| == n && forall i :: 0 <= i < n ==> r[i] == q
  {
    seq(n, i => q)
  }

  function Least(n: nat, m: int): int {
    if n < m then n else m
  }

  lemma StillLevel(o: Options, b: Buckets, key: string, t: real)
    requires o.Valid() && key in b && b[key].lastRefillMs == t && b[key].tokens <= o.capacity as real
    ensures Level(o, b, key, t) == b[key].tokens
  {
    NoTimeNoRefill(Rate(o));
  }

  // At the same instant every further request takes a token until less than one is left.
  lemma {:induction false} TokensLeft(o: Options, qs: seq<Request>, q: Request, n: nat)
    requires o.Valid() && Allows(o, Served(o, qs), q)
    ensures var level := Level(o, Served(o, qs), q.key, q.t);
            var b := Served(o, qs + [q] + Again(q, n));
            && q.key in b && b[q.key].lastRefillMs == q.t
            && b[q.key].tokens == level - 1.0 - Least(n, (level - 1.0).Floor) as real <= o.capacity as real
  {
    var level := Level(o, Served(o, qs), q.key, q.t);
    if n == 0 {
      assert qs + [q] + Again(q, 0) == qs + [q];
      assert (qs + [q])[..|qs|] == qs;
    } else {
      hide Level, Rate;
      TokensLeft(o, qs, q, n - 1);
      var before, all := qs + [q] + Again(q, n - 1), qs + [q] + Again(q, n);
      assert all[..|all| - 1] == before && all[|all| - 1] == q;
      StillLevel(o, Served(o, before), q.key, q.t);
    }
  }

  /** remaining is exact: right after an allowed request, exactly that many more of its key would be allowed at once. */
  lemma RemainingIsExact(o: Options, qs: seq<Request>, q: Request, n: nat)
    requires o.Valid() && Timely(qs + [q]) && Decides(o, Run(o, qs), q).allowed
    ensures Decides(o, Run(o, qs + [q] + Again(q, n)), q).allowed <==> n < Decides(o, Run(o, qs), q).remaining
  {
    hide Level, Rate, Run, Decides, Served;
    var all := qs + [q] + Again(q, n);
    forall i, k | 0 <= i < k < |all + [q]| ensures (all + [q])[i].t <= (all + [q])[k].t {
      if i < |qs| && |qs| < k { assert (qs + [q])[i].t <= (qs + [q])[|qs|].t; }
      if k <= |qs| { assert (all + [q])[i] == (qs + [q])[i] && (all + [q])[k] == (qs + [q])[k]; }
    }
    SweepingIsInvisible(o, qs, q);
    SweepingIsInvisible(o, all, q);
    TokensLeft(o, qs, q, n);
    StillLevel(o, Served(o, all), q.key, q.t);
  }
}
