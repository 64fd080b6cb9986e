/**
  Semantic duplicates: cosine similarity and greedy clustering.

  Vectors are over the reals, and Math.sqrt is any function that gives the non-negative square root.
*/
module Semantic {
  import opened Common
  import opened Duplicates

  type Vector = seq<real>

  ghost predicate IsRoot(root: real -> real) {
    forall x :: 0.0 <= x ==> 0.0 <= root(x) && root(x) * root(x) == x
  }

  datatype SimilarityError = LengthMismatch(a: nat, b: nat) | BadThreshold

  // ----- cosine similarity -----

  function Dot(a: Vector, b: Vector): real
    requires |a| == |b|
  {
    if a == [] then 0.0 else Dot(a[..|a| - 1], b[..|b| - 1]) + a[|a| - 1] * b[|b| - 1]
  }

  function Cosine(a: Vector, b: Vector, root: real -> real): real
    requires |a| == |b|
  {
    if Dot(a, a) == 0.0 || Dot(b, b) == 0.0 || root(Dot(a, a)) * root(Dot(b, b)) == 0.0 then 0.0
    else Dot(a, b) / (root(Dot(a, a)) * root(Dot(b, b)))
  }

  lemma RootsArePositive(root: real -> real, x: real, y: real)
    requires IsRoot(root) && 0.0 < x && 0.0 < y
    ensures 0.0 < root(x) && 0.0 < root(y) && 0.0 < root(x) * root(y)
    ensures (root(x) * root(y)) * (root(x) * root(y)) == x * y
  {
    assert root(x) != 0.0 && root(y) != 0.0;
    var p, q := root(x), root(y);
    assert (p * q) * (p * q) == (p * p) * (q * q);
  }

  lemma {:induction false} SquaresAreNonNegative(a: Vector)
    ensures 0.0 <= Dot(a, a)
  {
    if a != [] {
      SquaresAreNonNegative(a[..|a| - 1]);
    }
  }

  /** cosineSimilarity: one pass for the dot product and both norms. */
  method CosineSimilarity(a: Vector, b: Vector, root: real -> real) returns (r: Result<real, SimilarityError>)
    requires IsRoot(root)
    ensures |a| != |b| ==> r == Failure(LengthMismatch(|a|, |b|))
    ensures |a| == |b| ==> r == Success(Cosine(a, b, root))
  {
    if |a| != |b| { return Failure(LengthMismatch(|a|, |b|)); }
    if |a| == 0 { return Success(0.0); }
    var dot, normA, normB := 0.0, 0.0, 0.0;
    var i := 0;
    while i < |a|
      invariant 0 <= i <= |a|
      invariant dot == Dot(a[..i], b[..i]) && normA == Dot(a[..i], a[..i]) && normB == Dot(b[..i], b[..i])
    {
      var ai, bi := a[i], b[i];
      assert a[..i + 1][..i] == a[..i] && b[..i + 1][..i] == b[..i];
      dot := dot + ai * bi;
      normA := normA + ai * ai;
      normB := normB + bi * bi;
      i := i + 1;
    }
    assert a[..i] == a && b[..i] == b;
    if normA == 0.0 || normB == 0.0 { return Success(0.0); }
    SquaresAreNonNegative(a);
    SquaresAreNonNegative(b);
    RootsArePositive(root, normA, normB);
    assert Cosine(a, b, root) == dot / (root(normA) * root(normB));
    r := Success(dot / (root(normA) * root(normB)));
  }

  // The dot product is 0 on the zero vector, and grows with each coordinate by the other vector's: no other function does.
  lemma {:induction false} DotOfZeros(a: Vector, b: Vector)
    requires |a| == |b| && forall i :: 0 <= i < |a| ==> a[i] == 0.0
    ensures Dot(a, b) == 0.0
  {
    if a != [] {
      DotOfZeros(a[..|a| - 1], b[..|b| - 1]);
    }
  }

  lemma {:induction false} DotAt(a: Vector, b: Vector, i: nat, x: real)
    requires |a| == |b| && i < |a|
    ensures Dot(a[i := a[i] + x], b) == Dot(a, b) + x * b[i]
  {
    var a', b' := a[..|a| - 1], b[..|b| - 1];
    if i == |a| - 1 {
      assert a[i := a[i] + x][..|a| - 1] == a';
      assert (a[i] + x) * b[i] == a[i] * b[i] + x * b[i];
    } else {
      DotAt(a', b', i, x);
      assert a[i := a[i] + x][..|a| - 1] == a'[i := a'[i] + x];
    }
  }

  /** The cosine of two vectors that are not zero, times their lengths, is their dot product. */
  lemma CosineIs(a: Vector, b: Vector, root: real -> real)
    requires IsRoot(root) && |a| == |b| && Dot(a, a) != 0.0 && Dot(b, b) != 0.0
    ensures Cosine(a, b, root) * (root(Dot(a, a)) * root(Dot(b, b))) == Dot(a, b)
  {
    SquaresAreNonNegative(a);
    SquaresAreNonNegative(b);
    RootsArePositive(root, Dot(a, a), Dot(b, b));
    hide Dot, IsRoot;
    var d, p := Dot(a, b), root(Dot(a, a)) * root(Dot(b, b));
    CosineOver(a, b, root);
    hide Cosine;
    Requotient(d, p);
  }

  lemma CosineOver(a: Vector, b: Vector, root: real -> real)
    requires |a| == |b| && Dot(a, a) != 0.0 && Dot(b, b) != 0.0 && root(Dot(a, a)) * root(Dot(b, b)) != 0.0
    ensures Cosine(a, b, root) == Dot(a, b) / (root(Dot(a, a)) * root(Dot(b, b)))
  {
    hide Dot;
  }

  lemma Requotient(d: real, p: real)
    requires p != 0.0
    ensures d / p * p == d
  {
  }

  // The squared length of x * a - y * b.
  function Combined(a: Vector, b: Vector, x: real, y: real): real
    requires |a| == |b|
  {
    if a == [] then 0.0
    else
      var d := x * a[|a| - 1] - y * b[|b| - 1];
      Combined(a[..|a| - 1], b[..|b| - 1], x, y) + d * d
  }

  lemma SquareOfDifference(x: real, y: real, s: real, t: real)
    ensures (x * s - y * t) * (x * s - y * t) == x * x * (s * s) - 2.0 * (x * y) * (s * t) + y * y * (t * t)
  {
    var p, q := x * s, y * t;
    assert (p - q) * (p - q) == p * p - 2.0 * (p * q) + q * q;
    assert p * p == x * x * (s * s);
    assert q * q == y * y * (t * t);
    assert p * q == (x * y) * (s * t);
  }

  lemma {:induction false} CombinedExpands(a: Vector, b: Vector, x: real, y: real)
    requires |a| == |b|
    ensures 0.0 <= Combined(a, b, x, y) == x * x * Dot(a, a) - 2.0 * (x * y) * Dot(a, b) + y * y * Dot(b, b)
  {
    if a != [] {
      var a', b' := a[..|a| - 1], b[..|b| - 1];
      var s, t := a[|a| - 1], b[|b| - 1];
      CombinedExpands(a', b', x, y);
      SquareOfDifference(x, y, s, t);
      Distributes(x * x, Dot(a', a'), s * s);
      Distributes(2.0 * (x * y), Dot(a', b'), s * t);
      Distributes(y * y, Dot(b', b'), t * t);
      Square(x * s - y * t);
    }
  }

  lemma Square(x: real)
    ensures 0.0 <= x * x
  {
  }

  lemma Distributes(x: real, y: real, z: real)
    ensures x * (y + z) == x * y + x * z
  {
  }

  /** Cauchy-Schwarz. */
  lemma CauchySchwarz(a: Vector, b: Vector)
    requires |a| == |b|
    ensures Dot(a, b) * Dot(a, b) <= Dot(a, a) * Dot(b, b)
  {
    var n, m, d := Dot(a, a), Dot(b, b), Dot(a, b);
    SquaresAreNonNegative(a);
    SquaresAreNonNegative(b);
    CombinedExpands(a, b, m, d);
    CombinedExpands(a, b, d, n);
    if 0.0 < m {
      LastStep(n, m, d);
    } else if 0.0 < n {
      CombinedExpands(b, a, n, d);
      DotCommutes(a, b);
      LastStep(m, n, d);
    } else {
      CombinedExpands(a, b, d, 1.0);
      assert Combined(a, b, d, 1.0) == -2.0 * (d * d);
    }
  }

  lemma {:induction false} DotCommutes(a: Vector, b: Vector)
    requires |a| == |b|
    ensures Dot(a, b) == Dot(b, a)
  {
    if a != [] {
      DotCommutes(a[..|a| - 1], b[..|b| - 1]);
    }
  }

  lemma LastStep(n: real, m: real, d: real)
    requires 0.0 < m && 0.0 <= m * m * n - 2.0 * (m * d) * d + d * d * m
    ensures d * d <= n * m
  {
    assert m * m * n - 2.0 * (m * d) * d + d * d * m == m * (n * m - d * d);
    SignOfFactor(m, n * m - d * d);
  }

  lemma SignOfFactor(m: real, x: real)
    requires 0.0 < m
    ensures x < 0.0 ==> m * x < 0.0
  {
  }

  /** Cosine similarity lies in [-1, 1]. */
  lemma CosineRange(a: Vector, b: Vector, root: real -> real)
    requires IsRoot(root) && |a| == |b|
    ensures -1.0 <= Cosine(a, b, root) <= 1.0
  {
    SquaresAreNonNegative(a);
    SquaresAreNonNegative(b);
    if 0.0 < Dot(a, a) && 0.0 < Dot(b, b) {
      RootsArePositive(root, Dot(a, a), Dot(b, b));
      CauchySchwarz(a, b);
      WithinOne(Dot(a, b), root(Dot(a, a)) * root(Dot(b, b)));
    }
  }

  lemma WithinOne(d: real, p: real)
    requires 0.0 < p && d * d <= p * p
    ensures -1.0 <= d / p <= 1.0
  {
    SquareOrder(p, d);
    Quotient(d, p);
  }

  lemma SquareOrder(p: real, d: real)
    requires 0.0 <= p
    ensures p < d || d < -p ==> p * p < d * d
  {
    if p < d {
      assert p * p <= p * d < d * d;
    } else if d < -p {
      assert p * p <= p * -d < d * d;
    }
  }

  lemma Quotient(d: real, p: real)
    requires -p <= d <= p && 0.0 < p
    ensures -1.0 <= d / p <= 1.0
  {
  }

  /** A vector that is not zero is as similar to itself as can be. */
  lemma SelfCosine(a: Vector, root: real -> real)
    requires IsRoot(root) && Dot(a, a) != 0.0
    ensures Cosine(a, a, root) == 1.0
  {
    SquaresAreNonNegative(a);
    RootsArePositive(root, Dot(a, a), Dot(a, a));
    OverItself(Dot(a, a), root(Dot(a, a)) * root(Dot(a, a)));
  }

  lemma OverItself(x: real, y: real)
    requires x == y != 0.0
    ensures x / y == 1.0
  {
  }

  // ----- greedy clustering -----

  type Embeddings = map<nat, Vector>

  type Clusters = seq<seq<Item>>

  predicate Similar(emb: Embeddings, a: Item, b: Item, threshold: real, root: real -> real) {
    && a.id in emb && b.id in emb && |emb[a.id]| == |emb[b.id]|
    && threshold <= Cosine(emb[a.id], emb[b.id], root)
  }

  // Every cluster has a first record, and that record an embedding.
  predicate Represented(clusters: Clusters, emb: Embeddings) {
    forall k :: 0 <= k < |clusters| ==> clusters[k] != [] && clusters[k][0].id in emb
  }

  // The first cluster, from position i on, whose first record is similar enough.
  function FirstJoin(clusters: Clusters, emb: Embeddings, x: Item, threshold: real, root: real -> real, i: nat)
    : Result<Option<nat>, SimilarityError>
    requires x.id in emb && i <= |clusters| && Represented(clusters, emb)
    decreases |clusters| - i
  {
    if i == |clusters| then Success(None)
    else
      var rep := clusters[i][0];
      if |emb[x.id]| != |emb[rep.id]| then Failure(LengthMismatch(|emb[x.id]|, |emb[rep.id]|))
      else if threshold <= Cosine(emb[x.id], emb[rep.id], root) then Success(Some(i))
      else FirstJoin(clusters, emb, x, threshold, root, i + 1)
  }

  function Placed(clusters: Clusters, x: Item, at: Option<nat>): Clusters
    requires at.Some? ==> at.value < |clusters|
  {
    if at.Some? then clusters[at.value := clusters[at.value] + [x]] else clusters + [[x]]
  }

  lemma {:induction false} JoinIsFirst(
    clusters: Clusters, emb: Embeddings, x: Item, threshold: real, root: real -> real, i: nat)
    requires x.id in emb && i <= |clusters| && Represented(clusters, emb)
    ensures var join := FirstJoin(clusters, emb, x, threshold, root, i);
            join.Success? ==>
              if join.value.Some?
              then i <= join.value.value < |clusters| && Similar(emb, x, clusters[join.value.value][0], threshold, root)
                   && forall k :: i <= k < join.value.value ==> !Similar(emb, x, clusters[k][0], threshold, root)
              else forall k :: i <= k < |clusters| ==> !Similar(emb, x, clusters[k][0], threshold, root)
    decreases |clusters| - i
  {
    if i < |clusters| {
      JoinIsFirst(clusters, emb, x, threshold, root, i + 1);
    }
  }

  function Clustered(records: seq<Item>, emb: Embeddings, threshold: real, root: real -> real)
    : (r: Result<Clusters, SimilarityError>)
    ensures r.Success? ==> Represented(r.value, emb)
  {
    if records == [] then Success([])
    else
      var x := records[|records| - 1];
      var before := Clustered(records[..|records| - 1], emb, threshold, root);
      if before.Failure? || x.id !in emb then before
      else
        var join := FirstJoin(before.value, emb, x, threshold, root, 0);
        JoinIsFirst(before.value, emb, x, threshold, root, 0);
        if join.Failure? then Failure(join.error) else Success(Placed(before.value, x, join.value))
  }

  // The inner loop of findSemanticDuplicates.
  method JoinOrOpen(clusters: Clusters, emb: Embeddings, x: Item, threshold: real, root: real -> real)
    returns (r: Result<Clusters, SimilarityError>)
    requires IsRoot(root) && x.id in emb && Represented(clusters, emb)
    ensures match FirstJoin(clusters, emb, x, threshold, root, 0)
            case Failure(e) => r == Failure(e)
            case Success(at) => (at.Some? ==> at.value < |clusters|) && r == Success(Placed(clusters, x, at))
  {
    hide Cosine;
    var i := 0;
    while i < |clusters|
      invariant 0 <= i <= |clusters|
      invariant FirstJoin(clusters, emb, x, threshold, root, 0) == FirstJoin(clusters, emb, x, threshold, root, i)
    {
      var repId := clusters[i][0].id;
      var similarity := CosineSimilarity(emb[x.id], emb[repId], root);
      if similarity.Failure? { return Failure(similarity.error); }
      if similarity.value >= threshold {
        return Success(clusters[i := clusters[i] + [x]]);
      }
      i := i + 1;
    }
    r := Success(clusters + [[x]]);
  }

  /** findSemanticDuplicates. */
  method FindSemanticDuplicates(records: seq<Item>, emb: Embeddings, threshold: real, root: real -> real)
    returns (r: Result<seq<Group>, SimilarityError>)
    requires IsRoot(root)
    ensures r == if threshold <= 0.0 || 1.0 < threshold then Failure(BadThreshold)
                 else match Clustered(records, emb, threshold, root)
                      case Failure(e) => Failure(e)
                      case Success(clusters) => Success(GroupsOf(clusters))
  {
    hide Cosine, GroupsOf, FirstJoin;
    if threshold <= 0.0 || 1.0 < threshold { return Failure(BadThreshold); }
    var clusters: Clusters := [];
    var i := 0;
    while i < |records|
      invariant 0 <= i <= |records|
      invariant Clustered(records[..i], emb, threshold, root) == Success(clusters)
    {
      assert records[..i + 1][..i] == records[..i];
      if records[i].id in emb {
        var next := JoinOrOpen(clusters, emb, records[i], threshold, root);
        if next.Failure? {
          FailureStays(records, i + 1, emb, threshold, root);
          return Failure(next.error);
        }
        clusters := next.value;
      }
      i := i + 1;
    }
    assert records[..i] == records;
    var groups := CollectGroups(clusters);
    r := Success(groups);
  }

  lemma {:induction false} FailureStays(records: seq<Item>, i: nat, emb: Embeddings, threshold: real, root: real -> real)
    requires i <= |records| && Clustered(records[..i], emb, threshold, root).Failure?
    ensures Clustered(records, emb, threshold, root) == Clustered(records[..i], emb, threshold, root)
    decreases |records| - i
  {
    hide Cosine, FirstJoin;
    if i == |records| {
      assert records[..i] == records;
    } else {
      assert records[..i + 1][..i] == records[..i];
      FailureStays(records, i + 1, emb, threshold, root);
    }
  }

  // The loop that turns clusters of two or more into groups.
  method CollectGroups(clusters: Clusters) returns (groups: seq<Group>)
    ensures groups == GroupsOf(clusters)
  {
    groups := [];
    var i := 0;
    while i < |clusters|
      invariant 0 <= i <= |clusters| && groups == GroupsOf(clusters[..i])
    {
      assert clusters[..i + 1][..i] == clusters[..i];
      if |clusters[i]| >= 2 { groups := groups + [GroupOf(clusters[i])]; }
      i := i + 1;
    }
    assert clusters[..i] == clusters;
  }

  // ----- what the clusters promise -----

  function Embedded(records: seq<Item>, emb: Embeddings): seq<Item> {
    if records == [] then []
    else
      var last := records[|records| - 1];
      Embedded(records[..|records| - 1], emb) + if last.id in emb then [last] else []
  }

  function Flat(clusters: Clusters): multiset<Item> {
    if clusters == [] then multiset{}
    else Flat(clusters[..|clusters| - 1]) + multiset(clusters[|clusters| - 1])
  }

  // Members are similar to their own cluster's first record and to no earlier cluster's.
  ghost predicate Greedy(clusters: Clusters, emb: Embeddings, threshold: real, root: real -> real) {
    && Represented(clusters, emb)
    && (forall k, i :: 0 <= k < |clusters| && 1 <= i < |clusters[k]| ==>
          Similar(emb, clusters[k][i], clusters[k][0], threshold, root))
    && (forall j, k, i :: 0 <= j < k < |clusters| && 0 <= i < |clusters[k]| ==>
          !Similar(emb, clusters[k][i], clusters[j][0], threshold, root))
  }

  lemma PlacedStaysGreedy(clusters: Clusters, emb: Embeddings, x: Item, threshold: real, root: real -> real)
    requires Greedy(clusters, emb, threshold, root) && x.id in emb
    requires FirstJoin(clusters, emb, x, threshold, root, 0).Success?
    ensures var at := FirstJoin(clusters, emb, x, threshold, root, 0).value;
            && (at.Some? ==> at.value < |clusters|)
            && Greedy(Placed(clusters, x, at), emb, threshold, root)
  {
    hide Similar, FirstJoin;
    JoinIsFirst(clusters, emb, x, threshold, root, 0);
  }

  lemma {:induction false} FlatOfPlaced(clusters: Clusters, x: Item, at: Option<nat>)
    requires at.Some? ==> at.value < |clusters|
    ensures Flat(Placed(clusters, x, at)) == Flat(clusters) + multiset{x}
    decreases |clusters|
  {
    var placed := Placed(clusters, x, at);
    if at.None? {
      assert placed[..|placed| - 1] == clusters;
    } else if at.value == |clusters| - 1 {
      assert placed[..|placed| - 1] == clusters[..|clusters| - 1];
    } else {
      FlatOfPlaced(clusters[..|clusters| - 1], x, at);
      assert placed[..|placed| - 1] == Placed(clusters[..|clusters| - 1], x, at);
    }
  }

  /**
    The clusters partition the records that have an embedding; every member reaches the threshold against its cluster's
    first record, and no record of a later cluster reaches it against an earlier cluster's first record.
  */
  lemma {:induction false} ClustersPartition(records: seq<Item>, emb: Embeddings, threshold: real, root: real -> real)
    requires Clustered(records, emb, threshold, root).Success?
    ensures var clusters := Clustered(records, emb, threshold, root).value;
            Flat(clusters) == multiset(Embedded(records, emb)) && Greedy(clusters, emb, threshold, root)
  {
    hide Similar, FirstJoin, Greedy;
    if records == [] {
      assert Greedy([], emb, threshold, root) by { NoClusters(emb, threshold, root); }
    } else {
      var init, x := records[..|records| - 1], records[|records| - 1];
      ClustersPartition(init, emb, threshold, root);
      var before := Clustered(init, emb, threshold, root).value;
      if x.id in emb {
        PlacedStaysGreedy(before, emb, x, threshold, root);
        FlatOfPlaced(before, x, FirstJoin(before, emb, x, threshold, root, 0).value);
      }
    }
  }

  lemma NoClusters(emb: Embeddings, threshold: real, root: real -> real)
    ensures Greedy([], emb, threshold, root)
  {
  }

  // The embedded records all have vectors of one length.
  predicate OneLength(records: seq<Item>, emb: Embeddings) {
    forall x, y :: x in records && y in records && x.id in emb && y.id in emb ==> |emb[x.id]| == |emb[y.id]|
  }

  lemma MismatchFails(clusters: Clusters, emb: Embeddings, x: Item, threshold: real, root: real -> real)
    requires x.id in emb && clusters != [] && Represented(clusters, emb) && |emb[x.id]| != |emb[clusters[0][0].id]|
    ensures FirstJoin(clusters, emb, x, threshold, root, 0).Failure?
  {
  }

  lemma {:induction false} MatchJoins(clusters: Clusters, emb: Embeddings, x: Item, threshold: real, root: real -> real, i: nat)
    requires x.id in emb && i <= |clusters| && Represented(clusters, emb)
    requires forall k :: 0 <= k < |clusters| ==> |emb[x.id]| == |emb[clusters[k][0].id]|
    ensures FirstJoin(clusters, emb, x, threshold, root, i).Success?
    decreases |clusters| - i
  {
    if i < |clusters| {
      MatchJoins(clusters, emb, x, threshold, root, i + 1);
    }
  }

  // The first records of the clusters are embedded records, and there are some as soon as there is one.
  lemma FirstsAreRecords(records: seq<Item>, emb: Embeddings, threshold: real, root: real -> real)
    requires Clustered(records, emb, threshold, root).Success?
    ensures var clusters := Clustered(records, emb, threshold, root).value;
            && (forall k :: 0 <= k < |clusters| ==> clusters[k] != [] && clusters[k][0] in records && clusters[k][0].id in emb)
            && (forall x :: x in records && x.id in emb ==> clusters != [])
  {
    var clusters := Clustered(records, emb, threshold, root).value;
    ClustersPartition(records, emb, threshold, root);
    hide Clustered, Similar;
    forall k | 0 <= k < |clusters| ensures clusters[k][0] in records {
      MemberInFlat(clusters, k, clusters[k][0]);
      EmbeddedIsRecord(records, emb, clusters[k][0]);
    }
    forall x | x in records && x.id in emb ensures clusters != [] {
      EmbeddedMember(records, emb, x);
      assert x in multiset(Embedded(records, emb));
    }
  }

  lemma {:induction false} MemberInFlat(clusters: Clusters, k: nat, x: Item)
    requires k < |clusters| && x in clusters[k]
    ensures x in Flat(clusters)
  {
    if k < |clusters| - 1 {
      MemberInFlat(clusters[..|clusters| - 1], k, x);
    }
  }

  lemma {:induction false} EmbeddedIsRecord(records: seq<Item>, emb: Embeddings, x: Item)
    requires x in Embedded(records, emb)
    ensures x in records && x.id in emb
  {
    if x in Embedded(records[..|records| - 1], emb) {
      EmbeddedIsRecord(records[..|records| - 1], emb, x);
    }
  }

  /** Clustering fails if and only if two of the vectors differ in length. */
  lemma {:induction false} ClusteringFailsIff(records: seq<Item>, emb: Embeddings, threshold: real, root: real -> real)
    ensures Clustered(records, emb, threshold, root).Success? <==> OneLength(records, emb)
  {
    if records != [] {
      var init, x := records[..|records| - 1], records[|records| - 1];
      assert records == init + [x];
      ClusteringFailsIff(init, emb, threshold, root);
      if x.id in emb && OneLength(init, emb) {
        FirstsAreRecords(init, emb, threshold, root);
        var clusters := Clustered(init, emb, threshold, root).value;
        if OneLength(records, emb) {
          MatchJoins(clusters, emb, x, threshold, root, 0);
        } else {
          var y :| y in init && y.id in emb && |emb[x.id]| != |emb[y.id]|;
          assert clusters[0][0] in init;
          MismatchFails(clusters, emb, x, threshold, root);
        }
      }
    }
  }

  // The record is in that cluster.
  predicate In(clusters: Clusters, k: nat, x: Item) {
    k < |clusters| && x in clusters[k]
  }

  lemma {:induction false} FlatMember(clusters: Clusters, x: Item) returns (k: nat)
    requires x in Flat(clusters)
    ensures In(clusters, k, x)
  {
    var last := clusters[|clusters| - 1];
    if x in last {
      k := |clusters| - 1;
    } else {
      k := FlatMember(clusters[..|clusters| - 1], x);
    }
  }

  lemma {:induction false} EmbeddedMember(records: seq<Item>, emb: Embeddings, x: Item)
    requires x in records && x.id in emb
    ensures x in Embedded(records, emb)
  {
    if records[|records| - 1] != x {
      EmbeddedMember(records[..|records| - 1], emb, x);
    }
  }

  // A record with the same non-zero vector as a member of cluster k is similar to that cluster's first record.
  lemma SimilarToFirst(
    clusters: Clusters, emb: Embeddings, threshold: real, root: real -> real, k: nat, a: Item, b: Item)
    requires IsRoot(root) && threshold <= 1.0 && Greedy(clusters, emb, threshold, root) && In(clusters, k, a)
    requires a.id in emb && b.id in emb && emb[a.id] == emb[b.id] && Dot(emb[a.id], emb[a.id]) != 0.0
    ensures Similar(emb, b, clusters[k][0], threshold, root)
  {
    hide Cosine;
    var i :| 0 <= i < |clusters[k]| && clusters[k][i] == a;
    if i == 0 {
      SelfCosine(emb[a.id], root);
    } else {
      assert Similar(emb, a, clusters[k][0], threshold, root);
    }
  }

  lemma NotSimilarToEarlier(clusters: Clusters, emb: Embeddings, threshold: real, root: real -> real, j: nat, k: nat, b: Item)
    requires Greedy(clusters, emb, threshold, root) && j < k && In(clusters, k, b)
    ensures !Similar(emb, b, clusters[j][0], threshold, root)
  {
    hide Similar;
    var i :| 0 <= i < |clusters[k]| && clusters[k][i] == b;
  }

  /** Records with equal non-zero vectors always share a cluster, for any threshold in (0, 1]. */
  lemma EqualVectorsShareCluster(
    records: seq<Item>, emb: Embeddings, threshold: real, root: real -> real, a: Item, b: Item)
    requires IsRoot(root) && threshold <= 1.0 && Clustered(records, emb, threshold, root).Success?
    requires a in records && b in records && a.id in emb && b.id in emb
    requires emb[a.id] == emb[b.id] && Dot(emb[a.id], emb[a.id]) != 0.0
    ensures exists k :: In(Clustered(records, emb, threshold, root).value, k, a)
                        && In(Clustered(records, emb, threshold, root).value, k, b)
  {
    hide Similar, Greedy, In;
    var clusters := Clustered(records, emb, threshold, root).value;
    ClustersPartition(records, emb, threshold, root);
    EmbeddedMember(records, emb, a);
    EmbeddedMember(records, emb, b);
    var j := FlatMember(clusters, a);
    var k := FlatMember(clusters, b);
    SimilarToFirst(clusters, emb, threshold, root, j, a, b);
    SimilarToFirst(clusters, emb, threshold, root, k, b, a);
    if j < k { NotSimilarToEarlier(clusters, emb, threshold, root, j, k, b); }
    if k < j { NotSimilarToEarlier(clusters, emb, threshold, root, k, j, a); }
    assert j == k;
  }
}
