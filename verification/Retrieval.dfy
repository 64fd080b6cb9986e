/** retrieveMemory and the ranking of its candidates. */
module Retrieval {
  import opened Common
  import opened Sorting

  datatype MemoryType = DecisionMemory | SummaryMemory | FactMemory

  datatype SourceType = DecisionSource | DocumentSource | ConversationSource

  // A record as the canonical repository answers it; generic is what looksGeneric says of its text.
  datatype Found = Found(
    id: nat, project: bool, memoryType: MemoryType, sourceType: SourceType, generic: bool, updatedAt: int)

  // A point of the vector index; the record id comes from its payload, and may be missing or not a positive integer.
  datatype Hit = Hit(record: Option<nat>, score: real)

  const DAY_IN_MS := 86_400_000

  // ----- scores -----

  function ScopeScore(x: Found): int {
    if x.project then 1000 else 0
  }

  function MetadataScore(x: Found): int {
    var memoryType := match x.memoryType
      case DecisionMemory => 120
      case SummaryMemory => 70
      case FactMemory => 45;
    var sourceType := match x.sourceType
      case DecisionSource => 30
      case DocumentSource => 15
      case ConversationSource => 0;
    memoryType + sourceType - if x.generic then 35 else 0
  }

  function RecencyScore(updatedAt: int, newest: int): int {
    var days := if updatedAt < newest then (newest - updatedAt) / DAY_IN_MS else 0;
    if days < 25 then 25 - days else 0
  }

  function Bonus(score: Option<real>): real {
    if score.Some? then score.value * 50.0 else 0.0
  }

  function Total(x: Found, newest: int, vector: Option<real>, lexical: Option<real>): real {
    (ScopeScore(x) + MetadataScore(x) + RecencyScore(x.updatedAt, newest)) as real + Bonus(vector) + Bonus(lexical)
  }

  /** The weights of a record's own fields, as differences: they and one of the scores determine all of them. */
  lemma WeightsAre(x: Found)
    ensures MetadataScore(x.(memoryType := DecisionMemory)) == MetadataScore(x.(memoryType := SummaryMemory)) + 50
    ensures MetadataScore(x.(memoryType := SummaryMemory)) == MetadataScore(x.(memoryType := FactMemory)) + 25
    ensures MetadataScore(x.(sourceType := DecisionSource)) == MetadataScore(x.(sourceType := DocumentSource)) + 15
    ensures MetadataScore(x.(sourceType := DocumentSource)) == MetadataScore(x.(sourceType := ConversationSource)) + 15
    ensures MetadataScore(x.(generic := true)) == MetadataScore(x.(generic := false)) - 35
    ensures MetadataScore(x.(memoryType := FactMemory, sourceType := ConversationSource, generic := false)) == 45
  {
  }

  /** A record loses one point for each full day it is older than the newest one, until it has lost all twenty-five. */
  lemma RecencyIs(updatedAt: int, newest: int, days: nat)
    requires newest - (days + 1) * DAY_IN_MS < updatedAt && (updatedAt <= newest - days * DAY_IN_MS || days == 0)
    ensures RecencyScore(updatedAt, newest) == if days < 25 then 25 - days else 0
  {
    if updatedAt < newest {
      var age := newest - updatedAt;
      assert days * DAY_IN_MS <= age < (days + 1) * DAY_IN_MS;
      assert age / DAY_IN_MS == days;
    }
  }

  /** A score is worth up to fifty points, in proportion, and no score is worth none. */
  lemma ScoresAreWorth(x: Found, newest: int, v: real, l: Option<real>)
    ensures Total(x, newest, Some(v), l) == Total(x, newest, None, l) + 50.0 * v
    ensures Total(x, newest, l, Some(v)) == Total(x, newest, l, None) + 50.0 * v
    ensures Total(x, newest, None, None) == (ScopeScore(x) + MetadataScore(x) + RecencyScore(x.updatedAt, newest)) as real
  {
  }

  // ----- fusing a source's scores -----

  function ClampUnit(score: real): (r: real)
    ensures 0.0 <= r <= 1.0
  {
    if score < 0.0 then 0.0 else if 1.0 < score then 1.0 else score
  }

  function ReciprocalRankBoost(rank: nat): real {
    61.0 / (60.0 + rank as real)
  }

  function FusedSourceScore(raw: Option<real>, rank: Option<nat>): Option<real> {
    if raw.None? || rank.None? then None
    else Some(ClampUnit(raw.value) * ReciprocalRankBoost(rank.value))
  }

  /** A score in range counts in full for the first of its source, and for the k-th by 61 parts of 60 + k. */
  lemma FusedIs(raw: real, rank: nat)
    requires 0.0 <= raw <= 1.0 && 1 <= rank
    ensures FusedSourceScore(Some(raw), Some(rank)).Some?
    ensures FusedSourceScore(Some(raw), Some(rank)).value * (60 + rank) as real == 61.0 * raw
    ensures FusedSourceScore(Some(raw), Some(1)) == Some(raw)
  {
    var n := 60.0 + rank as real;
    assert ReciprocalRankBoost(rank) * n == 61.0;
    assert (raw * ReciprocalRankBoost(rank)) * n == raw * (ReciprocalRankBoost(rank) * n);
    assert ReciprocalRankBoost(1) == 1.0;
  }

  predicate UnitScore(s: Option<real>) {
    s.Some? ==> 0.0 <= s.value <= 1.0
  }

  /** Fused scores stay in [0, 1]. */
  lemma FusedIsUnit(raw: Option<real>, rank: Option<nat>)
    requires rank.Some? ==> 1 <= rank.value
    ensures UnitScore(FusedSourceScore(raw, rank))
  {
    if rank.Some? && raw.Some? {
      BoostWithin(rank.value);
      ProductWithin(ClampUnit(raw.value), ReciprocalRankBoost(rank.value));
    }
  }

  lemma BoostWithin(rank: nat)
    requires 1 <= rank
    ensures 0.0 < ReciprocalRankBoost(rank) <= 1.0
  {
  }

  lemma ProductWithin(c: real, b: real)
    requires 0.0 <= c <= 1.0 && 0.0 < b <= 1.0
    ensures 0.0 <= c * b <= 1.0
  {
    assert c * b <= 1.0 * b;
  }

  lemma BoostFalls(i: nat, k: nat)
    requires 1 <= i < k
    ensures ReciprocalRankBoost(k) < ReciprocalRankBoost(i)
  {
    var x, y := 60.0 + i as real, 60.0 + k as real;
    assert 61.0 / y * y == 61.0 && 61.0 / x * x == 61.0;
  }

  /** Fusing keeps the order of the source's scores, strictly exactly where the better score is above zero. */
  lemma FusionKeepsOrder(better: real, worse: real, i: nat, k: nat)
    requires worse <= better && 1 <= i < k
    ensures var f, g := FusedSourceScore(Some(better), Some(i)).value, FusedSourceScore(Some(worse), Some(k)).value;
            g <= f && (g < f <==> 0.0 < ClampUnit(better))
  {
    BoostWithin(i);
    BoostWithin(k);
    BoostFalls(i, k);
    Products(ClampUnit(better), ClampUnit(worse), ReciprocalRankBoost(i), ReciprocalRankBoost(k));
  }

  lemma Products(c: real, d: real, b: real, a: real)
    requires 0.0 <= d <= c && 0.0 < a < b
    ensures d * a <= c * b && (d * a < c * b <==> 0.0 < c)
  {
    assert d * a <= c * a;
    if 0.0 < c { assert c * a < c * b; }
  }

  /** Every project record comes before every user record, whatever their scores. */
  lemma ProjectBeforeUser(
    x: Found, y: Found, newest: int, v: Option<real>, l: Option<real>, w: Option<real>, m: Option<real>)
    requires x.project && !y.project && UnitScore(v) && UnitScore(l) && UnitScore(w) && UnitScore(m)
    ensures Total(y, newest, w, m) < Total(x, newest, v, l)
  {
    assert 10 <= MetadataScore(x) && MetadataScore(y) <= 150;
    assert 0 <= RecencyScore(x.updatedAt, newest) && RecencyScore(y.updatedAt, newest) <= 25;
    BonusWithin(v);
    BonusWithin(l);
    BonusWithin(w);
    BonusWithin(m);
  }

  lemma BonusWithin(s: Option<real>)
    requires UnitScore(s)
    ensures 0.0 <= Bonus(s) <= 50.0
  {
  }

  // ----- ranking -----

  datatype Ranked = Ranked(record: Found, total: real)

  // Total descending, then the more recent, then the higher id.
  predicate Outranks(a: Ranked, b: Ranked) {
    || b.total < a.total
    || (a.total == b.total && b.record.updatedAt < a.record.updatedAt)
    || (a.total == b.total && b.record.updatedAt == a.record.updatedAt && b.record.id <= a.record.id)
  }

  lemma OutranksIsOrder()
    ensures TotalPreorder(Outranks)
  {
  }

  predicate DistinctIds(cs: seq<Ranked>) {
    forall i, k :: 0 <= i < k < |cs| ==> cs[i].record.id != cs[k].record.id
  }

  /**
    The ranking does not depend on the order in which the candidates were found: two orderings of the same candidates,
    with distinct ids, rank the same.
  */
  lemma RankingIsCanonical(cs: seq<Ranked>, ds: seq<Ranked>)
    requires DistinctIds(cs) && multiset(cs) == multiset(ds)
    ensures SortBy(cs, Outranks) == SortBy(ds, Outranks)
  {
    OutranksIsOrder();
    SortByIsSorted(cs, Outranks);
    SortByIsSorted(ds, Outranks);
    SameWhenSorted(SortBy(cs, Outranks), SortBy(ds, Outranks), cs);
  }

  lemma {:induction false} SameWhenSorted(s: seq<Ranked>, t: seq<Ranked>, cs: seq<Ranked>)
    requires DistinctIds(cs) && SortedBy(s, Outranks) && SortedBy(t, Outranks)
    requires multiset(s) == multiset(t) && forall x :: x in s ==> x in cs
    ensures s == t
  {
    assert |multiset(s)| == |multiset(t)|;
    if s != [] {
      SameHead(s, t, cs);
      assert s == [s[0]] + s[1..] && t == [t[0]] + t[1..];
      assert multiset(s[1..]) == multiset(s) - multiset{s[0]} == multiset(t[1..]);
      SameWhenSorted(s[1..], t[1..], cs);
    }
  }

  lemma SameHead(s: seq<Ranked>, t: seq<Ranked>, cs: seq<Ranked>)
    requires DistinctIds(cs) && SortedBy(s, Outranks) && SortedBy(t, Outranks) && s != [] && t != []
    requires multiset(s) == multiset(t) && forall x :: x in s ==> x in cs
    ensures s[0] == t[0]
  {
    var x, y := s[0], t[0];
    assert x in multiset(t) && y in multiset(s);
    assert y in s && x in t;
    FirstIsBest(s, y);
    FirstIsBest(t, x);
    SameRank(x, y, cs);
  }

  lemma FirstIsBest(s: seq<Ranked>, y: Ranked)
    requires SortedBy(s, Outranks) && y in s
    ensures s[0] == y || Outranks(s[0], y)
  {
    var i :| 0 <= i < |s| && s[i] == y;
  }

  lemma SameRank(x: Ranked, y: Ranked, cs: seq<Ranked>)
    requires DistinctIds(cs) && x in cs && y in cs && (x == y || (Outranks(x, y) && Outranks(y, x)))
    ensures x == y
  {
    var i, k :| 0 <= i < |cs| && 0 <= k < |cs| && cs[i] == x && cs[k] == y;
  }

  // ----- the index hits -----

  predicate NoRepeats(ids: seq<nat>) {
    forall i, k :: 0 <= i < k < |ids| ==> ids[i] != ids[k]
  }

  predicate HasId(hits: seq<Hit>, id: nat) {
    exists h :: h in hits && h.record == Some(id)
  }

  // The record ids of the hits, in order of first appearance.
  function HitIds(hits: seq<Hit>): seq<nat> {
    if hits == [] then []
    else
      var ids, hit := HitIds(hits[..|hits| - 1]), hits[|hits| - 1];
      if hit.record.Some? && hit.record.value !in ids then ids + [hit.record.value] else ids
  }

  /** A hit of a record not seen before adds its id right behind those seen before it. */
  lemma {:induction false} HitIdsInOrder(hits: seq<Hit>, k: nat)
    requires k < |hits| && hits[k].record.Some? && hits[k].record.value !in HitIds(hits[..k])
    ensures HitIds(hits[..k]) + [hits[k].record.value] <= HitIds(hits)
    decreases |hits|
  {
    var init := hits[..|hits| - 1];
    if k < |init| {
      assert init[..k] == hits[..k];
      HitIdsInOrder(init, k);
    }
  }

  // uniqueMemoryRecordIds
  method UniqueMemoryRecordIds(hits: seq<Hit>) returns (ids: seq<nat>)
    ensures ids == HitIds(hits)
    ensures NoRepeats(ids) && forall id :: id in ids <==> HasId(hits, id)
  {
    ids := [];
    var seen: set<nat> := {};
    var i := 0;
    while i < |hits|
      invariant 0 <= i <= |hits| && NoRepeats(ids)
      invariant ids == HitIds(hits[..i]) && forall id :: id in seen <==> id in ids
      invariant forall id :: id in ids <==> HasId(hits[..i], id)
    {
      var hit := hits[i];
      assert hits[..i + 1] == hits[..i] + [hit] && hits[..i + 1][..i] == hits[..i];
      if hit.record.Some? && hit.record.value !in seen {
        seen := seen + {hit.record.value};
        ids := ids + [hit.record.value];
      }
      i := i + 1;
    }
    assert hits[..i] == hits;
  }

  // The best score any hit gives a record.
  ghost predicate BestScores(hits: seq<Hit>, scores: map<nat, real>) {
    && (forall id :: id in scores <==> HasId(hits, id))
    && (forall h :: h in hits && h.record.Some? ==> h.score <= scores[h.record.value])
    && (forall id :: id in scores ==> exists h :: h in hits && h.record == Some(id) && h.score == scores[id])
  }

  // maxVectorScoresByRecordId; order lists the ids as a Map iterates them.
  method MaxVectorScoresByRecordId(hits: seq<Hit>) returns (scores: map<nat, real>, order: seq<nat>)
    ensures BestScores(hits, scores) && NoRepeats(order) && forall id :: id in order <==> id in scores
    ensures order == HitIds(hits)
  {
    scores, order := map[], [];
    var i := 0;
    while i < |hits|
      invariant 0 <= i <= |hits|
      invariant BestScores(hits[..i], scores) && NoRepeats(order) && forall id :: id in order <==> id in scores
      invariant order == HitIds(hits[..i])
    {
      var hit := hits[i];
      assert hits[..i + 1] == hits[..i] + [hit] && hits[..i + 1][..i] == hits[..i];
      if hit.record.Some? {
        OneMoreHit(hits[..i], hit, scores);
        var id := hit.record.value;
        if id !in scores { order := order + [id]; }
        if id !in scores || scores[id] < hit.score { scores := scores[id := hit.score]; }
      } else {
        NoRecordHit(hits[..i], hit, scores);
      }
      i := i + 1;
    }
    assert hits[..i] == hits;
  }

  lemma OneMoreHit(hits: seq<Hit>, hit: Hit, scores: map<nat, real>)
    requires BestScores(hits, scores) && hit.record.Some?
    ensures var id := hit.record.value;
            BestScores(hits + [hit], if id !in scores || scores[id] < hit.score then scores[id := hit.score] else scores)
  {
    var id := hit.record.value;
    var after := if id !in scores || scores[id] < hit.score then scores[id := hit.score] else scores;
    assert forall h :: h in hits + [hit] <==> h in hits || h == hit;
    forall j | j in after ensures exists h :: h in hits + [hit] && h.record == Some(j) && h.score == after[j] {
      if j == id && after[j] == hit.score {
        assert hit in hits + [hit];
      } else {
        var h :| h in hits && h.record == Some(j) && h.score == scores[j];
        assert h in hits + [hit];
      }
    }
    forall j: nat ensures j in after <==> HasId(hits + [hit], j) {
      if HasId(hits, j) {
        var h :| h in hits && h.record == Some(j);
        assert h in hits + [hit];
      }
      assert hit in hits + [hit];
    }
  }

  lemma NoRecordHit(hits: seq<Hit>, hit: Hit, scores: map<nat, real>)
    requires BestScores(hits, scores) && hit.record.None?
    ensures BestScores(hits + [hit], scores)
  {
    assert forall h :: h in hits + [hit] <==> h in hits || h == hit;
    forall j | j in scores ensures exists h :: h in hits + [hit] && h.record == Some(j) && h.score == scores[j] {
      var h :| h in hits && h.record == Some(j) && h.score == scores[j];
      assert h in hits + [hit];
    }
    forall j: nat ensures HasId(hits, j) <==> HasId(hits + [hit], j) {
      if HasId(hits, j) {
        var h :| h in hits && h.record == Some(j);
        assert h in hits + [hit];
      }
    }
  }

  // The ids by score, best first.
  predicate BetterScore(a: (nat, real), b: (nat, real)) {
    b.1 <= a.1
  }

  function Entries(scores: map<nat, real>, order: seq<nat>): seq<(nat, real)>
    requires forall id :: id in order ==> id in scores
  {
    seq(|order|, i requires 0 <= i < |order| => (order[i], scores[order[i]]))
  }

  // Each id's position in the list, from 1.
  function Positions(ids: seq<nat>): map<nat, nat> {
    if ids == [] then map[] else Positions(ids[..|ids| - 1])[ids[|ids| - 1] := |ids|]
  }

  lemma {:induction false} PositionsAre(ids: seq<nat>)
    requires NoRepeats(ids)
    ensures Positions(ids).Keys == set id | id in ids
    ensures forall k :: 0 <= k < |ids| ==> ids[k] in Positions(ids) && Positions(ids)[ids[k]] == k + 1
  {
    if ids != [] {
      var init := ids[..|ids| - 1];
      PositionsAre(init);
      assert ids == init + [ids[|ids| - 1]];
      forall k | 0 <= k < |init| ensures ids[k] in Positions(ids) && Positions(ids)[ids[k]] == k + 1 {
        assert init[k] == ids[k];
      }
    }
  }

  // rankMap over the ids of a list without repeats.
  method RankMap(ids: seq<nat>) returns (ranks: map<nat, nat>)
    requires NoRepeats(ids)
    ensures ranks == Positions(ids)
    ensures ranks.Keys == (set id | id in ids) && forall k :: 0 <= k < |ids| ==> ranks[ids[k]] == k + 1
  {
    ranks := map[];
    var rank := 1;
    var i := 0;
    while i < |ids|
      invariant 0 <= i <= |ids| && rank == i + 1 && ranks == Positions(ids[..i])
    {
      assert ids[..i + 1][..i] == ids[..i];
      ranks := ranks[ids[i] := rank];
      rank := rank + 1;
      i := i + 1;
    }
    assert ids[..i] == ids;
    PositionsAre(ids);
  }

  // ----- the whole retrieval -----

  // The score of each record that matches at all, the last one where an id comes twice.
  function LexicalScores(matchOf: Found -> real, records: seq<Found>): map<nat, real> {
    if records == [] then map[]
    else
      var scores, x := LexicalScores(matchOf, records[..|records| - 1]), records[|records| - 1];
      if 0.0 < matchOf(x) then scores[x.id := matchOf(x)] else scores
  }

  function LexicalIds(matchOf: Found -> real, records: seq<Found>): seq<nat> {
    if records == [] then []
    else
      var ids, x := LexicalIds(matchOf, records[..|records| - 1]), records[|records| - 1];
      if 0.0 < matchOf(x) && x.id !in ids then ids + [x.id] else ids
  }

  // scoreLexicalRecords: the records the query matches at all, with their scores.
  method ScoreLexicalRecords(matchOf: Found -> real, records: seq<Found>)
    returns (scores: map<nat, real>, order: seq<nat>)
    ensures scores == LexicalScores(matchOf, records) && order == LexicalIds(matchOf, records)
    ensures NoRepeats(order) && forall id :: id in order <==> id in scores
    ensures forall id :: id in scores ==> 0.0 < scores[id] && exists x :: x in records && x.id == id && scores[id] == matchOf(x)
    ensures forall x :: x in records && 0.0 < matchOf(x) ==> x.id in scores
  {
    scores, order := map[], [];
    var i := 0;
    while i < |records|
      invariant 0 <= i <= |records| && NoRepeats(order) && forall id :: id in order <==> id in scores
      invariant scores == LexicalScores(matchOf, records[..i]) && order == LexicalIds(matchOf, records[..i])
      invariant forall id :: id in scores ==>
        0.0 < scores[id] && exists x :: x in records && x.id == id && scores[id] == matchOf(x)
      invariant forall k :: 0 <= k < i && 0.0 < matchOf(records[k]) ==> records[k].id in scores
    {
      var score := matchOf(records[i]);
      assert records[..i + 1][..i] == records[..i];
      if score > 0.0 {
        if records[i].id !in scores { order := order + [records[i].id]; }
        scores := scores[records[i].id := score];
      }
      i := i + 1;
    }
    assert records[..i] == records;
  }

  // The ids by score, best first, and equal scores in the given order.
  function IdsByScore(scores: map<nat, real>, order: seq<nat>): seq<nat>
    requires forall id :: id in order ==> id in scores
  {
    var sorted := SortBy(Entries(scores, order), BetterScore);
    seq(|sorted|, i requires 0 <= i < |sorted| => sorted[i].0)
  }

  // The ids of a score map by score, best first.
  method ByScore(scores: map<nat, real>, order: seq<nat>) returns (ids: seq<nat>)
    requires NoRepeats(order) && forall id :: id in order <==> id in scores
    ensures ids == IdsByScore(scores, order) && NoRepeats(ids) && (forall id :: id in ids <==> id in scores)
    ensures forall i, k :: 0 <= i < k < |ids| ==> scores[ids[k]] <= scores[ids[i]]
    ensures forall i, k :: 0 <= i < k < |ids| && scores[ids[i]] == scores[ids[k]] ==> Before(order, ids[i], ids[k])
  {
    assert TotalPreorder(BetterScore);
    var entries := Entries(scores, order);
    SortByIsSorted(entries, BetterScore);
    var sorted := SortBy(entries, BetterScore);
    ids := seq(|sorted|, i requires 0 <= i < |sorted| => sorted[i].0);
    SortedIds(scores, order, sorted, ids);
    forall i, k | 0 <= i < k < |ids| && scores[ids[i]] == scores[ids[k]] ensures Before(order, ids[i], ids[k]) {
      TiesKeepOrder(scores, order, ids, i, k);
    }
  }

  lemma TiesKeepOrder(scores: map<nat, real>, order: seq<nat>, ids: seq<nat>, i: nat, k: nat)
    requires TotalPreorder(BetterScore) && forall id :: id in order ==> id in scores
    requires Rearranged(scores, order, SortBy(Entries(scores, order), BetterScore), ids) && i < k < |ids|
    requires ids[i] in scores && ids[k] in scores && scores[ids[i]] == scores[ids[k]]
    ensures Before(order, ids[i], ids[k])
  {
    var entries := Entries(scores, order);
    var sorted := SortBy(entries, BetterScore);
    SortedEntry(scores, order, sorted, ids, i);
    SortedEntry(scores, order, sorted, ids, k);
    SortByIsStable(entries, BetterScore, i, k);
    var p, q :| 0 <= p < q < |entries| && entries[p] == sorted[i] && entries[q] == sorted[k];
    assert order[p] == ids[i] && order[q] == ids[k];
  }

  // sorted rearranges the entries of a score map, and ids are its first components.
  ghost predicate Rearranged(scores: map<nat, real>, order: seq<nat>, sorted: seq<(nat, real)>, ids: seq<nat>) {
    && NoRepeats(order) && (forall id :: id in order <==> id in scores)
    && multiset(sorted) == multiset(Entries(scores, order))
    && |ids| == |sorted| && forall i :: 0 <= i < |sorted| ==> ids[i] == sorted[i].0
  }

  lemma SortedEntry(scores: map<nat, real>, order: seq<nat>, sorted: seq<(nat, real)>, ids: seq<nat>, i: nat)
    requires Rearranged(scores, order, sorted, ids) && i < |ids|
    ensures ids[i] in scores && sorted[i] == (ids[i], scores[ids[i]])
  {
    var entries := Entries(scores, order);
    assert sorted[i] in multiset(entries);
    var k :| 0 <= k < |entries| && entries[k] == sorted[i];
  }

  lemma EveryIdSorted(scores: map<nat, real>, order: seq<nat>, sorted: seq<(nat, real)>, ids: seq<nat>, id: nat)
    requires Rearranged(scores, order, sorted, ids) && id in scores
    ensures id in ids
  {
    var entries := Entries(scores, order);
    var k :| 0 <= k < |order| && order[k] == id;
    assert entries[k] in multiset(sorted);
    var i :| 0 <= i < |sorted| && sorted[i] == entries[k];
    assert ids[i] == id;
  }

  lemma SortedDiffer(scores: map<nat, real>, order: seq<nat>, sorted: seq<(nat, real)>, ids: seq<nat>, i: nat, k: nat)
    requires Rearranged(scores, order, sorted, ids) && i < k < |ids|
    ensures ids[i] != ids[k]
  {
    SortedEntry(scores, order, sorted, ids, i);
    SortedEntry(scores, order, sorted, ids, k);
    EntriesOnce(scores, order, ids[i]);
    TwiceCounts(sorted, i, k);
  }

  lemma SortedIds(scores: map<nat, real>, order: seq<nat>, sorted: seq<(nat, real)>, ids: seq<nat>)
    requires Rearranged(scores, order, sorted, ids) && SortedBy(sorted, BetterScore)
    ensures NoRepeats(ids) && (forall id :: id in ids <==> id in scores)
    ensures forall i, k :: 0 <= i < k < |ids| ==> scores[ids[k]] <= scores[ids[i]]
  {
    hide Rearranged;
    forall i | 0 <= i < |ids| ensures ids[i] in scores && i < |sorted| && sorted[i] == (ids[i], scores[ids[i]]) {
      SortedEntry(scores, order, sorted, ids, i);
      SameLength(scores, order, sorted, ids);
    }
    forall id | id in scores ensures id in ids {
      EveryIdSorted(scores, order, sorted, ids, id);
    }
    forall i, k | 0 <= i < k < |ids| ensures ids[i] != ids[k] && scores[ids[k]] <= scores[ids[i]] {
      SortedDiffer(scores, order, sorted, ids, i, k);
      assert BetterScore(sorted[i], sorted[k]);
    }
  }

  lemma SameLength(scores: map<nat, real>, order: seq<nat>, sorted: seq<(nat, real)>, ids: seq<nat>)
    requires Rearranged(scores, order, sorted, ids)
    ensures |ids| == |sorted|
  {
  }

  lemma {:induction false} EntriesOnce(scores: map<nat, real>, order: seq<nat>, id: nat)
    requires NoRepeats(order) && (forall j :: j in order ==> j in scores) && id in scores
    ensures multiset(Entries(scores, order))[(id, scores[id])] <= 1
  {
    if order != [] {
      var init, last := order[..|order| - 1], order[|order| - 1];
      EntriesOnce(scores, init, id);
      assert Entries(scores, order) == Entries(scores, init) + [(last, scores[last])];
      forall k | 0 <= k < |Entries(scores, init)| ensures Entries(scores, init)[k] != (last, scores[last]) {
        assert order[k] != order[|order| - 1];
      }
    }
  }

  // Decisions before summaries before facts.
  predicate TypeAtLeast(a: MemoryType, b: MemoryType) {
    a == b || a.DecisionMemory? || b.FactMemory?
  }

  // What was decided before what was written down before what was said.
  predicate SourceAtLeast(a: SourceType, b: SourceType) {
    a == b || a.DecisionSource? || b.ConversationSource?
  }

  // The source found x, and better than y if it found y at all.
  predicate Prefers(scores: map<nat, real>, x: nat, y: nat) {
    x in scores && 0.0 < scores[x] && (y in scores ==> scores[y] < scores[x])
  }

  // The source gives y nothing, or x a higher score.
  predicate NoWorseScore(scores: map<nat, real>, x: nat, y: nat) {
    y in scores && 0.0 < scores[y] ==> x in scores && scores[y] < scores[x]
  }

  /** In no respect is x worse than y. */
  predicate NoWorse(sc: Scoring, x: Found, y: Found) {
    && (y.project ==> x.project) && TypeAtLeast(x.memoryType, y.memoryType) && SourceAtLeast(x.sourceType, y.sourceType)
    && (x.generic ==> y.generic) && y.updatedAt <= x.updatedAt
    && NoWorseScore(sc.vectorScores, x.id, y.id) && NoWorseScore(sc.lexicalScores, x.id, y.id)
  }

  /** In some respect x is better than y. */
  predicate SomewhereBetter(sc: Scoring, x: Found, y: Found) {
    || (x.project && !y.project) || !TypeAtLeast(y.memoryType, x.memoryType) || !SourceAtLeast(y.sourceType, x.sourceType)
    || (y.generic && !x.generic) || y.updatedAt < x.updatedAt
    || Prefers(sc.vectorScores, x.id, y.id) || Prefers(sc.lexicalScores, x.id, y.id)
  }

  lemma FieldsCount(x: Found, y: Found, newest: int)
    requires (y.project ==> x.project) && TypeAtLeast(x.memoryType, y.memoryType) && SourceAtLeast(x.sourceType, y.sourceType)
    requires (x.generic ==> y.generic) && y.updatedAt <= x.updatedAt
    ensures RecencyScore(y.updatedAt, newest) <= RecencyScore(x.updatedAt, newest)
    ensures ScopeScore(y) <= ScopeScore(x) && MetadataScore(y) <= MetadataScore(x)
    ensures x.project && !y.project ==> ScopeScore(y) < ScopeScore(x)
    ensures !TypeAtLeast(y.memoryType, x.memoryType) || !SourceAtLeast(y.sourceType, x.sourceType) || (y.generic && !x.generic)
            ==> MetadataScore(y) < MetadataScore(x)
  {
    if x.updatedAt < newest {
      DaysGrow(newest - x.updatedAt, newest - y.updatedAt);
    }
  }

  lemma DaysGrow(age: int, older: int)
    requires 0 <= age <= older
    ensures age / DAY_IN_MS <= older / DAY_IN_MS
  {
  }

  lemma ScoreCounts(scores: map<nat, real>, ranks: map<nat, nat>, x: nat, y: nat)
    requires RanksFit(scores, ranks) && x != y
    ensures var f := FusedSourceScore(Lookup(scores, x), Lookup(ranks, x));
            var g := FusedSourceScore(Lookup(scores, y), Lookup(ranks, y));
            && (NoWorseScore(scores, x, y) ==> Bonus(g) <= Bonus(f))
            && (Prefers(scores, x, y) ==> Bonus(g) < Bonus(f))
  {
    var f := FusedSourceScore(Lookup(scores, x), Lookup(ranks, x));
    FusedIsUnit(Lookup(scores, x), Lookup(ranks, x));
    if x in scores && y in scores && scores[y] < scores[x] {
      FusionKeepsOrder(scores[x], scores[y], ranks[x], ranks[y]);
    }
    if x in scores && 0.0 < scores[x] { AboveZero(scores[x], ranks[x]); }
    if y in scores && scores[y] <= 0.0 { WorthNothing(scores[y], ranks[y]); }
  }

  lemma AboveZero(raw: real, rank: nat)
    requires 0.0 < raw && 1 <= rank
    ensures 0.0 < FusedSourceScore(Some(raw), Some(rank)).value
  {
    BoostWithin(rank);
    Products(ClampUnit(raw), 0.0, ReciprocalRankBoost(rank), ReciprocalRankBoost(rank) / 2.0);
  }

  lemma WorthNothing(raw: real, rank: nat)
    requires raw <= 0.0
    ensures FusedSourceScore(Some(raw), Some(rank)) == Some(0.0)
  {
    hide ReciprocalRankBoost;
    assert ClampUnit(raw) == 0.0;
    NothingTimes(ReciprocalRankBoost(rank));
  }

  lemma NothingTimes(boost: real)
    ensures 0.0 * boost == 0.0
  {
  }

  lemma NoWorseTotals(sc: Scoring, x: Found, y: Found)
    requires NoWorse(sc, x, y) && x.id != y.id
    requires RanksFit(sc.vectorScores, sc.vectorRanks) && RanksFit(sc.lexicalScores, sc.lexicalRanks)
    ensures Rank(sc, y).total <= Rank(sc, x).total
    ensures SomewhereBetter(sc, x, y) ==> Rank(sc, y).total < Rank(sc, x).total || y.updatedAt < x.updatedAt
  {
    FieldsCount(x, y, sc.newest);
    ScoreCounts(sc.vectorScores, sc.vectorRanks, x.id, y.id);
    ScoreCounts(sc.lexicalScores, sc.lexicalRanks, x.id, y.id);
    hide RecencyScore, MetadataScore, ScopeScore, Bonus, FusedSourceScore, RanksFit, TypeAtLeast, SourceAtLeast;
  }

  /** A record that follows another one is worse in some respect, or equal in all of them with a lower id. */
  lemma BetterStandsFirst(ranked: seq<Ranked>, byId: map<nat, Found>, sc: Scoring, i: nat, k: nat)
    requires RankedAll(ranked, byId, sc) && i < k < |ranked|
    requires RanksFit(sc.vectorScores, sc.vectorRanks) && RanksFit(sc.lexicalScores, sc.lexicalRanks)
    ensures var x, y := ranked[k].record, ranked[i].record;
            NoWorse(sc, x, y) ==> !SomewhereBetter(sc, x, y) && x.id < y.id
  {
    var x, y := ranked[k].record, ranked[i].record;
    assert ranked[i] in ranked && ranked[k] in ranked;
    assert Outranks(ranked[i], ranked[k]) && x.id != y.id;
    hide Rank, RanksFit, SortedBy, SomewhereBetter;
    if NoWorse(sc, x, y) {
      NoWorseTotals(sc, x, y);
      assert y.updatedAt <= x.updatedAt;
    }
  }

  // What the ranking is computed from.
  datatype Scoring = Scoring(
    vectorScores: map<nat, real>, vectorRanks: map<nat, nat>, lexicalScores: map<nat, real>, lexicalRanks: map<nat, nat>,
    newest: int)

  function Lookup<V>(m: map<nat, V>, id: nat): Option<V> {
    if id in m then Some(m[id]) else None
  }

  function VectorScore(sc: Scoring, id: nat): Option<real> {
    FusedSourceScore(Lookup(sc.vectorScores, id), Lookup(sc.vectorRanks, id))
  }

  function LexicalScore(sc: Scoring, id: nat): Option<real> {
    FusedSourceScore(Lookup(sc.lexicalScores, id), Lookup(sc.lexicalRanks, id))
  }

  function Rank(sc: Scoring, x: Found): Ranked {
    Ranked(x, Total(x, sc.newest, VectorScore(sc, x.id), LexicalScore(sc, x.id)))
  }

  // Ranks count from 1, each once, and a better rank never goes to a lower score.
  ghost predicate RanksFit(scores: map<nat, real>, ranks: map<nat, nat>) {
    && ranks.Keys == scores.Keys && (forall id :: id in ranks ==> 1 <= ranks[id])
    && forall i, k :: i in ranks && k in ranks && i != k ==>
         ranks[i] != ranks[k] && (ranks[i] < ranks[k] ==> scores[k] <= scores[i])
  }

  // Equal scores rank in order of appearance.
  ghost predicate TiesFit(scores: map<nat, real>, order: seq<nat>, ranks: map<nat, nat>) {
    && (forall id :: id in order <==> id in scores) && ranks.Keys == scores.Keys
    && forall i, k :: 0 <= i < k < |order| && scores[order[i]] == scores[order[k]] ==> ranks[order[i]] < ranks[order[k]]
  }

  method RankScores(scores: map<nat, real>, order: seq<nat>) returns (ranks: map<nat, nat>)
    requires NoRepeats(order) && forall id :: id in order <==> id in scores
    ensures ranks == Positions(IdsByScore(scores, order))
    ensures RanksFit(scores, ranks) && TiesFit(scores, order, ranks)
  {
    var ids := ByScore(scores, order);
    ranks := RankMap(ids);
    RanksOf(scores, ids, ranks);
    TiesOf(scores, order, ids, ranks);
  }

  lemma TiesOf(scores: map<nat, real>, order: seq<nat>, ids: seq<nat>, ranks: map<nat, nat>)
    requires NoRepeats(order) && (forall id :: id in order <==> id in scores) && RanksFit(scores, ranks)
    requires NoRepeats(ids) && (forall id :: id in ids <==> id in scores)
    requires forall k :: 0 <= k < |ids| ==> ids[k] in ranks && ranks[ids[k]] == k + 1
    requires forall i, k :: 0 <= i < k < |ids| && scores[ids[i]] == scores[ids[k]] ==> Before(order, ids[i], ids[k])
    ensures TiesFit(scores, order, ranks)
  {
    forall i, k | 0 <= i < k < |order| && scores[order[i]] == scores[order[k]] ensures ranks[order[i]] < ranks[order[k]] {
      assert order[i] in ids && order[k] in ids;
      var p :| 0 <= p < |ids| && ids[p] == order[i];
      var q :| 0 <= q < |ids| && ids[q] == order[k];
      OneOrder(order, i, k);
    }
  }

  lemma OneOrder(order: seq<nat>, i: nat, k: nat)
    requires NoRepeats(order) && i < k < |order|
    ensures !Before(order, order[k], order[i])
  {
  }

  lemma RanksOf(scores: map<nat, real>, ids: seq<nat>, ranks: map<nat, nat>)
    requires NoRepeats(ids) && (forall id :: id in ids <==> id in scores)
    requires forall i, k :: 0 <= i < k < |ids| ==> scores[ids[k]] <= scores[ids[i]]
    requires ranks.Keys == (set id | id in ids) && forall k :: 0 <= k < |ids| ==> ranks[ids[k]] == k + 1
    ensures RanksFit(scores, ranks)
  {
    forall i, k | i in ranks && k in ranks && i != k
      ensures ranks[i] != ranks[k] && (ranks[i] < ranks[k] ==> scores[k] <= scores[i])
    {
      var p, q :| 0 <= p < |ids| && 0 <= q < |ids| && ids[p] == i && ids[q] == k;
    }
  }

  // The last record of each id.
  function LastById(records: seq<Found>): map<nat, Found> {
    if records == [] then map[]
    else
      var x := records[|records| - 1];
      LastById(records[..|records| - 1])[x.id := x]
  }

  /** Of several answers with one id the last one counts. */
  lemma {:induction false} LastAnswerCounts(records: seq<Found>, k: nat)
    requires k < |records| && forall m :: k < m < |records| ==> records[m].id != records[k].id
    ensures records[k].id in LastById(records) && LastById(records)[records[k].id] == records[k]
    decreases |records|
  {
    if k + 1 < |records| {
      var init := records[..|records| - 1];
      assert init[k] == records[k] && records[|init|].id != records[k].id;
      LastAnswerCounts(init, k);
    }
  }

  // The map of everything found, the lexical answers last.
  method RecordsById(records: seq<Found>) returns (byId: map<nat, Found>, order: seq<nat>)
    ensures NoRepeats(order) && forall id :: id in order <==> id in byId
    ensures forall id :: id in byId ==> byId[id] in records && byId[id].id == id
    ensures byId == LastById(records) && forall x :: x in records ==> x.id in byId
  {
    byId, order := map[], [];
    var i := 0;
    while i < |records|
      invariant 0 <= i <= |records| && NoRepeats(order) && forall id :: id in order <==> id in byId
      invariant forall id :: id in byId ==> byId[id] in records && byId[id].id == id
      invariant byId == LastById(records[..i]) && forall k :: 0 <= k < i ==> records[k].id in byId
    {
      assert records[..i + 1][..i] == records[..i];
      if records[i].id !in byId { order := order + [records[i].id]; }
      byId := byId[records[i].id := records[i]];
      i := i + 1;
    }
    assert records[..i] == records;
  }

  // newestUpdatedAtFor
  method NewestUpdatedAt(byId: map<nat, Found>, order: seq<nat>) returns (newest: int)
    requires order != [] && forall id :: id in order ==> id in byId
    ensures forall id :: id in order ==> byId[id].updatedAt <= newest
    ensures exists id :: id in order && byId[id].updatedAt == newest
  {
    newest := byId[order[0]].updatedAt;
    for i := 1 to |order|
      invariant forall k :: 0 <= k < i ==> byId[order[k]].updatedAt <= newest
      invariant exists k :: 0 <= k < i && byId[order[k]].updatedAt == newest
    {
      if newest < byId[order[i]].updatedAt { newest := byId[order[i]].updatedAt; }
    }
  }

  // Every record found, once, in ranking order.
  ghost predicate RankedAll(ranked: seq<Ranked>, byId: map<nat, Found>, sc: Scoring) {
    && SortedBy(ranked, Outranks) && DistinctIds(ranked)
    && (forall c :: c in ranked ==> c.record.id in byId && byId[c.record.id] == c.record && c == Rank(sc, c.record))
    && (forall id :: id in byId ==> exists c :: c in ranked && c.record.id == id)
  }

  function Candidates(byId: map<nat, Found>, order: seq<nat>, sc: Scoring): seq<Ranked>
    requires forall id :: id in order ==> id in byId
  {
    seq(|order|, i requires 0 <= i < |order| => Rank(sc, byId[order[i]]))
  }

  lemma CandidatesRank(byId: map<nat, Found>, order: seq<nat>, sc: Scoring)
    requires NoRepeats(order) && (forall id :: id in order <==> id in byId)
    requires forall id :: id in byId ==> byId[id].id == id
    ensures RankedAll(SortBy(Candidates(byId, order, sc), Outranks), byId, sc)
  {
    var cs := Candidates(byId, order, sc);
    CandidatesAre(byId, order, sc);
    hide Rank, Outranks, SortBy, Candidates, DistinctIds, SortedBy, TotalPreorder;
    OutranksIsOrder();
    SortByIsSorted(cs, Outranks);
    StillDistinct(cs, SortBy(cs, Outranks));
  }

  lemma CandidatesAre(byId: map<nat, Found>, order: seq<nat>, sc: Scoring)
    requires NoRepeats(order) && (forall id :: id in order <==> id in byId)
    requires forall id :: id in byId ==> byId[id].id == id
    ensures var cs := Candidates(byId, order, sc);
            && DistinctIds(cs)
            && (forall c :: c in cs ==> c.record.id in byId && byId[c.record.id] == c.record && c == Rank(sc, c.record))
            && (forall id :: id in byId ==> exists c :: c in cs && c.record.id == id)
  {
    hide Total, VectorScore, LexicalScore;
    var cs := Candidates(byId, order, sc);
    forall id | id in byId ensures exists c :: c in cs && c.record.id == id {
      var k :| 0 <= k < |order| && order[k] == id;
      assert cs[k] in cs;
    }
  }

  lemma StillDistinct(cs: seq<Ranked>, ds: seq<Ranked>)
    requires DistinctIds(cs) && multiset(ds) == multiset(cs)
    ensures DistinctIds(ds)
  {
    forall i, k | 0 <= i < k < |ds| ensures ds[i].record.id != ds[k].record.id {
      assert ds[i] in multiset(cs) && ds[k] in multiset(cs);
      RankedOnce(cs, ds[i]);
      var p, q :| 0 <= p < |cs| && 0 <= q < |cs| && cs[p] == ds[i] && cs[q] == ds[k];
      assert ds == ds[..k] + [ds[k]] + ds[k + 1..] && ds[i] in ds[..k];
    }
  }

  lemma {:induction false} RankedOnce(cs: seq<Ranked>, c: Ranked)
    requires DistinctIds(cs)
    ensures multiset(cs)[c] <= 1
  {
    if cs != [] {
      var init, last := cs[..|cs| - 1], cs[|cs| - 1];
      RankedOnce(init, c);
      assert cs == init + [last];
      forall x | x in init ensures x != last {
        var i :| 0 <= i < |init| && init[i] == x;
      }
    }
  }

  lemma RankedProjectsFirst(ranked: seq<Ranked>, byId: map<nat, Found>, sc: Scoring, i: nat, k: nat)
    requires RankedAll(ranked, byId, sc) && i < k < |ranked| && ranked[k].record.project
    requires RanksFit(sc.vectorScores, sc.vectorRanks) && RanksFit(sc.lexicalScores, sc.lexicalRanks)
    ensures ranked[i].record.project
  {
    hide Total, FusedSourceScore;
    var x, y := ranked[k].record, ranked[i].record;
    assert ranked[i] in ranked && ranked[k] in ranked;
    FusedIsUnit(Lookup(sc.vectorScores, x.id), Lookup(sc.vectorRanks, x.id));
    FusedIsUnit(Lookup(sc.lexicalScores, x.id), Lookup(sc.lexicalRanks, x.id));
    FusedIsUnit(Lookup(sc.vectorScores, y.id), Lookup(sc.vectorRanks, y.id));
    FusedIsUnit(Lookup(sc.lexicalScores, y.id), Lookup(sc.lexicalRanks, y.id));
    if !y.project {
      ProjectBeforeUser(x, y, sc.newest, VectorScore(sc, x.id), LexicalScore(sc, x.id), VectorScore(sc, y.id), LexicalScore(sc, y.id));
    }
    assert Outranks(ranked[i], ranked[k]);
  }

  predicate RanksAre(scores: map<nat, real>, order: seq<nat>, ranks: map<nat, nat>) {
    (forall id :: id in order ==> id in scores) && ranks == Positions(IdsByScore(scores, order))
  }

  // The latest update of the records found.
  ghost predicate IsNewest(byId: map<nat, Found>, newest: int) {
    && (forall id :: id in byId ==> byId[id].updatedAt <= newest)
    && (byId != map[] ==> exists id :: id in byId && byId[id].updatedAt == newest)
  }

  // The scores are those of the hits and of the query's matches, ranked by score and then by appearance.
  ghost predicate Scored(
    sc: Scoring, hits: seq<Hit>, lexicalRecords: seq<Found>, matchOf: Option<Found -> real>, byId: map<nat, Found>)
  {
    && BestScores(hits, sc.vectorScores) && IsNewest(byId, sc.newest)
    && RanksAre(sc.vectorScores, HitIds(hits), sc.vectorRanks)
    && RanksAre(sc.lexicalScores, if matchOf.Some? then LexicalIds(matchOf.value, lexicalRecords) else [], sc.lexicalRanks)
    && RanksFit(sc.vectorScores, sc.vectorRanks) && TiesFit(sc.vectorScores, HitIds(hits), sc.vectorRanks)
    && sc.lexicalScores == (if matchOf.Some? then LexicalScores(matchOf.value, lexicalRecords) else map[])
    && RanksFit(sc.lexicalScores, sc.lexicalRanks)
    && TiesFit(sc.lexicalScores, if matchOf.Some? then LexicalIds(matchOf.value, lexicalRecords) else [], sc.lexicalRanks)
  }

  method NewestOf(found: map<nat, Found>, order: seq<nat>) returns (newest: int)
    requires forall id :: id in order <==> id in found
    ensures IsNewest(found, newest)
  {
    newest := 0;
    if order != [] { newest := NewestUpdatedAt(found, order); } else { assert forall id :: id !in found; }
  }

  // The two sources' scores and ranks.
  method ScoreSources(
    hits: seq<Hit>, lexicalRecords: seq<Found>, matchOf: Option<Found -> real>, found: map<nat, Found>, order: seq<nat>)
    returns (sc: Scoring)
    requires forall id :: id in order <==> id in found
    ensures Scored(sc, hits, lexicalRecords, matchOf, found)
  {
    hide BestScores, RanksFit, TiesFit, HitIds, LexicalIds, LexicalScores, Positions, IdsByScore;
    var vectorScores, vectorOrder := MaxVectorScoresByRecordId(hits);
    var vectorRanks := RankScores(vectorScores, vectorOrder);
    var lexicalScores, lexicalOrder: seq<nat> := map[], [];
    if matchOf.Some? { lexicalScores, lexicalOrder := ScoreLexicalRecords(matchOf.value, lexicalRecords); }
    var lexicalRanks := RankScores(lexicalScores, lexicalOrder);
    var newest := NewestOf(found, order);
    hide IsNewest;
    sc := Scoring(vectorScores, vectorRanks, lexicalScores, lexicalRanks, newest);
  }

  /**
    retrieveMemory, on whatever the index and the repository answer: hydrate gives the canonical records for the ids of
    the hits, matchOf the lexical score of a record for the query, if there is one. The results are distinct records of
    the canonical answers, the best `limit` of the ranking of all of them, every project record before every user record;
    and of two records the one that is nowhere worse and somewhere better stands first.
  */
  method RetrieveMemory(
    projectHits: seq<Hit>, userHits: seq<Hit>, hydrate: seq<nat> -> seq<Found>, lexicalRecords: seq<Found>,
    matchOf: Option<Found -> real>, limit: nat)
    returns (results: seq<Found>, ghost ids: seq<nat>, ghost byId: map<nat, Found>, ghost ranked: seq<Ranked>, ghost sc: Scoring)
    ensures ids == HitIds(projectHits + userHits) && NoRepeats(ids)
    ensures forall id :: id in ids <==> HasId(projectHits + userHits, id)
    ensures byId == LastById((if ids == [] then [] else hydrate(ids)) + lexicalRecords)
    ensures Scored(sc, projectHits + userHits, lexicalRecords, matchOf, byId)
    ensures forall c :: c in ranked ==> UnitScore(VectorScore(sc, c.record.id)) && UnitScore(LexicalScore(sc, c.record.id))
    ensures forall x :: x in results ==> x in lexicalRecords || (ids != [] && x in hydrate(ids))
    ensures forall i, k :: 0 <= i < k < |results| ==>
      results[i].id != results[k].id && (results[k].project ==> results[i].project)
    ensures RankedAll(ranked, byId, sc)
    ensures forall i, k :: 0 <= i < k < |ranked| && NoWorse(sc, ranked[k].record, ranked[i].record) ==>
      !SomewhereBetter(sc, ranked[k].record, ranked[i].record) && ranked[k].record.id < ranked[i].record.id
    ensures |results| == (if |ranked| <= limit then |ranked| else limit)
    ensures forall i :: 0 <= i < |results| ==> results[i] == ranked[i].record
  {
    hide Rank, Outranks, DistinctIds, RanksFit, TiesFit, RanksAre, BestScores, HasId, HitIds, LastById, IsNewest, LexicalScores,
      LexicalIds, NoWorse, SomewhereBetter;
    var hits := projectHits + userHits;
    var unique := UniqueMemoryRecordIds(hits);
    var hydratedRecords := if |unique| == 0 then [] else hydrate(unique);
    var found, order := RecordsById(hydratedRecords + lexicalRecords);
    ids, byId := unique, found;
    var scoring := ScoreSources(hits, lexicalRecords, matchOf, found, order);
    var all := SortBy(Candidates(found, order, scoring), Outranks);
    sc, ranked := scoring, all;
    CandidatesRank(found, order, scoring);
    var shown := if |all| <= limit then |all| else limit;
    results := seq(shown, i requires 0 <= i < shown => all[i].record);
    assert forall i :: 0 <= i < |results| ==> results[i] == ranked[i].record;
    forall i, k | 0 <= i < k < |results|
      ensures results[i].id != results[k].id && (results[k].project ==> results[i].project)
    {
      RankedDiffer(all, found, scoring, i, k);
    }
    forall i, k | 0 <= i < k < |ranked| && NoWorse(sc, ranked[k].record, ranked[i].record)
      ensures !SomewhereBetter(sc, ranked[k].record, ranked[i].record) && ranked[k].record.id < ranked[i].record.id
    {
      BetterStandsFirst(all, found, scoring, i, k);
    }
    KnownRecords(all, found, scoring, hydratedRecords + lexicalRecords);
    forall c | c in ranked ensures UnitScore(VectorScore(sc, c.record.id)) && UnitScore(LexicalScore(sc, c.record.id)) {
      FusedScoresFit(scoring, c.record.id);
    }
    hide RankedAll;
    forall x | x in results ensures x in lexicalRecords || (ids != [] && x in hydrate(ids)) {
      assert x in hydratedRecords + lexicalRecords;
    }
  }

  lemma FusedScoresFit(sc: Scoring, id: nat)
    requires RanksFit(sc.vectorScores, sc.vectorRanks) && RanksFit(sc.lexicalScores, sc.lexicalRanks)
    ensures UnitScore(VectorScore(sc, id)) && UnitScore(LexicalScore(sc, id))
  {
    hide FusedSourceScore;
    FusedIsUnit(Lookup(sc.vectorScores, id), Lookup(sc.vectorRanks, id));
    FusedIsUnit(Lookup(sc.lexicalScores, id), Lookup(sc.lexicalRanks, id));
  }

  lemma KnownRecords(ranked: seq<Ranked>, byId: map<nat, Found>, sc: Scoring, records: seq<Found>)
    requires RankedAll(ranked, byId, sc) && forall id :: id in byId ==> byId[id] in records
    ensures forall i :: 0 <= i < |ranked| ==> ranked[i].record in records
  {
    hide Rank, Outranks, DistinctIds;
    forall i | 0 <= i < |ranked| ensures ranked[i].record in records {
      assert ranked[i] in ranked;
    }
  }

  lemma RankedDiffer(ranked: seq<Ranked>, byId: map<nat, Found>, sc: Scoring, i: nat, k: nat)
    requires RankedAll(ranked, byId, sc) && i < k < |ranked|
    requires RanksFit(sc.vectorScores, sc.vectorRanks) && RanksFit(sc.lexicalScores, sc.lexicalRanks)
    ensures ranked[i].record.id != ranked[k].record.id && (ranked[k].record.project ==> ranked[i].record.project)
  {
    if ranked[k].record.project { RankedProjectsFirst(ranked, byId, sc, i, k); }
  }

  // ----- one answer -----

  lemma OneBest(hits: seq<Hit>, scores: map<nat, real>, others: map<nat, real>)
    requires BestScores(hits, scores) && BestScores(hits, others)
    ensures scores == others
  {
    forall id | id in scores ensures id in others && scores[id] == others[id] {
      var h :| h in hits && h.record == Some(id) && h.score == scores[id];
      var g :| g in hits && g.record == Some(id) && g.score == others[id];
    }
    assert forall id :: id in others ==> id in scores;
  }

  lemma RankedAre(ranked: seq<Ranked>, byId: map<nat, Found>, sc: Scoring, c: Ranked)
    requires RankedAll(ranked, byId, sc)
    ensures c in ranked <==> c.record.id in byId && c == Rank(sc, byId[c.record.id])
  {
    hide Rank, SortedBy, DistinctIds;
    if c.record.id in byId && c == Rank(sc, byId[c.record.id]) {
      var e :| e in ranked && e.record.id == c.record.id;
    }
  }

  lemma OneRanking(ranked: seq<Ranked>, others: seq<Ranked>, byId: map<nat, Found>, sc: Scoring)
    requires RankedAll(ranked, byId, sc) && RankedAll(others, byId, sc)
    ensures ranked == others
  {
    forall c ensures multiset(ranked)[c] == multiset(others)[c] {
      RankedAre(ranked, byId, sc, c);
      RankedAre(others, byId, sc, c);
      RankedOnce(ranked, c);
      RankedOnce(others, c);
      assert c in ranked <==> c in multiset(ranked);
      assert c in others <==> c in multiset(others);
    }
    assert multiset(ranked) == multiset(others);
    hide Rank, Outranks;
    SameWhenSorted(ranked, others, ranked);
  }

  lemma NothingRanked(ranked: seq<Ranked>, byId: map<nat, Found>, sc: Scoring)
    requires RankedAll(ranked, byId, sc) && byId == map[]
    ensures ranked == []
  {
    assert forall c :: c in ranked <==> c in multiset(ranked);
    assert multiset(ranked) == multiset{};
    assert |multiset(ranked)| == |ranked|;
  }

  /** What RetrieveMemory promises leaves exactly one ranking for each input. */
  lemma OneAnswer(
    hits: seq<Hit>, lexicalRecords: seq<Found>, matchOf: Option<Found -> real>, byId: map<nat, Found>, sc: Scoring,
    sc': Scoring, ranked: seq<Ranked>, others: seq<Ranked>)
    requires Scored(sc, hits, lexicalRecords, matchOf, byId) && Scored(sc', hits, lexicalRecords, matchOf, byId)
    requires RankedAll(ranked, byId, sc) && RankedAll(others, byId, sc')
    ensures ranked == others
  {
    OneBest(hits, sc.vectorScores, sc'.vectorScores);
    if byId == map[] {
      NothingRanked(ranked, byId, sc);
      NothingRanked(others, byId, sc');
    } else {
      assert sc == sc';
      hide Scored;
      OneRanking(ranked, others, byId, sc);
    }
  }
}
