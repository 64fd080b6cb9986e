/**
  reindexCanonicalMemory: two passes of pages over the chunks in scope, one that clears the index and one that fills it,
  over a canonical store that does not change meanwhile.
*/
module Reindex {
  import opened Common
  import opened Store
  import opened Protocol
  import opened TableInvariant
  import opened Guarantees

  datatype ScopeRef = ScopeRef(scopeType: string, scopeId: string)

  // The chunk's record is of the organization and in one of the scopes.
  predicate InScope(d: Db, org: string, scopes: seq<ScopeRef>, c: nat) {
    && c in d.chunks && d.chunks[c].record in d.records
    && var rec := d.records[d.chunks[c].record];
       rec.org == org && ScopeRef(rec.body.scopeType, rec.body.scopeId) in scopes
  }

  // The ids in scope below a bound, in ascending order.
  function IdsBelow(d: Db, org: string, scopes: seq<ScopeRef>, bound: nat): seq<nat> {
    if bound == 0 then []
    else IdsBelow(d, org, scopes, bound - 1) + if InScope(d, org, scopes, bound - 1) then [bound - 1] else []
  }

  function AllIds(d: Db, org: string, scopes: seq<ScopeRef>): seq<nat> {
    IdsBelow(d, org, scopes, d.nextChunk)
  }

  /** A chunk is visited exactly if its record is there, of the organization, and in one of the scopes by type and id. */
  lemma VisitedIff(d: Db, org: string, scopes: seq<ScopeRef>, c: nat)
    requires Tables(d)
    ensures c in AllIds(d, org, scopes)
       <==> && c in d.chunks && d.chunks[c].record in d.records && d.records[d.chunks[c].record].org == org
            && exists s :: s in scopes && s.scopeType == d.records[d.chunks[c].record].body.scopeType
                           && s.scopeId == d.records[d.chunks[c].record].body.scopeId
  {
    IdsAreAscending(d, org, scopes, d.nextChunk);
  }

  predicate Ascending(ids: seq<nat>) {
    forall i, k :: 0 <= i < k < |ids| ==> ids[i] < ids[k]
  }

  lemma {:induction false} IdsAreAscending(d: Db, org: string, scopes: seq<ScopeRef>, bound: nat)
    ensures var ids := IdsBelow(d, org, scopes, bound);
            && Ascending(ids) && (forall c: nat :: c in ids <==> c < bound && InScope(d, org, scopes, c))
  {
    if bound > 0 {
      IdsAreAscending(d, org, scopes, bound - 1);
      var init := IdsBelow(d, org, scopes, bound - 1);
      forall i | 0 <= i < |init| ensures init[i] < bound - 1 {
        assert init[i] in init;
      }
    }
  }

  // Those after a cursor.
  function After(ids: seq<nat>, cursor: Option<nat>): seq<nat> {
    if ids == [] then []
    else
      var last := ids[|ids| - 1];
      After(ids[..|ids| - 1], cursor) + if cursor.None? || cursor.value < last then [last] else []
  }

  // listChunks: in scope, after the cursor, by id, up to the limit.
  function ListChunks(d: Db, org: string, scopes: seq<ScopeRef>, cursor: Option<nat>, limit: nat): seq<nat> {
    var ids := After(AllIds(d, org, scopes), cursor);
    if |ids| <= limit then ids else ids[..limit]
  }

  lemma {:induction false} AfterCursor(ids: seq<nat>, done: nat)
    requires Ascending(ids) && done <= |ids|
    ensures After(ids, if done == 0 then None else Some(ids[done - 1])) == ids[done..]
  {
    if ids != [] {
      var init := ids[..|ids| - 1];
      if done == |ids| {
        NoneAfter(ids, ids[|ids| - 1]);
      } else {
        AfterCursor(init, done);
        assert ids[done..] == init[done..] + [ids[|ids| - 1]];
      }
    }
  }

  lemma {:induction false} NoneAfter(ids: seq<nat>, cursor: nat)
    requires forall i :: 0 <= i < |ids| ==> ids[i] <= cursor
    ensures After(ids, Some(cursor)) == []
  {
    if ids != [] {
      NoneAfter(ids[..|ids| - 1], cursor);
    }
  }

  function PageEnd(done: nat, size: nat, n: nat): nat {
    if done + size < n then done + size else n
  }

  /** Each page is the next stretch of the ids in scope, so every one is visited once, in order. */
  lemma PageIsNext(d: Db, org: string, scopes: seq<ScopeRef>, done: nat, size: nat)
    requires done <= |AllIds(d, org, scopes)|
    ensures var ids := AllIds(d, org, scopes);
            ListChunks(d, org, scopes, if done == 0 then None else Some(ids[done - 1]), size)
            == ids[done..PageEnd(done, size, |ids|)]
  {
    IdsAreAscending(d, org, scopes, d.nextChunk);
    AfterCursor(AllIds(d, org, scopes), done);
  }

  datatype BatchError = BatchSizeNotPositive

  // normalizeReindexBatchSize
  function BatchSize(batchSize: Option<int>): (r: Result<nat, BatchError>)
    ensures r.Failure? <==> batchSize.Some? && batchSize.value < 1
    ensures r.Success? ==> 1 <= r.value <= 5000
    ensures r.Success? && batchSize.Some? ==> r.value <= batchSize.value && (r.value == batchSize.value || r.value == 5000)
    ensures batchSize.None? ==> r == Success(500)
  {
    if batchSize.None? then Success(500)
    else if batchSize.value < 1 then Failure(BatchSizeNotPositive)
    else Success(if batchSize.value < 5000 then batchSize.value else 5000)
  }

  // ----- the two passes -----

  function RecordsOf(d: Db, ids: seq<nat>): set<nat> {
    set c | c in ids && c in d.chunks :: d.chunks[c].record
  }

  // deleteByRecordIds
  function Cleared(index: map<PointId, Point>, records: set<nat>, org: string): map<PointId, Point> {
    map p | p in index && !(index[p].record in records && index[p].org == org) :: index[p]
  }

  function PointsOf(d: Db, org: string, ids: seq<nat>): map<PointId, Point> {
    map c | c in ids && c in d.chunks :: ChunkPoint(c) := Point(d.chunks[c].record, org, d.chunks[c].text)
  }

  function Links(ids: seq<nat>): map<nat, PointId> {
    map c | c in ids :: ChunkPoint(c)
  }

  // The store once the first ids have been cleared, and once the first ids have been indexed.
  function AfterClearing(d: Db, org: string, ids: seq<nat>): Db {
    d.(index := Cleared(d.index, RecordsOf(d, ids), org))
  }

  function AfterIndexing(d: Db, org: string, ids: seq<nat>): Db {
    LinkPoints(d, Links(ids)).(index := d.index + PointsOf(d, org, ids))
  }

  /** What a finished reindex leaves. */
  function Reindexed(d: Db, org: string, ids: seq<nat>): Db {
    AfterIndexing(AfterClearing(d, org, ids), org, ids)
  }

  lemma ClearMore(d: Db, org: string, ids: seq<nat>, more: seq<nat>)
    ensures AfterClearing(AfterClearing(d, org, ids), org, more) == AfterClearing(d, org, ids + more)
  {
    assert RecordsOf(d, ids + more) == RecordsOf(d, ids) + RecordsOf(d, more) by {
      assert forall c :: c in ids + more <==> c in ids || c in more;
    }
  }

  lemma LinkMore(d: Db, ids: seq<nat>, more: seq<nat>)
    ensures LinkPoints(LinkPoints(d, Links(ids)), Links(more)) == LinkPoints(d, Links(ids + more))
  {
    assert forall c :: c in ids + more <==> c in ids || c in more;
    assert LinkPoints(LinkPoints(d, Links(ids)), Links(more)).chunks == LinkPoints(d, Links(ids + more)).chunks;
  }

  lemma LinkIgnoresIndex(d: Db, index: map<PointId, Point>, links: map<nat, PointId>)
    ensures LinkPoints(d.(index := index), links) == LinkPoints(d, links).(index := index)
    ensures LinkPoints(d, links).index == d.index && LinkPoints(d, links).chunks.Keys == d.chunks.Keys
    ensures LinkPoints(d, links) == d.(chunks := LinkPoints(d, links).chunks)
    ensures forall c :: c in d.chunks ==>
      LinkPoints(d, links).chunks[c].record == d.chunks[c].record && LinkPoints(d, links).chunks[c].text == d.chunks[c].text
  {
  }

  lemma PointsMore(d: Db, d': Db, org: string, ids: seq<nat>, more: seq<nat>)
    requires d'.chunks.Keys == d.chunks.Keys
    requires forall c :: c in d.chunks ==> d'.chunks[c].record == d.chunks[c].record && d'.chunks[c].text == d.chunks[c].text
    ensures PointsOf(d, org, ids) + PointsOf(d', org, more) == PointsOf(d, org, ids + more)
  {
    assert forall c :: c in ids + more <==> c in ids || c in more;
    var both := PointsOf(d, org, ids) + PointsOf(d', org, more);
    forall p | p in both ensures p in PointsOf(d, org, ids + more) && both[p] == PointsOf(d, org, ids + more)[p] {
    }
    forall p | p in PointsOf(d, org, ids + more) ensures p in both {
      var c :| c in ids + more && c in d.chunks && p == ChunkPoint(c);
    }
  }

  lemma IndexMore(d: Db, org: string, ids: seq<nat>, more: seq<nat>)
    ensures AfterIndexing(AfterIndexing(d, org, ids), org, more) == AfterIndexing(d, org, ids + more)
  {
    var d1 := AfterIndexing(d, org, ids);
    LinkMore(d, ids, more);
    LinkIgnoresIndex(d, d1.index, Links(ids));
    LinkIgnoresIndex(LinkPoints(d, Links(ids)), d1.index, Links(more));
    hide PointsOf, Links, LinkPoints;
    PointsMore(d, d1, org, ids, more);
    assert (d.index + PointsOf(d, org, ids)) + PointsOf(d1, org, more) == d.index + PointsOf(d, org, ids + more);
  }

  // Neither pass moves a chunk in or out of scope.
  lemma ScopeStays(d: Db, d': Db, org: string, scopes: seq<ScopeRef>, bound: nat)
    requires d'.records == d.records && d'.chunks.Keys == d.chunks.Keys
    requires forall c :: c in d.chunks ==> d'.chunks[c].record == d.chunks[c].record
    ensures IdsBelow(d', org, scopes, bound) == IdsBelow(d, org, scopes, bound)
  {
  }

  class TwoStores {
    var db: Db
    // How many calls have failed so far.
    ghost var faults: nat

    constructor (d: Db)
      ensures db == d
    {
      db, faults := d, 0;
    }

    // Any call may fail; a call that reports an error may have taken effect.
    method Fault() returns (effect: bool, ok: bool)
      modifies `faults
      ensures (ok ==> effect) && faults == old(faults) + if ok then 0 else 1
    {
      effect, ok := *, *;
      if !effect { ok := false; }
      if !ok { faults := faults + 1; }
    }

    twostate predicate AllAnswered(ok: bool)
      reads `faults
    {
      old(faults) <= faults && (ok <==> faults == old(faults))
    }

    // The first pass: clear the records of every page.
    method ClearAll(org: string, scopes: seq<ScopeRef>, size: nat) returns (ok: bool, foundChunks: bool)
      requires 1 <= size
      modifies this
      ensures AllAnswered(ok)
      ensures ok ==> foundChunks == (AllIds(old(db), org, scopes) != [])
      ensures ok ==> db == AfterClearing(old(db), org, AllIds(old(db), org, scopes))
      ensures exists n :: 0 <= n <= |AllIds(old(db), org, scopes)| && db == AfterClearing(old(db), org, AllIds(old(db), org, scopes)[..n])
    {
      hide AllIds, AfterClearing, ListChunks;
      ghost var d, ids, done := db, AllIds(db, org, scopes), 0;
      NothingCleared(d, org, ids);
      ok, foundChunks := true, false;
      var afterChunkId: Option<nat> := None;
      var more := true;
      while more
        invariant ok && faults == old(faults) && 0 <= done <= |ids| && (foundChunks <==> done > 0) && (!more ==> done == |ids|)
        invariant afterChunkId == if done == 0 then None else Some(ids[done - 1])
        invariant db == AfterClearing(d, org, ids[..done])
        decreases |ids| - done, more
      {
        var fault, answered := Fault();
        if !answered { ok := false; return; }
        ClearingKeepsIds(d, org, ids[..done], scopes);
        PageIsNext(db, org, scopes, done, size);
        var chunks := ListChunks(db, org, scopes, afterChunkId, size);
        if |chunks| == 0 {
          more := false;
        } else {
          foundChunks := true;
          ghost var page := PageEnd(done, size, |ids|);
          assert ids[..done] + chunks == ids[..page];
          ClearMore(d, org, ids[..done], chunks);
          var effect;
          effect, ok := DeleteByRecordIds(chunks, org);
          if effect { done := page; }
          if !ok { return; }
          afterChunkId := Some(chunks[|chunks| - 1]);
          if |chunks| < size { more := false; }
        }
      }
      assert ids[..done] == ids;
    }

    // The second pass: embed, upsert and link every page.
    method IndexAll(org: string, scopes: seq<ScopeRef>, size: nat) returns (ok: bool, chunkCount: nat)
      requires 1 <= size
      modifies this
      ensures AllAnswered(ok)
      ensures ok ==> chunkCount == |AllIds(old(db), org, scopes)|
      ensures ok ==> db == AfterIndexing(old(db), org, AllIds(old(db), org, scopes))
      ensures OnlyIndexes(old(db), db, org, AllIds(old(db), org, scopes))
    {
      hide AllIds, AfterIndexing, ListChunks, OnlyIndexes;
      ghost var d, ids := db, AllIds(db, org, scopes);
      NothingCleared(d, org, ids);
      OnlyIndexesSome(d, org, ids, 0);
      ok, chunkCount := true, 0;
      var afterChunkId: Option<nat> := None;
      var more := true;
      while more
        invariant ok && faults == old(faults) && 0 <= chunkCount <= |ids| && (!more ==> chunkCount == |ids|)
        invariant afterChunkId == if chunkCount == 0 then None else Some(ids[chunkCount - 1])
        invariant db == AfterIndexing(d, org, ids[..chunkCount]) && OnlyIndexes(d, db, org, ids)
        decreases |ids| - chunkCount, more
      {
        var fault, answered := Fault();
        if !answered { ok := false; return; }
        IndexingKeepsIds(d, org, ids[..chunkCount], scopes);
        PageIsNext(db, org, scopes, chunkCount, size);
        var chunks := ListChunks(db, org, scopes, afterChunkId, size);
        if |chunks| == 0 {
          more := false;
        } else {
          ghost var page := PageEnd(chunkCount, size, |ids|);
          assert ids[..chunkCount] + chunks == ids[..page];
          IndexMore(d, org, ids[..chunkCount], chunks);
          ghost var before := db;
          ok := IndexPage(chunks, org);
          OnlyIndexesMore(d, before, db, org, ids, chunks);
          if !ok { return; }
          chunkCount := chunkCount + |chunks|;
          afterChunkId := Some(chunks[|chunks| - 1]);
          if |chunks| < size { more := false; }
        }
      }
      assert ids[..chunkCount] == ids;
    }

    method IndexPage(chunks: seq<nat>, org: string) returns (ok: bool)
      modifies this
      ensures AllAnswered(ok)
      ensures ok ==> db == AfterIndexing(old(db), org, chunks)
      ensures OnlyIndexes(old(db), db, org, chunks)
    {
      hide OnlyIndexes;
      ghost var d := db;
      PagePhases(d, org, chunks);
      var effect;
      effect, ok := Fault();
      if !ok { return; }
      effect, ok := Fault();
      if effect { db := db.(index := db.index + PointsOf(db, org, chunks)); }
      if !ok { return; }
      effect, ok := Fault();
      if effect { db := LinkPoints(db, Links(chunks)); }
    }

    /**
      reindexCanonicalMemory: a reindex that answers leaves the closed form and counts the chunks in scope, whatever the
      batch size; one that fails has touched nothing but the index entries and point ids of records in scope.
    */
    method ReindexCanonicalMemory(org: string, scopes: seq<ScopeRef>, batchSize: Option<int>)
      returns (r: Result<nat, BatchError>, ok: bool)
      modifies this
      ensures BatchSize(batchSize).Failure? <==> r.Failure?
      ensures r.Failure? ==> db == old(db)
      ensures r.Success? ==> AllAnswered(ok)
      ensures r.Success? && ok ==>
        && r.value == |AllIds(old(db), org, scopes)|
        && db == Reindexed(old(db), org, AllIds(old(db), org, scopes))
      ensures OthersUntouched(old(db), db, org, RecordsOf(old(db), AllIds(old(db), org, scopes)))
    {
      hide AllIds, AfterClearing, AfterIndexing, OnlyIndexes, OthersUntouched, RecordsOf;
      var size := BatchSize(batchSize);
      ghost var d, ids := db, AllIds(db, org, scopes);
      ClearedUntouched(d, org, ids, 0);
      NothingCleared(d, org, ids);
      ok := false;
      if size.Failure? { return Failure(size.error), false; }
      var found;
      ok, found := ClearAll(org, scopes, size.value);
      ghost var n :| 0 <= n <= |ids| && db == AfterClearing(d, org, ids[..n]);
      ClearedUntouched(d, org, ids, n);
      if !ok { return Success(0), false; }
      if !found {
        NothingFound(d, org, ids);
        assert ids[..0] == ids;
        return Success(0), true;
      }
      ghost var d1 := db;
      ClearingKeepsIds(d, org, ids, scopes);
      ClearedUntouched(d, org, ids, |ids|);
      assert ids[..|ids|] == ids;
      var count;
      ok, count := IndexAll(org, scopes, size.value);
      IdsAreChunks(d, org, scopes);
      IndexedUntouched(d, d1, db, org, ids);
      r := Success(count);
    }

    method DeleteByRecordIds(chunks: seq<nat>, org: string) returns (effect: bool, ok: bool)
      modifies this
      ensures (ok ==> effect) && AllAnswered(ok)
      ensures db == if effect then AfterClearing(old(db), org, chunks) else old(db)
    {
      effect, ok := Fault();
      var records := RecordsOf(db, chunks);
      if effect { db := db.(index := map p | p in db.index && !(db.index[p].record in records && db.index[p].org == org) :: db.index[p]); }
    }
  }

  lemma NothingCleared(d: Db, org: string, ids: seq<nat>)
    ensures AfterClearing(d, org, ids[..0]) == d
    ensures AfterIndexing(d, org, ids[..0]) == d
  {
    NothingListed(d, org, ids[..0]);
  }

  lemma NothingListed(d: Db, org: string, ids: seq<nat>)
    requires |ids| == 0
    ensures AfterClearing(d, org, ids) == d
    ensures AfterIndexing(d, org, ids) == d
  {
    hide PointsOf, Links;
    NoPoints(d, org, ids);
    assert d.index + map[] == d.index;
    assert LinkPoints(d, map[]).chunks == d.chunks;
  }

  lemma NoPoints(d: Db, org: string, ids: seq<nat>)
    requires |ids| == 0
    ensures PointsOf(d, org, ids) == map[] && Links(ids) == map[]
  {
  }

  lemma ClearingKeepsIds(d: Db, org: string, ids: seq<nat>, scopes: seq<ScopeRef>)
    ensures AllIds(AfterClearing(d, org, ids), org, scopes) == AllIds(d, org, scopes)
  {
    ScopeStays(d, AfterClearing(d, org, ids), org, scopes, d.nextChunk);
  }

  lemma IndexingKeepsIds(d: Db, org: string, ids: seq<nat>, scopes: seq<ScopeRef>)
    ensures AllIds(AfterIndexing(d, org, ids), org, scopes) == AllIds(d, org, scopes)
  {
    LinkIgnoresIndex(d, d.index, Links(ids));
    hide LinkPoints, Links, PointsOf, IdsBelow;
    ScopeStays(d, AfterIndexing(d, org, ids), org, scopes, d.nextChunk);
  }

  // Nothing but the index and the point ids changed, and of those only entries of the given chunks.
  ghost predicate OnlyIndexes(d: Db, d': Db, org: string, ids: seq<nat>) {
    && d' == d.(chunks := d'.chunks, index := d'.index) && d'.chunks.Keys == d.chunks.Keys
    && (forall c :: c in d.chunks ==>
          d'.chunks[c] == d.chunks[c] || (c in ids && d'.chunks[c] == d.chunks[c].(point := Some(ChunkPoint(c)))))
    && (forall p :: p in d.index && p !in PointsOf(d, org, ids) ==> p in d'.index && d'.index[p] == d.index[p])
    && (forall p :: p in d'.index ==> (p in d.index && d'.index[p] == d.index[p])
                                      || (p in PointsOf(d, org, ids) && d'.index[p] == PointsOf(d, org, ids)[p]))
  }

  lemma OnlyIndexesSome(d: Db, org: string, ids: seq<nat>, n: nat)
    requires n <= |ids|
    ensures OnlyIndexes(d, AfterIndexing(d, org, ids[..n]), org, ids)
  {
    assert forall c :: c in ids[..n] ==> c in ids;
  }

  lemma PagePhases(d: Db, org: string, ids: seq<nat>)
    ensures OnlyIndexes(d, d, org, ids)
    ensures var d1 := d.(index := d.index + PointsOf(d, org, ids));
            && OnlyIndexes(d, d1, org, ids) && OnlyIndexes(d, LinkPoints(d1, Links(ids)), org, ids)
            && LinkPoints(d1, Links(ids)) == AfterIndexing(d, org, ids)
  {
  }

  lemma OnlyIndexesMore(d: Db, d1: Db, d2: Db, org: string, ids: seq<nat>, more: seq<nat>)
    requires OnlyIndexes(d, d1, org, ids) && OnlyIndexes(d1, d2, org, more) && forall c :: c in more ==> c in ids
    ensures OnlyIndexes(d, d2, org, ids)
  {
    assert forall p :: p in PointsOf(d1, org, more) ==> p in PointsOf(d, org, ids) && PointsOf(d, org, ids)[p] == PointsOf(d1, org, more)[p];
  }

  // Records outside the set keep their chunks, and nobody's texts, jobs or archive rows change.
  ghost predicate ChunksUntouched(d: Db, d': Db, records: set<nat>) {
    && d' == d.(chunks := d'.chunks, index := d'.index) && d'.chunks.Keys == d.chunks.Keys
    && (forall c :: c in d.chunks ==> d'.chunks[c].record == d.chunks[c].record && d'.chunks[c].text == d.chunks[c].text)
    && (forall c :: c in d.chunks && d.chunks[c].record !in records ==> d'.chunks[c] == d.chunks[c])
  }

  // Records outside the set keep their points.
  ghost predicate PointsUntouched(index: map<PointId, Point>, index': map<PointId, Point>, records: set<nat>) {
    && (forall p :: p in index && index[p].record !in records ==> p in index' && index'[p] == index[p])
    && (forall p :: p in index' && index'[p].record !in records ==> p in index && index'[p] == index[p])
  }

  ghost predicate OthersUntouched(d: Db, d': Db, org: string, records: set<nat>) {
    ChunksUntouched(d, d', records) && (Tables(d) && Ties(d) ==> PointsUntouched(d.index, d'.index, records))
  }

  lemma ClearedUntouched(d: Db, org: string, ids: seq<nat>, n: nat)
    requires n <= |ids|
    ensures OthersUntouched(d, AfterClearing(d, org, ids[..n]), org, RecordsOf(d, ids))
  {
    assert forall c :: c in ids[..n] ==> c in ids;
  }

  lemma NothingFound(d: Db, org: string, ids: seq<nat>)
    requires ids == []
    ensures Reindexed(d, org, ids) == AfterClearing(d, org, ids)
  {
    assert AfterIndexing(AfterClearing(d, org, ids), org, ids) == AfterClearing(d, org, ids) by {
      NothingCleared(AfterClearing(d, org, ids), org, ids);
      assert ids[..0] == ids;
    }
  }

  lemma IndexedUntouched(d: Db, d1: Db, d2: Db, org: string, ids: seq<nat>)
    requires OthersUntouched(d, d1, org, RecordsOf(d, ids)) && OnlyIndexes(d1, d2, org, ids)
    requires forall c :: c in ids ==> c in d.chunks
    ensures OthersUntouched(d, d2, org, RecordsOf(d, ids))
  {
    IndexedChunks(d, d1, d2, org, ids);
    NewPointsAreTheirs(d, d1, org, ids);
    hide Tables, Ties, RecordsOf, PointsOf, ChunksUntouched, PointsUntouched;
    if Tables(d) && Ties(d) {
      StillUntouched(d.index, d1.index, d2.index, PointsOf(d1, org, ids), RecordsOf(d, ids));
    }
  }

  lemma IndexedChunks(d: Db, d1: Db, d2: Db, org: string, ids: seq<nat>)
    requires ChunksUntouched(d, d1, RecordsOf(d, ids)) && OnlyIndexes(d1, d2, org, ids)
    ensures ChunksUntouched(d, d2, RecordsOf(d, ids))
  {
    forall c | c in d.chunks && c in ids ensures d.chunks[c].record in RecordsOf(d, ids) {
    }
    hide PointsOf, RecordsOf;
  }

  lemma StillUntouched(
    index: map<PointId, Point>, index1: map<PointId, Point>, index2: map<PointId, Point>, points: map<PointId, Point>,
    records: set<nat>)
    requires PointsUntouched(index, index1, records)
    requires forall p :: p in index1 && p !in points ==> p in index2 && index2[p] == index1[p]
    requires forall p :: p in index2 ==>
      (p in index1 && index2[p] == index1[p]) || (p in points && index2[p] == points[p])
    requires forall p :: p in points ==> points[p].record in records && (p in index ==> index[p].record in records)
    ensures PointsUntouched(index, index2, records)
  {
  }

  lemma NewPointsAreTheirs(d: Db, d1: Db, org: string, ids: seq<nat>)
    requires OthersUntouched(d, d1, org, RecordsOf(d, ids)) && forall c :: c in ids ==> c in d.chunks
    ensures forall p :: p in PointsOf(d1, org, ids) ==> PointsOf(d1, org, ids)[p].record in RecordsOf(d, ids)
    ensures Tables(d) && Ties(d) ==>
      forall p :: p in PointsOf(d1, org, ids) && p in d.index ==> d.index[p].record in RecordsOf(d, ids)
  {
    forall c | c in ids ensures d.chunks[c].record in RecordsOf(d, ids) {
    }
  }

  lemma IdsAreChunks(d: Db, org: string, scopes: seq<ScopeRef>)
    ensures forall c :: c in AllIds(d, org, scopes) ==> c in d.chunks
  {
    IdsAreAscending(d, org, scopes, d.nextChunk);
  }

  lemma ScopedIds(d: Db, org: string, scopes: seq<ScopeRef>, c: nat, b: nat)
    requires Tables(d) && b in AllIds(d, org, scopes) && c in d.chunks && b in d.chunks
    requires d.chunks[c].record == d.chunks[b].record
    ensures c in AllIds(d, org, scopes) && d.records[d.chunks[c].record].org == org
  {
    IdsAreAscending(d, org, scopes, d.nextChunk);
  }

  /**
    After a reindex every record with a chunk in scope is in step: the index holds exactly one point for each of its
    chunks, recorded and with the chunk's text, and nothing else of it.
  */
  lemma ReindexedIsInStep(d: Db, org: string, scopes: seq<ScopeRef>, b: nat)
    requires Tables(d) && Ties(d) && b in AllIds(d, org, scopes)
    ensures b in d.chunks && d.chunks[b].record in d.records
    ensures var d' := Reindexed(d, org, AllIds(d, org, scopes));
            d.chunks[b].record in d'.records && InStep(d', d.chunks[b].record)
  {
    IdsAreAscending(d, org, scopes, d.nextChunk);
    var r, ids := d.chunks[b].record, AllIds(d, org, scopes);
    var d1 := AfterClearing(d, org, ids);
    var d' := Reindexed(d, org, ids);
    assert r in RecordsOf(d, ids);
    NoOldPoints(d, org, ids, r);
    forall c: nat | c in d.chunks && d.chunks[c].record == r ensures c in ids {
      ScopedIds(d, org, scopes, c, b);
    }
    hide AllIds, AfterClearing, Tables, Ties;
    IndexedPoints(d1, org, ids, r);
  }

  lemma NoOldPoints(d: Db, org: string, ids: seq<nat>, r: nat)
    requires Ties(d) && r in RecordsOf(d, ids) && r in d.records && d.records[r].org == org
    ensures forall p :: p in AfterClearing(d, org, ids).index ==> AfterClearing(d, org, ids).index[p].record != r
  {
  }

  lemma IndexedPoints(d: Db, org: string, ids: seq<nat>, r: nat)
    requires r in d.records && d.records[r].org == org
    requires forall p :: p in d.index ==> d.index[p].record != r
    requires forall c :: c in d.chunks && d.chunks[c].record == r ==> c in ids
    ensures InStep(AfterIndexing(d, org, ids), r)
  {
    var d' := AfterIndexing(d, org, ids);
    var points := PointsOf(d, org, ids);
    forall c | c in d'.chunks && d'.chunks[c].record == r
      ensures d'.chunks[c].point == Some(ChunkPoint(c)) && ChunkPoint(c) in points
      ensures points[ChunkPoint(c)] == Point(r, org, d'.chunks[c].text)
    {
      assert c in ids;
    }
    forall p | p in d'.index && d'.index[p].record == r
      ensures p.chunk in d'.chunks && d'.chunks[p.chunk].record == r && d'.chunks[p.chunk].point == Some(p)
    {
      assert p in points;
    }
  }

  /**
    A reindex cut short between its passes has taken the points of every record in scope, and schedules nothing: such a
    record is repaired later if and only if a job of it happened to be scheduled before.
  */
  lemma CutReindexLosesPoints(d: Db, org: string, scopes: seq<ScopeRef>, b: nat)
    requires Tables(d) && Ties(d) && b in AllIds(d, org, scopes)
    ensures b in d.chunks && d.chunks[b].record in d.records
    ensures var d', r := AfterClearing(d, org, AllIds(d, org, scopes)), d.chunks[b].record;
            !InStep(d', r) && (Scheduled(d', r) <==> Scheduled(d, r))
  {
    IdsAreAscending(d, org, scopes, d.nextChunk);
    var r, ids := d.chunks[b].record, AllIds(d, org, scopes);
    assert r in RecordsOf(d, ids);
    NoOldPoints(d, org, ids, r);
    var d' := AfterClearing(d, org, ids);
    assert d'.chunks[b].record == r;
  }
}
