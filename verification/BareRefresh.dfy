/**
  refreshCanonicalMemoryIndex where no ingest jobs are configured: the same calls without a job to fall back on, over
  stores that nobody else changes meanwhile.
*/
module BareRefresh {
  import opened Common
  import opened Store
  import opened Protocol
  import opened TableInvariant
  import opened Guarantees
  import opened Reindex

  // The transaction of replaceChunksForRecord.
  function ReplaceOnly(d: Db, r: nat, texts: seq<string>): Db {
    d.(chunks := (map c | c in d.chunks && d.chunks[c].record != r :: d.chunks[c]) + NewChunks(d.nextChunk, r, texts),
    nextChunk := d.nextChunk + |texts|)
  }

  function Loaded(d: Db, texts: seq<string>): map<nat, string> {
    NewTexts(d.nextChunk, texts)
  }

  function NewPoints(d: Db, r: nat, texts: seq<string>): map<PointId, Point>
    requires r in d.records
  {
    PointsFor(Refresh, r, d.records[r].org, Loaded(d, texts))
  }

  function Emptied(d: Db, r: nat, texts: seq<string>): Db
    requires r in d.records
  {
    DeleteByRecord(ReplaceOnly(d, r, texts), r, d.records[r].org)
  }

  function Filled(d: Db, r: nat, texts: seq<string>): Db
    requires r in d.records
  {
    UpsertPoints(Emptied(d, r, texts), NewPoints(d, r, texts))
  }

  // The stores after the first n effects: replace, delete, upsert, record.
  function Stage(d: Db, r: nat, texts: seq<string>, n: nat): Db
    requires r in d.records && n <= 4
  {
    match n
    case 0 => d
    case 1 => ReplaceOnly(d, r, texts)
    case 2 => Emptied(d, r, texts)
    case 3 => Filled(d, r, texts)
    case _ => LinkPoints(Filled(d, r, texts), LinksFor(Refresh, r, Loaded(d, texts)))
  }

  lemma StageFrame(d: Db, r: nat, texts: seq<string>, n: nat)
    requires r in d.records && n <= 4
    ensures var d' := Stage(d, r, texts, n); d'.records == d.records && d'.jobs == d.jobs
    ensures Scheduled(Stage(d, r, texts, n), r) <==> Scheduled(d, r)
  {
    hide NewChunks, NewPoints, Loaded;
  }

  lemma ReplacedChunks(d: Db, r: nat, texts: seq<string>, c: nat)
    requires Tables(d)
    ensures var d', loaded := ReplaceOnly(d, r, texts), Loaded(d, texts);
            && (c in d'.chunks && d'.chunks[c].record == r <==> c in loaded)
            && (c in loaded ==> d'.chunks[c].text == loaded[c] && d'.chunks[c].point.None?)
  {
  }

  lemma ReplacedInOrder(d: Db, r: nat, texts: seq<string>)
    requires Tables(d)
    ensures StoresFrom(ReplaceOnly(d, r, texts), r, texts, d.nextChunk)
  {
  }

  // Deleting, upserting and recording points leaves the texts as they are.
  lemma StageStores(d: Db, r: nat, texts: seq<string>, n: nat)
    requires Tables(d) && r in d.records && 1 <= n <= 4
    ensures StoresTexts(Stage(d, r, texts, n), r, texts)
  {
    hide NewPoints, Tables, ReplaceOnly, Loaded;
    ReplacedInOrder(d, r, texts);
    assert StoresFrom(Stage(d, r, texts, n), r, texts, d.nextChunk);
  }

  // The record's chunks from the first effect on: the new ones, with their points recorded by the last.
  lemma StageChunks(d: Db, r: nat, texts: seq<string>, n: nat, c: nat)
    requires Tables(d) && r in d.records && 1 <= n <= 4
    ensures var d', loaded := Stage(d, r, texts, n), Loaded(d, texts);
            && (c in d'.chunks && d'.chunks[c].record == r <==> c in loaded)
            && (c in loaded ==>
                  d'.chunks[c].text == loaded[c] && d'.chunks[c].point == if n == 4 then Some(ChunkPoint(c)) else None)
  {
    hide NewPoints, Tables, ReplaceOnly, Loaded;
    ReplacedChunks(d, r, texts, c);
  }

  lemma StageTexts(d: Db, r: nat, texts: seq<string>, n: nat)
    requires Tables(d) && r in d.records && 1 <= n <= 4
    ensures TextsOf(Stage(d, r, texts, n), r) == Loaded(d, texts)
  {
    hide Stage, Loaded, Tables;
    forall c: nat { StageChunks(d, r, texts, n, c); }
  }

  ghost predicate HasPoint(d: Db, r: nat) {
    exists p :: p in d.index && d.index[p].record == r
  }

  lemma StagePoints(d: Db, r: nat, texts: seq<string>, n: nat, p: PointId)
    requires Tables(d) && Ties(d) && r in d.records && n <= 4
    ensures var d', points := Stage(d, r, texts, n), NewPoints(d, r, texts);
            && (n <= 1 ==> d'.index == d.index)
            && (n == 2 && p in d'.index ==> d'.index[p].record != r)
            && (n >= 3 && p in d'.index && d'.index[p].record == r ==> p in points)
            && (n >= 3 && p in points ==> p in d'.index && d'.index[p] == points[p])
  {
    hide NewChunks, NewPoints, Loaded;
  }

  lemma NewPointsAre(d: Db, r: nat, texts: seq<string>)
    requires r in d.records
    ensures forall p :: p in NewPoints(d, r, texts) ==> p == ChunkPoint(p.chunk) && p.chunk in Loaded(d, texts)
    ensures forall c :: c in Loaded(d, texts) ==>
      ChunkPoint(c) in NewPoints(d, r, texts)
      && NewPoints(d, r, texts)[ChunkPoint(c)] == Point(r, d.records[r].org, Loaded(d, texts)[c])
  {
    hide Loaded;
  }

  lemma FirstNew(d: Db, texts: seq<string>)
    ensures texts != [] ==> d.nextChunk in Loaded(d, texts)
    ensures texts == [] ==> Loaded(d, texts) == map[]
  {
    assert texts != [] ==> d.nextChunk in NewIds(d.nextChunk, |texts|);
    assert texts == [] ==> forall c :: c !in NewIds(d.nextChunk, |texts|);
  }

  lemma FilledInStep(d: Db, r: nat, texts: seq<string>)
    requires Tables(d) && Ties(d) && r in d.records
    ensures r in Stage(d, r, texts, 4).records && InStep(Stage(d, r, texts, 4), r)
  {
    hide Stage, Loaded, NewPoints, Tables, Ties;
    StageFrame(d, r, texts, 4);
    NewPointsAre(d, r, texts);
    forall c: nat { StageChunks(d, r, texts, 4, c); }
    forall p { StagePoints(d, r, texts, 4, p); }
  }

  // Without chunks, being in step means having no points.
  lemma ChunklessInStepIff(d: Db, r: nat)
    requires r in d.records && TextsOf(d, r) == map[]
    ensures InStep(d, r) <==> !HasPoint(d, r)
  {
    forall c | c in d.chunks ensures d.chunks[c].record != r {
      assert c !in TextsOf(d, r);
    }
  }

  /**
    Cut off after its first n effects, such a refresh leaves the record in step exactly if it was complete, or the new
    content has no chunks and no point is left. Whether anything is scheduled does not change: it is repaired later only
    if a job happened to be scheduled before.
  */
  lemma CutBareRefreshIsSafeIff(d: Db, r: nat, texts: seq<string>, n: nat)
    requires Tables(d) && Ties(d) && r in d.records && 1 <= n <= 4
    ensures r in Stage(d, r, texts, n).records
    ensures InStep(Stage(d, r, texts, n), r) <==> n == 4 || (texts == [] && (n != 1 || !HasPoint(d, r)))
    ensures Scheduled(Stage(d, r, texts, n), r) <==> Scheduled(d, r)
  {
    hide Stage, Loaded, NewPoints, Tables, Ties, TextsOf, Scheduled;
    var d' := Stage(d, r, texts, n);
    StageFrame(d, r, texts, n);
    FirstNew(d, texts);
    StageTexts(d, r, texts, n);
    if n == 4 {
      FilledInStep(d, r, texts);
    } else if texts != [] {
      StageChunks(d, r, texts, n, d.nextChunk);
      assert d'.chunks[d.nextChunk].point.None?;
    } else {
      hide InStep;
      ChunklessInStepIff(d', r);
      NewPointsAre(d, r, texts);
      StagePoints(d, r, texts, n, ChunkPoint(0));
      forall p { StagePoints(d, r, texts, n, p); }
    }
  }

  // Recording the point ids failed: the new points are taken out again.
  function Unlinked(d: Db, d': Db, r: nat, texts: seq<string>): Db
    requires r in d.records
  {
    DeletePoints(d', NewPoints(d, r, texts).Keys, Some(d.records[r].org))
  }

  // How far a refresh got: n effects, and perhaps the removal of the new points.
  ghost predicate Reached(d: Db, d': Db, r: nat, texts: seq<string>, n: nat, undone: bool)
    requires r in d.records && n <= 4
  {
    d' == if undone then Unlinked(d, Stage(d, r, texts, n), r, texts) else Stage(d, r, texts, n)
  }

  /**
    refreshCanonicalMemoryIndex without ingest jobs. It answers if and only if all its calls do, and then the record is
    in step with the new chunks; otherwise the stores stand after some of the effects, with nothing scheduled for it.
  */
  method RefreshWithoutJobs(stores: TwoStores, r: nat, texts: seq<string>)
    returns (ok: bool, ghost n: nat, ghost undone: bool)
    requires Tables(stores.db) && Ties(stores.db) && r in stores.db.records
    modifies stores
    ensures stores.AllAnswered(ok) && n <= 4
    ensures Reached(old(stores.db), stores.db, r, texts, n, undone)
    ensures ok ==> !undone && r in stores.db.records && InStep(stores.db, r) && StoresTexts(stores.db, r, texts)
    ensures undone ==> !ok && 3 <= n
    ensures Scheduled(stores.db, r) <==> Scheduled(old(stores.db), r)
  {
    hide InStep, Tables, Ties, Loaded, NewPoints, StoresTexts, Scheduled, DeleteByRecord, ReplaceOnly, LinkPoints,
      DeletePoints;
    ghost var d := stores.db;
    var org, loaded := stores.db.records[r].org, Loaded(stores.db, texts);
    var points := NewPoints(stores.db, r, texts);
    forall k | 0 <= k <= 4 { StageFrame(d, r, texts, k); }
    n, undone := 0, false;
    var effect;
    effect, ok := stores.Fault();
    if effect {
      stores.db := ReplaceOnly(stores.db, r, texts);
      n := 1;
    }
    if !ok { return; }
    effect, ok := stores.Fault();
    if effect {
      stores.db := DeleteByRecord(stores.db, r, org);
      n := 2;
    }
    if !ok { return; }
    FirstNew(d, texts);
    if texts == [] {
      CutBareRefreshIsSafeIff(d, r, texts, 2);
      StageStores(d, r, texts, 2);
      return;
    }
    effect, ok := stores.Fault();
    if effect {
      stores.db := UpsertPoints(stores.db, points);
      n := 3;
    }
    if !ok { return; }
    effect, ok := stores.Fault();
    if effect {
      stores.db := LinkPoints(stores.db, LinksFor(Refresh, r, loaded));
      n := 4;
    }
    FilledInStep(d, r, texts);
    StageStores(d, r, texts, 4);
    if ok { return; }
    var removed, answered := stores.Fault();
    if removed {
      UnlinkedFrame(d, stores.db, r, texts);
      stores.db := DeletePoints(stores.db, points.Keys, Some(org));
      undone := true;
    }
  }

  lemma UnlinkedFrame(d: Db, d': Db, r: nat, texts: seq<string>)
    requires r in d.records
    ensures Unlinked(d, d', r, texts).records == d'.records
    ensures Scheduled(Unlinked(d, d', r, texts), r) <==> Scheduled(d', r)
  {
    hide NewPoints;
  }

  /** A record whose new points were taken out again is out of step. */
  lemma UndoneIsOut(d: Db, r: nat, texts: seq<string>, n: nat)
    requires Tables(d) && Ties(d) && r in d.records && 3 <= n <= 4 && texts != []
    ensures var d' := Unlinked(d, Stage(d, r, texts, n), r, texts); r in d'.records && !InStep(d', r)
  {
    hide Stage, Loaded, NewPoints, Tables, Ties;
    var c := d.nextChunk;
    StageFrame(d, r, texts, n);
    FirstNew(d, texts);
    StageChunks(d, r, texts, n, c);
    NewPointsAre(d, r, texts);
    StagePoints(d, r, texts, n, ChunkPoint(c));
  }
}
