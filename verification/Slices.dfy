/** One record's share of the two stores, and what each statement does to it and to everybody else's share. */
module Slices {
  import opened Common
  import opened Store

  datatype Slice = Slice(org: string, chunks: map<nat, Chunk>, jobs: map<nat, Job>, points: map<PointId, Point>)

  function OrgOf(d: Db, r: nat): string {
    if r in d.records then d.records[r].org else ""
  }

  function ChunksOf(chunks: map<nat, Chunk>, r: nat): map<nat, Chunk> {
    map c | c in chunks && chunks[c].record == r :: chunks[c]
  }

  function JobsOf(jobs: map<nat, Job>, r: nat): map<nat, Job> {
    map j | j in jobs && jobs[j].record == r :: jobs[j]
  }

  function PointsOf(index: map<PointId, Point>, r: nat): map<PointId, Point> {
    map p | p in index && index[p].record == r :: index[p]
  }

  function SliceOf(d: Db, r: nat): Slice {
    Slice(OrgOf(d, r), ChunksOf(d.chunks, r), JobsOf(d.jobs, r), PointsOf(d.index, r))
  }

  // Every other record keeps its share.
  ghost predicate OthersKeep(d: Db, d': Db, r: nat) {
    forall q :: q != r ==> SliceOf(d', q) == SliceOf(d, q)
  }

  ghost predicate AllKeep(d: Db, d': Db) {
    forall q :: SliceOf(d', q) == SliceOf(d, q)
  }

  lemma InsertRecordSlices(d: Db, rec: Record)
    requires d.nextRecord !in d.records
    ensures OthersKeep(d, InsertRecord(d, rec), d.nextRecord)
    ensures SliceOf(InsertRecord(d, rec), d.nextRecord) == SliceOf(d, d.nextRecord).(org := rec.org)
  {
  }

  lemma UpdateRecordSlices(d: Db, r: nat, org: string, body: Body, now: int)
    ensures AllKeep(d, UpdateRecord(d, r, org, body, now))
  {
  }

  lemma DropRecordSlices(d: Db, r: nat)
    ensures OthersKeep(d, DropRecord(d, r), r)
    ensures SliceOf(DropRecord(d, r), r) == Slice("", map[], map[], SliceOf(d, r).points)
  {
    var d' := DropRecord(d, r);
    forall q | q != r ensures SliceOf(d', q) == SliceOf(d, q) {
      assert SliceOf(d', q).chunks == SliceOf(d, q).chunks;
      assert SliceOf(d', q).jobs == SliceOf(d, q).jobs;
    }
    assert SliceOf(d', r).chunks == map[];
    assert SliceOf(d', r).jobs == map[];
  }

  lemma AddedChunks(chunks: map<nat, Chunk>, r: nat, texts: seq<string>, nextChunk: nat, q: nat)
    requires forall c :: c in chunks ==> c < nextChunk
    ensures var both := chunks + NewChunks(nextChunk, r, texts);
            ChunksOf(both, q) == if q == r then ChunksOf(chunks, r) + NewChunks(nextChunk, r, texts) else ChunksOf(chunks, q)
  {
  }

  lemma DroppedChunks(chunks: map<nat, Chunk>, r: nat, q: nat)
    ensures var rest := map c | c in chunks && chunks[c].record != r :: chunks[c];
            ChunksOf(rest, q) == if q == r then map[] else ChunksOf(chunks, q)
  {
  }

  lemma InsertChunksSlices(d: Db, r: nat, texts: seq<string>)
    requires forall c :: c in d.chunks ==> c < d.nextChunk
    ensures var d' := InsertChunks(d, r, texts);
            && OthersKeep(d, d', r)
            && SliceOf(d', r) == SliceOf(d, r).(chunks := SliceOf(d, r).chunks + NewChunks(d.nextChunk, r, texts))
  {
    hide ChunksOf, NewChunks;
    forall q { AddedChunks(d.chunks, r, texts, d.nextChunk, q); }
  }

  lemma ReplaceChunksSlices(d: Db, r: nat, org: string, texts: seq<string>, retryAt: int)
    requires forall c :: c in d.chunks ==> c < d.nextChunk
    requires forall j :: j in d.jobs ==> j < d.nextJob
    ensures var d' := ReplaceChunks(d, r, org, texts, retryAt);
            && OthersKeep(d, d', r)
            && SliceOf(d', r) == SliceOf(d, r).(
              chunks := NewChunks(d.nextChunk, r, texts),
              jobs := SliceOf(d, r).jobs[d.nextJob := Job(r, org, JobPending, 0, Some(retryAt), false)])
  {
    hide ChunksOf, JobsOf, NewChunks;
    var rest := map c | c in d.chunks && d.chunks[c].record != r :: d.chunks[c];
    forall q { DroppedChunks(d.chunks, r, q); }
    forall q { AddedChunks(rest, r, texts, d.nextChunk, q); }
    forall q { AddedJob(d.jobs, d.nextJob, Job(r, org, JobPending, 0, Some(retryAt), false), q); }
    assert map[] + NewChunks(d.nextChunk, r, texts) == NewChunks(d.nextChunk, r, texts);
  }

  lemma AddedJob(jobs: map<nat, Job>, j: nat, job: Job, q: nat)
    requires j in jobs ==> jobs[j].record == job.record
    ensures JobsOf(jobs[j := job], q) == if q == job.record then JobsOf(jobs, q)[j := job] else JobsOf(jobs, q)
  {
  }

  function Linked(chunks: map<nat, Chunk>, links: map<nat, PointId>): map<nat, Chunk> {
    map c | c in chunks :: if c in links then chunks[c].(point := Some(links[c])) else chunks[c]
  }

  lemma LinkedChunks(chunks: map<nat, Chunk>, links: map<nat, PointId>, r: nat, q: nat)
    requires forall c :: c in links && c in chunks ==> chunks[c].record == r
    ensures ChunksOf(Linked(chunks, links), q)
         == if q == r then Linked(ChunksOf(chunks, r), links) else ChunksOf(chunks, q)
  {
  }

  lemma LinkPointsSlices(d: Db, r: nat, links: map<nat, PointId>)
    requires forall c :: c in links && c in d.chunks ==> d.chunks[c].record == r
    ensures var d' := LinkPoints(d, links);
            && OthersKeep(d, d', r)
            && SliceOf(d', r) == SliceOf(d, r).(chunks := Linked(SliceOf(d, r).chunks, links))
  {
    assert LinkPoints(d, links).chunks == Linked(d.chunks, links);
    hide ChunksOf, Linked;
    forall q { LinkedChunks(d.chunks, links, r, q); }
  }

  lemma CreateJobSlices(d: Db, r: nat, org: string)
    requires forall j :: j in d.jobs ==> j < d.nextJob
    ensures var d' := CreateJob(d, r, org);
            && OthersKeep(d, d', r)
            && SliceOf(d', r) == SliceOf(d, r).(
              jobs := SliceOf(d, r).jobs[d.nextJob := Job(r, org, JobPending, 0, None, false)])
  {
    hide JobsOf;
    forall q { AddedJob(d.jobs, d.nextJob, Job(r, org, JobPending, 0, None, false), q); }
  }

  // Any update of one job row that keeps its record: the four marks and the close.
  lemma SetJobSlices(d: Db, d': Db, r: nat, j: nat, job: Job)
    requires j in d.jobs && d.jobs[j].record == r == job.record
    requires d' == d.(jobs := d.jobs[j := job])
    ensures OthersKeep(d, d', r)
    ensures SliceOf(d', r) == SliceOf(d, r).(jobs := SliceOf(d, r).jobs[j := job])
  {
    hide JobsOf;
    forall q { AddedJob(d.jobs, j, job, q); }
  }

  lemma UpsertedPoints(index: map<PointId, Point>, points: map<PointId, Point>, r: nat, q: nat)
    requires forall p :: p in points ==> points[p].record == r
    requires forall p :: p in points && p in index ==> index[p].record == r
    ensures var both := index + points;
            PointsOf(both, q) == if q == r then PointsOf(index, q) + points else PointsOf(index, q)
  {
    var both := index + points;
    if q != r {
      forall p | p in both && both[p].record == q ensures p in index && p !in points {
      }
    }
  }

  lemma UpsertPointsSlices(d: Db, r: nat, points: map<PointId, Point>)
    requires forall p :: p in points ==> points[p].record == r
    requires forall p :: p in points && p in d.index ==> d.index[p].record == r
    ensures var d' := UpsertPoints(d, points);
            && OthersKeep(d, d', r)
            && SliceOf(d', r) == SliceOf(d, r).(points := SliceOf(d, r).points + points)
  {
    var d' := UpsertPoints(d, points);
    forall q ensures SliceOf(d', q).points == if q == r then SliceOf(d, r).points + points else SliceOf(d, q).points {
      UpsertedPoints(d.index, points, r, q);
    }
  }

  function Remaining(points: map<PointId, Point>, ids: set<PointId>, org: Option<string>): map<PointId, Point> {
    map p | p in points && !(p in ids && InOrg(points[p], org)) :: points[p]
  }

  lemma DeletePointsSlices(d: Db, r: nat, ids: set<PointId>, org: Option<string>)
    requires forall p :: p in ids && p in d.index ==> d.index[p].record == r
    ensures OthersKeep(d, DeletePoints(d, ids, org), r)
    ensures SliceOf(DeletePoints(d, ids, org), r)
         == SliceOf(d, r).(points := Remaining(SliceOf(d, r).points, ids, org))
  {
    var d' := DeletePoints(d, ids, org);
    forall q | q != r ensures SliceOf(d', q) == SliceOf(d, q) {
      assert SliceOf(d', q).points == SliceOf(d, q).points;
    }
    assert SliceOf(d', r).points == Remaining(SliceOf(d, r).points, ids, org);
  }

  lemma DeleteByRecordSlices(d: Db, r: nat, org: string)
    requires forall p :: p in d.index && d.index[p].record == r ==> d.index[p].org == org
    ensures OthersKeep(d, DeleteByRecord(d, r, org), r)
    ensures SliceOf(DeleteByRecord(d, r, org), r) == SliceOf(d, r).(points := map[])
  {
    var d' := DeleteByRecord(d, r, org);
    forall q | q != r ensures SliceOf(d', q) == SliceOf(d, q) {
      assert SliceOf(d', q).points == SliceOf(d, q).points;
    }
    assert SliceOf(d', r).points == map[];
  }
}
