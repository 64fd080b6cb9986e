/**
  The two stores: the Postgres tables the write paths touch, and the vector index beside them.

  Every function below is the effect of one SQL statement (or one transaction) or of one vector call.
  Ids come from sequences that only grow, as BIGSERIAL does, so an id is never used twice.
*/
module Store {
  import opened Common
  import opened Backoff

  // "chunk:<id>" from the shared point builder, and "memory:<record>:chunk:<id>" from a restore.
  datatype PointId = ChunkPoint(chunk: nat) | RestoredPoint(record: nat, chunk: nat)

  datatype Body = Body(
    scopeType: string, scopeId: string, projectKey: Option<string>, kind: string, title: Option<string>,
    content: string, summary: Option<string>, durability: string, importance: int)

  datatype Record = Record(org: string, body: Body, sourceId: nat, createdAt: int, updatedAt: int)

  datatype Chunk = Chunk(record: nat, index: nat, text: string, point: Option<PointId>)

  datatype JobStatus = JobPending | JobCompleted | JobFailed

  // status/attempts/retryAt are the qdrant_* columns; closed says that the plain status column is 'completed'.
  datatype Job = Job(record: nat, org: string, status: JobStatus, attempts: nat, retryAt: Option<int>, closed: bool)

  datatype Reason = Duplicate(kept: nat) | Decay(score: real)

  // A record the compaction plan wants archived, and why.
  datatype Candidate = Candidate(record: nat, reason: Reason)

  datatype RowStatus = RowPending | RowDeleted | RowFailed

  datatype ArchiveRow = ArchiveRow(
    run: nat, record: nat, snapshot: Record, sourceId: Option<nat>, reason: Reason, points: set<PointId>,
    status: RowStatus, attempts: nat, retryAt: Option<int>, archivedAt: int, unarchivedAt: Option<int>)

  // A vector point carries the record and organization of its payload and the text it was embedded from.
  datatype Point = Point(record: nat, org: string, text: string)

  datatype Db = Db(
    records: map<nat, Record>, chunks: map<nat, Chunk>, jobs: map<nat, Job>, archive: map<nat, ArchiveRow>,
    index: map<PointId, Point>, nextRecord: nat, nextChunk: nat, nextJob: nat, nextArchive: nat)

  const CLAIM_VISIBILITY_MS := 300_000
  const CLEANUP_VISIBILITY_MS := 60_000
  const CLEANUP_GRACE_MS := 60_000
  const CLEANUP_RETRY_MS := 30_000

  // ----- records -----

  function InsertRecord(d: Db, rec: Record): Db {
    d.(records := d.records[d.nextRecord := rec], nextRecord := d.nextRecord + 1)
  }

  function UpdateRecord(d: Db, r: nat, org: string, body: Body, now: int): Db {
    if r in d.records && d.records[r].org == org
    then d.(records := d.records[r := d.records[r].(body := body, updatedAt := now)])
    else d
  }

  function DropRecord(d: Db, r: nat): Db {
    d.(records := d.records - {r},
    chunks := map c | c in d.chunks && d.chunks[c].record != r :: d.chunks[c],
    jobs := map j | j in d.jobs && d.jobs[j].record != r :: d.jobs[j])
  }

  // DELETE FROM memory_records, with its cascade to chunks and ingest jobs.
  function DeleteRecord(d: Db, r: nat, org: string): Db {
    if r in d.records && d.records[r].org == org then DropRecord(d, r) else d
  }

  // ----- chunks -----

  function NewIds(from: nat, count: nat): (ids: set<nat>)
    ensures forall c :: c in ids <==> from <= c < from + count
  {
    if count == 0 then {} else NewIds(from, count - 1) + {from + count - 1}
  }

  function NewChunks(from: nat, r: nat, texts: seq<string>): map<nat, Chunk> {
    map c | c in NewIds(from, |texts|) :: Chunk(r, c - from, texts[c - from], None)
  }

  // One row for each text, numbered and in order, under consecutive ids.
  ghost predicate InOrderFrom(chunks: map<nat, Chunk>, texts: seq<string>, from: nat) {
    && (forall c :: c in chunks <==> from <= c < from + |texts|)
    && forall c :: c in chunks ==> chunks[c].index == c - from && chunks[c].text == texts[c - from]
  }

  ghost predicate InOrder(chunks: map<nat, Chunk>, texts: seq<string>) {
    exists from: nat :: InOrderFrom(chunks, texts, from)
  }

  // What INSERT ... RETURNING hands back: the text of every new row under its id.
  function NewTexts(from: nat, texts: seq<string>): map<nat, string> {
    map c | c in NewIds(from, |texts|) :: texts[c - from]
  }

  function InsertChunks(d: Db, r: nat, texts: seq<string>): Db {
    d.(chunks := d.chunks + NewChunks(d.nextChunk, r, texts), nextChunk := d.nextChunk + |texts|)
  }

  // One transaction: delete the record's chunks, insert the new ones, insert a pending job with a retry time.
  function ReplaceChunks(d: Db, r: nat, org: string, texts: seq<string>, retryAt: int): Db {
    d.(chunks := (map c | c in d.chunks && d.chunks[c].record != r :: d.chunks[c]) + NewChunks(d.nextChunk, r, texts),
    nextChunk := d.nextChunk + |texts|,
    jobs := d.jobs[d.nextJob := Job(r, org, JobPending, 0, Some(retryAt), false)],
    nextJob := d.nextJob + 1)
  }

  function LinkPoints(d: Db, links: map<nat, PointId>): Db {
    d.(chunks := map c | c in d.chunks :: if c in links then d.chunks[c].(point := Some(links[c])) else d.chunks[c])
  }

  // getChunksByRecordId
  function TextsOf(d: Db, r: nat): map<nat, string> {
    map c | c in d.chunks && d.chunks[c].record == r :: d.chunks[c].text
  }

  // ----- ingest jobs -----

  function CreateJob(d: Db, r: nat, org: string): Db {
    d.(jobs := d.jobs[d.nextJob := Job(r, org, JobPending, 0, None, false)], nextJob := d.nextJob + 1)
  }

  function MarkJobPending(d: Db, j: nat, attempts: nat, retryAt: int): Db {
    if j in d.jobs
    then d.(jobs := d.jobs[j := d.jobs[j].(status := JobPending, attempts := attempts, retryAt := Some(retryAt))])
    else d
  }

  function MarkJobCompleted(d: Db, j: nat): Db {
    if j in d.jobs then d.(jobs := d.jobs[j := d.jobs[j].(status := JobCompleted, retryAt := None)]) else d
  }

  function MarkJobFailed(d: Db, j: nat, attempts: nat): Db {
    if j in d.jobs
    then d.(jobs := d.jobs[j := d.jobs[j].(status := JobFailed, attempts := attempts, retryAt := None)])
    else d
  }

  function CloseJob(d: Db, j: nat): Db {
    if j in d.jobs then d.(jobs := d.jobs[j := d.jobs[j].(closed := true)]) else d
  }

  predicate JobDue(job: Job, now: int) {
    job.status.JobPending? && job.retryAt.Some? && job.retryAt.value <= now
  }

  function ClaimJobs(d: Db, ids: set<nat>, now: int): Db {
    d.(jobs := map j | j in d.jobs ::
      if j in ids then d.jobs[j].(retryAt := Some(now + CLAIM_VISIBILITY_MS)) else d.jobs[j])
  }

  // ----- archive rows -----

  function RecordedPoints(d: Db, r: nat): set<PointId> {
    set c | c in d.chunks && d.chunks[c].record == r && d.chunks[c].point.Some? :: d.chunks[c].point.value
  }

  predicate Archivable(d: Db, r: nat, org: string, planTime: int) {
    r in d.records && d.records[r].org == org && d.records[r].updatedAt <= planTime
  }

  function NewRow(d: Db, r: nat, run: nat, reason: Reason, now: int): ArchiveRow
    requires r in d.records
  {
    var points := RecordedPoints(d, r);
    ArchiveRow(run, r, d.records[r], Some(d.records[r].sourceId), reason, points, RowPending, 0,
               if points == {} then None else Some(now), now, None)
  }

  predicate Conflicts(d: Db, r: nat, run: nat) {
    exists a :: a in d.archive && d.archive[a].run == run && d.archive[a].record == r
  }

  // The single CTE of applyCompactionRecord: delete, then insert ... ON CONFLICT DO NOTHING.
  function ArchiveRecord(d: Db, r: nat, org: string, run: nat, reason: Reason, planTime: int, now: int): Db {
    if !Archivable(d, r, org, planTime) then d
    else if Conflicts(d, r, run) then DropRecord(d, r)
    else DropRecord(d, r).(archive := d.archive[d.nextArchive := NewRow(d, r, run, reason, now)],
         nextArchive := d.nextArchive + 1)
  }

  function MarkRow(d: Db, a: nat, status: RowStatus, now: int): Db {
    if a !in d.archive then d
    else
      var row := d.archive[a];
      var retryAt := if status.RowPending? then Some(now + CLEANUP_RETRY_MS) else None;
      d.(archive := d.archive[a := row.(status := status, attempts := row.attempts + 1, retryAt := retryAt)])
  }

  predicate RowDue(row: ArchiveRow, now: int) {
    && row.status.RowPending? && row.retryAt.Some? && row.retryAt.value <= now
    && row.archivedAt < now - CLEANUP_GRACE_MS && row.points != {}
  }

  function ClaimRows(d: Db, ids: set<nat>, now: int): Db {
    d.(archive := map a | a in d.archive ::
      if a in ids then d.archive[a].(retryAt := Some(now + CLEANUP_VISIBILITY_MS)) else d.archive[a])
  }

  function MarkUnarchived(d: Db, a: nat, now: int): Db {
    if a in d.archive then d.(archive := d.archive[a := d.archive[a].(unarchivedAt := Some(now))]) else d
  }

  // ----- the vector index -----

  function UpsertPoints(d: Db, points: map<PointId, Point>): Db {
    d.(index := d.index + points)
  }

  predicate InOrg(p: Point, org: Option<string>) {
    org.None? || p.org == org.value
  }

  function DeletePoints(d: Db, ids: set<PointId>, org: Option<string>): Db {
    d.(index := map p | p in d.index && !(p in ids && InOrg(d.index[p], org)) :: d.index[p])
  }

  function DeleteByRecord(d: Db, r: nat, org: string): Db {
    d.(index := map p | p in d.index && !(d.index[p].record == r && d.index[p].org == org) :: d.index[p])
  }
}
