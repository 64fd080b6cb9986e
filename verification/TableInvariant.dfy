/** What every step of the machine keeps about the tables, the index and the cleanup outbox. */
module TableInvariant {
  import opened Common
  import opened Backoff
  import opened Store
  import opened Protocol
  import opened Slices
  import opened LocalInvariant

  // Foreign keys, id sequences, and: no live record has the id of an archived one, no record is archived twice.
  ghost predicate Tables(d: Db) {
    && (forall r :: r in d.records ==> r < d.nextRecord)
    && (forall c :: c in d.chunks ==> c < d.nextChunk && d.chunks[c].record in d.records)
    && (forall c :: c in d.chunks && d.chunks[c].point.Some? ==> d.chunks[c].point.value.chunk == c)
    && (forall j :: j in d.jobs ==> j < d.nextJob && d.jobs[j].record in d.records
                                    && d.jobs[j].org == d.records[d.jobs[j].record].org)
    && (forall a :: a in d.archive ==> a < d.nextArchive && d.archive[a].record < d.nextRecord
                                       && d.archive[a].record !in d.records)
    && (forall a, b :: a in d.archive && b in d.archive && a != b ==> d.archive[a].record != d.archive[b].record)
  }

  // Every point in the index belongs to a record that was inserted; a point of a stored chunk is that chunk's.
  ghost predicate Ties(d: Db) {
    forall p :: p in d.index ==>
      && p.chunk < d.nextChunk && d.index[p].record < d.nextRecord
      && (d.index[p].record in d.records ==> d.index[p].org == d.records[d.index[p].record].org)
      && (p.chunk in d.chunks ==> d.chunks[p.chunk].record == d.index[p].record)
  }

  // A recorded point of an archived record comes from a chunk that is gone, so nothing can upsert it again.
  ghost predicate RowTies(d: Db) {
    forall a, p :: a in d.archive && p in d.archive[a].points ==>
      && p.chunk < d.nextChunk && p.chunk !in d.chunks
      && (p in d.index ==> d.index[p].org == d.archive[a].snapshot.org && d.index[p].record == d.archive[a].record)
  }

  predicate Gone(d: Db, a: nat)
    requires a in d.archive
  {
    d.archive[a].points !! d.index.Keys
  }

  /** Cleanup is never forgotten: recorded points of an archived record are gone unless the row is still in the outbox. */
  ghost predicate Outbox(d: Db, cleaned: set<nat>) {
    && (forall a :: a in d.archive && (a in cleaned || d.archive[a].status.RowDeleted?) ==> Gone(d, a))
    && (forall a :: a in d.archive && d.archive[a].status.RowPending? && d.archive[a].retryAt.None? ==>
          d.archive[a].points == {})
  }

  ghost predicate Sound(d: Db, cleaned: set<nat>) {
    && Tables(d) && Ties(d) && RowTies(d) && Outbox(d, cleaned)
    && forall a :: a in cleaned ==> a in d.archive
  }

  // Removing points, and editing job or archive bookkeeping, cannot break anything.
  lemma ShrinkingIndexSound(d: Db, d': Db, cleaned: set<nat>)
    requires Sound(d, cleaned)
    requires d' == d.(index := d'.index)
    requires forall p :: p in d'.index ==> p in d.index && d'.index[p] == d.index[p]
    ensures Sound(d', cleaned)
  {
  }

  lemma JobsSound(d: Db, d': Db, cleaned: set<nat>)
    requires Sound(d, cleaned)
    requires d' == d.(jobs := d'.jobs, nextJob := d'.nextJob) && d.nextJob <= d'.nextJob
    requires forall j :: j in d'.jobs ==> j < d'.nextJob && d'.jobs[j].record in d.records
                                          && d'.jobs[j].org == d.records[d'.jobs[j].record].org
    ensures Sound(d', cleaned)
  {
  }

  lemma InsertRecordSound(d: Db, rec: Record, cleaned: set<nat>)
    requires Sound(d, cleaned)
    ensures Sound(InsertRecord(d, rec), cleaned)
  {
    var d' := InsertRecord(d, rec);
    assert d.nextRecord !in d.records;
    assert Ties(d');
  }

  lemma UpdateRecordSound(d: Db, r: nat, org: string, body: Body, now: int, cleaned: set<nat>)
    requires Sound(d, cleaned)
    ensures Sound(UpdateRecord(d, r, org, body, now), cleaned)
  {
    var d' := UpdateRecord(d, r, org, body, now);
    assert Tables(d') by { hide Ties, RowTies, Outbox; }
    assert Ties(d') by { hide Tables, RowTies, Outbox; }
    hide Tables, Ties;
  }

  lemma DropRecordSound(d: Db, r: nat, cleaned: set<nat>)
    requires Sound(d, cleaned)
    ensures Sound(DropRecord(d, r), cleaned)
  {
  }

  lemma InsertChunksSound(d: Db, r: nat, texts: seq<string>, cleaned: set<nat>)
    requires Sound(d, cleaned) && r in d.records
    ensures Sound(InsertChunks(d, r, texts), cleaned)
  {
    var d' := InsertChunks(d, r, texts);
    assert forall c :: c in d'.chunks ==> c in d.chunks || d.nextChunk <= c < d'.nextChunk;
  }

  lemma ReplaceChunksSound(d: Db, r: nat, org: string, texts: seq<string>, retryAt: int, cleaned: set<nat>)
    requires Sound(d, cleaned) && r in d.records && org == d.records[r].org
    ensures Sound(ReplaceChunks(d, r, org, texts, retryAt), cleaned)
  {
    var kept := d.(chunks := map c | c in d.chunks && d.chunks[c].record != r :: d.chunks[c]);
    FewerChunksSound(d, kept, cleaned);
    InsertChunksSound(kept, r, texts, cleaned);
    var d1 := InsertChunks(kept, r, texts);
    var d' := ReplaceChunks(d, r, org, texts, retryAt);
    assert forall j :: j in d.jobs ==> j < d.nextJob;
    JobsSound(d1, d', cleaned);
  }

  lemma FewerChunksSound(d: Db, d': Db, cleaned: set<nat>)
    requires Sound(d, cleaned)
    requires d' == d.(chunks := d'.chunks)
    requires forall c :: c in d'.chunks ==> c in d.chunks && d'.chunks[c] == d.chunks[c]
    ensures Sound(d', cleaned)
  {
  }

  lemma LinkPointsSound(d: Db, links: map<nat, PointId>, cleaned: set<nat>)
    requires Sound(d, cleaned)
    requires forall c :: c in links ==> links[c].chunk == c
    ensures Sound(LinkPoints(d, links), cleaned)
  {
  }

  lemma UpsertPointsSound(d: Db, r: nat, points: map<PointId, Point>, cleaned: set<nat>)
    requires Sound(d, cleaned) && r in d.records
    requires forall p :: p in points ==>
                           && points[p].record == r && points[p].org == d.records[r].org
                           && p.chunk in d.chunks && d.chunks[p.chunk].record == r
    ensures Sound(UpsertPoints(d, points), cleaned)
  {
    hide Tables, Ties, RowTies, Outbox;
    UpsertTies(d, r, points);
    UpsertRowTies(d, points);
    UpsertOutbox(d, points, cleaned);
  }

  lemma UpsertTies(d: Db, r: nat, points: map<PointId, Point>)
    requires Tables(d) && Ties(d) && r in d.records
    requires forall p :: p in points ==>
                           && points[p].record == r && points[p].org == d.records[r].org
                           && p.chunk in d.chunks && d.chunks[p.chunk].record == r
    ensures Tables(UpsertPoints(d, points)) && Ties(UpsertPoints(d, points))
  {
  }

  lemma UpsertRowTies(d: Db, points: map<PointId, Point>)
    requires RowTies(d)
    requires forall p :: p in points ==> p.chunk in d.chunks
    ensures RowTies(UpsertPoints(d, points))
  {
  }

  lemma UpsertOutbox(d: Db, points: map<PointId, Point>, cleaned: set<nat>)
    requires RowTies(d) && Outbox(d, cleaned)
    requires forall p :: p in points ==> p.chunk in d.chunks
    ensures Outbox(UpsertPoints(d, points), cleaned)
  {
    var d' := UpsertPoints(d, points);
    forall a | a in d'.archive && (a in cleaned || d'.archive[a].status.RowDeleted?) ensures Gone(d', a) {
      assert Gone(d, a);
    }
  }

  function WithRow(d: Db, r: nat, row: ArchiveRow): Db {
    DropRecord(d, r).(archive := d.archive[d.nextArchive := row], nextArchive := d.nextArchive + 1)
  }

  lemma NewRowSound(d: Db, r: nat, run: nat, reason: Reason, now: int, cleaned: set<nat>)
    requires Sound(d, cleaned) && r in d.records
    ensures Sound(WithRow(d, r, NewRow(d, r, run, reason, now)), cleaned)
  {
    var row := NewRow(d, r, run, reason, now);
    NewRowPoints(d, r, run, reason, now);
    NewRowTables(d, r, row);
    DropRecordSound(d, r, cleaned);
    NewRowTies(d, r, row);
    NewRowOutbox(d, r, row, cleaned);
    hide Tables, Ties, RowTies, Outbox, DropRecord, RecordedPoints, NewRowFits;
  }

  lemma NewRowTables(d: Db, r: nat, row: ArchiveRow)
    requires Tables(d) && r in d.records && row.record == r
    ensures Tables(WithRow(d, r, row))
    ensures d.nextArchive !in d.archive
  {
  }

  lemma NewRowTies(d: Db, r: nat, row: ArchiveRow)
    requires Tables(d) && Ties(DropRecord(d, r)) && RowTies(d) && NewRowFits(d, r, row)
    ensures Ties(WithRow(d, r, row)) && RowTies(WithRow(d, r, row))
  {
  }

  lemma NewRowOutbox(d: Db, r: nat, row: ArchiveRow, cleaned: set<nat>)
    requires Outbox(d, cleaned) && d.nextArchive !in d.archive && d.nextArchive !in cleaned
    requires row.status.RowPending? && (row.retryAt.None? ==> row.points == {})
    ensures Outbox(WithRow(d, r, row), cleaned)
  {
    var d' := WithRow(d, r, row);
    forall a | a in d'.archive && (a in cleaned || d'.archive[a].status.RowDeleted?) ensures Gone(d', a) {
      assert Gone(d, a);
    }
  }

  // The row lists exactly the recorded points, each of a chunk that goes with the record.
  predicate NewRowFits(d: Db, r: nat, row: ArchiveRow) {
    forall p :: p in row.points ==>
      && p.chunk < d.nextChunk && p.chunk in d.chunks && d.chunks[p.chunk].record == r == row.record
      && (p in d.index ==> d.index[p].org == row.snapshot.org && d.index[p].record == r)
  }

  lemma NewRowPoints(d: Db, r: nat, run: nat, reason: Reason, now: int)
    requires Tables(d) && Ties(d) && r in d.records
    ensures NewRowFits(d, r, NewRow(d, r, run, reason, now))
  {
    var row := NewRow(d, r, run, reason, now);
    forall p | p in row.points
      ensures p.chunk < d.nextChunk && p.chunk in d.chunks && d.chunks[p.chunk].record == r
      ensures p in d.index ==> d.index[p].org == row.snapshot.org && d.index[p].record == r
    {
      var c :| c in d.chunks && d.chunks[c].record == r && d.chunks[c].point == Some(p);
      assert p.chunk == c;
    }
  }

  /** No live record shares its id with an archived one, so ON CONFLICT DO NOTHING never drops a deleted row. */
  lemma NeverConflicts(d: Db, r: nat, run: nat)
    requires Tables(d) && r in d.records
    ensures !Conflicts(d, r, run)
  {
  }

  lemma ArchiveSound(d: Db, r: nat, org: string, run: nat, reason: Reason, planTime: int, now: int, cleaned: set<nat>)
    requires Sound(d, cleaned)
    ensures Sound(ArchiveRecord(d, r, org, run, reason, planTime, now), cleaned)
  {
    if Archivable(d, r, org, planTime) {
      NeverConflicts(d, r, run);
      NewRowSound(d, r, run, reason, now, cleaned);
    }
  }

  // Editing one row's bookkeeping: a row may be marked deleted only once its points are gone.
  lemma RowEditSound(d: Db, d': Db, cleaned: set<nat>)
    requires Sound(d, cleaned)
    requires d' == d.(archive := d'.archive) && d'.archive.Keys == d.archive.Keys
    requires forall a :: a in d'.archive ==>
                           && d'.archive[a].record == d.archive[a].record
                           && d'.archive[a].snapshot == d.archive[a].snapshot
                           && d'.archive[a].points == d.archive[a].points
                           && (d'.archive[a].status.RowDeleted? && !d.archive[a].status.RowDeleted? ==> Gone(d, a))
                           && (d'.archive[a].status.RowPending? && d'.archive[a].retryAt.None?
                               ==> d.archive[a].points == {})
    ensures Sound(d', cleaned)
  {
    RowEditTables(d, d');
    hide Tables, Ties;
    forall a | a in d'.archive && (a in cleaned || d'.archive[a].status.RowDeleted?) ensures Gone(d', a) {
      assert Gone(d, a);
    }
  }

  lemma RowEditTables(d: Db, d': Db)
    requires Tables(d) && Ties(d)
    requires d' == d.(archive := d'.archive) && d'.archive.Keys == d.archive.Keys
    requires forall a :: a in d'.archive ==> d'.archive[a].record == d.archive[a].record
    ensures Tables(d') && Ties(d')
  {
  }

  // A delete call of the rows' points in their organization leaves none of them.
  lemma CleanDeleteSound(d: Db, rows: set<nat>, org: string, cleaned: set<nat>)
    requires Sound(d, cleaned)
    requires forall a :: a in rows ==> a in d.archive && d.archive[a].snapshot.org == org
    ensures Sound(DeletePoints(d, PointsOfRows(d, rows), Some(org)), cleaned + rows)
  {
    var d' := DeletePoints(d, PointsOfRows(d, rows), Some(org));
    ShrinkingIndexSound(d, d', cleaned);
    forall a | a in rows ensures Gone(d', a) {
      forall p | p in d.archive[a].points ensures p !in d'.index {
        assert p in PointsOfRows(d, rows);
      }
    }
  }
}
