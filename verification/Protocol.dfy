/**
  The write paths as a machine of atomic steps.

  An attempt is one run of writeCanonicalMemory, refreshCanonicalMemoryIndex, sweepOne or restoreOne on one record.
  Each of its calls may take effect or not, and may answer, report an error or be the last thing before a crash;
  a call that reports an error may still have taken effect. Attempts on different records interleave freely.
  Compaction applies and outbox sweeps need no phases: a cleanup worker only has to remember that its delete call
  succeeded, which `cleaned` records.
*/
module Protocol {
  import opened Common
  import opened Backoff
  import opened Store

  datatype Kind = Write | Refresh | Sweep | Restore

  datatype Phase =
    | AtCreateJob | AtInsertChunks | AtMarkAhead | AtEmbed | AtReplace | AtDeleteOld | AtUpsert | AtLink
    | AtMarkDone | AtClose | AtNoChunks | AtMarkUnarchived | AtUnlink | AtRearm | AtUndoPoints | AtUndoRecord

  datatype Reply = Ok | Error | Crash

  // texts: the chunks to store. loaded: the stored rows the attempt works on. tries/limit: the sweeper's attempt
  // count as claimed, and its maxAttempts. row: the archive row being restored.
  datatype Attempt = Attempt(
    kind: Kind, at: Phase, org: string, texts: seq<string>, loaded: map<nat, string>, job: nat, tries: nat, limit: nat,
    row: nat)

  /**
    gap is a history variable: the records for which an attempt ended inside one of the windows of `Loses` and
    nothing has settled them since. cleaned: archive rows for which some delete call of their points succeeded.
  */
  datatype State = State(db: Db, attempts: map<nat, Attempt>, gap: set<nat>, cleaned: set<nat>)

  datatype Label =
    | StartWrite(rec: Record, texts: seq<string>)
    | StartRefresh(r: nat, texts: seq<string>)
    | StartSweep(j: nat, tries: nat, limit: nat)
    | StartRestore(a: nat, texts: seq<string>)
    | Call(r: nat, effect: bool, reply: Reply, now: int)
    | Update(r: nat, org: string, body: Body, now: int)
    | Claim(jobIds: set<nat>, now: int)
    | Archive(r: nat, org: string, run: nat, reason: Reason, planTime: int, now: int)
    | CleanDelete(rows: set<nat>, org: string, effect: bool, ok: bool)
    | Mark(a: nat, status: RowStatus, now: int)
    | ClaimCleanup(rows: set<nat>, now: int)

  predicate HasChunks(a: Attempt) {
    a.texts != [] || a.loaded != map[]
  }

  function PidOf(kind: Kind, r: nat, c: nat): PointId {
    if kind == Restore then RestoredPoint(r, c) else ChunkPoint(c)
  }

  function PointsFor(kind: Kind, r: nat, org: string, loaded: map<nat, string>): map<PointId, Point> {
    map c | c in loaded :: PidOf(kind, r, c) := Point(r, org, loaded[c])
  }

  function LinksFor(kind: Kind, r: nat, loaded: map<nat, string>): map<nat, PointId> {
    map c | c in loaded :: PidOf(kind, r, c)
  }

  function Rearmed(d: Db, a: Attempt, now: int): Db {
    if a.kind == Refresh then MarkJobPending(d, a.job, a.tries, now + NextRetryDelayMs(a.tries))
    else if a.tries + 1 >= a.limit then MarkJobFailed(d, a.job, a.tries + 1)
    else MarkJobPending(d, a.job, a.tries + 1, now + NextRetryDelayMs(a.tries + 1))
  }

  // What the attempt's next call does to the stores when it takes effect.
  function Effect(d: Db, r: nat, a: Attempt, now: int): Db {
    match a.at
    case AtCreateJob => CreateJob(d, r, a.org)
    case AtInsertChunks => InsertChunks(d, r, a.texts)
    case AtMarkAhead => MarkJobPending(d, a.job, 0, now + NextRetryDelayMs(0))
    case AtEmbed => d
    case AtReplace => ReplaceChunks(d, r, a.org, a.texts, now + NextRetryDelayMs(0))
    case AtDeleteOld => DeleteByRecord(d, r, a.org)
    case AtUpsert => UpsertPoints(d, PointsFor(a.kind, r, a.org, a.loaded))
    case AtLink => LinkPoints(d, LinksFor(a.kind, r, a.loaded))
    case AtMarkDone => MarkJobCompleted(d, a.job)
    case AtClose => CloseJob(d, a.job)
    case AtNoChunks => MarkJobCompleted(d, a.job)
    case AtMarkUnarchived => MarkUnarchived(d, a.row, now)
    case AtUnlink => DeletePoints(d, PointsFor(a.kind, r, a.org, a.loaded).Keys, Some(a.org))
    case AtRearm => Rearmed(d, a, now)
    case AtUndoPoints => DeletePoints(d, PointsFor(a.kind, r, a.org, a.loaded).Keys, if a.kind == Write then None else Some(a.org))
    case AtUndoRecord => DeleteRecord(d, r, a.org)
  }

  // The call after one that answered; None when the attempt is over.
  function AfterOk(a: Attempt, nextChunk: nat, nextJob: nat): Option<Attempt> {
    match a.at
    case AtCreateJob => Some(a.(job := nextJob, at := AtInsertChunks))
    case AtInsertChunks =>
      var b := a.(loaded := NewTexts(nextChunk, a.texts));
      Some(b.(at := if a.kind == Write && a.texts != [] then AtMarkAhead else AtEmbed))
    case AtMarkAhead => Some(a.(at := AtEmbed))
    case AtEmbed =>
      Some(a.(at := if a.kind == Sweep then AtDeleteOld
      else if HasChunks(a) then AtUpsert
      else if a.kind == Write then AtClose
      else AtMarkUnarchived))
    case AtReplace => Some(a.(job := nextJob, loaded := NewTexts(nextChunk, a.texts), at := AtDeleteOld))
    case AtDeleteOld => Some(a.(at := if HasChunks(a) then AtUpsert else AtClose))
    case AtUpsert => Some(a.(at := AtLink))
    case AtLink => Some(a.(at := if a.kind == Restore then AtMarkUnarchived else AtMarkDone))
    case AtMarkDone => if a.kind == Sweep then None else Some(a.(at := AtClose))
    case AtUnlink => Some(a.(at := AtRearm))
    case AtUndoPoints => Some(a.(at := AtUndoRecord))
    case AtClose => None
    case AtNoChunks => None
    case AtMarkUnarchived => None
    case AtRearm => None
    case AtUndoRecord => None
  }

  // The catch blocks: where control goes after a call that reported an error.
  function AfterError(a: Attempt): Option<Attempt> {
    match a.kind
    case Write =>
      (match a.at
       case AtCreateJob => None
       case AtUndoRecord => None
       case AtLink => Some(a.(at := AtUndoPoints))
       case AtMarkDone => Some(a.(at := AtUndoPoints))
       case AtClose => Some(a.(at := if HasChunks(a) then AtUndoPoints else AtUndoRecord))
       case _ => Some(a.(at := AtUndoRecord)))
    case Refresh =>
      (match a.at
       case AtReplace => None
       case AtRearm => None
       case AtLink => Some(a.(at := AtUnlink))
       case _ => if HasChunks(a) then Some(a.(at := AtRearm)) else None)
    case Sweep => if a.at == AtRearm then None else Some(a.(at := AtRearm))
    case Restore =>
      (match a.at
       case AtUndoRecord => None
       case AtLink => Some(a.(at := AtUndoPoints))
       case AtMarkUnarchived => Some(a.(at := if HasChunks(a) then AtUndoPoints else AtUndoRecord))
       case _ => Some(a.(at := AtUndoRecord)))
  }

  function After(a: Attempt, reply: Reply, nextChunk: nat, nextJob: nat): Option<Attempt> {
    match reply
    case Ok => AfterOk(a, nextChunk, nextJob)
    case Error => AfterError(a)
    case Crash => None
  }

  predicate JobGuards(job: Job) {
    (job.status.JobPending? && job.retryAt.Some?) || job.status.JobFailed?
  }

  predicate GuardedBy(d: Db, j: nat) {
    j in d.jobs && JobGuards(d.jobs[j])
  }

  /**
    The windows: an attempt that ends here may leave a live record that is neither in step with the index nor
    scheduled for repair. d' is the store after the last call.
      - a write that crashes between inserting its chunks and its write-ahead mark;
      - a write whose best-effort rollback leaves the record behind with no retry scheduled;
      - a restore cut short, or not fully compensated, before its points are recorded (a restore has no ingest job);
      - a sweep that finds no chunks and closes the job although points are left.
  */
  predicate Loses(d': Db, r: nat, a: Attempt, effect: bool) {
    && r in d'.records
    && match a.kind
       case Write =>
         && HasChunks(a)
         && ((a.at == AtInsertChunks && effect) || (a.at == AtMarkAhead && !effect)
             || (a.at in {AtUndoPoints, AtUndoRecord} && !GuardedBy(d', a.job)))
       case Restore =>
         && HasChunks(a)
         && ((a.at == AtInsertChunks && effect) || (a.at == AtLink && !effect)
             || a.at in {AtEmbed, AtUpsert, AtUndoPoints, AtUndoRecord})
       case Sweep => a.at == AtNoChunks && effect && exists p :: p in d'.index && d'.index[p].record == r
       case Refresh => false
  }

  // Once new chunks are stored with a scheduled job, a job is closed over recorded points, or a job is rescheduled or
  // given up on, the record is safe again.
  predicate Settles(a: Attempt, effect: bool) {
    effect && a.at in {AtReplace, AtMarkDone, AtRearm}
  }

  predicate Enabled(s: State, l: Label) {
    match l
    case StartWrite(_, _) => true
    case StartRefresh(r, _) => r in s.db.records && r !in s.attempts
    case StartSweep(j, _, _) => j in s.db.jobs && s.db.jobs[j].record !in s.attempts
    case StartRestore(a, _) => a in s.db.archive && s.db.archive[a].sourceId.Some?
    case Call(r, effect, reply, _) => r in s.attempts && (reply.Ok? ==> effect)
    case Update(_, _, _, _) => true
    case Claim(ids, now) => forall j :: j in ids ==> j in s.db.jobs && JobDue(s.db.jobs[j], now)
    case Archive(r, _, _, _, _, _) => r !in s.attempts
    case CleanDelete(rows, org, effect, ok) =>
      && (ok ==> effect)
      && forall a :: a in rows ==> a in s.db.archive && s.db.archive[a].snapshot.org == org
    case Mark(a, status, _) =>
      a in s.db.archive && (status.RowDeleted? ==> a in s.cleaned || s.db.archive[a].points == {})
    case ClaimCleanup(rows, now) => forall a :: a in rows ==> a in s.db.archive && RowDue(s.db.archive[a], now)
  }

  function PointsOfRows(d: Db, rows: set<nat>): set<PointId> {
    set a, p | a in rows && a in d.archive && p in d.archive[a].points :: p
  }

  function AfterCall(s: State, r: nat, effect: bool, reply: Reply, now: int): State
    requires r in s.attempts
  {
    var a := s.attempts[r];
    var d' := if effect then Effect(s.db, r, a, now) else s.db;
    var next := After(a, reply, s.db.nextChunk, s.db.nextJob);
    var gap' := if Settles(a, effect) then s.gap - {r}
                else if (next.None? || a.at == AtNoChunks) && Loses(d', r, a, effect) then s.gap + {r}
                else s.gap;
    s.(db := d', attempts := if next.Some? then s.attempts[r := next.value] else s.attempts - {r}, gap := gap')
  }

  function Next(s: State, l: Label): State
    requires Enabled(s, l)
  {
    match l
    case StartWrite(rec, texts) =>
      s.(db := InsertRecord(s.db, rec),
      attempts := s.attempts[s.db.nextRecord := Attempt(Write, AtCreateJob, rec.org, texts, map[], 0, 0, 0, 0)])
    case StartRefresh(r, texts) =>
      s.(attempts := s.attempts[r := Attempt(Refresh, AtReplace, s.db.records[r].org, texts, map[], 0, 0, 0, 0)])
    case StartSweep(j, tries, limit) =>
      var job := s.db.jobs[j];
      var loaded := TextsOf(s.db, job.record);
      var at := if loaded == map[] then AtNoChunks else AtEmbed;
      s.(attempts := s.attempts[job.record := Attempt(Sweep, at, job.org, [], loaded, j, tries, limit, 0)],
      gap := if JobGuards(job) then s.gap else s.gap + {job.record})
    case StartRestore(a, texts) =>
      var row := s.db.archive[a];
      var rec := row.snapshot.(sourceId := row.sourceId.value);
      s.(db := InsertRecord(s.db, rec),
      attempts := s.attempts[s.db.nextRecord := Attempt(Restore, AtInsertChunks, rec.org, texts, map[], 0, 0, 0, a)])
    case Call(r, effect, reply, now) => AfterCall(s, r, effect, reply, now)
    case Update(r, org, body, now) => s.(db := UpdateRecord(s.db, r, org, body, now))
    case Claim(ids, now) => s.(db := ClaimJobs(s.db, ids, now))
    case Archive(r, org, run, reason, planTime, now) =>
      s.(db := ArchiveRecord(s.db, r, org, run, reason, planTime, now))
    case CleanDelete(rows, org, effect, ok) =>
      s.(db := if effect then DeletePoints(s.db, PointsOfRows(s.db, rows), Some(org)) else s.db,
      cleaned := if ok then s.cleaned + rows else s.cleaned)
    case Mark(a, status, now) => s.(db := MarkRow(s.db, a, status, now))
    case ClaimCleanup(rows, now) => s.(db := ClaimRows(s.db, rows, now))
  }

  predicate Legal(s: State, ls: seq<Label>)
    decreases |ls|, 0
  {
    ls == [] || (Legal(s, ls[..|ls| - 1]) && Enabled(Run(s, ls[..|ls| - 1]), ls[|ls| - 1]))
  }

  function Run(s: State, ls: seq<Label>): State
    requires Legal(s, ls)
    decreases |ls|, 1
  {
    if ls == [] then s else Next(Run(s, ls[..|ls| - 1]), ls[|ls| - 1])
  }

  const EMPTY := State(Db(map[], map[], map[], map[], map[], 1, 1, 1, 1), map[], {}, {})
}
