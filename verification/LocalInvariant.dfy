/** What each phase of an attempt knows about its own record, and that every call keeps it. */
module LocalInvariant {
  import opened Common
  import opened Backoff
  import opened Store
  import opened Protocol
  import opened Slices

  // Chunk c has its point recorded, and the index holds that point with the chunk's text and organization.
  predicate Recorded(v: Slice, r: nat, c: nat)
    requires c in v.chunks
  {
    var chunk := v.chunks[c];
    && chunk.point.Some?
    && chunk.point.value.chunk == c
    && chunk.point.value in v.points
    && v.points[chunk.point.value] == Point(r, v.org, chunk.text)
  }

  /** The record's points in the index, its recorded point ids and its stored chunks correspond one to one. */
  ghost predicate Synced(v: Slice, r: nat) {
    && (forall c :: c in v.chunks ==> Recorded(v, r, c))
    && (forall p :: p in v.points ==> p.chunk in v.chunks && v.chunks[p.chunk].point == Some(p))
  }

  // Some ingest job will be retried, or has been given up on and left for an operator.
  ghost predicate Guarded(v: Slice) {
    exists j :: j in v.jobs && JobGuards(v.jobs[j])
  }

  ghost predicate Safe(v: Slice, r: nat) {
    Synced(v, r) || Guarded(v)
  }

  predicate Empty(v: Slice) {
    v.chunks == map[] && v.points == map[]
  }

  predicate HoldsChunks(v: Slice, loaded: map<nat, string>) {
    loaded == map c | c in v.chunks :: v.chunks[c].text
  }

  // A write, refresh or restore has stored its texts, one row each, and works on these rows.
  ghost predicate Stored(v: Slice, a: Attempt) {
    && HoldsChunks(v, a.loaded)
    && (a.kind == Sweep || (InOrder(v.chunks, a.texts) && (a.texts == [] <==> a.loaded == map[])))
  }

  // A restore has no ingest job, and records its points last; a write has one job, which nobody retries before its
  // write-ahead mark.
  predicate RowsSoFar(v: Slice, r: nat, a: Attempt) {
    && (a.kind == Restore || a.at == AtCreateJob ==> v.jobs == map[])
    && (a.kind == Write && a.at in {AtInsertChunks, AtMarkAhead} ==>
          v.jobs == map[a.job := Job(r, a.org, JobPending, 0, None, false)])
    && (a.kind == Restore && a.at in {AtEmbed, AtUpsert, AtLink} ==> forall c :: c in v.chunks ==> v.chunks[c].point.None?)
  }

  ghost predicate PhaseFacts(v: Slice, r: nat, a: Attempt) {
    && (a.kind == Restore || a.at in {AtCreateJob, AtReplace} || a.job in v.jobs)
    && RowsSoFar(v, r, a)
    && match a.at
       case AtCreateJob => a.kind == Write && Empty(v) && a.loaded == map[]
       case AtInsertChunks => a.kind in {Write, Restore} && Empty(v) && a.loaded == map[]
       case AtMarkAhead => a.kind == Write && Stored(v, a) && v.points == map[] && a.texts != []
       case AtEmbed => a.kind != Refresh && Stored(v, a) && (a.kind == Sweep || v.points == map[])
                       && (a.kind == Sweep ==> a.loaded != map[])
       case AtReplace => a.kind == Refresh
       case AtDeleteOld => a.kind in {Refresh, Sweep} && Stored(v, a) && (a.kind == Sweep ==> a.loaded != map[])
       case AtUpsert => Stored(v, a) && v.points == map[] && HasChunks(a)
       case AtLink => Stored(v, a) && v.points == PointsFor(a.kind, r, a.org, a.loaded) && HasChunks(a)
       case AtMarkDone => a.kind != Restore && Stored(v, a) && Synced(v, r) && HasChunks(a)
       case AtClose => a.kind in {Write, Refresh} && Stored(v, a) && Synced(v, r)
       case AtNoChunks => a.kind == Sweep && v.chunks == map[] && a.loaded == map[] && a.texts == []
       case AtMarkUnarchived => a.kind == Restore && Stored(v, a) && Synced(v, r)
                                && v.points == PointsFor(a.kind, r, a.org, a.loaded)
       case AtUnlink => a.kind == Refresh && Stored(v, a) && HasChunks(a)
       case AtRearm => a.kind in {Refresh, Sweep}
       case AtUndoPoints => a.kind in {Write, Restore} && Stored(v, a) && HasChunks(a)
       case AtUndoRecord => a.kind in {Write, Restore} && (!HasChunks(a) ==> Empty(v))
  }

  // Where the record must be synced or guarded although the attempt is still under way.
  ghost predicate PhaseSafe(v: Slice, r: nat, a: Attempt) {
    match a.kind
    case Write => a.at in {AtEmbed, AtUpsert, AtLink} && HasChunks(a) ==> Guarded(v)
    case Refresh =>
      if a.at in {AtReplace, AtRearm} then Safe(v, r)
      else a.at in {AtDeleteOld, AtUpsert, AtLink, AtUnlink} ==> Guarded(v)
    case Sweep =>
      if a.at == AtRearm then Safe(v, r)
      else a.at in {AtNoChunks, AtEmbed, AtDeleteOld, AtUpsert, AtLink} ==> Guarded(v)
    case Restore => true
  }

  ghost predicate LocalOk(v: Slice, r: nat, att: Option<Attempt>, lost: bool) {
    match att
    case None => lost || Safe(v, r)
    case Some(a) => a.org == v.org && PhaseFacts(v, r, a) && (lost || PhaseSafe(v, r, a))
  }

  function WithJob(v: Slice, j: nat, status: JobStatus, attempts: nat, retryAt: Option<int>): Slice {
    if j in v.jobs
    then v.(jobs := v.jobs[j := v.jobs[j].(status := status, attempts := attempts, retryAt := retryAt)])
    else v
  }

  function LocalRearmed(v: Slice, a: Attempt, now: int): Slice {
    if a.kind == Refresh then WithJob(v, a.job, JobPending, a.tries, Some(now + NextRetryDelayMs(a.tries)))
    else if a.tries + 1 >= a.limit then WithJob(v, a.job, JobFailed, a.tries + 1, None)
    else WithJob(v, a.job, JobPending, a.tries + 1, Some(now + NextRetryDelayMs(a.tries + 1)))
  }

  // Effect, seen on the record's own share. AtUndoRecord removes the record and is treated apart.
  function LocalEffect(v: Slice, r: nat, a: Attempt, now: int, nextChunk: nat, nextJob: nat): Slice {
    match a.at
    case AtCreateJob => v.(jobs := v.jobs[nextJob := Job(r, a.org, JobPending, 0, None, false)])
    case AtInsertChunks => v.(chunks := v.chunks + NewChunks(nextChunk, r, a.texts))
    case AtMarkAhead => WithJob(v, a.job, JobPending, 0, Some(now + NextRetryDelayMs(0)))
    case AtEmbed => v
    case AtReplace =>
      v.(chunks := NewChunks(nextChunk, r, a.texts),
      jobs := v.jobs[nextJob := Job(r, a.org, JobPending, 0, Some(now + NextRetryDelayMs(0)), false)])
    case AtDeleteOld => v.(points := map[])
    case AtUpsert => v.(points := v.points + PointsFor(a.kind, r, a.org, a.loaded))
    case AtLink => v.(chunks := Linked(v.chunks, LinksFor(a.kind, r, a.loaded)))
    case AtMarkDone => if a.job in v.jobs then WithJob(v, a.job, JobCompleted, v.jobs[a.job].attempts, None) else v
    case AtClose => if a.job in v.jobs then v.(jobs := v.jobs[a.job := v.jobs[a.job].(closed := true)]) else v
    case AtNoChunks => if a.job in v.jobs then WithJob(v, a.job, JobCompleted, v.jobs[a.job].attempts, None) else v
    case AtMarkUnarchived => v
    case AtUnlink => v.(points := Remaining(v.points, PointsFor(a.kind, r, a.org, a.loaded).Keys, Some(a.org)))
    case AtRearm => LocalRearmed(v, a, now)
    case AtUndoPoints =>
      v.(points := Remaining(v.points, PointsFor(a.kind, r, a.org, a.loaded).Keys, if a.kind == Write then None else Some(a.org)))
    case AtUndoRecord => v
  }

  // Loses, seen on the record's own share.
  predicate LosesLocal(v': Slice, a: Attempt, effect: bool) {
    match a.kind
    case Write =>
      && HasChunks(a)
      && ((a.at == AtInsertChunks && effect) || (a.at == AtMarkAhead && !effect)
          || (a.at in {AtUndoPoints, AtUndoRecord} && !(a.job in v'.jobs && JobGuards(v'.jobs[a.job]))))
    case Restore =>
      && HasChunks(a)
      && ((a.at == AtInsertChunks && effect) || (a.at == AtLink && !effect)
          || a.at in {AtEmbed, AtUpsert, AtUndoPoints, AtUndoRecord})
    case Sweep => a.at == AtNoChunks && effect && v'.points != map[]
    case Refresh => false
  }

  predicate LostAfter(lost: bool, v': Slice, a: Attempt, next: Option<Attempt>, effect: bool) {
    !Settles(a, effect) && (lost || ((next.None? || a.at == AtNoChunks) && LosesLocal(v', a, effect)))
  }

  // ----- the transitions that carry content -----

  lemma NewRowsHold(nextChunk: nat, r: nat, texts: seq<string>)
    ensures NewTexts(nextChunk, texts) == map c | c in NewChunks(nextChunk, r, texts) :: NewChunks(nextChunk, r, texts)[c].text
    ensures texts == [] <==> NewTexts(nextChunk, texts) == map[]
    ensures InOrder(NewChunks(nextChunk, r, texts), texts)
  {
    if texts != [] { assert nextChunk in NewTexts(nextChunk, texts); }
    assert InOrderFrom(NewChunks(nextChunk, r, texts), texts, nextChunk);
  }

  lemma LinkingKeepsOrder(chunks: map<nat, Chunk>, links: map<nat, PointId>, texts: seq<string>)
    requires InOrder(chunks, texts)
    ensures InOrder(Linked(chunks, links), texts)
  {
    var from: nat :| InOrderFrom(chunks, texts, from);
    assert InOrderFrom(Linked(chunks, links), texts, from);
  }

  // Recording the points just upserted for the loaded chunks brings the record in step with the index.
  lemma LinkSyncs(v: Slice, r: nat, a: Attempt)
    requires HoldsChunks(v, a.loaded) && v.points == PointsFor(a.kind, r, a.org, a.loaded) && a.org == v.org
    ensures Synced(v.(chunks := Linked(v.chunks, LinksFor(a.kind, r, a.loaded))), r)
  {
    var v' := v.(chunks := Linked(v.chunks, LinksFor(a.kind, r, a.loaded)));
    forall c | c in v'.chunks ensures Recorded(v', r, c) {
      assert PidOf(a.kind, r, c) in PointsFor(a.kind, r, a.org, a.loaded);
    }
    forall p | p in v'.points ensures p.chunk in v'.chunks && v'.chunks[p.chunk].point == Some(p) {
      var c :| c in a.loaded && p == PidOf(a.kind, r, c);
    }
  }

  lemma LinkingKeepsTexts(v: Slice, links: map<nat, PointId>, loaded: map<nat, string>)
    requires HoldsChunks(v, loaded)
    ensures HoldsChunks(v.(chunks := Linked(v.chunks, links)), loaded)
  {
  }

  lemma UpsertFills(v: Slice, r: nat, a: Attempt)
    requires v.points == map[]
    ensures v.points + PointsFor(a.kind, r, a.org, a.loaded) == PointsFor(a.kind, r, a.org, a.loaded)
  {
  }

  lemma EmptySyncs(v: Slice, r: nat)
    requires Empty(v)
    ensures Synced(v, r)
  {
  }

  lemma JobGuardsSlice(v: Slice, j: nat)
    requires j in v.jobs && JobGuards(v.jobs[j])
    ensures Guarded(v)
  {
  }

  lemma SyncedWithoutChunks(v: Slice, r: nat, loaded: map<nat, string>)
    requires Synced(v, r) && HoldsChunks(v, loaded) && loaded == map[]
    ensures Empty(v)
  {
  }

  // What depends on the chunks or the jobs alone survives a change elsewhere.
  lemma Kept(v: Slice, v': Slice, a: Attempt)
    ensures v'.chunks == v.chunks ==> (HoldsChunks(v', a.loaded) <==> HoldsChunks(v, a.loaded))
    ensures v'.jobs == v.jobs ==> (Guarded(v') <==> Guarded(v))
  {
  }

  ghost predicate CallAllowed(v: Slice, r: nat, a: Attempt, lost: bool, effect: bool, reply: Reply, nextChunk: nat, nextJob: nat) {
    && LocalOk(v, r, Some(a), lost)
    && (reply.Ok? ==> effect)
    && nextJob !in v.jobs
    && !(effect && a.at == AtUndoRecord)
  }

  ghost predicate CallKeeps(
    v: Slice, r: nat, a: Attempt, lost: bool, effect: bool, reply: Reply, now: int, nextChunk: nat, nextJob: nat) {
    var v' := if effect then LocalEffect(v, r, a, now, nextChunk, nextJob) else v;
    var next := After(a, reply, nextChunk, nextJob);
    LocalOk(v', r, next, LostAfter(lost, v', a, next, effect))
  }

  // Jobs gained, marks set or a guard moved: none of them can unsync a record.
  lemma SyncedIgnoresJobs(v: Slice, r: nat, jobs: map<nat, Job>)
    ensures Synced(v.(jobs := jobs), r) <==> Synced(v, r)
  {
    assert forall c :: c in v.chunks ==> (Recorded(v, r, c) <==> Recorded(v.(jobs := jobs), r, c));
  }

  lemma CreateJobKeeps(
    v: Slice, r: nat, a: Attempt, lost: bool, effect: bool, reply: Reply, now: int, nextChunk: nat, nextJob: nat)
    requires a.at == AtCreateJob
    requires CallAllowed(v, r, a, lost, effect, reply, nextChunk, nextJob)
    ensures CallKeeps(v, r, a, lost, effect, reply, now, nextChunk, nextJob)
  {
    var v' := if effect then LocalEffect(v, r, a, now, nextChunk, nextJob) else v;
    EmptySyncs(v', r);
  }

  lemma InsertChunksKeeps(
    v: Slice, r: nat, a: Attempt, lost: bool, effect: bool, reply: Reply, now: int, nextChunk: nat, nextJob: nat)
    requires a.at == AtInsertChunks
    requires CallAllowed(v, r, a, lost, effect, reply, nextChunk, nextJob)
    ensures CallKeeps(v, r, a, lost, effect, reply, now, nextChunk, nextJob)
  {
    hide Synced, Guarded, InOrder;
    var v' := if effect then LocalEffect(v, r, a, now, nextChunk, nextJob) else v;
    NewRowsHold(nextChunk, r, a.texts);
    if effect {
      assert v'.chunks == NewChunks(nextChunk, r, a.texts);
      assert NewTexts(nextChunk, a.texts) == map c | c in v'.chunks :: v'.chunks[c].text;
    }
    if !effect || a.texts == [] { EmptySyncs(v', r); }
  }

  lemma MarkAheadKeeps(
    v: Slice, r: nat, a: Attempt, lost: bool, effect: bool, reply: Reply, now: int, nextChunk: nat, nextJob: nat)
    requires a.at == AtMarkAhead
    requires CallAllowed(v, r, a, lost, effect, reply, nextChunk, nextJob)
    ensures CallKeeps(v, r, a, lost, effect, reply, now, nextChunk, nextJob)
  {
    var v' := if effect then LocalEffect(v, r, a, now, nextChunk, nextJob) else v;
    if effect { JobGuardsSlice(v', a.job); }
  }

  lemma EmbedKeeps(
    v: Slice, r: nat, a: Attempt, lost: bool, effect: bool, reply: Reply, now: int, nextChunk: nat, nextJob: nat)
    requires a.at == AtEmbed
    requires CallAllowed(v, r, a, lost, effect, reply, nextChunk, nextJob)
    ensures CallKeeps(v, r, a, lost, effect, reply, now, nextChunk, nextJob)
  {
    hide Synced, Guarded, InOrder;
    var v' := if effect then LocalEffect(v, r, a, now, nextChunk, nextJob) else v;
    Kept(v, v', a);
    if !HasChunks(a) { EmptySyncs(v', r); }
  }

  lemma ReplaceKeeps(
    v: Slice, r: nat, a: Attempt, lost: bool, effect: bool, reply: Reply, now: int, nextChunk: nat, nextJob: nat)
    requires a.at == AtReplace
    requires CallAllowed(v, r, a, lost, effect, reply, nextChunk, nextJob)
    ensures CallKeeps(v, r, a, lost, effect, reply, now, nextChunk, nextJob)
  {
    hide Synced, Guarded, InOrder, NewTexts, NewChunks;
    var v' := if effect then LocalEffect(v, r, a, now, nextChunk, nextJob) else v;
    NewRowsHold(nextChunk, r, a.texts);
    if effect { JobGuardsSlice(v', nextJob); }
  }

  lemma DeleteOldKeeps(
    v: Slice, r: nat, a: Attempt, lost: bool, effect: bool, reply: Reply, now: int, nextChunk: nat, nextJob: nat)
    requires a.at == AtDeleteOld
    requires CallAllowed(v, r, a, lost, effect, reply, nextChunk, nextJob)
    ensures CallKeeps(v, r, a, lost, effect, reply, now, nextChunk, nextJob)
  {
    hide Synced, Guarded, InOrder;
    var v' := if effect then LocalEffect(v, r, a, now, nextChunk, nextJob) else v;
    Kept(v, v', a);
    if !HasChunks(a) && effect { EmptySyncs(v', r); }
  }

  lemma UpsertKeeps(
    v: Slice, r: nat, a: Attempt, lost: bool, effect: bool, reply: Reply, now: int, nextChunk: nat, nextJob: nat)
    requires a.at == AtUpsert
    requires CallAllowed(v, r, a, lost, effect, reply, nextChunk, nextJob)
    ensures CallKeeps(v, r, a, lost, effect, reply, now, nextChunk, nextJob)
  {
    hide Synced, HoldsChunks, PointsFor, Guarded, InOrder;
    var v' := if effect then LocalEffect(v, r, a, now, nextChunk, nextJob) else v;
    Kept(v, v', a);
    if effect { UpsertFills(v, r, a); }
    match reply {
      case Ok =>
      case Error =>
      case Crash =>
    }
  }

  lemma LinkKeeps(
    v: Slice, r: nat, a: Attempt, lost: bool, effect: bool, reply: Reply, now: int, nextChunk: nat, nextJob: nat)
    requires a.at == AtLink
    requires CallAllowed(v, r, a, lost, effect, reply, nextChunk, nextJob)
    ensures CallKeeps(v, r, a, lost, effect, reply, now, nextChunk, nextJob)
  {
    hide Synced, HoldsChunks, PointsFor, LinksFor, Linked, Guarded, InOrder;
    var v' := if effect then LocalEffect(v, r, a, now, nextChunk, nextJob) else v;
    LinkSyncs(v, r, a);
    LinkingKeepsTexts(v, LinksFor(a.kind, r, a.loaded), a.loaded);
    if a.kind != Sweep { LinkingKeepsOrder(v.chunks, LinksFor(a.kind, r, a.loaded), a.texts); }
    Kept(v, v', a);
    assert v'.jobs == v.jobs && v'.org == v.org;
    match reply {
      case Ok =>
      case Error =>
      case Crash =>
    }
  }

  lemma MarkDoneKeeps(
    v: Slice, r: nat, a: Attempt, lost: bool, effect: bool, reply: Reply, now: int, nextChunk: nat, nextJob: nat)
    requires a.at == AtMarkDone
    requires CallAllowed(v, r, a, lost, effect, reply, nextChunk, nextJob)
    ensures CallKeeps(v, r, a, lost, effect, reply, now, nextChunk, nextJob)
  {
    hide Synced, HoldsChunks, InOrder;
    var v' := if effect then LocalEffect(v, r, a, now, nextChunk, nextJob) else v;
    Kept(v, v', a);
    SyncedIgnoresJobs(v, r, v'.jobs);
  }

  lemma CloseKeeps(
    v: Slice, r: nat, a: Attempt, lost: bool, effect: bool, reply: Reply, now: int, nextChunk: nat, nextJob: nat)
    requires a.at == AtClose
    requires CallAllowed(v, r, a, lost, effect, reply, nextChunk, nextJob)
    ensures CallKeeps(v, r, a, lost, effect, reply, now, nextChunk, nextJob)
  {
    hide Synced, HoldsChunks, InOrder;
    var v' := if effect then LocalEffect(v, r, a, now, nextChunk, nextJob) else v;
    Kept(v, v', a);
    SyncedIgnoresJobs(v, r, v'.jobs);
    if !HasChunks(a) { SyncedWithoutChunks(v, r, a.loaded); }
  }

  lemma NoChunksKeeps(
    v: Slice, r: nat, a: Attempt, lost: bool, effect: bool, reply: Reply, now: int, nextChunk: nat, nextJob: nat)
    requires a.at == AtNoChunks
    requires CallAllowed(v, r, a, lost, effect, reply, nextChunk, nextJob)
    ensures CallKeeps(v, r, a, lost, effect, reply, now, nextChunk, nextJob)
  {
    var v' := if effect then LocalEffect(v, r, a, now, nextChunk, nextJob) else v;
    if v.points == map[] { EmptySyncs(v', r); }
  }

  lemma UnlinkKeeps(
    v: Slice, r: nat, a: Attempt, lost: bool, effect: bool, reply: Reply, now: int, nextChunk: nat, nextJob: nat)
    requires a.at == AtUnlink || a.at == AtMarkUnarchived
    requires CallAllowed(v, r, a, lost, effect, reply, nextChunk, nextJob)
    ensures CallKeeps(v, r, a, lost, effect, reply, now, nextChunk, nextJob)
  {
    hide Synced, HoldsChunks, PointsFor, Guarded, InOrder;
    var v' := if effect then LocalEffect(v, r, a, now, nextChunk, nextJob) else v;
    Kept(v, v', a);
    if a.at == AtMarkUnarchived && !HasChunks(a) {
      SyncedWithoutChunks(v, r, a.loaded);
    }
  }

  lemma RearmKeeps(
    v: Slice, r: nat, a: Attempt, lost: bool, effect: bool, reply: Reply, now: int, nextChunk: nat, nextJob: nat)
    requires a.at == AtRearm
    requires CallAllowed(v, r, a, lost, effect, reply, nextChunk, nextJob)
    ensures CallKeeps(v, r, a, lost, effect, reply, now, nextChunk, nextJob)
  {
    var v' := if effect then LocalEffect(v, r, a, now, nextChunk, nextJob) else v;
    if effect { JobGuardsSlice(v', a.job); }
  }

  lemma UndoKeeps(
    v: Slice, r: nat, a: Attempt, lost: bool, effect: bool, reply: Reply, now: int, nextChunk: nat, nextJob: nat)
    requires a.at == AtUndoPoints || a.at == AtUndoRecord
    requires CallAllowed(v, r, a, lost, effect, reply, nextChunk, nextJob)
    ensures CallKeeps(v, r, a, lost, effect, reply, now, nextChunk, nextJob)
  {
    hide Synced, HoldsChunks, PointsFor, Guarded, InOrder;
    var v' := if effect then LocalEffect(v, r, a, now, nextChunk, nextJob) else v;
    Kept(v, v', a);
    if !HasChunks(a) { EmptySyncs(v', r); }
    if a.job in v'.jobs && JobGuards(v'.jobs[a.job]) { JobGuardsSlice(v', a.job); }
  }

  // Every call of every attempt keeps what the phases know, whatever its outcome.
  lemma CallKeepsLocal(
    v: Slice, r: nat, a: Attempt, lost: bool, effect: bool, reply: Reply, now: int, nextChunk: nat, nextJob: nat)
    requires CallAllowed(v, r, a, lost, effect, reply, nextChunk, nextJob)
    ensures CallKeeps(v, r, a, lost, effect, reply, now, nextChunk, nextJob)
  {
    match a.at
    case AtCreateJob => CreateJobKeeps(v, r, a, lost, effect, reply, now, nextChunk, nextJob);
    case AtInsertChunks => InsertChunksKeeps(v, r, a, lost, effect, reply, now, nextChunk, nextJob);
    case AtMarkAhead => MarkAheadKeeps(v, r, a, lost, effect, reply, now, nextChunk, nextJob);
    case AtEmbed => EmbedKeeps(v, r, a, lost, effect, reply, now, nextChunk, nextJob);
    case AtReplace => ReplaceKeeps(v, r, a, lost, effect, reply, now, nextChunk, nextJob);
    case AtDeleteOld => DeleteOldKeeps(v, r, a, lost, effect, reply, now, nextChunk, nextJob);
    case AtUpsert => UpsertKeeps(v, r, a, lost, effect, reply, now, nextChunk, nextJob);
    case AtLink => LinkKeeps(v, r, a, lost, effect, reply, now, nextChunk, nextJob);
    case AtMarkDone => MarkDoneKeeps(v, r, a, lost, effect, reply, now, nextChunk, nextJob);
    case AtClose => CloseKeeps(v, r, a, lost, effect, reply, now, nextChunk, nextJob);
    case AtNoChunks => NoChunksKeeps(v, r, a, lost, effect, reply, now, nextChunk, nextJob);
    case AtMarkUnarchived => UnlinkKeeps(v, r, a, lost, effect, reply, now, nextChunk, nextJob);
    case AtUnlink => UnlinkKeeps(v, r, a, lost, effect, reply, now, nextChunk, nextJob);
    case AtRearm => RearmKeeps(v, r, a, lost, effect, reply, now, nextChunk, nextJob);
    case AtUndoPoints => UndoKeeps(v, r, a, lost, effect, reply, now, nextChunk, nextJob);
    case AtUndoRecord => UndoKeeps(v, r, a, lost, effect, reply, now, nextChunk, nextJob);
  }
}
