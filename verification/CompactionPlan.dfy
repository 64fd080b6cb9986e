/** buildCompactionPlan and collectArchiveCandidates: which records a compaction run may archive. */
module CompactionPlan {
  import opened Common
  import opened Sorting
  import opened Store
  import opened Duplicates
  import opened Semantic

  // ----- loading -----

  datatype StoredItem = StoredItem(
    item: Item, org: string, scopeType: string, scopeId: string, archived: bool, goalRun: Option<nat>)

  predicate NewestFirst(a: StoredItem, b: StoredItem) {
    b.item.id <= a.item.id
  }

  // The WHERE clause of listMemory; active holds the ids of the goal runs that are active at load time.
  predicate Listed(x: StoredItem, org: Option<string>, scopeType: string, scopeId: string, excludePinned: bool, active: set<nat>) {
    && x.scopeType == scopeType && x.scopeId == scopeId && (org.None? || x.org == org.value) && !x.archived
    && (excludePinned ==> x.goalRun.None? || x.goalRun.value !in active)
  }

  function Filtered(
    rows: seq<StoredItem>, org: Option<string>, scopeType: string, scopeId: string, excludePinned: bool, active: set<nat>)
    : seq<StoredItem>
  {
    if rows == [] then []
    else
      var last := rows[|rows| - 1];
      Filtered(rows[..|rows| - 1], org, scopeType, scopeId, excludePinned, active)
      + if Listed(last, org, scopeType, scopeId, excludePinned, active) then [last] else []
  }

  function ListMemory(
    rows: seq<StoredItem>, org: Option<string>, scopeType: string, scopeId: string, limit: nat, excludePinned: bool,
    active: set<nat>)
    : seq<StoredItem>
  {
    var all := SortBy(Filtered(rows, org, scopeType, scopeId, excludePinned, active), NewestFirst);
    if |all| <= limit then all else all[..limit]
  }

  lemma {:induction false} FilteredAre(
    rows: seq<StoredItem>, org: Option<string>, scopeType: string, scopeId: string, excludePinned: bool, active: set<nat>)
    ensures forall x :: x in Filtered(rows, org, scopeType, scopeId, excludePinned, active)
                        <==> x in rows && Listed(x, org, scopeType, scopeId, excludePinned, active)
  {
    if rows != [] {
      FilteredAre(rows[..|rows| - 1], org, scopeType, scopeId, excludePinned, active);
      assert rows == rows[..|rows| - 1] + [rows[|rows| - 1]];
    }
  }

  /** A compaction load holds no record pinned to a goal run that is active when it is loaded. */
  lemma NoPinnedLoaded(
    rows: seq<StoredItem>, org: Option<string>, scopeType: string, scopeId: string, limit: nat, active: set<nat>, x: StoredItem)
    requires x in ListMemory(rows, org, scopeType, scopeId, limit, true, active)
    ensures x in rows && x.scopeType == scopeType && x.scopeId == scopeId && !x.archived
    ensures org.Some? ==> x.org == org.value
    ensures x.goalRun.Some? ==> x.goalRun.value !in active
  {
    FilteredAre(rows, org, scopeType, scopeId, true, active);
    assert TotalPreorder(NewestFirst);
    SortByIsSorted(Filtered(rows, org, scopeType, scopeId, true, active), NewestFirst);
  }

  /** A row of the scope is left out of a load only if it is archived or pinned, or newer ones fill the limit. */
  lemma LeftOutOfLoad(
    rows: seq<StoredItem>, org: Option<string>, scopeType: string, scopeId: string, limit: nat, excludePinned: bool,
    active: set<nat>, x: StoredItem, y: StoredItem)
    requires
      var loaded := ListMemory(rows, org, scopeType, scopeId, limit, excludePinned, active);
      x in rows && x !in loaded && y in loaded
    requires x.scopeType == scopeType && x.scopeId == scopeId && !x.archived && (org.Some? ==> x.org == org.value)
    requires excludePinned && x.goalRun.Some? ==> x.goalRun.value !in active
    ensures |ListMemory(rows, org, scopeType, scopeId, limit, excludePinned, active)| == limit && x.item.id <= y.item.id
  {
    var found := Filtered(rows, org, scopeType, scopeId, excludePinned, active);
    FilteredAre(rows, org, scopeType, scopeId, excludePinned, active);
    assert TotalPreorder(NewestFirst);
    SortByIsSorted(found, NewestFirst);
    var all := SortBy(found, NewestFirst);
    assert x in multiset(all);
    var loaded := ListMemory(rows, org, scopeType, scopeId, limit, excludePinned, active);
    var i, k :| 0 <= i < |all| && 0 <= k < |loaded| && all[i] == x && loaded[k] == y;
    assert forall m :: 0 <= m < |loaded| ==> loaded[m] == all[m] && loaded[m] != x;
    assert |loaded| <= i;
  }

  // ----- decay -----

  datatype Scored = Scored(item: Item, score: real)

  predicate MostDecayedFirst(a: Scored, b: Scored) {
    a.score <= b.score
  }

  function Below(records: seq<Item>, scoreOf: Item -> real, threshold: real): seq<Scored> {
    if records == [] then []
    else
      var last := records[|records| - 1];
      Below(records[..|records| - 1], scoreOf, threshold)
      + if scoreOf(last) < threshold then [Scored(last, scoreOf(last))] else []
  }

  // findDecayCandidates, decayScore being any function of the record.
  method FindDecayCandidates(records: seq<Item>, scoreOf: Item -> real, threshold: real) returns (r: seq<Scored>)
    ensures r == SortBy(Below(records, scoreOf, threshold), MostDecayedFirst)
    ensures forall i, k :: 0 <= i < k < |r| ==> r[i].score <= r[k].score
    ensures forall x :: x in r <==> x.item in records && x.score == scoreOf(x.item) && x.score < threshold
  {
    r := [];
    var i := 0;
    while i < |records|
      invariant 0 <= i <= |records| && r == Below(records[..i], scoreOf, threshold)
    {
      assert records[..i + 1][..i] == records[..i];
      var score := scoreOf(records[i]);
      if score < threshold { r := r + [Scored(records[i], score)]; }
      i := i + 1;
    }
    assert records[..i] == records;
    BelowAre(records, scoreOf, threshold);
    assert TotalPreorder(MostDecayedFirst);
    SortByIsSorted(r, MostDecayedFirst);
    r := SortBy(r, MostDecayedFirst);
  }

  lemma {:induction false} BelowAre(records: seq<Item>, scoreOf: Item -> real, threshold: real)
    ensures forall x :: x in Below(records, scoreOf, threshold)
                        <==> x.item in records && x.score == scoreOf(x.item) && x.score < threshold
  {
    if records != [] {
      BelowAre(records[..|records| - 1], scoreOf, threshold);
      assert records == records[..|records| - 1] + [records[|records| - 1]];
    }
  }

  // ----- groups -----

  ghost predicate DistinctIds(records: seq<Item>) {
    forall i, k :: 0 <= i < k < |records| ==> records[i].id != records[k].id
  }

  // Every record is in at most one group, and the kept one does not come after the others.
  ghost predicate GroupsFit(records: seq<Item>, groups: seq<Group>) {
    && (forall g, x :: g in groups && x in Members(g) ==> x in records)
    && (forall g :: g in groups ==> DistinctIds(Members(g)))
    && (forall i, k, x, y :: 0 <= i < k < |groups| && x in Members(groups[i]) && y in Members(groups[k]) ==> x.id != y.id)
    && (forall g, x :: g in groups && x in g.archive ==> Precedes(g.keep, x))
  }

  lemma OnceOnly(records: seq<Item>, x: Item, y: Item)
    requires DistinctIds(records) && x in records && y in records
    ensures x.id == y.id ==> x == y
  {
    var i, k :| 0 <= i < |records| && 0 <= k < |records| && records[i] == x && records[k] == y;
  }

  lemma {:induction false} CountOnce(records: seq<Item>, x: Item)
    requires DistinctIds(records)
    ensures multiset(records)[x] <= 1
  {
    if records != [] {
      var init, last := records[..|records| - 1], records[|records| - 1];
      CountOnce(init, x);
      assert records == init + [last];
      forall y | y in init ensures y != last {
        var i :| 0 <= i < |init| && init[i] == y;
      }
    }
  }

  lemma {:induction false} MembersInFlat(clusters: Clusters)
    ensures forall g, x :: g in GroupsOf(clusters) && x in Members(g) ==> x in Flat(clusters)
  {
    if clusters != [] {
      MembersInFlat(clusters[..|clusters| - 1]);
      if 2 <= |clusters[|clusters| - 1]| { KeepRule(clusters[|clusters| - 1]); }
    }
  }

  // Group g is made of records that no group of gs has a member of.
  ghost predicate Joins(records: seq<Item>, gs: seq<Group>, g: Group) {
    && DistinctIds(Members(g)) && (forall x :: x in Members(g) ==> x in records)
    && (forall x :: x in g.archive ==> Precedes(g.keep, x))
    && (forall h, x, y :: h in gs && x in Members(h) && y in Members(g) ==> x.id != y.id)
  }

  lemma AppendGroup(records: seq<Item>, gs: seq<Group>, g: Group)
    requires GroupsFit(records, gs) && Joins(records, gs, g)
    ensures GroupsFit(records, gs + [g])
  {
    hide DistinctIds, Precedes, Members;
    forall i, k, x, y | 0 <= i < k < |gs + [g]| && x in Members((gs + [g])[i]) && y in Members((gs + [g])[k])
      ensures x.id != y.id
    {
      assert (gs + [g])[i] == gs[i];
    }
  }

  // The groups of a partition of some of the records fit.
  lemma {:induction false} PartitionGroupsFit(records: seq<Item>, clusters: Clusters)
    requires DistinctIds(records) && Flat(clusters) <= multiset(records)
    ensures GroupsFit(records, GroupsOf(clusters))
  {
    hide GroupsFit, DistinctIds, Joins;
    if clusters == [] {
      NoGroupsFit(records);
    } else {
      var init, last := clusters[..|clusters| - 1], clusters[|clusters| - 1];
      PartitionGroupsFit(records, init);
      if 2 <= |last| {
        LastGroupFits(records, init, last);
        AppendGroup(records, GroupsOf(init), GroupOf(last));
      } else {
        assert GroupsOf(clusters) == GroupsOf(init);
      }
    }
  }

  lemma NoGroupsFit(records: seq<Item>)
    ensures GroupsFit(records, [])
  {
  }

  lemma LastGroupFits(records: seq<Item>, init: Clusters, last: seq<Item>)
    requires DistinctIds(records) && 2 <= |last| && Flat(init) + multiset(last) <= multiset(records)
    ensures Joins(records, GroupsOf(init), GroupOf(last))
  {
    KeepRule(last);
    MembersInFlat(init);
    var g := GroupOf(last);
    hide GroupOf, Flat, Precedes, DistinctIds, Members, GroupsOf;
    forall x | x in multiset(last) || x in Flat(init) ensures x in records {
      assert x in multiset(records);
    }
    forall x | x in Members(g) ensures x in records {
      assert x in multiset(last);
    }
    MembersDistinct(records, Members(g));
    NoneShared(records, Flat(init), Members(g));
    forall x | x in g.archive ensures Precedes(g.keep, x) {
      assert x in Members(g) by { ArchiveIsMember(g, x); }
    }
  }

  lemma NoneShared(records: seq<Item>, flat: multiset<Item>, members: seq<Item>)
    requires DistinctIds(records) && flat + multiset(members) <= multiset(records)
    ensures forall x, y :: x in flat && y in members ==> x.id != y.id
  {
    forall x, y | x in flat && y in members ensures x.id != y.id {
      assert x in multiset(records) && y in multiset(members) && y in multiset(records);
      CountOnce(records, x);
      OnceOnly(records, x, y);
    }
  }

  lemma ArchiveIsMember(g: Group, x: Item)
    requires x in g.archive
    ensures x in Members(g)
  {
  }

  lemma MembersDistinct(records: seq<Item>, s: seq<Item>)
    requires DistinctIds(records) && multiset(s) <= multiset(records)
    ensures DistinctIds(s)
  {
    forall i, k | 0 <= i < k < |s| ensures s[i].id != s[k].id {
      assert s[i] in multiset(s) && s[k] in multiset(s);
      OnceOnly(records, s[i], s[k]);
      TwiceCounts(s, i, k);
      CountOnce(records, s[i]);
    }
  }

  // Where a record goes in the Map of findExactContentDuplicates.
  lemma OneMoreRecord(records: seq<Item>, normalize: string -> string) returns (at: Option<nat>)
    requires records != []
    ensures var init, last := records[..|records| - 1], records[|records| - 1];
            && (at.Some? ==> at.value < |Classes(init, normalize)|)
            && Classes(records, normalize) == Placed(Classes(init, normalize), last, at)
  {
    var init, last := records[..|records| - 1], records[|records| - 1];
    var keys, key := KeysOf(init, normalize), normalize(last.content);
    KeysAreDistinct(init, normalize);
    assert KeysOf(records, normalize) == if key in keys then keys else keys + [key];
    forall k | 0 <= k < |keys|
      ensures ClassOf(records, normalize, keys[k]) == ClassOf(init, normalize, keys[k]) + if keys[k] == key then [last] else []
    {
    }
    at := None;
    if key in keys {
      var k :| 0 <= k < |keys| && keys[k] == key;
      at := Some(k);
    } else {
      NoClassYet(init, normalize, key);
      assert ClassOf(records, normalize, key) == [last];
    }
    hide ClassOf, KeysOf;
    var after, placed := Classes(records, normalize), Placed(Classes(init, normalize), last, at);
    assert |after| == |placed|;
    forall k | 0 <= k < |after| ensures after[k] == placed[k] {
    }
  }

  lemma {:induction false} NoClassYet(records: seq<Item>, normalize: string -> string, key: string)
    requires key !in KeysOf(records, normalize)
    ensures ClassOf(records, normalize, key) == []
  {
    if records != [] {
      NoClassYet(records[..|records| - 1], normalize, key);
    }
  }

  lemma {:induction false} ClassesPartition(records: seq<Item>, normalize: string -> string)
    ensures Flat(Classes(records, normalize)) == multiset(records)
  {
    hide Placed, Classes;
    if records == [] {
      NoClasses(normalize);
    } else {
      var init := records[..|records| - 1];
      ClassesPartition(init, normalize);
      var at := OneMoreRecord(records, normalize);
      FlatOfPlaced(Classes(init, normalize), records[|records| - 1], at);
      assert records == init + [records[|records| - 1]];
    }
  }

  lemma NoClasses(normalize: string -> string)
    ensures Classes([], normalize) == []
  {
  }

  lemma {:induction false} EmbeddedAreRecords(records: seq<Item>, emb: Embeddings)
    ensures multiset(Embedded(records, emb)) <= multiset(records)
  {
    if records != [] {
      EmbeddedAreRecords(records[..|records| - 1], emb);
      assert records == records[..|records| - 1] + [records[|records| - 1]];
    }
  }

  /** Both detectors put every record in at most one group, behind a record of at least its importance. */
  lemma BothDetectorsFit(
    records: seq<Item>, normalize: string -> string, emb: Embeddings, threshold: real, root: real -> real)
    requires DistinctIds(records)
    ensures GroupsFit(records, GroupsOf(Classes(records, normalize)))
    ensures Clustered(records, emb, threshold, root).Success? ==>
      GroupsFit(records, GroupsOf(Clustered(records, emb, threshold, root).value))
  {
    hide GroupsFit, Flat, Greedy, Clustered, Classes;
    ClassesPartition(records, normalize);
    PartitionGroupsFit(records, Classes(records, normalize));
    if Clustered(records, emb, threshold, root).Success? {
      ClustersPartition(records, emb, threshold, root);
      EmbeddedAreRecords(records, emb);
      PartitionGroupsFit(records, Clustered(records, emb, threshold, root).value);
    }
  }

  // ----- candidates -----

  predicate ArchivedBy(groups: seq<Group>, id: nat, kept: nat) {
    exists g :: g in groups && g.keep.id == kept && exists x :: x in g.archive && x.id == id
  }

  predicate Archived(groups: seq<Group>, id: nat) {
    exists g :: g in groups && exists x :: x in g.archive && x.id == id
  }

  // What each candidate is based on.
  ghost predicate Grounded(groups: seq<Group>, decays: seq<Scored>, c: Candidate) {
    match c.reason
    case Duplicate(kept) => ArchivedBy(groups, c.record, kept)
    case Decay(score) => !Archived(groups, c.record) && exists d :: d in decays && d.item.id == c.record && d.score == score
  }

  ghost predicate DistinctRecords(cs: seq<Candidate>) {
    forall i, k :: 0 <= i < k < |cs| ==> cs[i].record != cs[k].record
  }

  ghost predicate Has(cs: seq<Candidate>, id: nat) {
    exists c :: c in cs && c.record == id
  }

  // The first loop of collectArchiveCandidates: the groups, one archived id after the other.
  method CollectDuplicates(groups: seq<Group>) returns (cs: seq<Candidate>, seen: set<nat>)
    ensures DistinctRecords(cs) && forall id :: id in seen <==> Has(cs, id)
    ensures forall c :: c in cs ==> c.reason.Duplicate? && ArchivedBy(groups, c.record, c.reason.kept)
    ensures forall g, x :: g in groups && x in g.archive ==> Has(cs, x.id)
  {
    cs, seen := [], {};
    var i := 0;
    while i < |groups|
      invariant 0 <= i <= |groups|
      invariant DistinctRecords(cs) && forall id :: id in seen <==> Has(cs, id)
      invariant forall c :: c in cs ==> c.reason.Duplicate? && ArchivedBy(groups, c.record, c.reason.kept)
      invariant forall k, x :: 0 <= k < i && x in groups[k].archive ==> Has(cs, x.id)
    {
      ghost var before := cs;
      cs, seen := CollectGroup(groups, i, cs, seen);
      i := i + 1;
    }
  }

  method CollectGroup(groups: seq<Group>, i: nat, cs0: seq<Candidate>, seen0: set<nat>)
    returns (cs: seq<Candidate>, seen: set<nat>)
    requires i < |groups| && DistinctRecords(cs0) && forall id :: id in seen0 <==> Has(cs0, id)
    requires forall c :: c in cs0 ==> c.reason.Duplicate? && ArchivedBy(groups, c.record, c.reason.kept)
    ensures DistinctRecords(cs) && forall id :: id in seen <==> Has(cs, id)
    ensures forall c :: c in cs ==> c.reason.Duplicate? && ArchivedBy(groups, c.record, c.reason.kept)
    ensures seen0 <= seen && forall x :: x in groups[i].archive ==> Has(cs, x.id)
    ensures forall id :: Has(cs0, id) ==> Has(cs, id)
  {
    hide Has, DistinctRecords, ArchivedBy;
    cs, seen := cs0, seen0;
    var g := groups[i];
    var j := 0;
    while j < |g.archive|
      invariant 0 <= j <= |g.archive|
      invariant DistinctRecords(cs) && forall id :: id in seen <==> Has(cs, id)
      invariant forall c :: c in cs ==> c.reason.Duplicate? && ArchivedBy(groups, c.record, c.reason.kept)
      invariant seen0 <= seen && forall k :: 0 <= k < j ==> g.archive[k].id in seen
    {
      var id := g.archive[j].id;
      if id !in seen {
        var c := Candidate(id, Duplicate(g.keep.id));
        OneMoreCandidate(cs, c);
        MembersArchived(groups, g, g.archive[j]);
        seen := seen + {id};
        cs := cs + [c];
      }
      j := j + 1;
    }
  }

  lemma MembersArchived(groups: seq<Group>, g: Group, x: Item)
    requires g in groups && x in g.archive
    ensures ArchivedBy(groups, x.id, g.keep.id)
  {
  }

  /**
    collectArchiveCandidates: each id once, duplicates before decay; exactly the archived members of the groups and the
    decayed records are candidates.
  */
  method CollectArchiveCandidates(groups: seq<Group>, decays: seq<Scored>) returns (cs: seq<Candidate>)
    ensures DistinctRecords(cs) && forall c :: c in cs ==> Grounded(groups, decays, c)
    ensures forall g, x :: g in groups && x in g.archive ==> Has(cs, x.id)
    ensures forall d :: d in decays ==> Has(cs, d.item.id)
  {
    hide Has, DistinctRecords, ArchivedBy, Archived;
    var seen;
    cs, seen := CollectDuplicates(groups);
    DuplicatesGrounded(groups, decays, cs);
    var i := 0;
    while i < |decays|
      invariant 0 <= i <= |decays|
      invariant DistinctRecords(cs)
      invariant forall id :: id in seen <==> Has(cs, id)
      invariant forall c :: c in cs ==> Grounded(groups, decays, c)
      invariant forall g, x :: g in groups && x in g.archive ==> Has(cs, x.id)
      invariant forall k :: 0 <= k < i ==> Has(cs, decays[k].item.id)
    {
      var id := decays[i].item.id;
      if id !in seen {
        var c := Candidate(id, Decay(decays[i].score));
        OneMoreCandidate(cs, c);
        NotArchived(groups, cs, id);
        assert Grounded(groups, decays, c) by { assert decays[i] in decays; }
        seen := seen + {id};
        cs := cs + [c];
      }
      i := i + 1;
    }
  }

  lemma OneMoreCandidate(cs: seq<Candidate>, c: Candidate)
    ensures forall id :: Has(cs + [c], id) <==> Has(cs, id) || id == c.record
    ensures !Has(cs, c.record) && DistinctRecords(cs) ==> DistinctRecords(cs + [c])
  {
    assert forall x :: x in cs + [c] <==> x in cs || x == c;
    forall id ensures Has(cs + [c], id) <==> Has(cs, id) || id == c.record {
      assert c in cs + [c];
      if Has(cs, id) {
        var x :| x in cs && x.record == id;
        assert x in cs + [c];
      }
    }
  }

  lemma DuplicatesGrounded(groups: seq<Group>, decays: seq<Scored>, cs: seq<Candidate>)
    requires forall c :: c in cs ==> c.reason.Duplicate? && ArchivedBy(groups, c.record, c.reason.kept)
    ensures forall c :: c in cs ==> Grounded(groups, decays, c)
  {
  }

  lemma NotArchived(groups: seq<Group>, cs: seq<Candidate>, id: nat)
    requires !Has(cs, id) && forall g, x :: g in groups && x in g.archive ==> Has(cs, x.id)
    ensures !Archived(groups, id)
  {
  }

  // Candidate c is a loaded record archived for a reason that holds of it.
  ghost predicate Justified(
    records: seq<Item>, groups: seq<Group>, scoreOf: Item -> real, threshold: real, cs: seq<Candidate>, c: Candidate)
  {
    exists x :: x in records && x.id == c.record
                && match c.reason
                   case Duplicate(kept) =>
                     (exists k :: k in records && k.id == kept && k.id != x.id && Precedes(k, x) && Weight(x) <= Weight(k))
                     && !exists e :: e in cs && e.record == kept && e.reason.Duplicate?
                   case Decay(score) => score == scoreOf(x) < threshold && !Archived(groups, x.id)
  }

  /**
    The plan: candidates are distinct loaded records. One archived as a duplicate names a kept record of its group with
    at least its importance that is not itself archived as a duplicate; one archived for decay scores below the
    threshold and is in no group's archive.
  */
  lemma PlanIsSound(
    records: seq<Item>, groups: seq<Group>, scoreOf: Item -> real, threshold: real, decays: seq<Scored>, cs: seq<Candidate>,
    c: Candidate)
    requires DistinctIds(records) && GroupsFit(records, groups)
    requires forall d :: d in decays <==> d.item in records && d.score == scoreOf(d.item) && d.score < threshold
    requires (forall e :: e in cs ==> Grounded(groups, decays, e)) && DistinctRecords(cs) && c in cs
    ensures Justified(records, groups, scoreOf, threshold, cs, c)
  {
    hide Precedes, GroupsFit, DistinctIds, DistinctRecords, Archived;
    assert Grounded(groups, decays, c);
    match c.reason {
      case Decay(score) =>
        var d :| d in decays && d.item.id == c.record && d.score == score;
      case Duplicate(kept) =>
        var g, x := ArchivedIn(groups, c.record, kept);
        DuplicateKeeps(records, groups, g, x);
        KeptIsNoDuplicate(records, groups, decays, cs, g);
        hide Grounded;
    }
  }

  lemma ArchivedIn(groups: seq<Group>, id: nat, kept: nat) returns (g: Group, x: Item)
    requires ArchivedBy(groups, id, kept)
    ensures g in groups && g.keep.id == kept && x in g.archive && x.id == id
  {
    g :| g in groups && g.keep.id == kept && exists y :: y in g.archive && y.id == id;
    x :| x in g.archive && x.id == id;
  }

  lemma KeptIsNoDuplicate(records: seq<Item>, groups: seq<Group>, decays: seq<Scored>, cs: seq<Candidate>, g: Group)
    requires GroupsFit(records, groups) && g in groups && forall e :: e in cs ==> Grounded(groups, decays, e)
    ensures !exists e :: e in cs && e.record == g.keep.id && e.reason.Duplicate?
  {
    KeepIsNotArchived(records, groups, g);
    hide GroupsFit;
    forall e | e in cs && e.record == g.keep.id ensures !e.reason.Duplicate? {
      assert Grounded(groups, decays, e);
    }
  }

  lemma DuplicateKeeps(records: seq<Item>, groups: seq<Group>, g: Group, x: Item)
    requires GroupsFit(records, groups) && g in groups && x in g.archive
    ensures x in records && g.keep in records && g.keep.id != x.id && Precedes(g.keep, x) && Weight(x) <= Weight(g.keep)
  {
    ArchiveIsMember(g, x);
    var i :| 0 <= i < |g.archive| && g.archive[i] == x;
    assert Members(g)[0] == g.keep && Members(g)[i + 1] == x;
    assert g.keep in Members(g);
  }

  lemma KeepIsNotArchived(records: seq<Item>, groups: seq<Group>, g: Group)
    requires GroupsFit(records, groups) && g in groups
    ensures !Archived(groups, g.keep.id)
  {
    hide Precedes, DistinctIds, Members;
    forall h, x | h in groups && x in h.archive ensures x.id != g.keep.id {
      KeepsDiffer(records, groups, g, h, x);
    }
  }

  lemma KeepsDiffer(records: seq<Item>, groups: seq<Group>, g: Group, h: Group, x: Item)
    requires GroupsFit(records, groups) && g in groups && h in groups && x in h.archive
    ensures x.id != g.keep.id
  {
    hide Precedes;
    ArchiveIsMember(h, x);
    assert g.keep in Members(g) by { assert Members(g)[0] == g.keep; }
    if h == g {
      var i :| 0 <= i < |h.archive| && h.archive[i] == x;
      assert Members(h)[i + 1] == x && Members(h)[0] == h.keep && DistinctIds(Members(h));
    } else {
      hide Members, DistinctIds;
      var j, k :| 0 <= j < |groups| && 0 <= k < |groups| && groups[j] == g && groups[k] == h;
      assert j < k || k < j;
    }
  }

  /**
    The kept record of a group is archived after all if and only if it has decayed below the threshold: keeping it as
    the best of its group does not protect it.
  */
  lemma KeptIsArchivedIff(
    records: seq<Item>, groups: seq<Group>, scoreOf: Item -> real, threshold: real, decays: seq<Scored>, cs: seq<Candidate>,
    g: Group)
    requires DistinctIds(records) && GroupsFit(records, groups) && g in groups
    requires forall d :: d in decays <==> d.item in records && d.score == scoreOf(d.item) && d.score < threshold
    requires forall e :: e in cs ==> Grounded(groups, decays, e)
    requires forall d :: d in decays ==> Has(cs, d.item.id)
    ensures Has(cs, g.keep.id) <==> scoreOf(g.keep) < threshold
  {
    hide Precedes;
    KeepIsNotArchived(records, groups, g);
    assert g.keep in Members(g) by { assert Members(g)[0] == g.keep; }
    if scoreOf(g.keep) < threshold { assert Scored(g.keep, scoreOf(g.keep)) in decays; }
    if Has(cs, g.keep.id) {
      var e :| e in cs && e.record == g.keep.id;
      assert Grounded(groups, decays, e);
      var d :| d in decays && d.item.id == g.keep.id;
      OnceOnly(records, d.item, g.keep);
    }
  }

  function ItemsOf(rows: seq<StoredItem>): seq<Item> {
    seq(|rows|, i requires 0 <= i < |rows| => rows[i].item)
  }

  // ----- from the loaded records to the candidates -----

  // The options of semantic deduplication, which replaces the exact one.
  datatype Semantics = Semantics(emb: Embeddings, threshold: real, root: real -> real)

  function DuplicateGroups(records: seq<Item>, normalize: string -> string, semantics: Option<Semantics>)
    : Result<seq<Group>, SimilarityError>
  {
    match semantics
    case None => Success(GroupsOf(Classes(records, normalize)))
    case Some(s) =>
      if s.threshold <= 0.0 || 1.0 < s.threshold then Failure(BadThreshold)
      else match Clustered(records, s.emb, s.threshold, s.root)
           case Failure(e) => Failure(e)
           case Success(clusters) => Success(GroupsOf(clusters))
  }

  // buildCompactionPlan's duplicate groups.
  method FindDuplicates(records: seq<Item>, normalize: string -> string, semantics: Option<Semantics>)
    returns (r: Result<seq<Group>, SimilarityError>)
    requires DistinctIds(records) && (semantics.Some? ==> IsRoot(semantics.value.root))
    ensures r == DuplicateGroups(records, normalize, semantics)
    ensures r.Success? ==> GroupsFit(records, r.value)
  {
    match semantics
    case None =>
      BothDetectorsFit(records, normalize, map[], 1.0, x => x);
      var groups := FindExactContentDuplicates(records, normalize);
      r := Success(groups);
    case Some(s) =>
      BothDetectorsFit(records, normalize, s.emb, s.threshold, s.root);
      r := FindSemanticDuplicates(records, s.emb, s.threshold, s.root);
  }

  /**
    Planning from end to end, as applyCompaction does it: for loaded records with distinct ids, whichever detector finds
    the duplicates, the candidates are distinct, every one is justified, and a record is among them if and only if it is
    in the archive of its group or scores below the decay threshold.
  */
  method PlanCandidates(
    records: seq<Item>, normalize: string -> string, semantics: Option<Semantics>, scoreOf: Item -> real, threshold: real)
    returns (r: Result<seq<Candidate>, SimilarityError>, groups: seq<Group>)
    requires DistinctIds(records) && (semantics.Some? ==> IsRoot(semantics.value.root))
    ensures match DuplicateGroups(records, normalize, semantics)
            case Failure(e) => r == Failure(e)
            case Success(found) => r.Success? && groups == found
    ensures r.Success? ==> GroupsFit(records, groups) && DistinctRecords(r.value)
    ensures r.Success? ==> forall c :: c in r.value ==> Justified(records, groups, scoreOf, threshold, r.value, c)
    ensures r.Success? ==> forall x :: x in records ==>
      (Has(r.value, x.id) <==> Archived(groups, x.id) || scoreOf(x) < threshold)
  {
    hide GroupsFit, DistinctIds, Grounded, Justified, IsRoot, DistinctRecords, Precedes, Archived, Has, MostDecayedFirst, DuplicateGroups;
    groups := [];
    var found := FindDuplicates(records, normalize, semantics);
    if found.Failure? { return Failure(found.error), groups; }
    groups := found.value;
    var decays := FindDecayCandidates(records, scoreOf, threshold);
    var cs := CollectArchiveCandidates(found.value, decays);
    r := Success(cs);
    forall c | c in cs ensures Justified(records, groups, scoreOf, threshold, cs, c) {
      PlanIsSound(records, groups, scoreOf, threshold, decays, cs, c);
    }
    forall x | x in records ensures Has(cs, x.id) <==> Archived(groups, x.id) || scoreOf(x) < threshold {
      CandidateIff(records, groups, scoreOf, threshold, decays, cs, x);
    }
  }

  lemma CandidateIff(
    records: seq<Item>, groups: seq<Group>, scoreOf: Item -> real, threshold: real, decays: seq<Scored>, cs: seq<Candidate>,
    x: Item)
    requires DistinctIds(records) && x in records
    requires forall d :: d in decays <==> d.item in records && d.score == scoreOf(d.item) && d.score < threshold
    requires forall e :: e in cs ==> Grounded(groups, decays, e)
    requires forall g, y :: g in groups && y in g.archive ==> Has(cs, y.id)
    requires forall d :: d in decays ==> Has(cs, d.item.id)
    ensures Has(cs, x.id) <==> Archived(groups, x.id) || scoreOf(x) < threshold
  {
    if scoreOf(x) < threshold { assert Scored(x, scoreOf(x)) in decays; }
    if Has(cs, x.id) {
      var e :| e in cs && e.record == x.id;
      assert Grounded(groups, decays, e);
      if e.reason.Decay? {
        var d :| d in decays && d.item.id == x.id;
        OnceOnly(records, d.item, x);
      }
    }
  }

  // ----- from the stored rows to the candidates -----

  // Ids are the primary key of the stored rows.
  ghost predicate DistinctRows(rows: seq<StoredItem>) {
    forall i, k :: 0 <= i < k < |rows| ==> rows[i].item.id != rows[k].item.id
  }

  lemma {:induction false} FilteredAreSome(
    rows: seq<StoredItem>, org: Option<string>, scopeType: string, scopeId: string, excludePinned: bool, active: set<nat>)
    ensures multiset(Filtered(rows, org, scopeType, scopeId, excludePinned, active)) <= multiset(rows)
  {
    if rows != [] {
      FilteredAreSome(rows[..|rows| - 1], org, scopeType, scopeId, excludePinned, active);
      assert rows == rows[..|rows| - 1] + [rows[|rows| - 1]];
    }
  }

  lemma PrefixIsSome<T>(s: seq<T>, n: nat)
    requires n <= |s|
    ensures multiset(s[..n]) <= multiset(s)
  {
    assert s == s[..n] + s[n..];
  }

  lemma LoadedAreSome(
    rows: seq<StoredItem>, org: Option<string>, scopeType: string, scopeId: string, limit: nat, excludePinned: bool,
    active: set<nat>)
    ensures multiset(ListMemory(rows, org, scopeType, scopeId, limit, excludePinned, active)) <= multiset(rows)
  {
    var some := Filtered(rows, org, scopeType, scopeId, excludePinned, active);
    FilteredAreSome(rows, org, scopeType, scopeId, excludePinned, active);
    assert TotalPreorder(NewestFirst);
    SortByIsSorted(some, NewestFirst);
    hide Filtered, SortBy, SortedBy, TotalPreorder;
    var all := SortBy(some, NewestFirst);
    if limit < |all| { PrefixIsSome(all, limit); }
  }

  /** A load of rows with distinct ids holds records with distinct ids. */
  lemma LoadedAreDistinct(
    rows: seq<StoredItem>, org: Option<string>, scopeType: string, scopeId: string, limit: nat, excludePinned: bool,
    active: set<nat>)
    requires DistinctRows(rows)
    ensures DistinctIds(ItemsOf(ListMemory(rows, org, scopeType, scopeId, limit, excludePinned, active)))
  {
    LoadedAreSome(rows, org, scopeType, scopeId, limit, excludePinned, active);
    hide ListMemory;
    var loaded := ListMemory(rows, org, scopeType, scopeId, limit, excludePinned, active);
    var id := (x: StoredItem) => x.item.id;
    SomeStayDistinct(rows, loaded, id);
    forall i, k | 0 <= i < k < |loaded| ensures loaded[i].item.id != loaded[k].item.id {
      assert id(loaded[i]) != id(loaded[k]);
    }
  }

  /** No row pinned to a goal run that was active at load time has the id of a justified candidate of that load. */
  lemma NoPinnedCandidate(
    rows: seq<StoredItem>, org: Option<string>, scopeType: string, scopeId: string, limit: nat, active: set<nat>,
    groups: seq<Group>, scoreOf: Item -> real, threshold: real, cs: seq<Candidate>, c: Candidate, x: StoredItem)
    requires DistinctRows(rows) && x in rows && x.item.id == c.record
    requires Justified(
               ItemsOf(ListMemory(rows, org, scopeType, scopeId, limit, true, active)), groups, scoreOf, threshold, cs, c)
    ensures x.goalRun.Some? ==> x.goalRun.value !in active
    ensures x.scopeType == scopeType && x.scopeId == scopeId && !x.archived
  {
    hide ListMemory, Precedes;
    var loaded := ListMemory(rows, org, scopeType, scopeId, limit, true, active);
    var item :| item in ItemsOf(loaded) && item.id == c.record;
    var i :| 0 <= i < |ItemsOf(loaded)| && ItemsOf(loaded)[i] == item;
    hide Justified;
    assert loaded[i] in loaded;
    NoPinnedLoaded(rows, org, scopeType, scopeId, limit, active, loaded[i]);
    var p :| 0 <= p < |rows| && rows[p] == loaded[i];
    var q :| 0 <= q < |rows| && rows[q] == x;
  }

  /**
    A compaction from the stored rows to its candidates: the load, then the plan. No candidate is pinned to a goal run
    that was active at load time, and every loaded record is a candidate or not exactly as planning promises.
  */
  method PlanCompaction(
    rows: seq<StoredItem>, org: Option<string>, scopeType: string, scopeId: string, limit: nat, active: set<nat>,
    normalize: string -> string, semantics: Option<Semantics>, scoreOf: Item -> real, threshold: real)
    returns (r: Result<seq<Candidate>, SimilarityError>, groups: seq<Group>)
    requires DistinctRows(rows) && (semantics.Some? ==> IsRoot(semantics.value.root))
    ensures var records := ItemsOf(ListMemory(rows, org, scopeType, scopeId, limit, true, active));
            match DuplicateGroups(records, normalize, semantics)
            case Failure(e) => r == Failure(e)
            case Success(found) =>
              && r.Success? && groups == found && DistinctRecords(r.value)
              && (forall c :: c in r.value ==> Justified(records, groups, scoreOf, threshold, r.value, c))
              && forall x :: x in records ==> (Has(r.value, x.id) <==> Archived(groups, x.id) || scoreOf(x) < threshold)
    ensures r.Success? ==> forall c, x :: c in r.value && x in rows && x.item.id == c.record && x.goalRun.Some? ==>
      x.goalRun.value !in active
  {
    hide ListMemory, DistinctRows, DistinctIds, GroupsFit, Justified, DuplicateGroups, DistinctRecords, Has, Archived, IsRoot;
    var loaded := ListMemory(rows, org, scopeType, scopeId, limit, true, active);
    LoadedAreDistinct(rows, org, scopeType, scopeId, limit, true, active);
    r, groups := PlanCandidates(ItemsOf(loaded), normalize, semantics, scoreOf, threshold);
    if r.Success? {
      forall c, x | c in r.value && x in rows && x.item.id == c.record && x.goalRun.Some? ensures x.goalRun.value !in active {
        NoPinnedCandidate(rows, org, scopeType, scopeId, limit, active, groups, scoreOf, threshold, r.value, c, x);
      }
    }
  }
}
