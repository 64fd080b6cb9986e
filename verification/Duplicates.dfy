/** findExactContentDuplicates, and the rule by which a group of duplicates keeps one record. */
module Duplicates {
  import opened Common
  import opened Sorting

  datatype Item = Item(id: nat, importance: Option<real>, content: string)

  datatype Group = Group(keep: Item, archive: seq<Item>)

  function Weight(x: Item): real {
    if x.importance.Some? then x.importance.value else 0.0
  }

  // byImportanceDescThenIdAsc does not put b before a.
  predicate Precedes(a: Item, b: Item) {
    Weight(b) < Weight(a) || (Weight(a) == Weight(b) && a.id <= b.id)
  }

  lemma PrecedesIsOrder()
    ensures TotalPreorder(Precedes)
  {
  }

  function GroupOf(cluster: seq<Item>): Group
    requires cluster != []
  {
    PrecedesIsOrder();
    SortByIsSorted(cluster, Precedes);
    var sorted := SortBy(cluster, Precedes);
    Group(sorted[0], sorted[1..])
  }

  function Members(g: Group): seq<Item> {
    [g.keep] + g.archive
  }

  /** The kept record has the highest importance and, among those, the lowest id; the rest is archived, in that order. */
  lemma KeepRule(cluster: seq<Item>)
    requires cluster != []
    ensures var g := GroupOf(cluster);
            && multiset(Members(g)) == multiset(cluster) && g.keep in cluster
            && (forall x :: x in cluster ==> Precedes(g.keep, x))
            && (forall x :: x in Members(g) <==> x in cluster) && SortedBy(Members(g), Precedes)
            && forall x :: x in cluster ==>
                 var kept := if g.keep.importance.Some? then g.keep.importance.value else 0.0;
                 var other := if x.importance.Some? then x.importance.value else 0.0;
                 other < kept || (other == kept && g.keep.id <= x.id)
  {
    PrecedesIsOrder();
    SortByIsSorted(cluster, Precedes);
    var sorted := SortBy(cluster, Precedes);
    assert sorted == [sorted[0]] + sorted[1..];
    forall x | x in cluster ensures Precedes(sorted[0], x) {
      var k :| 0 <= k < |sorted| && sorted[k] == x;
    }
  }

  // The groups of the clusters with two members or more.
  function GroupsOf(clusters: seq<seq<Item>>): seq<Group> {
    if clusters == [] then []
    else
      var last := clusters[|clusters| - 1];
      GroupsOf(clusters[..|clusters| - 1]) + if |last| < 2 then [] else [GroupOf(last)]
  }

  lemma {:induction false} GroupsAreClusters(clusters: seq<seq<Item>>)
    ensures forall g :: g in GroupsOf(clusters) <==> exists c :: c in clusters && 2 <= |c| && g == GroupOf(c)
  {
    if clusters != [] {
      var init, last := clusters[..|clusters| - 1], clusters[|clusters| - 1];
      GroupsAreClusters(init);
      assert clusters == init + [last];
    }
  }

  // ----- exact duplicates -----

  // The records with a given normalised content, in order.
  function ClassOf(records: seq<Item>, normalize: string -> string, key: string): seq<Item> {
    if records == [] then []
    else
      var last := records[|records| - 1];
      ClassOf(records[..|records| - 1], normalize, key) + if normalize(last.content) == key then [last] else []
  }

  // The normalised contents in the order of their first occurrence: the order of a Map's entries.
  function KeysOf(records: seq<Item>, normalize: string -> string): seq<string> {
    if records == [] then []
    else
      var keys, key := KeysOf(records[..|records| - 1], normalize), normalize(records[|records| - 1].content);
      if key in keys then keys else keys + [key]
  }

  function Classes(records: seq<Item>, normalize: string -> string): seq<seq<Item>> {
    var keys := KeysOf(records, normalize);
    seq(|keys|, k requires 0 <= k < |keys| => ClassOf(records, normalize, keys[k]))
  }

  // findExactContentDuplicates: a Map of growing buckets, then one group for each bucket of two or more.
  method FindExactContentDuplicates(records: seq<Item>, normalize: string -> string) returns (groups: seq<Group>)
    ensures groups == GroupsOf(Classes(records, normalize))
  {
    var byNormalized: map<string, seq<Item>>, order := map[], [];
    var i := 0;
    while i < |records|
      invariant 0 <= i <= |records|
      invariant order == KeysOf(records[..i], normalize)
      invariant forall key :: key in byNormalized <==> key in order
      invariant forall key :: key in byNormalized ==> byNormalized[key] == ClassOf(records[..i], normalize, key)
      invariant forall key :: key !in byNormalized ==> ClassOf(records[..i], normalize, key) == []
    {
      assert records[..i + 1][..i] == records[..i];
      var key := normalize(records[i].content);
      var bucket := if key in byNormalized then byNormalized[key] else [];
      if key !in byNormalized { order := order + [key]; }
      byNormalized := byNormalized[key := bucket + [records[i]]];
      i := i + 1;
    }
    assert records[..i] == records;
    groups := [];
    var k := 0;
    ghost var classes := Classes(records, normalize);
    while k < |order|
      invariant 0 <= k <= |order|
      invariant groups == GroupsOf(classes[..k])
    {
      var bucket := byNormalized[order[k]];
      assert classes[..k + 1][..k] == classes[..k] && classes[k] == bucket;
      if |bucket| >= 2 { groups := groups + [GroupOf(bucket)]; }
      k := k + 1;
    }
    assert classes[..k] == classes;
  }

  lemma {:induction false} ClassMembers(records: seq<Item>, normalize: string -> string, key: string)
    ensures forall x :: x in ClassOf(records, normalize, key) <==> x in records && normalize(x.content) == key
  {
    if records != [] {
      ClassMembers(records[..|records| - 1], normalize, key);
      assert records == records[..|records| - 1] + [records[|records| - 1]];
    }
  }

  lemma {:induction false} KeysAreDistinct(records: seq<Item>, normalize: string -> string)
    ensures var keys := KeysOf(records, normalize);
            && (forall i, k :: 0 <= i < k < |keys| ==> keys[i] != keys[k])
            && (forall x :: x in records ==> normalize(x.content) in keys)
  {
    if records != [] {
      KeysAreDistinct(records[..|records| - 1], normalize);
      assert records == records[..|records| - 1] + [records[|records| - 1]];
    }
  }

  /** Two different records are in one group if and only if their normalised contents are equal. */
  lemma GroupedIffSameContent(records: seq<Item>, normalize: string -> string, a: Item, b: Item)
    requires a in records && b in records && a != b
    ensures (exists g :: g in GroupsOf(Classes(records, normalize)) && a in Members(g) && b in Members(g))
            <==> normalize(a.content) == normalize(b.content)
  {
    if normalize(a.content) == normalize(b.content) { SameContentGrouped(records, normalize, a, b); }
    hide GroupsOf, KeysOf, ClassOf;
    var classes := Classes(records, normalize);
    GroupsAreClusters(classes);
    if g :| g in GroupsOf(classes) && a in Members(g) && b in Members(g) {
      var c :| c in classes && 2 <= |c| && g == GroupOf(c);
      KeepRule(c);
      var k :| 0 <= k < |classes| && classes[k] == c;
      ClassMembers(records, normalize, KeysOf(records, normalize)[k]);
    }
  }

  lemma SameContentGrouped(records: seq<Item>, normalize: string -> string, a: Item, b: Item)
    requires a in records && b in records && a != b && normalize(a.content) == normalize(b.content)
    ensures exists g :: g in GroupsOf(Classes(records, normalize)) && a in Members(g) && b in Members(g)
  {
    hide GroupsOf, KeysOf, ClassOf, Members;
    var classes := Classes(records, normalize);
    GroupsAreClusters(classes);
    KeysAreDistinct(records, normalize);
    var key := normalize(a.content);
    ClassMembers(records, normalize, key);
    var c := ClassOf(records, normalize, key);
    var k :| 0 <= k < |KeysOf(records, normalize)| && KeysOf(records, normalize)[k] == key;
    assert classes[k] == c;
    var i, j :| 0 <= i < |c| && 0 <= j < |c| && c[i] == a && c[j] == b;
    assert i != j && 2 <= |c|;
    KeepRule(c);
    assert GroupOf(c) in GroupsOf(classes);
  }
}
