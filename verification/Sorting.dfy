/** Sorting by a comparator, as Array.prototype.sort does it: a stable, ordered rearrangement. */
module Sorting {
  // The comparator is a total preorder.
  ghost predicate TotalPreorder<T(!new)>(le: (T, T) -> bool) {
    && (forall a, b :: le(a, b) || le(b, a))
    && (forall a, b, c :: le(a, b) && le(b, c) ==> le(a, c))
  }

  // Behind every element that does not come after it.
  function InsertBy<T>(s: seq<T>, x: T, le: (T, T) -> bool): seq<T> {
    if s == [] || le(s[|s| - 1], x) then s + [x]
    else InsertBy(s[..|s| - 1], x, le) + [s[|s| - 1]]
  }

  function SortBy<T>(s: seq<T>, le: (T, T) -> bool): seq<T> {
    if s == [] then [] else InsertBy(SortBy(s[..|s| - 1], le), s[|s| - 1], le)
  }

  ghost predicate SortedBy<T>(s: seq<T>, le: (T, T) -> bool) {
    forall i, k :: 0 <= i < k < |s| ==> le(s[i], s[k])
  }

  lemma {:induction false} InsertAdds<T>(s: seq<T>, x: T, le: (T, T) -> bool)
    ensures multiset(InsertBy(s, x, le)) == multiset(s) + multiset{x}
  {
    if s != [] && !le(s[|s| - 1], x) {
      InsertAdds(s[..|s| - 1], x, le);
      assert s == s[..|s| - 1] + [s[|s| - 1]];
    }
  }

  lemma {:induction false} InsertKeeps<T(!new)>(s: seq<T>, x: T, le: (T, T) -> bool)
    requires TotalPreorder(le) && SortedBy(s, le)
    ensures SortedBy(InsertBy(s, x, le), le)
  {
    if s != [] && !le(s[|s| - 1], x) {
      var init, last := s[..|s| - 1], s[|s| - 1];
      InsertKeeps(init, x, le);
      InsertAdds(init, x, le);
      forall k | 0 <= k < |InsertBy(init, x, le)| ensures le(InsertBy(init, x, le)[k], last) {
        assert InsertBy(init, x, le)[k] in multiset(init) + multiset{x};
      }
    } else if s != [] {
      forall k | 0 <= k < |s| ensures le(s[k], x) {
        assert k < |s| - 1 ==> le(s[k], s[|s| - 1]);
      }
    }
  }

  /** The result is the same elements in order. */
  lemma {:induction false} SortByIsSorted<T(!new)>(s: seq<T>, le: (T, T) -> bool)
    requires TotalPreorder(le)
    ensures SortedBy(SortBy(s, le), le) && multiset(SortBy(s, le)) == multiset(s) && |SortBy(s, le)| == |s|
    ensures forall x :: x in SortBy(s, le) <==> x in s
  {
    if s != [] {
      var init := s[..|s| - 1];
      SortByIsSorted(init, le);
      InsertKeeps(SortBy(init, le), s[|s| - 1], le);
      InsertAdds(SortBy(init, le), s[|s| - 1], le);
      assert s == init + [s[|s| - 1]];
    }
    assert |multiset(SortBy(s, le))| == |multiset(s)|;
    forall x ensures x in SortBy(s, le) <==> x in s {
      assert x in multiset(SortBy(s, le)) <==> x in multiset(s);
    }
  }

  // a comes before b in s.
  ghost predicate Before<T>(s: seq<T>, a: T, b: T) {
    exists i, k :: 0 <= i < k < |s| && s[i] == a && s[k] == b
  }

  lemma AppendKeepsBefore<T>(s: seq<T>, x: T, a: T, b: T)
    ensures Before(s, a, b) ==> Before(s + [x], a, b)
    ensures a in s ==> Before(s + [x], a, x)
  {
    if Before(s, a, b) {
      var i, k :| 0 <= i < k < |s| && s[i] == a && s[k] == b;
      assert (s + [x])[i] == a && (s + [x])[k] == b;
    }
    if a in s {
      var i :| 0 <= i < |s| && s[i] == a;
      assert (s + [x])[i] == a && (s + [x])[|s|] == x;
    }
  }

  // After an insertion, of two elements that compare equal the later one is new, or both were there in this order.
  lemma {:induction false} InsertIsStable<T(!new)>(s: seq<T>, x: T, le: (T, T) -> bool, p: nat, q: nat)
    returns (p': nat, q': nat)
    requires p < q < |InsertBy(s, x, le)| && le(InsertBy(s, x, le)[q], InsertBy(s, x, le)[p])
    ensures var t := InsertBy(s, x, le);
            || (t[q] == x && t[p] in s)
            || (p' < q' < |s| && s[p'] == t[p] && s[q'] == t[q])
  {
    p', q' := p, q;
    if s != [] && !le(s[|s| - 1], x) {
      var init, t := s[..|s| - 1], InsertBy(s[..|s| - 1], x, le);
      InsertAdds(init, x, le);
      if q < |t| {
        p', q' := InsertIsStable(init, x, le, p, q);
      } else {
        assert t[p] in multiset(init) + multiset{x};
        p' :| 0 <= p' < |init| && init[p'] == t[p];
        q' := |s| - 1;
        assert |multiset(t)| == |multiset(init)| + 1;
      }
    }
  }

  /** Sorting is stable: elements that compare equal stay in the order in which they came. */
  lemma {:induction false} SortByIsStable<T(!new)>(s: seq<T>, le: (T, T) -> bool, p: nat, q: nat)
    requires TotalPreorder(le) && p < q < |SortBy(s, le)| && le(SortBy(s, le)[q], SortBy(s, le)[p])
    ensures Before(s, SortBy(s, le)[p], SortBy(s, le)[q])
  {
    var init, x, t := s[..|s| - 1], s[|s| - 1], SortBy(s, le);
    var u := SortBy(init, le);
    assert init + [x] == s && t == InsertBy(u, x, le);
    hide SortBy, InsertBy, TotalPreorder, Before;
    SortByIsSorted(init, le);
    var p', q' := InsertIsStable(u, x, le, p, q);
    AppendKeepsBefore(init, x, t[p], t[q]);
    if !(t[q] == x && t[p] in u) {
      SortByIsStable(init, le, p', q');
    }
  }

  lemma TwiceCounts<T>(s: seq<T>, i: nat, k: nat)
    requires i < k < |s|
    ensures s[i] == s[k] ==> 2 <= multiset(s)[s[i]]
  {
    assert s == s[..k] + [s[k]] + s[k + 1..];
    if s[i] == s[k] { assert s[..k][i] == s[k]; }
  }

  ghost predicate DistinctBy<T, K>(s: seq<T>, key: T -> K) {
    forall i, k :: 0 <= i < k < |s| ==> key(s[i]) != key(s[k])
  }

  lemma {:induction false} DistinctOnce<T, K>(s: seq<T>, key: T -> K, x: T)
    requires DistinctBy(s, key)
    ensures multiset(s)[x] <= 1
  {
    if s != [] {
      var init, last := s[..|s| - 1], s[|s| - 1];
      DistinctOnce(init, key, x);
      assert s == init + [last];
      forall y | y in init ensures y != last {
        var i :| 0 <= i < |init| && init[i] == y;
      }
    }
  }

  // Some of the elements, in any order, stay distinct.
  lemma SomeStayDistinct<T, K>(s: seq<T>, t: seq<T>, key: T -> K)
    requires DistinctBy(s, key) && multiset(t) <= multiset(s)
    ensures DistinctBy(t, key)
  {
    forall i, k | 0 <= i < k < |t| ensures key(t[i]) != key(t[k]) {
      assert t[i] in multiset(t) && t[k] in multiset(t);
      var p :| 0 <= p < |s| && s[p] == t[i];
      var q :| 0 <= q < |s| && s[q] == t[k];
      TwiceCounts(t, i, k);
      DistinctOnce(s, key, t[i]);
    }
  }
}
