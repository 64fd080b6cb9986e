/**
  likeContainsPattern under LIKE and ILIKE ... ESCAPE '\', as section 9.7.1 of the PostgreSQL documentation defines them.
  ILIKE folds the case of both sides, character by character.
*/
module LikePattern {
  // A pattern that ends in the escape character is an error in PostgreSQL; here it matches nothing.
  predicate Like(t: string, pattern: string)
    decreases |pattern|, |t|
  {
    if pattern == [] then t == []
    else if pattern[0] == '%' then Like(t, pattern[1..]) || (t != [] && Like(t[1..], pattern))
    else if pattern[0] == '\\' then 2 <= |pattern| && t != [] && t[0] == pattern[1] && Like(t[1..], pattern[2..])
    else t != [] && (pattern[0] == '_' || t[0] == pattern[0]) && Like(t[1..], pattern[1..])
  }

  predicate Special(c: char) {
    c == '\\' || c == '%' || c == '_'
  }

  // value.replace(/[\\%_]/g, ...)
  function Escaped(v: string): string {
    if v == [] then [] else (if Special(v[0]) then ['\\', v[0]] else [v[0]]) + Escaped(v[1..])
  }

  function LikeContainsPattern(v: string): string {
    "%" + Escaped(v) + "%"
  }

  predicate OccursAt(v: string, t: string, k: nat) {
    k + |v| <= |t| && t[k..k + |v|] == v
  }

  ghost predicate Occurs(v: string, t: string) {
    exists k: nat :: OccursAt(v, t, k)
  }

  lemma {:induction false} PercentMatchesAll(t: string)
    ensures Like(t, "%")
  {
    if t == [] {
      assert "%"[1..] == "";
    } else {
      PercentMatchesAll(t[1..]);
    }
  }

  // An escaped literal matches exactly itself.
  lemma {:induction false} EscapedIsLiteral(t: string, v: string, rest: string)
    ensures Like(t, Escaped(v) + rest) <==> v <= t && Like(t[|v|..], rest)
  {
    if v == [] {
      assert Escaped(v) + rest == rest && t[|v|..] == t;
    } else {
      var head := if Special(v[0]) then ['\\', v[0]] else [v[0]];
      assert Escaped(v) + rest == head + (Escaped(v[1..]) + rest);
      assert (Escaped(v) + rest)[|head|..] == Escaped(v[1..]) + rest;
      if t != [] {
        EscapedIsLiteral(t[1..], v[1..], rest);
        assert v <= t <==> v[0] == t[0] && v[1..] <= t[1..];
        if v <= t { assert t[1..][|v[1..]|..] == t[|v|..]; }
      }
    }
  }

  lemma {:induction false} PercentSkips(t: string, pattern: string, k: nat)
    requires k <= |t| && Like(t[k..], pattern)
    ensures Like(t, "%" + pattern)
  {
    assert ("%" + pattern)[1..] == pattern;
    if k == 0 {
      assert t[0..] == t;
    } else {
      assert t[1..][k - 1..] == t[k..];
      PercentSkips(t[1..], pattern, k - 1);
    }
  }

  lemma {:induction false} PercentSkipped(t: string, pattern: string) returns (k: nat)
    requires Like(t, "%" + pattern)
    ensures k <= |t| && Like(t[k..], pattern)
  {
    assert ("%" + pattern)[1..] == pattern;
    if Like(t, pattern) {
      k := 0;
      assert t[0..] == t;
    } else {
      var j := PercentSkipped(t[1..], pattern);
      k := j + 1;
      assert t[1..][j..] == t[k..];
    }
  }

  /** A text matches the pattern built for a value exactly when the value occurs in it, whatever characters it has. */
  lemma MatchesIffOccurs(v: string, t: string)
    ensures Like(t, LikeContainsPattern(v)) <==> Occurs(v, t)
  {
    var p := Escaped(v) + "%";
    assert LikeContainsPattern(v) == "%" + p;
    if Occurs(v, t) {
      var k: nat :| OccursAt(v, t, k);
      assert v <= t[k..];
      PercentMatchesAll(t[k..][|v|..]);
      EscapedIsLiteral(t[k..], v, "%");
      PercentSkips(t, p, k);
    }
    if Like(t, LikeContainsPattern(v)) {
      var k := PercentSkipped(t, p);
      EscapedIsLiteral(t[k..], v, "%");
      assert t[k..k + |v|] == t[k..][..|v|];
      assert OccursAt(v, t, k);
    }
  }

  // ----- ILIKE -----

  function Folded(s: string, fold: char -> char): string {
    if s == [] then [] else [fold(s[0])] + Folded(s[1..], fold)
  }

  // Folding leaves the characters alone that mean something in a pattern, and makes no new ones.
  ghost predicate FoldsCase(fold: char -> char) {
    && (forall c :: Special(c) ==> fold(c) == c)
    && (forall c :: Special(fold(c)) ==> Special(c))
  }

  predicate ILike(t: string, pattern: string, fold: char -> char) {
    Like(Folded(t, fold), Folded(pattern, fold))
  }

  lemma {:induction false} FoldedTogether(s: string, t: string, fold: char -> char)
    ensures Folded(s + t, fold) == Folded(s, fold) + Folded(t, fold)
  {
    if s == [] {
      assert s + t == t;
    } else {
      assert (s + t)[1..] == s[1..] + t;
      FoldedTogether(s[1..], t, fold);
    }
  }

  // Escaping and folding commute.
  lemma {:induction false} FoldedEscape(v: string, fold: char -> char)
    requires FoldsCase(fold)
    ensures Folded(Escaped(v), fold) == Escaped(Folded(v, fold))
  {
    if v != [] {
      var head := if Special(v[0]) then ['\\', v[0]] else [v[0]];
      FoldedEscape(v[1..], fold);
      FoldedTogether(head, Escaped(v[1..]), fold);
      assert Special('\\');
      assert Folded(head, fold) == (if Special(v[0]) then ['\\', v[0]] else [fold(v[0])]) by {
        assert head[1..] == (if Special(v[0]) then [v[0]] else []);
        assert [v[0]][1..] == [];
      }
      assert Folded(v, fold)[1..] == Folded(v[1..], fold);
    }
  }

  /** Under ILIKE a text matches the pattern built for a value exactly when the value occurs in it up to case. */
  lemma MatchesIffOccursFolded(v: string, t: string, fold: char -> char)
    requires FoldsCase(fold)
    ensures ILike(t, LikeContainsPattern(v), fold) <==> Occurs(Folded(v, fold), Folded(t, fold))
  {
    assert Special('%');
    assert Folded("%", fold) == "%" by { assert "%"[1..] == ""; }
    FoldedEscape(v, fold);
    FoldedTogether("%", Escaped(v), fold);
    FoldedTogether("%" + Escaped(v), "%", fold);
    assert LikeContainsPattern(v) == ("%" + Escaped(v)) + "%";
    MatchesIffOccurs(Folded(v, fold), Folded(t, fold));
  }
}
