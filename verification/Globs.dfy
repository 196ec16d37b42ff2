/**
 * Path patterns (`globMatches` in src/policy/scope-engine.mjs): what the
 * backtracking matcher computes, and what a pattern means.
 */
module Globs {
  import Text

  // ---------------------------------------------------------------- wildcards over any alphabet

  /** Backtracking: an element of the pattern takes any number of items if it is `many`, else one item that it admits. */
  predicate Wild<P, T>(ps: seq<P>, cs: seq<T>, many: P -> bool, one: (P, T) -> bool)
    decreases |ps| + |cs|
  {
    if ps == [] then cs == []
    else if many(ps[0]) then Wild(ps[1..], cs, many, one) || (cs != [] && Wild(ps, cs[1..], many, one))
    else cs != [] && one(ps[0], cs[0]) && Wild(ps[1..], cs[1..], many, one)
  }

  function Flatten<T>(groups: seq<seq<T>>): seq<T> {
    if groups == [] then [] else groups[0] + Flatten(groups[1..])
  }

  ghost predicate Covers<P, T>(p: P, group: seq<T>, many: P -> bool, one: (P, T) -> bool) {
    many(p) || (|group| == 1 && one(p, group[0]))
  }

  /** The items fall into one group for each element, in order, and each element covers its group. */
  ghost predicate Aligned<P, T>(ps: seq<P>, cs: seq<T>, groups: seq<seq<T>>, many: P -> bool, one: (P, T) -> bool) {
    && |groups| == |ps| && Flatten(groups) == cs
    && forall k {:trigger groups[k]} :: 0 <= k < |ps| ==> Covers(ps[k], groups[k], many, one)
  }

  lemma {:induction false} AlignedMatches<P, T>(ps: seq<P>, cs: seq<T>, groups: seq<seq<T>>, many: P -> bool, one: (P, T) -> bool)
    requires Aligned(ps, cs, groups, many, one)
    ensures Wild(ps, cs, many, one)
    decreases |ps| + |cs|
  {
    if ps != [] {
      var g, rest := groups[0], groups[1..];
      assert Covers(ps[0], g, many, one);
      assert Flatten(groups) == g + Flatten(rest);
      forall k {:trigger rest[k]} | 0 <= k < |ps[1..]| ensures Covers(ps[1..][k], rest[k], many, one) {
        assert Covers(ps[k + 1], groups[k + 1], many, one);
      }
      if !many(ps[0]) {
        assert cs[1..] == Flatten(rest);
        AlignedMatches(ps[1..], cs[1..], rest, many, one);
      } else if g == [] {
        assert cs == Flatten(rest);
        AlignedMatches(ps[1..], cs, rest, many, one);
      } else {
        var shorter := [g[1..]] + rest;
        assert shorter[0] == g[1..] && shorter[1..] == rest;
        assert cs[1..] == Flatten(shorter);
        forall k {:trigger shorter[k]} | 0 <= k < |ps| ensures Covers(ps[k], shorter[k], many, one) {
          assert k > 0 ==> Covers(ps[k], groups[k], many, one);
        }
        AlignedMatches(ps, cs[1..], shorter, many, one);
      }
    }
  }

  lemma {:induction false} MatchesAligned<P, T>(ps: seq<P>, cs: seq<T>, many: P -> bool, one: (P, T) -> bool) returns (groups: seq<seq<T>>)
    requires Wild(ps, cs, many, one)
    ensures Aligned(ps, cs, groups, many, one)
    decreases |ps| + |cs|
  {
    if ps == [] {
      groups := [];
    } else if many(ps[0]) && Wild(ps[1..], cs, many, one) {
      var rest := MatchesAligned(ps[1..], cs, many, one);
      groups := [[]] + rest;
      Prepended(ps, cs, [], rest, many, one);
    } else if many(ps[0]) {
      var shorter := MatchesAligned(ps, cs[1..], many, one);
      assert Flatten(shorter) == shorter[0] + Flatten(shorter[1..]);
      groups := [[cs[0]] + shorter[0]] + shorter[1..];
      forall k {:trigger shorter[1..][k]} | 0 <= k < |ps[1..]| ensures Covers(ps[1..][k], shorter[1..][k], many, one) {
        assert Covers(ps[k + 1], shorter[k + 1], many, one);
      }
      assert cs == [cs[0]] + cs[1..];
      assert [cs[0]] + (shorter[0] + Flatten(shorter[1..])) == ([cs[0]] + shorter[0]) + Flatten(shorter[1..]);
      Prepended(ps, Flatten(shorter[1..]), [cs[0]] + shorter[0], shorter[1..], many, one);
    } else {
      var rest := MatchesAligned(ps[1..], cs[1..], many, one);
      groups := [[cs[0]]] + rest;
      assert cs == [cs[0]] + cs[1..];
      Prepended(ps, cs[1..], [cs[0]], rest, many, one);
    }
  }

  lemma Prepended<P, T>(ps: seq<P>, cs: seq<T>, g: seq<T>, rest: seq<seq<T>>, many: P -> bool, one: (P, T) -> bool)
    requires ps != [] && Aligned(ps[1..], cs, rest, many, one) && Covers(ps[0], g, many, one)
    ensures Aligned(ps, g + cs, [g] + rest, many, one)
  {
    var groups := [g] + rest;
    assert groups[1..] == rest;
    forall k {:trigger groups[k]} | 0 <= k < |ps| ensures Covers(ps[k], groups[k], many, one) {
      if k > 0 { assert Covers(ps[1..][k - 1], rest[k - 1], many, one); }
    }
  }

  // ---------------------------------------------------------------- one segment

  /** The UTF-16 code units of a string, which are what regular expressions without `u` match. */
  function Units(s: string): seq<int> {
    if s == "" then []
    else
      var u := s[0] as int;
      (if u < 0x10000 then [u] else [0xD800 + (u - 0x10000) / 0x400, 0xDC00 + (u - 0x10000) % 0x400]) + Units(s[1..])
  }

  lemma {:induction false} UnitsInjective(a: string, b: string)
    requires Units(a) == Units(b)
    ensures a == b
  {
    if a != "" && b != "" {
      var u, v := a[0] as int, b[0] as int;
      assert Units(a)[0] == Units(b)[0];
      if u < 0x10000 && v < 0x10000 {
        assert Units(a)[1..] == Units(a[1..]) && Units(b)[1..] == Units(b[1..]);
      } else if u >= 0x10000 && v >= 0x10000 {
        assert Units(a)[1] == Units(b)[1];
        assert (u - 0x10000) / 0x400 == (v - 0x10000) / 0x400;
        assert u == v;
        assert Units(a)[2..] == Units(a[1..]) && Units(b)[2..] == Units(b[1..]);
      } else {
        assert false;
      }
      assert a[0] as int == b[0] as int && a[0] == b[0];
      UnitsInjective(a[1..], b[1..]);
      assert a == [a[0]] + a[1..] && b == [b[0]] + b[1..];
    }
  }

  const STAR := '*' as int
  const QUESTION := '?' as int

  predicate IsStar(u: int) { u == STAR }

  predicate UnitFits(p: int, u: int) { p == QUESTION || p == u }

  /** The regular expression made of one segment: `*` for any units, `?` for any one, the rest literally. */
  predicate SegmentFits(part: string, segment: string) {
    Wild(Units(part), Units(segment), IsStar, UnitFits)
  }

  /** A character of the basic plane is in a string exactly when it is one of its units, unless it is half a pair. */
  lemma {:induction false} UnitIff(s: string, c: char)
    requires c as int < 0xD800
    ensures c in s <==> c as int in Units(s)
  {
    if s != "" {
      UnitIff(s[1..], c);
      assert c in s <==> c == s[0] || c in s[1..];
      var u := s[0] as int;
      var first := if u < 0x10000 then [u] else [0xD800 + (u - 0x10000) / 0x400, 0xDC00 + (u - 0x10000) % 0x400];
      assert Units(s) == first + Units(s[1..]);
      assert c as int in first <==> c == s[0];
    }
  }

  /** A unit of the pattern that is no wildcard is in all that matches. */
  lemma {:induction false} LiteralUnitIsThere(ps: seq<int>, cs: seq<int>, u: int)
    requires u in ps && u != STAR && u != QUESTION && Wild(ps, cs, IsStar, UnitFits)
    ensures u in cs
    decreases |ps| + |cs|
  {
    assert ps == [ps[0]] + ps[1..];
    if IsStar(ps[0]) {
      if Wild(ps[1..], cs, IsStar, UnitFits) {
        LiteralUnitIsThere(ps[1..], cs, u);
      } else {
        LiteralUnitIsThere(ps, cs[1..], u);
        assert cs == [cs[0]] + cs[1..];
      }
    } else if u != ps[0] {
      LiteralUnitIsThere(ps[1..], cs[1..], u);
      assert cs == [cs[0]] + cs[1..];
    }
  }

  // ---------------------------------------------------------------- whole paths

  /** `split('/')` */
  function Split(s: string): (parts: seq<string>)
    ensures parts != []
  {
    if s == "" then [""]
    else if s[0] == '/' then [""] + Split(s[1..])
    else var rest := Split(s[1..]); [[s[0]] + rest[0]] + rest[1..]
  }

  predicate IsGlobstar(part: string) { part == "**" }

  /** `visit`, with its two indices. */
  predicate VisitParts(ps: seq<string>, i: nat, cs: seq<string>, j: nat)
    requires i <= |ps| && j <= |cs|
    decreases |ps| - i + |cs| - j
  {
    if i == |ps| then j == |cs|
    else if ps[i] == "**" then VisitParts(ps, i + 1, cs, j) || (j < |cs| && VisitParts(ps, i, cs, j + 1))
    else if j >= |cs| then false
    else SegmentFits(ps[i], cs[j]) && VisitParts(ps, i + 1, cs, j + 1)
  }

  predicate GlobMatches(pattern: string, candidate: string) {
    VisitParts(Split(pattern), 0, Split(candidate), 0)
  }

  lemma {:induction false} VisitIsWild(ps: seq<string>, i: nat, cs: seq<string>, j: nat)
    requires i <= |ps| && j <= |cs|
    ensures VisitParts(ps, i, cs, j) <==> Wild(ps[i..], cs[j..], IsGlobstar, SegmentFits)
    decreases |ps| - i + |cs| - j
  {
    if i < |ps| {
      assert ps[i..][1..] == ps[i + 1..];
      if j < |cs| { assert cs[j..][1..] == cs[j + 1..]; }
      if ps[i] == "**" {
        VisitIsWild(ps, i + 1, cs, j);
        if j < |cs| { VisitIsWild(ps, i, cs, j + 1); }
      } else if j < |cs| {
        VisitIsWild(ps, i + 1, cs, j + 1);
      }
    }
  }

  ghost predicate GlobAligned(pattern: string, candidate: string, groups: seq<seq<string>>) {
    Aligned(Split(pattern), Split(candidate), groups, IsGlobstar, SegmentFits)
  }

  ghost predicate SegmentAligned(part: string, segment: string, groups: seq<seq<int>>) {
    Aligned(Units(part), Units(segment), groups, IsStar, UnitFits)
  }

  /** A pattern matches exactly when `**` can be given whole segments, none or many, and every other part one segment that fits it. */
  lemma GlobIff(pattern: string, candidate: string)
    ensures GlobMatches(pattern, candidate) <==> exists groups :: GlobAligned(pattern, candidate, groups)
  {
    var ps, cs := Split(pattern), Split(candidate);
    VisitIsWild(ps, 0, cs, 0);
    assert ps[0..] == ps && cs[0..] == cs;
    if GlobMatches(pattern, candidate) {
      var groups := MatchesAligned(ps, cs, IsGlobstar, SegmentFits);
      assert GlobAligned(pattern, candidate, groups);
    }
    if groups :| GlobAligned(pattern, candidate, groups) { AlignedMatches(ps, cs, groups, IsGlobstar, SegmentFits); }
  }

  /** A part fits a segment exactly when each `*` can be given any units, `?` any one unit, and every other unit itself. */
  lemma SegmentIff(part: string, segment: string)
    ensures SegmentFits(part, segment) <==> exists groups :: SegmentAligned(part, segment, groups)
  {
    if SegmentFits(part, segment) {
      var groups := MatchesAligned(Units(part), Units(segment), IsStar, UnitFits);
      assert SegmentAligned(part, segment, groups);
    }
    if groups :| SegmentAligned(part, segment, groups) {
      AlignedMatches(Units(part), Units(segment), groups, IsStar, UnitFits);
    }
  }

  // ---------------------------------------------------------------- literal patterns

  predicate Literal(s: string) {
    '*' !in s && '?' !in s
  }

  predicate LiteralUnits(us: seq<int>) {
    STAR !in us && QUESTION !in us
  }

  lemma {:induction false} LiteralHasNoWildcard(s: string)
    requires Literal(s)
    ensures LiteralUnits(Units(s))
  {
    if s != "" {
      assert s[0] in s;
      assert forall c :: c in s[1..] ==> c in s;
      LiteralHasNoWildcard(s[1..]);
    }
  }

  lemma {:induction false} LiteralMatchesItself(ps: seq<int>, cs: seq<int>)
    requires LiteralUnits(ps)
    ensures Wild(ps, cs, IsStar, UnitFits) <==> ps == cs
  {
    if ps != [] {
      assert ps[0] in ps;
      assert forall u :: u in ps[1..] ==> u in ps;
      if cs != [] {
        LiteralMatchesItself(ps[1..], cs[1..]);
        assert ps == [ps[0]] + ps[1..] && cs == [cs[0]] + cs[1..];
      }
    }
  }

  lemma LiteralFitsItself(part: string, segment: string)
    requires Literal(part)
    ensures SegmentFits(part, segment) <==> part == segment
  {
    LiteralHasNoWildcard(part);
    LiteralMatchesItself(Units(part), Units(segment));
    if Units(part) == Units(segment) { UnitsInjective(part, segment); }
  }

  predicate AllLiteral(ps: seq<string>) {
    forall p :: p in ps ==> Literal(p)
  }

  lemma {:induction false} StarTakesAll(cs: seq<string>)
    ensures Wild(["**"], cs, IsGlobstar, SegmentFits)
    decreases |cs|
  {
    if cs == [] {
      assert ["**"][1..] == [];
      assert Wild([], cs, IsGlobstar, SegmentFits);
    } else {
      StarTakesAll(cs[1..]);
    }
  }

  /** Literal parts before a final `**` match exactly the paths that begin with them. */
  lemma {:induction false} PrefixThenAnything(ps: seq<string>, cs: seq<string>)
    requires AllLiteral(ps)
    ensures Wild(ps + ["**"], cs, IsGlobstar, SegmentFits) <==> ps <= cs
    decreases |ps|
  {
    var pattern := ps + ["**"];
    if ps == [] {
      assert pattern == ["**"];
      StarTakesAll(cs);
    } else {
      assert ps[0] in ps;
      assert pattern[0] == ps[0] && pattern[1..] == ps[1..] + ["**"];
      assert ps[0] != "**" by { assert "**"[0] == '*'; }
      if cs != [] {
        LiteralFitsItself(ps[0], cs[0]);
        PrefixThenAnything(ps[1..], cs[1..]);
        assert ps == [ps[0]] + ps[1..] && cs == [cs[0]] + cs[1..];
        assert ps <= cs <==> ps[0] == cs[0] && ps[1..] <= cs[1..];
      }
    }
  }

  lemma {:induction false} SplitJoined(a: string, b: string)
    ensures Split(a + "/" + b) == Split(a) + Split(b)
  {
    if a == "" {
      assert (a + "/" + b)[1..] == b;
    } else {
      assert (a + "/" + b)[1..] == a[1..] + "/" + b;
      SplitJoined(a[1..], b);
    }
  }

  lemma {:induction false} PartsOfLiteral(s: string)
    requires Literal(s)
    ensures AllLiteral(Split(s))
  {
    if s != "" {
      assert forall c :: c in s[1..] ==> c in s;
      PartsOfLiteral(s[1..]);
      var rest := Split(s[1..]);
      assert rest[0] in rest;
    }
  }

  lemma {:induction false} SplitSingle(s: string)
    requires '/' !in s
    ensures Split(s) == [s]
  {
    if s != "" {
      assert s[0] in s && forall c :: c in s[1..] ==> c in s;
      SplitSingle(s[1..]);
      assert s == [s[0]] + s[1..];
    }
  }

  /** A literal `p` followed by a `**` part matches exactly the paths at or under `p`. */
  lemma SubtreeIff(p: string, candidate: string)
    requires Literal(p)
    ensures GlobMatches(p + "/**", candidate) <==> Split(p) <= Split(candidate)
  {
    assert p + "/**" == p + "/" + "**";
    SplitJoined(p, "**");
    SplitSingle("**");
    PartsOfLiteral(p);
    var ps, cs := Split(p + "/**"), Split(candidate);
    VisitIsWild(ps, 0, cs, 0);
    assert ps[0..] == ps && cs[0..] == cs;
    PrefixThenAnything(Split(p), cs);
  }
}
