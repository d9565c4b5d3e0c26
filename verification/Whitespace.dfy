/** Go's `strings.TrimSpace` on UTF-8 bytes. */
module Whitespace {
  import opened Text
  import Json

  /** The UTF-8 encoding of one code point with the Unicode property White_Space. */
  predicate IsSpace(u: seq<byte>) {
    || (|u| == 1 && (0x09 <= u[0] <= 0x0D || u[0] == 0x20))
    || (|u| == 2 && u[0] == 0xC2 && (u[1] == 0x85 || u[1] == 0xA0))
    || (|u| == 3 && u[0] == 0xE1 && u[1] == 0x9A && u[2] == 0x80)
    || (|u| == 3 && u[0] == 0xE2 && u[1] == 0x80 && (0x80 <= u[2] <= 0x8A || u[2] == 0xA8 || u[2] == 0xA9 || u[2] == 0xAF))
    || (|u| == 3 && u[0] == 0xE2 && u[1] == 0x81 && u[2] == 0x9F)
    || (|u| == 3 && u[0] == 0xE3 && u[1] == 0x80 && u[2] == 0x80)
  }

  /** How many bytes of whitespace code point s starts with; 0 if none. */
  function LeadLen(s: seq<byte>): (n: nat)
    ensures n <= |s| && n <= 3
    ensures n > 0 ==> IsSpace(s[..n])
    ensures n == 0 ==> forall k | 0 < k <= 3 && k <= |s| :: !IsSpace(s[..k])
  {
    if |s| >= 1 && IsSpace(s[..1]) then 1
    else if |s| >= 2 && IsSpace(s[..2]) then 2
    else if |s| >= 3 && IsSpace(s[..3]) then 3
    else 0
  }

  function TrailLen(s: seq<byte>): (n: nat)
    ensures n <= |s| && n <= 3
    ensures n > 0 ==> IsSpace(s[|s| - n..])
  {
    if |s| >= 1 && IsSpace(s[|s| - 1..]) then 1
    else if |s| >= 2 && IsSpace(s[|s| - 2..]) then 2
    else if |s| >= 3 && IsSpace(s[|s| - 3..]) then 3
    else 0
  }

  function TrimLeft(s: seq<byte>): seq<byte> {
    if LeadLen(s) == 0 then s else TrimLeft(s[LeadLen(s)..])
  }

  function TrimRight(s: seq<byte>): seq<byte> {
    if TrailLen(s) == 0 then s else TrimRight(s[..|s| - TrailLen(s)])
  }

  function TrimSpace(s: seq<byte>): seq<byte> {
    TrimRight(TrimLeft(s))
  }

  ghost predicate AllSpaces(units: seq<seq<byte>>) {
    forall k | 0 <= k < |units| :: IsSpace(units[k])
  }

  ghost predicate WrapsWith(a: seq<byte>, core: seq<byte>, l: seq<seq<byte>>, r: seq<seq<byte>>) {
    AllSpaces(l) && AllSpaces(r) && a == Concat(l) + core + Concat(r)
  }

  /** a is `core` with whitespace before and after it. */
  ghost predicate Wraps(a: seq<byte>, core: seq<byte>) {
    exists l, r :: WrapsWith(a, core, l, r)
  }

  ghost predicate EqualUpToSurroundingSpace(a: seq<byte>, b: seq<byte>) {
    exists core :: Wraps(a, core) && Wraps(b, core)
  }

  lemma {:induction false} LeadOfUnit(u: seq<byte>, x: seq<byte>)
    requires IsSpace(u)
    ensures LeadLen(u + x) == |u|
  {
    var s := u + x;
    assert s[..|u|] == u;
    if |u| > 1 { assert s[..1] == [u[0]] && !IsSpace([u[0]]); }
    if |u| > 2 { assert s[..2] == [u[0], u[1]] && !IsSpace([u[0], u[1]]); }
  }

  lemma {:induction false} TrailOfUnit(x: seq<byte>, u: seq<byte>)
    requires IsSpace(u)
    ensures TrailLen(x + u) == |u|
  {
    var s := x + u;
    assert s[|s| - |u|..] == u;
    if |u| > 1 { assert s[|s| - 1..] == [u[|u| - 1]] && !IsSpace([u[|u| - 1]]); }
    if |u| > 2 { assert s[|s| - 2..] == [u[1], u[2]] && !IsSpace([u[1], u[2]]); }
  }

  lemma {:induction false} SpaceBefore(u: seq<byte>, x: seq<byte>)
    requires IsSpace(u)
    ensures TrimSpace(u + x) == TrimSpace(x)
  {
    LeadOfUnit(u, x);
    assert (u + x)[|u|..] == x;
  }

  /** A following unit starts with no continuation byte, so it cannot complete a unit begun in x. */
  lemma {:induction false} NoUnitAcross(x: seq<byte>, u: seq<byte>)
    requires x != [] && LeadLen(x) == 0 && IsSpace(u)
    ensures LeadLen(x + u) == 0
  {
    var s := x + u;
    forall k | 0 < k <= 3 && k <= |s|
      ensures !IsSpace(s[..k])
    {
      if k <= |x| {
        assert s[..k] == x[..k];
      } else {
        assert s[..k][|x|] == u[0];
      }
    }
  }

  lemma {:induction false} SpaceAfter(x: seq<byte>, u: seq<byte>)
    requires IsSpace(u)
    ensures TrimSpace(x + u) == TrimSpace(x)
    decreases |x|
  {
    if x == [] {
      assert x + u == u + [];
      SpaceBefore(u, []);
    } else if LeadLen(x) == 0 {
      NoUnitAcross(x, u);
      TrailOfUnit(x, u);
      assert (x + u)[..|x|] == x;
    } else {
      var n := LeadLen(x);
      LeadOfUnit(x[..n], x[n..] + u);
      assert x[..n] + (x[n..] + u) == x + u;
      assert (x + u)[n..] == x[n..] + u;
      SpaceAfter(x[n..], u);
    }
  }

  lemma {:induction false} SpacesBefore(l: seq<seq<byte>>, x: seq<byte>)
    requires AllSpaces(l)
    ensures TrimSpace(Concat(l) + x) == TrimSpace(x)
  {
    if l == [] {
      assert Concat(l) + x == x;
    } else {
      var init, u := l[..|l| - 1], l[|l| - 1];
      assert Concat(l) + x == Concat(init) + (u + x);
      SpacesBefore(init, u + x);
      SpaceBefore(u, x);
    }
  }

  lemma {:induction false} SpacesAfter(x: seq<byte>, r: seq<seq<byte>>)
    requires AllSpaces(r)
    ensures TrimSpace(x + Concat(r)) == TrimSpace(x)
  {
    if r == [] {
      assert x + Concat(r) == x;
    } else {
      var init, u := r[..|r| - 1], r[|r| - 1];
      assert x + Concat(r) == (x + Concat(init)) + u;
      SpaceAfter(x + Concat(init), u);
      SpacesAfter(x, init);
    }
  }

  lemma {:induction false} OneMoreBefore(u: seq<byte>, l: seq<seq<byte>>, core: seq<byte>)
    requires IsSpace(u) && AllSpaces(l)
    ensures AllSpaces([u] + l) && Concat([u] + l) + core == u + (Concat(l) + core)
  {
    ConcatAppends([u], l);
    ConcatOne(u);
    JoinIsAssociative(u, Concat(l), core);
  }

  lemma {:induction false} OneMoreAfter(core: seq<byte>, r: seq<seq<byte>>, u: seq<byte>)
    requires IsSpace(u) && AllSpaces(r)
    ensures AllSpaces(r + [u]) && core + Concat(r + [u]) == (core + Concat(r)) + u
  {
    ConcatPushes(r, u);
    JoinIsAssociative(core, Concat(r), u);
  }

  lemma {:induction false} LeftPart(s: seq<byte>) returns (l: seq<seq<byte>>)
    ensures AllSpaces(l) && s == Concat(l) + TrimLeft(s)
  {
    var n := LeadLen(s);
    l := [];
    if n > 0 {
      var u, rest := s[..n], s[n..];
      l := LeftPart(rest);
      OneMoreBefore(u, l, TrimLeft(rest));
      l := [u] + l;
    }
  }

  lemma {:induction false} RightPart(s: seq<byte>) returns (r: seq<seq<byte>>)
    ensures AllSpaces(r) && s == TrimRight(s) + Concat(r)
  {
    var n := |s| - TrailLen(s);
    r := [];
    if n < |s| {
      var front, u := s[..n], s[n..];
      r := RightPart(front);
      OneMoreAfter(TrimRight(front), r, u);
      r := r + [u];
    }
  }

  lemma {:induction false} TrimIsWrapped(a: seq<byte>)
    ensures Wraps(a, TrimSpace(a))
  {
    var l := LeftPart(a);
    var r := RightPart(TrimLeft(a));
    JoinIsAssociative(Concat(l), TrimSpace(a), Concat(r));
    assert WrapsWith(a, TrimSpace(a), l, r);
  }

  lemma {:induction false} WrappedTrims(a: seq<byte>, core: seq<byte>)
    requires Wraps(a, core)
    ensures TrimSpace(a) == TrimSpace(core)
  {
    var l, r :| WrapsWith(a, core, l, r);
    assert a == Concat(l) + (core + Concat(r));
    SpacesBefore(l, core + Concat(r));
    SpacesAfter(core, r);
  }

  /** Comparing the trimmed texts is exactly comparing up to surrounding whitespace. */
  lemma {:induction false} TrimComparesUpToSpace(a: seq<byte>, b: seq<byte>)
    ensures TrimSpace(a) == TrimSpace(b) <==> EqualUpToSurroundingSpace(a, b)
  {
    TrimIsWrapped(a);
    TrimIsWrapped(b);
    if EqualUpToSurroundingSpace(a, b) {
      var core :| Wraps(a, core) && Wraps(b, core);
      WrappedTrims(a, core);
      WrappedTrims(b, core);
    }
  }

  lemma {:induction false} TrimIsNoLonger(a: seq<byte>)
    ensures |TrimSpace(a)| <= |a|
  {
    TrimIsWrapped(a);
    var l, r :| WrapsWith(a, TrimSpace(a), l, r);
  }

  /** Trimming changes nothing but surrounding whitespace. */
  lemma {:induction false} TrimmedIsEqual(a: seq<byte>)
    ensures EqualUpToSurroundingSpace(TrimSpace(a), a)
  {
    var core := TrimSpace(a);
    TrimIsWrapped(a);
    assert Concat<byte>([]) == [] && core == Concat([]) + core + Concat([]);
    assert WrapsWith(core, core, [], []);
    assert Wraps(core, core) && Wraps(a, core);
  }

  // ---- which bytes are whitespace ----

  /** The six ASCII whitespace characters, at either end of any text. */
  lemma {:induction false} AsciiSpaceTrims(x: seq<byte>, b: byte)
    requires b in {9, 10, 11, 12, 13, 32}
    ensures TrimSpace(x + [b]) == TrimSpace(x) == TrimSpace([b] + x)
  {
    SpaceAfter(x, [b]);
    SpaceBefore([b], x);
  }

  /** Both line breaks in use. */
  lemma {:induction false} LineBreakTrims(x: seq<byte>, end: seq<byte>)
    requires end == [10] || end == [13, 10]
    ensures TrimSpace(x + end) == TrimSpace(x)
  {
    if |end| == 1 {
      AsciiSpaceTrims(x, 10);
    } else {
      AsciiSpaceTrims(x, 13);
      AsciiSpaceTrims(x + [13], 10);
      assert x + end == x + [13] + [10];
    }
  }

  /** The text begins and ends with a visible ASCII character. */
  predicate BetweenVisible(x: seq<byte>) {
    x != [] && 0x21 <= x[0] <= 0x7E && 0x21 <= x[|x| - 1] <= 0x7E
  }

  lemma {:induction false} UnitEdges(u: seq<byte>)
    requires IsSpace(u)
    ensures u != [] && !(0x21 <= u[0] <= 0x7E) && !(0x21 <= u[|u| - 1] <= 0x7E)
  {
  }

  /** Nothing is trimmed from such a text. */
  lemma {:induction false} VisibleStays(x: seq<byte>)
    requires BetweenVisible(x)
    ensures TrimSpace(x) == x
  {
    var l, t := LeadLen(x), TrailLen(x);
    if l > 0 {
      UnitEdges(x[..l]);
    }
    if t > 0 {
      UnitEdges(x[|x| - t..]);
    }
  }

  /** The code points with the Unicode property White_Space. */
  const WHITE_SPACE: set<nat> :=
    {0x09, 0x0A, 0x0B, 0x0C, 0x0D, 0x20, 0x85, 0xA0, 0x1680,
     0x2000, 0x2001, 0x2002, 0x2003, 0x2004, 0x2005, 0x2006, 0x2007, 0x2008, 0x2009, 0x200A,
     0x2028, 0x2029, 0x202F, 0x205F, 0x3000}

  /**
   * The byte patterns above are exactly the encodings of those code points: a unit decodes as one
   * whole code point, and that one is in the list.
   */
  lemma {:induction false} SpaceIsWhiteSpace(u: seq<byte>)
    ensures IsSpace(u) <==>
            && u != []
            && var r := Json.DecodeRune(u);
               r.Scalar? && Json.Width(r) == |u| && r.c as int in WHITE_SPACE
  {
  }
}
