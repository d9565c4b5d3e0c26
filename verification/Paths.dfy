/** Go's `filepath.Clean` and `filepath.Join` on Unix, on the level of path components. */
module Paths {
  import opened Text

  /** The text cut at slashes, given the part of the current component already read. */
  function CutFrom(part: string, s: string): (r: seq<string>)
    ensures r != []
    decreases |s|
  {
    if s == "" then [part]
    else if s[0] == '/' then [part] + CutFrom("", s[1..])
    else CutFrom(part + [s[0]], s[1..])
  }

  function Components(s: string): seq<string> {
    CutFrom("", s)
  }

  function JoinSlash(parts: seq<string>): string {
    if parts == [] then "" else if |parts| == 1 then parts[0] else parts[0] + "/" + JoinSlash(parts[1..])
  }

  /** A component that names something. */
  predicate IsName(c: string) {
    c != "" && c != "." && c != ".." && '/' !in c
  }

  /** The components left after dropping empty and "." ones and resolving "..". */
  function Resolve(done: seq<string>, parts: seq<string>, rooted: bool): seq<string>
    decreases |parts|
  {
    if parts == [] then done
    else if parts[0] == "" || parts[0] == "." then Resolve(done, parts[1..], rooted)
    else if parts[0] == ".." then
      if done != [] && done[|done| - 1] != ".." then Resolve(done[..|done| - 1], parts[1..], rooted)
      else if rooted then Resolve(done, parts[1..], rooted)
      else Resolve(done + [".."], parts[1..], rooted)
    else Resolve(done + [parts[0]], parts[1..], rooted)
  }

  predicate Rooted(s: string) {
    s != "" && s[0] == '/'
  }

  function Resolved(s: string): seq<string> {
    Resolve([], Components(s), Rooted(s))
  }

  function Root(rooted: bool): string {
    if rooted then "/" else ""
  }

  function Clean(s: string): string {
    var out := Root(Rooted(s)) + JoinSlash(Resolved(s));
    if out == "" then "." else out
  }

  /** `filepath.Join(a, b)` */
  function Join(a: string, b: string): string {
    if a == "" then if b == "" then "" else Clean(b) else Clean(a + "/" + b)
  }

  /** A path below a directory, as its nonempty list of names. */
  predicate IsRelative(p: seq<string>) {
    p != [] && forall i | 0 <= i < |p| :: IsName(p[i])
  }

  // ---- cutting and joining ----

  lemma {:induction false} CutTakes(part: string, c: string, rest: string)
    requires '/' !in c
    ensures CutFrom(part, c + rest) == CutFrom(part + c, rest)
    decreases |c|
  {
    if c == "" {
      assert c + rest == rest && part + c == part;
    } else {
      assert (c + rest)[1..] == c[1..] + rest;
      assert part + [c[0]] + c[1..] == part + c;
      CutTakes(part + [c[0]], c[1..], rest);
    }
  }

  lemma {:induction false} CutAtSlash(part: string, a: string, b: string)
    ensures CutFrom(part, a + "/" + b) == CutFrom(part, a) + Components(b)
    decreases |a|
  {
    if a == "" {
      assert a + "/" + b == "/" + b;
      assert ("/" + b)[1..] == b;
    } else {
      assert (a + "/" + b)[0] == a[0] && (a + "/" + b)[1..] == a[1..] + "/" + b;
      if a[0] == '/' {
        CutAtSlash("", a[1..], b);
      } else {
        CutAtSlash(part + [a[0]], a[1..], b);
      }
    }
  }

  lemma {:induction false} OneComponent(c: string)
    requires '/' !in c
    ensures Components(c) == [c]
  {
    CutTakes("", c, "");
    assert c + "" == c && "" + c == c;
  }

  predicate NoSlashes(parts: seq<string>) {
    forall i | 0 <= i < |parts| :: '/' !in parts[i]
  }

  /** Cutting undoes joining. */
  lemma {:induction false} CutOfJoin(parts: seq<string>)
    requires parts != [] && NoSlashes(parts)
    ensures Components(JoinSlash(parts)) == parts
  {
    if |parts| == 1 {
      OneComponent(parts[0]);
    } else {
      CutAtSlash("", parts[0], JoinSlash(parts[1..]));
      OneComponent(parts[0]);
      CutOfJoin(parts[1..]);
    }
  }

  lemma {:induction false} JoinOfCut(part: string, s: string)
    ensures JoinSlash(CutFrom(part, s)) == part + s
    ensures '/' !in part ==> NoSlashes(CutFrom(part, s))
    decreases |s|
  {
    if s == "" {
      assert part + s == part;
    } else if s[0] == '/' {
      JoinOfCut("", s[1..]);
      var rest := CutFrom("", s[1..]);
      assert ([part] + rest)[1..] == rest;
      assert part + "/" + ("" + s[1..]) == part + s;
    } else {
      JoinOfCut(part + [s[0]], s[1..]);
      assert part + [s[0]] + s[1..] == part + s;
    }
  }

  /** A text is the join of its components. */
  lemma {:induction false} JoinComponents(s: string)
    ensures JoinSlash(Components(s)) == s && NoSlashes(Components(s))
  {
    JoinOfCut("", s);
    assert "" + s == s;
  }

  lemma {:induction false} JoinAppends(a: seq<string>, b: seq<string>)
    requires a != [] && b != []
    ensures JoinSlash(a + b) == JoinSlash(a) + "/" + JoinSlash(b)
  {
    if |a| == 1 {
      assert (a + b)[1..] == b;
    } else {
      assert (a + b)[1..] == a[1..] + b;
      JoinAppends(a[1..], b);
    }
  }

  // ---- resolving ----

  predicate Ups(done: seq<string>, rooted: bool, ups: nat) {
    && ups <= |done| && (rooted ==> ups == 0)
    && (forall i | 0 <= i < ups :: done[i] == "..")
    && (forall i | ups <= i < |done| :: IsName(done[i]))
  }

  /** What resolving leaves: names, after some ".." if the path is not rooted. */
  ghost predicate IsResolved(done: seq<string>, rooted: bool) {
    exists ups: nat :: Ups(done, rooted, ups)
  }

  lemma {:induction false} ResolveResolves(done: seq<string>, parts: seq<string>, rooted: bool)
    requires IsResolved(done, rooted) && NoSlashes(parts)
    ensures IsResolved(Resolve(done, parts, rooted), rooted)
    decreases |parts|
  {
    if parts != [] {
      var ups: nat :| Ups(done, rooted, ups);
      var n := |done|;
      if parts[0] == "" || parts[0] == "." {
        ResolveResolves(done, parts[1..], rooted);
      } else if parts[0] == ".." {
        if done != [] && done[n - 1] != ".." {
          assert Ups(done[..n - 1], rooted, ups);
          ResolveResolves(done[..n - 1], parts[1..], rooted);
        } else if rooted {
          ResolveResolves(done, parts[1..], rooted);
        } else {
          assert Ups(done + [".."], rooted, n + 1);
          ResolveResolves(done + [".."], parts[1..], rooted);
        }
      } else {
        assert Ups(done + [parts[0]], rooted, ups);
        ResolveResolves(done + [parts[0]], parts[1..], rooted);
      }
    }
  }

  lemma {:induction false} ResolveNames(done: seq<string>, a: seq<string>, names: seq<string>, rooted: bool)
    requires forall i | 0 <= i < |names| :: IsName(names[i])
    ensures Resolve(done, a + names, rooted) == Resolve(done, a, rooted) + names
    decreases |a| + |names|
  {
    if a != [] {
      assert (a + names)[0] == a[0] && (a + names)[1..] == a[1..] + names;
      if a[0] == "" || a[0] == "." {
        ResolveNames(done, a[1..], names, rooted);
      } else if a[0] == ".." {
        if done != [] && done[|done| - 1] != ".." {
          ResolveNames(done[..|done| - 1], a[1..], names, rooted);
        } else if rooted {
          ResolveNames(done, a[1..], names, rooted);
        } else {
          ResolveNames(done + [".."], a[1..], names, rooted);
        }
      } else {
        ResolveNames(done + [a[0]], a[1..], names, rooted);
      }
    } else if names != [] {
      assert a + names == names;
      ResolveNames(done + [names[0]], [], names[1..], rooted);
      assert [] + names[1..] == names[1..];
      assert done + [names[0]] + names[1..] == done + names;
    } else {
      assert a + names == [] && done + names == done;
    }
  }

  /** Resolving what is resolved changes nothing. */
  lemma {:induction false} ResolveAgain(done: seq<string>, parts: seq<string>, rooted: bool)
    requires IsResolved(done + parts, rooted)
    ensures Resolve(done, parts, rooted) == done + parts
    decreases |parts|
  {
    if parts == [] {
      assert done + parts == done;
    } else {
      var ups: nat :| Ups(done + parts, rooted, ups);
      assert (done + parts)[|done|] == parts[0];
      assert done + parts == (done + [parts[0]]) + parts[1..];
      if parts[0] == ".." && done != [] {
        assert (done + parts)[|done| - 1] == done[|done| - 1];
        assert |done| < ups;
      }
      ResolveAgain(done + [parts[0]], parts[1..], rooted);
    }
  }

  lemma {:induction false} PartOfResolved(done: seq<string>, k: nat, rooted: bool)
    requires k <= |done| && IsResolved(done, rooted)
    ensures IsResolved(done[..k], rooted)
  {
    var ups: nat :| Ups(done, rooted, ups);
    assert Ups(done[..k], rooted, Min(ups, k));
  }

  // ---- joining a relative path to a base ----

  /** What `Join` puts in front of a relative path. */
  function Base(prefix: string): string {
    if prefix == "" then ""
    else Root(Rooted(prefix)) + if Resolved(prefix) == [] then "" else JoinSlash(Resolved(prefix)) + "/"
  }

  lemma {:induction false} RelativeIsClean(p: seq<string>)
    requires IsRelative(p)
    ensures Components(JoinSlash(p)) == p && Resolved(JoinSlash(p)) == p
    ensures JoinSlash(p) != "" && !Rooted(JoinSlash(p))
    ensures Clean(JoinSlash(p)) == JoinSlash(p)
  {
    CutOfJoin(p);
    assert JoinSlash(p)[0] == p[0][0];
    ResolveNames([], [], p, false);
    assert [] + p == p;
  }

  /** `Join` of a prefix and a relative path is the prefix's base with the path behind it. */
  lemma {:induction false} JoinForm(prefix: string, p: seq<string>)
    requires IsRelative(p)
    ensures Join(prefix, JoinSlash(p)) == Base(prefix) + JoinSlash(p)
  {
    RelativeIsClean(p);
    if prefix != "" {
      var whole := prefix + "/" + JoinSlash(p);
      CutAtSlash("", prefix, JoinSlash(p));
      assert Rooted(whole) == Rooted(prefix);
      ResolveNames([], Components(prefix), p, Rooted(prefix));
      assert Resolved(whole) == Resolved(prefix) + p;
      if Resolved(prefix) == [] {
        assert Resolved(whole) == p;
      } else {
        JoinAppends(Resolved(prefix), p);
      }
    }
  }

  /** Different relative paths stay different under any prefix. */
  lemma {:induction false} JoinIsInjective(prefix: string, p: seq<string>, q: seq<string>)
    requires IsRelative(p) && IsRelative(q)
    requires Join(prefix, JoinSlash(p)) == Join(prefix, JoinSlash(q))
    ensures p == q
  {
    JoinForm(prefix, p);
    JoinForm(prefix, q);
    var n := |Base(prefix)|;
    assert JoinSlash(p) == (Base(prefix) + JoinSlash(p))[n..] == (Base(prefix) + JoinSlash(q))[n..] == JoinSlash(q);
    RelativeIsClean(p);
    RelativeIsClean(q);
  }
}
