/** Where downloaded files end up: which keys stay inside the directory they are downloaded to. */
module Containment {
  import opened Text
  import opened Paths
  import opened Storage

  predicate LeadsUp(parts: seq<string>) {
    parts != [] && parts[0] == ".."
  }

  /** p lies in d or below it, both resolved. */
  predicate Within(p: seq<string>, d: seq<string>) {
    HasPrefix(p, d) && !LeadsUp(p[|d|..])
  }

  /** path lies in the directory dir or below it. */
  predicate Inside(path: string, dir: string) {
    Rooted(path) == Rooted(dir) && Within(Resolved(path), Resolved(dir))
  }

  /** What a relative path amounts to on its own: some ".." and then names. */
  function Relative(rel: string): seq<string> {
    Resolve([], Components(rel), false)
  }

  // ---- resolving behind a directory ----

  lemma {:induction false} ResolveInTurn(done: seq<string>, a: seq<string>, b: seq<string>, rooted: bool)
    ensures Resolve(done, a + b, rooted) == Resolve(Resolve(done, a, rooted), b, rooted)
    decreases |a|
  {
    if a == [] {
      assert a + b == b;
    } else {
      assert (a + b)[0] == a[0] && (a + b)[1..] == a[1..] + b;
      if a[0] == "" || a[0] == "." {
        ResolveInTurn(done, a[1..], b, rooted);
      } else if a[0] == ".." {
        if done != [] && done[|done| - 1] != ".." {
          ResolveInTurn(done[..|done| - 1], a[1..], b, rooted);
        } else if rooted {
          ResolveInTurn(done, a[1..], b, rooted);
        } else {
          ResolveInTurn(done + [".."], a[1..], b, rooted);
        }
      } else {
        ResolveInTurn(done + [a[0]], a[1..], b, rooted);
      }
    }
  }

  /** A leading ".." is never resolved away. */
  lemma {:induction false} UpStays(q: seq<string>, parts: seq<string>)
    requires LeadsUp(q)
    ensures LeadsUp(Resolve(q, parts, false))
    decreases |parts|
  {
    if parts != [] {
      if parts[0] == "" || parts[0] == "." {
        UpStays(q, parts[1..]);
      } else if parts[0] == ".." {
        if q[|q| - 1] != ".." {
          UpStays(q[..|q| - 1], parts[1..]);
        } else {
          UpStays(q + [".."], parts[1..]);
        }
      } else {
        UpStays(q + [parts[0]], parts[1..]);
      }
    }
  }

  /** Components that never lead up are resolved behind a directory as they are on their own. */
  lemma {:induction false} ResolvesBehind(dir: seq<string>, q: seq<string>, parts: seq<string>, rooted: bool)
    requires ".." !in q && !LeadsUp(Resolve(q, parts, false))
    ensures Resolve(dir + q, parts, rooted) == dir + Resolve(q, parts, false)
    decreases |parts|
  {
    if parts != [] {
      if parts[0] == "" || parts[0] == "." {
        ResolvesBehind(dir, q, parts[1..], rooted);
      } else if parts[0] == ".." {
        if q == [] {
          assert q + [".."] == [".."];
          UpStays([".."], parts[1..]);
        } else {
          var n := |q| - 1;
          assert q[n] in q && (dir + q)[|dir + q| - 1] == q[n];
          assert (dir + q)[..|dir + q| - 1] == dir + q[..n];
          ResolvesBehind(dir, q[..n], parts[1..], rooted);
        }
      } else {
        assert dir + q + [parts[0]] == dir + (q + [parts[0]]);
        ResolvesBehind(dir, q + [parts[0]], parts[1..], rooted);
      }
    }
  }

  lemma {:induction false} ResolvesBehindUp(q: seq<string>, parts: seq<string>)
    ensures Resolve([".."] + q, parts, false) == [".."] + Resolve(q, parts, false)
    decreases |parts|
  {
    var u := [".."] + q;
    if parts != [] {
      if parts[0] == "" || parts[0] == "." {
        ResolvesBehindUp(q, parts[1..]);
      } else if parts[0] == ".." {
        if q != [] && q[|q| - 1] != ".." {
          assert u[|u| - 1] == q[|q| - 1] && u[..|u| - 1] == [".."] + q[..|q| - 1];
          ResolvesBehindUp(q[..|q| - 1], parts[1..]);
        } else {
          assert u[|u| - 1] == ".." && u + [".."] == [".."] + (q + [".."]);
          ResolvesBehindUp(q + [".."], parts[1..]);
        }
      } else {
        assert u + [parts[0]] == [".."] + (q + [parts[0]]);
        ResolvesBehindUp(q + [parts[0]], parts[1..]);
      }
    }
  }

  /** Components that lead up leave a directory of one name: the name goes, and one ".." with it. */
  lemma {:induction false} ResolvesOut(name: string, q: seq<string>, parts: seq<string>)
    requires name != ".." && ".." !in q && LeadsUp(Resolve(q, parts, false))
    ensures Resolve([name] + q, parts, false) == Resolve(q, parts, false)[1..]
    decreases |parts|
  {
    var d := [name] + q;
    if q != [] {
      assert q[0] in q;
    }
    if parts != [] {
      if parts[0] == "" || parts[0] == "." {
        ResolvesOut(name, q, parts[1..]);
      } else if parts[0] == ".." {
        if q == [] {
          assert d[..|d| - 1] == [] && q + [".."] == [".."] + [];
          ResolvesBehindUp([], parts[1..]);
        } else {
          var n := |q| - 1;
          assert q[n] in q && d[|d| - 1] == q[n] && d[..|d| - 1] == [name] + q[..n];
          ResolvesOut(name, q[..n], parts[1..]);
        }
      } else {
        assert d + [parts[0]] == [name] + (q + [parts[0]]);
        ResolvesOut(name, q + [parts[0]], parts[1..]);
      }
    }
  }

  // ---- cleaning keeps what a path resolves to ----

  lemma {:induction false} EmptyCleans(rooted: bool)
    ensures Components("/") == ["", ""] && Components(".") == ["."]
    ensures Resolve([], ["", ""], rooted) == [] && Resolve([], ["."], rooted) == []
  {
    assert "/"[1..] == "" && "."[1..] == "" && "" + "." == ".";
    assert "" + ['.'] == ".";
    assert CutFrom("", ".") == CutFrom(".", "");
    assert ["", ""][1..] == [""] && [""][1..] == [] && ["."][1..] == [];
  }

  lemma {:induction false} FirstIsNoSlash(parts: seq<string>, rooted: bool)
    requires parts != [] && IsResolved(parts, rooted)
    ensures JoinSlash(parts) != "" && JoinSlash(parts)[0] != '/'
  {
    var ups: nat :| Ups(parts, rooted, ups);
    assert parts[0] != "" && parts[0][0] in parts[0] && '/' !in parts[0];
    assert JoinSlash(parts)[0] == parts[0][0];
  }

  lemma {:induction false} RootedSkips(parts: seq<string>, rooted: bool)
    ensures Resolve([], (if rooted then [""] else []) + parts, rooted) == Resolve([], parts, rooted)
  {
    assert ([""] + parts)[1..] == parts && [] + parts == parts;
  }

  lemma {:induction false} CleanKeeps(s: string)
    ensures Resolved(Clean(s)) == Resolved(s) && Rooted(Clean(s)) == Rooted(s)
  {
    var parts, rooted := Resolved(s), Rooted(s);
    PrefixResolves(s);
    if parts == [] {
      EmptyCleans(rooted);
    } else {
      ResolvedNoSlashes(parts, rooted);
      RootedComponents(rooted, parts);
      FirstIsNoSlash(parts, rooted);
      StemIsDone(parts, |parts|, rooted);
      assert parts[..|parts|] == parts;
      RootedSkips(parts, rooted);
    }
  }

  /** Cleaning again changes nothing, and nothing cleans to the empty text. */
  lemma {:induction false} CleanTwice(s: string)
    ensures Clean(Clean(s)) == Clean(s) && Clean(s) != ""
    ensures Resolved(s) == [] ==> Clean(s) == if Rooted(s) then "/" else "."
  {
    CleanKeeps(s);
  }

  /** What a path joined to a directory resolves to. */
  lemma {:induction false} JoinResolves(dir: string, rel: string)
    requires dir != ""
    ensures Rooted(Join(dir, rel)) == Rooted(dir)
    ensures Resolved(Join(dir, rel)) == Resolve(Resolved(dir), Components(rel), Rooted(dir))
  {
    var whole := dir + "/" + rel;
    CleanKeeps(whole);
    CutAtSlash("", dir, rel);
    assert Rooted(whole) == Rooted(dir);
    ResolveInTurn([], Components(dir), Components(rel), Rooted(dir));
  }

  // ---- containment ----

  lemma {:induction false} StaysInside(dir: string, rel: string)
    requires dir != "" && !LeadsUp(Relative(rel))
    ensures Inside(Join(dir, rel), dir)
    ensures Resolved(Join(dir, rel)) == Resolved(dir) + Relative(rel)
  {
    JoinResolves(dir, rel);
    assert Resolved(dir) + [] == Resolved(dir);
    ResolvesBehind(Resolved(dir), [], Components(rel), Rooted(dir));
  }

  lemma {:induction false} GoesOutside(name: string, rel: string)
    requires IsName(name) && LeadsUp(Relative(rel))
    requires |Relative(rel)| > 1 ==> Relative(rel)[1] != name
    ensures !Inside(Join(name, rel), name)
  {
    assert name[0] in name;
    RelativeIsClean([name]);
    assert JoinSlash([name]) == name;
    JoinResolves(name, rel);
    assert [name] + [] == [name];
    ResolvesOut(name, [], Components(rel));
    NoPrefix(Relative(rel)[1..], [name], 0);
  }

  /** A relative path stays inside every directory it is joined to exactly if what it amounts to does not lead up. */
  lemma {:induction false} InsideEverywhereIff(rel: string)
    ensures (forall dir | dir != "" :: Inside(Join(dir, rel), dir)) <==> !LeadsUp(Relative(rel))
  {
    if LeadsUp(Relative(rel)) {
      var name := if |Relative(rel)| > 1 && Relative(rel)[1] == "a" then "b" else "a";
      GoesOutside(name, rel);
    } else {
      forall dir | dir != ""
        ensures Inside(Join(dir, rel), dir)
      {
        StaysInside(dir, rel);
      }
    }
  }

  // ---- containment of one call ----

  /** How many ".." a path leads up by. */
  function Up(p: seq<string>): (u: nat)
    ensures u <= |p|
    ensures forall i | 0 <= i < u :: p[i] == ".."
    ensures u < |p| ==> p[u] != ".."
  {
    if LeadsUp(p) then 1 + Up(p[1..]) else 0
  }

  lemma {:induction false} UpIs(p: seq<string>, u: nat)
    requires u <= |p| && (forall i | 0 <= i < u :: p[i] == "..") && (u < |p| ==> p[u] != "..")
    ensures Up(p) == u
  {
    if u > 0 {
      assert forall i | 0 <= i < u - 1 :: p[1..][i] == p[i + 1];
      UpIs(p[1..], u - 1);
    }
  }

  /** Of a resolved path, what follows the leading ".." are names. */
  lemma {:induction false} NamesAfterUp(p: seq<string>, rooted: bool)
    requires IsResolved(p, rooted)
    ensures Ups(p, rooted, Up(p))
  {
    var ups: nat :| Ups(p, rooted, ups);
    UpIs(p, ups);
  }

  lemma {:induction false} RelativeResolves(rel: string)
    ensures IsResolved(Relative(rel), false)
  {
    assert Ups([], false, 0);
    JoinComponents(rel);
    ResolveResolves([], Components(rel), false);
  }

  lemma {:induction false} LongerByUp(q: seq<string>)
    requires IsResolved(q, false) && (q == [] || q[|q| - 1] == "..")
    ensures IsResolved(q + [".."], false) && Up(q) == |q|
  {
    NamesAfterUp(q, false);
    assert Ups(q + [".."], false, |q| + 1);
  }

  /** A name resolved behind a directory is there to be resolved away. */
  lemma {:induction false} PopName(dir: seq<string>, q: seq<string>, rooted: bool)
    requires IsResolved(q, false) && q != [] && q[|q| - 1] != ".."
    ensures var d := Resolve(dir, q, rooted);
            d != [] && d[|d| - 1] != ".." && d[..|d| - 1] == Resolve(dir, q[..|q| - 1], rooted)
  {
    var n := |q| - 1;
    NamesAfterUp(q, false);
    assert IsName(q[n]) && q == q[..n] + [q[n]];
    ResolveNames(dir, q[..n], [q[n]], rooted);
  }

  lemma {:induction false} OneMorePart(done: seq<string>, parts: seq<string>, rooted: bool)
    requires parts != []
    ensures Resolve(done, parts, rooted) == Resolve(Resolve(done, [parts[0]], rooted), parts[1..], rooted)
  {
    assert [parts[0]] + parts[1..] == parts;
    ResolveInTurn(done, [parts[0]], parts[1..], rooted);
  }

  /** Resolving a path behind a directory is resolving there what it amounts to on its own. */
  lemma {:induction false} ThroughNormalForm(dir: seq<string>, q: seq<string>, parts: seq<string>, rooted: bool)
    requires IsResolved(q, false) && NoSlashes(parts)
    ensures Resolve(dir, Resolve(q, parts, false), rooted) == Resolve(Resolve(dir, q, rooted), parts, rooted)
    decreases |parts|
  {
    if parts != [] {
      var n := |q| - 1;
      if parts[0] == "" || parts[0] == "." {
        ThroughNormalForm(dir, q, parts[1..], rooted);
      } else if parts[0] == ".." && q != [] && q[n] != ".." {
        PopName(dir, q, rooted);
        PartOfResolved(q, n, false);
        ThroughNormalForm(dir, q[..n], parts[1..], rooted);
      } else if parts[0] == ".." {
        LongerByUp(q);
        ResolveInTurn(dir, q, [".."], rooted);
        OneMorePart(Resolve(dir, q, rooted), parts, rooted);
        ThroughNormalForm(dir, q + [".."], parts[1..], rooted);
      } else {
        LongerResolved(q, [parts[0]], false);
        ResolveInTurn(dir, q, [parts[0]], rooted);
        OneMorePart(Resolve(dir, q, rooted), parts, rooted);
        ThroughNormalForm(dir, q + [parts[0]], parts[1..], rooted);
      }
    }
  }

  function Dots(m: nat): seq<string> {
    seq(m, _ => "..")
  }

  /** A directory after going up by m. */
  function UpBy(d: seq<string>, rooted: bool, m: nat): seq<string> {
    var k := |d| - Up(d);
    if m <= k then d[..|d| - m] else if rooted then [] else d[..Up(d)] + Dots(m - k)
  }

  lemma {:induction false} UpFromName(d: seq<string>, rooted: bool, m: nat)
    requires Up(d) < |d| && m > 0
    ensures UpBy(d[..|d| - 1], rooted, m - 1) == UpBy(d, rooted, m)
  {
    UpIs(d[..|d| - 1], Up(d));
  }

  lemma {:induction false} UpFromDots(d: seq<string>, m: nat)
    requires Up(d) == |d| && m > 0
    ensures UpBy(d + [".."], false, m - 1) == UpBy(d, false, m)
  {
    UpIs(d + [".."], |d| + 1);
    assert Dots(m) == [".."] + Dots(m - 1);
    assert d[..|d|] == d;
    assert (d + [".."])[..|d| + 1] == d + [".."];
  }

  lemma {:induction false} UpOnce(d: seq<string>, rooted: bool, m: nat)
    requires m > 0
    ensures var up := if d != [] && d[|d| - 1] != ".." then d[..|d| - 1] else if rooted then d else d + [".."];
            Resolve(d, Dots(m), rooted) == Resolve(up, Dots(m - 1), rooted)
  {
    assert Dots(m)[0] == ".." && Dots(m)[1..] == Dots(m - 1);
  }

  lemma {:induction false} GoUp(d: seq<string>, rooted: bool, m: nat)
    requires IsResolved(d, rooted)
    ensures Resolve(d, Dots(m), rooted) == UpBy(d, rooted, m)
    decreases m
  {
    NamesAfterUp(d, rooted);
    var n := |d| - 1;
    if m == 0 {
      assert Dots(0) == [] && d[..|d|] == d;
    } else {
      UpOnce(d, rooted, m);
      if Up(d) < |d| {
        UpFromName(d, rooted, m);
        PartOfResolved(d, n, rooted);
        GoUp(d[..n], rooted, m - 1);
      } else if rooted {
        GoUp(d, rooted, m - 1);
      } else {
        UpFromDots(d, m);
        LongerByUp(d);
        GoUp(d + [".."], rooted, m - 1);
      }
    }
  }

  /**
   * Whether a path r that leads up comes to lie inside the directory d all the same: it has to
   * come back down through the names it left, or, where it was stopped by the root, through all of them.
   */
  predicate Returns(d: seq<string>, r: seq<string>, rooted: bool) {
    var u, k := Up(r), |d| - Up(d);
    u == 0 || if u <= k then HasPrefix(r[u..], d[|d| - u..]) else rooted && HasPrefix(r[u..], d)
  }

  predicate StaysOrReturns(dir: string, rel: string) {
    Returns(Resolved(dir), Relative(rel), Rooted(dir))
  }

  lemma {:induction false} RelativeNames(rel: string)
    ensures var r := Relative(rel); forall i | 0 <= i < |r| - Up(r) :: IsName(r[Up(r)..][i])
  {
    RelativeResolves(rel);
    NamesAfterUp(Relative(rel), false);
  }

  lemma {:induction false} UpThenNames(rel: string)
    ensures var r := Relative(rel); r == Dots(Up(r)) + r[Up(r)..]
  {
  }

  /** Joining a path to a directory resolves there what the path amounts to. */
  lemma {:induction false} JoinResolvesRelative(dir: string, rel: string)
    requires dir != ""
    ensures Resolved(Join(dir, rel)) == Resolve(Resolved(dir), Relative(rel), Rooted(dir))
  {
    JoinResolves(dir, rel);
    JoinComponents(rel);
    assert Ups([], false, 0);
    ThroughNormalForm(Resolved(dir), [], Components(rel), Rooted(dir));
  }

  /** Where a path lands behind a directory: as far up as it leads, and down by its names. */
  lemma {:induction false} Lands(dir: string, rel: string)
    requires dir != ""
    ensures var r := Relative(rel);
            Resolved(Join(dir, rel)) == UpBy(Resolved(dir), Rooted(dir), Up(r)) + r[Up(r)..]
  {
    var d, r, rooted := Resolved(dir), Relative(rel), Rooted(dir);
    PrefixResolves(dir);
    JoinResolvesRelative(dir, rel);
    UpThenNames(rel);
    GoUp(d, rooted, Up(r));
    RelativeNames(rel);
    ResolveNames(d, Dots(Up(r)), r[Up(r)..], rooted);
  }

  lemma {:induction false} PrefixBehind(front: seq<string>, rest: seq<string>, d: seq<string>)
    requires |front| <= |d| && d[..|front|] == front
    ensures HasPrefix(front + rest, d) <==> HasPrefix(rest, d[|front|..])
  {
    assert d == front + d[|front|..];
    if HasPrefix(front + rest, d) {
      assert rest[..|d| - |front|] == (front + rest)[|front|..|d|];
    }
    if HasPrefix(rest, d[|front|..]) {
      assert (front + rest)[..|d|] == front + rest[..|d| - |front|];
    }
  }

  /** Names behind a prefix do not lead up. */
  lemma {:induction false} NamesDoNotLeadUp(front: seq<string>, names: seq<string>, n: nat)
    requires |front| <= n <= |front| + |names| && forall i | 0 <= i < |names| :: IsName(names[i])
    ensures !LeadsUp((front + names)[n..])
  {
    if n < |front| + |names| {
      assert (front + names)[n..][0] == names[n - |front|];
    }
  }

  lemma {:induction false} InsideAfterNames(d: seq<string>, names: seq<string>, u: nat)
    requires u <= |d| && forall i | 0 <= i < |names| :: IsName(names[i])
    ensures var p := d[..|d| - u] + names;
            Within(p, d) <==> u == 0 || HasPrefix(names, d[|d| - u..])
  {
    var front := d[..|d| - u];
    PrefixBehind(front, names, d);
    if HasPrefix(front + names, d) {
      NamesDoNotLeadUp(front, names, |d|);
    }
    if u == 0 {
      assert d[|d|..] == [] && names[..0] == [];
    }
  }

  /** A path that is not rooted and led up past all names of the directory is not inside. */
  lemma {:induction false} OutsideAboveAll(d: seq<string>, m: nat, names: seq<string>)
    requires IsResolved(d, false) && m > 0
    ensures var p := d[..Up(d)] + Dots(m) + names; !Within(p, d)
  {
    NamesAfterUp(d, false);
    var p := d[..Up(d)] + Dots(m) + names;
    assert p[Up(d)] == "..";
    if Up(d) < |d| {
      NoPrefix(p, d, Up(d));
    } else {
      assert p[|d|..][0] == "..";
    }
  }

  lemma {:induction false} InsideFromRoot(d: seq<string>, names: seq<string>)
    requires forall i | 0 <= i < |names| :: IsName(names[i])
    ensures var p := [] + names; Within(p, d) <==> HasPrefix(names, d)
  {
    assert [] + names == names;
    if HasPrefix(names, d) {
      NamesDoNotLeadUp([], names, |d|);
    }
  }

  lemma {:induction false} WithinIff(d: seq<string>, r: seq<string>, rooted: bool)
    requires IsResolved(d, rooted) && forall i | 0 <= i < |r| - Up(r) :: IsName(r[Up(r)..][i])
    ensures Within(UpBy(d, rooted, Up(r)) + r[Up(r)..], d) <==> Returns(d, r, rooted)
  {
    var u, k := Up(r), |d| - Up(d);
    if u <= k {
      InsideAfterNames(d, r[u..], u);
    } else if rooted {
      InsideFromRoot(d, r[u..]);
    } else {
      OutsideAboveAll(d, u - k, r[u..]);
    }
  }

  /** A relative path stays inside the directory it is joined to exactly if it does not lead up or comes back. */
  lemma {:induction false} InsideIff(dir: string, rel: string)
    requires dir != ""
    ensures Inside(Join(dir, rel), dir) <==> StaysOrReturns(dir, rel)
  {
    JoinResolves(dir, rel);
    Lands(dir, rel);
    RelativeNames(rel);
    PrefixResolves(dir);
    WithinIff(Resolved(dir), Relative(rel), Rooted(dir));
  }

  /**
   * The code does not look at what is behind a key's prefix: a listed key is written inside the
   * download directory exactly if its part behind the prefix does not lead up or comes back.
   */
  lemma {:induction false} FetchedInsideIff(dir: string, prefix: string, key: string)
    requires HasPrefix(key, ListPrefix(prefix)) && dir != ""
    ensures Inside(LocalPath(dir, prefix, key), dir) <==> StaysOrReturns(dir, key[|ListPrefix(prefix)|..])
  {
    InsideIff(dir, key[|ListPrefix(prefix)|..]);
  }

  /** Whichever the directory is: exactly if that part does not lead up at all. */
  lemma {:induction false} FetchedInsideEverywhereIff(prefix: string, key: string)
    requires HasPrefix(key, ListPrefix(prefix))
    ensures (forall dir | dir != "" :: Inside(LocalPath(dir, prefix, key), dir)) <==>
            !LeadsUp(Relative(key[|ListPrefix(prefix)|..]))
  {
    var rel := key[|ListPrefix(prefix)|..];
    InsideEverywhereIff(rel);
    assert forall dir :: Inside(LocalPath(dir, prefix, key), dir) <==> Inside(Join(dir, rel), dir);
  }

  // ---- a key that escapes and one that returns ----

  lemma {:induction false} OneUp(names: seq<string>)
    requires names != [] && forall i | 0 <= i < |names| :: IsName(names[i])
    ensures Relative("../" + JoinSlash(names)) == [".."] + names && Up([".."] + names) == 1
  {
    var parts := [".."] + names;
    assert parts[1..] == names;
    assert JoinSlash(parts) == ".." + "/" + JoinSlash(names);
    assert ".." + "/" == "../";
    CutOfJoin(parts);
    assert Ups(parts, false, 1);
    assert [] + parts == parts;
    ResolveAgain([], parts, false);
    UpIs(parts, 1);
  }

  lemma {:induction false} BesideOrBack(dir: string, names: seq<string>)
    requires dir != "" && Up(Resolved(dir)) < |Resolved(dir)|
    requires names != [] && forall i | 0 <= i < |names| :: IsName(names[i])
    ensures Inside(Join(dir, "../" + JoinSlash(names)), dir) <==> names[0] == Resolved(dir)[|Resolved(dir)| - 1]
  {
    var d := Resolved(dir);
    OneUp(names);
    InsideIff(dir, "../" + JoinSlash(names));
    assert d[|d| - 1..] == [d[|d| - 1]];
    assert ([".."] + names)[1..] == names && names[..1] == [names[0]];
  }

  lemma {:induction false} BehindPrefix(dir: string, prefix: string, rel: string)
    ensures HasPrefix(ListPrefix(prefix) + rel, ListPrefix(prefix))
    ensures LocalPath(dir, prefix, ListPrefix(prefix) + rel) == Join(dir, rel)
  {
    assert (ListPrefix(prefix) + rel)[|ListPrefix(prefix)|..] == rel;
  }

  lemma {:induction false} TwoNames(name: string, file: string)
    ensures JoinSlash([file]) == file && "../" + JoinSlash([name, file]) == "../" + name + "/" + file
  {
    assert [name, file][1..] == [file];
    assert "../" + (name + "/" + file) == "../" + name + "/" + file;
  }

  /**
   * The key that goes up by one and names a file beside the directory is written outside of it; the
   * key that goes up and comes back by the directory's own name is written inside.
   */
  lemma {:induction false} KeyBesideEscapes(dir: string, prefix: string, file: string)
    requires dir != "" && Up(Resolved(dir)) < |Resolved(dir)| && IsName(file)
    ensures var base, name := ListPrefix(prefix), Resolved(dir)[|Resolved(dir)| - 1];
            && HasPrefix(base + ("../" + file), base) && HasPrefix(base + ("../" + name + "/" + file), base)
            && (file != name ==> !Inside(LocalPath(dir, prefix, base + ("../" + file)), dir))
            && Inside(LocalPath(dir, prefix, base + ("../" + name + "/" + file)), dir)
  {
    var d, base := Resolved(dir), ListPrefix(prefix);
    var name := d[|d| - 1];
    PrefixResolves(dir);
    NamesAfterUp(d, Rooted(dir));
    BesideOrBack(dir, [file]);
    BesideOrBack(dir, [name, file]);
    TwoNames(name, file);
    BehindPrefix(dir, prefix, "../" + file);
    BehindPrefix(dir, prefix, "../" + name + "/" + file);
  }

  /** What an upload under a clean prefix stored is always written inside. */
  lemma {:induction false} UploadedStaysInside(prefix: string, dir: string, p: seq<string>)
    requires IsRelative(p) && IsCleanPrefix(prefix) && dir != ""
    ensures HasPrefix(Key(prefix, p), ListPrefix(prefix)) && Inside(LocalPath(dir, prefix, Key(prefix, p)), dir)
  {
    KeyIsListedIff(prefix, p);
    RelativeIsClean(p);
    StaysInside(dir, JoinSlash(p));
  }
}
