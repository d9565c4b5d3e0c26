/**
 * From the uploaded directory to the judge: what the agent finds among the files that a download
 * has restored is what it would have found in the directory that was uploaded.
 */
module Testsets {
  import opened Text
  import opened Paths
  import opened Storage
  import TestFiles

  function LastOf(p: seq<string>): string
    requires p != []
  {
    p[|p| - 1]
  }

  /** A name that ends in `.in` or `.out`. */
  predicate EndsInOrOut(name: string) {
    HasSuffix(name, ".in") || HasSuffix(name, ".out")
  }

  lemma {:induction false} SuffixOfLast(p: seq<string>, suffix: string)
    requires IsRelative(p) && '/' !in suffix
    ensures HasSuffix(JoinSlash(p), suffix) <==> HasSuffix(LastOf(p), suffix)
  {
    var n := |p| - 1;
    if n > 0 {
      assert p == p[..n] + [p[n]];
      JoinAppends(p[..n], [p[n]]);
      SuffixOfJoin(JoinSlash(p[..n]) + "/", p[n], suffix);
    }
  }

  lemma {:induction false} TestFileByName(p: seq<string>)
    requires IsRelative(p)
    ensures IsTestFile(p) <==> EndsInOrOut(LastOf(p))
  {
    SuffixOfLast(p, ".in");
    SuffixOfLast(p, ".out");
  }

  /**
   * A round trip restores a regular file, with its contents, exactly if its name ends in `.in` or
   * `.out`, and nothing else.
   */
  lemma {:induction false} RestoredByName(local: map<string, seq<byte>>, dir: string, tree: Tree)
    requires IsTree(tree) && Restored(local, dir, tree)
    ensures forall p | IsFile(tree, p) :: LocalName(dir, p) in local <==> EndsInOrOut(LastOf(p))
    ensures forall p | IsFile(tree, p) && LocalName(dir, p) in local :: local[LocalName(dir, p)] == tree[p].content
    ensures forall f | f in local :: exists p :: IsFile(tree, p) && f == LocalName(dir, p)
  {
    forall p | IsFile(tree, p)
      ensures LocalName(dir, p) in local <==> EndsInOrOut(LastOf(p))
      ensures LocalName(dir, p) in local ==> local[LocalName(dir, p)] == tree[p].content
    {
      TestFileByName(p);
      if LocalName(dir, p) in local {
        var q :| IsFile(tree, q) && IsTestFile(q) && LocalName(dir, p) == LocalName(dir, q);
        JoinIsInjective(dir, p, q);
      }
    }
  }

  // ---- what the agent looks at ----

  /** The names of the regular files at the top of the tree. */
  function TopFiles(tree: Tree): TestFiles.TestDir {
    set p | p in tree && tree[p].Regular? && |p| == 1 :: p[0]
  }

  /** The last component of a path. */
  function LastName(path: string): string {
    Components(path)[|Components(path)| - 1]
  }

  /** The names under which files lie directly in the directory. */
  function NamesIn(local: map<string, seq<byte>>, dir: string): TestFiles.TestDir {
    set f | f in local && f == Join(dir, LastName(f)) :: LastName(f)
  }

  lemma {:induction false} LastNameOf(dir: string, p: seq<string>)
    requires IsRelative(p)
    ensures LastName(LocalName(dir, p)) == LastOf(p)
  {
    KeyComponents(dir, p);
  }

  lemma {:induction false} SingleName(name: string)
    requires IsName(name)
    ensures IsRelative([name]) && JoinSlash([name]) == name
  {
  }

  lemma {:induction false} TopName(tree: Tree, name: string)
    requires IsTree(tree)
    ensures name in TopFiles(tree) <==> IsFile(tree, [name])
  {
    if name in TopFiles(tree) {
      var p :| p in tree && tree[p].Regular? && |p| == 1 && p[0] == name;
      assert p == [name];
    }
    if IsFile(tree, [name]) {
      assert [name][0] == name;
    }
  }

  /** A name is among the restored ones exactly if it is one of the tree's and ends in `.in` or `.out`. */
  lemma {:induction false} RestoredName(local: map<string, seq<byte>>, dir: string, tree: Tree, name: string)
    requires IsTree(tree) && Restored(local, dir, tree)
    ensures name in NamesIn(local, dir) <==> name in TopFiles(tree) && EndsInOrOut(name)
  {
    RestoredByName(local, dir, tree);
    TopName(tree, name);
    if name in NamesIn(local, dir) {
      var f :| f in local && f == Join(dir, LastName(f)) && name == LastName(f);
      var p :| IsFile(tree, p) && f == LocalName(dir, p);
      LastNameOf(dir, p);
      SingleName(name);
      JoinIsInjective(dir, p, [name]);
    }
    if IsFile(tree, [name]) && EndsInOrOut(name) {
      SingleName(name);
      LastNameOf(dir, [name]);
      assert LocalName(dir, [name]) in local;
    }
  }

  lemma {:induction false} PairEnds(i: nat, k: nat)
    ensures var p := TestFiles.PairAt(i, k); EndsInOrOut(p.input) && EndsInOrOut(p.output)
  {
    var s := TestFiles.Spelling(i, k);
    assert (s + ".in")[|s|..] == ".in" && (s + ".out")[|s|..] == ".out";
  }

  /** Two directories with the same `.in` and `.out` names hold the same tests. */
  lemma {:induction false} SameTestsFrom(a: TestFiles.TestDir, b: TestFiles.TestDir, i: nat, from: nat)
    requires from <= TestFiles.WIDTHS && forall name | EndsInOrOut(name) :: name in a <==> name in b
    ensures TestFiles.FindFrom(a, i, from) == TestFiles.FindFrom(b, i, from)
    decreases TestFiles.WIDTHS - from
  {
    if from < TestFiles.WIDTHS {
      PairEnds(i, from);
      SameTestsFrom(a, b, i, from + 1);
    }
  }

  /**
   * A testset uploaded under a clean prefix that nothing lay under, and downloaded into an empty
   * directory, gives the judge the tests it was uploaded with: for every index the same pair of
   * files is found or none, and every file found has its contents.
   */
  lemma {:induction false} JudgeFindsUploaded(
    before: Objects, after: Objects, prefix: string, dir: string, tree: Tree, pages: seq<seq<string>>, i: nat)
    requires IsTree(tree) && Stored(before, after, prefix, tree) && NothingUnder(before, prefix)
    requires Lists(pages, after, prefix) && IsCleanPrefix(prefix)
    ensures AllUnder(Concat(pages), after, prefix)
    ensures var local := Fetched(map[], Concat(pages), after, prefix, dir);
            && TestFiles.FindTestcaseFiles(NamesIn(local, dir), i) == TestFiles.FindTestcaseFiles(TopFiles(tree), i)
            && forall name | name in NamesIn(local, dir) ::
                 IsFile(tree, [name]) && Join(dir, name) in local && local[Join(dir, name)] == tree[[name]].content
  {
    UploadDownloadRoundTrip(before, after, prefix, dir, tree, pages);
    var local := Fetched(map[], Concat(pages), after, prefix, dir);
    forall name | EndsInOrOut(name)
      ensures name in NamesIn(local, dir) <==> name in TopFiles(tree)
    {
      RestoredName(local, dir, tree, name);
    }
    SameTestsFrom(NamesIn(local, dir), TopFiles(tree), i, 0);
    forall name | name in NamesIn(local, dir)
      ensures IsFile(tree, [name]) && Join(dir, name) in local && local[Join(dir, name)] == tree[[name]].content
    {
      RestoredName(local, dir, tree, name);
      TopName(tree, name);
      RestoredByName(local, dir, tree);
      assert LocalName(dir, [name]) == Join(dir, name);
    }
  }

  /** So the number of tests is the same. */
  lemma {:induction false} JudgeCountsUploaded(
    before: Objects, after: Objects, prefix: string, dir: string, tree: Tree, pages: seq<seq<string>>)
    requires IsTree(tree) && Stored(before, after, prefix, tree) && NothingUnder(before, prefix)
    requires Lists(pages, after, prefix) && IsCleanPrefix(prefix)
    ensures AllUnder(Concat(pages), after, prefix)
    ensures TestFiles.TestCount(NamesIn(Fetched(map[], Concat(pages), after, prefix, dir), dir)) ==
            TestFiles.TestCount(TopFiles(tree))
  {
    UploadDownloadRoundTrip(before, after, prefix, dir, tree, pages);
    var a := NamesIn(Fetched(map[], Concat(pages), after, prefix, dir), dir);
    var b := TopFiles(tree);
    forall i: nat
      ensures TestFiles.Exists(a, i) <==> TestFiles.Exists(b, i)
    {
      JudgeFindsUploaded(before, after, prefix, dir, tree, pages, i);
    }
    var m, n := TestFiles.TestCount(a), TestFiles.TestCount(b);
    assert TestFiles.Exists(a, m + 1) <==> TestFiles.Exists(b, m + 1);
    assert TestFiles.Exists(a, n + 1) <==> TestFiles.Exists(b, n + 1);
  }
}
