/**
 * shared/s3manager.go: directories of test files in an object store. A bucket is a map from keys
 * to contents; a listing is any split of the keys under a prefix into pages.
 */
module Storage {
  import opened Text
  import opened Paths

  type Objects = map<string, seq<byte>>

  datatype Entry = Regular(content: seq<byte>) | Directory | Special

  /** A directory tree: what is at each relative path. */
  type Tree = map<seq<string>, Entry>

  ghost predicate IsTree(tree: Tree) {
    forall p | p in tree :: IsRelative(p)
  }

  function Key(prefix: string, p: seq<string>): string {
    Join(prefix, JoinSlash(p))
  }

  /** The prefix that downloads and existence checks list under. */
  function ListPrefix(prefix: string): string {
    if HasSuffix(prefix, "/") then prefix else prefix + "/"
  }

  /** `.in` and `.out` keys are fetched, others only counted. */
  predicate IsWanted(key: string) {
    HasSuffix(key, ".in") || HasSuffix(key, ".out")
  }

  predicate IsFolderMarker(key: string) {
    HasSuffix(key, "/")
  }

  /** Keys whose object is fetched. */
  predicate IsFetched(key: string) {
    !IsFolderMarker(key) && IsWanted(key)
  }

  // ---- upload ----

  ghost predicate IsFile(tree: Tree, p: seq<string>) {
    p in tree && tree[p].Regular?
  }

  /** after is before with exactly the regular files of the tree stored under their keys. */
  ghost predicate Stored(before: Objects, after: Objects, prefix: string, tree: Tree) {
    && (forall p | IsFile(tree, p) :: Key(prefix, p) in after && after[Key(prefix, p)] == tree[p].content)
    && (forall k | k in after :: (exists p :: IsFile(tree, p) && k == Key(prefix, p)) || (k in before && after[k] == before[k]))
    && (forall k | k in before :: k in after)
  }

  class Bucket {
    var objects: Objects

    constructor ()
      ensures objects == map[]
    {
      objects := map[];
    }

    /** `UploadFileToS3` */
    method Put(key: string, content: seq<byte>, accepted: bool) returns (ok: bool)
      modifies this
      ensures ok == accepted
      ensures objects == if accepted then old(objects)[key := content] else old(objects)
    {
      if accepted {
        objects := objects[key := content];
      }
      ok := accepted;
    }
  }

  /** The part of a walk already done. */
  ghost predicate StoredUpTo(before: Objects, after: Objects, prefix: string, tree: Tree, walk: seq<seq<string>>, n: nat)
    requires n <= |walk|
  {
    && (forall i | 0 <= i < n && IsFile(tree, walk[i]) :: Key(prefix, walk[i]) in after && after[Key(prefix, walk[i])] == tree[walk[i]].content)
    && (forall k | k in after ::
          (exists i | 0 <= i < n :: IsFile(tree, walk[i]) && k == Key(prefix, walk[i])) || (k in before && after[k] == before[k]))
    && (forall k | k in before :: k in after)
  }

  lemma {:induction false} FilesStayStored(
    after: Objects, prefix: string, tree: Tree, walk: seq<seq<string>>, n: nat, i: nat)
    requires IsTree(tree) && i <= n < |walk| && IsFile(tree, walk[n]) && IsFile(tree, walk[i])
    requires i < n ==> Key(prefix, walk[i]) in after && after[Key(prefix, walk[i])] == tree[walk[i]].content
    ensures var next := after[Key(prefix, walk[n]) := tree[walk[n]].content];
            Key(prefix, walk[i]) in next && next[Key(prefix, walk[i])] == tree[walk[i]].content
  {
    if Key(prefix, walk[i]) == Key(prefix, walk[n]) {
      JoinIsInjective(prefix, walk[i], walk[n]);
    }
  }

  lemma {:induction false} StoreOneMore(
    before: Objects, after: Objects, prefix: string, tree: Tree, walk: seq<seq<string>>, n: nat)
    requires IsTree(tree) && n < |walk| && IsFile(tree, walk[n])
    requires StoredUpTo(before, after, prefix, tree, walk, n)
    ensures StoredUpTo(before, after[Key(prefix, walk[n]) := tree[walk[n]].content], prefix, tree, walk, n + 1)
  {
    var next := after[Key(prefix, walk[n]) := tree[walk[n]].content];
    forall i | 0 <= i < n + 1 && IsFile(tree, walk[i])
      ensures Key(prefix, walk[i]) in next && next[Key(prefix, walk[i])] == tree[walk[i]].content
    {
      FilesStayStored(after, prefix, tree, walk, n, i);
    }
  }

  lemma {:induction false} SkipOne(
    before: Objects, after: Objects, prefix: string, tree: Tree, walk: seq<seq<string>>, n: nat)
    requires n < |walk| && !IsFile(tree, walk[n]) && StoredUpTo(before, after, prefix, tree, walk, n)
    ensures StoredUpTo(before, after, prefix, tree, walk, n + 1)
  {
  }

  /** What happens at one path of a walk; the last three only matter for a regular file. */
  datatype Visit = Fine | WalkFails | OpenFails | PutFails | CloseFails

  predicate GoesWell(tree: Tree, p: seq<string>, v: Visit) {
    v.Fine? || (!v.WalkFails? && !(p in tree && tree[p].Regular?))
  }

  ghost predicate WellUpTo(visits: seq<string> -> Visit, tree: Tree, walk: seq<seq<string>>, n: nat)
    requires n <= |walk|
  {
    forall i | 0 <= i < n :: GoesWell(tree, walk[i], visits(walk[i]))
  }

  lemma {:induction false} WellOneMore(visits: seq<string> -> Visit, tree: Tree, walk: seq<seq<string>>, n: nat)
    requires n < |walk| && WellUpTo(visits, tree, walk, n) && GoesWell(tree, walk[n], visits(walk[n]))
    ensures WellUpTo(visits, tree, walk, n + 1)
  {
  }

  /** The walk ended at its n-th path: what comes before it is stored, and its own file only if just the closing failed. */
  ghost predicate StoppedAt(
    before: Objects, after: Objects, prefix: string, tree: Tree, walk: seq<seq<string>>, visits: seq<string> -> Visit, n: nat)
  {
    && n < |walk| && !GoesWell(tree, walk[n], visits(walk[n])) && WellUpTo(visits, tree, walk, n)
    && StoredUpTo(before, after, prefix, tree, walk, if visits(walk[n]).CloseFails? then n + 1 else n)
  }

  lemma {:induction false} WalkedAll(
    before: Objects, after: Objects, prefix: string, tree: Tree, walk: seq<seq<string>>, visits: seq<string> -> Visit)
    requires forall p :: p in tree <==> p in walk
    requires WellUpTo(visits, tree, walk, |walk|) && StoredUpTo(before, after, prefix, tree, walk, |walk|)
    ensures Stored(before, after, prefix, tree) && forall p | p in tree :: GoesWell(tree, p, visits(p))
  {
    forall p | p in tree
      ensures GoesWell(tree, p, visits(p))
      ensures IsFile(tree, p) ==> Key(prefix, p) in after && after[Key(prefix, p)] == tree[p].content
    {
      var i :| 0 <= i < |walk| && walk[i] == p;
    }
  }

  /** What the function the walk calls does with a regular file. */
  method UploadFile(bucket: Bucket, key: string, content: seq<byte>, visit: Visit) returns (ok: bool)
    modifies bucket
    ensures ok == visit.Fine?
    ensures bucket.objects == if visit.Fine? || visit.CloseFails? then old(bucket.objects)[key := content] else old(bucket.objects)
  {
    if visit.WalkFails? || visit.OpenFails? {
      return false;
    }
    var put := bucket.Put(key, content, !visit.PutFails?);
    if !put {
      return false;
    }
    ok := !visit.CloseFails?;
  }

  /** The function the walk calls, at one path. */
  method UploadOne(bucket: Bucket, prefix: string, tree: Tree, path: seq<string>, visit: Visit) returns (ok: bool)
    requires path in tree
    modifies bucket
    ensures ok <==> GoesWell(tree, path, visit)
    ensures bucket.objects ==
            if tree[path].Regular? && (visit.Fine? || visit.CloseFails?)
            then old(bucket.objects)[Key(prefix, path) := tree[path].content] else old(bucket.objects)
  {
    if visit.WalkFails? {
      return false;
    }
    if !tree[path].Regular? {
      return true;
    }
    ok := UploadFile(bucket, Key(prefix, path), tree[path].content, visit);
  }

  /** What the root of the walk is; only a directory is walked, a link to one is not followed. */
  datatype WalkRoot = Unreachable | DirectoryRoot | FileRoot(content: seq<byte>, visit: Visit) | OtherRoot

  /** The walk below a root that is a directory. */
  method UploadTree(bucket: Bucket, prefix: string, tree: Tree, walk: seq<seq<string>>, visits: seq<string> -> Visit)
    returns (ok: bool)
    requires IsTree(tree) && (forall p :: p in tree <==> p in walk)
    modifies bucket
    ensures ok <==> forall p | p in tree :: GoesWell(tree, p, visits(p))
    ensures ok ==> Stored(old(bucket.objects), bucket.objects, prefix, tree)
    ensures !ok ==> exists n :: StoppedAt(old(bucket.objects), bucket.objects, prefix, tree, walk, visits, n)
  {
    var i := 0;
    while i < |walk|
      invariant 0 <= i <= |walk|
      invariant WellUpTo(visits, tree, walk, i)
      invariant StoredUpTo(old(bucket.objects), bucket.objects, prefix, tree, walk, i)
    {
      var path := walk[i];
      assert path in tree;
      if tree[path].Regular? {
        StoreOneMore(old(bucket.objects), bucket.objects, prefix, tree, walk, i);
      } else {
        SkipOne(old(bucket.objects), bucket.objects, prefix, tree, walk, i);
      }
      var stored := UploadOne(bucket, prefix, tree, path, visits(path));
      if !stored {
        assert StoppedAt(old(bucket.objects), bucket.objects, prefix, tree, walk, visits, i);
        return false;
      }
      WellOneMore(visits, tree, walk, i);
      i := i + 1;
    }
    WalkedAll(old(bucket.objects), bucket.objects, prefix, tree, walk, visits);
    ok := true;
  }

  /**
   * `UploadDirToS3`, over any walk of the tree, where reaching the root or a path, opening a file,
   * putting it and closing it may fail. Of a directory: it succeeds exactly if nothing fails, and
   * then exactly the regular files are stored; otherwise it ends at the first failure. A root that
   * is itself a file is stored under the cleaned prefix; any other root is passed over.
   */
  method UploadDir(bucket: Bucket, prefix: string, root: WalkRoot, tree: Tree, walk: seq<seq<string>>, visits: seq<string> -> Visit)
    returns (ok: bool)
    requires IsTree(tree) && (forall p :: p in tree <==> p in walk)
    modifies bucket
    ensures root.DirectoryRoot? ==> (ok <==> forall p | p in tree :: GoesWell(tree, p, visits(p)))
    ensures root.DirectoryRoot? && ok ==> Stored(old(bucket.objects), bucket.objects, prefix, tree)
    ensures root.DirectoryRoot? && !ok ==>
              exists n :: StoppedAt(old(bucket.objects), bucket.objects, prefix, tree, walk, visits, n)
    ensures root.FileRoot? ==> ok == root.visit.Fine?
    ensures bucket.objects == old(bucket.objects) || root.DirectoryRoot? || (root.FileRoot? && (root.visit.Fine? || root.visit.CloseFails?))
    ensures root.FileRoot? && (root.visit.Fine? || root.visit.CloseFails?) ==>
              bucket.objects == old(bucket.objects)[Join(prefix, ".") := root.content]
    ensures root.OtherRoot? ==> ok
    ensures root.Unreachable? ==> !ok
  {
    match root {
      case Unreachable =>
        return false;
      case OtherRoot =>
        return true;
      case FileRoot(content, visit) =>
        ok := UploadFile(bucket, Join(prefix, "."), content, visit);
      case DirectoryRoot =>
        ok := UploadTree(bucket, prefix, tree, walk, visits);
    }
  }

  // ---- download ----

  /** Where a key is stored locally. */
  function LocalPath(dir: string, prefix: string, key: string): string
    requires HasPrefix(key, ListPrefix(prefix))
  {
    Join(dir, key[|ListPrefix(prefix)|..])
  }

  ghost predicate OnPage(pages: seq<seq<string>>, i: nat, k: string) {
    i < |pages| && k in pages[i]
  }

  ghost predicate Listed(pages: seq<seq<string>>, k: string) {
    exists i :: OnPage(pages, i, k)
  }

  /** Every listed key is an object under the prefix, and every such object is listed, on some page. */
  ghost predicate Lists(pages: seq<seq<string>>, objects: Objects, prefix: string) {
    && (forall i, j | 0 <= i < |pages| && 0 <= j < |pages[i]| ::
          pages[i][j] in objects && HasPrefix(pages[i][j], ListPrefix(prefix)))
    && forall k | k in objects && HasPrefix(k, ListPrefix(prefix)) :: Listed(pages, k)
  }

  /** How the download of one object goes: all of it, nothing at all, or its file is created and the copy breaks off. */
  datatype Fetch = Whole | Refused | BrokenOff(n: nat)

  /** The files after such a download. */
  function AfterFetch(files: map<string, seq<byte>>, path: string, content: seq<byte>, how: Fetch): map<string, seq<byte>> {
    match how
    case Whole => files[path := content]
    case Refused => files
    case BrokenOff(n) => files[path := content[..Min(n, |content|)]]
  }

  class LocalFiles {
    var files: map<string, seq<byte>>

    constructor ()
      ensures files == map[]
    {
      files := map[];
    }

    /** `DownloadFileFromS3` of an object that exists */
    method Download(path: string, content: seq<byte>, how: Fetch) returns (ok: bool)
      modifies this
      ensures ok == how.Whole? && files == AfterFetch(old(files), path, content, how)
    {
      if how.Refused? {
        return false;
      }
      files := files[path := []];
      var got := if how.BrokenOff? then content[..Min(how.n, |content|)] else content;
      files := files[path := got];
      ok := how.Whole?;
    }
  }

  predicate AllUnder(keys: seq<string>, objects: Objects, prefix: string) {
    forall i | 0 <= i < |keys| :: keys[i] in objects && HasPrefix(keys[i], ListPrefix(prefix))
  }

  /** The files after fetching the wanted ones among these keys, in order. */
  function Fetched(files: map<string, seq<byte>>, keys: seq<string>, objects: Objects, prefix: string, dir: string): map<string, seq<byte>>
    requires AllUnder(keys, objects, prefix)
  {
    if keys == [] then files
    else
      var k := keys[|keys| - 1];
      var rest := Fetched(files, keys[..|keys| - 1], objects, prefix, dir);
      if IsFetched(k) then rest[LocalPath(dir, prefix, k) := objects[k]] else rest
  }

  /** How many keys the code counts: all but the folder markers, wanted or not. */
  function Counted(keys: seq<string>): nat {
    if keys == [] then 0 else Counted(keys[..|keys| - 1]) + if IsFolderMarker(keys[|keys| - 1]) then 0 else 1
  }

  lemma {:induction false} PageKeys(pages: seq<seq<string>>, objects: Objects, prefix: string, n: nat)
    requires n <= |pages| && Lists(pages, objects, prefix)
    ensures AllUnder(Concat(pages[..n]), objects, prefix)
  {
    if n > 0 {
      PageKeys(pages, objects, prefix, n - 1);
      assert pages[..n][..n - 1] == pages[..n - 1];
    }
  }

  /** One more key. */
  lemma {:induction false} FetchOne(files: map<string, seq<byte>>, keys: seq<string>, key: string, objects: Objects, prefix: string, dir: string)
    requires AllUnder(keys + [key], objects, prefix)
    ensures AllUnder(keys, objects, prefix) && key in objects && HasPrefix(key, ListPrefix(prefix))
    ensures Counted(keys + [key]) == Counted(keys) + if IsFolderMarker(key) then 0 else 1
    ensures Fetched(files, keys + [key], objects, prefix, dir) ==
            if IsFetched(key)
            then Fetched(files, keys, objects, prefix, dir)[LocalPath(dir, prefix, key) := objects[key]]
            else Fetched(files, keys, objects, prefix, dir)
  {
    var all := keys + [key];
    assert all[..|all| - 1] == keys;
    assert all[|keys|] == key;
    assert forall i | 0 <= i < |keys| :: keys[i] == all[i];
  }

  type Gets = string -> Fetch

  /** Every fetch of an object succeeds. */
  ghost predicate GetsAll(keys: seq<string>, gets: Gets) {
    forall i | 0 <= i < |keys| && IsFetched(keys[i]) :: gets(keys[i]).Whole?
  }

  lemma {:induction false} GetOneMore(keys: seq<string>, key: string, gets: Gets)
    ensures GetsAll(keys + [key], gets) <==> GetsAll(keys, gets) && (IsFetched(key) ==> gets(key).Whole?)
  {
    var all := keys + [key];
    assert all[|keys|] == key && forall i | 0 <= i < |keys| :: all[i] == keys[i];
  }

  /** The first n pages are listed without a failure. */
  ghost predicate ListsAll(lists: nat -> bool, n: nat) {
    forall i: nat | i < n :: lists(i)
  }

  lemma {:induction false} ListOneMore(lists: nat -> bool, n: nat)
    ensures ListsAll(lists, n + 1) <==> ListsAll(lists, n) && lists(n)
  {
  }

  ghost predicate NoFault(pages: seq<seq<string>>, lists: nat -> bool, gets: Gets) {
    ListsAll(lists, |pages|) && GetsAll(Concat(pages), gets)
  }

  /** These keys were dealt with, no fetch among them failed, and this is what it led to. */
  ghost predicate PartDone(
    after: map<string, seq<byte>>, before: map<string, seq<byte>>, part: seq<string>,
    objects: Objects, prefix: string, dir: string, gets: Gets)
  {
    AllUnder(part, objects, prefix) && GetsAll(part, gets) && after == Fetched(before, part, objects, prefix, dir)
  }

  /** The listing of page n failed, when the keys of the pages before it had been dealt with. */
  ghost predicate StopsListing(
    after: map<string, seq<byte>>, before: map<string, seq<byte>>, pages: seq<seq<string>>, n: nat,
    objects: Objects, prefix: string, dir: string, lists: nat -> bool, gets: Gets)
  {
    && n < |pages| && !lists(n) && ListsAll(lists, n)
    && PartDone(after, before, Concat(pages[..n]), objects, prefix, dir, gets)
  }

  /** The fetch of the key behind the keys `done` failed, which may have left a part of its file. */
  ghost predicate StopsFetching(
    after: map<string, seq<byte>>, before: map<string, seq<byte>>, all: seq<string>, done: seq<string>,
    objects: Objects, prefix: string, dir: string, gets: Gets)
  {
    && |done| < |all| && HasPrefix(all, done) && AllUnder(all, objects, prefix) && AllUnder(done, objects, prefix)
    && GetsAll(done, gets)
    && var key := all[|done|];
       && IsFetched(key) && !gets(key).Whole?
       && after == AfterFetch(Fetched(before, done, objects, prefix, dir), LocalPath(dir, prefix, key), objects[key], gets(key))
  }

  // ---- one page ----

  lemma {:induction false} OneMoreKey(done: seq<string>, page: seq<string>, m: nat, objects: Objects, prefix: string)
    requires m < |page| && AllUnder(done + page, objects, prefix)
    ensures done + page[..m + 1] == done + page[..m] + [page[m]]
    ensures AllUnder(done + page[..m + 1], objects, prefix)
  {
    var part := done + page[..m + 1];
    forall i | 0 <= i < |part|
      ensures part[i] in objects && HasPrefix(part[i], ListPrefix(prefix))
    {
      assert part[i] == (done + page)[i];
    }
  }

  lemma {:induction false} FailsHere(
    after: map<string, seq<byte>>, before: map<string, seq<byte>>, done: seq<string>, page: seq<string>, i: nat,
    objects: Objects, prefix: string, dir: string, gets: Gets)
    requires i < |page| && AllUnder(done + page, objects, prefix)
    requires PartDone(after, before, done + page[..i], objects, prefix, dir, gets)
    requires IsFetched(page[i]) && !gets(page[i]).Whole?
    requires page[i] in objects && HasPrefix(page[i], ListPrefix(prefix))
    ensures StopsFetching(AfterFetch(after, LocalPath(dir, prefix, page[i]), objects[page[i]], gets(page[i])),
                          before, done + page, done + page[..i], objects, prefix, dir, gets)
  {
    var part, all := done + page[..i], done + page;
    TakeOfJoin(done, page, |done| + i);
    assert |part| == |done| + i && all[|part|] == page[i];
    assert AllUnder(part, objects, prefix);
  }

  /** What one more key of a page does. */
  lemma {:induction false} KeyStep(
    after: map<string, seq<byte>>, before: map<string, seq<byte>>, done: seq<string>, page: seq<string>, i: nat,
    objects: Objects, prefix: string, dir: string, gets: Gets)
    requires i < |page| && AllUnder(done + page, objects, prefix)
    requires PartDone(after, before, done + page[..i], objects, prefix, dir, gets)
    ensures var part, key := done + page[..i], page[i];
            && done + page[..i + 1] == part + [key] && key in objects && HasPrefix(key, ListPrefix(prefix))
            && Counted(part + [key]) == Counted(part) + (if IsFolderMarker(key) then 0 else 1)
            && (!IsFetched(key) ==> PartDone(after, before, part + [key], objects, prefix, dir, gets))
            && (IsFetched(key) && gets(key).Whole? ==>
                  PartDone(after[LocalPath(dir, prefix, key) := objects[key]], before, part + [key], objects, prefix, dir, gets))
            && (IsFetched(key) && !gets(key).Whole? ==>
                  StopsFetching(AfterFetch(after, LocalPath(dir, prefix, key), objects[key], gets(key)),
                                before, done + page, part, objects, prefix, dir, gets))
  {
    OneMoreKey(done, page, i, objects, prefix);
    FetchOne(before, done + page[..i], page[i], objects, prefix, dir);
    GetOneMore(done + page[..i], page[i], gets);
    if IsFetched(page[i]) && !gets(page[i]).Whole? {
      FailsHere(after, before, done, page, i, objects, prefix, dir, gets);
    }
  }

  /** The inner loop, over one page; `done` are the keys of the pages before, `part` those dealt with at the end. */
  method DownloadPage(
    bucket: Bucket, prefix: string, dir: string, page: seq<string>, gets: Gets, local: LocalFiles, before: nat,
    ghost files: map<string, seq<byte>>, ghost done: seq<string>)
    returns (count: nat, failed: bool, ghost part: seq<string>)
    requires AllUnder(done + page, bucket.objects, prefix) && before == Counted(done)
    requires PartDone(local.files, files, done, bucket.objects, prefix, dir, gets)
    modifies local
    ensures failed ==> StopsFetching(local.files, files, done + page, part, bucket.objects, prefix, dir, gets)
    ensures !failed ==>
              && part == done + page && count == Counted(part)
              && PartDone(local.files, files, part, bucket.objects, prefix, dir, gets)
  {
    count, failed, part := before, false, done;
    var i := 0;
    while i < |page|
      invariant 0 <= i <= |page| && part == done + page[..i]
      invariant PartDone(local.files, files, part, bucket.objects, prefix, dir, gets)
      invariant count == Counted(part)
    {
      var key := page[i];
      KeyStep(local.files, files, done, page, i, bucket.objects, prefix, dir, gets);
      i := i + 1;
      if IsFolderMarker(key) {
        part := part + [key];
        continue;
      }
      if IsWanted(key) {
        var ok := local.Download(LocalPath(dir, prefix, key), bucket.objects[key], gets(key));
        if !ok {
          failed := true;
          return;
        }
      }
      count := count + 1;
      part := part + [key];
    }
    assert part == done + page;
  }

  // ---- all pages ----

  ghost predicate ListingFailed(
    after: map<string, seq<byte>>, before: map<string, seq<byte>>, pages: seq<seq<string>>,
    objects: Objects, prefix: string, dir: string, lists: nat -> bool, gets: Gets)
  {
    exists n :: StopsListing(after, before, pages, n, objects, prefix, dir, lists, gets)
  }

  ghost predicate FetchFailed(
    after: map<string, seq<byte>>, before: map<string, seq<byte>>, all: seq<string>,
    objects: Objects, prefix: string, dir: string, gets: Gets)
  {
    exists done :: StopsFetching(after, before, all, done, objects, prefix, dir, gets)
  }

  lemma {:induction false} OneMorePage(pages: seq<seq<string>>, objects: Objects, prefix: string, n: nat)
    requires n < |pages| && Lists(pages, objects, prefix)
    ensures Concat(pages[..n + 1]) == Concat(pages[..n]) + pages[n]
    ensures AllUnder(Concat(pages[..n]) + pages[n], objects, prefix)
  {
    PageKeys(pages, objects, prefix, n + 1);
    ConcatPushes(pages[..n], pages[n]);
    assert pages[..n + 1] == pages[..n] + [pages[n]];
  }

  /** The keys of the first n pages come first among all. */
  lemma {:induction false} PagesComeFirst(pages: seq<seq<string>>, n: nat)
    requires n <= |pages|
    ensures HasPrefix(Concat(pages), Concat(pages[..n]))
  {
    assert pages == pages[..n] + pages[n..];
    ConcatAppends(pages[..n], pages[n..]);
  }

  /** A failed fetch among the first keys is one among all of them. */
  lemma {:induction false} FetchFaultStays(
    after: map<string, seq<byte>>, before: map<string, seq<byte>>, some: seq<string>, all: seq<string>, done: seq<string>,
    objects: Objects, prefix: string, dir: string, gets: Gets)
    requires HasPrefix(all, some) && AllUnder(all, objects, prefix)
    requires StopsFetching(after, before, some, done, objects, prefix, dir, gets)
    ensures FetchFailed(after, before, all, objects, prefix, dir, gets) && !GetsAll(all, gets)
  {
    assert all[|done|] == some[|done|];
    assert all[..|done|] == some[..|done|];
    assert StopsFetching(after, before, all, done, objects, prefix, dir, gets);
  }

  lemma {:induction false} PageFault(
    after: map<string, seq<byte>>, before: map<string, seq<byte>>, pages: seq<seq<string>>, n: nat, done: seq<string>,
    objects: Objects, prefix: string, dir: string, gets: Gets)
    requires n < |pages| && Lists(pages, objects, prefix)
    requires StopsFetching(after, before, Concat(pages[..n]) + pages[n], done, objects, prefix, dir, gets)
    ensures FetchFailed(after, before, Concat(pages), objects, prefix, dir, gets) && !GetsAll(Concat(pages), gets)
  {
    PageKeys(pages, objects, prefix, |pages|);
    assert pages[..|pages|] == pages;
    OneMorePage(pages, objects, prefix, n);
    PagesComeFirst(pages, n + 1);
    FetchFaultStays(after, before, Concat(pages[..n + 1]), Concat(pages), done, objects, prefix, dir, gets);
  }

  lemma {:induction false} ListFault(
    after: map<string, seq<byte>>, before: map<string, seq<byte>>, pages: seq<seq<string>>, n: nat,
    objects: Objects, prefix: string, dir: string, lists: nat -> bool, gets: Gets)
    requires StopsListing(after, before, pages, n, objects, prefix, dir, lists, gets)
    ensures ListingFailed(after, before, pages, objects, prefix, dir, lists, gets) && !NoFault(pages, lists, gets)
  {
  }

  /**
   * `DownloadDirFromS3` over any pagination, where the listing of a page and the fetch of an object
   * may fail. Without a fault it fetches the wanted keys of all pages, and reports success exactly
   * if some key under the prefix is no folder marker. The first fault ends it, and leaves what was
   * fetched before, and possibly a part of the file it was fetching.
   */
  method DownloadDir(
    bucket: Bucket, prefix: string, dir: string, pages: seq<seq<string>>, lists: nat -> bool, gets: Gets, local: LocalFiles)
    returns (ok: bool)
    requires Lists(pages, bucket.objects, prefix)
    modifies local
    ensures AllUnder(Concat(pages), bucket.objects, prefix)
    ensures ok <==> NoFault(pages, lists, gets) && Counted(Concat(pages)) > 0
    ensures NoFault(pages, lists, gets) ==>
              local.files == Fetched(old(local.files), Concat(pages), bucket.objects, prefix, dir)
    ensures !NoFault(pages, lists, gets) ==>
              || ListingFailed(local.files, old(local.files), pages, bucket.objects, prefix, dir, lists, gets)
              || FetchFailed(local.files, old(local.files), Concat(pages), bucket.objects, prefix, dir, gets)
  {
    PageKeys(pages, bucket.objects, prefix, |pages|);
    assert pages[..|pages|] == pages;
    var count := 0;
    var n := 0;
    ghost var keys := [];
    while n < |pages|
      invariant 0 <= n <= |pages| && keys == Concat(pages[..n])
      invariant ListsAll(lists, n)
      invariant PartDone(local.files, old(local.files), keys, bucket.objects, prefix, dir, gets)
      invariant count == Counted(keys)
    {
      OneMorePage(pages, bucket.objects, prefix, n);
      ListOneMore(lists, n);
      if !lists(n) {
        ListFault(local.files, old(local.files), pages, n, bucket.objects, prefix, dir, lists, gets);
        return false;
      }
      var failed: bool;
      count, failed, keys := DownloadPage(bucket, prefix, dir, pages[n], gets, local, count, old(local.files), keys);
      if failed {
        PageFault(local.files, old(local.files), pages, n, keys, bucket.objects, prefix, dir, gets);
        return false;
      }
      n := n + 1;
    }
    assert pages[..n] == pages;
    ok := count > 0;
  }

  // ---- upload and download invert each other, exactly under clean prefixes ----

  /**
   * A prefix under which uploads and listings agree: what `Join` puts in front of a file's path
   * is the prefix that listings use. It fails for "", "." and prefixes that cleaning changes by
   * more than one final slash.
   */
  predicate IsCleanPrefix(prefix: string) {
    Base(prefix) == ListPrefix(prefix)
  }

  lemma {:induction false} EmptyComponentDrops(done: seq<string>, parts: seq<string>, rooted: bool)
    ensures Resolve(done, parts + [""], rooted) == Resolve(done, parts, rooted)
    decreases |parts|
  {
    if parts == [] {
      assert parts + [""] == [""];
    } else {
      assert (parts + [""])[0] == parts[0] && (parts + [""])[1..] == parts[1..] + [""];
      if parts[0] == "" || parts[0] == "." {
        EmptyComponentDrops(done, parts[1..], rooted);
      } else if parts[0] == ".." {
        if done != [] && done[|done| - 1] != ".." {
          EmptyComponentDrops(done[..|done| - 1], parts[1..], rooted);
        } else if rooted {
          EmptyComponentDrops(done, parts[1..], rooted);
        } else {
          EmptyComponentDrops(done + [".."], parts[1..], rooted);
        }
      } else {
        EmptyComponentDrops(done + [parts[0]], parts[1..], rooted);
      }
    }
  }

  /** The listing prefix without its slash, and that it resolves as the prefix does. */
  lemma {:induction false} StemOf(prefix: string) returns (stem: string)
    ensures ListPrefix(prefix) == stem + "/"
    ensures Resolved(prefix) == Resolve([], Components(stem), Rooted(prefix))
    ensures Rooted(prefix) ==> stem == "" || stem[0] == '/'
    ensures !Rooted(prefix) ==> stem == prefix || (stem != "" && stem[0] != '/')
  {
    if HasSuffix(prefix, "/") {
      stem := prefix[..|prefix| - 1];
      assert prefix == stem + "/";
      assert prefix == stem + "/" + "";
      CutAtSlash("", stem, "");
      assert Components("") == [""];
      EmptyComponentDrops([], Components(stem), Rooted(prefix));
    } else {
      stem := prefix;
    }
  }

  lemma {:induction false} PrefixResolves(prefix: string)
    ensures IsResolved(Resolved(prefix), Rooted(prefix))
  {
    assert Ups([], Rooted(prefix), 0);
    JoinComponents(prefix);
    ResolveResolves([], Components(prefix), Rooted(prefix));
  }

  lemma {:induction false} ResolvedNoSlashes(done: seq<string>, rooted: bool)
    requires IsResolved(done, rooted)
    ensures NoSlashes(done)
  {
    var ups: nat :| Ups(done, rooted, ups);
    forall i | 0 <= i < |done|
      ensures '/' !in done[i]
    {
    }
  }

  lemma {:induction false} LongerResolved(done: seq<string>, p: seq<string>, rooted: bool)
    requires IsResolved(done, rooted) && forall i | 0 <= i < |p| :: IsName(p[i])
    ensures IsResolved(done + p, rooted)
  {
    var ups: nat :| Ups(done, rooted, ups);
    assert Ups(done + p, rooted, ups);
  }

  lemma {:induction false} EmptyResolves()
    ensures Resolved("") == []
  {
    assert Components("") == [""];
  }

  lemma {:induction false} BaseText(prefix: string, p: seq<string>)
    requires IsRelative(p)
    ensures Base(prefix) + JoinSlash(p) == Root(Rooted(prefix)) + JoinSlash(Resolved(prefix) + p)
  {
    EmptyResolves();
    var done, root := Resolved(prefix), Root(Rooted(prefix));
    if done == [] {
      assert done + p == p && Base(prefix) == root;
    } else {
      JoinAppends(done, p);
      assert Base(prefix) == root + (JoinSlash(done) + "/");
      assert Base(prefix) + JoinSlash(p) == root + (JoinSlash(done) + "/" + JoinSlash(p));
    }
  }

  lemma {:induction false} KeyText(prefix: string, p: seq<string>)
    requires IsRelative(p)
    ensures Key(prefix, p) == Root(Rooted(prefix)) + JoinSlash(Resolved(prefix) + p)
  {
    JoinForm(prefix, p);
    BaseText(prefix, p);
  }

  lemma {:induction false} RootedComponents(rooted: bool, parts: seq<string>)
    requires parts != [] && NoSlashes(parts)
    ensures Components(Root(rooted) + JoinSlash(parts)) == (if rooted then [""] else []) + parts
  {
    CutOfJoin(parts);
    if rooted {
      assert "/" + JoinSlash(parts) == "" + "/" + JoinSlash(parts);
      CutAtSlash("", "", JoinSlash(parts));
      assert Components("") == [""];
    } else {
      assert "" + JoinSlash(parts) == JoinSlash(parts);
    }
  }

  /** The components of the key of a file. */
  lemma {:induction false} KeyComponents(prefix: string, p: seq<string>)
    requires IsRelative(p)
    ensures Components(Key(prefix, p)) == (if Rooted(prefix) then [""] else []) + (Resolved(prefix) + p)
  {
    KeyText(prefix, p);
    PrefixResolves(prefix);
    LongerResolved(Resolved(prefix), p, Rooted(prefix));
    ResolvedNoSlashes(Resolved(prefix) + p, Rooted(prefix));
    RootedComponents(Rooted(prefix), Resolved(prefix) + p);
  }

  lemma {:induction false} StemIsDone(all: seq<string>, k: nat, rooted: bool)
    requires k <= |all| && IsResolved(all, rooted)
    ensures Resolve([], all[..k], rooted) == all[..k]
  {
    PartOfResolved(all, k, rooted);
    assert [] + all[..k] == all[..k];
    ResolveAgain([], all[..k], rooted);
  }

  lemma {:induction false} StemAfterRoot(parts: seq<string>, rest: seq<string>, done: seq<string>, p: seq<string>)
    requires parts != [] && parts + rest == [""] + (done + p) && IsResolved(done + p, true)
    requires Resolve([], parts, true) == done
    ensures parts == [""] + done
  {
    var m := |parts| - 1;
    assert parts[0] == (parts + rest)[0] == "";
    assert parts[1..] == (parts + rest)[1..][..m] == (done + p)[..m];
    StemIsDone(done + p, m, true);
    assert parts == [""] + parts[1..];
  }

  lemma {:induction false} RootedStem(stem: string, done: seq<string>)
    requires Components(stem) == [""] + done
    ensures stem + "/" == "/" + if done == [] then "" else JoinSlash(done) + "/"
  {
    JoinComponents(stem);
    if done != [] {
      assert ([""] + done)[1..] == done;
      assert "" + "/" + JoinSlash(done) == "/" + JoinSlash(done);
    }
  }

  lemma {:induction false} StemIsPrefix(parts: seq<string>, rest: seq<string>, done: seq<string>, p: seq<string>)
    requires parts + rest == done + p && IsResolved(done + p, false)
    requires Resolve([], parts, false) == done
    ensures parts == done
  {
    assert parts == (parts + rest)[..|parts|] == (done + p)[..|parts|];
    StemIsDone(done + p, |parts|, false);
  }

  lemma {:induction false} PlainStem(prefix: string, stem: string, done: seq<string>, p: seq<string>)
    requires !Rooted(prefix) && done == Resolved(prefix) && Components(stem) == done && stem == JoinSlash(done)
    requires ListPrefix(prefix) == stem + "/"
    ensures IsCleanPrefix(prefix)
  {
    EmptyResolves();
    assert done != [];
  }

  lemma {:induction false} ListedIsClean(prefix: string, p: seq<string>)
    requires IsRelative(p) && HasPrefix(Key(prefix, p), ListPrefix(prefix))
    ensures IsCleanPrefix(prefix)
  {
    var rooted, done := Rooted(prefix), Resolved(prefix);
    var stem := StemOf(prefix);
    var rest := Key(prefix, p)[|stem| + 1..];
    assert Key(prefix, p) == stem + "/" + rest;
    CutAtSlash("", stem, rest);
    KeyComponents(prefix, p);
    var parts := Components(stem);
    PrefixResolves(prefix);
    LongerResolved(done, p, rooted);
    if rooted {
      StemAfterRoot(parts, Components(rest), done, p);
      RootedStem(stem, done);
    } else {
      StemIsPrefix(parts, Components(rest), done, p);
      JoinComponents(stem);
      PlainStem(prefix, stem, done, p);
    }
  }

  /** A file's key lies under the listing prefix exactly if the prefix is clean. */
  lemma {:induction false} KeyIsListedIff(prefix: string, p: seq<string>)
    requires IsRelative(p)
    ensures HasPrefix(Key(prefix, p), ListPrefix(prefix)) <==> IsCleanPrefix(prefix)
    ensures IsCleanPrefix(prefix) ==> Key(prefix, p)[|ListPrefix(prefix)|..] == JoinSlash(p)
  {
    JoinForm(prefix, p);
    if IsCleanPrefix(prefix) {
      assert Key(prefix, p)[..|ListPrefix(prefix)|] == ListPrefix(prefix);
    } else if HasPrefix(Key(prefix, p), ListPrefix(prefix)) {
      ListedIsClean(prefix, p);
    }
  }

  // ---- the round trip ----

  /** The local name of a file. */
  function LocalName(dir: string, p: seq<string>): string {
    Join(dir, JoinSlash(p))
  }

  predicate IsTestFile(p: seq<string>) {
    IsWanted(JoinSlash(p))
  }

  lemma {:induction false} SuffixOfJoin(base: string, j: string, suffix: string)
    requires '/' !in suffix && (base == "" || base[|base| - 1] == '/')
    ensures HasSuffix(base + j, suffix) <==> HasSuffix(j, suffix)
  {
    var s := base + j;
    if |suffix| <= |j| {
      assert s[|s| - |suffix|..] == j[|j| - |suffix|..];
    } else {
      NoSuffix(s, suffix, |suffix| - |j| - 1);
    }
  }

  lemma {:induction false} SuffixOfPath(base: string, p: seq<string>, suffix: string)
    requires IsRelative(p) && '/' !in suffix && suffix != ""
    requires base == "" || base[|base| - 1] == '/'
    ensures HasSuffix(base + JoinSlash(p), suffix) <==> HasSuffix(JoinSlash(p), suffix)
  {
    SuffixOfJoin(base, JoinSlash(p), suffix);
  }

  lemma {:induction false} PathHasNoFinalSlash(p: seq<string>)
    requires IsRelative(p)
    ensures !IsFolderMarker(JoinSlash(p))
  {
    var n := |p| - 1;
    if n > 0 {
      assert p == p[..n] + [p[n]];
      JoinAppends(p[..n], [p[n]]);
    }
    var s := JoinSlash(p);
    assert s[|s| - 1] == p[n][|p[n]| - 1];
  }

  /** Under a clean prefix a file's key is listed, no folder marker, wanted as its name is, and goes to its local name. */
  lemma {:induction false} KeyOfFile(prefix: string, dir: string, p: seq<string>)
    requires IsRelative(p) && IsCleanPrefix(prefix)
    ensures HasPrefix(Key(prefix, p), ListPrefix(prefix)) && LocalPath(dir, prefix, Key(prefix, p)) == LocalName(dir, p)
    ensures !IsFolderMarker(Key(prefix, p)) && (IsWanted(Key(prefix, p)) <==> IsTestFile(p))
  {
    KeyIsListedIff(prefix, p);
    JoinForm(prefix, p);
    var base := ListPrefix(prefix);
    SuffixOfPath(base, p, ".in");
    SuffixOfPath(base, p, ".out");
    PathHasNoFinalSlash(p);
    RelativeIsClean(p);
    var s := base + JoinSlash(p);
    assert s[|s| - 1] == JoinSlash(p)[|JoinSlash(p)| - 1];
  }

  /** No object lay under the prefix before the upload. */
  ghost predicate NothingUnder(objects: Objects, prefix: string) {
    forall k | k in objects :: !HasPrefix(k, ListPrefix(prefix))
  }

  /** local holds exactly the tree's regular `.in` and `.out` files, under their local names. */
  ghost predicate Restored(local: map<string, seq<byte>>, dir: string, tree: Tree) {
    && (forall p | IsFile(tree, p) && IsTestFile(p) ::
          LocalName(dir, p) in local && local[LocalName(dir, p)] == tree[p].content)
    && (forall f | f in local :: exists p :: IsFile(tree, p) && IsTestFile(p) && f == LocalName(dir, p))
  }

  /** What the keys fetched so far have restored. */
  ghost predicate RestoredFrom(local: map<string, seq<byte>>, keys: seq<string>, prefix: string, dir: string, tree: Tree) {
    && (forall p | IsFile(tree, p) && IsTestFile(p) && Key(prefix, p) in keys ::
          LocalName(dir, p) in local && local[LocalName(dir, p)] == tree[p].content)
    && (forall f | f in local :: exists p :: IsFile(tree, p) && IsTestFile(p) && f == LocalName(dir, p))
  }

  ghost predicate IsKeyOfFile(objects: Objects, prefix: string, tree: Tree, k: string)
    requires k in objects
  {
    exists p :: IsFile(tree, p) && k == Key(prefix, p) && objects[k] == tree[p].content
  }

  /** Every object under the prefix is a file of the tree. */
  ghost predicate HoldsTree(objects: Objects, prefix: string, tree: Tree) {
    forall k | k in objects && HasPrefix(k, ListPrefix(prefix)) :: IsKeyOfFile(objects, prefix, tree, k)
  }

  lemma {:induction false} UploadHoldsTree(before: Objects, after: Objects, prefix: string, tree: Tree)
    requires Stored(before, after, prefix, tree) && NothingUnder(before, prefix)
    ensures HoldsTree(after, prefix, tree)
  {
    forall k | k in after && HasPrefix(k, ListPrefix(prefix))
      ensures IsKeyOfFile(after, prefix, tree, k)
    {
      var p :| IsFile(tree, p) && k == Key(prefix, p);
    }
  }

  lemma {:induction false} FetchRestoresOne(
    local: map<string, seq<byte>>, keys: seq<string>, key: string, objects: Objects, prefix: string, dir: string, tree: Tree)
    requires IsTree(tree) && IsCleanPrefix(prefix) && HoldsTree(objects, prefix, tree)
    requires key in objects && HasPrefix(key, ListPrefix(prefix))
    requires RestoredFrom(local, keys, prefix, dir, tree)
    ensures RestoredFrom(
              if IsFetched(key) then local[LocalPath(dir, prefix, key) := objects[key]] else local,
              keys + [key], prefix, dir, tree)
  {
    assert IsKeyOfFile(objects, prefix, tree, key);
    var q :| IsFile(tree, q) && key == Key(prefix, q) && objects[key] == tree[q].content;
    KeyOfFile(prefix, dir, q);
    var next := if IsFetched(key) then local[LocalPath(dir, prefix, key) := objects[key]] else local;
    forall p | IsFile(tree, p) && IsTestFile(p) && Key(prefix, p) in keys + [key]
      ensures LocalName(dir, p) in next && next[LocalName(dir, p)] == tree[p].content
    {
      KeyOfFile(prefix, dir, p);
      if LocalName(dir, p) == LocalName(dir, q) {
        JoinIsInjective(dir, p, q);
      } else {
        assert Key(prefix, p) in keys;
      }
    }
  }

  lemma {:induction false} FetchRestores(keys: seq<string>, objects: Objects, prefix: string, dir: string, tree: Tree)
    requires IsTree(tree) && IsCleanPrefix(prefix) && HoldsTree(objects, prefix, tree)
    requires AllUnder(keys, objects, prefix)
    ensures RestoredFrom(Fetched(map[], keys, objects, prefix, dir), keys, prefix, dir, tree)
  {
    if keys != [] {
      var init, key := keys[..|keys| - 1], keys[|keys| - 1];
      assert init + [key] == keys;
      FetchOne(map[], init, key, objects, prefix, dir);
      FetchRestores(init, objects, prefix, dir, tree);
      FetchRestoresOne(Fetched(map[], init, objects, prefix, dir), init, key, objects, prefix, dir, tree);
    }
  }

  lemma {:induction false} ListedIsInConcat(pages: seq<seq<string>>, i: nat, k: string)
    requires OnPage(pages, i, k)
    ensures k in Concat(pages)
  {
    var n := |pages| - 1;
    if i < n {
      assert OnPage(pages[..n], i, k);
      ListedIsInConcat(pages[..n], i, k);
    }
  }

  lemma {:induction false} CountedSome(keys: seq<string>, k: string)
    requires k in keys && !IsFolderMarker(k)
    ensures Counted(keys) > 0
  {
    var n := |keys| - 1;
    if keys[n] != k {
      CountedSome(keys[..n], k);
    }
  }

  /**
   * Uploading a directory under a clean prefix nothing lay under, and downloading that prefix
   * into an empty directory, restores exactly the directory's regular `.in` and `.out` files, for
   * any split of the listing into pages; the download succeeds exactly if there was any file.
   */
  lemma {:induction false} UploadDownloadRoundTrip(
    before: Objects, after: Objects, prefix: string, dir: string, tree: Tree, pages: seq<seq<string>>)
    requires IsTree(tree) && Stored(before, after, prefix, tree) && NothingUnder(before, prefix)
    requires Lists(pages, after, prefix) && IsCleanPrefix(prefix)
    ensures AllUnder(Concat(pages), after, prefix)
    ensures Restored(Fetched(map[], Concat(pages), after, prefix, dir), dir, tree)
    ensures Counted(Concat(pages)) > 0 <==> exists p :: IsFile(tree, p)
  {
    PageKeys(pages, after, prefix, |pages|);
    assert pages[..|pages|] == pages;
    UploadHoldsTree(before, after, prefix, tree);
    FetchRestores(Concat(pages), after, prefix, dir, tree);
    forall p | IsFile(tree, p)
      ensures Key(prefix, p) in Concat(pages) && Counted(Concat(pages)) > 0
    {
      KeyOfFile(prefix, dir, p);
      assert Listed(pages, Key(prefix, p));
      var i :| OnPage(pages, i, Key(prefix, p));
      ListedIsInConcat(pages, i, Key(prefix, p));
      CountedSome(Concat(pages), Key(prefix, p));
    }
    if Counted(Concat(pages)) > 0 {
      var k := Concat(pages)[0];
      assert k in after && IsKeyOfFile(after, prefix, tree, k);
    }
  }

  lemma {:induction false} FirstUnder(keys: seq<string>, objects: Objects, prefix: string)
    requires AllUnder(keys, objects, prefix)
    ensures keys == [] || (keys[0] in objects && HasPrefix(keys[0], ListPrefix(prefix)))
  {
  }

  /**
   * Under any other prefix nothing comes back: no uploaded key is listed, so the download
   * restores no file and fails. Together: a directory with test files is restored if and only if
   * the prefix is clean.
   */
  lemma {:induction false} UncleanPrefixLosesAll(
    before: Objects, after: Objects, prefix: string, dir: string, tree: Tree, pages: seq<seq<string>>)
    requires IsTree(tree) && Stored(before, after, prefix, tree) && NothingUnder(before, prefix)
    requires Lists(pages, after, prefix) && !IsCleanPrefix(prefix)
    ensures Concat(pages) == [] && Fetched(map[], Concat(pages), after, prefix, dir) == map[] && Counted(Concat(pages)) == 0
  {
    PageKeys(pages, after, prefix, |pages|);
    assert pages[..|pages|] == pages;
    UploadHoldsTree(before, after, prefix, tree);
    forall k | k in after
      ensures !HasPrefix(k, ListPrefix(prefix))
    {
      if p :| IsFile(tree, p) && k == Key(prefix, p) {
        KeyIsListedIff(prefix, p);
      }
    }
    FirstUnder(Concat(pages), after, prefix);
  }

  lemma {:induction false} RestoredIffClean(
    before: Objects, after: Objects, prefix: string, dir: string, tree: Tree, pages: seq<seq<string>>)
    requires IsTree(tree) && Stored(before, after, prefix, tree) && NothingUnder(before, prefix)
    requires Lists(pages, after, prefix) && exists p :: IsFile(tree, p) && IsTestFile(p)
    ensures AllUnder(Concat(pages), after, prefix)
    ensures Restored(Fetched(map[], Concat(pages), after, prefix, dir), dir, tree) <==> IsCleanPrefix(prefix)
  {
    if IsCleanPrefix(prefix) {
      UploadDownloadRoundTrip(before, after, prefix, dir, tree, pages);
    } else {
      UncleanPrefixLosesAll(before, after, prefix, dir, tree, pages);
      var p :| IsFile(tree, p) && IsTestFile(p);
      assert LocalName(dir, p) !in Fetched(map[], Concat(pages), after, prefix, dir);
    }
  }

  lemma {:induction false} PlainListPrefix(id: string)
    requires '/' !in id
    ensures ListPrefix(id) == id + "/"
  {
    NoSuffix(id, "/", 0);
  }

  /** Testset ids that the service uses are clean prefixes; the empty one is not. */
  lemma {:induction false} NamesAreCleanPrefixes(id: string)
    requires IsName(id)
    ensures IsCleanPrefix(id) && IsCleanPrefix(id + "/") && !IsCleanPrefix("")
  {
    OneComponent(id);
    assert id[0] in id && !Rooted(id) && !Rooted(id + "/");
    assert IsRelative([id]);
    RelativeIsClean([id]);
    assert JoinSlash([id]) == id;
    CutAtSlash("", id, "");
    assert id + "/" + "" == id + "/";
    assert Components(id + "/") == [id, ""];
    assert Resolve([id], [""], false) == [id];
    assert [id, ""][1..] == [""] && [] + [id] == [id];
    assert Resolved(id + "/") == [id];
    PlainListPrefix(id);
    assert HasSuffix(id + "/", "/");
  }

  // ---- the counter, and isolation of testsets ----

  predicate NoneWanted(keys: seq<string>) {
    forall i | 0 <= i < |keys| :: IsFolderMarker(keys[i]) || !IsWanted(keys[i])
  }

  lemma {:induction false} CountedIff(keys: seq<string>)
    ensures Counted(keys) > 0 <==> exists i | 0 <= i < |keys| :: !IsFolderMarker(keys[i])
  {
    if keys != [] {
      var n := |keys| - 1;
      CountedIff(keys[..n]);
      assert forall i | 0 <= i < n :: keys[..n][i] == keys[i];
    }
  }

  lemma {:induction false} NoneWantedStep(keys: seq<string>, key: string)
    ensures NoneWanted(keys + [key]) <==> NoneWanted(keys) && (IsFolderMarker(key) || !IsWanted(key))
  {
    var all := keys + [key];
    assert all[|keys|] == key && forall i | 0 <= i < |keys| :: all[i] == keys[i];
  }

  lemma {:induction false} FetchedIff(keys: seq<string>, objects: Objects, prefix: string, dir: string)
    requires AllUnder(keys, objects, prefix)
    ensures Fetched(map[], keys, objects, prefix, dir) == map[] <==>
            NoneWanted(keys)
  {
    if keys != [] {
      var init, key := keys[..|keys| - 1], keys[|keys| - 1];
      assert init + [key] == keys;
      FetchOne(map[], init, key, objects, prefix, dir);
      FetchedIff(init, objects, prefix, dir);
      NoneWantedStep(init, key);
      if IsFetched(key) {
        assert LocalPath(dir, prefix, key) in Fetched(map[], keys, objects, prefix, dir);
      }
    }
  }

  lemma {:induction false} NoneWantedIff(keys: seq<string>)
    ensures NoneWanted(keys) <==> forall i | 0 <= i < |keys| :: !HasSuffix(keys[i], ".in") && !HasSuffix(keys[i], ".out")
  {
    forall i | 0 <= i < |keys| && HasSuffix(keys[i], "/")
      ensures !HasSuffix(keys[i], ".in") && !HasSuffix(keys[i], ".out")
    {
      var k := keys[i];
      assert k[|k| - 1..][0] == k[|k| - 1] == '/';
      NoSuffix(k, ".in", 2);
      NoSuffix(k, ".out", 3);
    }
  }

  /**
   * Success with nothing fetched: exactly when some key does not end in a slash, but none ends in
   * `.in` or `.out`.
   */
  lemma {:induction false} SuccessMayFetchNothing(keys: seq<string>, objects: Objects, prefix: string, dir: string)
    requires AllUnder(keys, objects, prefix)
    ensures Counted(keys) > 0 && Fetched(map[], keys, objects, prefix, dir) == map[] <==>
            && (exists i | 0 <= i < |keys| :: !HasSuffix(keys[i], "/"))
            && forall i | 0 <= i < |keys| :: !HasSuffix(keys[i], ".in") && !HasSuffix(keys[i], ".out")
  {
    CountedIff(keys);
    NoneWantedIff(keys);
    FetchedIff(keys, objects, prefix, dir);
  }

  /** A testset that holds nothing but a readme: the download succeeds and has fetched nothing. */
  lemma {:induction false} ReadmeCountsAsFetched(content: seq<byte>, dir: string)
    ensures var keys, objects := ["ts1/readme.txt"], map["ts1/readme.txt" := content];
            && AllUnder(keys, objects, "ts1")
            && Counted(keys) > 0 && Fetched(map[], keys, objects, "ts1", dir) == map[]
  {
    var key := "ts1/readme.txt";
    var keys, objects := [key], map[key := content];
    PlainListPrefix("ts1");
    assert key[..4] == "ts1" + "/";
    NoSuffix(key, "/", 0);
    NoSuffix(key, ".in", 0);
    NoSuffix(key, ".out", 1);
    assert keys[0] == key && NoneWanted(keys);
    SuccessMayFetchNothing(keys, objects, "ts1", dir);
  }

  /** `CheckS3Dir`: one key is asked for, and there is one exactly if some object lies under the prefix. */
  predicate CheckDir(objects: Objects, prefix: string) {
    exists k | k in objects :: HasPrefix(k, ListPrefix(prefix))
  }

  /** Two prefixes can see a common key exactly if one's listing prefix begins with the other's. */
  lemma {:induction false} SharedKeyIff(id: string, other: string)
    ensures (exists k :: HasPrefix(k, ListPrefix(id)) && HasPrefix(k, ListPrefix(other))) <==>
            HasPrefix(ListPrefix(id), ListPrefix(other)) || HasPrefix(ListPrefix(other), ListPrefix(id))
  {
    var a, b := ListPrefix(id), ListPrefix(other);
    assert HasPrefix(a, a) && HasPrefix(b, b);
    if k :| HasPrefix(k, a) && HasPrefix(k, b) {
      if |a| <= |b| {
        assert k[..|b|][..|a|] == k[..|a|];
      } else {
        assert k[..|a|][..|b|] == k[..|b|];
      }
    }
  }

  lemma {:induction false} KeyTellsId(id: string, k: string)
    requires '/' !in id && HasPrefix(k, ListPrefix(id))
    ensures Components(k)[0] == id
  {
    PlainListPrefix(id);
    var rest := k[|id| + 1..];
    assert k == id + "/" + rest;
    CutAtSlash("", id, rest);
    OneComponent(id);
  }

  /** Distinct ids without slashes, such as ts1 and ts10, see disjoint sets of keys. */
  lemma {:induction false} TestsetsAreIsolated(id: string, other: string)
    requires '/' !in id && '/' !in other
    ensures (exists k :: HasPrefix(k, ListPrefix(id)) && HasPrefix(k, ListPrefix(other))) <==> id == other
  {
    if k :| HasPrefix(k, ListPrefix(id)) && HasPrefix(k, ListPrefix(other)) {
      KeyTellsId(id, k);
      KeyTellsId(other, k);
    }
    assert HasPrefix(ListPrefix(id), ListPrefix(id));
  }

  /** Storing or removing objects of one testset does not change the existence check of another. */
  lemma {:induction false} CheckIgnoresOthers(before: Objects, after: Objects, id: string, other: string)
    requires id != other && '/' !in id && '/' !in other
    requires forall k :: !HasPrefix(k, ListPrefix(other)) ==> (k in before <==> k in after)
    ensures CheckDir(before, id) == CheckDir(after, id)
  {
    TestsetsAreIsolated(id, other);
    assert forall k | HasPrefix(k, ListPrefix(id)) :: k in before <==> k in after;
  }

  /**
   * The check around an upload to a prefix nothing lay under: false before, and true afterwards
   * exactly if the prefix is clean and some file was uploaded.
   */
  lemma {:induction false} CheckSeesUpload(before: Objects, after: Objects, prefix: string, tree: Tree)
    requires IsTree(tree) && Stored(before, after, prefix, tree) && NothingUnder(before, prefix)
    ensures !CheckDir(before, prefix)
    ensures CheckDir(after, prefix) <==> IsCleanPrefix(prefix) && exists p :: IsFile(tree, p)
  {
    forall p | IsFile(tree, p)
      ensures Key(prefix, p) in after && (HasPrefix(Key(prefix, p), ListPrefix(prefix)) <==> IsCleanPrefix(prefix))
    {
      KeyIsListedIff(prefix, p);
    }
    UploadHoldsTree(before, after, prefix, tree);
    if CheckDir(after, prefix) {
      var k :| k in after && HasPrefix(k, ListPrefix(prefix));
      assert IsKeyOfFile(after, prefix, tree, k);
    }
  }
}
