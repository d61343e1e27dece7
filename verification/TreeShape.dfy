// The built list is the preorder of the trie of the listed paths.
module TreeShape {
  import opened Paths
  import opened TreeItems

  // What the tree expects of its input: relative paths, none a prefix of another, and the files of
  // a directory next to each other.
  ghost predicate Listing(list: seq<Path>)
  {
    && (forall i :: 0 <= i < |list| ==> IsPath(list[i]))
    && (forall i, j | 0 <= i < |list| && 0 <= j < |list| && StartsWith(list[j], list[i]) :: i == j)
    && (forall i, j, k, d | 0 <= i < j < k < |list| && StartsWith(list[i], d) && StartsWith(list[k], d) ::
          StartsWith(list[j], d))
  }

  // No path occurs twice, a directory comes before everything in it, and what is in it follows
  // without a gap.
  ghost predicate Preorder(items: seq<Item>)
  {
    && (forall i, j | 0 <= i < |items| && 0 <= j < |items|
                      && StartsWith(items[j].fullPath, items[i].fullPath) :: i <= j)
    && (forall i, j, k | 0 <= i <= j <= k < |items| && StartsWith(items[k].fullPath, items[i].fullPath) ::
          StartsWith(items[j].fullPath, items[i].fullPath))
  }

  // Every ancestor of p among the items still is the start of the last block.
  ghost predicate OpenFor(items: seq<Item>, p: Path)
  {
    forall i, j | 0 <= i <= j < |items| && Above(items[i].fullPath, p) ::
      StartsWith(items[j].fullPath, items[i].fullPath)
  }

  lemma PreorderPush(items: seq<Item>, x: Item)
    requires Preorder(items) && OpenFor(items, x.fullPath)
    requires forall y <- items :: !StartsWith(y.fullPath, x.fullPath)
    ensures Preorder(items + [x])
  {
    var all := items + [x];
    forall i, j, k | 0 <= i <= j <= k < |all| && StartsWith(all[k].fullPath, all[i].fullPath)
      ensures StartsWith(all[j].fullPath, all[i].fullPath)
    {
      if k < |items| {
        assert all[i] == items[i] && all[j] == items[j] && all[k] == items[k];
      } else if j < |items| {
        assert items[i] in items;
        assert Above(items[i].fullPath, x.fullPath);
      }
    }
    forall i, j | 0 <= i < |all| && 0 <= j < |all| && StartsWith(all[j].fullPath, all[i].fullPath)
      ensures i <= j
    {
      if j < |items| {
        assert items[j] in items;
      }
    }
  }

  lemma ListingPrefix(list: seq<Path>, n: nat)
    requires Listing(list) && n <= |list|
    ensures Listing(list[..n])
  {
  }

  // What is built while e is being added: its first n - 1 directories are in.
  function Partial(done: seq<Path>, e: Path, n: nat, collapsed: set<string>): seq<Item>
    requires n <= |e|
  {
    Created(done, collapsed) + NewDirs(done, e, n, collapsed)
  }

  // A directory already in the list stays an ancestor of every file up to its last one.
  lemma {:induction false} CreatedOpen(done: seq<Path>, e: Path, collapsed: set<string>)
    requires Listing(done + [e])
    ensures Preorder(Created(done, collapsed))
    ensures OpenFor(Created(done, collapsed), e)
    decreases |done|, 0
  {
    if done != [] {
      var init, f := done[..|done| - 1], done[|done| - 1];
      assert (done + [e])[..|done|] == done == init + [f];
      ListingPrefix(done + [e], |done|);
      WithNewDirsOpen(init, f, |f|, collapsed);
      NewestIsDeepest(init, f, f, |f|, collapsed);
      PreorderPush(Partial(init, f, |f|, collapsed), FileItem(f));
      OpenAfterFile(init, f, e, collapsed);
    }
  }

  // A directory of the next file is one of the current file, if anything is in it so far.
  lemma SharedDir(init: seq<Path>, f: Path, e: Path, d: Path, collapsed: set<string>, n: nat)
    requires Listing(init + [f] + [e]) && Above(d, e) && n <= |f|
    requires exists x <- Partial(init, f, n, collapsed) + [FileItem(f)] :: x.fullPath == d
    ensures Above(d, f)
  {
    CreatedArePrefixes(init, collapsed);
    NewDirsArePrefixes(init, f, n, collapsed);
    var all := init + [f] + [e];
    var x :| x in Partial(init, f, n, collapsed) + [FileItem(f)] && x.fullPath == d;
    if x in Created(init, collapsed) {
      var h :| 0 <= h < |init| && StartsWith(init[h], d);
      assert StartsWith(all[h], d) && StartsWith(all[|init| + 1], d);
      assert StartsWith(all[|init|], d);
    }
    assert all[|init|] == f && all[|init| + 1] == e;
    assert !StartsWith(all[|init| + 1], all[|init|]);
  }

  lemma {:induction false} OpenAfterFile(init: seq<Path>, f: Path, e: Path, collapsed: set<string>)
    requires Listing(init + [f] + [e])
    requires OpenFor(Partial(init, f, |f|, collapsed), f)
    ensures OpenFor(Created(init + [f], collapsed), e)
  {
    var nodes := Partial(init, f, |f|, collapsed);
    CreatedPush(init, f, collapsed);
    var items := nodes + [FileItem(f)];
    forall i, j | 0 <= i <= j < |items| && Above(items[i].fullPath, e)
      ensures StartsWith(items[j].fullPath, items[i].fullPath)
    {
      assert items[i] in items;
      SharedDir(init, f, e, items[i].fullPath, collapsed, |f|);
      assert i < |nodes|;
      assert items[i] == nodes[i] && (j < |nodes| ==> items[j] == nodes[j]);
    }
  }

  // A preorder that e can still be added to.
  ghost predicate ReadyFor(items: seq<Item>, e: Path)
  {
    Preorder(items) && OpenFor(items, e)
  }

  lemma WithNewDirsOpen(done: seq<Path>, e: Path, n: nat, collapsed: set<string>)
    requires Listing(done + [e]) && n <= |e|
    ensures ReadyFor(Partial(done, e, n, collapsed), e)
    decreases |done|, 1, n
  {
    if n <= 1 {
      CreatedOpen(done, e, collapsed);
      NoDirsYet(done, e, n, collapsed);
    } else {
      WithNewDirsOpen(done, e, n - 1, collapsed);
      if IsDirOf(done, e[..n - 1]) {
        OldDirOpen(done, e, n, collapsed);
      } else {
        NewDirOpen(done, e, n, collapsed);
      }
    }
  }

  lemma {:induction false} NoDirsYet(done: seq<Path>, e: Path, n: nat, collapsed: set<string>)
    requires n <= 1 && n <= |e| && ReadyFor(Created(done, collapsed), e)
    ensures ReadyFor(Partial(done, e, n, collapsed), e)
  {
    StillReady(Created(done, collapsed), Partial(done, e, n, collapsed), e);
  }

  lemma OldDirOpen(done: seq<Path>, e: Path, n: nat, collapsed: set<string>)
    requires 2 <= n <= |e| && IsDirOf(done, e[..n - 1]) && ReadyFor(Partial(done, e, n - 1, collapsed), e)
    ensures ReadyFor(Partial(done, e, n, collapsed), e)
  {
    PartialStep(done, e, n, collapsed);
    StillReady(Partial(done, e, n - 1, collapsed), Partial(done, e, n, collapsed), e);
  }

  lemma StillReady(items: seq<Item>, same: seq<Item>, e: Path)
    requires ReadyFor(items, e) && same == items
    ensures ReadyFor(same, e)
  {
  }

  lemma NewDirOpen(done: seq<Path>, e: Path, n: nat, collapsed: set<string>)
    requires Listing(done + [e]) && 2 <= n <= |e| && !IsDirOf(done, e[..n - 1])
    requires ReadyFor(Partial(done, e, n - 1, collapsed), e)
    ensures ReadyFor(Partial(done, e, n, collapsed), e)
  {
    var d := e[..n - 1];
    PartialStep(done, e, n, collapsed);
    NewestIsDeepest(done, e, d, n - 1, collapsed);
    OpenPush(Partial(done, e, n - 1, collapsed), DirItem(d, collapsed), e);
  }

  lemma PartialStep(done: seq<Path>, e: Path, n: nat, collapsed: set<string>)
    requires 2 <= n <= |e|
    ensures var d, before := e[..n - 1], Partial(done, e, n - 1, collapsed);
            Partial(done, e, n, collapsed)
            == if IsDirOf(done, d) then before else before + [DirItem(d, collapsed)]
  {
  }

  lemma OpenPush(items: seq<Item>, x: Item, e: Path)
    requires Preorder(items) && OpenFor(items, e) && StartsWith(e, x.fullPath)
    requires forall y <- items ::
               !StartsWith(y.fullPath, x.fullPath)
               && (Above(y.fullPath, e) ==> StartsWith(x.fullPath, y.fullPath))
    ensures Preorder(items + [x]) && OpenFor(items + [x], e)
  {
    PreorderPush(items, x);
    var all := items + [x];
    forall i, j | 0 <= i <= j < |all| && Above(all[i].fullPath, e)
      ensures StartsWith(all[j].fullPath, all[i].fullPath)
    {
      if i < |items| {
        assert items[i] in items;
      }
    }
  }

  // The next directory or file to be added lies in every ancestor of it that is there already.
  lemma NewestIsDeepest(done: seq<Path>, e: Path, d: Path, n: nat, collapsed: set<string>)
    requires Listing(done + [e]) && n <= |d| && StartsWith(e, d)
    requires d == e || !IsDirOf(done, d)
    ensures forall y <- Partial(done, e, n, collapsed) ::
              !StartsWith(y.fullPath, d) && (Above(y.fullPath, e) ==> StartsWith(d, y.fullPath))
  {
    CreatedArePrefixes(done, collapsed);
    NewDirsArePrefixes(done, e, n, collapsed);
    var all := done + [e];
    forall y | y in Created(done, collapsed)
      ensures !StartsWith(y.fullPath, d) && (Above(y.fullPath, e) ==> StartsWith(d, y.fullPath))
    {
      var h :| 0 <= h < |done| && StartsWith(done[h], y.fullPath);
      assert all[h] == done[h] && all[|done|] == e;
      assert !StartsWith(all[|done|], all[h]) && !StartsWith(all[h], all[|done|]);
      var f := done[h];
      assert StartsWith(f, d) && d != f ==> Above(d, f);
    }
  }

  // ---------------------------------------------------------------------------------------------
  // What the list contains

  function Files(items: seq<Item>): seq<Path>
  {
    if items == [] then [] else
      var x := items[|items| - 1];
      Files(items[..|items| - 1]) + (if x.kind.File? then [x.fullPath] else [])
  }

  lemma {:induction false} FilesOfBoth(a: seq<Item>, b: seq<Item>)
    ensures Files(a + b) == Files(a) + Files(b)
  {
    if b == [] {
      assert a + b == a;
    } else {
      var c, x := b[..|b| - 1], b[|b| - 1];
      FilesOfBoth(a, c);
      FilesPush(a + c, x);
      FilesPush(c, x);
      OneMore(a, c, x);
      assert b == c + [x];
    }
  }

  lemma OneMore(a: seq<Item>, c: seq<Item>, x: Item)
    ensures a + (c + [x]) == a + c + [x]
  {
  }

  // Files depends on paths and kinds only.
  lemma {:induction false} FilesOfSame(a: seq<Item>, b: seq<Item>)
    requires |a| == |b|
    requires forall i | 0 <= i < |a| :: a[i].fullPath == b[i].fullPath && a[i].kind == b[i].kind
    ensures Files(a) == Files(b)
  {
    if a != [] {
      FilesOfSame(a[..|a| - 1], b[..|b| - 1]);
    }
  }

  lemma {:induction false} FilesOfDirs(items: seq<Item>, dirs: seq<Item>)
    requires forall x <- dirs :: x.kind.Directory?
    ensures Files(items + dirs) == Files(items)
  {
    if dirs == [] {
      assert items + dirs == items;
    } else {
      var init := dirs[..|dirs| - 1];
      FilesOfDirs(items, init);
      assert (items + dirs)[..|items + dirs| - 1] == items + init;
    }
  }

  lemma {:induction false} NewDirsAreDirs(list: seq<Path>, e: Path, n: nat, collapsed: set<string>)
    requires n <= |e|
    ensures forall x <- NewDirs(list, e, n, collapsed) ::
              x.fullPath != [] && x == DirItem(x.fullPath, collapsed)
    ensures forall j | 0 < j < n ::
              IsDirOf(list, e[..j]) || DirItem(e[..j], collapsed) in NewDirs(list, e, n, collapsed)
  {
    if n > 1 {
      NewDirsAreDirs(list, e, n - 1, collapsed);
    }
  }

  // The files come out as listed.
  lemma {:induction false} CreatedKeepsFiles(list: seq<Path>, collapsed: set<string>)
    ensures Files(Created(list, collapsed)) == list
  {
    if list != [] {
      var done, e := list[..|list| - 1], list[|list| - 1];
      CreatedKeepsFiles(done, collapsed);
      NewDirsAreDirs(done, e, |e|, collapsed);
      FilesOfDirs(Created(done, collapsed), NewDirs(done, e, |e|, collapsed));
      FilesPush(Partial(done, e, |e|, collapsed), FileItem(e));
      assert list == done + [e];
    }
  }

  lemma {:induction false} FilesPush(items: seq<Item>, x: Item)
    ensures Files(items + [x]) == Files(items) + (if x.kind.File? then [x.fullPath] else [])
  {
  }

  // The directories that come out are the non-empty proper ancestors of the listed files, all of
  // them; with Preorder, each appears exactly once.
  lemma {:induction false} CreatedMembers(list: seq<Path>, collapsed: set<string>)
    ensures forall x <- Created(list, collapsed) ::
              if x.kind.File? then x.fullPath in list && x == FileItem(x.fullPath)
              else x.fullPath != [] && IsDirOf(list, x.fullPath) && x == DirItem(x.fullPath, collapsed)
    ensures forall d: Path | d != [] && IsDirOf(list, d) :: DirItem(d, collapsed) in Created(list, collapsed)
    ensures forall e <- list :: FileItem(e) in Created(list, collapsed)
  {
    if list != [] {
      var done, e := list[..|list| - 1], list[|list| - 1];
      CreatedMembers(done, collapsed);
      NewDirsAreDirs(done, e, |e|, collapsed);
      NewDirsArePrefixes(done, e, |e|, collapsed);
      assert list == done + [e];
      forall d: Path
        ensures IsDirOf(list, d) <==> IsDirOf(done, d) || Above(d, e)
      {
        IsDirOfPush(done, e, d);
      }
      forall d: Path | d != [] && Above(d, e) && !IsDirOf(done, d)
        ensures DirItem(d, collapsed) in NewDirs(done, e, |e|, collapsed)
      {
        assert d == e[..|d|];
      }
    }
  }

  // The distinct immediate children of directory d in the listing.
  function ChildrenOf(list: seq<Path>, d: Path): set<Path>
  {
    set i | 0 <= i < |list| && Above(d, list[i]) :: list[i][..|d| + 1]
  }

  function KidPaths(items: seq<Item>, d: Path): set<Path>
  {
    set i | 0 <= i < |items| && IsChild(items[i].fullPath, d) :: items[i].fullPath
  }

  lemma {:induction false} KidsAreDistinct(items: seq<Item>, d: Path)
    requires Preorder(items)
    ensures Kids(items, d) == |KidPaths(items, d)|
  {
    if items != [] {
      var init, x := items[..|items| - 1], items[|items| - 1];
      KidsAreDistinct(init, d);
      assert items == init + [x];
      KidPathsPush(init, x, d);
      LastIsNew(items, d);
    }
  }

  lemma LastIsNew(items: seq<Item>, d: Path)
    requires Preorder(items) && items != []
    ensures items[|items| - 1].fullPath !in KidPaths(items[..|items| - 1], d)
  {
  }

  lemma KidPathsPush(items: seq<Item>, x: Item, d: Path)
    ensures KidPaths(items + [x], d)
         == KidPaths(items, d) + (if IsChild(x.fullPath, d) then {x.fullPath} else {})
  {
    var all := items + [x];
    assert all[|items|] == x;
    forall p | p in KidPaths(items, d)
      ensures p in KidPaths(all, d)
    {
      var i :| 0 <= i < |items| && IsChild(items[i].fullPath, d) && p == items[i].fullPath;
      assert all[i] == items[i];
    }
  }

  // The count recorded for a directory is its number of distinct immediate children.
  lemma {:induction false} CountsAreChildren(list: seq<Path>, d: Path, collapsed: set<string>)
    requires Listing(list) && d != []
    ensures Kids(Created(list, collapsed), d) == |ChildrenOf(list, d)|
  {
    CreatedIsPreorder(list, collapsed);
    KidsAreDistinct(Created(list, collapsed), d);
    ChildrenAreKids(list, d, collapsed);
  }

  lemma {:induction false} ChildrenAreKids(list: seq<Path>, d: Path, collapsed: set<string>)
    requires d != []
    ensures KidPaths(Created(list, collapsed), d) == ChildrenOf(list, d)
  {
    forall p | p in ChildrenOf(list, d)
      ensures p in KidPaths(Created(list, collapsed), d)
    {
      ChildIsKid(list, d, collapsed, p);
    }
    forall p | p in KidPaths(Created(list, collapsed), d)
      ensures p in ChildrenOf(list, d)
    {
      KidIsChild(list, d, collapsed, p);
    }
  }

  lemma {:induction false} ChildIsKid(list: seq<Path>, d: Path, collapsed: set<string>, p: Path)
    requires d != [] && p in ChildrenOf(list, d)
    ensures p in KidPaths(Created(list, collapsed), d)
  {
    var items := Created(list, collapsed);
    CreatedMembers(list, collapsed);
    var i :| 0 <= i < |list| && Above(d, list[i]) && p == list[i][..|d| + 1];
    var x := if p == list[i] then FileItem(p) else DirItem(p, collapsed);
    assert p == list[i] || Above(p, list[i]);
    assert list[i] in list;
    var h :| 0 <= h < |items| && items[h] == x;
  }

  lemma {:induction false} KidIsChild(list: seq<Path>, d: Path, collapsed: set<string>, p: Path)
    requires d != [] && p in KidPaths(Created(list, collapsed), d)
    ensures p in ChildrenOf(list, d)
  {
    var items := Created(list, collapsed);
    CreatedMembers(list, collapsed);
    var h :| 0 <= h < |items| && IsChild(items[h].fullPath, d) && p == items[h].fullPath;
    assert items[h] in items;
    var i: nat := 0;
    if items[h].kind.File? {
      i :| 0 <= i < |list| && list[i] == p;
    } else {
      i :| 0 <= i < |list| && Above(p, list[i]);
    }
    assert Above(d, list[i]) && list[i][..|d| + 1] == p;
  }

  // The built list is a preorder.
  lemma {:induction false} CreatedIsPreorder(list: seq<Path>, collapsed: set<string>)
    requires Listing(list)
    ensures Preorder(Created(list, collapsed))
  {
    if list != [] {
      var done, e := list[..|list| - 1], list[|list| - 1];
      assert list == done + [e];
      WithNewDirsOpen(done, e, |e|, collapsed);
      NewestIsDeepest(done, e, e, |e|, collapsed);
      PreorderPush(Partial(done, e, |e|, collapsed), FileItem(e));
    }
  }
}
