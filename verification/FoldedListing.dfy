// The folded tree in terms of the listed paths alone: which directories have a row of their own, and
// which of them start out collapsed.
module FoldedListing {
  import opened Paths
  import opened TreeItems
  import opened TreeShape
  import opened TreeFold
  import opened FoldedTree

  // All files below d are below p.
  ghost predicate AllBelow(list: seq<Path>, d: Path, p: Path)
  {
    forall i | 0 <= i < |list| && Above(d, list[i]) :: Above(p, list[i])
  }

  // Directory d holds nothing but one subdirectory.
  ghost predicate OneSubdirectory(list: seq<Path>, d: Path)
  {
    exists p: Path :: IsChild(p, d) && AllBelow(list, d, p)
  }

  ghost predicate HasRow(items: seq<Item>, d: Path)
  {
    exists x :: 0 <= x < |items| && items[x].fullPath == d
  }

  lemma DirItemOf(list: seq<Path>, d: Path, collapsed: set<string>) returns (m: nat)
    requires Listing(list) && d != [] && IsDirOf(list, d)
    ensures m < |Created(list, collapsed)| && Created(list, collapsed)[m] == DirItem(d, collapsed)
  {
    CreatedMembers(list, collapsed);
    m :| 0 <= m < |Created(list, collapsed)| && Created(list, collapsed)[m] == DirItem(d, collapsed);
  }

  lemma {:induction false} RowIff(orig: TrieItems, m: nat)
    requires m < |orig|
    ensures HasRow(Folded(orig, |orig|), orig[m].fullPath) <==> !Folds(orig, m)
  {
    var items := Folded(orig, |orig|);
    if !Folds(orig, m) {
      var y := RowOfItem(orig, items, m);
    }
    if x :| 0 <= x < |items| && items[x].fullPath == orig[m].fullPath {
      var m' := RowItem(orig, items, x);
      SamePathSameItem(orig, m', m);
    }
  }

  lemma KindTellsPath(items: seq<Item>, i: nat, j: nat)
    requires Preorder(items) && i < |items| && j < |items|
    requires items[i].kind.Directory? && items[j].kind.File?
    ensures items[i].fullPath != items[j].fullPath
  {
    assert StartsWith(items[i].fullPath, items[j].fullPath) ==> j <= i;
    assert StartsWith(items[j].fullPath, items[i].fullPath) ==> i <= j;
  }

  lemma {:induction false} MergedHoldsOne(list: seq<Path>, collapsed: set<string>, m: nat)
    requires Listing(list) && Trie(Created(list, collapsed)) && m < |Created(list, collapsed)|
    requires Folds(Created(list, collapsed), m)
    ensures OneSubdirectory(list, Created(list, collapsed)[m].fullPath)
  {
    var orig: TrieItems := Created(list, collapsed);
    var d, p := orig[m].fullPath, orig[m + 1].fullPath;
    NextIsChild(orig, m);
    CreatedMembers(list, collapsed);
    forall i | 0 <= i < |list| && Above(d, list[i])
      ensures Above(p, list[i])
    {
      assert list[i] in list;
      var k :| 0 <= k < |orig| && orig[k] == FileItem(list[i]);
      SingleChild(orig, m, k);
      KindTellsPath(orig, m + 1, k);
    }
    assert AllBelow(list, d, p);
  }

  lemma OneChildOf(list: seq<Path>, d: Path, p: Path)
    requires d != [] && IsDirOf(list, d) && IsChild(p, d) && AllBelow(list, d, p)
    ensures ChildrenOf(list, d) == {p}
  {
    forall q | q in ChildrenOf(list, d)
      ensures q == p
    {
      var i :| 0 <= i < |list| && Above(d, list[i]) && q == list[i][..|d| + 1];
      assert Above(p, list[i]);
      assert p == list[i][..|p|];
    }
    var i :| 0 <= i < |list| && Above(d, list[i]);
    assert list[i][..|d| + 1] in ChildrenOf(list, d);
  }

  lemma SubdirectoryIsNoFile(list: seq<Path>, d: Path, p: Path)
    requires IsChild(p, d) && AllBelow(list, d, p)
    ensures p !in list
  {
    forall i | 0 <= i < |list|
      ensures list[i] != p
    {
      assert Above(d, list[i]) ==> Above(p, list[i]);
    }
  }

  // The item after d is the one child.
  lemma {:induction false} NextIsOneChild(list: seq<Path>, collapsed: set<string>, m: nat, p: Path)
    requires Trie(Created(list, collapsed)) && m < |Created(list, collapsed)|
    requires Created(list, collapsed)[m].kind.Directory?
    requires var d := Created(list, collapsed)[m].fullPath; d != [] && ChildrenOf(list, d) == {p}
    ensures m + 1 < |Created(list, collapsed)| && Created(list, collapsed)[m + 1].fullPath == p
  {
    var orig: TrieItems := Created(list, collapsed);
    var d := orig[m].fullPath;
    ChildrenAreKids(list, d, collapsed);
    NextIsChild(orig, m);
    assert orig[m + 1].fullPath in KidPaths(orig, d);
  }

  lemma {:induction false} FilesAreListed(list: seq<Path>, collapsed: set<string>, m: nat)
    requires m < |Created(list, collapsed)| && Created(list, collapsed)[m].fullPath !in list
    ensures Created(list, collapsed)[m].kind.Directory?
  {
    CreatedMembers(list, collapsed);
    assert Created(list, collapsed)[m] in Created(list, collapsed);
  }

  lemma {:induction false} HolderIsMerged(list: seq<Path>, collapsed: set<string>, m: nat, p: Path)
    requires Listing(list) && Trie(Created(list, collapsed)) && m < |Created(list, collapsed)|
    requires Created(list, collapsed)[m].kind.Directory?
    requires var d := Created(list, collapsed)[m].fullPath;
             d != [] && IsDirOf(list, d) && IsChild(p, d) && AllBelow(list, d, p)
    ensures Folds(Created(list, collapsed), m)
  {
    var orig: TrieItems := Created(list, collapsed);
    var d := orig[m].fullPath;
    OneChildOf(list, d, p);
    CountsAreChildren(list, d, collapsed);
    NextIsOneChild(list, collapsed, m, p);
    SubdirectoryIsNoFile(list, d, p);
    FilesAreListed(list, collapsed, m + 1);
  }

  // A directory of the listing has no row exactly when all it holds is one subdirectory.
  lemma {:induction false} MergedIff(list: seq<Path>, collapsed: set<string>, d: Path)
    requires Listing(list) && d != [] && IsDirOf(list, d)
    ensures !HasRow(Folded(Created(list, collapsed), |Created(list, collapsed)|), d) <==> OneSubdirectory(list, d)
  {
    CreatedIsTrie(list, collapsed);
    var orig: TrieItems := Created(list, collapsed);
    var m := DirItemOf(list, d, collapsed);
    RowIff(orig, m);
    if Folds(orig, m) {
      MergedHoldsOne(list, collapsed, m);
    }
    if p: Path :| IsChild(p, d) && AllBelow(list, d, p) {
      HolderIsMerged(list, collapsed, m, p);
    }
  }

  // n is the length of the longest path of a row above row x, or 0 if no row is above it.
  ghost predicate NearestAbove(items: seq<Item>, x: nat, n: nat)
    requires x < |items|
  {
    && n < |items[x].fullPath|
    && (n > 0 ==> HasRow(items, items[x].fullPath[..n]))
    && forall y | 0 <= y < |items| && Above(items[y].fullPath, items[x].fullPath) :: |items[y].fullPath| <= n
  }

  lemma NearestIsLongest(items: seq<Item>, x: nat, n: nat, h: nat)
    requires x < |items| && NearestAbove(items, x, n) && NearestAbove(items, x, h)
    ensures n <= h
  {
    var p := items[x].fullPath;
    if n > 0 {
      var y :| 0 <= y < |items| && items[y].fullPath == p[..n];
      assert Above(items[y].fullPath, p);
    }
  }

  lemma {:induction false} NearestIsHidden(orig: TrieItems, x: nat, n: nat)
    requires x < |Folded(orig, |orig|)| && NearestAbove(Folded(orig, |orig|), x, n)
    ensures x < |Kept(orig, |orig|)| && n == Hidden(orig, x)
  {
    NameIsRelative(orig, x);
    var items, h := Folded(orig, |orig|), Hidden(orig, x);
    assert NearestAbove(items, x, h);
    NearestIsLongest(items, x, n, h);
    NearestIsLongest(items, x, h, n);
  }

  // The first item of the chain that row x stands for.
  lemma HeadOfRow(orig: TrieItems, x: nat) returns (h: nat)
    requires x < |Folded(orig, |orig|)| && x < |Kept(orig, |orig|)|
    ensures h < |orig| && Folded(orig, |orig|)[x].kind == orig[h].kind
    ensures Hidden(orig, x) < |Folded(orig, |orig|)[x].fullPath|
    ensures orig[h].fullPath == Folded(orig, |orig|)[x].fullPath[..Hidden(orig, x) + 1]
  {
    FoldedIndex(orig, |orig|);
    NameIsSuffix(orig, x);
    h := Head(orig, Source(orig, x));
  }

  lemma {:induction false} CreatedFlag(list: seq<Path>, collapsed: set<string>, m: nat)
    requires m < |Created(list, collapsed)| && Created(list, collapsed)[m].kind.Directory?
    ensures var d := Created(list, collapsed)[m]; d.kind.collapsed <==> Text(d.fullPath) in collapsed
  {
    CreatedMembers(list, collapsed);
    assert Created(list, collapsed)[m] in Created(list, collapsed);
  }

  // A directory's row starts out collapsed exactly when the outermost of the directories it stands
  // for was asked to be: the one right inside the nearest row above it.
  lemma {:induction false} CollapsedIff(list: seq<Path>, collapsed: set<string>, x: nat, n: nat)
    requires Listing(list)
    requires var items := Folded(Created(list, collapsed), |Created(list, collapsed)|);
             x < |items| && items[x].kind.Directory? && NearestAbove(items, x, n)
    ensures var row := Folded(Created(list, collapsed), |Created(list, collapsed)|)[x];
            row.kind.collapsed <==> Text(row.fullPath[..n + 1]) in collapsed
  {
    CreatedIsTrie(list, collapsed);
    var orig: TrieItems := Created(list, collapsed);
    NearestIsHidden(orig, x, n);
    var h := HeadOfRow(orig, x);
    CreatedFlag(list, collapsed, h);
  }
}
