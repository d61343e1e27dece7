// What the folded tree looks like: the same files, no directory left whose only child is a
// directory, indents that count the remaining ancestors, names that join up to the full path.
module FoldedTree {
  import opened Paths
  import opened TreeItems
  import opened TreeShape
  import opened TreeFold
  import opened FoldPaths

  ghost predicate Indented(items: seq<Item>)
  {
    forall i | 0 <= i < |items| :: items[i].indent == Depth(items, i, items[i].fullPath)
  }

  // What navigation relies on.
  ghost predicate Shape(items: seq<Item>)
  {
    Preorder(items) && DirsNotEmpty(items) && Indented(items)
  }

  lemma {:induction false} FoldedIndex(orig: seq<Item>, n: nat)
    requires n <= |orig|
    ensures |Folded(orig, n)| == |Kept(orig, n)|
    ensures forall x | 0 <= x < |Kept(orig, n)| :: Folded(orig, n)[x] == FoldedItem(orig, Kept(orig, n)[x])
  {
    if n > 0 {
      FoldedIndex(orig, n - 1);
    }
  }

  lemma {:induction false} KeptIncreasing(orig: seq<Item>, n: nat)
    requires n <= |orig|
    ensures forall x, y | 0 <= x < y < |Kept(orig, n)| :: Kept(orig, n)[x] < Kept(orig, n)[y]
    ensures forall x | 0 <= x < |Kept(orig, n)| :: !Folds(orig, Kept(orig, n)[x])
  {
    if n > 0 {
      KeptIncreasing(orig, n - 1);
    }
  }

  lemma FindKept(orig: seq<Item>, n: nat, h: nat) returns (x: nat)
    requires h < n <= |orig| && !Folds(orig, h)
    ensures x < |Kept(orig, n)| && Kept(orig, n)[x] == h
  {
    if h == n - 1 {
      x := |Kept(orig, n)| - 1;
    } else {
      x := FindKept(orig, n - 1, h);
    }
  }

  // The original item that row x of the folded tree stands for.
  function Source(orig: seq<Item>, x: nat): (m: nat)
    requires x < |Kept(orig, |orig|)|
    ensures m < |orig|
  {
    Kept(orig, |orig|)[x]
  }

  lemma {:induction false} RowSource(orig: seq<Item>, x: nat)
    requires x < |Folded(orig, |orig|)|
    ensures x < |Kept(orig, |orig|)|
    ensures Folded(orig, |orig|)[x].fullPath == orig[Source(orig, x)].fullPath
    ensures Folded(orig, |orig|)[x].kind.Directory? <==> orig[Source(orig, x)].kind.Directory?
  {
    FoldedIndex(orig, |orig|);
    HeadIsDir(orig, Source(orig, x));
  }

  lemma {:induction false} SourceIncreases(orig: seq<Item>, x: nat, y: nat)
    requires x < |Kept(orig, |orig|)| && y < |Kept(orig, |orig|)|
    ensures x < y <==> Source(orig, x) < Source(orig, y)
  {
    KeptIncreasing(orig, |orig|);
  }

  lemma {:induction false} KeptDepth(orig: seq<Item>, n: nat, p: Path)
    requires n <= |orig|
    ensures Depth(Folded(orig, n), |Folded(orig, n)|, p) == CountAbove(orig, n, p, false)
  {
    if n > 0 {
      KeptDepth(orig, n - 1, p);
      var before, x := Folded(orig, n - 1), FoldedItem(orig, n - 1);
      if Folds(orig, n - 1) {
        assert Folded(orig, n) == before;
      } else {
        var items := before + [x];
        assert items[|items| - 1].fullPath == orig[n - 1].fullPath;
        DepthPrefix(before, items, |before|, p);
      }
    }
  }

  lemma {:induction false} DepthPrefix(items: seq<Item>, more: seq<Item>, n: nat, p: Path)
    requires items <= more && n <= |items|
    ensures Depth(items, n, p) == Depth(more, n, p)
  {
    if n > 0 {
      DepthPrefix(items, more, n - 1, p);
      assert items[n - 1] == more[n - 1];
    }
  }

  // Every indent is the number of remaining directories above the row.
  lemma {:induction false} FoldedIndented(orig: seq<Item>, n: nat)
    requires n <= |orig|
    ensures Indented(Folded(orig, n))
  {
    if n > 0 {
      FoldedIndented(orig, n - 1);
      var before, items := Folded(orig, n - 1), Folded(orig, n);
      forall i | 0 <= i < |items|
        ensures items[i].indent == Depth(items, i, items[i].fullPath)
      {
        if i < |before| {
          DepthPrefix(before, items, i, items[i].fullPath);
        } else {
          DepthPrefix(before, items, i, items[i].fullPath);
          KeptDepth(orig, n - 1, items[i].fullPath);
        }
      }
    }
  }

  lemma {:induction false} FoldedPreorder(orig: TrieItems)
    ensures Preorder(Folded(orig, |orig|))
  {
    var items := Folded(orig, |orig|);
    forall x, y | 0 <= x < |items| && 0 <= y < |items| && StartsWith(items[y].fullPath, items[x].fullPath)
      ensures x <= y
    {
      RowSource(orig, x);
      RowSource(orig, y);
      SourceIncreases(orig, y, x);
      assert StartsWith(orig[Source(orig, y)].fullPath, orig[Source(orig, x)].fullPath);
    }
    forall x, y, z | 0 <= x <= y <= z < |items| && StartsWith(items[z].fullPath, items[x].fullPath)
      ensures StartsWith(items[y].fullPath, items[x].fullPath)
    {
      FoldedContiguous(orig, x, y, z);
    }
  }

  lemma {:induction false} FoldedContiguous(orig: TrieItems, x: nat, y: nat, z: nat)
    requires x <= y <= z < |Folded(orig, |orig|)|
    requires StartsWith(Folded(orig, |orig|)[z].fullPath, Folded(orig, |orig|)[x].fullPath)
    ensures StartsWith(Folded(orig, |orig|)[y].fullPath, Folded(orig, |orig|)[x].fullPath)
  {
    RowSource(orig, x);
    RowSource(orig, y);
    RowSource(orig, z);
    SourceIncreases(orig, x, y);
    SourceIncreases(orig, y, z);
    ItemsContiguous(orig, Source(orig, x), Source(orig, y), Source(orig, z));
  }

  lemma ItemsContiguous(orig: TrieItems, i: nat, j: nat, k: nat)
    requires i <= j <= k < |orig| && StartsWith(orig[k].fullPath, orig[i].fullPath)
    ensures StartsWith(orig[j].fullPath, orig[i].fullPath)
  {
  }

  // The item that a chain starting at m ends in.
  ghost function ChainEnd(orig: seq<Item>, m: nat): (e: nat)
    requires m < |orig|
    ensures m <= e < |orig| && !Folds(orig, e)
    ensures forall h | m <= h < e :: Folds(orig, h)
    decreases |orig| - m
  {
    if Folds(orig, m) then ChainEnd(orig, m + 1) else m
  }

  lemma {:induction false} ChainEndInside(orig: TrieItems, m: nat)
    requires m < |orig|
    ensures StartsWith(orig[ChainEnd(orig, m)].fullPath, orig[m].fullPath)
    decreases |orig| - m
  {
    if Folds(orig, m) {
      ChainEndInside(orig, m + 1);
      NextIsChild(orig, m);
    }
  }

  // The item kept next is the end of the chain that starts right after.
  lemma {:induction false} NextKept(orig: seq<Item>, x: nat)
    requires x < |Kept(orig, |orig|)| && Source(orig, x) + 1 < |orig|
    ensures x + 1 < |Kept(orig, |orig|)|
    ensures Source(orig, x + 1) == ChainEnd(orig, Source(orig, x) + 1)
  {
    var e := ChainEnd(orig, Source(orig, x) + 1);
    var y := FindKept(orig, |orig|, e);
    SourceIncreases(orig, x, y);
    SourceIncreases(orig, x, x + 1);
    SourceIncreases(orig, x + 1, y);
    KeptRemain(orig, x + 1);
  }

  lemma {:induction false} KeptRemain(orig: seq<Item>, x: nat)
    requires x < |Kept(orig, |orig|)|
    ensures !Folds(orig, Source(orig, x))
  {
    KeptIncreasing(orig, |orig|);
  }

  // The item a row stands for.
  lemma RowItem(orig: seq<Item>, items: seq<Item>, x: nat) returns (m: nat)
    requires items == Folded(orig, |orig|) && x < |items|
    ensures x < |Kept(orig, |orig|)| && m == Source(orig, x) && !Folds(orig, m)
    ensures items[x].fullPath == orig[m].fullPath && (items[x].kind.Directory? <==> orig[m].kind.Directory?)
  {
    RowSource(orig, x);
    KeptRemain(orig, x);
    m := Source(orig, x);
  }

  // Row x + 1 stands for the item with index e.
  ghost predicate Follows(orig: seq<Item>, items: seq<Item>, x: nat, e: nat)
  {
    && x + 1 < |items| && e < |orig|
    && items[x + 1].fullPath == orig[e].fullPath
    && (items[x + 1].kind.Directory? <==> orig[e].kind.Directory?)
  }

  lemma RowFollows(orig: seq<Item>, items: seq<Item>, x: nat, m: nat)
    requires items == Folded(orig, |orig|) && x < |items| && x < |Kept(orig, |orig|)|
    requires m == Source(orig, x) && m + 1 < |orig|
    ensures Follows(orig, items, x, ChainEnd(orig, m + 1))
  {
    NextKept(orig, x);
    FoldedIndex(orig, |orig|);
    var e := RowItem(orig, items, x + 1);
  }

  lemma {:induction false} RowAfterDirectory(orig: TrieItems, items: seq<Item>, x: nat)
    requires items == Folded(orig, |orig|) && x < |items| && items[x].kind.Directory?
    ensures x + 1 < |items| && Above(items[x].fullPath, items[x + 1].fullPath)
  {
    var m := RowItem(orig, items, x);
    NextIsChild(orig, m);
    RowFollows(orig, items, x, m);
    ChainEndInside(orig, m + 1);
  }

  lemma {:induction false} FoldedDirsNotEmpty(orig: TrieItems)
    ensures DirsNotEmpty(Folded(orig, |orig|))
  {
    var items := Folded(orig, |orig|);
    forall x: nat | x < |items| && items[x].kind.Directory?
      ensures HasInside(items, x)
    {
      RowAfterDirectory(orig, items, x);
    }
  }

  lemma {:induction false} FoldedShape(orig: TrieItems)
    ensures Shape(Folded(orig, |orig|))
  {
    FoldedPreorder(orig);
    FoldedDirsNotEmpty(orig);
    FoldedIndented(orig, |orig|);
  }

  // Folding moves no file.
  lemma {:induction false} FoldKeepsFiles(orig: seq<Item>, n: nat)
    requires n <= |orig|
    ensures Files(Folded(orig, n)) == Files(orig[..n])
  {
    if n > 0 {
      FoldKeepsFiles(orig, n - 1);
      assert orig[..n][..n - 1] == orig[..n - 1];
      var before, x := Folded(orig, n - 1), FoldedItem(orig, n - 1);
      HeadIsDir(orig, n - 1);
      assert x.fullPath == orig[..n][n - 1].fullPath;
      if Folds(orig, n - 1) {
        assert Folded(orig, n) == before;
      } else {
        assert (before + [x])[..|before|] == before;
      }
    }
  }

  // No remaining directory has a directory as its only child: if the row after a directory is a
  // directory in it, some later row is in the former and not in the latter.
  lemma {:induction false} NoSingleDirectoryChild(orig: TrieItems, x: nat)
    requires var items := Folded(orig, |orig|);
             x + 1 < |items| && items[x].kind.Directory? && items[x + 1].kind.Directory?
    ensures HasApart(Folded(orig, |orig|), x)
  {
    var items := Folded(orig, |orig|);
    var m := RowItem(orig, items, x);
    NextIsChild(orig, m);
    RowFollows(orig, items, x, m);
    ApartOf(orig, items, x, m);
  }

  // Some row is in row x and not in the row after it.
  ghost predicate HasApart(items: seq<Item>, x: nat)
    requires x + 1 < |items|
  {
    exists y | 0 <= y < |items| ::
      Above(items[x].fullPath, items[y].fullPath) && !StartsWith(items[y].fullPath, items[x + 1].fullPath)
  }

  lemma ApartOf(orig: TrieItems, items: seq<Item>, x: nat, m: nat)
    requires items == Folded(orig, |orig|) && m + 1 < |orig| && Follows(orig, items, x, ChainEnd(orig, m + 1))
    requires orig[m].kind.Directory? && !Folds(orig, m) && items[x].fullPath == orig[m].fullPath
    requires orig[ChainEnd(orig, m + 1)].kind.Directory?
    ensures HasApart(items, x)
  {
    var y := RowApart(orig, items, m);
    assert Above(items[x].fullPath, items[y].fullPath);
  }

  // A row that stands for something in item m but not in what the item after m is merged into.
  lemma RowApart(orig: TrieItems, items: seq<Item>, m: nat) returns (y: nat)
    requires items == Folded(orig, |orig|)
    requires m + 1 < |orig| && orig[m].kind.Directory? && !Folds(orig, m)
    requires orig[ChainEnd(orig, m + 1)].kind.Directory?
    ensures y < |items| && Above(orig[m].fullPath, items[y].fullPath)
    ensures !StartsWith(items[y].fullPath, orig[ChainEnd(orig, m + 1)].fullPath)
  {
    NextIsChild(orig, m);
    FileChildIsKept(orig, m + 1);
    var c := SecondChild(orig, m);
    ChainEndInside(orig, m + 1);
    ChainEndInside(orig, c);
    y := RowOfItem(orig, items, ChainEnd(orig, c));
    SiblingsApart(orig[m].fullPath, orig[m + 1].fullPath, orig[c].fullPath,
                  orig[ChainEnd(orig, m + 1)].fullPath, orig[ChainEnd(orig, c)].fullPath);
  }

  lemma RowOfItem(orig: seq<Item>, items: seq<Item>, m: nat) returns (y: nat)
    requires items == Folded(orig, |orig|) && m < |orig| && !Folds(orig, m)
    ensures y < |items| && items[y].fullPath == orig[m].fullPath
  {
    y := FindKept(orig, |orig|, m);
    FoldedIndex(orig, |orig|);
    RowSource(orig, y);
  }

  lemma {:induction false} FileChildIsKept(orig: seq<Item>, m: nat)
    requires m < |orig|
    ensures orig[m].kind.File? ==> ChainEnd(orig, m) == m
  {
  }

  lemma SiblingsApart(d: Path, p: Path, q: Path, p': Path, q': Path)
    requires IsChild(p, d) && IsChild(q, d) && p != q && StartsWith(p', p) && StartsWith(q', q)
    ensures !StartsWith(q', p') && Above(d, q')
  {
  }

  // A directory that is not merged although a directory follows has another child.
  lemma SecondChild(orig: TrieItems, m: nat) returns (c: nat)
    requires m + 1 < |orig| && orig[m].kind.Directory? && orig[m + 1].kind.Directory? && !Folds(orig, m)
    requires IsChild(orig[m + 1].fullPath, orig[m].fullPath)
    ensures c < |orig| && IsChild(orig[c].fullPath, orig[m].fullPath)
    ensures orig[c].fullPath != orig[m + 1].fullPath
  {
    var d := orig[m].fullPath;
    if forall c | 0 <= c < |orig| && IsChild(orig[c].fullPath, d) :: c == m + 1 {
      KidsAtMost(orig, d, m + 1);
      KidsAtLeast(orig, {m + 1}, d);
    }
    c :| 0 <= c < |orig| && IsChild(orig[c].fullPath, d) && c != m + 1;
    assert !(StartsWith(orig[c].fullPath, orig[m + 1].fullPath) && StartsWith(orig[m + 1].fullPath, orig[c].fullPath));
  }

  lemma {:induction false} KidsAtMost(items: seq<Item>, d: Path, k: nat)
    requires forall c | 0 <= c < |items| && IsChild(items[c].fullPath, d) :: c == k
    ensures Kids(items, d) <= if k < |items| then 1 else 0
  {
    if items != [] {
      KidsAtMost(items[..|items| - 1], d, k);
    }
  }

  // ---------------------------------------------------------------------------------------------
  // Displayed names

  lemma {:induction false} HeadIsFirst(orig: seq<Item>, m: nat)
    requires m < |orig|
    ensures var h := Head(orig, m);
            (h > 0 ==> !Folds(orig, h - 1)) && forall x | h <= x < m :: Folds(orig, x)
  {
    if m > 0 && Folds(orig, m - 1) {
      HeadIsFirst(orig, m - 1);
    }
  }

  lemma {:induction false} HeadIsNotMerged(orig: seq<Item>, m: nat)
    requires m < |orig| && Head(orig, m) > 0
    ensures !Folds(orig, Head(orig, m) - 1)
  {
    if m > 0 && Folds(orig, m - 1) {
      HeadIsNotMerged(orig, m - 1);
    }
  }

  // A directory that the head of a chain lies directly in remains.
  lemma HeadParentRemains(orig: TrieItems, h: nat, k: nat)
    requires h < |orig| && k < |orig| && IsChild(orig[h].fullPath, orig[k].fullPath)
    requires h > 0 ==> !Folds(orig, h - 1)
    ensures !Folds(orig, k)
  {
    if Folds(orig, k) {
      MergedChildIsNext(orig, k, h);
    }
  }

  lemma MergedChildIsNext(orig: TrieItems, k: nat, h: nat)
    requires k < |orig| && h < |orig| && Folds(orig, k) && IsChild(orig[h].fullPath, orig[k].fullPath)
    ensures h == k + 1
  {
    NextIsChild(orig, k);
    SingleChild(orig, k, h);
    assert orig[k + 1].fullPath == orig[h].fullPath;
    SamePathSameItem(orig, k + 1, h);
  }

  lemma SamePathSameItem(items: seq<Item>, i: nat, j: nat)
    requires Preorder(items) && i < |items| && j < |items| && items[i].fullPath == items[j].fullPath
    ensures i == j
  {
  }

  // The items above m that are as deep as the head of its chain are the chain.
  lemma {:induction false} ChainMembers(orig: TrieItems, m: nat, s: nat)
    requires m < |orig| && s < |orig| && Above(orig[s].fullPath, orig[m].fullPath)
    requires |orig[s].fullPath| >= |orig[Head(orig, m)].fullPath|
    ensures Head(orig, m) <= s < m
  {
  }

  // The remaining rows above a row are no deeper than the parent of the chain's head.
  lemma {:induction false} NothingBetween(orig: TrieItems, m: nat, s: nat)
    requires m < |orig| && s < |orig| && !Folds(orig, s) && Above(orig[s].fullPath, orig[m].fullPath)
    ensures |orig[s].fullPath| < |orig[Head(orig, m)].fullPath|
  {
    HeadIsFirst(orig, m);
    if |orig[s].fullPath| >= |orig[Head(orig, m)].fullPath| {
      ChainMembers(orig, m, s);
    }
  }

  // How much of its path a row does not display.
  function Hidden(orig: seq<Item>, x: nat): nat
    requires x < |Kept(orig, |orig|)|
  {
    var h := Head(orig, Source(orig, x));
    if |orig[h].fullPath| > 0 then |orig[h].fullPath| - 1 else 0
  }

  // A row is displayed as its path relative to the nearest remaining directory above it: what it
  // does not display is empty or the path of an earlier row, and no row above it is deeper.
  lemma {:induction false} NameIsRelative(orig: TrieItems, x: nat)
    requires x < |Folded(orig, |orig|)|
    ensures x < |Kept(orig, |orig|)|
    ensures var items, n := Folded(orig, |orig|), Hidden(orig, x);
            var p := items[x].fullPath;
            && n < |p| && items[x].Name() == p[n..]
            && (n > 0 ==> exists y :: 0 <= y < |items| && items[y].fullPath == p[..n])
            && (forall y | 0 <= y < |items| && Above(items[y].fullPath, p) :: |items[y].fullPath| <= n)
  {
    RowSource(orig, x);
    NameIsSuffix(orig, x);
    if Hidden(orig, x) > 0 {
      var y := ParentRow(orig, Source(orig, x), Hidden(orig, x));
    }
    forall y | 0 <= y < |Folded(orig, |orig|)|
               && Above(Folded(orig, |orig|)[y].fullPath, Folded(orig, |orig|)[x].fullPath)
      ensures |Folded(orig, |orig|)[y].fullPath| <= Hidden(orig, x)
    {
      RowSource(orig, y);
      KeptRemain(orig, y);
      NothingBetween(orig, Source(orig, x), Source(orig, y));
    }
  }

  lemma {:induction false} NameIsSuffix(orig: TrieItems, x: nat)
    requires x < |Folded(orig, |orig|)| && x < |Kept(orig, |orig|)|
    ensures var r, n := Folded(orig, |orig|)[x], Hidden(orig, x);
            n < |r.fullPath| && r.Name() == r.fullPath[n..]
    ensures StartsWith(orig[Source(orig, x)].fullPath, orig[Head(orig, Source(orig, x))].fullPath)
    ensures Hidden(orig, x) == |orig[Head(orig, Source(orig, x))].fullPath| - 1
  {
    var m := Source(orig, x);
    FoldedIndex(orig, |orig|);
    ChainPaths(orig, m);
    assert IsPath(orig[Head(orig, m)].fullPath);
  }

  lemma ParentRow(orig: TrieItems, m: nat, n: nat) returns (y: nat)
    requires m < |orig| && 0 < n == |orig[Head(orig, m)].fullPath| - 1
    requires StartsWith(orig[m].fullPath, orig[Head(orig, m)].fullPath)
    ensures y < |Folded(orig, |orig|)| && Folded(orig, |orig|)[y].fullPath == orig[m].fullPath[..n]
  {
    if Head(orig, m) > 0 {
      HeadIsNotMerged(orig, m);
    }
    assert orig[m].fullPath[..n] == orig[Head(orig, m)].fullPath[..n];
    y := ParentRowOf(orig, Folded(orig, |orig|), Head(orig, m), n);
  }

  lemma ParentRowOf(orig: TrieItems, items: seq<Item>, h: nat, n: nat) returns (y: nat)
    requires items == Folded(orig, |orig|) && h < |orig| && 0 < n == |orig[h].fullPath| - 1
    requires h > 0 ==> !Folds(orig, h - 1)
    ensures y < |items| && items[y].fullPath == orig[h].fullPath[..n]
  {
    var k := AncestorItem(orig, h, n);
    ParentRemains(orig, h, k, orig[h].fullPath[..n]);
    y := RowOfItem(orig, items, k);
  }

  lemma ParentRemains(orig: TrieItems, h: nat, k: nat, p: Path)
    requires h < |orig| && k < |orig| && orig[k].fullPath == p && |orig[h].fullPath| == |p| + 1
    requires StartsWith(orig[h].fullPath, p) && (h > 0 ==> !Folds(orig, h - 1))
    ensures !Folds(orig, k)
  {
    assert IsChild(orig[h].fullPath, orig[k].fullPath);
    HeadParentRemains(orig, h, k);
  }

  lemma AncestorItem(orig: TrieItems, i: nat, n: nat) returns (k: nat)
    requires i < |orig| && 0 < n < |orig[i].fullPath|
    ensures k < i && orig[k].fullPath == orig[i].fullPath[..n]
  {
    assert HasAncestor(orig, i, n);
    k :| 0 <= k < i && orig[k].fullPath == orig[i].fullPath[..n];
  }
}
