// Folding: a directory whose only child is a directory is merged with it, in place.
module TreeFold {
  import opened Options
  import opened Paths
  import opened TreeItems
  import opened TreeShape

  ghost predicate ProperPaths(items: seq<Item>)
  {
    forall i | 0 <= i < |items| :: IsPath(items[i].fullPath)
  }

  // The ancestor of item i with n components is an earlier item.
  ghost predicate HasAncestor(items: seq<Item>, i: nat, n: nat)
    requires i < |items| && n <= |items[i].fullPath|
  {
    exists h :: 0 <= h < i && items[h].fullPath == items[i].fullPath[..n]
  }

  // Every proper ancestor of an item is an earlier item.
  ghost predicate AncestorsPresent(items: seq<Item>)
  {
    forall i, n | 0 <= i < |items| && 0 < n < |items[i].fullPath| :: HasAncestor(items, i, n)
  }

  // The row after row i is inside it.
  ghost predicate HasInside(items: seq<Item>, i: nat)
    requires i < |items|
  {
    i + 1 < |items| && Above(items[i].fullPath, items[i + 1].fullPath)
  }

  ghost predicate DirsNotEmpty(items: seq<Item>)
  {
    forall i {:trigger HasInside(items, i)} {:trigger items[i].kind} |
      0 <= i < |items| && items[i].kind.Directory? :: HasInside(items, i)
  }

  ghost predicate AsCreated(items: seq<Item>)
  {
    forall i | 0 <= i < |items| ::
      items[i].folded.None? && items[i].visible && items[i].indent == Indent(items[i].fullPath)
  }

  // The unfolded tree.
  ghost predicate Trie(items: seq<Item>)
  {
    && Preorder(items)
    && ProperPaths(items)
    && AncestorsPresent(items)
    && DirsNotEmpty(items)
    && AsCreated(items)
  }

  type TrieItems = items: seq<Item> | Trie(items) witness []

  lemma {:induction false} CreatedIsTrie(list: seq<Path>, collapsed: set<string>)
    requires Listing(list)
    ensures Trie(Created(list, collapsed))
  {
    CreatedIsPreorder(list, collapsed);
    CreatedProperPaths(list, collapsed);
    CreatedAncestorsPresent(list, collapsed);
    CreatedDirsNotEmpty(list, collapsed);
    CreatedMembers(list, collapsed);
  }

  lemma {:induction false} CreatedProperPaths(list: seq<Path>, collapsed: set<string>)
    requires forall i :: 0 <= i < |list| ==> IsPath(list[i])
    ensures ProperPaths(Created(list, collapsed))
  {
    var items := Created(list, collapsed);
    CreatedMembers(list, collapsed);
    CreatedArePrefixes(list, collapsed);
    forall i | 0 <= i < |items|
      ensures IsPath(items[i].fullPath)
    {
      assert items[i] in items;
      var e :| 0 <= e < |list| && StartsWith(list[e], items[i].fullPath);
      assert forall c <- items[i].fullPath :: c in list[e];
    }
  }

  lemma {:induction false} CreatedAncestorsPresent(list: seq<Path>, collapsed: set<string>)
    requires Preorder(Created(list, collapsed))
    ensures AncestorsPresent(Created(list, collapsed))
  {
    var items := Created(list, collapsed);
    CreatedArePrefixes(list, collapsed);
    forall i, n | 0 <= i < |items| && 0 < n < |items[i].fullPath|
      ensures HasAncestor(items, i, n)
    {
      assert items[i] in items;
      var e :| 0 <= e < |list| && StartsWith(list[e], items[i].fullPath);
      var d := items[i].fullPath[..n];
      assert Above(d, list[e]);
      var h := FindDir(list, d, collapsed);
      assert StartsWith(items[i].fullPath, items[h].fullPath);
    }
  }

  lemma FindDir(list: seq<Path>, d: Path, collapsed: set<string>) returns (h: nat)
    requires d != [] && IsDirOf(list, d)
    ensures h < |Created(list, collapsed)| && Created(list, collapsed)[h].fullPath == d
  {
    CreatedMembers(list, collapsed);
    h :| 0 <= h < |Created(list, collapsed)| && Created(list, collapsed)[h] == DirItem(d, collapsed);
  }

  lemma {:induction false} CreatedDirsNotEmpty(list: seq<Path>, collapsed: set<string>)
    requires Preorder(Created(list, collapsed))
    ensures DirsNotEmpty(Created(list, collapsed))
  {
    var items := Created(list, collapsed);
    forall i | 0 <= i < |items| && items[i].kind.Directory?
      ensures i + 1 < |items| && Above(items[i].fullPath, items[i + 1].fullPath)
    {
      var f := FindInside(list, i, collapsed);
      assert StartsWith(items[f].fullPath, items[i].fullPath);
      assert !StartsWith(items[i].fullPath, items[i + 1].fullPath);
    }
  }

  lemma FindInside(list: seq<Path>, i: nat, collapsed: set<string>) returns (f: nat)
    requires i < |Created(list, collapsed)| && Created(list, collapsed)[i].kind.Directory?
    ensures f < |Created(list, collapsed)|
    ensures Above(Created(list, collapsed)[i].fullPath, Created(list, collapsed)[f].fullPath)
  {
    var items := Created(list, collapsed);
    CreatedMembers(list, collapsed);
    assert items[i] in items;
    var x :| 0 <= x < |list| && Above(items[i].fullPath, list[x]);
    assert list[x] in list;
    f :| 0 <= f < |items| && items[f] == FileItem(list[x]);
  }

  // Item m is a directory whose only child is a directory: it is merged into the next item.
  predicate Folds(orig: seq<Item>, m: nat)
  {
    && m + 1 < |orig|
    && orig[m].kind.Directory?
    && Kids(orig, orig[m].fullPath) == 1
    && orig[m + 1].kind.Directory?
  }

  // Where the chain of merged directories that ends in item m starts.
  function Head(orig: seq<Item>, m: nat): (h: nat)
    ensures h <= m
  {
    if m > 0 && Folds(orig, m - 1) then Head(orig, m - 1) else m
  }

  // How many of the first n items lie above p, counting the merged ones or the remaining ones.
  function CountAbove(orig: seq<Item>, n: nat, p: Path, merged: bool): nat
    requires n <= |orig|
  {
    if n == 0 then 0 else
      CountAbove(orig, n - 1, p, merged)
      + (if Above(orig[n - 1].fullPath, p) && Folds(orig, n - 1) == merged then 1 else 0)
  }

  // The row that stands for item m once everything above it is folded: the last path of its chain,
  // the collapse state of the first, the joined names, one indent per remaining ancestor.
  function FoldedItem(orig: seq<Item>, m: nat): Item
    requires m < |orig|
  {
    var p, h := orig[m].fullPath, Head(orig, m);
    var start := if |orig[h].fullPath| > 0 then |orig[h].fullPath| - 1 else 0;
    Item(p,
         if h == m || |p| < start then None else Some(p[start..]),
         CountAbove(orig, m, p, false),
         true,
         orig[h].kind)
  }

  // The indices of the items that remain among the first n.
  function Kept(orig: seq<Item>, n: nat): (ks: seq<nat>)
    requires n <= |orig|
    ensures forall x | 0 <= x < |ks| :: ks[x] < n
  {
    if n == 0 then [] else Kept(orig, n - 1) + (if Folds(orig, n - 1) then [] else [n - 1])
  }

  // The folded tree.
  function Folded(orig: seq<Item>, n: nat): seq<Item>
    requires n <= |orig|
  {
    if n == 0 then [] else
      Folded(orig, n - 1) + (if Folds(orig, n - 1) then [] else [FoldedItem(orig, n - 1)])
  }

  // ---------------------------------------------------------------------------------------------
  // Facts about the unfolded tree

  lemma {:induction false} KidsAtLeast(items: seq<Item>, ks: set<nat>, d: Path)
    requires forall k <- ks :: k < |items| && IsChild(items[k].fullPath, d)
    ensures Kids(items, d) >= |ks|
  {
    if items == [] {
      assert ks == {};
    } else {
      var n := |items| - 1;
      KidsAtLeast(items[..n], ks - {n}, d);
      assert n in ks ==> |ks - {n}| == |ks| - 1;
      assert n !in ks ==> ks - {n} == ks;
    }
  }

  // The item after a directory is one of its children.
  lemma NextIsChild(orig: TrieItems, m: nat)
    requires m < |orig| && orig[m].kind.Directory?
    ensures m + 1 < |orig| && IsChild(orig[m + 1].fullPath, orig[m].fullPath)
  {
    var d, p := orig[m].fullPath, orig[m + 1].fullPath;
    var c := ChildTowards(orig, m, m + 1);
    assert StartsWith(orig[c].fullPath, d);
    assert |orig[c].fullPath| == |d| + 1;
  }

  // Everything inside a directory lies in one of its children, which is an item.
  lemma ChildTowards(orig: TrieItems, m: nat, k: nat) returns (c: nat)
    requires m < |orig| && k < |orig| && Above(orig[m].fullPath, orig[k].fullPath)
    ensures c <= k && IsChild(orig[c].fullPath, orig[m].fullPath)
    ensures StartsWith(orig[k].fullPath, orig[c].fullPath)
  {
    var d, p := orig[m].fullPath, orig[k].fullPath;
    if |p| == |d| + 1 {
      c := k;
    } else {
      assert HasAncestor(orig, k, |d| + 1);
      c :| 0 <= c < k && orig[c].fullPath == p[..|d| + 1];
    }
    assert Parent(orig[c].fullPath) == d;
  }

  lemma {:induction false} TwoKids(items: seq<Item>, a: nat, b: nat, d: Path)
    requires a < |items| && b < |items| && a != b
    requires IsChild(items[a].fullPath, d) && IsChild(items[b].fullPath, d)
    ensures Kids(items, d) >= 2
  {
    var ks: set<nat> := {a, b};
    KidsAtLeast(items, ks, d);
    assert |ks| == 2;
  }

  // A merged directory's single child contains whatever the directory contains.
  lemma SingleChild(orig: TrieItems, m: nat, k: nat)
    requires m < |orig| && Folds(orig, m) && k < |orig|
    requires IsChild(orig[m + 1].fullPath, orig[m].fullPath)
    requires Above(orig[m].fullPath, orig[k].fullPath)
    ensures StartsWith(orig[k].fullPath, orig[m + 1].fullPath)
  {
    var c := ChildTowards(orig, m, k);
    if c != m + 1 {
      TwoKids(orig, c, m + 1, orig[m].fullPath);
    }
  }

  // The textual prefix test on the merged directory's path hits its path descendants only.
  lemma TextTestIsPathTest(orig: TrieItems, m: nat, k: nat)
    requires m < |orig| && Folds(orig, m) && m + 1 < k < |orig|
    ensures Text(orig[m + 1].fullPath) <= Text(orig[k].fullPath)
            <==> Above(orig[m + 1].fullPath, orig[k].fullPath)
  {
    var d, p, q := orig[m].fullPath, orig[m + 1].fullPath, orig[k].fullPath;
    NextIsChild(orig, m);
    if Text(p) <= Text(q) {
      TextBelowDir(d, p, q);
      SingleChild(orig, m, k);
      assert !StartsWith(p, q);
    }
    if Above(p, q) {
      TextGrows(p, q);
    }
  }

  lemma {:induction false} TextBelowDir(d: Path, p: Path, q: Path)
    requires IsPath(d) && IsPath(q) && IsChild(p, d) && Text(p) <= Text(q)
    ensures Above(d, q)
  {
    assert Text(p) == Text(d) + "/" + p[|p| - 1];
    assert Text(d) + "/" <= Text(q);
    TextPrefixIsAncestor(d, q);
  }

  // The lengths of the ancestors of p among the first n items.
  ghost function AboveSet(orig: seq<Item>, n: nat, p: Path): set<nat>
    requires n <= |orig|
  {
    set h | 0 <= h < n && Above(orig[h].fullPath, p) :: |orig[h].fullPath|
  }

  lemma AboveSetStep(orig: seq<Item>, n: nat, p: Path)
    requires Preorder(orig) && 0 < n <= |orig|
    ensures Above(orig[n - 1].fullPath, p) ==>
              && AboveSet(orig, n, p) == AboveSet(orig, n - 1, p) + {|orig[n - 1].fullPath|}
              && |orig[n - 1].fullPath| !in AboveSet(orig, n - 1, p)
    ensures !Above(orig[n - 1].fullPath, p) ==> AboveSet(orig, n, p) == AboveSet(orig, n - 1, p)
  {
  }

  // How many of the first n rows are ancestors of p.
  function Depth(items: seq<Item>, n: nat, p: Path): nat
    requires n <= |items|
  {
    if n == 0 then 0 else Depth(items, n - 1, p) + (if Above(items[n - 1].fullPath, p) then 1 else 0)
  }

  // Merged or remaining, they are all counted.
  lemma {:induction false} CountsAreDepth(orig: seq<Item>, n: nat, p: Path)
    requires n <= |orig|
    ensures CountAbove(orig, n, p, true) + CountAbove(orig, n, p, false) == Depth(orig, n, p)
  {
    if n > 0 {
      CountsAreDepth(orig, n - 1, p);
    }
  }

  lemma AboveSetSize(orig: seq<Item>, n: nat, p: Path)
    requires Preorder(orig) && 0 < n <= |orig|
    ensures |AboveSet(orig, n, p)| == |AboveSet(orig, n - 1, p)| + if Above(orig[n - 1].fullPath, p) then 1 else 0
  {
    AboveSetStep(orig, n, p);
  }

  lemma {:induction false} DepthIsSize(orig: seq<Item>, n: nat, p: Path)
    requires Preorder(orig) && n <= |orig|
    ensures Depth(orig, n, p) == |AboveSet(orig, n, p)|
  {
    if n > 0 {
      DepthIsSize(orig, n - 1, p);
      AboveSetSize(orig, n, p);
    }
  }

  // {1, ..., n - 1}
  ghost function UpTo(n: nat): (s: set<nat>)
    ensures forall x :: x in s <==> 0 < x < n
    ensures |s| == if n == 0 then 0 else n - 1
  {
    if n <= 1 then {} else UpTo(n - 1) + {n - 1}
  }

  // Every item has as many ancestors among the earlier items as its indent says.
  lemma {:induction false} AncestorTotal(orig: TrieItems, j: nat)
    requires j < |orig|
    ensures CountAbove(orig, j, orig[j].fullPath, true) + CountAbove(orig, j, orig[j].fullPath, false)
         == Indent(orig[j].fullPath)
  {
    CountsAreDepth(orig, j, orig[j].fullPath);
    DepthIsSize(orig, j, orig[j].fullPath);
    AboveSetIsUpTo(orig, j);
  }

  lemma AboveSetIsUpTo(orig: TrieItems, j: nat)
    requires j < |orig|
    ensures AboveSet(orig, j, orig[j].fullPath) == UpTo(|orig[j].fullPath|)
  {
    forall x: nat
      ensures x in AboveSet(orig, j, orig[j].fullPath) <==> x in UpTo(|orig[j].fullPath|)
    {
      if 0 < x < |orig[j].fullPath| {
        AncestorCounted(orig, j, x);
      }
      if x in AboveSet(orig, j, orig[j].fullPath) {
        AncestorLength(orig, j, x);
      }
    }
  }

  lemma AncestorCounted(orig: TrieItems, j: nat, x: nat)
    requires j < |orig| && 0 < x < |orig[j].fullPath|
    ensures x in AboveSet(orig, j, orig[j].fullPath)
  {
    assert HasAncestor(orig, j, x);
    var h :| 0 <= h < j && orig[h].fullPath == orig[j].fullPath[..x];
    assert Above(orig[h].fullPath, orig[j].fullPath);
  }

  lemma AncestorLength(orig: TrieItems, j: nat, x: nat)
    requires j < |orig| && x in AboveSet(orig, j, orig[j].fullPath)
    ensures 0 < x < |orig[j].fullPath|
  {
    var h :| 0 <= h < j && Above(orig[h].fullPath, orig[j].fullPath) && |orig[h].fullPath| == x;
    assert IsPath(orig[h].fullPath);
  }
}
