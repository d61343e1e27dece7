// fold_paths and unindent, and what the folded tree looks like.
module FoldPaths {
  import opened Options
  import opened Paths
  import opened TreeItems
  import opened TreeShape
  import opened TreeFold

  // A row below the one being folded: as created, less one indent per merged ancestor so far.
  function Rest(orig: seq<Item>, m: nat, j: nat): Item
    requires m <= |orig| && j < |orig|
  {
    var p := orig[j].fullPath;
    var gone := CountAbove(orig, m, p, true);
    orig[j].(indent := if gone <= Indent(p) then Indent(p) - gone else 0)
  }

  // Row i of the list being folded stands for original item m; everything before it is final.
  ghost predicate FoldState(orig: seq<Item>, items: seq<Item>, i: nat, m: nat)
  {
    && m <= |orig| && i <= |items|
    && |items| - i == |orig| - m
    && items[..i] == Folded(orig, m)
    && (m < |orig| ==> items[i] == FoldedItem(orig, m))
    && (forall k | i < k < |items| :: items[k] == Rest(orig, m, m + (k - i)))
  }

  lemma {:induction false} HeadIsDir(orig: seq<Item>, m: nat)
    requires m < |orig|
    ensures Head(orig, m) != m ==> orig[m].kind.Directory? && orig[Head(orig, m)].kind.Directory?
    ensures orig[Head(orig, m)].kind.Directory? <==> orig[m].kind.Directory?
  {
    if m > 0 && Folds(orig, m - 1) {
      HeadIsDir(orig, m - 1);
    }
  }

  lemma FoldStart(orig: TrieItems)
    ensures FoldState(orig, orig, 0, 0)
  {
    if orig != [] {
      AncestorTotal(orig, 0);
      assert orig[0] == FoldedItem(orig, 0);
    }
  }

  lemma {:induction false} FoldedRow(orig: TrieItems, m: nat)
    requires m < |orig| && Head(orig, m) == m
    ensures FoldedItem(orig, m) == Rest(orig, m, m)
  {
    AncestorTotal(orig, m);
  }

  lemma SkipStep(orig: TrieItems, items: seq<Item>, i: nat, m: nat)
    requires FoldState(orig, items, i, m) && m < |orig| && !Folds(orig, m)
    ensures FoldState(orig, items, i + 1, m + 1)
  {
    if m + 1 < |orig| {
      FoldedRow(orig, m + 1);
    }
    SkipRow(orig, items, i, m);
  }

  lemma SkipRow(orig: seq<Item>, items: seq<Item>, i: nat, m: nat)
    requires FoldState(orig, items, i, m) && m < |orig| && !Folds(orig, m)
    requires m + 1 < |orig| ==> FoldedItem(orig, m + 1) == Rest(orig, m + 1, m + 1)
    ensures FoldState(orig, items, i + 1, m + 1)
  {
    assert items[..i + 1] == items[..i] + [items[i]];
    SkipTail(orig, items, i, m);
  }

  lemma SkipTail(orig: seq<Item>, items: seq<Item>, i: nat, m: nat)
    requires FoldState(orig, items, i, m) && m < |orig| && !Folds(orig, m)
    ensures forall k | i + 1 < k < |items| :: items[k] == Rest(orig, m + 1, m + 1 + (k - (i + 1)))
    ensures m + 1 < |orig| ==> items[i + 1] == Rest(orig, m + 1, m + 1)
  {
  }

  // fold: the merged row.
  lemma MergedRow(orig: TrieItems, m: nat)
    requires m < |orig| && Folds(orig, m)
    ensures FoldedItem(orig, m).Fold(Rest(orig, m, m + 1)) == FoldedItem(orig, m + 1)
  {
    NextIsChild(orig, m);
    SameAncestorsKept(orig, m);
    ChainPaths(orig, m);
    assert IsPath(orig[m].fullPath) && IsPath(orig[Head(orig, m)].fullPath);
    JoinedName(orig, m);
  }

  lemma JoinedName(orig: seq<Item>, m: nat)
    requires m + 1 < |orig| && Folds(orig, m) && orig[m + 1].folded.None?
    requires IsChild(orig[m + 1].fullPath, orig[m].fullPath)
    requires orig[Head(orig, m)].fullPath != []
    requires StartsWith(orig[m].fullPath, orig[Head(orig, m)].fullPath)
    ensures Some(FoldedItem(orig, m).Name() + Rest(orig, m, m + 1).Name()) == FoldedItem(orig, m + 1).folded
  {
    var d, p, h := orig[m].fullPath, orig[m + 1].fullPath, Head(orig, m);
    var start := |orig[h].fullPath| - 1;
    SuffixGrows(d, p, start);
    HeadName(orig, m);
    assert Head(orig, m + 1) == h;
  }

  lemma SuffixGrows(d: Path, p: Path, start: nat)
    requires IsChild(p, d) && start < |d|
    ensures p[start..] == d[start..] + [p[|p| - 1]]
  {
  }

  // A row displays its path from the head's last component on.
  lemma {:induction false} HeadName(orig: seq<Item>, m: nat)
    requires m < |orig| && orig[Head(orig, m)].fullPath != []
    requires StartsWith(orig[m].fullPath, orig[Head(orig, m)].fullPath)
    ensures FoldedItem(orig, m).Name() == orig[m].fullPath[|orig[Head(orig, m)].fullPath| - 1..]
  {
  }

  lemma {:induction false} ChainPaths(orig: TrieItems, m: nat)
    requires m < |orig|
    ensures StartsWith(orig[m].fullPath, orig[Head(orig, m)].fullPath)
  {
    if m > 0 && Folds(orig, m - 1) {
      ChainPaths(orig, m - 1);
      NextIsChild(orig, m - 1);
    }
  }

  // A child has its directory's ancestors and the directory itself.
  lemma {:induction false} ChildCount(orig: seq<Item>, n: nat, d: Path, p: Path, merged: bool)
    requires n <= |orig| && IsChild(p, d)
    requires forall h | 0 <= h < n :: orig[h].fullPath != d
    ensures CountAbove(orig, n, p, merged) == CountAbove(orig, n, d, merged)
  {
    if n > 0 {
      ChildCount(orig, n - 1, d, p, merged);
      var a := orig[n - 1].fullPath;
      assert Above(a, p) <==> Above(a, d) || a == d;
    }
  }

  lemma SameAncestorsKept(orig: seq<Item>, m: nat)
    requires Preorder(orig) && m < |orig| && Folds(orig, m)
    requires IsChild(orig[m + 1].fullPath, orig[m].fullPath)
    ensures CountAbove(orig, m + 1, orig[m + 1].fullPath, false) == CountAbove(orig, m, orig[m].fullPath, false)
  {
    forall h | 0 <= h < m
      ensures orig[h].fullPath != orig[m].fullPath
    {
      assert !StartsWith(orig[h].fullPath, orig[m].fullPath);
    }
    ChildCount(orig, m, orig[m].fullPath, orig[m + 1].fullPath, false);
  }

  // unindent: rows from `start` on lose one indent until the first whose text lacks the prefix.
  method Unindent(items: seq<Item>, prefix: string, start: nat) returns (r: seq<Item>)
    requires start <= |items|
    ensures r == Unindented(items, prefix, start)
  {
    r := items;
    for i := start to |items|
      invariant |r| == |items|
      invariant forall k | start <= k < i :: prefix <= Text(items[k].fullPath)
      invariant forall k | 0 <= k < |items| :: r[k] == if start <= k < i then items[k].Unindent() else items[k]
    {
      if prefix <= Text(r[i].fullPath) {
        r := r[i := r[i].Unindent()];
      } else {
        StopIs(items, prefix, start, i);
        return;
      }
    }
    StopIs(items, prefix, start, |items|);
  }

  function Stop(items: seq<Item>, prefix: string, start: nat): (stop: nat)
    requires start <= |items|
    ensures StopsAt(items, prefix, start, stop)
    decreases |items| - start
  {
    if start == |items| || !(prefix <= Text(items[start].fullPath)) then start else Stop(items, prefix, start + 1)
  }

  lemma {:induction false} StopIs(items: seq<Item>, prefix: string, start: nat, stop: nat)
    requires start <= |items| && StopsAt(items, prefix, start, stop)
    ensures Stop(items, prefix, start) == stop
    decreases stop - start
  {
    if start < stop {
      StopIs(items, prefix, start + 1, stop);
    }
  }

  // Exactly the rows from `start` up to the first without the prefix have lost one indent.
  function Unindented(items: seq<Item>, prefix: string, start: nat): (r: seq<Item>)
    requires start <= |items|
    ensures |r| == |items|
  {
    var stop := Stop(items, prefix, start);
    seq(|items|, k requires 0 <= k < |items| => if start <= k < stop then items[k].Unindent() else items[k])
  }

  // The first row at or after `start` whose text lacks the prefix.
  ghost predicate StopsAt(items: seq<Item>, prefix: string, start: nat, stop: nat)
  {
    && start <= stop <= |items|
    && (forall k | start <= k < stop :: prefix <= Text(items[k].fullPath))
    && (stop < |items| ==> !(prefix <= Text(items[stop].fullPath)))
  }

  // Unindenting the rows inside the merged directory accounts for one more merged ancestor.
  lemma UnindentedRow(orig: TrieItems, m: nat, j: nat)
    requires Folds(orig, m) && m + 1 < j < |orig|
    ensures Rest(orig, m + 1, j)
         == if Above(orig[m + 1].fullPath, orig[j].fullPath) then Rest(orig, m, j).Unindent() else Rest(orig, m, j)
  {
    var d, q := orig[m].fullPath, orig[j].fullPath;
    NextIsChild(orig, m);
    if Above(d, q) {
      SingleChild(orig, m, j);
      assert !StartsWith(orig[m + 1].fullPath, q);
      AncestorTotal(orig, j);
      CountGrows(orig, m + 1, j, q);
    }
  }

  lemma {:induction false} CountGrows(orig: seq<Item>, n: nat, n': nat, p: Path)
    requires n <= n' <= |orig|
    ensures CountAbove(orig, n, p, true) <= CountAbove(orig, n', p, true)
    decreases n'
  {
    if n < n' {
      CountGrows(orig, n, n' - 1, p);
    }
  }

  // Row k is original item m + 1 + (k - i), for every row after the merged one.
  ghost predicate TailOf(orig: seq<Item>, m: nat, i: nat, rows: seq<Item>)
  {
    && m + 1 < |orig| && |rows| - i == |orig| - m - 1
    && (forall k | i < k < |rows| :: rows[k].fullPath == orig[m + 1 + (k - i)].fullPath)
  }

  lemma HitIsInside(orig: TrieItems, m: nat, i: nat, rows: seq<Item>, stop: nat, k: nat)
    requires Folds(orig, m) && TailOf(orig, m, i, rows) && i < k < |rows|
    requires StopsAt(rows, Text(orig[m + 1].fullPath), i + 1, stop)
    ensures k < stop <==> Above(orig[m + 1].fullPath, rows[k].fullPath)
  {
    var j := m + 1 + (k - i);
    assert rows[k].fullPath == orig[j].fullPath;
    if k < stop {
      TextTestIsPathTest(orig, m, j);
    } else {
      var s := m + 1 + (stop - i);
      assert rows[stop].fullPath == orig[s].fullPath;
      BeyondStop(orig, m, s, j);
    }
  }

  lemma BeyondStop(orig: TrieItems, m: nat, s: nat, j: nat)
    requires Folds(orig, m) && m + 1 < s <= j < |orig|
    requires !(Text(orig[m + 1].fullPath) <= Text(orig[s].fullPath))
    ensures !Above(orig[m + 1].fullPath, orig[j].fullPath)
  {
    TextTestIsPathTest(orig, m, s);
    assert !StartsWith(orig[m + 1].fullPath, orig[s].fullPath);
  }

  // `rows` is `items` after `remove(i + 1)` and `fold`.
  ghost predicate Merged(items: seq<Item>, i: nat, rows: seq<Item>)
  {
    && i + 1 < |items| && |rows| == |items| - 1
    && rows[..i] == items[..i]
    && rows[i] == items[i].Fold(items[i + 1])
    && (forall k | i < k < |rows| :: rows[k] == items[k + 1])
  }

  lemma RowOf(orig: seq<Item>, items: seq<Item>, i: nat, m: nat, k: nat)
    requires FoldState(orig, items, i, m) && i < k < |items|
    ensures m < |orig| && m + (k - i) < |orig| && items[k] == Rest(orig, m, m + (k - i))
  {
  }

  lemma MergedTail(orig: seq<Item>, items: seq<Item>, i: nat, m: nat, rows: seq<Item>)
    requires FoldState(orig, items, i, m) && m + 1 < |orig| && Merged(items, i, rows)
    ensures TailOf(orig, m, i, rows)
    ensures forall k | i < k < |rows| :: rows[k] == Rest(orig, m, m + 1 + (k - i))
  {
  }

  lemma {:induction false} MergedHead(orig: TrieItems, items: seq<Item>, i: nat, m: nat, rows: seq<Item>)
    requires FoldState(orig, items, i, m) && Folds(orig, m) && Merged(items, i, rows)
    ensures rows[..i] == Folded(orig, m + 1) && rows[i] == FoldedItem(orig, m + 1)
  {
    RowOf(orig, items, i, m, i + 1);
    MergedRow(orig, m);
  }

  // The list right before the rows inside the merged directory lose an indent.
  ghost predicate Joined(orig: seq<Item>, m: nat, i: nat, rows: seq<Item>)
  {
    && TailOf(orig, m, i, rows) && i < |rows|
    && rows[..i] == Folded(orig, m + 1) && rows[i] == FoldedItem(orig, m + 1)
    && (forall k | i < k < |rows| :: rows[k] == Rest(orig, m, m + 1 + (k - i)))
  }

  lemma MergedIsJoined(orig: TrieItems, items: seq<Item>, i: nat, m: nat, rows: seq<Item>)
    requires FoldState(orig, items, i, m) && Folds(orig, m) && Merged(items, i, rows)
    ensures Joined(orig, m, i, rows)
  {
    MergedHead(orig, items, i, m, rows);
    MergedTail(orig, items, i, m, rows);
  }

  lemma JoinedRow(orig: seq<Item>, m: nat, i: nat, rows: seq<Item>, k: nat)
    requires Joined(orig, m, i, rows) && i < k < |rows|
    ensures rows[k] == Rest(orig, m, m + 1 + (k - i)) && rows[k].fullPath == orig[m + 1 + (k - i)].fullPath
  {
  }

  lemma RowAfterMerge(orig: TrieItems, m: nat, j: nat, x: Item, hit: bool)
    requires Folds(orig, m) && m + 1 < j < |orig| && x == Rest(orig, m, j)
    requires hit <==> Above(orig[m + 1].fullPath, x.fullPath)
    ensures (if hit then x.Unindent() else x) == Rest(orig, m + 1, j)
  {
    UnindentedRow(orig, m, j);
  }

  lemma MergeStep(orig: TrieItems, m: nat, i: nat, rows: seq<Item>, r: seq<Item>, stop: nat)
    requires Folds(orig, m) && Joined(orig, m, i, rows)
    requires StopsAt(rows, Text(orig[m + 1].fullPath), i + 1, stop)
    requires |r| == |rows|
    requires forall k | 0 <= k < |rows| :: r[k] == if i < k < stop then rows[k].Unindent() else rows[k]
    ensures FoldState(orig, r, i, m + 1)
  {
    assert r[..i] == rows[..i];
    MergeTail(orig, m, i, rows, r, stop);
  }

  lemma MergeTail(orig: TrieItems, m: nat, i: nat, rows: seq<Item>, r: seq<Item>, stop: nat)
    requires Folds(orig, m) && Joined(orig, m, i, rows)
    requires StopsAt(rows, Text(orig[m + 1].fullPath), i + 1, stop)
    requires |r| == |rows|
    requires forall k | i < k < |rows| :: r[k] == if k < stop then rows[k].Unindent() else rows[k]
    ensures forall k | i < k < |r| :: r[k] == Rest(orig, m + 1, m + 1 + (k - i))
  {
    forall k | i < k < |r|
      ensures r[k] == Rest(orig, m + 1, m + 1 + (k - i))
    {
      MergeRow(orig, m, i, rows, stop, k);
    }
  }

  lemma MergeRow(orig: TrieItems, m: nat, i: nat, rows: seq<Item>, stop: nat, k: nat)
    requires Folds(orig, m) && Joined(orig, m, i, rows) && i < k < |rows|
    requires StopsAt(rows, Text(orig[m + 1].fullPath), i + 1, stop)
    ensures m + 1 + (k - i) < |orig|
    ensures Rest(orig, m + 1, m + 1 + (k - i)) == if k < stop then rows[k].Unindent() else rows[k]
  {
    var j, x := m + 1 + (k - i), rows[k];
    HitIsInside(orig, m, i, rows, stop, k);
    JoinedRow(orig, m, i, rows, k);
    assert x == Rest(orig, m, j);
    RowAfterMerge(orig, m, j, x, k < stop);
  }

  // The table of child counts agrees with the items.
  ghost predicate CountsKids(counts: map<Path, nat>, items: seq<Item>)
  {
    forall i | 0 <= i < |items| && items[i].kind.Directory? ::
      items[i].fullPath in counts && counts[items[i].fullPath] == Kids(items, items[i].fullPath)
  }

  lemma RowsMatch(orig: TrieItems, items: seq<Item>, i: nat, m: nat)
    requires FoldState(orig, items, i, m) && i < |items|
    ensures m < |orig| && items[i].fullPath == orig[m].fullPath
    ensures items[i].kind.Directory? <==> orig[m].kind.Directory?
    ensures items[i].kind.Directory? ==> i + 1 < |items| && m + 1 < |orig|
    ensures i + 1 < |items| ==> m + 1 < |orig| && items[i + 1].kind == orig[m + 1].kind
    ensures i + 1 < |items| ==> items[i].Fold(items[i + 1]).fullPath == orig[m + 1].fullPath
  {
    HeadIsDir(orig, m);
    if i + 1 < |items| {
      RowOf(orig, items, i, m, i + 1);
    }
  }

  // The row is a directory with one child, and a directory follows.
  predicate FoldsHere(counts: map<Path, nat>, items: seq<Item>, i: nat)
    requires i < |items|
  {
    OneChild(counts, items[i]) && i + 1 < |items| && items[i + 1].kind.Directory?
  }

  predicate OneChild(counts: map<Path, nat>, x: Item)
  {
    x.kind.Directory? && x.fullPath in counts && counts[x.fullPath] == 1
  }

  // The rows with row i + 1 folded into row i.
  function MergedRows(items: seq<Item>, i: nat): seq<Item>
    requires i + 1 < |items|
  {
    items[..i] + [items[i].Fold(items[i + 1])] + items[i + 2..]
  }

  // And the rows inside moved one indent to the left.
  function FoldedInto(items: seq<Item>, i: nat): (r: seq<Item>)
    requires i + 1 < |items|
    ensures |r| == |items| - 1
  {
    var merged := MergedRows(items, i);
    Unindented(merged, Text(merged[i].fullPath), i + 1)
  }

  // fold_paths from row i on. A directory with one child and nothing after it ends it.
  function FoldFrom(counts: map<Path, nat>, items: seq<Item>, i: nat): seq<Item>
    decreases |items| - i
  {
    if i >= |items| then items
    else if FoldsHere(counts, items, i) then
      FoldFrom(counts, FoldedInto(items, i), i)
    else if OneChild(counts, items[i]) && i + 1 >= |items| then items
    else FoldFrom(counts, items, i + 1)
  }

  method FoldLoop(orig: seq<Item>, counts: map<Path, nat>) returns (items: seq<Item>)
    ensures items == FoldFrom(counts, orig, 0)
  {
    items := orig;
    var i: nat := 0;
    while i < |items|
      invariant FoldFrom(counts, items, i) == FoldFrom(counts, orig, 0)
      decreases |items| - i
    {
      var item := items[i];
      if item.kind.Directory? && item.fullPath in counts && counts[item.fullPath] == 1 {
        if i + 1 >= |items| {
          return;
        }
        if items[i + 1].kind.Directory? {
          var next := items[i + 1];
          items := items[..i] + [items[i].Fold(next)] + items[i + 2..];
          var prefix := Text(items[i].fullPath);
          items := Unindent(items, prefix, i + 1);
          continue;
        }
      }
      i := i + 1;
    }
  }

  // ---------------------------------------------------------------------------------------------
  // What folding does

  lemma {:induction false} MergedFiles(items: seq<Item>, i: nat)
    requires i + 1 < |items| && items[i].kind.Directory? && items[i + 1].kind.Directory?
    ensures Files(MergedRows(items, i)) == Files(items)
  {
    OneForTwo(items[..i], items[i], items[i + 1], items[i].Fold(items[i + 1]), items[i + 2..]);
    assert items == items[..i] + [items[i], items[i + 1]] + items[i + 2..];
  }

  lemma {:induction false} OneForTwo(a: seq<Item>, x: Item, y: Item, z: Item, c: seq<Item>)
    requires x.kind.Directory? && y.kind.Directory? && z.kind.Directory?
    ensures Files(a + [z] + c) == Files(a + [x, y] + c)
  {
    FilesOfDirs(a, [x, y]);
    FilesOfDirs(a, [z]);
    FilesOfBoth(a + [x, y], c);
    FilesOfBoth(a + [z], c);
  }

  // Whatever the rows, folding moves no file.
  lemma {:induction false} FoldFromFiles(counts: map<Path, nat>, items: seq<Item>, i: nat)
    ensures Files(FoldFrom(counts, items, i)) == Files(items)
    decreases |items| - i
  {
    if i < |items| {
      if FoldsHere(counts, items, i) {
        MergedFiles(items, i);
        FilesOfSame(FoldedInto(items, i), MergedRows(items, i));
        FoldFromFiles(counts, FoldedInto(items, i), i);
      } else if !(OneChild(counts, items[i]) && i + 1 >= |items|) {
        FoldFromFiles(counts, items, i + 1);
      }
    }
  }

  lemma MergedList(items: seq<Item>, i: nat)
    requires i + 1 < |items|
    ensures Merged(items, i, MergedRows(items, i))
  {
  }

  lemma FoldsHereIff(orig: TrieItems, counts: map<Path, nat>, items: seq<Item>, i: nat, m: nat)
    requires CountsKids(counts, orig) && FoldState(orig, items, i, m) && i < |items|
    ensures m < |orig| && (FoldsHere(counts, items, i) <==> Folds(orig, m))
    ensures OneChild(counts, items[i]) ==> i + 1 < |items|
  {
    RowsMatch(orig, items, i, m);
  }

  lemma MergedStep(orig: TrieItems, items: seq<Item>, i: nat, m: nat)
    requires FoldState(orig, items, i, m) && m < |orig| && Folds(orig, m) && i + 1 < |items|
    ensures FoldState(orig, FoldedInto(items, i), i, m + 1)
  {
    var merged := MergedRows(items, i);
    var prefix := Text(merged[i].fullPath);
    MergedList(items, i);
    MergedIsJoined(orig, items, i, m, merged);
    MergeStep(orig, m, i, merged, Unindented(merged, prefix, i + 1), Stop(merged, prefix, i + 1));
  }

  // One turn of the loop.
  lemma FoldFromOnce(counts: map<Path, nat>, items: seq<Item>, i: nat)
    requires i < |items| && (OneChild(counts, items[i]) ==> i + 1 < |items|)
    ensures FoldFrom(counts, items, i)
         == if FoldsHere(counts, items, i) then FoldFrom(counts, FoldedInto(items, i), i)
            else FoldFrom(counts, items, i + 1)
  {
  }

  lemma TrieStep(orig: TrieItems, counts: map<Path, nat>, items: seq<Item>, i: nat, m: nat)
    requires CountsKids(counts, orig) && FoldState(orig, items, i, m) && i < |items|
    ensures m < |orig|
    ensures FoldFrom(counts, items, i)
         == if Folds(orig, m) && i + 1 < |items| then FoldFrom(counts, FoldedInto(items, i), i)
            else FoldFrom(counts, items, i + 1)
    ensures Folds(orig, m) ==> i + 1 < |items|
  {
    FoldsHereIff(orig, counts, items, i, m);
    FoldFromOnce(counts, items, i);
  }

  // One turn deals with item m.
  lemma TrieTurn(orig: TrieItems, counts: map<Path, nat>, items: seq<Item>, i: nat, m: nat)
    returns (items': seq<Item>, i': nat)
    requires CountsKids(counts, orig) && FoldState(orig, items, i, m) && i < |items|
    ensures FoldState(orig, items', i', m + 1)
    ensures FoldFrom(counts, items, i) == FoldFrom(counts, items', i')
  {
    TrieStep(orig, counts, items, i, m);
    if Folds(orig, m) {
      MergedStep(orig, items, i, m);
      items', i' := FoldedInto(items, i), i;
    } else {
      SkipStep(orig, items, i, m);
      items', i' := items, i + 1;
    }
  }

  // The rows when item m comes up, and the row that stands for it.
  function Midway(orig: seq<Item>, m: nat): seq<Item>
    requires m <= |orig|
  {
    Folded(orig, m)
    + if m == |orig| then [] else
        [FoldedItem(orig, m)] + seq(|orig| - m - 1, k requires 0 <= k < |orig| - m - 1 => Rest(orig, m, m + 1 + k))
  }

  function Row(orig: seq<Item>, m: nat): nat
    requires m <= |orig|
  {
    |Folded(orig, m)|
  }

  lemma MidwayIsState(orig: seq<Item>, m: nat)
    requires m <= |orig|
    ensures FoldState(orig, Midway(orig, m), Row(orig, m), m)
  {
  }

  lemma StateIsMidway(orig: seq<Item>, items: seq<Item>, i: nat, m: nat)
    requires FoldState(orig, items, i, m)
    ensures items == Midway(orig, m) && i == Row(orig, m)
  {
    var rows := Midway(orig, m);
    assert i == Row(orig, m) && |items| == |rows|;
    forall k | 0 <= k < |items|
      ensures items[k] == rows[k]
    {
      if k < i {
        assert items[k] == items[..i][k];
      }
    }
  }

  lemma {:induction false} MidwayTurn(orig: TrieItems, counts: map<Path, nat>, m: nat)
    requires CountsKids(counts, orig) && m < |orig|
    ensures FoldFrom(counts, Midway(orig, m), Row(orig, m)) == FoldFrom(counts, Midway(orig, m + 1), Row(orig, m + 1))
  {
    MidwayIsState(orig, m);
    var items, i := TrieTurn(orig, counts, Midway(orig, m), Row(orig, m), m);
    StateIsMidway(orig, items, i, m + 1);
  }

  lemma {:induction false} MidwayEnds(orig: seq<Item>, counts: map<Path, nat>)
    ensures FoldFrom(counts, Midway(orig, |orig|), Row(orig, |orig|)) == Folded(orig, |orig|)
  {
  }

  // What comes out when item m is up.
  function Outcome(orig: seq<Item>, counts: map<Path, nat>, m: nat): seq<Item>
  {
    if m <= |orig| then FoldFrom(counts, Midway(orig, m), Row(orig, m)) else []
  }

  lemma OutcomeTurn(orig: TrieItems, counts: map<Path, nat>, m: nat)
    requires CountsKids(counts, orig) && 0 < m <= |orig|
    ensures Outcome(orig, counts, m - 1) == Outcome(orig, counts, m)
  {
    MidwayTurn(orig, counts, m - 1);
  }

  lemma Unchanged<T>(f: nat -> T, n: nat)
    requires forall m: nat | 0 < m <= n :: f(m - 1) == f(m)
    ensures f(0) == f(n)
  {
    if n > 0 {
      Unchanged(f, n - 1);
    }
  }

  lemma {:induction false} OutcomeStarts(orig: TrieItems, counts: map<Path, nat>)
    ensures Outcome(orig, counts, 0) == FoldFrom(counts, orig, 0)
  {
    FoldStart(orig);
    StateIsMidway(orig, orig, 0, 0);
  }

  lemma {:induction false} OutcomeEnds(orig: seq<Item>, counts: map<Path, nat>)
    ensures Outcome(orig, counts, |orig|) == Folded(orig, |orig|)
  {
    MidwayEnds(orig, counts);
  }

  // A trie with its counts becomes the folded tree.
  lemma {:induction false} FoldOfTrie(orig: TrieItems, counts: map<Path, nat>)
    requires CountsKids(counts, orig)
    ensures FoldFrom(counts, orig, 0) == Folded(orig, |orig|)
  {
    OutcomeStarts(orig, counts);
    var f := (m: nat) => Outcome(orig, counts, m);
    forall m: nat | 0 < m <= |orig|
      ensures f(m - 1) == f(m)
    {
      OutcomeTurn(orig, counts, m);
    }
    Unchanged(f, |orig|);
    OutcomeEnds(orig, counts);
  }

  // Whatever the rows, no file is moved; a trie with its counts becomes the folded tree.
  method Fold(orig: seq<Item>, counts: map<Path, nat>) returns (items: seq<Item>)
    ensures items == FoldFrom(counts, orig, 0) && Files(items) == Files(orig)
    ensures Trie(orig) && CountsKids(counts, orig) ==> items == Folded(orig, |orig|)
  {
    items := FoldLoop(orig, counts);
    FoldFromFiles(counts, orig, 0);
    FoldOfTrieIf(orig, counts);
  }

  lemma {:induction false} FoldOfTrieIf(orig: seq<Item>, counts: map<Path, nat>)
    ensures Trie(orig) && CountsKids(counts, orig) ==> FoldFrom(counts, orig, 0) == Folded(orig, |orig|)
  {
    if Trie(orig) && CountsKids(counts, orig) {
      FoldOfTrie(orig, counts);
    }
  }
}
