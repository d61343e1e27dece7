// Collapsing and expanding: the incrementally kept visible flags against their meaning.
module Visibility {
  import opened Options
  import opened Paths
  import opened TreeItems
  import opened TreeShape
  import opened TreeFold
  import opened FoldedTree

  // Row i has a collapsed proper ancestor.
  ghost predicate Covered(items: seq<Item>, i: nat)
    requires i < |items|
  {
    exists h :: 0 <= h < |items| && Above(items[h].fullPath, items[i].fullPath) && items[h].IsCollapsed()
  }

  // What the visible flags mean.
  ghost predicate FlagsRight(items: seq<Item>)
  {
    forall i | 0 <= i < |items| :: items[i].visible <==> !Covered(items, i)
  }

  // The rows after collapse(index, false).
  ghost function Collapsed(items: seq<Item>, index: nat): (r: seq<Item>)
    requires index < |items|
    ensures |r| == |items|
  {
    if items[index].kind.File? then items else
      seq(|items|, (i: nat) requires i < |items| =>
        if i == index then items[i].(kind := Directory(true))
        else if Above(items[index].fullPath, items[i].fullPath) then items[i].(visible := false)
        else items[i])
  }

  // The directory flags after expand(index, recursive).
  ghost function Opened(items: seq<Item>, index: nat, recursive: bool): (r: seq<Item>)
    requires index < |items|
    ensures |r| == |items|
  {
    seq(|items|, (i: nat) requires i < |items| =>
      if i == index
         || (recursive && items[i].IsCollapsed() && Above(items[index].fullPath, items[i].fullPath))
      then items[i].(kind := Directory(false))
      else items[i])
  }

  // Row i has a collapsed proper ancestor inside directory `index`.
  ghost predicate CoveredWithin(items: seq<Item>, index: nat, i: nat)
    requires index < |items| && i < |items|
  {
    exists h :: && 0 <= h < |items| && items[h].IsCollapsed()
                && Above(items[index].fullPath, items[h].fullPath)
                && Above(items[h].fullPath, items[i].fullPath)
  }

  // The rows after update_visibility(Some(path of index), index + 1, false).
  ghost function Shown(items: seq<Item>, index: nat): (r: seq<Item>)
    requires index < |items|
    ensures |r| == |items|
  {
    seq(|items|, (i: nat) requires i < |items| =>
      if Above(items[index].fullPath, items[i].fullPath) && !CoveredWithin(items, index, i)
      then items[i].(visible := true)
      else items[i])
  }

  // Row i lies in a collapsed directory among the rows from `start` on.
  ghost predicate Skipped(items: seq<Item>, start: nat, i: nat)
    requires i < |items|
  {
    exists h :: start <= h < i && items[h].IsCollapsed() && StartsWith(items[i].fullPath, items[h].fullPath)
  }

  ghost predicate Outside(items: seq<Item>, prefix: Option<Path>, start: nat, i: nat)
    requires i < |items|
  {
    !Skipped(items, start, i) && prefix.Some? && !StartsWith(items[i].fullPath, prefix.value)
  }

  ghost predicate AnyOutside(items: seq<Item>, prefix: Option<Path>, start: nat, n: nat)
  {
    exists j: nat | j < |items| :: start <= j < n && Outside(items, prefix, start, j)
  }

  // The rows after update_visibility(prefix, start, setDefaults).
  ghost function Updated(items: seq<Item>, prefix: Option<Path>, start: nat, setDefaults: bool): (r: seq<Item>)
    ensures |r| == |items|
  {
    seq(|items|, (i: nat) requires i < |items| =>
      if i < start || (!setDefaults && AnyOutside(items, prefix, start, i + 1)) then items[i]
      else if Skipped(items, start, i) then (if setDefaults then items[i].(visible := false) else items[i])
      else items[i].(visible := prefix.None? || StartsWith(items[i].fullPath, prefix.value)))
  }

  // As expand calls it, it shows what is inside the directory and not covered there.
  lemma UpdatedIsShown(items: seq<Item>, index: nat)
    requires index < |items| && Preorder(items)
    ensures Updated(items, Some(items[index].fullPath), index + 1, false) == Shown(items, index)
  {
    var prefix := Some(items[index].fullPath);
    forall i | 0 <= i < |items|
      ensures Updated(items, prefix, index + 1, false)[i] == Shown(items, index)[i]
    {
      UpdatedRow(items, index, i);
    }
  }

  lemma UpdatedRow(items: seq<Item>, index: nat, i: nat)
    requires index < |items| && Preorder(items) && i < |items|
    ensures Updated(items, Some(items[index].fullPath), index + 1, false)[i] == Shown(items, index)[i]
  {
    var prefix := Some(items[index].fullPath);
    if i <= index {
      assert StartsWith(items[i].fullPath, items[index].fullPath) ==> index <= i;
    } else if StartsWith(items[i].fullPath, items[index].fullPath) {
      NoneOutside(items, index, i);
      SkippedIsCovered(items, index, i);
      assert !StartsWith(items[index].fullPath, items[i].fullPath);
    } else {
      var e := FirstOutside(items, index, i);
    }
  }

  // The rows up to one inside are all inside.
  lemma NoneOutside(items: seq<Item>, index: nat, i: nat)
    requires index < i < |items| && Preorder(items) && StartsWith(items[i].fullPath, items[index].fullPath)
    ensures !AnyOutside(items, Some(items[index].fullPath), index + 1, i + 1)
  {
  }

  // Row i has a collapsed proper ancestor among the rows from `start` on.
  ghost predicate CoveredFrom(items: seq<Item>, start: nat, i: nat)
    requires i < |items|
  {
    exists h :: start <= h < |items| && items[h].IsCollapsed() && Above(items[h].fullPath, items[i].fullPath)
  }

  lemma SkippedIff(items: seq<Item>, start: nat, i: nat)
    requires Preorder(items) && i < |items|
    ensures Skipped(items, start, i) <==> CoveredFrom(items, start, i)
  {
    if Skipped(items, start, i) {
      var h :| start <= h < i && items[h].IsCollapsed() && StartsWith(items[i].fullPath, items[h].fullPath);
      assert !StartsWith(items[h].fullPath, items[i].fullPath);
    }
    if CoveredFrom(items, start, i) {
      var h :| start <= h < |items| && items[h].IsCollapsed() && Above(items[h].fullPath, items[i].fullPath);
      assert StartsWith(items[i].fullPath, items[h].fullPath);
    }
  }

  lemma SkippedIsCovered(items: seq<Item>, index: nat, i: nat)
    requires index < i < |items| && Preorder(items) && StartsWith(items[i].fullPath, items[index].fullPath)
    ensures Skipped(items, index + 1, i) <==> CoveredWithin(items, index, i)
  {
    SkippedIff(items, index + 1, i);
    if h :| index + 1 <= h < |items| && items[h].IsCollapsed() && Above(items[h].fullPath, items[i].fullPath) {
      assert StartsWith(items[i].fullPath, items[h].fullPath);
      assert StartsWith(items[h].fullPath, items[index].fullPath);
      assert !StartsWith(items[index].fullPath, items[h].fullPath);
    }
    if CoveredWithin(items, index, i) {
      var h :| 0 <= h < |items| && items[h].IsCollapsed() && Above(items[index].fullPath, items[h].fullPath)
               && Above(items[h].fullPath, items[i].fullPath);
      assert StartsWith(items[h].fullPath, items[index].fullPath);
    }
  }

  // The first row after the block is skipped by nothing.
  lemma FirstOutside(items: seq<Item>, index: nat, i: nat) returns (e: nat)
    requires index < i < |items| && Preorder(items) && !StartsWith(items[i].fullPath, items[index].fullPath)
    ensures index < e <= i && Outside(items, Some(items[index].fullPath), index + 1, e)
    decreases i
  {
    if h :| index + 1 <= h < i && items[h].IsCollapsed() && StartsWith(items[i].fullPath, items[h].fullPath) {
      e := FirstOutside(items, index, h);
    } else {
      e := i;
    }
  }

  // With defaults, every row from `start` on is shown exactly if it lies under the prefix (if any)
  // and no directory from there on covers it. Without a prefix and without defaults, the pass shows
  // the rows that are not covered and hides none.
  lemma UpdatedFlags(items: seq<Item>, prefix: Option<Path>, start: nat)
    requires Preorder(items)
    ensures forall i | 0 <= i < |items| ::
              Updated(items, prefix, start, true)[i]
              == if i < start then items[i]
                 else items[i].(visible := !CoveredFrom(items, start, i)
                                           && (prefix.None? || prefix.value <= items[i].fullPath))
    ensures forall i | 0 <= i < |items| ::
              Updated(items, None, start, false)[i]
              == items[i].(visible := items[i].visible || (i >= start && !CoveredFrom(items, start, i)))
  {
    forall i: nat | i < |items|
      ensures Skipped(items, start, i) <==> CoveredFrom(items, start, i)
    {
      SkippedIff(items, start, i);
    }
  }

  // A pass with defaults over all rows makes the flags right, whatever they were.
  lemma UpdateMakesFlagsRight(items: seq<Item>)
    requires Preorder(items)
    ensures FlagsRight(Updated(items, None, 0, true)) && SameRows(items, Updated(items, None, 0, true))
  {
    var r := Updated(items, None, 0, true);
    UpdatedFlags(items, None, 0);
    forall i: nat | i < |items|
      ensures Covered(r, i) <==> CoveredFrom(items, 0, i)
    {
      CoverIgnoresFlags(items, r, i);
    }
  }

  // The rows after expand(index, recursive).
  ghost function Expanded(items: seq<Item>, index: nat, recursive: bool): (r: seq<Item>)
    requires index < |items|
    ensures |r| == |items|
  {
    if items[index].kind.File? then items else Shown(Opened(items, index, recursive), index)
  }

  // Only flags differ.
  ghost predicate SameRows(items: seq<Item>, items': seq<Item>)
  {
    && |items| == |items'|
    && (forall i | 0 <= i < |items| ::
          && items'[i].fullPath == items[i].fullPath
          && items'[i].indent == items[i].indent
          && (items'[i].kind.Directory? <==> items[i].kind.Directory?))
  }

  lemma {:induction false} SameDepth(items: seq<Item>, items': seq<Item>, n: nat, p: Path)
    requires SameRows(items, items') && n <= |items|
    ensures Depth(items, n, p) == Depth(items', n, p)
  {
    if n > 0 {
      SameDepth(items, items', n - 1, p);
    }
  }

  lemma SameRowsSameShape(items: seq<Item>, items': seq<Item>)
    requires Shape(items) && SameRows(items, items')
    ensures Shape(items')
  {
    forall i, j | 0 <= i < |items'| && 0 <= j < |items'| && StartsWith(items'[j].fullPath, items'[i].fullPath)
      ensures i <= j
    {
      assert StartsWith(items[j].fullPath, items[i].fullPath);
    }
    forall i, j, k | 0 <= i <= j <= k < |items'| && StartsWith(items'[k].fullPath, items'[i].fullPath)
      ensures StartsWith(items'[j].fullPath, items'[i].fullPath)
    {
      assert StartsWith(items[k].fullPath, items[i].fullPath);
      assert StartsWith(items[j].fullPath, items[i].fullPath);
    }
    forall i | 0 <= i < |items'|
      ensures items'[i].indent == Depth(items', i, items'[i].fullPath)
    {
      SameDepth(items, items', i, items[i].fullPath);
    }
  }

  // ---------------------------------------------------------------------------------------------
  // Collapsing

  // Collapsing covers what is inside and nothing else anew.
  lemma CollapsedCover(items: seq<Item>, index: nat, i: nat)
    requires index < |items| && i < |items| && items[index].kind.Directory?
    ensures Covered(Collapsed(items, index), i)
       <==> Above(items[index].fullPath, items[i].fullPath) || Covered(items, i)
  {
    var r := Collapsed(items, index);
    if Above(items[index].fullPath, items[i].fullPath) {
      assert Above(r[index].fullPath, r[i].fullPath) && r[index].IsCollapsed();
    } else if Covered(items, i) {
      var h :| 0 <= h < |items| && Above(items[h].fullPath, items[i].fullPath) && items[h].IsCollapsed();
      assert Above(r[h].fullPath, r[i].fullPath) && r[h].IsCollapsed();
    }
  }

  lemma CollapseKeepsFlags(items: seq<Item>, index: nat)
    requires index < |items| && FlagsRight(items)
    ensures FlagsRight(Collapsed(items, index)) && SameRows(items, Collapsed(items, index))
  {
    if items[index].kind.Directory? {
      forall i | 0 <= i < |items|
        ensures Collapsed(items, index)[i].visible <==> !Covered(Collapsed(items, index), i)
      {
        CollapsedCover(items, index, i);
      }
    }
  }

  // ---------------------------------------------------------------------------------------------
  // Expanding

  lemma OpenedSameRows(items: seq<Item>, index: nat, recursive: bool)
    requires index < |items| && items[index].kind.Directory?
    ensures SameRows(items, Opened(items, index, recursive))
    ensures SameRows(items, Expanded(items, index, recursive))
  {
  }

  // Above an item inside the directory there are only items above it, itself, or items inside it.
  lemma AncestorsOnChain(items: seq<Item>, index: nat, h: nat, i: nat)
    requires Preorder(items) && index < |items| && h < |items| && i < |items|
    requires Above(items[index].fullPath, items[i].fullPath) && Above(items[h].fullPath, items[i].fullPath)
    ensures || Above(items[h].fullPath, items[index].fullPath) || h == index
            || Above(items[index].fullPath, items[h].fullPath)
  {
  }

  // With the directory itself visible, the cover of what is inside it is decided inside it.
  lemma CoverInside(items: seq<Item>, index: nat, i: nat, recursive: bool)
    requires Preorder(items) && index < |items| && i < |items| && items[index].kind.Directory?
    requires !Covered(items, index) && Above(items[index].fullPath, items[i].fullPath)
    ensures var s := Opened(items, index, recursive); Covered(s, i) <==> CoveredWithin(s, index, i)
  {
  }

  lemma CoverOutside(items: seq<Item>, index: nat, i: nat, recursive: bool)
    requires index < |items| && i < |items| && items[index].kind.Directory?
    requires !Above(items[index].fullPath, items[i].fullPath)
    ensures Covered(Opened(items, index, recursive), i) <==> Covered(items, i)
  {
    var s := Opened(items, index, recursive);
    if Covered(items, i) {
      var h :| 0 <= h < |items| && Above(items[h].fullPath, items[i].fullPath) && items[h].IsCollapsed();
      assert Above(s[h].fullPath, s[i].fullPath) && s[h].IsCollapsed();
    }
    if Covered(s, i) {
      var h :| 0 <= h < |s| && Above(s[h].fullPath, s[i].fullPath) && s[h].IsCollapsed();
      assert Above(items[h].fullPath, items[i].fullPath) && items[h].IsCollapsed();
    }
  }

  // A row hidden by a collapsed directory further in keeps its flag.
  lemma WithinMeansCovered(items: seq<Item>, index: nat, i: nat, recursive: bool)
    requires index < |items| && i < |items| && CoveredWithin(Opened(items, index, recursive), index, i)
    ensures Covered(items, i)
  {
  }

  lemma CoverIgnoresFlags(items: seq<Item>, items': seq<Item>, i: nat)
    requires |items| == |items'| && i < |items|
    requires forall h | 0 <= h < |items| :: items'[h].fullPath == items[h].fullPath && items'[h].kind == items[h].kind
    ensures Covered(items, i) <==> Covered(items', i)
  {
  }

  lemma ExpandVisibleKeepsFlags(items: seq<Item>, index: nat, recursive: bool)
    requires index < |items| && Preorder(items) && FlagsRight(items)
    requires items[index].visible
    ensures FlagsRight(Expanded(items, index, recursive))
  {
    if items[index].kind.Directory? {
      var s, r := Opened(items, index, recursive), Expanded(items, index, recursive);
      forall i | 0 <= i < |items|
        ensures r[i].visible <==> !Covered(r, i)
      {
        CoverIgnoresFlags(s, r, i);
        if Above(items[index].fullPath, items[i].fullPath) {
          CoverInside(items, index, i, recursive);
          if CoveredWithin(s, index, i) {
            WithinMeansCovered(items, index, i, recursive);
          }
        } else {
          CoverOutside(items, index, i, recursive);
        }
      }
    }
  }

  // Expanding a hidden directory shows its first child although a directory above stays collapsed.
  lemma ExpandHiddenBreaksFlags(items: seq<Item>, index: nat, recursive: bool)
    requires index < |items| && Preorder(items) && DirsNotEmpty(items) && FlagsRight(items)
    requires items[index].kind.Directory? && !items[index].visible
    ensures !FlagsRight(Expanded(items, index, recursive))
  {
    var s, r, i := Opened(items, index, recursive), Expanded(items, index, recursive), index + 1;
    var h :| 0 <= h < |items| && Above(items[h].fullPath, items[index].fullPath) && items[h].IsCollapsed();
    AboveIsTransitive(items[h].fullPath, items[index].fullPath, items[i].fullPath);
    FirstChildUncovered(items, index, recursive);
    StillCollapsed(items, index, recursive, h);
    OpenedSameRows(items, index, recursive);
    assert r[h].fullPath == items[h].fullPath && r[i].fullPath == items[i].fullPath;
    assert Covered(r, i);
    assert r[i].visible;
  }

  lemma StillCollapsed(items: seq<Item>, index: nat, recursive: bool, h: nat)
    requires index < |items| && h < |items| && items[h].IsCollapsed()
    requires Above(items[h].fullPath, items[index].fullPath)
    ensures Expanded(items, index, recursive)[h].IsCollapsed()
  {
  }

  lemma FirstChildUncovered(items: seq<Item>, index: nat, recursive: bool)
    requires index + 1 < |items| && Preorder(items)
    ensures !CoveredWithin(Opened(items, index, recursive), index, index + 1)
  {
  }

  // The incremental flags stay right exactly when the expanded directory was visible.
  lemma ExpandKeepsFlagsIff(items: seq<Item>, index: nat, recursive: bool)
    requires index < |items| && Preorder(items) && DirsNotEmpty(items) && FlagsRight(items)
    ensures FlagsRight(Expanded(items, index, recursive))
            <==> (items[index].visible || items[index].kind.File?)
  {
    if items[index].visible {
      ExpandVisibleKeepsFlags(items, index, recursive);
    } else if items[index].kind.Directory? {
      ExpandHiddenBreaksFlags(items, index, recursive);
    }
  }

  // Expanding recursively opens the directory and all directories inside it, shows every row inside
  // it, and changes nothing else.
  lemma ExpandAllShowsAll(items: seq<Item>, index: nat)
    requires index < |items| && items[index].kind.Directory?
    ensures var r := Expanded(items, index, true);
            && SameRows(items, r)
            && r[index] == items[index].(kind := Directory(false))
            && forall i | 0 <= i < |items| && i != index ::
                 if items[index].fullPath < items[i].fullPath then r[i].visible && !r[i].IsCollapsed()
                 else r[i] == items[i]
  {
    OpenedSameRows(items, index, true);
  }

  // Expanding one directory opens it alone, and shows the rows inside it that no collapsed directory
  // inside it covers.
  lemma ExpandOneShowsUncovered(items: seq<Item>, index: nat)
    requires index < |items| && items[index].kind.Directory?
    ensures var r := Expanded(items, index, false);
            && SameRows(items, r)
            && forall i | 0 <= i < |items| ::
                 && r[i].IsCollapsed() == (i != index && items[i].IsCollapsed())
                 && r[i].visible
                    == (items[i].visible
                        || (items[index].fullPath < items[i].fullPath && !CoveredWithin(items, index, i)))
  {
    OpenedSameRows(items, index, false);
    forall i: nat | i < |items|
      ensures CoveredWithin(Opened(items, index, false), index, i) <==> CoveredWithin(items, index, i)
    {
      OpeningCoversSame(items, index, i);
    }
  }

  lemma OpeningCoversSame(items: seq<Item>, index: nat, i: nat)
    requires index < |items| && i < |items|
    ensures CoveredWithin(Opened(items, index, false), index, i) <==> CoveredWithin(items, index, i)
  {
    var open := Opened(items, index, false);
    forall h | 0 <= h < |items| && Above(items[index].fullPath, items[h].fullPath)
      ensures open[h] == items[h]
    {
      assert h != index;
    }
    assert open[index].fullPath == items[index].fullPath;
  }

  // ---------------------------------------------------------------------------------------------
  // Undoing

  // Collapsing a visible open directory and expanding it again restores every flag of every row,
  // also below directories that are collapsed inside it.
  lemma ExpandUndoesCollapse(items: seq<Item>, index: nat)
    requires index < |items| && Preorder(items) && FlagsRight(items)
    requires items[index].visible && !items[index].IsCollapsed()
    ensures Expanded(Collapsed(items, index), index, false) == items
  {
    if items[index].kind.Directory? {
      var c := Collapsed(items, index);
      var s, r := Opened(c, index, false), Expanded(c, index, false);
      assert forall h | 0 <= h < |items| :: s[h].kind == items[h].kind && s[h].fullPath == items[h].fullPath;
      assert Opened(items, index, false) == items;
      forall i | 0 <= i < |items|
        ensures r[i] == items[i]
      {
        if Above(items[index].fullPath, items[i].fullPath) {
          CoverInside(items, index, i, false);
          WithinIgnoresFlags(items, s, index, i);
        }
      }
    }
  }

  lemma WithinIgnoresFlags(items: seq<Item>, items': seq<Item>, index: nat, i: nat)
    requires |items| == |items'| && i < |items| && index < |items|
    requires forall h | 0 <= h < |items| :: items'[h].fullPath == items[h].fullPath && items'[h].kind == items[h].kind
    ensures CoveredWithin(items, index, i) <==> CoveredWithin(items', index, i)
  {
  }

  // The other way round: collapsing undoes expanding a collapsed directory.
  lemma CollapseUndoesExpand(items: seq<Item>, index: nat)
    requires index < |items| && FlagsRight(items) && items[index].IsCollapsed()
    ensures Collapsed(Expanded(items, index, false), index) == items
  {
    var e := Expanded(items, index, false);
    var r := Collapsed(e, index);
    forall i | 0 <= i < |items|
      ensures r[i] == items[i]
    {
      if Above(items[index].fullPath, items[i].fullPath) {
        assert Covered(items, i);
      }
    }
  }

  // ---------------------------------------------------------------------------------------------
  // The folded tree before any key press

  // A fresh tree shows every row, which is right exactly when no row starts out collapsed.
  lemma {:induction false} FreshFlagsIff(orig: TrieItems)
    ensures var items := Folded(orig, |orig|);
            FlagsRight(items) <==> forall i | 0 <= i < |items| :: !items[i].IsCollapsed()
  {
    var items := Folded(orig, |orig|);
    FoldedVisible(orig, |orig|);
    FoldedDirsNotEmpty(orig);
    if i :| 0 <= i < |items| && items[i].IsCollapsed() {
      assert Above(items[i].fullPath, items[i + 1].fullPath);
      assert Covered(items, i + 1);
    }
  }

  lemma {:induction false} FoldedVisible(orig: seq<Item>, n: nat)
    requires n <= |orig|
    ensures forall i | 0 <= i < |Folded(orig, n)| :: Folded(orig, n)[i].visible
  {
    if n > 0 {
      FoldedVisible(orig, n - 1);
    }
  }
}
