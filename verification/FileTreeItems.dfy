// The list of rows as an object whose flags change in place, and the iterator over visible rows.
module FileTreeItems {
  import opened Options
  import opened Paths
  import opened TreeItems
  import opened TreeShape
  import opened TreeFold
  import FoldPaths
  import opened Visibility

  class FileTreeItems {
    var treeItems: seq<Item>
    var files: nat

    constructor (items: seq<Item>, files: nat)
      ensures treeItems == items && this.files == files
    {
      treeItems := items;
      this.files := files;
    }

    // Whatever the paths, the only failure is one too deep for the 8-bit indent, and the files come
    // out as listed. A listing gives its folded tree.
    static method New(list: seq<Path>, collapsed: set<string>) returns (r: Result<FileTreeItems>)
      ensures r.IndentOverflow? <==> exists e <- list :: |e| > 256
      ensures r.Ok? ==> fresh(r.value) && r.value.files == |list| && Files(r.value.treeItems) == list
      ensures r.Ok? && Listing(list) ==>
                r.value.treeItems == Folded(Created(list, collapsed), |Created(list, collapsed)|)
    {
      var created := CreateItems(list, collapsed);
      if created.IndentOverflow? {
        return IndentOverflow;
      }
      CreatedKeepsFiles(list, collapsed);
      CountsOfCreated(list, collapsed, created.value.1);
      var items := FoldPaths.Fold(created.value.0, created.value.1);
      ghost var listing := Listing(list);
      if listing {
        CreatedIsTrie(list, collapsed);
      }
      var tree := new FileTreeItems(items, |list|);
      r := Ok(tree);
    }

    method Collapse(index: nat)
      requires index < |treeItems| && Preorder(treeItems)
      modifies this`treeItems
      ensures treeItems == Collapsed(old(treeItems), index)
    {
      if treeItems[index].kind.Directory? {
        ghost var before := treeItems;
        ghost var after := Collapsed(before, index);
        treeItems := treeItems[index := treeItems[index].(kind := Directory(true))];
        var path := treeItems[index].fullPath;
        assert forall k | 0 <= k <= index :: treeItems[k] == after[k] by {
          NothingInsideBefore(before, index);
        }
        for i := index + 1 to |treeItems|
          invariant |treeItems| == |before|
          invariant forall k | 0 <= k < i :: treeItems[k] == after[k]
          invariant forall k | i <= k < |before| :: treeItems[k] == before[k]
        {
          if StartsWith(treeItems[i].fullPath, path) {
            assert !StartsWith(before[index].fullPath, before[i].fullPath);
            treeItems := treeItems[i := treeItems[i].(visible := false)];
          } else {
            NothingInsideAfter(before, index, i);
            break;
          }
        }
      }
    }

    method Expand(index: nat, recursive: bool)
      requires index < |treeItems| && Preorder(treeItems)
      modifies this`treeItems
      ensures treeItems == Expanded(old(treeItems), index, recursive)
    {
      if treeItems[index].kind.Directory? {
        ghost var openRows := Opened(treeItems, index, recursive);
        PreorderOfOpened(treeItems, index, recursive);
        var fullPath := treeItems[index].fullPath;
        OpenRows(index, recursive);
        UpdatedIsShown(openRows, index);
        UpdateVisibility(Some(fullPath), index + 1, false);
      }
    }

    // The directory, and if asked for the directories in it, are collapsed no more.
    method OpenRows(index: nat, recursive: bool)
      requires index < |treeItems| && Preorder(treeItems) && treeItems[index].kind.Directory?
      modifies this`treeItems
      ensures treeItems == Opened(old(treeItems), index, recursive)
    {
      ghost var before, after := treeItems, Opened(treeItems, index, recursive);
      treeItems := treeItems[index := treeItems[index].(kind := Directory(false))];
      var fullPath := treeItems[index].fullPath;
      NothingInsideBefore(before, index);
      if recursive {
        for i := index + 1 to |treeItems|
          invariant |treeItems| == |before|
          invariant forall k | 0 <= k < i :: treeItems[k] == after[k]
          invariant forall k | i <= k < |before| :: treeItems[k] == before[k]
        {
          if !StartsWith(treeItems[i].fullPath, fullPath) {
            NothingInsideAfter(before, index, i);
            break;
          }
          assert !StartsWith(before[index].fullPath, before[i].fullPath);
          if treeItems[i].kind.Directory? && treeItems[i].kind.collapsed {
            treeItems := treeItems[i := treeItems[i].(kind := Directory(false))];
          }
        }
      }
      assert treeItems == after;
    }

    // Shows the rows from `start` on that lie under the prefix, skipping what lies in directories
    // that are still collapsed. With setDefaults the others are hidden; without it the first row
    // that is neither skipped nor under the prefix ends the pass.
    method UpdateVisibility(prefix: Option<Path>, start: nat, setDefaults: bool)
      requires Preorder(treeItems)
      modifies this`treeItems
      ensures treeItems == Updated(old(treeItems), prefix, start, setDefaults)
    {
      ghost var before, after := treeItems, Updated(treeItems, prefix, start, setDefaults);
      var innerCollapsed: Option<Path> := None;
      ghost var inner: nat := start;
      var i := start;
      while i < |treeItems|
        invariant start <= i && Between(treeItems, before, after, i)
        invariant InnerIs(before, start, i, innerCollapsed, inner)
        invariant !setDefaults ==> !AnyOutside(before, prefix, start, i)
      {
        OutsideStep(before, prefix, start, i);
        RowUpdated(before, prefix, start, setDefaults, i);
        BetweenStep(treeItems, before, after, i);
        InnerStep(before, start, i, innerCollapsed, inner);
        if innerCollapsed.Some? && StartsWith(treeItems[i].fullPath, innerCollapsed.value) {
          assert !Outside(before, prefix, start, i);
          if setDefaults {
            treeItems := treeItems[i := treeItems[i].(visible := false)];
          }
          i := i + 1;
          continue;
        }
        innerCollapsed := None;
        if treeItems[i].IsCollapsed() {
          innerCollapsed := Some(treeItems[i].fullPath);
        }
        inner := i;
        var ends := SetRow(i, prefix, setDefaults);
        if ends {
          NothingUpdatedAfter(before, prefix, start, i);
          return;
        }
        i := i + 1;
      }
    }

    // A row that is not skipped.
    method SetRow(i: nat, prefix: Option<Path>, setDefaults: bool) returns (ends: bool)
      requires i < |treeItems|
      modifies this`treeItems
      ensures var x := old(treeItems)[i];
              var under := prefix.None? || StartsWith(x.fullPath, prefix.value);
              && ends == (!under && !setDefaults)
              && treeItems == if ends then old(treeItems) else old(treeItems)[i := x.(visible := under)]
    {
      ends := false;
      if prefix.None? || StartsWith(treeItems[i].fullPath, prefix.value) {
        treeItems := treeItems[i := treeItems[i].(visible := true)];
      } else if setDefaults {
        treeItems := treeItems[i := treeItems[i].(visible := false)];
      } else {
        ends := true;
      }
    }
  }

  // The rows before row i are as they will be, the others as they were.
  ghost predicate Between(rows: seq<Item>, before: seq<Item>, after: seq<Item>, i: nat)
  {
    && |rows| == |before| == |after|
    && (forall k | 0 <= k < i && k < |rows| :: rows[k] == after[k])
    && (forall k | i <= k < |rows| :: rows[k] == before[k])
  }

  lemma BetweenStep(rows: seq<Item>, before: seq<Item>, after: seq<Item>, i: nat)
    requires Between(rows, before, after, i) && i < |rows|
    ensures Between(rows[i := after[i]], before, after, i + 1)
    ensures after[i] == before[i] ==> rows[i := after[i]] == rows
  {
  }

  // ---------------------------------------------------------------------------------------------
  // The table of counts agrees with the rows it was built with

  lemma {:induction false} CountsOfCreated(list: seq<Path>, collapsed: set<string>, counts: map<Path, nat>)
    requires Counted(DirsOf(list), counts, Created(list, collapsed))
    ensures FoldPaths.CountsKids(counts, Created(list, collapsed))
  {
    var items := Created(list, collapsed);
    CreatedMembers(list, collapsed);
    forall i | 0 <= i < |items| && items[i].kind.Directory?
      ensures items[i].fullPath in counts && counts[items[i].fullPath] == Kids(items, items[i].fullPath)
    {
      assert items[i] in items;
      assert DirsOf(list)(items[i].fullPath);
    }
  }

  // ---------------------------------------------------------------------------------------------
  // Blocks

  lemma NothingInsideBefore(items: seq<Item>, index: nat)
    requires index < |items| && Preorder(items)
    ensures forall k | 0 <= k <= index :: !Above(items[index].fullPath, items[k].fullPath)
  {
  }

  // The first row that is not inside ends the block.
  lemma NothingInsideAfter(items: seq<Item>, index: nat, i: nat)
    requires index < i < |items| && Preorder(items)
    requires !StartsWith(items[i].fullPath, items[index].fullPath)
    ensures forall k | i <= k < |items| :: !Above(items[index].fullPath, items[k].fullPath)
  {
  }

  lemma PreorderOfOpened(items: seq<Item>, index: nat, recursive: bool)
    requires index < |items| && Preorder(items)
    ensures Preorder(Opened(items, index, recursive))
  {
  }

  // ---------------------------------------------------------------------------------------------
  // The remembered collapsed directory

  // Every collapsed directory seen so far that a row from i on could lie in is, or lies in, the
  // remembered one, which is row `inner`.
  ghost predicate InnerIs(items: seq<Item>, start: nat, i: nat, innerCollapsed: Option<Path>, inner: nat)
  {
    && (innerCollapsed.Some? ==>
          && start <= inner < i && inner < |items|
          && innerCollapsed.value == items[inner].fullPath && items[inner].IsCollapsed())
    && (forall a, k | start <= a < i && i <= k < |items| && items[a].IsCollapsed()
                      && StartsWith(items[k].fullPath, items[a].fullPath) ::
          innerCollapsed.Some? && StartsWith(items[k].fullPath, innerCollapsed.value))
  }

  lemma SkippedIsInner(items: seq<Item>, start: nat, i: nat, innerCollapsed: Option<Path>, inner: nat)
    requires start <= i < |items| && InnerIs(items, start, i, innerCollapsed, inner)
    ensures Skipped(items, start, i)
       <==> innerCollapsed.Some? && StartsWith(items[i].fullPath, innerCollapsed.value)
  {
  }

  lemma InnerStays(items: seq<Item>, start: nat, i: nat, innerCollapsed: Option<Path>, inner: nat)
    requires start <= i < |items| && Preorder(items) && InnerIs(items, start, i, innerCollapsed, inner)
    requires innerCollapsed.Some? && StartsWith(items[i].fullPath, innerCollapsed.value)
    ensures InnerIs(items, start, i + 1, innerCollapsed, inner)
  {
  }

  lemma InnerRenewed(items: seq<Item>, start: nat, i: nat, innerCollapsed: Option<Path>, inner: nat)
    requires start <= i < |items| && Preorder(items) && InnerIs(items, start, i, innerCollapsed, inner)
    requires innerCollapsed.Some? ==> !StartsWith(items[i].fullPath, innerCollapsed.value)
    ensures InnerIs(items, start, i + 1, if items[i].IsCollapsed() then Some(items[i].fullPath) else None, i)
  {
    forall a, k | start <= a < i && i + 1 <= k < |items| && items[a].IsCollapsed()
      ensures !StartsWith(items[k].fullPath, items[a].fullPath)
    {
      if innerCollapsed.Some? {
        var inside := StartsWith(items[k].fullPath, items[inner].fullPath);
      }
    }
  }

  // Row i is skipped exactly when it lies in the remembered directory, and that stays remembered
  // exactly then.
  lemma InnerStep(items: seq<Item>, start: nat, i: nat, innerCollapsed: Option<Path>, inner: nat)
    requires start <= i < |items| && Preorder(items) && InnerIs(items, start, i, innerCollapsed, inner)
    ensures var skip := innerCollapsed.Some? && StartsWith(items[i].fullPath, innerCollapsed.value);
            && (Skipped(items, start, i) <==> skip)
            && if skip then InnerIs(items, start, i + 1, innerCollapsed, inner)
               else InnerIs(items, start, i + 1, if items[i].IsCollapsed() then Some(items[i].fullPath) else None, i)
  {
    SkippedIsInner(items, start, i, innerCollapsed, inner);
    if innerCollapsed.Some? && StartsWith(items[i].fullPath, innerCollapsed.value) {
      InnerStays(items, start, i, innerCollapsed, inner);
    } else {
      InnerRenewed(items, start, i, innerCollapsed, inner);
    }
  }

  lemma OutsideStep(items: seq<Item>, prefix: Option<Path>, start: nat, i: nat)
    requires start <= i < |items|
    ensures AnyOutside(items, prefix, start, i + 1)
       <==> AnyOutside(items, prefix, start, i) || Outside(items, prefix, start, i)
  {
  }

  lemma RowUpdated(items: seq<Item>, prefix: Option<Path>, start: nat, setDefaults: bool, i: nat)
    requires start <= i < |items| && (!setDefaults ==> !AnyOutside(items, prefix, start, i))
    ensures var u, shown := Updated(items, prefix, start, setDefaults)[i],
                            prefix.None? || StartsWith(items[i].fullPath, prefix.value);
            if Skipped(items, start, i) then u == if setDefaults then items[i].(visible := false) else items[i]
            else if shown then u == items[i].(visible := true)
            else setDefaults ==> u == items[i].(visible := false)
  {
    OutsideStep(items, prefix, start, i);
  }

  lemma NothingUpdatedAfter(items: seq<Item>, prefix: Option<Path>, start: nat, i: nat)
    requires start <= i < |items| && Outside(items, prefix, start, i)
    ensures forall k | i <= k < |items| :: Updated(items, prefix, start, false)[k] == items[k]
  {
    forall k | i <= k < |items|
      ensures Updated(items, prefix, start, false)[k] == items[k]
    {
      assert AnyOutside(items, prefix, start, k + 1);
    }
  }
}
