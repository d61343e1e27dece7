// Moving the selection with the keyboard.
//
// Step says what one key press does to the tree; the methods of FileTree are proved to do it, and
// the lemmas follow the invariant over whole runs.
module Navigation {
  import opened Options
  import opened Paths
  import opened TreeItems
  import opened TreeShape
  import opened TreeFold
  import opened FoldedTree
  import opened Visibility
  import opened VisibleRows
  import Rows = FileTreeItems

  datatype Move = Up | Down | Left | Right | Top | End | PageDown | PageUp

  // The tree, the selected row (if any) and its cached position among the visible rows.
  datatype Nav = Nav(items: seq<Item>, selection: Option<nat>, visual: Option<VisualSelection>)

  // ---------------------------------------------------------------------------------------------
  // Where each key leads

  // The nearest visible row before row c, or row 0.
  function UpTarget(items: seq<Item>, c: nat): (r: nat)
    requires c < |items|
    ensures r <= c && (c > 0 ==> r < c)
  {
    if c == 0 then 0 else if c == 1 || items[c - 1].visible then c - 1 else UpTarget(items, c - 1)
  }

  // The nearest visible row after row c, or the last row.
  function DownTarget(items: seq<Item>, c: nat): (r: nat)
    requires c < |items|
    ensures c <= r < |items| && (c + 1 < |items| ==> c < r)
    decreases |items| - c
  {
    if c + 1 >= |items| then c else if items[c + 1].visible then c + 1 else DownTarget(items, c + 1)
  }

  // The last visible row among the first i + 1, or row 0.
  function LastVisible(items: seq<Item>, i: nat): (r: nat)
    requires i < |items|
    ensures r <= i
  {
    if i == 0 || items[i].visible then i else LastVisible(items, i - 1)
  }

  // Going up from row c until a row is less indented than `indent`, or to row 0.
  function ParentTarget(items: seq<Item>, c: nat, indent: nat): (r: nat)
    requires c < |items|
    ensures r <= c
  {
    if c == 0 then 0 else
      var u := UpTarget(items, c);
      if items[u].indent < indent then u else ParentTarget(items, u, indent)
  }

  // The rows after the key, and the row it leads to (None if the key does nothing).
  ghost function Target(items: seq<Item>, c: nat, move: Move): (r: (seq<Item>, Option<nat>))
    requires c < |items|
    ensures |r.0| == |items| && (r.1.Some? ==> r.1.value < |items|)
  {
    match move
    case Up => (items, if c == 0 then None else Some(UpTarget(items, c)))
    case Down => (items, if c + 1 == |items| then None else Some(DownTarget(items, c)))
    case Top => (items, if c == 0 then None else Some(0))
    case End =>
      var e := LastVisible(items, |items| - 1);
      (items, if e == c then None else Some(e))
    case Left =>
      if items[c].kind.Directory? && !items[c].kind.collapsed
      then (Collapsed(items, c), Some(c))
      else (items, if c == 0 then None else Some(ParentTarget(items, c, items[c].indent)))
    case Right =>
      if items[c].kind.File? then (items, None)
      else if items[c].kind.collapsed then (Expanded(items, c, false), Some(c))
      else (items, if c + 1 == |items| then None else Some(DownTarget(items, c)))
    case PageDown => (items, None)
    case PageUp => (items, None)
  }

  // One key press. The cache is refreshed only when the selected row changes.
  ghost function Step(s: Nav, move: Move): (s': Nav)
    requires s.selection.Some? ==> s.selection.value < |s.items|
    ensures s'.selection.Some? ==> s'.selection.value < |s'.items|
    ensures s.selection.Some? ==> s'.selection.Some?
  {
    if s.selection.None? then s else
      var (items, target) := Target(s.items, s.selection.value, move);
      if target.Some? && target.value != s.selection.value
      then Nav(items, target, Visual(items, target))
      else Nav(items, s.selection, s.visual)
  }

  // ---------------------------------------------------------------------------------------------
  // The code

  class FileTree {
    const items: Rows.FileTreeItems
    var selection: Option<nat>
    var visualSelection: Option<VisualSelection>

    ghost function State(): Nav
      reads this, items
    {
      Nav(items.treeItems, selection, visualSelection)
    }

    // The selection is a row, and the rows are a tree.
    ghost predicate Valid()
      reads this, items
    {
      Preorder(items.treeItems) && (selection.Some? ==> selection.value < |items.treeItems|)
    }

    constructor FromItems(items: Rows.FileTreeItems, empty: bool)
      requires empty || items.treeItems != []
      ensures this.items == items && State() == Fresh(items.treeItems, empty)
    {
      this.items := items;
      selection := if empty then None else Some(0);
      visualSelection := None;
      new;
      visualSelection := CalcVisualSelection(items.treeItems, selection);
    }

    static method New(list: seq<Path>, collapsed: set<string>) returns (r: Result<FileTree>)
      ensures r.IndentOverflow? <==> exists e <- list :: |e| > 256
      ensures r.Ok? ==>
                && fresh(r.value) && fresh(r.value.items) && Files(r.value.items.treeItems) == list
                && (list != [] ==> r.value.items.treeItems != [])
                && r.value.State() == Fresh(r.value.items.treeItems, list == [])
      ensures r.Ok? && Listing(list) ==>
                && r.value.Valid()
                && r.value.items.treeItems == Folded(Created(list, collapsed), |Created(list, collapsed)|)
    {
      var items := Rows.FileTreeItems.New(list, collapsed);
      if items.IndentOverflow? {
        return IndentOverflow;
      }
      var tree := new FileTree.FromItems(items.value, list == []);
      ghost var listing := Listing(list);
      if listing {
        CreatedIsTrie(list, collapsed);
        FoldedPreorder(Created(list, collapsed));
      }
      r := Ok(tree);
    }

    method MoveSelection(move: Move) returns (moved: bool)
      requires Valid()
      modifies this, items`treeItems
      ensures Valid() && State() == Step(old(State()), move)
      ensures moved <==> State() != old(State())
    {
      if selection.None? {
        return false;
      }
      var current := selection.value;
      TargetIsPreorder(items.treeItems, current, move);
      var newIndex := NewIndex(current, move);
      var changedIndex := newIndex.Some? && newIndex.value != current;
      if changedIndex {
        selection := newIndex;
        visualSelection := CalcVisualSelection(items.treeItems, selection);
      }
      moved := changedIndex || newIndex.Some?;
      TargetChanges(old(items.treeItems), current, move);
    }

    method NewIndex(current: nat, move: Move) returns (r: Option<nat>)
      requires current < |items.treeItems| && Preorder(items.treeItems)
      modifies items`treeItems
      ensures (items.treeItems, r) == Target(old(items.treeItems), current, move)
    {
      match move {
        case Up => r := SelectionUpDown(current, true);
        case Down => r := SelectionUpDown(current, false);
        case Left => r := SelectionLeft(current);
        case Right => r := SelectionRight(current);
        case Top => r := if current == 0 then None else Some(0);
        case End => r := SelectionEnd(current);
        case PageDown => r := None;
        case PageUp => r := None;
      }
    }

    method SelectionUpDown(current: nat, up: bool) returns (r: Option<nat>)
      requires current < |items.treeItems|
      ensures r == var rows := items.treeItems;
                   if up then (if current == 0 then None else Some(UpTarget(rows, current)))
                   else (if current + 1 == |rows| then None else Some(DownTarget(rows, current)))
    {
      var index: nat := current;
      ghost var rows := items.treeItems;
      ghost var goal := if up then UpTarget(rows, current) else DownTarget(rows, current);
      while true
        invariant index < |rows|
        invariant if up then index <= current && UpTarget(rows, index) == goal
                  else index >= current && DownTarget(rows, index) == goal
        decreases if up then index else |rows| - index
      {
        var newIndex := if up then (if index > 0 then index - 1 else 0) else index + 1;
        if newIndex == index {
          break;
        }
        if newIndex >= |items.treeItems| {
          break;
        }
        index := newIndex;
        if items.treeItems[index].visible {
          break;
        }
      }
      r := if index == current then None else Some(index);
    }

    method SelectionEnd(current: nat) returns (r: Option<nat>)
      requires current < |items.treeItems|
      ensures r == var e := LastVisible(items.treeItems, |items.treeItems| - 1);
                   if e == current then None else Some(e)
    {
      var itemsMax := |items.treeItems| - 1;
      var newIndex: nat := itemsMax;
      while true
        invariant newIndex <= itemsMax
        invariant LastVisible(items.treeItems, newIndex) == LastVisible(items.treeItems, itemsMax)
        decreases newIndex
      {
        if items.treeItems[newIndex].visible {
          break;
        }
        if newIndex == 0 {
          break;
        }
        newIndex := newIndex - 1;
      }
      r := if newIndex == current then None else Some(newIndex);
    }

    method SelectParent(current: nat) returns (r: Option<nat>)
      requires current < |items.treeItems|
      ensures r == if current == 0 then None
                   else Some(ParentTarget(items.treeItems, current, items.treeItems[current].indent))
    {
      var indent := items.treeItems[current].indent;
      var index: nat := current;
      ghost var rows := items.treeItems;
      while true
        invariant index <= current
        invariant ParentTarget(rows, index, indent) == ParentTarget(rows, current, indent)
        decreases index
      {
        var selected := SelectionUpDown(index, true);
        if selected.None? {
          break;
        }
        index := selected.value;
        if items.treeItems[index].indent < indent {
          break;
        }
      }
      r := if index == current then None else Some(index);
    }

    method SelectionLeft(current: nat) returns (r: Option<nat>)
      requires current < |items.treeItems| && Preorder(items.treeItems)
      modifies items`treeItems
      ensures (items.treeItems, r) == Target(old(items.treeItems), current, Left)
    {
      var item := items.treeItems[current];
      if item.kind.Directory? && !item.kind.collapsed {
        items.Collapse(current);
        return Some(current);
      }
      r := SelectParent(current);
    }

    method SelectionRight(current: nat) returns (r: Option<nat>)
      requires current < |items.treeItems| && Preorder(items.treeItems)
      modifies items`treeItems
      ensures (items.treeItems, r) == Target(old(items.treeItems), current, Right)
    {
      var item := items.treeItems[current];
      if item.kind.Directory? {
        if item.kind.collapsed {
          items.Expand(current, false);
          return Some(current);
        }
        r := SelectionUpDown(current, false);
        return;
      }
      r := None;
    }
  }

  lemma SamePathsPreorder(items: seq<Item>, items': seq<Item>)
    requires Preorder(items) && |items'| == |items|
    requires forall i | 0 <= i < |items| :: items'[i].fullPath == items[i].fullPath
    ensures Preorder(items')
  {
    forall i, j | 0 <= i < |items'| && 0 <= j < |items'| && StartsWith(items'[j].fullPath, items'[i].fullPath)
      ensures i <= j
    {
      assert StartsWith(items[j].fullPath, items[i].fullPath);
    }
    forall i, j, k | 0 <= i <= j <= k < |items'| && StartsWith(items'[k].fullPath, items'[i].fullPath)
      ensures StartsWith(items'[j].fullPath, items'[i].fullPath)
    {
      assert StartsWith(items[k].fullPath, items[i].fullPath);
      assert StartsWith(items[j].fullPath, items[i].fullPath);
    }
  }

  // No key moves a row.
  lemma TargetIsPreorder(items: seq<Item>, c: nat, move: Move)
    requires c < |items| && Preorder(items)
    ensures Preorder(Target(items, c, move).0)
  {
    SamePathsPreorder(items, Collapsed(items, c));
    SamePathsPreorder(items, Expanded(items, c, false));
  }

  // A key leads somewhere exactly when it leads to another row or changes the flags.
  lemma TargetChanges(items: seq<Item>, c: nat, move: Move)
    requires c < |items|
    ensures var t := Target(items, c, move);
            t.1.Some? <==> t.0 != items || (t.1.Some? && t.1.value != c)
  {
    if move == Left && items[c].kind.Directory? && !items[c].kind.collapsed {
      assert Collapsed(items, c)[c].kind != items[c].kind;
    } else if move == Right && items[c].kind.Directory? && items[c].kind.collapsed {
      assert Expanded(items, c, false)[c].kind != items[c].kind;
    }
  }

  ghost function Fresh(items: seq<Item>, empty: bool): Nav
    requires empty || items != []
  {
    var selection := if empty then None else Some(0);
    Nav(items, selection, Visual(items, selection))
  }

  lemma {:induction false} FoldedNotEmpty(list: seq<Path>, collapsed: set<string>)
    requires list != []
    ensures Folded(Created(list, collapsed), |Created(list, collapsed)|) != []
  {
  }

  // ---------------------------------------------------------------------------------------------
  // Whole runs

  // The flags mean what they should, the selection is visible, and its cached position is right.
  ghost predicate Safe(s: Nav)
  {
    && Shape(s.items)
    && FlagsRight(s.items)
    && s.selection.Some? && s.selection.value < |s.items|
    && s.items[s.selection.value].visible
    && s.visual.Some? && s.visual.value.index == Rank(s.items, s.selection.value)
  }

  lemma FirstRowVisible(items: seq<Item>)
    requires items != [] && Preorder(items) && FlagsRight(items)
    ensures items[0].visible
  {
  }

  lemma {:induction false} UpTargetVisible(items: seq<Item>, c: nat)
    requires c < |items| && items[0].visible
    ensures c > 0 ==> items[UpTarget(items, c)].visible
    ensures forall i | UpTarget(items, c) < i < c :: !items[i].visible
  {
    if c > 1 && !items[c - 1].visible {
      UpTargetVisible(items, c - 1);
    }
  }

  lemma {:induction false} DownTargetVisible(items: seq<Item>, c: nat)
    requires c + 1 < |items|
    ensures items[DownTarget(items, c)].visible <==> exists i | c < i < |items| :: items[i].visible
    ensures forall i | c < i < DownTarget(items, c) :: !items[i].visible
    decreases |items| - c
  {
    if c + 2 < |items| && !items[c + 1].visible {
      DownTargetVisible(items, c + 1);
    }
  }

  lemma {:induction false} LastVisibleVisible(items: seq<Item>, i: nat)
    requires i < |items| && items[0].visible
    ensures items[LastVisible(items, i)].visible
    ensures forall j | LastVisible(items, i) < j <= i :: !items[j].visible
  {
    if i > 0 && !items[i].visible {
      LastVisibleVisible(items, i - 1);
    }
  }

  lemma {:induction false} ParentTargetVisible(items: seq<Item>, c: nat, indent: nat)
    requires c < |items| && items[0].visible
    ensures items[ParentTarget(items, c, indent)].visible
  {
    if c > 0 {
      UpTargetVisible(items, c);
      ParentTargetVisible(items, UpTarget(items, c), indent);
    }
  }

  // Rows before the collapsed or expanded one keep their flags, so the cached position stays right.
  lemma {:induction false} RankUnchanged(items: seq<Item>, items': seq<Item>, n: nat)
    requires n <= |items| && n <= |items'|
    requires forall i | 0 <= i < n :: items[i].visible == items'[i].visible
    ensures Rank(items, n) == Rank(items', n)
  {
    if n > 0 {
      RankUnchanged(items, items', n - 1);
    }
  }

  lemma FirstChildVisible(items: seq<Item>, c: nat)
    requires c < |items| && Shape(items) && FlagsRight(items)
    requires items[c].kind.Directory? && !items[c].kind.collapsed && items[c].visible
    ensures c + 1 < |items| && items[c + 1].visible
  {
    assert Above(items[c].fullPath, items[c + 1].fullPath);
    forall h | 0 <= h < |items| && Above(items[h].fullPath, items[c + 1].fullPath)
      ensures !items[h].IsCollapsed()
    {
      AboveFirstChild(items, c, h);
    }
  }

  lemma AboveFirstChild(items: seq<Item>, c: nat, h: nat)
    requires Preorder(items) && c + 1 < |items| && h < |items|
    requires Above(items[c].fullPath, items[c + 1].fullPath)
    requires Above(items[h].fullPath, items[c + 1].fullPath)
    ensures h == c || Above(items[h].fullPath, items[c].fullPath)
  {
  }

  // A key that leaves the rows alone and leads to a visible row keeps everything right; one that
  // leads to a hidden row does not.
  lemma MovedSafeIff(s: Nav, t: nat)
    requires Safe(s) && t < |s.items|
    ensures Safe(Nav(s.items, Some(t), Visual(s.items, Some(t)))) <==> s.items[t].visible
  {
  }

  lemma CollapseKeepsAbove(items: seq<Item>, c: nat)
    requires c < |items| && Preorder(items)
    ensures forall k | 0 <= k <= c :: Collapsed(items, c)[k].visible == items[k].visible
  {
  }

  lemma CollapseSafe(s: Nav)
    requires Safe(s) && s.items[s.selection.value].kind.Directory?
    ensures Safe(Nav(Collapsed(s.items, s.selection.value), s.selection, s.visual))
  {
    var c := s.selection.value;
    CollapseKeepsFlags(s.items, c);
    SameRowsSameShape(s.items, Collapsed(s.items, c));
    CollapseKeepsAbove(s.items, c);
    RankUnchanged(s.items, Collapsed(s.items, c), c);
  }

  lemma ExpandKeepsAbove(items: seq<Item>, c: nat)
    requires c < |items| && Preorder(items)
    ensures forall k | 0 <= k <= c :: Expanded(items, c, false)[k].visible == items[k].visible
  {
    Rows.NothingInsideBefore(items, c);
  }

  lemma ExpandSafe(s: Nav)
    requires Safe(s) && s.items[s.selection.value].kind.Directory?
    ensures Safe(Nav(Expanded(s.items, s.selection.value, false), s.selection, s.visual))
  {
    var c := s.selection.value;
    ExpandVisibleKeepsFlags(s.items, c, false);
    OpenedSameRows(s.items, c, false);
    SameRowsSameShape(s.items, Expanded(s.items, c, false));
    ExpandKeepsAbove(s.items, c);
    RankUnchanged(s.items, Expanded(s.items, c, false), c);
  }

  // The keys that change flags: Left on an open directory, Right on a collapsed one.
  predicate Flips(x: Item, move: Move)
  {
    x.kind.Directory? && (if x.kind.collapsed then move == Right else move == Left)
  }

  // Down is pressed although rows follow and none of them is visible.
  ghost predicate PastTheEnd(items: seq<Item>, c: nat, move: Move)
  {
    && move == Down && c + 1 < |items|
    && forall i | c < i < |items| :: !items[i].visible
  }

  lemma FlipTarget(items: seq<Item>, c: nat, move: Move)
    requires c < |items| && Flips(items[c], move)
    ensures Target(items, c, move)
         == (if items[c].kind.collapsed then Expanded(items, c, false) else Collapsed(items, c), Some(c))
  {
  }

  // Any other key leads to a visible row, or nowhere, unless it runs past the last visible row.
  lemma QuietTarget(items: seq<Item>, c: nat, move: Move)
    requires c < |items| && Shape(items) && FlagsRight(items) && items[c].visible && items[0].visible
    requires !Flips(items[c], move)
    ensures Target(items, c, move).0 == items
    ensures Target(items, c, move).1.None? || items[Target(items, c, move).1.value].visible
            <==> !PastTheEnd(items, c, move)
  {
    if move == Right {
      QuietRight(items, c);
    } else if move == Left {
      QuietLeft(items, c);
    } else {
      QuietOther(items, c, move);
    }
  }

  lemma QuietRight(items: seq<Item>, c: nat)
    requires c < |items| && Shape(items) && FlagsRight(items) && items[c].visible && !Flips(items[c], Right)
    ensures var t := Target(items, c, Right); t.0 == items && (t.1.None? || items[t.1.value].visible)
  {
    if items[c].kind.Directory? {
      FirstChildVisible(items, c);
      RightInto(items, c);
    } else {
      RightOnFile(items, c);
    }
  }

  lemma RightInto(items: seq<Item>, c: nat)
    requires c + 1 < |items| && items[c].kind.Directory? && !items[c].kind.collapsed && items[c + 1].visible
    ensures Target(items, c, Right).0 == items && Target(items, c, Right).1 == Some(c + 1)
  {
  }

  lemma RightOnFile(items: seq<Item>, c: nat)
    requires c < |items| && items[c].kind.File?
    ensures Target(items, c, Right).0 == items && Target(items, c, Right).1 == None
  {
  }

  lemma QuietLeft(items: seq<Item>, c: nat)
    requires c < |items| && items[0].visible && !Flips(items[c], Left)
    ensures var t := Target(items, c, Left); t.0 == items && (t.1.None? || items[t.1.value].visible)
  {
    ParentTargetVisible(items, c, items[c].indent);
  }

  lemma QuietOther(items: seq<Item>, c: nat, move: Move)
    requires c < |items| && items[0].visible && move != Left && move != Right
    ensures var t := Target(items, c, move);
            t.0 == items && (t.1.None? || items[t.1.value].visible <==> !PastTheEnd(items, c, move))
  {
    UpTargetVisible(items, c);
    LastVisibleVisible(items, |items| - 1);
    if c + 1 < |items| {
      DownTargetVisible(items, c);
    }
  }

  lemma QuietStep(s: Nav, move: Move)
    requires Safe(s) && Target(s.items, s.selection.value, move).0 == s.items
    ensures var target := Target(s.items, s.selection.value, move).1;
            Safe(Step(s, move)) <==> (target.None? || s.items[target.value].visible)
  {
    var target := Target(s.items, s.selection.value, move).1;
    if target.Some? && target != s.selection {
      MovedSafeIff(s, target.value);
      assert Step(s, move) == Nav(s.items, target, Visual(s.items, target));
    } else {
      assert Step(s, move) == s;
    }
  }

  // Every key keeps the tree safe, except Down exactly when it runs past the last visible row: it
  // then selects the last row although that row is hidden.
  lemma StepSafeIff(s: Nav, move: Move)
    requires Safe(s)
    ensures Safe(Step(s, move)) <==> !PastTheEnd(s.items, s.selection.value, move)
  {
    var c := s.selection.value;
    FirstRowVisible(s.items);
    if Flips(s.items[c], move) {
      FlipTarget(s.items, c, move);
      if s.items[c].kind.collapsed {
        ExpandSafe(s);
      } else {
        CollapseSafe(s);
      }
    } else {
      QuietTarget(s.items, c, move);
      QuietStep(s, move);
    }
  }

  // The tree of a listing before any key press, with nothing collapsed.
  ghost function FreshTree(list: seq<Path>): (s: Nav)
    requires list != []
    ensures s.selection == Some(0) && s.items != []
  {
    FoldedNotEmpty(list, {});
    Fresh(Folded(Created(list, {}), |Created(list, {})|), false)
  }

  // It starts out safe.
  lemma FreshIsSafe(list: seq<Path>)
    requires Listing(list) && list != []
    ensures Safe(FreshTree(list))
  {
    CreatedIsTrie(list, {});
    var orig: TrieItems := Created(list, {});
    FoldedNotEmpty(list, {});
    FoldedShape(orig);
    FreshFlagsIff(orig);
    NoneCollapsedYet(list);
    NoneCollapsed(orig, |orig|);
    FoldedVisible(orig, |orig|);
  }

  lemma {:induction false} NoneCollapsedYet(list: seq<Path>)
    ensures forall i | 0 <= i < |Created(list, {})| :: !Created(list, {})[i].IsCollapsed()
  {
    var orig := Created(list, {});
    CreatedMembers(list, {});
    forall i | 0 <= i < |orig|
      ensures !orig[i].IsCollapsed()
    {
      assert orig[i] in orig;
    }
  }

  lemma {:induction false} NoneCollapsed(orig: seq<Item>, n: nat)
    requires n <= |orig| && forall i | 0 <= i < |orig| :: !orig[i].IsCollapsed()
    ensures forall i | 0 <= i < |Folded(orig, n)| :: !Folded(orig, n)[i].IsCollapsed()
  {
    if n > 0 {
      NoneCollapsed(orig, n - 1);
      assert FoldedItem(orig, n - 1).kind == orig[Head(orig, n - 1)].kind;
    }
  }

  ghost predicate Overruns(s: Nav, move: Move)
    requires s.selection.Some?
  {
    PastTheEnd(s.items, s.selection.value, move)
  }

  ghost function Run(s: Nav, moves: seq<Move>): (s': Nav)
    requires s.selection.Some? ==> s.selection.value < |s.items|
    ensures s'.selection.Some? ==> s'.selection.value < |s'.items|
    ensures s.selection.Some? ==> s'.selection.Some?
  {
    if moves == [] then s else Step(Run(s, moves[..|moves| - 1]), moves[|moves| - 1])
  }

  // No Down of the run was pressed past the last visible row.
  ghost predicate NeverOverruns(s: Nav, moves: seq<Move>)
    requires s.selection.Some? && s.selection.value < |s.items|
  {
    forall n | 0 <= n < |moves| :: !Overruns(Run(s, moves[..n]), moves[n])
  }

  lemma PrefixNeverOverruns(s: Nav, moves: seq<Move>, n: nat)
    requires s.selection.Some? && s.selection.value < |s.items|
    requires NeverOverruns(s, moves) && n <= |moves|
    ensures NeverOverruns(s, moves[..n])
  {
    forall k | 0 <= k < n
      ensures !Overruns(Run(s, moves[..n][..k]), moves[..n][k])
    {
      assert moves[..n][..k] == moves[..k];
    }
  }

  lemma {:induction false} SafeRunsStaySafe(s: Nav, moves: seq<Move>)
    requires Safe(s) && NeverOverruns(s, moves)
    ensures Safe(Run(s, moves))
  {
    if moves != [] {
      var n := |moves| - 1;
      PrefixNeverOverruns(s, moves, n);
      SafeRunsStaySafe(s, moves[..n]);
      assert !Overruns(Run(s, moves[..n]), moves[n]);
      StepSafeIff(Run(s, moves[..n]), moves[n]);
    }
  }

  // The first Down that overruns leaves the tree wrong, so nothing weaker keeps whole runs right.
  lemma RunsAreSafeIff(list: seq<Path>, moves: seq<Move>)
    requires Listing(list) && list != []
    ensures NeverOverruns(FreshTree(list), moves)
       <==> forall n | 0 <= n <= |moves| :: Safe(Run(FreshTree(list), moves[..n]))
  {
    var s := FreshTree(list);
    FreshIsSafe(list);
    if NeverOverruns(s, moves) {
      forall n | 0 <= n <= |moves|
        ensures Safe(Run(s, moves[..n]))
      {
        PrefixNeverOverruns(s, moves, n);
        SafeRunsStaySafe(s, moves[..n]);
      }
    } else {
      var n :| 0 <= n < |moves| && Overruns(Run(s, moves[..n]), moves[n]);
      if Safe(Run(s, moves[..n])) {
        OverrunIsUnsafe(s, moves, n);
      }
    }
  }

  lemma {:induction false} OverrunIsUnsafe(s: Nav, moves: seq<Move>, n: nat)
    requires n < |moves| && s.selection.Some? && s.selection.value < |s.items|
    requires Safe(Run(s, moves[..n])) && Overruns(Run(s, moves[..n]), moves[n])
    ensures !Safe(Run(s, moves[..n + 1]))
  {
    var all := moves[..n + 1];
    assert all[..|all| - 1] == moves[..n] && all[|all| - 1] == moves[n];
    StepSafeIff(Run(s, moves[..n]), moves[n]);
  }

  // ---------------------------------------------------------------------------------------------
  // Left on a file or a collapsed directory

  // The rows between an ancestor and an item inside it are at least as deep as its children.
  lemma {:induction false} DepthInside(items: seq<Item>, n: nat, d: Path, p: Path)
    requires n <= |items| && Above(d, p)
    ensures Depth(items, n, p) >= Depth(items, n, d)
  {
    if n > 0 {
      DepthInside(items, n - 1, d, p);
      var a := items[n - 1].fullPath;
      assert Above(a, d) ==> Above(a, p);
    }
  }

  lemma {:induction false} DepthGrows(items: seq<Item>, m: nat, n: nat, p: Path)
    requires m <= n <= |items|
    ensures Depth(items, n, p) >= Depth(items, m, p)
    decreases n
  {
    if m < n {
      DepthGrows(items, m, n - 1, p);
    }
  }

  // A row strictly inside another is indented more.
  lemma InsideIsDeeper(items: seq<Item>, h: nat, i: nat)
    requires Shape(items) && h < |items| && i < |items| && Above(items[h].fullPath, items[i].fullPath)
    ensures h < i && items[h].indent < items[i].indent
  {
    assert StartsWith(items[i].fullPath, items[h].fullPath);
    DepthInside(items, h, items[h].fullPath, items[i].fullPath);
    DepthGrows(items, h + 1, i, items[i].fullPath);
  }

  // The last of the rows above a row: its parent directory.
  ghost predicate IsParentRow(items: seq<Item>, h: nat, c: nat)
    requires h < |items| && c < |items|
  {
    && Above(items[h].fullPath, items[c].fullPath)
    && forall k | h < k < |items| :: !Above(items[k].fullPath, items[c].fullPath)
  }

  lemma FindParentRow(items: seq<Item>, c: nat, n: nat) returns (h: nat)
    requires c < |items| && n <= |items| && Depth(items, n, items[c].fullPath) > 0
    ensures h < n && Above(items[h].fullPath, items[c].fullPath)
    ensures forall k | h < k < n :: !Above(items[k].fullPath, items[c].fullPath)
    ensures Depth(items, n, items[c].fullPath) == Depth(items, h, items[c].fullPath) + 1
  {
    if Above(items[n - 1].fullPath, items[c].fullPath) {
      h := n - 1;
    } else {
      h := FindParentRow(items, c, n - 1);
    }
  }

  lemma {:induction false} SameDepthAsParent(items: seq<Item>, n: nat, d: Path, p: Path)
    requires n <= |items| && Above(d, p)
    requires forall k | 0 <= k < n && Above(items[k].fullPath, p) :: Above(items[k].fullPath, d)
    ensures Depth(items, n, p) == Depth(items, n, d)
  {
    if n > 0 {
      SameDepthAsParent(items, n - 1, d, p);
      AboveIsTransitiveIf(items[n - 1].fullPath, d, p);
    }
  }

  lemma AboveIsTransitiveIf(a: Path, d: Path, p: Path)
    requires Above(d, p)
    ensures Above(a, d) ==> Above(a, p)
  {
  }

  // The climb passes over everything from row i up to, but not including, row h, which it selects.
  lemma {:induction false} ClimbStopsAt(items: seq<Item>, i: nat, h: nat, indent: nat)
    requires h < i < |items| && items[0].visible && items[h].visible && items[h].indent < indent
    requires forall k | h < k < i :: items[k].indent >= indent
    ensures ParentTarget(items, i, indent) == h
  {
    UpTargetVisible(items, i);
    var u := UpTarget(items, i);
    if u > h {
      ClimbStopsAt(items, u, h, indent);
    }
  }

  lemma {:induction false} ClimbToTop(items: seq<Item>, i: nat)
    requires i < |items|
    ensures ParentTarget(items, i, 0) == 0
  {
    if i > 0 {
      ClimbToTop(items, UpTarget(items, i));
    }
  }

  // Left on a file or a collapsed directory selects the directory it is in, or the first row if it
  // is in none.
  lemma LeftSelectsParent(s: Nav)
    requires Safe(s)
    requires var x := s.items[s.selection.value]; x.kind.File? || x.kind.collapsed
    ensures var s', c := Step(s, Left), s.selection.value;
            && s'.items == s.items
            && if s.items[c].indent == 0 then s'.selection == Some(0)
               else IsParentRow(s.items, s'.selection.value, c)
  {
    var c := s.selection.value;
    FirstRowVisible(s.items);
    if s.items[c].indent == 0 {
      ClimbToTop(s.items, c);
    } else {
      ParentTargetIsParent(s.items, c);
    }
    StepLeftToParent(s);
  }

  lemma StepLeftToParent(s: Nav)
    requires s.selection.Some? && s.selection.value < |s.items|
    requires var x := s.items[s.selection.value]; x.kind.File? || x.kind.collapsed
    ensures var s', c := Step(s, Left), s.selection.value;
            s'.items == s.items && s'.selection == Some(ParentTarget(s.items, c, s.items[c].indent))
  {
  }

  lemma {:induction false} ParentTargetIsParent(items: seq<Item>, c: nat)
    requires Shape(items) && FlagsRight(items) && items != [] && items[0].visible
    requires c < |items| && items[c].visible && items[c].indent > 0
    ensures IsParentRow(items, ParentTarget(items, c, items[c].indent), c)
  {
    var h := FindParentRow(items, c, c);
    NothingAboveAfter(items, c);
    InsideIsDeeper(items, h, c);
    BetweenIsDeep(items, h, c);
    ParentVisible(items, h, c);
    ClimbStopsAt(items, c, h, items[c].indent);
  }

  lemma NothingAboveAfter(items: seq<Item>, c: nat)
    requires Preorder(items) && c < |items|
    ensures forall k | c <= k < |items| :: !Above(items[k].fullPath, items[c].fullPath)
  {
  }

  lemma ParentVisible(items: seq<Item>, h: nat, c: nat)
    requires FlagsRight(items) && h < |items| && c < |items| && items[c].visible
    requires Above(items[h].fullPath, items[c].fullPath)
    ensures items[h].visible
  {
  }

  lemma {:induction false} BetweenIsDeep(items: seq<Item>, h: nat, c: nat)
    requires Shape(items) && h < c < |items| && Above(items[h].fullPath, items[c].fullPath)
    requires forall k | h < k < c :: !Above(items[k].fullPath, items[c].fullPath)
    requires Depth(items, c, items[c].fullPath) == Depth(items, h, items[c].fullPath) + 1
    ensures forall k | h < k < c :: items[k].indent >= items[c].indent
  {
    forall k | h < k < c
      ensures items[k].indent >= items[c].indent
    {
      assert StartsWith(items[c].fullPath, items[h].fullPath);
      assert StartsWith(items[k].fullPath, items[h].fullPath) && !StartsWith(items[h].fullPath, items[k].fullPath);
      InsideIsDeeper(items, h, k);
      ParentDepth(items, h, c);
    }
  }

  lemma {:induction false} ParentDepth(items: seq<Item>, h: nat, c: nat)
    requires Shape(items) && h < c < |items| && Above(items[h].fullPath, items[c].fullPath)
    ensures Depth(items, h, items[c].fullPath) == items[h].indent
  {
    forall k | 0 <= k < h && Above(items[k].fullPath, items[c].fullPath)
      ensures Above(items[k].fullPath, items[h].fullPath)
    {
      AncestorsOnChain(items, h, k, c);
      var inside := StartsWith(items[k].fullPath, items[h].fullPath);
    }
    SameDepthAsParent(items, h, items[h].fullPath, items[c].fullPath);
  }
}
