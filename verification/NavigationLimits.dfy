// What holds of every sequence of keys, also when Down overruns, and small trees at which the
// properties that hold only under a condition fail.
module NavigationLimits {
  import opened Options
  import opened Paths
  import opened TreeItems
  import opened TreeShape
  import opened TreeFold
  import opened FoldedTree
  import opened Visibility
  import opened VisibleRows
  import opened Navigation

  // ---------------------------------------------------------------------------------------------
  // Every run

  // The rows and their flags are right. If the selected row is hidden, it is the last row and a
  // file; its cached position is then 0.
  ghost predicate Sound(s: Nav)
  {
    && Shape(s.items)
    && FlagsRight(s.items)
    && s.selection.Some? && s.selection.value < |s.items|
    && s.visual.Some?
    && if s.items[s.selection.value].visible then s.visual.value.index == Rank(s.items, s.selection.value)
       else
         && s.selection.value == |s.items| - 1
         && s.items[s.selection.value].kind.File?
         && s.visual.value.index == 0
  }

  lemma LastRowIsFile(items: seq<Item>)
    requires items != [] && DirsNotEmpty(items)
    ensures items[|items| - 1].kind.File?
  {
    var inside := HasInside(items, |items| - 1);
  }

  lemma {:induction false} DownToLast(items: seq<Item>, c: nat)
    requires c + 1 < |items| && forall i | c < i < |items| :: !items[i].visible
    ensures DownTarget(items, c) == |items| - 1
    decreases |items| - c
  {
    if c + 2 < |items| {
      DownToLast(items, c + 1);
    }
  }

  lemma OverrunTo(s: Nav, move: Move)
    requires s.selection.Some? && s.selection.value < |s.items| && PastTheEnd(s.items, s.selection.value, move)
    ensures var last := Some(|s.items| - 1);
            Step(s, move) == Nav(s.items, last, Visual(s.items, last)) && !s.items[|s.items| - 1].visible
  {
    DownToLast(s.items, s.selection.value);
  }

  lemma SoundOnLast(items: seq<Item>)
    requires items != [] && Shape(items) && FlagsRight(items) && !items[|items| - 1].visible
    ensures Sound(Nav(items, Some(|items| - 1), Visual(items, Some(|items| - 1))))
  {
    LastRowIsFile(items);
  }

  lemma OverrunStep(s: Nav, move: Move)
    requires Safe(s) && PastTheEnd(s.items, s.selection.value, move)
    ensures Sound(Step(s, move))
  {
    OverrunTo(s, move);
    SoundOnLast(s.items);
  }

  // From the last row, a hidden file, a key leads to a visible row or nowhere.
  lemma HiddenTarget(items: seq<Item>, move: Move)
    requires items != [] && items[0].visible && items[|items| - 1].kind.File?
    ensures var t := Target(items, |items| - 1, move); t.0 == items && (t.1.None? || items[t.1.value].visible)
  {
    var c := |items| - 1;
    if move == Left {
      QuietLeft(items, c);
    } else if move == Right {
      RightOnFile(items, c);
    } else {
      QuietOther(items, c, move);
    }
  }

  lemma HiddenTo(s: Nav, move: Move) returns (t: Option<nat>)
    requires s.items != [] && s.items[0].visible && s.items[|s.items| - 1].kind.File?
    requires s.selection == Some(|s.items| - 1) && !s.items[|s.items| - 1].visible
    ensures t.None? ==> Step(s, move) == s
    ensures t.Some? ==> t.value < |s.items| && s.items[t.value].visible
                        && Step(s, move) == Nav(s.items, t, Visual(s.items, t))
  {
    HiddenTarget(s.items, move);
    t := Target(s.items, |s.items| - 1, move).1;
  }

  lemma HiddenStep(s: Nav, move: Move)
    requires Sound(s) && !s.items[s.selection.value].visible
    ensures Sound(Step(s, move))
  {
    FirstRowVisible(s.items);
    var t := HiddenTo(s, move);
  }

  lemma SoundStep(s: Nav, move: Move)
    requires Sound(s)
    ensures Sound(Step(s, move))
  {
    if !s.items[s.selection.value].visible {
      HiddenStep(s, move);
    } else {
      StepSafeIff(s, move);
      if PastTheEnd(s.items, s.selection.value, move) {
        OverrunStep(s, move);
      }
    }
  }

  lemma {:induction false} SoundRuns(s: Nav, moves: seq<Move>)
    requires Sound(s)
    ensures Sound(Run(s, moves))
  {
    if moves != [] {
      var n := |moves| - 1;
      SoundRuns(s, moves[..n]);
      SoundStep(Run(s, moves[..n]), moves[n]);
    }
  }

  // From a fresh tree, any keys whatever keep the rows a tree and every flag right. The selected
  // row is visible, or is the last row and a file: no key ever selects a hidden directory, so the
  // keys only expand visible ones.
  lemma {:induction false} AnyRunIsSound(list: seq<Path>, moves: seq<Move>)
    requires Listing(list) && list != []
    ensures Sound(Run(FreshTree(list), moves))
  {
    FreshIsSafe(list);
    SoundRuns(FreshTree(list), moves);
  }

  lemma {:induction false} RunByOne(s: Nav, moves: seq<Move>, i: nat)
    requires i < |moves| && (s.selection.Some? ==> s.selection.value < |s.items|)
    ensures Run(s, moves[..i + 1]) == Step(Run(s, moves[..i]), moves[i])
  {
    assert moves[..i + 1][..i] == moves[..i];
  }

  // A new tree of the code, for no keys at all.
  method NewTree(list: seq<Path>) returns (r: Result<FileTree>)
    requires Listing(list) && list != []
    ensures r.IndentOverflow? <==> exists e <- list :: |e| > 256
    ensures r.Ok? ==> fresh(r.value) && fresh(r.value.items) && r.value.Valid() && r.value.State() == FreshTree(list)
  {
    r := FileTree.New(list, {});
  }

  // A tree built by the code and moved through with the code is where the run says.
  method Play(list: seq<Path>, moves: seq<Move>) returns (r: Result<FileTree>)
    requires Listing(list) && list != []
    ensures r.IndentOverflow? <==> exists e <- list :: |e| > 256
    ensures r.Ok? ==> fresh(r.value) && r.value.State() == Run(FreshTree(list), moves)
    ensures r.Ok? ==> Sound(r.value.State())
  {
    r := NewTree(list);
    if r.IndentOverflow? {
      return;
    }
    ghost var start := FreshTree(list);
    var tree := r.value;
    for i := 0 to |moves|
      invariant fresh(tree) && fresh(tree.items) && tree.Valid()
      invariant tree.State() == Run(start, moves[..i])
    {
      RunByOne(start, moves, i);
      var moved := tree.MoveSelection(moves[i]);
    }
    assert moves[..|moves|] == moves;
    AnyRunIsSound(list, moves);
  }

  // ---------------------------------------------------------------------------------------------
  // A directory with one file

  const ONE_FILE: seq<Path> := [["a", "b"]]

  lemma {:induction false} OneFileRows(collapsed: set<string>)
    ensures Listing(ONE_FILE)
    ensures Created(ONE_FILE, collapsed) == [DirItem(["a"], collapsed), FileItem(["a", "b"])]
  {
    var e: Path := ["a", "b"];
    assert ONE_FILE == [e];
    assert IsName("a") && IsName("b");
    assert [e][..0] == [];
    assert e[..1] == ["a"];
    assert NewDirs([], e, 1, collapsed) == [];
    assert NewDirs([], e, 2, collapsed) == [DirItem(["a"], collapsed)];
    assert Created([], collapsed) == [];
  }

  lemma {:induction false} OneFileFolded(collapsed: set<string>)
    ensures var orig := Created(ONE_FILE, collapsed); Folded(orig, |orig|) == orig
  {
    OneFileRows(collapsed);
    var orig := Created(ONE_FILE, collapsed);
    assert !Folds(orig, 0) && !Folds(orig, 1);
    assert Above(["a"], ["a", "b"]) && !Above(["a"], ["a"]);
    assert CountAbove(orig, 0, ["a"], false) == 0;
    assert CountAbove(orig, 1, ["a", "b"], false) == 1;
    assert FoldedItem(orig, 0) == orig[0] && FoldedItem(orig, 1) == orig[1];
    assert Folded(orig, 1) == [orig[0]];
  }

  // Close the directory and press Down: the hidden file is selected.
  lemma DownOverruns()
    ensures Listing(ONE_FILE) && ONE_FILE != []
    ensures var s := Run(FreshTree(ONE_FILE), [Left, Down]);
            s.selection == Some(1) && |s.items| == 2 && !s.items[1].visible && !Safe(s)
  {
    OneFileRows({});
    OneFileFolded({});
    var start, moves := FreshTree(ONE_FILE), [Left, Down];
    var closed := Step(start, Left);
    assert moves[..1] == [Left] && [Left][..0] == [];
    assert Run(start, []) == start;
    assert Run(start, [Left]) == closed;
    assert closed.items == Collapsed(start.items, 0) && closed.selection == Some(0);
    assert Above(["a"], ["a", "b"]);
    assert !closed.items[1].visible;
    assert DownTarget(closed.items, 1) == 1;
    assert DownTarget(closed.items, 0) == 1;
  }

  // With the directory closed from the start, its file is shown all the same.
  lemma FreshTreeShowsClosedDirectory()
    ensures Listing(ONE_FILE)
    ensures var orig := Created(ONE_FILE, {"a"}); !FlagsRight(Folded(orig, |orig|))
  {
    OneFileRows({"a"});
    OneFileFolded({"a"});
    CreatedIsTrie(ONE_FILE, {"a"});
    var orig := Created(ONE_FILE, {"a"});
    assert orig[0].IsCollapsed();
    FreshFlagsIff(orig);
  }

  // ---------------------------------------------------------------------------------------------
  // A directory in a directory

  const NESTED: seq<Path> := [["a", "b", "c"], ["a", "d"]]

  lemma NestedListing()
    ensures Listing(NESTED)
  {
    assert IsName("a") && IsName("b") && IsName("c") && IsName("d");
    assert NESTED[0][1] != NESTED[1][1];
  }

  lemma NestedRows()
    ensures Created(NESTED, {})
         == [DirItem(["a"], {}), DirItem(["a", "b"], {}), FileItem(["a", "b", "c"]), FileItem(["a", "d"])]
  {
    var e: Path := ["a", "b", "c"];
    var f: Path := ["a", "d"];
    assert NESTED[..1] == [e] && NESTED == [e] + [f] && [e][..0] == [];
    assert e[..1] == ["a"] && e[..2] == ["a", "b"] && f[..1] == ["a"];
    assert NewDirs([], e, 1, {}) == [];
    assert NewDirs([], e, 2, {}) == [DirItem(["a"], {})];
    assert NewDirs([], e, 3, {}) == [DirItem(["a"], {}), DirItem(["a", "b"], {})];
    assert Above(["a"], [e][0]);
    assert NewDirs([e], f, 1, {}) == [];
    assert NewDirs([e], f, 2, {}) == [];
    assert Created([], {}) == [];
    CreatedPush([], e, {});
    CreatedPush([e], f, {});
    assert [] + [e] == [e];
  }

  lemma NestedNotFolded()
    ensures forall m: nat :: !Folds(Created(NESTED, {}), m)
  {
    NestedRows();
    var orig := Created(NESTED, {});
    assert orig[0].fullPath == ["a"];
    var d: Path := ["a"];
    assert Parent(orig[1].fullPath) == d && Parent(orig[3].fullPath) == d;
    assert IsChild(orig[1].fullPath, d) && IsChild(orig[3].fullPath, d);
    KidsAtLeast(orig, {1, 3}, d);
    assert |{1, 3}| == 2;
  }

  lemma {:induction false} UnfoldedRow(orig: seq<Item>, n: nat, x: nat)
    requires x < n <= |orig| && forall m: nat :: !Folds(orig, m)
    ensures |Folded(orig, n)| == n
    ensures Folded(orig, n)[x].fullPath == orig[x].fullPath && Folded(orig, n)[x].kind == orig[x].kind
  {
    if n > 1 {
      UnfoldedRow(orig, n - 1, if x < n - 1 then x else 0);
    }
  }

  // Close the outer directory and expand the inner one, which is hidden: its file is shown under
  // the closed directory.
  lemma ExpandHiddenBreaks()
    ensures Listing(NESTED) && NESTED != []
    ensures var closed := Collapsed(FreshTree(NESTED).items, 0);
            && |closed| == 4 && FlagsRight(closed) && closed[1].kind.Directory? && !closed[1].visible
            && !FlagsRight(Expanded(closed, 1, false))
  {
    NestedListing();
    FreshIsSafe(NESTED);
    NestedRows();
    NestedNotFolded();
    var orig, items := Created(NESTED, {}), FreshTree(NESTED).items;
    UnfoldedRow(orig, 4, 0);
    UnfoldedRow(orig, 4, 1);
    CollapseKeepsFlags(items, 0);
    SameRowsSameShape(items, Collapsed(items, 0));
    assert Above(items[0].fullPath, items[1].fullPath);
    ExpandKeepsFlagsIff(Collapsed(items, 0), 1, false);
  }
}
