// Items of the file tree, and the flat list of items built from a list of file paths.
module TreeItems {
  import opened Paths

  import opened Options

  datatype Result<+T> = Ok(value: T) | IndentOverflow

  datatype Kind = Directory(collapsed: bool) | File

  // One row of the tree. `folded` holds the displayed name once other directories were folded in.
  datatype Item = Item(fullPath: Path, folded: Option<Path>, indent: nat, visible: bool, kind: Kind) {

    // TreeItemInfo::path: the folded name, or the last component.
    function Name(): Path
    {
      if folded.Some? then folded.value else if fullPath == [] then [] else [fullPath[|fullPath| - 1]]
    }

    function Fold(next: Item): Item
    {
      this.(folded := Some(Name() + next.Name()), fullPath := next.fullPath)
    }

    function Unindent(): Item
    {
      this.(indent := if indent > 0 then indent - 1 else 0)
    }

    predicate IsCollapsed()
    {
      kind.Directory? && kind.collapsed
    }
  }

  const MAX_INDENT := 255

  // ancestors().count() - 2, saturating; a relative path has one ancestor per component and "".
  function Indent(p: Path): nat
  {
    if |p| == 0 then 0 else |p| - 1
  }

  function FileItem(p: Path): Item
  {
    Item(p, None, Indent(p), true, File)
  }

  function DirItem(p: Path, collapsed: set<string>): Item
  {
    Item(p, None, Indent(p), true, Directory(Text(p) in collapsed))
  }

  function NewFile(p: Path): Result<Item>
  {
    if Indent(p) > MAX_INDENT then IndentOverflow else Ok(FileItem(p))
  }

  function NewPath(p: Path, collapsed: set<string>): Result<Item>
  {
    if Indent(p) > MAX_INDENT then IndentOverflow else Ok(DirItem(p, collapsed))
  }

  // ---------------------------------------------------------------------------------------------
  // What is built: for each listed file the directories not seen before, outermost first, then the
  // file.

  predicate IsDirOf(list: seq<Path>, d: Path)
  {
    exists i :: 0 <= i < |list| && Above(d, list[i])
  }

  // The directories e[..1], ..., e[..n - 1] that no listed file lies in.
  function NewDirs(list: seq<Path>, e: Path, n: nat, collapsed: set<string>): seq<Item>
    requires n <= |e|
  {
    if n <= 1 then [] else
      NewDirs(list, e, n - 1, collapsed)
      + (if IsDirOf(list, e[..n - 1]) then [] else [DirItem(e[..n - 1], collapsed)])
  }

  function Created(list: seq<Path>, collapsed: set<string>): seq<Item>
  {
    if list == [] then [] else
      var done, e := list[..|list| - 1], list[|list| - 1];
      Created(done, collapsed) + NewDirs(done, e, |e|, collapsed) + [FileItem(e)]
  }

  predicate IsChild(p: Path, d: Path)
  {
    p != [] && Parent(p) == d
  }

  // The number of items directly inside d.
  function Kids(items: seq<Item>, d: Path): nat
  {
    if items == [] then 0 else
      Kids(items[..|items| - 1], d) + (if IsChild(items[|items| - 1].fullPath, d) then 1 else 0)
  }

  lemma {:induction false} KidsPush(items: seq<Item>, x: Item, d: Path)
    ensures Kids(items + [x], d) == Kids(items, d) + (if IsChild(x.fullPath, d) then 1 else 0)
  {
  }

  lemma {:induction false} NoKids(items: seq<Item>, d: Path)
    requires forall x <- items :: !IsChild(x.fullPath, d)
    ensures Kids(items, d) == 0
  {
    if items != [] {
      NoKids(items[..|items| - 1], d);
    }
  }

  lemma {:induction false} CreatedPush(done: seq<Path>, e: Path, collapsed: set<string>)
    ensures Created(done + [e], collapsed)
         == Created(done, collapsed) + NewDirs(done, e, |e|, collapsed) + [FileItem(e)]
  {
  }

  lemma {:induction false} NewDirsArePrefixes(list: seq<Path>, e: Path, n: nat, collapsed: set<string>)
    requires n <= |e|
    ensures forall x <- NewDirs(list, e, n, collapsed) ::
              |x.fullPath| < n && Above(x.fullPath, e) && !IsDirOf(list, x.fullPath)
  {
    if n > 1 {
      NewDirsArePrefixes(list, e, n - 1, collapsed);
    }
  }

  lemma {:induction false} CreatedArePrefixes(list: seq<Path>, collapsed: set<string>)
    ensures forall x <- Created(list, collapsed) ::
              exists i :: 0 <= i < |list| && StartsWith(list[i], x.fullPath)
  {
    if list != [] {
      var done, e := list[..|list| - 1], list[|list| - 1];
      CreatedArePrefixes(done, collapsed);
      NewDirsArePrefixes(done, e, |e|, collapsed);
      forall x | x in Created(list, collapsed)
        ensures exists i :: 0 <= i < |list| && StartsWith(list[i], x.fullPath)
      {
        if x in Created(done, collapsed) {
          var i :| 0 <= i < |done| && StartsWith(done[i], x.fullPath);
          assert StartsWith(list[i], x.fullPath);
        } else {
          assert StartsWith(list[|list| - 1], x.fullPath);
        }
      }
    }
  }

  // ---------------------------------------------------------------------------------------------
  // The code that builds it

  // The table of child counts: its non-empty keys are the directories of `dirs`, each with the
  // number of items directly inside it.
  ghost predicate Counted(isDir: Path -> bool, counts: map<Path, nat>, items: seq<Item>)
  {
    forall d: Path | d != [] ::
      (d in counts <==> isDir(d)) && (d in counts ==> counts[d] == Kids(items, d))
  }

  // The directories known after the first j ancestors of e.
  ghost function Known(done: seq<Path>, e: Path, j: nat): Path -> bool
  {
    d => IsDirOf(done, d) || (Above(d, e) && |d| < j)
  }

  ghost function DirsOf(list: seq<Path>): Path -> bool
  {
    d => IsDirOf(list, d)
  }

  // *entry(d).or_insert(0) += 1
  function Increment(counts: map<Path, nat>, d: Path): map<Path, nat>
  {
    counts[d := (if d in counts then counts[d] else 0) + 1]
  }

  // The directory of the first j components was not seen before, and its indent has no 8 bits.
  predicate NewAndTooDeep(done: seq<Path>, e: Path, j: nat)
    requires j <= |e|
  {
    j > MAX_INDENT + 1 && !IsDirOf(done, e[..j])
  }

  // A directory not seen before.
  method PushDir(e: Path, j: nat, nodes: seq<Item>, added: map<Path, nat>, collapsed: set<string>,
                 ghost done: seq<Path>)
    returns (r: Result<(seq<Item>, map<Path, nat>)>)
    requires 0 < j < |e| && e[..j] !in added && Counted(Known(done, e, j), added, nodes)
    requires nodes == Created(done, collapsed) + NewDirs(done, e, j, collapsed)
    ensures r.Ok? ==> r.value.0 == Created(done, collapsed) + NewDirs(done, e, j + 1, collapsed)
    ensures r.Ok? ==> Counted(Known(done, e, j + 1), r.value.1, r.value.0)
    ensures r.IndentOverflow? <==> NewAndTooDeep(done, e, j)
  {
    var c := e[..j];
    CountedNewDir(done, e, j, collapsed, added);
    var counts := added[c := 0];
    var parent := Parent(c);
    if parent != [] {
      counts := Increment(counts, parent);
    }
    var node := NewPath(c, collapsed);
    if node.IndentOverflow? {
      return IndentOverflow;
    }
    r := Ok((nodes + [node.value], counts));
  }

  // The ancestor of the first j components, if it is none of the empty path and not there yet.
  method PushAncestor(e: Path, j: nat, nodes: seq<Item>, added: map<Path, nat>, collapsed: set<string>,
                      ghost done: seq<Path>)
    returns (r: Result<(seq<Item>, map<Path, nat>)>)
    requires j < |e| && Counted(Known(done, e, j), added, nodes)
    requires nodes == Created(done, collapsed) + NewDirs(done, e, j, collapsed)
    ensures r.IndentOverflow? <==> NewAndTooDeep(done, e, j)
    ensures r.Ok? ==> r.value.0 == Created(done, collapsed) + NewDirs(done, e, j + 1, collapsed)
    ensures r.Ok? ==> Counted(Known(done, e, j + 1), r.value.1, r.value.0)
  {
    if j > 0 && e[..j] !in added {
      r := PushDir(e, j, nodes, added, collapsed, done);
    } else {
      OldDirIsNoTrouble(done, e, j, added, nodes, collapsed);
      r := Ok((nodes, added));
    }
  }

  method PushDirs(e: Path, items: seq<Item>, counts: map<Path, nat>, collapsed: set<string>, ghost done: seq<Path>)
    returns (r: Result<(seq<Item>, map<Path, nat>)>)
    requires items == Created(done, collapsed) && Counted(DirsOf(done), counts, items)
    ensures r.Ok? ==> r.value.0 == items + NewDirs(done, e, |e|, collapsed)
    ensures r.Ok? ==> Counted(DirsOf(done + [e]), r.value.1, r.value.0 + [FileItem(e)])
    ensures r.IndentOverflow? <==> exists j: nat | j < |e| :: NewAndTooDeep(done, e, j)
  {
    var nodes, added := items, counts;
    CountedStart(done, e, counts, items);
    for j := 0 to |e|
      invariant nodes == items + NewDirs(done, e, j, collapsed)
      invariant Counted(Known(done, e, j), added, nodes)
      invariant forall k: nat | k < j :: !NewAndTooDeep(done, e, k)
    {
      var more := PushAncestor(e, j, nodes, added, collapsed, done);
      if more.IndentOverflow? {
        return IndentOverflow;
      }
      nodes, added := more.value.0, more.value.1;
    }
    CountedFile(done, e, added, nodes);
    if e != [] {
      added := Increment(added, Parent(e));
    }
    r := Ok((nodes, added));
  }

  lemma OldDirIsNoTrouble(done: seq<Path>, e: Path, j: nat, added: map<Path, nat>, nodes: seq<Item>,
                          collapsed: set<string>)
    requires j < |e| && (j == 0 || e[..j] in added) && Counted(Known(done, e, j), added, nodes)
    ensures Counted(Known(done, e, j + 1), added, nodes) && !NewAndTooDeep(done, e, j)
    ensures NewDirs(done, e, j + 1, collapsed) == NewDirs(done, e, j, collapsed)
  {
    CountedOldDir(done, e, j, added, nodes);
    NewDirsStep(done, e, j, collapsed);
  }

  lemma NewDirsStep(done: seq<Path>, e: Path, j: nat, collapsed: set<string>)
    requires j < |e|
    ensures j > 0 && !IsDirOf(done, e[..j]) ==>
              NewDirs(done, e, j + 1, collapsed) == NewDirs(done, e, j, collapsed) + [DirItem(e[..j], collapsed)]
    ensures j == 0 || IsDirOf(done, e[..j]) ==>
              NewDirs(done, e, j + 1, collapsed) == NewDirs(done, e, j, collapsed)
  {
  }

  lemma IsDirOfPush(done: seq<Path>, e: Path, d: Path)
    ensures IsDirOf(done + [e], d) <==> IsDirOf(done, d) || Above(d, e)
  {
    var all := done + [e];
    if Above(d, e) {
      assert Above(d, all[|done|]);
    }
    if IsDirOf(done, d) {
      var i :| 0 <= i < |done| && Above(d, done[i]);
      assert Above(d, all[i]);
    }
    if IsDirOf(all, d) {
      var i :| 0 <= i < |all| && Above(d, all[i]);
      assert i < |done| ==> all[i] == done[i];
    }
  }

  lemma CountedStart(done: seq<Path>, e: Path, counts: map<Path, nat>, items: seq<Item>)
    requires Counted(DirsOf(done), counts, items)
    ensures Counted(Known(done, e, 0), counts, items)
  {
  }

  lemma CountedNewDir(done: seq<Path>, e: Path, j: nat, collapsed: set<string>, added: map<Path, nat>)
    requires 0 < j < |e| && e[..j] !in added
    requires Counted(Known(done, e, j), added, Created(done, collapsed) + NewDirs(done, e, j, collapsed))
    ensures !IsDirOf(done, e[..j])
    ensures var inserted, parent := added[e[..j] := 0], Parent(e[..j]);
            Counted(Known(done, e, j + 1),
                    if parent == [] then inserted else Increment(inserted, parent),
                    Created(done, collapsed) + NewDirs(done, e, j, collapsed) + [DirItem(e[..j], collapsed)])
    ensures Created(done, collapsed) + NewDirs(done, e, j + 1, collapsed)
         == Created(done, collapsed) + NewDirs(done, e, j, collapsed) + [DirItem(e[..j], collapsed)]
  {
    NewDirsStep(done, e, j, collapsed);
    var nodes := Created(done, collapsed) + NewDirs(done, e, j, collapsed);
    assert !Known(done, e, j)(e[..j]);
    NoKidsYet(done, e, j, collapsed);
    var added' := if Parent(e[..j]) == [] then added[e[..j] := 0] else Increment(added[e[..j] := 0], Parent(e[..j]));
    forall d: Path | d != []
      ensures d in added' <==> Known(done, e, j + 1)(d)
      ensures d in added' ==> added'[d] == Kids(nodes + [DirItem(e[..j], collapsed)], d)
    {
      CountNewDirAt(done, e, j, added, nodes, DirItem(e[..j], collapsed), d);
    }
  }

  // The entry for d once the new directory is counted.
  lemma {:induction false} CountNewDirAt(done: seq<Path>, e: Path, j: nat, added: map<Path, nat>,
                                         nodes: seq<Item>, x: Item, d: Path)
    requires 0 < j < |e| && e[..j] !in added && d != [] && x.fullPath == e[..j]
    requires Counted(Known(done, e, j), added, nodes) && Kids(nodes, e[..j]) == 0
    ensures var inserted, parent := added[e[..j] := 0], Parent(e[..j]);
            var added' := if parent == [] then inserted else Increment(inserted, parent);
            (d in added' <==> Known(done, e, j + 1)(d)) && (d in added' ==> added'[d] == Kids(nodes + [x], d))
  {
    var parent := Parent(e[..j]);
    assert parent != [] ==> Known(done, e, j)(parent);
    KidsPush(nodes, x, d);
    assert d in added <==> Known(done, e, j)(d);
    assert Above(d, e) && |d| == j <==> d == e[..j];
  }

  lemma CountedOldDir(done: seq<Path>, e: Path, j: nat, added: map<Path, nat>, nodes: seq<Item>)
    requires j < |e| && (j == 0 || e[..j] in added)
    requires Counted(Known(done, e, j), added, nodes)
    ensures j > 0 ==> IsDirOf(done, e[..j])
    ensures Counted(Known(done, e, j + 1), added, nodes)
  {
  }

  lemma CountedFile(done: seq<Path>, e: Path, added: map<Path, nat>, nodes: seq<Item>)
    requires Counted(Known(done, e, |e|), added, nodes)
    ensures Counted(DirsOf(done + [e]), if e == [] then added else Increment(added, Parent(e)),
                    nodes + [FileItem(e)])
  {
    var all := done + [e];
    forall d: Path
      ensures IsDirOf(all, d) <==> Known(done, e, |e|)(d)
    {
      IsDirOfPush(done, e, d);
    }
    var added' := if e == [] then added else Increment(added, Parent(e));
    assert e != [] && Parent(e) != [] ==> Known(done, e, |e|)(Parent(e));
    forall d: Path | d != []
      ensures d in added' <==> DirsOf(all)(d)
      ensures d in added' ==> added'[d] == Kids(nodes + [FileItem(e)], d)
    {
      KidsPush(nodes, FileItem(e), d);
      assert d in added <==> Known(done, e, |e|)(d);
    }
  }

  lemma {:induction false} NoKidsYet(done: seq<Path>, e: Path, j: nat, collapsed: set<string>)
    requires 0 < j < |e| && !IsDirOf(done, e[..j])
    ensures Kids(Created(done, collapsed) + NewDirs(done, e, j, collapsed), e[..j]) == 0
  {
    CreatedArePrefixes(done, collapsed);
    NewDirsArePrefixes(done, e, j, collapsed);
    forall x | x in Created(done, collapsed)
      ensures !IsChild(x.fullPath, e[..j])
    {
      var i :| 0 <= i < |done| && StartsWith(done[i], x.fullPath);
      assert IsChild(x.fullPath, e[..j]) ==> Above(e[..j], done[i]);
    }
    NoKids(Created(done, collapsed) + NewDirs(done, e, j, collapsed), e[..j]);
  }

  // The directories of one file and the file.
  method PushFile(e: Path, items: seq<Item>, counts: map<Path, nat>, collapsed: set<string>, ghost done: seq<Path>)
    returns (r: Result<(seq<Item>, map<Path, nat>)>)
    requires items == Created(done, collapsed) && Counted(DirsOf(done), counts, items)
    ensures r.IndentOverflow? <==> |e| > 256
    ensures r.Ok? ==> r.value.0 == Created(done + [e], collapsed)
    ensures r.Ok? ==> Counted(DirsOf(done + [e]), r.value.1, r.value.0)
  {
    var pushed := PushDirs(e, items, counts, collapsed, done);
    if pushed.IndentOverflow? {
      return IndentOverflow;
    }
    var file := NewFile(e);
    if file.IndentOverflow? {
      return IndentOverflow;
    }
    CreatedPush(done, e, collapsed);
    r := Ok((pushed.value.0 + [file.value], pushed.value.1));
  }

  // The only failure is a path too deep for the 8-bit indent.
  method CreateItems(list: seq<Path>, collapsed: set<string>)
    returns (r: Result<(seq<Item>, map<Path, nat>)>)
    ensures r.IndentOverflow? <==> exists e <- list :: |e| > 256
    ensures r.Ok? ==> r.value.0 == Created(list, collapsed)
    ensures r.Ok? ==> Counted(DirsOf(list), r.value.1, r.value.0)
  {
    var items, counts := [], map[];
    for n := 0 to |list|
      invariant items == Created(list[..n], collapsed)
      invariant Counted(DirsOf(list[..n]), counts, items)
      invariant forall i :: 0 <= i < n ==> |list[i]| <= MAX_INDENT + 1
    {
      assert list[..n + 1] == list[..n] + [list[n]];
      var pushed := PushFile(list[n], items, counts, collapsed, list[..n]);
      if pushed.IndentOverflow? {
        return IndentOverflow;
      }
      items, counts := pushed.value.0, pushed.value.1;
    }
    assert list[..|list|] == list;
    r := Ok((items, counts));
  }
}
