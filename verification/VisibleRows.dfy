// Iterating over the visible rows, and the two index maps between rows and visible rows.
module VisibleRows {
  import opened Options
  import opened TreeItems

  // The visible rows from `start` on, in order.
  function VisibleFrom(items: seq<Item>, start: nat): seq<nat>
    decreases |items| - start
  {
    if start >= |items| then [] else
      (if items[start].visible then [start] else []) + VisibleFrom(items, start + 1)
  }

  // How many of the first i rows are visible.
  function Rank(items: seq<Item>, i: nat): nat
    requires i <= |items|
  {
    if i == 0 then 0 else Rank(items, i - 1) + (if items[i - 1].visible then 1 else 0)
  }

  function VisibleBelow(items: seq<Item>, n: nat): set<nat>
  {
    set i: nat | i < n && i < |items| && items[i].visible
  }

  lemma {:induction false} RankIsSize(items: seq<Item>, n: nat)
    requires n <= |items|
    ensures Rank(items, n) == |VisibleBelow(items, n)|
  {
    if n > 0 {
      RankIsSize(items, n - 1);
      assert VisibleBelow(items, n)
          == VisibleBelow(items, n - 1) + if items[n - 1].visible then {n - 1} else {};
    }
  }

  // v is exactly the visible rows from `start` on, in increasing order.
  ghost predicate IsFilter(items: seq<Item>, start: nat, v: seq<nat>)
  {
    && (forall x | 0 <= x < |v| :: start <= v[x] < |items| && items[v[x]].visible)
    && (forall x, y | 0 <= x < y < |v| :: v[x] < v[y])
    && (forall i | start <= i < |items| && items[i].visible :: i in v)
  }

  lemma FilterTakes(items: seq<Item>, start: nat, v: seq<nat>)
    requires start < |items| && items[start].visible && IsFilter(items, start + 1, v)
    ensures IsFilter(items, start, [start] + v)
  {
    var w := [start] + v;
    forall i | start <= i < |items| && items[i].visible
      ensures i in w
    {
      assert i in v || i == start;
      assert w[0] == start;
    }
  }

  lemma FilterSkips(items: seq<Item>, start: nat, v: seq<nat>)
    requires start < |items| && !items[start].visible && IsFilter(items, start + 1, v)
    ensures IsFilter(items, start, v)
  {
  }

  lemma {:induction false} VisibleFromIsFilter(items: seq<Item>, start: nat)
    ensures IsFilter(items, start, VisibleFrom(items, start))
    decreases |items| - start
  {
    if start < |items| {
      VisibleFromIsFilter(items, start + 1);
      if items[start].visible {
        FilterTakes(items, start, VisibleFrom(items, start + 1));
      } else {
        FilterSkips(items, start, VisibleFrom(items, start + 1));
      }
    }
  }

  // A visible row sits at its rank.
  lemma {:induction false} RankIsPosition(items: seq<Item>, i: nat)
    requires i <= |items|
    ensures Rank(items, i) + |VisibleFrom(items, i)| == |VisibleFrom(items, 0)|
    ensures VisibleFrom(items, 0)[Rank(items, i)..] == VisibleFrom(items, i)
  {
    if i > 0 {
      RankIsPosition(items, i - 1);
    }
  }

  // The two maps invert each other: a visible row is the entry at its rank, and the entry at a
  // position has that rank.
  lemma {:induction false} IndexMapsAreInverse(items: seq<Item>)
    ensures forall i | 0 <= i < |items| && items[i].visible ::
              Rank(items, i) < |VisibleFrom(items, 0)| && VisibleFrom(items, 0)[Rank(items, i)] == i
    ensures forall x | 0 <= x < |VisibleFrom(items, 0)| ::
              VisibleFrom(items, 0)[x] < |items| && Rank(items, VisibleFrom(items, 0)[x]) == x
  {
    var v := VisibleFrom(items, 0);
    forall i | 0 <= i < |items| && items[i].visible
      ensures Rank(items, i) < |v| && v[Rank(items, i)] == i
    {
      RankIsPosition(items, i);
      assert VisibleFrom(items, i)[0] == i;
    }
    VisibleFromIsFilter(items, 0);
    forall x | 0 <= x < |v|
      ensures Rank(items, v[x]) == x
    {
      Distinct(v, Rank(items, v[x]), x);
    }
  }

  lemma Distinct(v: seq<nat>, x: nat, y: nat)
    requires forall x, y | 0 <= x < y < |v| :: v[x] < v[y]
    requires x < |v| && y < |v| && v[x] == v[y]
    ensures x == y
  {
  }

  class TreeItemsIterator {
    const tree: seq<Item>
    const maxAmount: nat
    var index: nat
    var increments: Option<nat>

    constructor (tree: seq<Item>, start: nat, maxAmount: nat)
      ensures this.tree == tree && this.maxAmount == maxAmount && index == start && increments == None
    {
      this.tree, this.maxAmount, index, increments := tree, maxAmount, start, None;
    }

    // Whether the next call may still look for a row.
    predicate Allowed()
      reads this
    {
      (if increments.Some? then increments.value else 0) < maxAmount
    }

    // The rows a call of Next chooses the first of.
    function Remaining(): seq<nat>
      reads this
    {
      VisibleFrom(tree, if increments.None? then index else index + 1)
    }

    // The row's index, or None at the end; the row itself is tree[index].
    method Next() returns (r: Option<nat>)
      modifies this
      ensures r.Some? <==> old(Allowed()) && old(Remaining()) != []
      ensures r.Some? ==> r.value == old(Remaining())[0] && r.value == index < |tree|
      ensures r.Some? ==> increments.Some? && Remaining() == old(Remaining())[1..]
      ensures r.Some? ==> increments.value == if old(increments.None?) then 0 else old(increments.value) + 1
    {
      if (if increments.Some? then increments.value else 0) < maxAmount {
        var init := increments.None?;
        ghost var rest := Remaining();
        if increments.Some? {
          increments := Some(increments.value + 1);
        } else {
          increments := Some(0);
        }
        while true
          invariant rest == VisibleFrom(tree, if init then index else index + 1)
          invariant increments.Some?
          invariant increments.value == if old(increments.None?) then 0 else old(increments.value) + 1
          decreases |tree| + 1 - (if init then index else index + 1), init
        {
          if !init {
            index := index + 1;
          }
          init := false;
          if index >= |tree| {
            break;
          }
          var elem := tree[index];
          if elem.visible {
            return Some(index);
          }
        }
      }
      r := None;
    }
  }

  lemma MoveFirst(a: seq<nat>, b: seq<nat>)
    requires b != []
    ensures a + b == a + [b[0]] + b[1..]
  {
  }

  // What iterate(start, maxAmount) yields: the visible rows from `start` on, cut after
  // maxAmount + 1 of them (not maxAmount), or nothing for maxAmount = 0.
  method Iterate(tree: seq<Item>, start: nat, maxAmount: nat) returns (rows: seq<nat>)
    ensures var all := VisibleFrom(tree, start);
            rows == if maxAmount == 0 then [] else if |all| <= maxAmount + 1 then all else all[..maxAmount + 1]
  {
    var it := new TreeItemsIterator(tree, start, maxAmount);
    rows := [];
    ghost var all := VisibleFrom(tree, start);
    while true
      invariant it.tree == tree && it.maxAmount == maxAmount
      invariant all == rows + it.Remaining()
      invariant if rows == [] then it.increments.None? else it.increments == Some(|rows| - 1)
      invariant rows != [] ==> 0 < maxAmount && |rows| <= maxAmount + 1
      decreases |it.Remaining()|
    {
      ghost var rest := it.Remaining();
      var row := it.Next();
      if row.None? {
        break;
      }
      MoveFirst(rows, rest);
      rows := rows + [row.value];
    }
  }

  datatype VisualSelection = VisualSelection(count: nat, index: nat)

  // calc_visual_selection: the position of the selected row among the visible ones, and their
  // number; position 0 when the selected row is hidden.
  method CalcVisualSelection(tree: seq<Item>, selection: Option<nat>) returns (r: Option<VisualSelection>)
    requires selection.Some? ==> selection.value < |tree|
    ensures r == Visual(tree, selection)
    ensures r.Some? <==> selection.Some?
    ensures r.Some? ==> r.value.count == |VisibleBelow(tree, |tree|)|
    ensures r.Some? ==>
              r.value.index == if tree[selection.value].visible then |VisibleBelow(tree, selection.value)| else 0
  {
    if selection.None? {
      return None;
    }
    VisualCounts(tree, selection.value);
    IndexMapsAreInverse(tree);
    VisibleFromIsFilter(tree, 0);
    AtMostAll(tree, 0);
    var rows := Iterate(tree, 0, |tree|);
    var count, visualIndex := 0, 0;
    for x := 0 to |rows|
      invariant count == x
      invariant visualIndex == if exists y :: 0 <= y < x && rows[y] == selection.value
                               then Rank(tree, selection.value) else 0
    {
      if selection.value == rows[x] {
        visualIndex := count;
      }
      count := count + 1;
    }
    r := Some(VisualSelection(count, visualIndex));
  }

  function Visual(tree: seq<Item>, selection: Option<nat>): Option<VisualSelection>
    requires selection.Some? ==> selection.value < |tree|
  {
    if selection.None? then None else
      Some(VisualSelection(|VisibleFrom(tree, 0)|,
                           if tree[selection.value].visible then Rank(tree, selection.value) else 0))
  }

  lemma {:induction false} VisualCounts(tree: seq<Item>, selection: nat)
    requires selection < |tree|
    ensures |VisibleFrom(tree, 0)| == |VisibleBelow(tree, |tree|)|
    ensures Rank(tree, selection) == |VisibleBelow(tree, selection)|
  {
    RankIsSize(tree, |tree|);
    RankIsPosition(tree, |tree|);
    RankIsSize(tree, selection);
  }

  lemma {:induction false} AtMostAll(items: seq<Item>, start: nat)
    requires start <= |items|
    ensures |VisibleFrom(items, start)| <= |items| - start
    decreases |items| - start
  {
    if start < |items| {
      AtMostAll(items, start + 1);
    }
  }

  // visual_index_to_absolute: the row at a position among the visible ones.
  method VisualIndexToAbsolute(tree: seq<Item>, visualIndex: nat) returns (r: Option<nat>)
    ensures r == if visualIndex < |VisibleFrom(tree, 0)| then Some(VisibleFrom(tree, 0)[visualIndex]) else None
  {
    AtMostAll(tree, 0);
    var rows := Iterate(tree, 0, |tree|);
    for i := 0 to |rows|
      invariant i <= visualIndex
    {
      if i == visualIndex {
        return Some(rows[i]);
      }
    }
    r := None;
  }
}
