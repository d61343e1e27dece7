// Where each key leads, in terms of the rows and their visible flags alone.
module NavigationKeys {
  import opened Options
  import opened TreeItems
  import opened Visibility
  import opened Navigation

  // No row strictly between the two is visible.
  ghost predicate NoneBetween(items: seq<Item>, low: int, high: int)
  {
    forall k | 0 <= k < |items| && low < k < high :: !items[k].visible
  }

  // A key other than the two that open and close a directory changes no row.
  ghost predicate MovesOnly(s: Nav, s': Nav)
  {
    && s'.items == s.items && s'.selection.Some? && s'.selection.value < |s.items|
    && (s'.selection == s.selection ==> s' == s)
  }

  // ---------------------------------------------------------------------------------------------
  // For any rows

  lemma {:induction false} UpTargetIs(items: seq<Item>, c: nat)
    requires c < |items|
    ensures var u := UpTarget(items, c);
            NoneBetween(items, u, c) && (c > 0 ==> u < c && (items[u].visible || u == 0))
  {
    if c > 1 && !items[c - 1].visible {
      UpTargetIs(items, c - 1);
    }
  }

  lemma {:induction false} DownTargetIs(items: seq<Item>, c: nat)
    requires c < |items|
    ensures var d := DownTarget(items, c);
            NoneBetween(items, c, d) && (c + 1 < |items| ==> c < d && (items[d].visible || d + 1 == |items|))
    decreases |items| - c
  {
    if c + 1 < |items| && !items[c + 1].visible {
      DownTargetIs(items, c + 1);
    }
  }

  lemma {:induction false} LastVisibleIs(items: seq<Item>, i: nat)
    requires i < |items|
    ensures var e := LastVisible(items, i);
            NoneBetween(items, e, i + 1) && (items[e].visible || e == 0)
  {
    if i > 0 && !items[i].visible {
      LastVisibleIs(items, i - 1);
    }
  }

  // Up goes to the nearest visible row before the selected one, or to row 0 if none is, and stays
  // on row 0.
  lemma UpLeads(s: Nav)
    requires s.selection.Some? && s.selection.value < |s.items|
    ensures var s', c := Step(s, Up), s.selection.value;
            && MovesOnly(s, s')
            && var r := s'.selection.value;
            if c == 0 then r == 0
            else r < c && NoneBetween(s.items, r, c) && (s.items[r].visible || r == 0)
  {
    UpTargetIs(s.items, s.selection.value);
  }

  // Down goes to the nearest visible row after it, or to the last row if none is, and stays on the
  // last row.
  lemma DownLeads(s: Nav)
    requires s.selection.Some? && s.selection.value < |s.items|
    ensures var s', c, last := Step(s, Down), s.selection.value, |s.items| - 1;
            && MovesOnly(s, s')
            && var r := s'.selection.value;
            if c == last then r == last
            else c < r && NoneBetween(s.items, c, r) && (s.items[r].visible || r == last)
  {
    DownTargetIs(s.items, s.selection.value);
  }

  lemma TopLeads(s: Nav)
    requires s.selection.Some? && s.selection.value < |s.items|
    ensures MovesOnly(s, Step(s, Top)) && Step(s, Top).selection == Some(0)
  {
  }

  // End goes to the last visible row, or to row 0 if none is.
  lemma EndLeads(s: Nav)
    requires s.selection.Some? && s.selection.value < |s.items|
    ensures var s' := Step(s, End);
            && MovesOnly(s, s')
            && var r := s'.selection.value;
            NoneBetween(s.items, r, |s.items|) && (s.items[r].visible || r == 0)
  {
    LastVisibleIs(s.items, |s.items| - 1);
  }

  lemma PageKeysDoNothing(s: Nav)
    requires s.selection.Some? ==> s.selection.value < |s.items|
    ensures Step(s, PageUp) == s && Step(s, PageDown) == s
  {
  }

  // Left closes an open directory: the row stays selected, and what is inside is hidden.
  lemma LeftCloses(s: Nav)
    requires s.selection.Some? && s.selection.value < |s.items|
    requires s.items[s.selection.value].kind == Directory(false)
    ensures var s', c := Step(s, Left), s.selection.value;
            && s'.selection == s.selection && s'.visual == s.visual && SameRows(s.items, s'.items)
            && (forall i | 0 <= i < |s.items| ::
                  && s'.items[i].IsCollapsed() == (i == c || s.items[i].IsCollapsed())
                  && s'.items[i].visible == (s.items[i].visible && !(s.items[c].fullPath < s.items[i].fullPath)))
  {
  }

  // Right does nothing on a file.
  lemma RightOnFileStays(s: Nav)
    requires s.selection.Some? && s.selection.value < |s.items|
    requires s.items[s.selection.value].kind.File?
    ensures Step(s, Right) == s
  {
  }

  // Right goes from an open directory where Down goes.
  lemma RightEnters(s: Nav)
    requires s.selection.Some? && s.selection.value < |s.items|
    requires s.items[s.selection.value].kind == Directory(false)
    ensures Step(s, Right) == Step(s, Down)
  {
  }

  // Right opens a closed directory: the row stays selected, and of what is inside the rows below no
  // closed directory inside it are shown.
  lemma RightOpens(s: Nav)
    requires s.selection.Some? && s.selection.value < |s.items|
    requires s.items[s.selection.value].kind == Directory(true)
    ensures var s', c := Step(s, Right), s.selection.value;
            && s'.selection == s.selection && s'.visual == s.visual && SameRows(s.items, s'.items)
            && (forall i | 0 <= i < |s.items| ::
                  && s'.items[i].IsCollapsed() == (i != c && s.items[i].IsCollapsed())
                  && s'.items[i].visible
                     == (s.items[i].visible
                         || (s.items[c].fullPath < s.items[i].fullPath && !CoveredWithin(s.items, c, i))))
  {
    ExpandOneShowsUncovered(s.items, s.selection.value);
  }

  // ---------------------------------------------------------------------------------------------
  // From a safe state

  // Up selects the last visible row before the selected one; on row 0 it does nothing.
  lemma UpFromSafe(s: Nav)
    requires Safe(s)
    ensures var s', c := Step(s, Up), s.selection.value;
            && MovesOnly(s, s')
            && var r := s'.selection.value;
            s.items[r].visible && if c == 0 then r == 0 else r < c && NoneBetween(s.items, r, c)
  {
    UpLeads(s);
    FirstRowVisible(s.items);
  }

  // Down selects the first visible row after it, if there is one.
  lemma DownFromSafe(s: Nav)
    requires Safe(s) && exists k | s.selection.value < k < |s.items| :: s.items[k].visible
    ensures var s', c := Step(s, Down), s.selection.value;
            && MovesOnly(s, s')
            && var r := s'.selection.value;
            s.items[r].visible && c < r && NoneBetween(s.items, c, r)
  {
    DownLeads(s);
  }

  lemma EndFromSafe(s: Nav)
    requires Safe(s)
    ensures var s' := Step(s, End);
            && MovesOnly(s, s')
            && var r := s'.selection.value;
            s.items[r].visible && NoneBetween(s.items, r, |s.items|)
  {
    EndLeads(s);
    FirstRowVisible(s.items);
  }
}
