// The object graph git keeps: objects, the objects they refer to, and what is reachable.
module CommitGraph {

  type Oid = string

  // Every object there ever is, with the objects it refers to. Objects never change.
  type Links = map<Oid, set<Oid>>

  // A set of objects that lacks nothing its members refer to.
  ghost predicate Closed(links: Links, s: set<Oid>)
  {
    s <= links.Keys && forall c <- s :: links[c] <= s
  }

  // No object refers to one that does not exist.
  ghost predicate Complete(links: Links)
  {
    Closed(links, links.Keys)
  }

  // The objects reachable from the roots: the least closed set that holds them.
  ghost function Reach(links: Links, roots: set<Oid>): set<Oid>
  {
    set c | c in links.Keys && forall s: set<Oid> | Closed(links, s) && roots <= s :: c in s
  }

  lemma ReachIsClosed(links: Links, roots: set<Oid>)
    requires Complete(links)
    ensures Closed(links, Reach(links, roots))
  {
  }

  lemma ReachHoldsRoots(links: Links, roots: set<Oid>)
    requires roots <= links.Keys
    ensures roots <= Reach(links, roots)
  {
  }

  lemma ReachIsLeast(links: Links, roots: set<Oid>, s: set<Oid>)
    requires Closed(links, s) && roots <= s
    ensures Reach(links, roots) <= s
  {
  }

  lemma ClosedUnion(links: Links, a: set<Oid>, b: set<Oid>)
    requires Closed(links, a) && Closed(links, b)
    ensures Closed(links, a + b)
  {
  }

  // A walk along references.
  ghost predicate IsWalk(links: Links, p: seq<Oid>)
  {
    && p != []
    && (forall i | 0 <= i < |p| :: p[i] in links)
    && (forall i, j | 0 <= i < |p| && j == i + 1 && j < |p| :: p[j] in links[p[i]])
  }

  ghost predicate Walkable(links: Links, roots: set<Oid>, c: Oid)
  {
    exists p: seq<Oid> :: IsWalk(links, p) && p[0] in roots && p[|p| - 1] == c
  }

  lemma WalkStaysInside(links: Links, p: seq<Oid>, s: set<Oid>)
    requires IsWalk(links, p) && Closed(links, s) && p[0] in s
    ensures p[|p| - 1] in s
  {
    if |p| > 1 {
      var n := |p| - 1;
      WalkStaysInside(links, p[..n], s);
      assert p[..n][n - 1] == p[n - 1];
      assert links[p[n - 1]] <= s;
      assert p[n] in links[p[n - 1]];
    }
  }

  // The least closed set is what can be walked to.
  lemma ReachIsWalkable(links: Links, roots: set<Oid>, c: Oid)
    requires Complete(links) && roots <= links.Keys
    ensures c in Reach(links, roots) <==> Walkable(links, roots, c)
  {
    if Walkable(links, roots, c) {
      ReachIsClosed(links, roots);
      var p :| IsWalk(links, p) && p[0] in roots && p[|p| - 1] == c;
      WalkStaysInside(links, p, Reach(links, roots));
    }
    if c in Reach(links, roots) {
      var walked := set d | d in links.Keys && Walkable(links, roots, d);
      forall d | d in walked
        ensures links[d] <= walked
      {
        var p :| IsWalk(links, p) && p[0] in roots && p[|p| - 1] == d;
        forall e | e in links[d]
          ensures e in walked
        {
          assert links[d] <= links.Keys;
          var q := p + [e];
          assert IsWalk(links, q) && q[0] == p[0] && q[|q| - 1] == e;
        }
      }
      forall d | d in roots
        ensures d in walked
      {
        assert IsWalk(links, [d]) && [d][0] == d;
      }
      assert Closed(links, walked);
    }
  }
}
