// Relative paths as sequences of component names, and their text.
module Paths {

  type Path = seq<string>

  // A component of a relative path: no separator inside, not empty.
  predicate IsName(name: string)
  {
    name != "" && '/' !in name
  }

  predicate IsPath(p: Path)
  {
    p != [] && forall c <- p :: IsName(c)
  }

  // Path::starts_with compares whole components.
  predicate StartsWith(p: Path, prefix: Path)
  {
    prefix <= p
  }

  // The directory d is a proper ancestor of p.
  predicate Above(d: Path, p: Path)
  {
    d < p
  }

  lemma AboveIsTransitive(a: Path, b: Path, c: Path)
    requires Above(a, b) && Above(b, c)
    ensures Above(a, c)
  {
  }

  // Path::parent of a non-empty path.
  function Parent(p: Path): Path
    requires p != []
  {
    p[..|p| - 1]
  }

  // The text of a path: its components joined by '/'.
  function Text(p: Path): string
  {
    if |p| == 0 then "" else if |p| == 1 then p[0] else Text(Parent(p)) + "/" + p[|p| - 1]
  }

  lemma {:induction false} TextGrows(d: Path, p: Path)
    requires d != [] && Above(d, p)
    ensures Text(d) + "/" <= Text(p)
    decreases |p|
  {
    if Parent(p) != d {
      TextGrows(d, Parent(p));
    }
  }

  lemma NoSeparatorInside(a: string, rest: string)
    requires '/' !in a
    ensures forall i :: 0 <= i < |a| ==> (a + "/" + rest)[i] != '/'
  {
  }

  // No component of d can reach past the separator that follows it.
  lemma SeparatorAligns(a: string, rest: string, b: string, rest': string)
    requires '/' !in a && '/' !in b
    requires a + "/" + rest == b + "/" + rest'
    ensures a == b && rest == rest'
  {
    var s := a + "/" + rest;
    assert s[|a|] == '/' && s[|b|] == '/';
    NoSeparatorInside(a, rest);
    NoSeparatorInside(b, rest');
    assert a == s[..|a|] && b == s[..|b|];
    assert rest == s[|a| + 1..] && rest' == s[|b| + 1..];
  }

  // The text with the first component split off.
  lemma {:induction false} TextFromHead(p: Path)
    requires |p| >= 2
    ensures Text(p) == p[0] + "/" + Text(p[1..])
    decreases |p|
  {
    if |p| > 2 {
      TextFromHead(Parent(p));
      assert Parent(p)[1..] == Parent(p[1..]);
    }
  }

  // A textual prefix that ends at a separator shares the first component, and what follows it is
  // such a prefix again.
  lemma {:induction false} TextPrefixHead(d: Path, p: Path)
    requires IsPath(d) && IsPath(p) && Text(d) + "/" <= Text(p)
    ensures |p| > 1 && d[0] == p[0]
    ensures |d| > 1 ==> Text(d[1..]) + "/" <= Text(p[1..])
  {
    assert IsName(p[0]) && IsName(d[0]);
    assert Text(p)[|Text(d)|] == '/';
    TextFromHead(p);
    var tail := Text(p)[|Text(d)| + 1..];
    assert Text(p) == Text(d) + "/" + tail;
    if |d| == 1 {
      SeparatorAligns(d[0], tail, p[0], Text(p[1..]));
    } else {
      TextFromHead(d);
      assert Text(p) == d[0] + "/" + (Text(d[1..]) + "/" + tail);
      SeparatorAligns(d[0], Text(d[1..]) + "/" + tail, p[0], Text(p[1..]));
    }
  }

  // A textual prefix that ends at a separator is a prefix by components.
  lemma {:induction false} TextPrefixIsAncestor(d: Path, p: Path)
    requires IsPath(d) && IsPath(p)
    requires Text(d) + "/" <= Text(p)
    ensures Above(d, p)
    decreases |d|
  {
    TextPrefixHead(d, p);
    if |d| > 1 {
      TextPrefixIsAncestor(d[1..], p[1..]);
    }
    assert d == [d[0]] + d[1..] && p == [p[0]] + p[1..];
  }
}
