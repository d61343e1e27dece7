// The series whose terms the spigot consumes.
//
// Term k of the series is the linear map z_k(x) = (k*x + 4k + 2) / (2k + 1). The number the program
// streams is the limit of z_1(z_2(...z_K(x))) for any x in [3, 4]. This file knows nothing about
// the program's integers: it fixes what the digits are digits of.
module PiSeries {

  // z_k
  function Term(k: nat, x: real): real
  {
    (k as real * x + (4 * k + 2) as real) / (2 * k + 1) as real
  }

  // S_c(x) = z_1(z_2(...z_c(x)))
  function Composition(c: nat, x: real): real
  {
    if c == 0 then x else Composition(c - 1, Term(c, x))
  }

  // z_first(z_{first+1}(...z_last(x)))
  function Inner(first: nat, last: nat, x: real): real
  {
    if last < first || last == 0 then x else Inner(first, last - 1, Term(last, x))
  }

  // p lies in every bracket [S_K(3), S_K(4)]; the series converges to the only such number.
  ghost predicate IsLimit(p: real)
  {
    forall K: nat :: Composition(K, 3.0) <= p <= Composition(K, 4.0)
  }

  function Pow2(n: nat): real
  {
    if n == 0 then 1.0 else 2.0 * Pow2(n - 1)
  }

  // The solver handles products of reals poorly once several meet in one query, so the few facts
  // needed about them are stated through a named product.
  function Times(a: real, b: real): real
  {
    a * b
  }

  lemma TimesCommutes(a: real, b: real)
    ensures Times(a, b) == Times(b, a)
  {
  }

  lemma TimesDistributes(a: real, b: real, c: real)
    ensures Times(a - b, c) == Times(a, c) - Times(b, c)
    ensures Times(a + b, c) == Times(a, c) + Times(b, c)
  {
  }

  lemma TimesAssociates(a: real, b: real, c: real)
    ensures Times(Times(a, b), c) == Times(a, Times(b, c))
  {
  }

  // a <= b is preserved and reflected by a positive factor.
  lemma TimesMonotone(a: real, b: real, c: real)
    requires c > 0.0
    ensures a <= b <==> Times(a, c) <= Times(b, c)
    ensures a < b <==> Times(a, c) < Times(b, c)
  {
  }

  lemma TermScaled(k: nat, x: real)
    ensures Times(Term(k, x), (2 * k + 1) as real) == Times(k as real, x) + 4.0 * k as real + 2.0
  {
  }

  // Every term maps [3, 4] into itself and at least halves distances.
  lemma TermNests(k: nat, x: real)
    requires k >= 1 && 3.0 <= x <= 4.0
    ensures 3.0 <= Term(k, x) <= 4.0
  {
    var l, a := (2 * k + 1) as real, k as real;
    assert Times(3.0, a) == 3.0 * a && Times(4.0, a) == 4.0 * a;
    assert Times(3.0, l) == 3.0 * l && Times(4.0, l) == 4.0 * l;
    TimesMonotone(3.0, x, a);
    TimesMonotone(x, 4.0, a);
    TimesCommutes(a, x);
    TermScaled(k, x);
    TimesMonotone(3.0, Term(k, x), l);
    TimesMonotone(Term(k, x), 4.0, l);
  }

  lemma TermContracts(k: nat, x: real, y: real)
    requires x <= y
    ensures 0.0 <= Term(k, y) - Term(k, x) <= (y - x) / 2.0
  {
  }

  // Splitting a long composition at the c-th term leaves an argument that is again in [3, 4].
  lemma CompositionSplits(c: nat, K: nat, x: real)
    requires c <= K && 3.0 <= x <= 4.0
    ensures 3.0 <= Inner(c + 1, K, x) <= 4.0
    ensures Composition(K, x) == Composition(c, Inner(c + 1, K, x))
    decreases K
  {
    if c < K {
      TermNests(K, x);
      CompositionSplits(c, K - 1, Term(K, x));
    }
  }

  lemma {:induction false} CompositionContracts(c: nat, x: real, y: real)
    requires x <= y
    ensures 0.0 <= Composition(c, y) - Composition(c, x)
    ensures Times(Composition(c, y) - Composition(c, x), Pow2(c)) <= y - x
  {
    if c > 0 {
      TermContracts(c, x, y);
      var u, v := Term(c, x), Term(c, y);
      CompositionContracts(c - 1, u, v);
      var d := Composition(c - 1, v) - Composition(c - 1, u);
      TimesCommutes(d, Pow2(c - 1));
      TimesCommutes(d, Pow2(c));
      TimesDistributes(Pow2(c - 1), Pow2(c - 1), d);
    }
  }

  lemma {:induction false} Pow2Grows(n: nat)
    ensures Pow2(n) >= (n + 1) as real
  {
    if n > 0 {
      Pow2Grows(n - 1);
    }
  }

  // The brackets pin down at most one number.
  lemma LimitIsUnique(p: real, p': real)
    requires IsLimit(p) && IsLimit(p')
    ensures p == p'
  {
    LimitsNotApart(p, p');
    LimitsNotApart(p', p);
  }

  lemma LimitsNotApart(p: real, p': real)
    requires IsLimit(p) && IsLimit(p')
    ensures p' <= p
  {
    if p < p' {
      var gap := p' - p;
      var inv := 1.0 / gap;
      assert Times(inv, gap) == 1.0;
      var K: nat := inv.Floor + 1;
      CompositionContracts(K, 3.0, 4.0);
      Pow2Grows(K);
      ScaledGap(gap, inv, Pow2(K), Composition(K, 4.0) - Composition(K, 3.0));
    }
  }

  lemma ScaledGap(gap: real, inv: real, scale: real, width: real)
    requires gap > 0.0 && Times(inv, gap) == 1.0 && scale > inv && scale > 0.0 && gap <= width
    ensures Times(width, scale) > 1.0
  {
  }
}
