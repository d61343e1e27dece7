// Which number's digits the spigot prints: the loop state is the exact composition of the consumed
// terms, shifted by the emitted digits, and an emitted digit is never revised.
module PiDigits {
  import opened PiSeries
  import opened PiSpigot

  function Pow10(m: nat): real
  {
    if m == 0 then 1.0 else 10.0 * Pow10(m - 1)
  }

  // The integer a digit string denotes.
  function Value(digits: seq<int>): int
  {
    if digits == [] then 0 else 10 * Value(digits[..|digits| - 1]) + digits[|digits| - 1]
  }

  // 10^m * S_c(x) - 10 * D
  function Remaining(p: Progress, x: real): real
  {
    Times(Pow10(|p.digits|), Composition(p.consumed, x)) - 10.0 * Value(p.digits) as real
  }

  // The map of the state, scaled by its denominator: q*x + r.
  function Numerator(s: Spigot, x: real): real
  {
    Times(s.q as real, x) + s.r as real
  }

  lemma TimesOfInts(a: int, b: int)
    ensures Times(a as real, b as real) == (a * b) as real
  {
  }

  // Consuming composes the state's map with the term that the state is about to consume.
  lemma ConsumeComposes(s: Spigot, x: real)
    requires s.k >= 1 && s.l == 2 * s.k + 1 && s.t * s.l != 0
    ensures Numerator(s.Consume(), x) == Times(Numerator(s, Term(s.k, x)), s.l as real)
  {
  }

  lemma EmitShifts(s: Spigot, x: real)
    requires s.t != 0
    ensures Numerator(s.Emit(), x) == 10.0 * (Numerator(s, x) - Times(s.n as real, s.t as real))
  {
    var q := s.q as real;
    TimesOfInts(s.n, s.t);
    TimesAssociates(10.0, q, x);
    assert (s.q * 10) as real == Times(10.0, q);
  }

  ghost predicate Conserved(p: Progress, x: real)
  {
    Numerator(p.s, x) == Times(p.s.t as real, Remaining(p, x))
  }

  // The mutable state refines the exact composition: (q*x + r) / t = 10^m * S_c(x) - 10 * D for
  // every x, after any number of iterations.
  lemma {:induction false} StreamingConservesValue(i: nat, x: real)
    ensures Conserved(Run(i), x)
  {
    if i == 0 {
      StartConserves(x);
    } else {
      StreamingConservesValue(i - 1, Preimage(Run(i - 1), x));
      StepConserves(i - 1, x);
    }
  }

  // The point at which the state before a step takes the value the next state takes at x.
  function Preimage(p: Progress, x: real): real
  {
    if p.s.Ready() then x else Term(p.consumed + 1, x)
  }

  lemma StepConserves(i: nat, x: real)
    requires Conserved(Run(i), Preimage(Run(i), x))
    ensures Conserved(Run(i + 1), x)
  {
    if Run(i).s.Ready() {
      EmitStepConserves(i, x);
    } else {
      ConsumeStepConserves(i, x);
    }
  }

  lemma StartConserves(x: real)
    ensures Conserved(Progress(START, 0, []), x)
  {
  }

  lemma EmitStepConserves(i: nat, x: real)
    requires Run(i).s.Ready() && Conserved(Run(i), x)
    ensures Conserved(Run(i + 1), x)
  {
    EmitKeepsRemaining(Run(i), x);
  }

  lemma ConsumeStepConserves(i: nat, x: real)
    requires !Run(i).s.Ready() && Conserved(Run(i), Term(Run(i).consumed + 1, x))
    ensures Conserved(Run(i + 1), x)
  {
    RunKeepsLinks(i);
    ConsumeKeepsRemaining(Run(i), x);
  }

  lemma {:induction false} RunKeepsLinks(i: nat)
    ensures Run(i).s.k == Run(i).consumed + 1 && Run(i).s.l == 2 * Run(i).s.k + 1
  {
    RunKeepsInv(i);
  }

  lemma ConsumeKeepsRemaining(p: Progress, x: real)
    requires p.s.k == p.consumed + 1 && p.s.l == 2 * p.s.k + 1 && p.s.t > 0
    requires Conserved(p, Term(p.consumed + 1, x))
    ensures p.s.t * p.s.l > 0
    ensures Conserved(Progress(p.s.Consume(), p.consumed + 1, p.digits), x)
  {
    MulPositive(p.s.t, p.s.l);
    ConsumeComposes(p.s, x);
    TimesOfInts(p.s.t, p.s.l);
    TimesSwap(p.s.t as real, Remaining(p, Term(p.s.k, x)), p.s.l as real);
  }

  lemma TimesSwap(a: real, b: real, c: real)
    ensures Times(Times(a, b), c) == Times(Times(a, c), b)
  {
  }

  lemma EmitKeepsRemaining(p: Progress, x: real)
    requires p.s.t != 0
    requires Conserved(p, x)
    ensures Conserved(Progress(p.s.Emit(), p.consumed, p.digits + [p.s.n]), x)
  {
    var p' := Progress(p.s.Emit(), p.consumed, p.digits + [p.s.n]);
    var t, n, v := p.s.t as real, p.s.n as real, Remaining(p, x);
    EmitShifts(p.s, x);
    assert p'.digits[..|p'.digits| - 1] == p.digits;
    TimesAssociates(10.0, Pow10(|p.digits|), Composition(p.consumed, x));
    assert Remaining(p', x) == 10.0 * v - 10.0 * n;
    TimesCommutes(t, Remaining(p', x));
    TimesDistributes(Times(10.0, v), Times(10.0, n), t);
    TimesAssociates(10.0, v, t);
    TimesAssociates(10.0, n, t);
    TimesCommutes(v, t);
  }

  // While at least one digit is out, what remains lies in [0, 10) on the whole of [3, 4].
  lemma {:induction false} RemainingIsBounded(i: nat, x: real)
    requires Run(i).digits != [] && 3.0 <= x <= 4.0
    ensures 0.0 <= Remaining(Run(i), x) < 10.0
  {
    var p := Run(i);
    var q, t, v := p.s.q as real, p.s.t as real, Remaining(p, x);
    StreamingConservesValue(i, x);
    RunKeepsInv(i);
    TimesMonotone(3.0, x, q);
    TimesMonotone(x, 4.0, q);
    TimesCommutes(q, x);
    assert Times(3.0, q) == 3.0 * q && Times(4.0, q) == 4.0 * q;
    assert 0.0 <= Numerator(p.s, x) < 10.0 * t;
    TimesCommutes(t, v);
    assert Times(0.0, t) == 0.0 && Times(10.0, t) == 10.0 * t;
    TimesMonotone(0.0, v, t);
    TimesMonotone(v, 10.0, t);
  }

  // Emitted digits are never revised: once D is out, every longer composition of the series, at
  // every point of [3, 4], still has D as the integer part of its (m - 1)-fold decimal shift.
  lemma {:induction false} DigitsAreNeverRevised(i: nat, K: nat, x: real)
    requires Run(i).digits != [] && Run(i).consumed <= K && 3.0 <= x <= 4.0
    ensures var D, m := Value(Run(i).digits) as real, |Run(i).digits|;
            D <= Times(Pow10(m - 1), Composition(K, x)) < D + 1.0
  {
    var p := Run(i);
    var y := Inner(p.consumed + 1, K, x);
    CompositionSplits(p.consumed, K, x);
    RemainingIsBounded(i, y);
    TimesAssociates(10.0, Pow10(|p.digits| - 1), Composition(p.consumed, y));
  }

  lemma {:induction false} Pow10Positive(m: nat)
    ensures Pow10(m) > 0.0
  {
    if m > 0 {
      Pow10Positive(m - 1);
    }
  }

  // The digits are those of the limit of the series: D is the floor of 10^(m-1) times the limit.
  lemma {:induction false} DigitsAreThoseOfTheLimit(i: nat, p: real)
    requires Run(i).digits != [] && IsLimit(p)
    ensures Value(Run(i).digits) == (Times(Pow10(|Run(i).digits| - 1), p)).Floor
  {
    var c, f := Run(i).consumed, Pow10(|Run(i).digits| - 1);
    DigitsAreNeverRevised(i, c, 3.0);
    DigitsAreNeverRevised(i, c, 4.0);
    Pow10Positive(|Run(i).digits| - 1);
    TimesMonotone(Composition(c, 3.0), p, f);
    TimesMonotone(p, Composition(c, 4.0), f);
    TimesCommutes(f, p);
    TimesCommutes(f, Composition(c, 3.0));
    TimesCommutes(f, Composition(c, 4.0));
  }
}
