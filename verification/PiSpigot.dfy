// The streaming digit loop of gnostr-pi.
//
// One iteration either emits a digit or consumes one more term of the series in PiSeries. The two
// loops of the program are methods here; Run and Output describe them as functions, and the lemmas
// say which number's digits come out.
module PiSpigot {

  // The loop variables of the program (all unbounded integers).
  datatype Spigot = Spigot(q: int, r: int, t: int, k: int, n: int, l: int) {

    // The test of the emit branch.
    predicate Ready()
    {
      q * 4 + r - t < n * t
    }

    function Emit(): Spigot
      requires t != 0
    {
      Spigot(q * 10, (r - n * t) * 10, t, k, TruncDiv((q * 3 + r) * 10, t) - n * 10, l)
    }

    function Consume(): Spigot
      requires t * l != 0
    {
      Spigot(q * k, (q * 2 + r) * l, t * l, k + 1, TruncDiv(q * k * 7 + 2 + r * l, t * l), l + 2)
    }
  }

  // Integer division of the program's big integers: it rounds toward zero.
  function TruncDiv(a: int, b: int): int
    requires b != 0
  {
    var m := (if a < 0 then -a else a) / (if b < 0 then -b else b);
    if (a < 0) != (b < 0) then -m else m
  }

  const START := Spigot(1, 0, 1, 1, 3, 3)

  // What one step needs and keeps. With f(x) = (q*x + r) / t it says 0 <= f(3), that n never exceeds
  // f(3), and where f(4) lies: at most 4 before the leading digit, below 10 after it.
  predicate Inv(s: Spigot, consumed: nat, started: bool)
  {
    && s.k == consumed + 1
    && s.l == 2 * s.k + 1
    && s.q > 0
    && s.t > 0
    && 3 * s.q + s.r >= 0
    && s.n * s.t <= 3 * s.q + s.r
    && (if started then 4 * s.q + s.r < 10 * s.t
        else 3 * s.t <= 3 * s.q + s.r && 4 * s.q + s.r <= 4 * s.t)
  }

  // ---------------------------------------------------------------------------------------------
  // Integer arithmetic of one step

  lemma TruncDivBelow(a: int, b: int)
    requires b > 0
    ensures a >= 0 ==> TruncDiv(a, b) * b <= a
    ensures a < 0 ==> TruncDiv(a, b) * b <= 0
  {
  }

  lemma MulPositive(a: int, b: int)
    requires a > 0 && b > 0
    ensures a * b > 0
  {
  }

  lemma MulAtLeast(a: int, b: int, c: int)
    requires a <= b && c >= 0
    ensures a * c <= b * c
  {
  }

  lemma MulBelow(a: int, b: int, c: int)
    requires a < b && c > 0
    ensures a * c < b * c
  {
  }

  lemma Reassociate(a: int, b: int, c: int)
    ensures a * b * c == a * (b * c)
  {
  }

  // The new bounds of a consume step, expressed through the old ones.
  lemma ConsumeBounds(q: int, r: int, k: int, l: int)
    requires l == 2 * k + 1
    ensures 3 * (q * k) + (q * 2 + r) * l == (3 * q + r) * l + q * (k - 1)
    ensures 4 * (q * k) + (q * 2 + r) * l == (4 * q + r) * l - 2 * q
    ensures q * k * 7 + 2 + r * l == 3 * (q * k) + (q * 2 + r) * l - 2 * q + 2
  {
  }

  lemma ConsumeKeepsLower(s: Spigot, consumed: nat, started: bool)
    requires Inv(s, consumed, started)
    ensures s.t * s.l > 0
    ensures var s' := s.Consume();
            3 * s'.q + s'.r >= (3 * s.q + s.r) * s.l >= 0 && s'.n * s'.t <= 3 * s'.q + s'.r
  {
    var Spigot(q, r, t, k, n, l) := s;
    ConsumeBounds(q, r, k, l);
    MulPositive(t, l);
    MulAtLeast(0, q, k - 1);
    MulAtLeast(0, 3 * q + r, l);
    TruncDivBelow(q * k * 7 + 2 + r * l, t * l);
  }

  lemma ConsumeKeepsUpper(s: Spigot, consumed: nat, started: bool)
    requires Inv(s, consumed, started)
    ensures s.t * s.l > 0
    ensures var s' := s.Consume();
            if started then 4 * s'.q + s'.r < 10 * s'.t
            else 3 * s'.t <= (3 * s.q + s.r) * s.l && 4 * s'.q + s'.r <= 4 * s'.t
  {
    var Spigot(q, r, t, k, n, l) := s;
    ConsumeBounds(q, r, k, l);
    MulPositive(t, l);
    Reassociate(10, t, l);
    Reassociate(4, t, l);
    Reassociate(3, t, l);
    if started {
      MulBelow(4 * q + r, 10 * t, l);
    } else {
      MulAtLeast(3 * t, 3 * q + r, l);
      MulAtLeast(4 * q + r, 4 * t, l);
    }
  }

  lemma ConsumeKeepsInv(s: Spigot, consumed: nat, started: bool)
    requires Inv(s, consumed, started)
    ensures s.t * s.l > 0
    ensures Inv(s.Consume(), consumed + 1, started)
  {
    ConsumeKeepsLower(s, consumed, started);
    ConsumeKeepsUpper(s, consumed, started);
    MulPositive(s.q, s.k);
  }

  // When the test passes, the guess is the digit: the whole bracket f([3, 4]) lies in [n, n + 1).
  lemma GuessIsExact(s: Spigot, consumed: nat, started: bool)
    requires Inv(s, consumed, started) && s.Ready()
    ensures s.n == (3 * s.q + s.r) / s.t == (4 * s.q + s.r) / s.t
    ensures started ==> 0 <= s.n <= 9
    ensures !started ==> s.n == 3
  {
    var n, t, lo, hi := s.n, s.t, 3 * s.q + s.r, 4 * s.q + s.r;
    QuotientIs(lo, t, n);
    QuotientIs(hi, t, n);
    DigitRange(n, t, lo, hi, started);
  }

  lemma DigitRange(n: int, t: int, lo: int, hi: int, started: bool)
    requires t > 0 && 0 <= lo < hi && n * t <= lo && hi < n * t + t
    requires if started then hi < 10 * t else 3 * t <= lo && hi <= 4 * t
    ensures if started then 0 <= n <= 9 else n == 3
  {
    assert (n + 1) * t == n * t + t;
    if started {
      FactorBelow(0, n + 1, t);
      FactorBelow(n, 10, t);
    } else {
      FactorBelow(3, n + 1, t);
      FactorBelow(n, 4, t);
    }
  }

  lemma FactorBelow(a: int, b: int, c: int)
    requires c > 0 && a * c < b * c
    ensures a < b
  {
    if a >= b {
      MulAtLeast(b, a, c);
    }
  }

  // The guess never exceeds the digit, and the test passes exactly when it reaches the digit at 4.
  lemma ReadyIff(s: Spigot, consumed: nat, started: bool)
    requires Inv(s, consumed, started)
    ensures s.Ready() <==> s.n == (4 * s.q + s.r) / s.t
    ensures s.n <= (3 * s.q + s.r) / s.t <= (4 * s.q + s.r) / s.t
  {
    var t, lo, hi := s.t, 3 * s.q + s.r, 4 * s.q + s.r;
    QuotientIff(hi, t, s.n);
    QuotientAtLeast(lo, t, s.n);
    QuotientGrows(lo, hi, t);
  }

  lemma QuotientIff(a: int, b: int, n: int)
    requires b > 0 && n * b <= a
    ensures a - b < n * b <==> n == a / b
  {
    if a - b < n * b {
      QuotientIs(a, b, n);
    } else {
      assert (n + 1) * b == n * b + b;
      QuotientAtLeast(a, b, n + 1);
    }
  }

  lemma QuotientGrows(a: int, a': int, b: int)
    requires b > 0 && a <= a'
    ensures a / b <= a' / b
  {
    assert a == (a / b) * b + a % b;
    QuotientAtLeast(a', b, a / b);
  }

  lemma QuotientAtLeast(a: int, b: int, n: int)
    requires b > 0 && n * b <= a
    ensures n <= a / b
  {
    assert a == (a / b) * b + a % b;
    if n > a / b {
      MulAtLeast(a / b + 1, n, b);
      assert false;
    }
  }

  lemma QuotientIs(a: int, b: int, n: int)
    requires b > 0 && n * b <= a < n * b + b
    ensures a / b == n
  {
    var e := a / b - n;
    assert a == (a / b) * b + a % b;
    assert e * b == (a / b) * b - n * b;
    if e > 0 { MulAtLeast(1, e, b); assert false; }
    if e < 0 { MulAtLeast(e, -1, b); assert false; }
  }

  lemma EmitKeepsInv(s: Spigot, consumed: nat, started: bool)
    requires Inv(s, consumed, started) && s.Ready()
    ensures Inv(s.Emit(), consumed, true)
  {
    var Spigot(q, r, t, k, n, l) := s;
    TruncDivBelow((q * 3 + r) * 10, t);
    var d := TruncDiv((q * 3 + r) * 10, t);
    assert (d - n * 10) * t == d * t - 10 * (n * t);
  }

  // ---------------------------------------------------------------------------------------------
  // Runs

  // Where a run stands after some iterations; `digits` includes the leading 3, which is not printed.
  datatype Progress = Progress(s: Spigot, consumed: nat, digits: seq<int>)

  // The run after i iterations.
  function Run(i: nat): (p: Progress)
    ensures p.s.t > 0 && p.s.l > 0
    ensures p.consumed + |p.digits| == i
  {
    if i == 0 then Progress(START, 0, []) else
      var p := Run(i - 1);
      MulPositive(p.s.t, p.s.l);
      if p.s.Ready()
      then Progress(p.s.Emit(), p.consumed, p.digits + [p.s.n])
      else Progress(p.s.Consume(), p.consumed + 1, p.digits)
  }

  lemma {:induction false} RunKeepsInv(i: nat)
    ensures Inv(Run(i).s, Run(i).consumed, Run(i).digits != [])
  {
    if i > 0 {
      RunKeepsInv(i - 1);
      var p := Run(i - 1);
      if p.s.Ready() {
        EmitKeepsInv(p.s, p.consumed, p.digits != []);
      } else {
        ConsumeKeepsInv(p.s, p.consumed, p.digits != []);
      }
    }
  }

  // The states of the first iterations.
  const ONE := Spigot(1, 6, 3, 2, 3, 5)
  const TWO := Spigot(10, -30, 3, 2, 0, 5)
  const THREE := Spigot(20, -50, 15, 3, 0, 7)
  const FOUR := Spigot(60, -70, 105, 4, 0, 9)

  lemma FirstSteps()
    ensures !START.Ready() && START.Consume() == ONE
    ensures ONE.Ready() && ONE.Emit() == TWO && [] + [ONE.n] == [3]
    ensures !TWO.Ready() && TWO.Consume() == THREE
    ensures !THREE.Ready() && THREE.Consume() == FOUR
  {
  }

  lemma RunConsumes(i: nat, s: Spigot, s': Spigot, consumed: nat, digits: seq<int>)
    requires Run(i) == Progress(s, consumed, digits) && s.t > 0 && s.l > 0
    requires s.t * s.l > 0 && !s.Ready() && s.Consume() == s'
    ensures Run(i + 1) == Progress(s', consumed + 1, digits)
  {
  }

  lemma RunEmits(i: nat, s: Spigot, s': Spigot, consumed: nat, digits: seq<int>, digits': seq<int>)
    requires Run(i) == Progress(s, consumed, digits) && s.t > 0 && s.Ready() && s.Emit() == s'
    requires digits' == digits + [s.n]
    ensures Run(i + 1) == Progress(s', consumed, digits')
  {
  }

  lemma RunOfOne(i: nat)
    requires Run(i) == Progress(START, 0, [])
    ensures Run(i + 1) == Progress(ONE, 1, [])
  {
    FirstSteps();
    RunConsumes(i, START, ONE, 0, []);
  }

  lemma RunOfTwo(i: nat)
    requires Run(i) == Progress(ONE, 1, [])
    ensures Run(i + 1) == Progress(TWO, 1, [3])
  {
    FirstSteps();
    RunEmits(i, ONE, TWO, 1, [], [3]);
  }

  lemma RunOfThree(i: nat)
    requires Run(i) == Progress(TWO, 1, [3])
    ensures Run(i + 1) == Progress(THREE, 2, [3])
  {
    FirstSteps();
    RunConsumes(i, TWO, THREE, 1, [3]);
  }

  lemma RunOfFour(i: nat)
    requires Run(i) == Progress(THREE, 2, [3])
    ensures Run(i + 1) == Progress(FOUR, 3, [3])
  {
    FirstSteps();
    RunConsumes(i, THREE, FOUR, 2, [3]);
  }

  lemma {:induction false} RunStarts(i: nat)
    requires i == 0
    ensures Run(i) == Progress(START, 0, [])
  {
  }

  lemma FourIsLow()
    ensures FOUR.n == 0 && !FOUR.Ready()
    ensures (3 * FOUR.q + FOUR.r) / FOUR.t == (4 * FOUR.q + FOUR.r) / FOUR.t == 1
  {
  }

  // After four iterations the 3 is out and the next digit, 1, is settled, as the bracket lies in
  // [1, 2). The guess is 0, so it is not emitted yet.
  lemma {:induction false} GuessIsLow(i: nat)
    requires i == 4
    ensures Run(i) == Progress(FOUR, 3, [3])
    ensures FOUR.n == 0 && !FOUR.Ready()
    ensures (3 * FOUR.q + FOUR.r) / FOUR.t == (4 * FOUR.q + FOUR.r) / FOUR.t == 1
  {
    FourIsLow();
    RunStarts(i - 4);
    RunOfOne(i - 4);
    RunOfTwo(i - 3);
    RunOfThree(i - 2);
    RunOfFour(i - 1);
  }

  // The digits printed at the iterations first, first + 1, ..., last - 1.
  function Output(first: nat, last: nat): seq<int>
  {
    if last <= first then [] else
      var p := Run(last - 1);
      Output(first, last - 1) + (if p.s.Ready() && p.digits != [] then [p.s.n] else [])
  }

  lemma OutputStep(first: nat, i: nat)
    ensures first <= i && Run(i).s.Ready() && Run(i).digits != []
            ==> Output(first, i + 1) == Output(first, i) + [Run(i).s.n]
    ensures !(first <= i && Run(i).s.Ready() && Run(i).digits != [])
            ==> Output(first, i + 1) == Output(first, i)
  {
  }

  // The two assignment blocks of the loop body; both loops of the program contain them.
  method EmitStep(s: Spigot) returns (q: int, r: int, n: int)
    requires s.t != 0
    ensures s.(q := q, r := r, n := n) == s.Emit()
  {
    var nr := (s.r - s.n * s.t) * 10;
    n := TruncDiv((s.q * 3 + s.r) * 10, s.t) - s.n * 10;
    q := s.q * 10;
    r := nr;
  }

  method ConsumeStep(s: Spigot) returns (q: int, r: int, t: int, k: int, n: int, l: int)
    requires s.t * s.l != 0
    ensures Spigot(q, r, t, k, n, l) == s.Consume()
  {
    var nr := (s.q * 2 + s.r) * s.l;
    var nn := TruncDiv(s.q * s.k * 7 + 2 + s.r * s.l, s.t * s.l);
    q := s.q * s.k;
    t := s.t * s.l;
    l := s.l + 2;
    k := s.k + 1;
    n := nn;
    r := nr;
  }

  // The loop that prints from the start. `limit` counts iterations, not digits.
  method CalculatePiDigits(limit: nat) returns (printed: seq<int>)
    ensures printed == Output(0, limit)
    ensures Run(limit).digits == if limit < 2 then [] else [3] + printed
  {
    var q, r, t, k, n, l := 1, 0, 1, 1, 3, 3;
    var first := true;
    var count := 0;
    printed := [];
    while count != limit
      invariant count <= limit
      invariant Spigot(q, r, t, k, n, l) == Run(count).s
      invariant first <==> Run(count).digits == []
      invariant printed == Output(0, count)
      decreases limit - count
    {
      OutputStep(0, count);
      MulPositive(t, l);
      if q * 4 + r - t < n * t {
        if first {
          first := false;
        } else {
          printed := printed + [n];
        }
        q, r, n := EmitStep(Spigot(q, r, t, k, n, l));
      } else {
        q, r, t, k, n, l := ConsumeStep(Spigot(q, r, t, k, n, l));
      }
      count := count + 1;
    }
    OutputTells(limit);
  }

  // The loop that stays silent for the first `offset` iterations, and altogether for offset < 5. It
  // prints what the plain run of depth + offset iterations adds to the one of `offset` iterations.
  method CalculatePiDigitsWithOffset(depth: nat, offset: nat) returns (printed: seq<int>)
    ensures offset < 5 ==> printed == []
    ensures offset >= 5 ==> Output(0, depth + offset) == Output(0, offset) + printed
    ensures offset >= 5 ==> Run(depth + offset).digits == Run(offset).digits + printed
  {
    var q, r, t, k, n, l := 1, 0, 1, 1, 3, 3;
    var first := true;
    var count := 0;
    printed := [];
    while count != depth + offset
      invariant count <= depth + offset
      invariant Spigot(q, r, t, k, n, l) == Run(count).s
      invariant first <==> Run(count).digits == []
      invariant printed == if offset >= 5 then Output(offset, count) else []
      decreases depth + offset - count
    {
      OutputStep(offset, count);
      MulPositive(t, l);
      if q * 4 + r - t < n * t {
        if first {
          first := false;
        } else {
          if count >= offset && offset >= 5 {
            printed := printed + [n];
          }
        }
        q, r, n := EmitStep(Spigot(q, r, t, k, n, l));
      } else {
        q, r, t, k, n, l := ConsumeStep(Spigot(q, r, t, k, n, l));
      }
      count := count + 1;
    }
    OutputSplits(0, offset, depth + offset);
    StartsAtTwo(offset);
    if offset >= 5 {
      LaterDigits(offset, depth + offset);
    }
  }

  // ---------------------------------------------------------------------------------------------
  // What is printed

  // The printed digits are all emitted digits but the leading one.
  lemma {:induction false} OutputIsEmittedTail(i: nat)
    ensures Output(0, i) == if Run(i).digits == [] then [] else Run(i).digits[1..]
  {
    if i > 0 {
      OutputIsEmittedTail(i - 1);
    }
  }

  // The second iteration emits the leading 3.
  lemma {:induction false} StartsAtTwo(i: nat)
    ensures Run(i).digits == [] <==> i < 2
  {
    if i == 1 {
      RunStarts(i - 1);
      RunOfOne(i - 1);
    } else if i == 2 {
      RunStarts(i - 2);
      RunOfOne(i - 2);
      RunOfTwo(i - 1);
    } else if i > 2 {
      StartsAtTwo(i - 1);
    }
  }

  lemma {:induction false} OutputTells(i: nat)
    ensures Run(i).digits == if i < 2 then [] else [3] + Output(0, i)
  {
    StartsAtTwo(i);
    OutputIsEmittedTail(i);
    DigitsAreDecimal(i);
  }

  // The digits of a run: first a 3, then decimal digits only.
  lemma {:induction false} DigitsAreDecimal(i: nat)
    ensures Run(i).digits != [] ==> Run(i).digits[0] == 3
    ensures forall d <- Run(i).digits :: 0 <= d <= 9
  {
    if i > 0 {
      DigitsAreDecimal(i - 1);
      var p := Run(i - 1);
      if p.s.Ready() {
        RunKeepsInv(i - 1);
        GuessIsExact(p.s, p.consumed, p.digits != []);
      }
    }
  }

  lemma {:induction false} OutputSplits(first: nat, mid: nat, last: nat)
    requires first <= mid <= last
    ensures Output(first, last) == Output(first, mid) + Output(mid, last)
    decreases last
  {
    if mid < last {
      OutputSplits(first, mid, last - 1);
    }
  }

  // Once the 3 is out, every digit emitted is printed.
  lemma {:induction false} LaterDigits(offset: nat, last: nat)
    requires offset <= last && Run(offset).digits != []
    ensures Run(last).digits == Run(offset).digits + Output(offset, last)
    decreases last
  {
    if offset < last {
      LaterDigits(offset, last - 1);
    }
  }

  // Running longer only appends digits, and the offset run is a window of the plain run: it prints
  // what the plain run of depth + offset iterations prints after its first `offset` iterations.
  lemma {:induction false} LongerRunExtends(shorter: nat, longer: nat)
    requires shorter <= longer
    ensures Output(0, shorter) <= Output(0, longer)
    ensures Output(0, longer) == Output(0, shorter) + Output(shorter, longer)
  {
    OutputSplits(0, shorter, longer);
  }
}
