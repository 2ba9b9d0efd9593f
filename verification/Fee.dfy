/** Blob gas price and base fee arithmetic. */
module Fee {
  import opened Common
  import opened Arithmetic

  const U256: nat := 0x1_0000000000000000_0000000000000000_0000000000000000_0000000000000000
  const U128: nat := 0x1_0000000000000000_0000000000000000

  // ---------------------------------------------------------------------------
  // The reference: the exponential of EIP-4844 on unbounded integers
  // ---------------------------------------------------------------------------

  function Quot(a: nat, b: nat): nat
    requires b > 0
  {
    a / b
  }

  function Term(a: nat, i: nat, numerator: nat, denominator: nat): nat
    requires i > 0 && denominator > 0
  {
    Quot(a * numerator, denominator * i)
  }

  /** The quotient of one term and the next, rounded down. */
  lemma TermMeans(a: nat, i: nat, numerator: nat, denominator: nat)
    requires i > 0 && denominator > 0
    ensures var next := Term(a, i, numerator, denominator);
            (denominator * i) * next <= a * numerator < (denominator * i) * (next + 1)
  {
    assert denominator * i > 0;
  }

  lemma DivHalf(a: nat, x: nat, y: nat)
    requires 2 * x < y
    ensures 2 * (a * x / y) <= a
  {
    var h := a / 2;
    MulBound(a, 2 * x, 2 * h + 1, y - 1);
    assert a * (2 * x) == 2 * (a * x);
    assert (2 * h + 1) * (y - 1) == 2 * (h * y) + y - 2 * h - 1;
    assert y * (h + 1) == h * y + y;
    DivLess(a * x, y, h + 1);
  }

  /** Once `i` passes the quotient, the terms shrink. */
  lemma TermShrinks(a: nat, i: nat, numerator: nat, denominator: nat)
    requires denominator > 0 && a > 0 && i > numerator / denominator
    ensures Term(a, i, numerator, denominator) < a
  {
    MulBound(denominator, numerator / denominator + 1, denominator, i);
    MulBound(a, numerator + 1, a, denominator * i);
    DivLess(a * numerator, denominator * i, a);
  }

  /** The sum of the terms from the i-th on. */
  function Series(a: nat, i: nat, numerator: nat, denominator: nat): nat
    requires i > 0 && denominator > 0
    decreases if i <= numerator / denominator then numerator / denominator + 1 - i else 0, a
  {
    if a == 0 then 0
    else
      assert i > numerator / denominator ==> Term(a, i, numerator, denominator) < a by {
        if i > numerator / denominator { TermShrinks(a, i, numerator, denominator); }
      }
      a + Series(Term(a, i, numerator, denominator), i + 1, numerator, denominator)
  }

  /** `fake_exponential` as EIP-4844 defines it, without machine integers. */
  function FakeExponential(factor: nat, numerator: nat, denominator: nat): nat
    requires denominator > 0
  {
    Quot(Series(factor * denominator, 1, numerator, denominator), denominator)
  }

  // The sum approximates the Taylor series of the exponential.

  /** The k-th term of the sum. */
  function Nth(factor: nat, numerator: nat, denominator: nat, k: nat): nat
    requires denominator > 0
  {
    if k == 0 then factor * denominator else Term(Nth(factor, numerator, denominator, k - 1), k, numerator, denominator)
  }

  function SumOfTerms(factor: nat, numerator: nat, denominator: nat, k: nat): nat
    requires denominator > 0
  {
    if k == 0 then 0 else SumOfTerms(factor, numerator, denominator, k - 1) + Nth(factor, numerator, denominator, k - 1)
  }

  lemma {:induction false} SeriesIsSum(factor: nat, numerator: nat, denominator: nat, k: nat)
    requires denominator > 0
    ensures Series(factor * denominator, 1, numerator, denominator) ==
            SumOfTerms(factor, numerator, denominator, k) + Series(Nth(factor, numerator, denominator, k), k + 1, numerator, denominator)
  {
    if k > 0 {
      SeriesIsSum(factor, numerator, denominator, k - 1);
      var a := Nth(factor, numerator, denominator, k - 1);
      if a == 0 {
        assert Term(0, k, numerator, denominator) == 0;
      }
    }
  }

  /** Numbers each of which is the one before times a ratio. */
  ghost function Exact(first: real, ratio: nat -> real, k: nat): real {
    if k == 0 then first else Exact(first, ratio, k - 1) * ratio(k)
  }

  /** What rounding down in every step can have lost. */
  ghost function Lost(ratio: nat -> real, k: nat): real {
    if k == 0 then 0.0 else 1.0 + Lost(ratio, k - 1) * ratio(k)
  }

  /** The product rounded down. */
  ghost predicate Rounds(a: real, x: real, next: real) { x >= 0.0 && a * x - 1.0 <= next <= a * x }

  lemma Sandwich(next: real, a: real, t: real, e: real, x: real)
    requires t - e <= a <= t && Rounds(a, x, next)
    ensures t * x - (1.0 + e * x) <= next <= t * x
  {
    assert (t - a) * x >= 0.0 && (a - t + e) * x >= 0.0;
  }

  lemma {:induction false} RoundedDown(first: real, ratio: nat -> real, rounded: nat -> real, k: nat)
    requires rounded(0) == first
    requires forall i: nat :: i > 0 ==> Rounds(rounded(i - 1), ratio(i), rounded(i))
    ensures Exact(first, ratio, k) - Lost(ratio, k) <= rounded(k) <= Exact(first, ratio, k)
  {
    if k > 0 {
      RoundedDown(first, ratio, rounded, k - 1);
      Sandwich(rounded(k), rounded(k - 1), Exact(first, ratio, k - 1), Lost(ratio, k - 1), ratio(k));
    }
  }

  /** numerator / (denominator * k) */
  ghost function Ratio(numerator: nat, denominator: nat, k: nat): real
    requires denominator > 0
  {
    if k == 0 then 1.0 else numerator as real / (denominator * k) as real
  }

  ghost function Ratios(numerator: nat, denominator: nat): nat -> real
    requires denominator > 0
  {
    (k: nat) => Ratio(numerator, denominator, k)
  }

  /** The k-th term of the series of the exponential, times the denominator:
      factor * numerator^k / (denominator^k * k!). */
  ghost function Taylor(factor: nat, numerator: nat, denominator: nat, k: nat): real
    requires denominator > 0
  {
    Exact((factor * denominator) as real, Ratios(numerator, denominator), k)
  }

  lemma RealQuotient(a: nat, n: nat, d: nat, q: nat)
    requires d > 0 && d * q <= a * n < d * (q + 1)
    ensures a as real * (n as real / d as real) - 1.0 <= q as real <= a as real * (n as real / d as real)
  {
    var x := n as real / d as real;
    assert x * d as real == n as real;
    assert (a as real * x) * d as real == (a * n) as real;
    assert (q * d) as real == q as real * d as real;
    assert ((q + 1) * d) as real == (q as real + 1.0) * d as real;
    Divides(q as real, a as real * x, d as real);
    Divides(a as real * x, q as real + 1.0, d as real);
  }

  lemma Divides(x: real, y: real, d: real)
    requires d > 0.0 && x * d <= y * d
    ensures x <= y
  {
  }

  lemma TermInReals(a: nat, k: nat, numerator: nat, denominator: nat)
    requires denominator > 0 && k > 0
    ensures Rounds(a as real, Ratio(numerator, denominator, k), Term(a, k, numerator, denominator) as real)
  {
    TermMeans(a, k, numerator, denominator);
    RealQuotient(a, numerator, denominator * k, Term(a, k, numerator, denominator));
  }

  /** Every term is that of the Taylor series up to what rounding lost. */
  lemma TermIsTaylor(factor: nat, numerator: nat, denominator: nat, k: nat)
    requires denominator > 0
    ensures Taylor(factor, numerator, denominator, k) - Lost(Ratios(numerator, denominator), k) <=
            Nth(factor, numerator, denominator, k) as real <= Taylor(factor, numerator, denominator, k)
  {
    var rounded := (i: nat) => Nth(factor, numerator, denominator, i) as real;
    var ratio := Ratios(numerator, denominator);
    forall i: nat | i > 0 ensures Rounds(rounded(i - 1), ratio(i), rounded(i)) {
      TermInReals(Nth(factor, numerator, denominator, i - 1), i, numerator, denominator);
    }
    RoundedDown((factor * denominator) as real, ratio, rounded, k);
  }

  /** Two values that EIP-4844 gives. */
  lemma FakeExponentialOfTwo()
    ensures FakeExponential(1, 2, 1) == 6 && FakeExponential(1, 4, 2) == 6
  {
    assert Series(0, 5, 2, 1) == 0;
    assert Term(1, 4, 2, 1) == 0;
    assert Series(1, 4, 2, 1) == 1;
    assert Series(2, 3, 2, 1) == 3;
    assert Series(2, 2, 2, 1) == 5;
    assert Series(1, 1, 2, 1) == 6;
    assert Series(0, 6, 4, 2) == 0;
    assert Series(1, 5, 4, 2) == 1;
    assert Series(2, 4, 4, 2) == 3;
    assert Series(4, 3, 4, 2) == 7;
    assert Series(4, 2, 4, 2) == 11;
    assert Series(2, 1, 4, 2) == 13;
  }

  // ---------------------------------------------------------------------------
  // The loop
  // ---------------------------------------------------------------------------

  function WrapMul(a: nat, b: nat): nat { if a * b < U256 then a * b else a * b % U256 }

  function WrapAdd(a: nat, b: nat): nat { if a + b < U256 then a + b else (a + b) % U256 }

  function WrapSub(a: nat, b: nat): nat
    requires a < U256 && b < U256
  {
    if b <= a then a - b else a + U256 - b
  }

  /** Number of binary digits. */
  ghost function Bits(a: nat): nat { if a == 0 then 0 else 1 + Bits(a / 2) }

  lemma {:induction false} BitsMonotone(a: nat, b: nat)
    requires a <= b
    ensures Bits(a) <= Bits(b)
  {
    if a > 0 {
      BitsMonotone(a / 2, b / 2);
    }
  }

  lemma BitsHalve(a: nat, b: nat)
    requires 2 * a <= b && b > 0
    ensures Bits(a) < Bits(b)
  {
    BitsMonotone(a, b / 2);
  }

  lemma {:induction false} BitsBelow(a: nat, n: nat)
    requires a < Pow2(n)
    ensures Bits(a) <= n
  {
    if a > 0 {
      BitsBelow(a / 2, n - 1);
    }
  }

  lemma {:induction false} Pow2Sum(m: nat, n: nat)
    ensures Pow2(m + n) == Pow2(m) * Pow2(n)
  {
    if m > 0 {
      Pow2Sum(m - 1, n);
    }
  }

  lemma Pow2Of32()
    ensures Pow2(32) == 0x1_0000_0000
  {
    assert Pow2(4) == 16;
    Pow2Sum(4, 4);
    Pow2Sum(8, 8);
    Pow2Sum(16, 16);
  }

  lemma Pow2Values()
    ensures Pow2(64) == U64_MAX + 1 && Pow2(128) == U128
  {
    Pow2Of32();
    Pow2Sum(32, 32);
    Pow2Sum(64, 64);
  }

  /** `a` is at least `d` doubled `k` times. */
  ghost predicate Grown(a: nat, d: nat, k: nat) { if k == 0 then a >= d else Grown(a / 2, d, k - 1) }

  lemma {:induction false} GrownMonotone(a: nat, b: nat, d: nat, k: nat)
    requires Grown(a, d, k) && a <= b
    ensures Grown(b, d, k)
    decreases k
  {
    if k > 0 {
      GrownMonotone(a / 2, b / 2, d, k - 1);
    }
  }

  lemma {:induction false} GrownLarge(a: nat, d: nat, k: nat)
    requires Grown(a, d, k)
    ensures a >= Pow2(k) * d
    decreases k
  {
    if k > 0 {
      GrownLarge(a / 2, d, k - 1);
      assert Pow2(k) * d == 2 * (Pow2(k - 1) * d);
    }
  }

  /** Early terms double and late terms halve, where `quotient` is the exponent: the shape of
      the series that bounds the number of rounds. */
  ghost predicate Shape(a: nat, i: nat, quotient: nat, denominator: nat) {
    && i > 0
    && (2 * (i - 1) <= quotient ==> Grown(a, denominator, i - 1))
    && (i > 65 ==> quotient < 130)
    && (i > 2 * quotient + 2 ==> Bits(a) + i <= 2 * quotient + 2 + 128)
  }

  lemma TermDoubles(a: nat, i: nat, numerator: nat, denominator: nat)
    requires denominator > 0 && i > 0 && 2 * i <= numerator / denominator
    ensures Term(a, i, numerator, denominator) >= 2 * a
  {
    MulBound(denominator, 2 * i, denominator, numerator / denominator);
    assert denominator * (2 * i) == 2 * (denominator * i);
    MulBound(a, 2 * (denominator * i), a, numerator);
    assert a * (2 * (denominator * i)) == (denominator * i) * (2 * a);
    DivAtLeast(a * numerator, denominator * i, 2 * a);
  }

  lemma TermHalves(a: nat, i: nat, numerator: nat, denominator: nat)
    requires denominator > 0 && i >= 2 * (numerator / denominator) + 2
    ensures 2 * Term(a, i, numerator, denominator) <= a
  {
    var k := numerator / denominator;
    MulBound(denominator, 2 * k + 2, denominator, i);
    assert denominator * (2 * k + 2) == 2 * (denominator * k) + 2 * denominator;
    DivHalf(a, numerator, denominator * i);
  }

  lemma ShapeNext(a: nat, next: nat, i: nat, quotient: nat, denominator: nat)
    requires 0 < a < U128 && a < (U64_MAX + 1) * denominator && Shape(a, i, quotient, denominator)
    requires 2 * i <= quotient ==> next >= 2 * a
    requires i >= 2 * quotient + 2 ==> 2 * next <= a
    ensures Shape(next, i + 1, quotient, denominator)
  {
    Pow2Values();
    if 2 * i <= quotient {
      GrownMonotone(a, next / 2, denominator, i - 1);
    }
    if i == 65 && 128 <= quotient {
      GrownLarge(a, denominator, 64);
    }
    if i >= 2 * quotient + 2 {
      BitsHalve(next, a);
      BitsBelow(a, 128);
    }
  }

  lemma ShapeStep(a: nat, i: nat, numerator: nat, denominator: nat, quotient: nat)
    requires denominator > 0 && 0 < a < U128 && a < U64_MAX * denominator && quotient == numerator / denominator
    requires Shape(a, i, quotient, denominator)
    ensures Shape(Term(a, i, numerator, denominator), i + 1, quotient, denominator)
  {
    if 2 * i <= quotient {
      TermDoubles(a, i, numerator, denominator);
    }
    if i >= 2 * quotient + 2 {
      TermHalves(a, i, numerator, denominator);
    }
    ShapeNext(a, Term(a, i, numerator, denominator), i, quotient, denominator);
  }

  /** The loop never gets past a few hundred rounds. */
  lemma FewRounds(a: nat, i: nat, quotient: nat, denominator: nat)
    requires Shape(a, i, quotient, denominator) && a > 0
    ensures i < 390
  {
  }

  /** The new term, in machine arithmetic. */
  function WrapTerm(accum: nat, i: nat, numerator: nat, denominator: nat): nat {
    var divisor := WrapMul(denominator, i);
    if divisor == 0 then 0 else Quot(WrapMul(accum, numerator), divisor)
  }

  lemma NoWrap(accum: nat, i: nat, numerator: nat, denominator: nat)
    requires numerator <= U64_MAX && 0 < denominator <= U64_MAX && 1 <= i <= U64_MAX && accum < U128
    ensures WrapTerm(accum, i, numerator, denominator) == Term(accum, i, numerator, denominator) < U256
  {
    MulBound(accum, numerator, U128, U64_MAX);
    MulBound(denominator, i, U64_MAX, U64_MAX);
    MulBound(denominator, 1, denominator, i);
    MulBound(1, U256, denominator * i, U256);
    DivLess(accum * numerator, denominator * i, U256);
  }

  /** The series is at least its first term. */
  lemma SeriesAtLeast(a: nat, i: nat, numerator: nat, denominator: nat)
    requires i > 0 && denominator > 0
    ensures Series(a, i, numerator, denominator) >= a
  {
  }

  /** What holds at the head of the loop: the terms still to come complete the sum. */
  ghost predicate LoopOk(output: nat, accum: nat, i: nat, numerator: nat, denominator: nat, quotient: nat, total: nat)
    requires denominator > 0
  {
    && 1 <= i <= 390 && accum < U256 && output < U64_MAX * denominator
    && output + Series(accum, i, numerator, denominator) == total
    && (accum > 0 ==> Shape(accum, i, quotient, denominator))
  }

  lemma LoopStart(factor: nat, numerator: nat, denominator: nat, quotient: nat)
    requires factor <= U64_MAX && 0 < denominator <= U64_MAX
    ensures WrapMul(factor, denominator) == factor * denominator
    ensures LoopOk(0, factor * denominator, 1, numerator, denominator, quotient,
                   Series(factor * denominator, 1, numerator, denominator))
  {
    MulBound(factor, denominator, U64_MAX, U64_MAX);
    if factor > 0 {
      MulBound(1, denominator, factor, denominator);
    }
  }

  lemma LoopStep(output: nat, accum: nat, i: nat, numerator: nat, denominator: nat, quotient: nat, total: nat)
    requires numerator <= U64_MAX && 0 < denominator <= U64_MAX && quotient == numerator / denominator
    requires LoopOk(output, accum, i, numerator, denominator, quotient, total)
    requires accum > 0 && output + accum < U64_MAX * denominator
    ensures LoopOk(output + accum, WrapTerm(accum, i, numerator, denominator), i + 1, numerator, denominator, quotient, total)
    ensures i > quotient ==> WrapTerm(accum, i, numerator, denominator) < accum
  {
    MulBound(U64_MAX, denominator, U64_MAX, U64_MAX);
    NoWrap(accum, i, numerator, denominator);
    ShapeStep(accum, i, numerator, denominator, quotient);
    FewRounds(accum, i, quotient, denominator);
    if i > quotient {
      TermShrinks(accum, i, numerator, denominator);
    }
  }

  lemma LoopSaturates(output: nat, accum: nat, i: nat, numerator: nat, denominator: nat, quotient: nat, total: nat)
    requires denominator > 0 && LoopOk(output, accum, i, numerator, denominator, quotient, total)
    requires output + accum >= U64_MAX * denominator
    ensures Quot(total, denominator) >= U64_MAX
  {
    SeriesAtLeast(accum, i, numerator, denominator);
    DivAtLeast(total, denominator, U64_MAX);
  }

  lemma LoopEnds(output: nat, i: nat, numerator: nat, denominator: nat, quotient: nat, total: nat)
    requires denominator > 0 && LoopOk(output, 0, i, numerator, denominator, quotient, total)
    ensures Quot(output, denominator) == Quot(total, denominator) < U64_MAX
  {
    DivLess(output, denominator, U64_MAX);
  }

  /** `fake_exponential` with wrapping 256-bit arithmetic and a 64-bit counter: for all inputs
      it is the unbounded reference capped at the largest 64-bit value, so nothing wraps and
      the exit for an exhausted counter is never taken. */
  method ComputeFakeExponential(factor: nat, numerator: nat, denominator: nat) returns (r: nat)
    requires factor <= U64_MAX && numerator <= U64_MAX && denominator <= U64_MAX
    ensures r <= U64_MAX
    ensures denominator == 0 ==> r == U64_MAX
    ensures denominator > 0 ==> r == Min(U64_MAX, FakeExponential(factor, numerator, denominator))
  {
    if denominator == 0 {
      return U64_MAX;
    }
    ghost var quotient := Quot(numerator, denominator);
    ghost var total := Series(factor * denominator, 1, numerator, denominator);
    LoopStart(U64_MAX, numerator, denominator, quotient);
    LoopStart(factor, numerator, denominator, quotient);
    MulBound(U64_MAX, denominator, U64_MAX, U64_MAX);
    var limit := WrapMul(U64_MAX, denominator);
    var i: nat, output: nat, accum: nat := 1, 0, WrapMul(factor, denominator);
    while accum != 0
      invariant LoopOk(output, accum, i, numerator, denominator, quotient, total)
      decreases if i <= quotient then quotient + 1 - i else 0, accum
    {
      if accum >= WrapSub(limit, output) {
        LoopSaturates(output, accum, i, numerator, denominator, quotient, total);
        return U64_MAX;
      }
      LoopStep(output, accum, i, numerator, denominator, quotient, total);
      output := WrapAdd(output, accum);
      accum := WrapTerm(accum, i, numerator, denominator);
      if i == U64_MAX {
        // the early exit for an exhausted counter
        assert false;
      }
      i := i + 1;
    }
    LoopEnds(output, i, numerator, denominator, quotient, total);
    r := Quot(output, denominator);
  }

  // ---------------------------------------------------------------------------
  // Blob gas
  // ---------------------------------------------------------------------------

  const MIN_BLOB_BASE_FEE: nat := 1
  const BLOB_BASE_FEE_UPDATE_FRACTION: nat := 3_338_477
  const TARGET_BLOB_GAS_PER_BLOCK: nat := 393_216

  function BlobGasPrice(excess: nat): nat {
    Min(U64_MAX, FakeExponential(MIN_BLOB_BASE_FEE, excess, BLOB_BASE_FEE_UPDATE_FRACTION))
  }

  method CalcBlobGasPrice(excess: nat) returns (r: nat)
    requires excess <= U64_MAX
    ensures r == BlobGasPrice(excess) == Min(FakeExponential(1, excess, 3_338_477), U64_MAX)
  {
    r := ComputeFakeExponential(MIN_BLOB_BASE_FEE, excess, BLOB_BASE_FEE_UPDATE_FRACTION);
  }

  lemma DivMonotone(x: nat, y: nat, d: nat)
    requires d > 0 && x <= y
    ensures x / d <= y / d
  {
    DivAtLeast(y, d, x / d);
  }

  /** A larger exponent gives a larger sum, term by term. */
  lemma {:induction false} SeriesMonotone(a: nat, m: nat, b: nat, n: nat, i: nat, denominator: nat)
    requires a <= b && m <= n && i > 0 && denominator > 0
    ensures Series(a, i, m, denominator) <= Series(b, i, n, denominator)
    decreases if i <= n / denominator then n / denominator + 1 - i else 0, b
  {
    if a > 0 {
      MulBound(a, m, b, n);
      MulBound(denominator, 1, denominator, i);
      DivMonotone(a * m, b * n, denominator * i);
      if i > n / denominator {
        TermShrinks(b, i, n, denominator);
      }
      SeriesMonotone(Term(a, i, m, denominator), m, Term(b, i, n, denominator), n, i + 1, denominator);
    }
  }

  /** More excess never makes blobs cheaper, and they always cost at least one wei. */
  lemma BlobGasPriceMonotone(excess: nat, more: nat)
    requires excess <= more
    ensures 1 <= BlobGasPrice(excess) <= BlobGasPrice(more)
  {
    var d := BLOB_BASE_FEE_UPDATE_FRACTION;
    SeriesMonotone(d, excess, d, more, 1, d);
    DivMonotone(Series(d, 1, excess, d), Series(d, 1, more, d), d);
    SeriesAtLeast(d, 1, excess, d);
    DivAtLeast(Series(d, 1, excess, d), d, 1);
  }

  /** `calc_excess_blob_gas` */
  function ExcessBlobGas(excess: nat, used: nat): nat {
    SatSub(SatAdd(excess, used), TARGET_BLOB_GAS_PER_BLOCK)
  }

  /** The excess after a number of blocks. */
  function ExcessAfter(excess: nat, used: seq<nat>): nat {
    if used == [] then excess else ExcessBlobGas(ExcessAfter(excess, used[..|used| - 1]), used[|used| - 1])
  }

  /** What the blocks from the k-th on used beyond three blobs each. */
  function Surplus(used: seq<nat>, k: nat): int
    requires k <= |used|
  {
    if k == |used| then 0 else Surplus(used[..|used| - 1], k) + used[|used| - 1] - 3 * 131_072
  }

  function Sum(used: seq<nat>): nat { if used == [] then 0 else Sum(used[..|used| - 1]) + used[|used| - 1] }

  /** The excess is the backlog of a queue that serves three blobs per block: the largest surplus
      of any last blocks, or of all of them on top of the excess at the start. */
  lemma {:induction false} ExcessIsBacklog(excess: nat, used: seq<nat>) returns (k: nat)
    requires excess + Sum(used) <= U64_MAX
    ensures k <= |used|
    ensures forall j :: 0 <= j <= |used| ==> ExcessAfter(excess, used) >= Surplus(used, j)
    ensures ExcessAfter(excess, used) >= excess + Surplus(used, 0)
    ensures ExcessAfter(excess, used) == Surplus(used, k) || ExcessAfter(excess, used) == excess + Surplus(used, 0)
    ensures ExcessAfter(excess, used) <= excess + Sum(used)
  {
    k := 0;
    if used != [] {
      var rest := used[..|used| - 1];
      k := ExcessIsBacklog(excess, rest);
      if ExcessAfter(excess, used) == 0 {
        k := |used|;
      }
    }
  }

  /** While the terms double, the sum is at least any power of two of the first. */
  lemma {:induction false} SeriesDoubles(a: nat, i: nat, numerator: nat, denominator: nat, k: nat)
    requires denominator > 0 && i > 0 && 2 * (i + k) <= numerator / denominator
    ensures Series(a, i, numerator, denominator) >= Pow2(k) * a
    decreases k
  {
    if k == 0 || a == 0 {
      SeriesAtLeast(a, i, numerator, denominator);
    } else {
      var next := Term(a, i, numerator, denominator);
      TermDoubles(a, i, numerator, denominator);
      SeriesDoubles(next, i + 1, numerator, denominator, k - 1);
      DoubleFirst(Pow2(k - 1), a, next);
    }
  }

  lemma DoubleFirst(p: nat, a: nat, next: nat)
    requires next >= 2 * a
    ensures (2 * p) * a <= p * next
  {
    MulBound(p, 2 * a, p, next);
    assert (2 * p) * a == p * (2 * a);
  }

  /** From this excess on the price is the largest 64-bit number. */
  lemma BlobPriceSaturates(excess: nat)
    requires excess >= 130 * BLOB_BASE_FEE_UPDATE_FRACTION
    ensures BlobGasPrice(excess) == U64_MAX
  {
    var d := BLOB_BASE_FEE_UPDATE_FRACTION;
    SeriesDoubles(d, 1, excess, d, 64);
    Pow2Values();
    DivAtLeast(Series(d, 1, excess, d), d, U64_MAX);
  }

  /** From one block to the next the price moves with the gas used, on the side of the target
      it was used on; where the excess saturates, so does the price. */
  lemma BlobPriceFollowsUse(excess: nat, used: nat)
    ensures used >= TARGET_BLOB_GAS_PER_BLOCK ==> BlobGasPrice(ExcessBlobGas(excess, used)) >= BlobGasPrice(excess)
    ensures used <= TARGET_BLOB_GAS_PER_BLOCK ==> BlobGasPrice(ExcessBlobGas(excess, used)) <= BlobGasPrice(excess)
  {
    if used >= TARGET_BLOB_GAS_PER_BLOCK {
      if excess + used <= U64_MAX {
        BlobGasPriceMonotone(excess, ExcessBlobGas(excess, used));
      } else {
        BlobPriceSaturates(ExcessBlobGas(excess, used));
      }
    }
    if used <= TARGET_BLOB_GAS_PER_BLOCK {
      BlobGasPriceMonotone(ExcessBlobGas(excess, used), excess);
    }
  }

  // ---------------------------------------------------------------------------
  // Base fee
  // ---------------------------------------------------------------------------

  const INITIAL_BASE_FEE: nat := 1_000_000_000

  function BaseFeeDelta(base: nat, gas: nat, target: nat): nat
    requires target > 0
  {
    Min(Quot(base * gas, target) / 8, U64_MAX)
  }

  /** `calculate_base_fee` */
  function BaseFee(used: nat, limit: nat, base: nat): nat {
    var target := limit / 2;
    if base == 0 then INITIAL_BASE_FEE
    else if target == 0 || used == target then base
    else if used > target then SatAdd(base, Max(BaseFeeDelta(base, used - target, target), 1))
    else Max(SatSub(base, BaseFeeDelta(base, target - used, target)), 1)
  }

  /** The fee moves by at most an eighth, or by one if an eighth is less than that. */
  predicate WithinOneEighth(base: nat, fee: nat) { base - Eighth(base) <= fee <= base + Eighth(base) }

  /** The largest change that is promised. */
  function Eighth(base: nat): nat { Max(base / 8, 1) }

  lemma DeltaAtMostOneEighth(base: nat, gas: nat, target: nat)
    requires target > 0 && gas <= target
    ensures BaseFeeDelta(base, gas, target) <= base / 8
  {
    MulBound(base, gas, base, target);
    DivLess(base * gas, target, base + 1);
  }

  /** With one unit of gas more than twice the target, the rounding decides. */
  lemma DeltaOverTarget(base: nat, target: nat)
    requires target > 0
    ensures Quot(base * (target + 1), target) == base + Quot(base, target)
    ensures Quot(base, target) <= base
  {
    var q := Quot(base, target);
    assert base * (target + 1) == target * base + base;
    assert target * (base + q) == target * base + target * q;
    DivAtLeast(target * base + base, target, base + q);
    assert target * (base + q + 1) == target * base + target * q + target;
    DivLess(target * base + base, target, base + q + 1);
    MulBound(1, base + 1, target, base + 1);
    DivLess(base, target, base + 1);
  }

  /** The rounding that takes a full odd block over an eighth. */
  predicate CrossesEighth(base: nat, extra: nat) {
    base >= 8 && base % 8 + extra >= 8 && base + base / 8 < U64_MAX
  }

  lemma EighthRounding(base: nat, extra: nat)
    requires extra <= base && 0 < base <= U64_MAX
    ensures WithinOneEighth(base, SatAdd(base, Max(Min((base + extra) / 8, U64_MAX), 1))) <==> !CrossesEighth(base, extra)
  {
    assert (base + extra) / 8 == base / 8 + (base % 8 + extra) / 8;
  }

  /** The fee after a full block with an odd gas limit. */
  lemma FullOddBlock(target: nat, base: nat)
    requires target > 0 && 0 < base <= U64_MAX
    ensures BaseFee(2 * target + 1, 2 * target + 1, base) ==
            SatAdd(base, Max(Min((base + Quot(base, target)) / 8, U64_MAX), 1))
  {
    DeltaOverTarget(base, target);
    assert (2 * target + 1) / 2 == target;
  }

  /** A completely full block whose odd limit exceeds twice the target by one, when the
      rounding crosses an eighth and the result does not saturate. */
  predicate Exceptional(used: nat, limit: nat, base: nat) {
    limit % 2 == 1 && used == limit && limit >= 2 && CrossesEighth(base, Quot(base, limit / 2))
  }

  lemma UsualBlock(used: nat, limit: nat, base: nat)
    requires used <= 2 * (limit / 2) && 0 < base <= U64_MAX
    ensures WithinOneEighth(base, BaseFee(used, limit, base)) && !Exceptional(used, limit, base)
  {
    var target := limit / 2;
    if target > 0 {
      DeltaAtMostOneEighth(base, if used < target then target - used else used - target, target);
    }
  }

  lemma FullBlock(used: nat, limit: nat, base: nat)
    requires 2 * (limit / 2) < used <= limit && 0 < base <= U64_MAX
    ensures WithinOneEighth(base, BaseFee(used, limit, base)) <==> !Exceptional(used, limit, base)
  {
    var target := limit / 2;
    if target > 0 {
      assert used == limit == 2 * target + 1;
      FullOddBlock(target, base);
      DeltaOverTarget(base, target);
      EighthRounding(base, Quot(base, target));
    }
  }

  /** So much more gas than the target was used that the rise, rounded down twice, exceeds an
      eighth, and 64 bits do not hide it. */
  predicate TooFull(used: nat, limit: nat, base: nat) {
    var target := limit / 2;
    && 0 < target < used && base + Eighth(base) < U64_MAX
    && base * (used - target) >= target * (8 * (Eighth(base) + 1))
  }

  lemma DeltaAbove(base: nat, gas: nat, target: nat, most: nat)
    requires target > 0
    ensures Quot(base * gas, target) / 8 > most <==> base * gas >= target * (8 * (most + 1))
  {
    if base * gas >= target * (8 * (most + 1)) {
      DivAtLeast(base * gas, target, 8 * (most + 1));
    } else {
      DivLess(base * gas, target, 8 * (most + 1));
    }
  }

  /** `calculate_base_fee` is documented to change the fee by at most an eighth per block. That
      holds for exactly the blocks that are not too full, whatever they used, and does not apply
      to the first fee, which is set from nothing. */
  lemma BaseFeeWithinOneEighth(used: nat, limit: nat, base: nat)
    requires base <= U64_MAX
    ensures WithinOneEighth(base, BaseFee(used, limit, base)) <==> base > 0 && !TooFull(used, limit, base)
  {
    var target := limit / 2;
    if target > 0 && used > target {
      DeltaAbove(base, used - target, target, Eighth(base));
    } else if target > 0 {
      DeltaAtMostOneEighth(base, target - used, target);
    }
  }

  /** Among the blocks within their gas limit, those that are too full are completely full and
      have an odd limit. */
  lemma OddFullBlocks(used: nat, limit: nat, base: nat)
    requires 0 < base <= U64_MAX
    ensures used <= limit ==> (TooFull(used, limit, base) <==> Exceptional(used, limit, base))
  {
    if used <= limit {
      BaseFeeWithinOneEighth(used, limit, base);
      if used <= 2 * (limit / 2) {
        UsualBlock(used, limit, base);
      } else {
        FullBlock(used, limit, base);
      }
    }
  }

  /** One of them: a fee of one gwei rises by more than an eighth. */
  lemma OddLimitExceedsEighth()
    ensures var limit, base := 30_000_001, 1_000_000_000;
            Exceptional(limit, limit, base) && BaseFee(limit, limit, base) > base + base / 8
  {
    assert 30_000_001 / 2 == 15_000_000 && 1_000_000_000 * 15_000_001 == 15_000_001_000_000_000;
    assert Quot(15_000_001_000_000_000, 15_000_000) == 1_000_000_066 && Quot(1_000_000_000, 15_000_000) == 66;
  }

  /** The change is what EIP-1559 says: the fee times the distance from the target over eight
      targets, rounded down, and at least one where it rises. Only 64 bits cut a rise short. */
  lemma BaseFeeExactly(used: nat, limit: nat, base: nat)
    requires limit >= 2 && 0 < base <= U64_MAX
    ensures var target, fee := limit / 2, BaseFee(used, limit, base);
            && (used == target ==> fee == base)
            && (used < target ==>
                  fee <= base && 8 * target * (base - fee) <= base * (target - used) < 8 * target * (base - fee + 1))
            && (used > target && fee < U64_MAX ==>
                  && base < fee && (base + 1 < fee ==> 8 * target * (fee - base) <= base * (used - target))
                  && base * (used - target) < 8 * target * (fee - base + 1))
            && (used > target && fee == U64_MAX ==>
                  U64_MAX <= base + 1 || 8 * target * (U64_MAX - base) <= base * (used - target))
  {
    var target := limit / 2;
    if used < target {
      DeltaAtMostOneEighth(base, target - used, target);
      FloorOfEighth(base, target - used, target);
    } else if used > target {
      FloorOfEighth(base, used - target, target);
      if base < U64_MAX && BaseFee(used, limit, base) == U64_MAX {
        MoreTargets(target, U64_MAX - base, Quot(base * (used - target), target) / 8);
      }
    }
  }

  lemma FloorOfEighth(base: nat, gas: nat, target: nat)
    requires target > 0
    ensures var d := Quot(base * gas, target) / 8; 8 * target * d <= base * gas < 8 * target * (d + 1)
  {
    var d := Quot(base * gas, target) / 8;
    DeltaAbove(base, gas, target, d);
    assert target * (8 * (d + 1)) == 8 * target * (d + 1);
    if d > 0 {
      DeltaAbove(base, gas, target, d - 1);
      assert target * (8 * d) == 8 * target * d;
    }
  }

  lemma MoreTargets(target: nat, a: nat, b: nat)
    requires a <= b || a <= 1
    ensures a <= 1 || 8 * target * a <= 8 * target * b
  {
    if a <= b {
      MulBound(8 * target, a, 8 * target, b);
    }
  }

  /** An empty block lowers the fee by an eighth, a full one with an even limit raises it by as
      much, and the first fee is one gwei. */
  lemma BaseFeeOfExtremes(limit: nat, base: nat)
    requires limit >= 2 && limit % 2 == 0 && base <= U64_MAX
    ensures base > 0 ==> BaseFee(0, limit, base) == base - base / 8
    ensures base > 0 ==> BaseFee(limit, limit, base) == Min(base + Max(base / 8, 1), U64_MAX)
    ensures BaseFee(limit, limit, 0) == 1_000_000_000
  {
    var target := limit / 2;
    assert base * target == target * base;
    DivAtLeast(base * target, target, base);
    assert target * (base + 1) == target * base + target;
    DivLess(base * target, target, base + 1);
  }

  /** The fee rises above the target, falls or stays below it, and is never zero. */
  lemma BaseFeeDirection(used: nat, limit: nat, base: nat)
    requires limit >= 2 && 0 < base <= U64_MAX
    ensures 1 <= BaseFee(used, limit, base) <= U64_MAX
    ensures used > limit / 2 && base < U64_MAX ==> BaseFee(used, limit, base) > base
    ensures used < limit / 2 ==> BaseFee(used, limit, base) <= base
  {
  }
}
