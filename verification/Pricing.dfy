/**
 Pricing of a usage delta (src/control_plane/domain.py).

 A price is computed with decimal floating point: 28 significant digits, every product and
 quotient rounded half-even, and only the final quotient rounded half-up to a whole rial.
 The model keeps that pipeline step by step; `ExactPrice` shows that the two roundings in a
 row never disagree with one exact half-up rounding.
 */
module Pricing {
  import opened Sums

  /** Bytes in a GiB. */
  const GIB: nat := 1073741824

  /** The usage coefficient is stored with four decimals; it is carried as a multiple of 1/10000. */
  const SCALE: nat := 10000

  /** The exact price is delta * rate * coef / UNIT, with the coefficient in multiples of 1/SCALE. */
  const UNIT: nat := GIB * SCALE

  /** A decimal coefficient has at most 28 digits. */
  const LIMIT: nat := 10000000000000000000000000000

  datatype PriceError = NegativeUsageOrRate | NegativeCoefficient | TooManyDigits

  datatype Result<+T> = Ok(value: T) | Err(error: PriceError)

  // ---- decimal arithmetic ----

  /** The number coef * 10^exp. */
  datatype Decimal = Decimal(coef: nat, exp: int)

  function Pow10(k: nat): (p: nat)
    ensures p >= 1
  {
    if k == 0 then 1 else 10 * Pow10(k - 1)
  }

  /** n / d rounded to a whole number, a tie going up. */
  function HalfUp(n: nat, d: nat): nat
    requires d > 0
  {
    (2 * n + d) / (2 * d)
  }

  /** n / d rounded to a whole number, a tie going to the even neighbour. */
  function HalfEven(n: nat, d: nat): nat
    requires d > 0
  {
    var q, r := n / d, n % d;
    if 2 * r < d || (2 * r == d && q % 2 == 0) then q else q + 1
  }

  /** How many trailing digits of `c` do not fit, given that `j` are known not to. */
  function Excess(c: nat, j: nat): (r: nat)
    ensures c < LIMIT * Pow10(r)
    decreases c - LIMIT * Pow10(j)
  {
    if c < LIMIT * Pow10(j) then j else Excess(c, j + 1)
  }

  /** Rounds a result to 28 digits, as every arithmetic operation does. */
  function Fix(x: Decimal): (y: Decimal)
  {
    if x.coef < LIMIT then x
    else
      var j := Excess(x.coef, 1);
      var m := HalfEven(x.coef, Pow10(j));
      if m < LIMIT then Decimal(m, x.exp + j) else Decimal(m / 10, x.exp + j + 1)
  }

  function Mul(x: Decimal, y: Decimal): Decimal {
    Fix(Decimal(x.coef * y.coef, x.exp + y.exp))
  }

  /** The largest number of extra digits for which the quotient a / b still has at most 28 digits. */
  function Digits(a: nat, b: nat, k: nat): (s: nat)
    requires a > 0 && a * Pow10(k) < LIMIT * b
    ensures s >= k
    ensures a * Pow10(s) < LIMIT * b <= a * Pow10(s + 1)
    decreases LIMIT * b - a * Pow10(k)
  {
    if a * Pow10(k + 1) < LIMIT * b then
      assert a * Pow10(k + 1) == a * Pow10(k) * 10;
      Digits(a, b, k + 1)
    else k
  }

  /** x / b for a whole divisor b. An operand of 28 digits or fewer is what `Mul` delivers. */
  function Div(x: Decimal, b: nat): Decimal
    requires b > 0
  {
    if x.coef == 0 then Decimal(0, x.exp)
    else if x.coef >= LIMIT * b then Fix(Decimal(HalfEven(x.coef, b), x.exp))
    else
      assert x.coef * Pow10(0) == x.coef;
      var k := Digits(x.coef, b, 0);
      Fix(Decimal(HalfEven(x.coef * Pow10(k), b), x.exp - k))
  }

  /** Quantizing to a whole number with ties going up; more than 28 digits is an error. */
  function ToWhole(x: Decimal): Result<nat> {
    var w := if x.exp >= 0 then x.coef * Pow10(x.exp) else HalfUp(x.coef, Pow10(-x.exp));
    if w < LIMIT then Ok(w) else Err(TooManyDigits)
  }

  /** price_usage; `coef` is the coefficient times SCALE. */
  function PriceUsage(delta: int, rate: int, coef: int): Result<nat> {
    if delta < 0 || rate < 0 then Err(NegativeUsageOrRate)
    else if coef < 0 then Err(NegativeCoefficient)
    else ToWhole(Div(Mul(Mul(Decimal(delta, 0), Decimal(rate, 0)), Decimal(coef, -4)), GIB))
  }

  lemma PricedSigns(delta: int, rate: int, coef: int)
    ensures PriceUsage(delta, rate, coef) == Err(NegativeUsageOrRate) <==> delta < 0 || rate < 0
    ensures PriceUsage(delta, rate, coef) == Err(NegativeCoefficient) <==> delta >= 0 && rate >= 0 && coef < 0
    ensures PriceUsage(delta, rate, coef).Ok? ==> delta >= 0 && rate >= 0 && coef >= 0
  {}

  // ---- rounding facts ----

  /** The half-up quotient is the one u with (2u - 1) d <= 2n < (2u + 1) d. */
  lemma HalfUpBounds(n: nat, d: nat)
    requires d > 0
    ensures (2 * HalfUp(n, d) - 1) * d <= 2 * n < (2 * HalfUp(n, d) + 1) * d
  {
    var u, r := HalfUp(n, d), (2 * n + d) % (2 * d);
    assert 2 * n + d == u * (2 * d) + r;
    assert u * (2 * d) == (2 * u) * d;
    assert (2 * u - 1) * d == (2 * u) * d - d && (2 * u + 1) * d == (2 * u) * d + d;
  }

  lemma HalfUpUnique(n: nat, d: nat, u: int)
    requires d > 0
    requires (2 * u - 1) * d <= 2 * n < (2 * u + 1) * d
    ensures u == HalfUp(n, d)
  {
    HalfUpBounds(n, d);
    var v := HalfUp(n, d);
    if u < v {
      MulLe(2 * u + 1, 2 * v - 1, d);
    } else if v < u {
      MulLe(2 * v + 1, 2 * u - 1, d);
    }
  }

  lemma MulLe(a: int, b: int, d: nat)
    requires a <= b
    ensures a * d <= b * d
  {
    assert (b - a) * d >= 0;
  }

  lemma HalfEvenBounds(n: nat, d: nat)
    requires d > 0
    ensures 2 * n - d <= 2 * (HalfEven(n, d) * d) <= 2 * n + d
  {
    assert n == (n / d) * d + n % d;
    assert (n / d + 1) * d == (n / d) * d + d;
  }

  lemma Reorder(x: int, g: nat, w: nat, p: nat)
    ensures (x * (g * w)) * p == (x * (w * p)) * g
  {}

  /**
   Rounding a / (g * w) first to m / p with p digits of precision and then half-up to a whole
   number is the same as rounding half-up once, as soon as the precision beats half of g.
   */
  lemma DoubleRounding(a: nat, p: nat, g: nat, w: nat, m: nat)
    requires p > 0 && g > 0 && w > 0 && w % 2 == 0
    requires 2 * p > g && 2 * (a * p) - g <= 2 * (m * g) <= 2 * (a * p) + g
    requires g * w > 0 && w * p > 0
    ensures HalfUp(m, w * p) == HalfUp(a, g * w)
  {
    var u := HalfUp(a, g * w);
    HalfUpBounds(a, g * w);
    var lo, hi := (2 * u - 1) * (w * p), (2 * u + 1) * (w * p);
    Reorder(2 * u - 1, g, w, p);
    Reorder(2 * u + 1, g, w, p);
    Even(2 * u - 1, w, p);
    Even(2 * u + 1, w, p);
    EvenStep(a, 2 * u + 1, g, w);
    MulLe((2 * u - 1) * (g * w), 2 * a, p);
    MulLe(2 * a + 2, (2 * u + 1) * (g * w), p);
    Distribute(a, p);
    LowerEnd(lo, m, g, a * p);
    UpperEnd(hi, m, g, a * p, p);
    HalfUpUnique(m, w * p, u);
  }

  lemma Distribute(a: nat, p: nat)
    ensures (2 * a) * p == 2 * (a * p) && (2 * a + 2) * p == 2 * (a * p) + 2 * p
  {}

  lemma LowerEnd(lo: int, m: nat, g: nat, b: nat)
    requires g > 0 && lo % 2 == 0 && lo * g <= 2 * b && 2 * b - g <= 2 * (m * g)
    ensures lo <= 2 * m
  {
    assert (lo - 1) * g == lo * g - g;
    NoCarry(lo - 1, 2 * m, g);
  }

  lemma UpperEnd(hi: int, m: nat, g: nat, b: nat, p: nat)
    requires g > 0 && 2 * p > g && 2 * b + 2 * p <= hi * g && 2 * (m * g) <= 2 * b + g
    ensures 2 * m < hi
  {
    assert (2 * m) * g == 2 * (m * g);
    NoCarryStrict(2 * m, hi, g);
  }

  lemma Even(x: int, w: nat, p: nat)
    requires w % 2 == 0
    ensures (x * (w * p)) % 2 == 0
  {
    assert w == 2 * (w / 2);
    assert x * (w * p) == 2 * (x * ((w / 2) * p));
  }

  lemma EvenStep(a: nat, x: int, g: nat, w: nat)
    requires w % 2 == 0 && 2 * a < x * (g * w)
    ensures 2 * a + 2 <= x * (g * w)
  {
    Even(x, w, g);
    assert x * (w * g) == x * (g * w);
  }

  lemma NoCarry(x: int, y: int, g: nat)
    requires g > 0 && x * g <= y * g
    ensures x <= y
  {
    if y < x { MulLe(y + 1, x, g); }
  }

  lemma NoCarryStrict(x: int, y: int, g: nat)
    requires g > 0 && x * g < y * g
    ensures x < y
  {
    if y <= x { MulLe(y, x, g); }
  }

  lemma PowMono(i: nat, j: nat)
    requires i <= j
    ensures Pow10(i) <= Pow10(j)
    decreases j
  {
    if i < j { PowMono(i, j - 1); }
  }

  /** Fewer than 28 digits over one GiB leave room for at least nine further digits. */
  lemma NineDigits(a: nat, s: nat)
    requires 0 < a < LIMIT && LIMIT * GIB <= a * Pow10(s + 1)
    ensures s >= 9 && Pow10(s) >= 1000000000
  {
    assert Pow10(9) == 1000000000;
    if s >= 9 {
      PowMono(9, s);
    } else {
      PowMono(s + 1, 9);
      MulLe(a, LIMIT, Pow10(s + 1));
      assert false;
    }
  }

  /** The quotient carries a value: dropping the zero of a coefficient that just overflowed changes nothing. */
  lemma WholeAfterFix(m: nat, e: nat)
    requires m <= LIMIT && e >= 2 && HalfUp(m, Pow10(e)) < LIMIT
    ensures ToWhole(Fix(Decimal(m, -(e as int)))) == Ok(HalfUp(m, Pow10(e)))
  {
    if m == LIMIT {
      FixLimit(-(e as int));
      HalfUpTimesTen(1000000000000000000000000000, Pow10(e - 1));
    }
  }

  lemma FixLimit(e: int)
    ensures Fix(Decimal(LIMIT, e)) == Decimal(1000000000000000000000000000, e + 1)
  {
    assert Pow10(1) == 10 * Pow10(0) == 10;
    assert Excess(LIMIT, 1) == 1;
  }

  lemma HalfUpTimesTen(x: nat, d: nat)
    requires d > 0
    ensures HalfUp(10 * x, 10 * d) == HalfUp(x, d)
  {
    var u := HalfUp(x, d);
    HalfUpBounds(x, d);
    assert (2 * u - 1) * (10 * d) == 10 * ((2 * u - 1) * d);
    assert (2 * u + 1) * (10 * d) == 10 * ((2 * u + 1) * d);
    HalfUpUnique(10 * x, 10 * d, u);
  }

  /** The decimal quotient of a product of at most 28 digits by one GiB, rounded to a whole rial. */
  lemma QuotientRounded(n: nat)
    requires 0 < n < LIMIT
    ensures ToWhole(Div(Decimal(n, -4), GIB)) == Ok(HalfUp(n, UNIT))
  {
    assert n * Pow10(0) == n;
    var k := Digits(n, GIB, 0);
    NineDigits(n, k);
    var p := Pow10(k);
    var m := HalfEven(n * p, GIB);
    HalfEvenBounds(n * p, GIB);
    QuotientFits(n * p, GIB);
    PowShift(k);
    DoubleRounding(n, p, GIB, SCALE, m);
    WholeIsSmall(n);
    WholeAfterFix(m, k + 4);
  }

  /**
   The two roundings of the decimal pipeline give exactly the half-up rounding of the true
   price, for every input whose exact product fits the 28 digits.
   */
  lemma ExactPrice(delta: nat, rate: nat, coef: nat)
    requires delta * rate * coef < LIMIT
    ensures PriceUsage(delta, rate, coef) == Ok(HalfUp(delta * rate * coef, UNIT))
  {
    var n := delta * rate * coef;
    if n == 0 {
      ZeroProduct(delta, rate, coef);
    } else {
      ProductKept(delta, rate, coef);
      QuotientRounded(n);
    }
  }

  lemma ProductKept(delta: nat, rate: nat, coef: nat)
    requires 0 < delta * rate * coef < LIMIT
    ensures Mul(Mul(Decimal(delta, 0), Decimal(rate, 0)), Decimal(coef, -4)) == Decimal(delta * rate * coef, -4)
  {
    var p := delta * rate;
    Positive(p, coef);
    assert Mul(Decimal(delta, 0), Decimal(rate, 0)) == Decimal(p, 0);
    MulKept(Decimal(p, 0), Decimal(coef, -4), p * coef);
  }

  lemma MulKept(x: Decimal, y: Decimal, n: nat)
    requires n == x.coef * y.coef && n < LIMIT
    ensures Mul(x, y) == Decimal(n, x.exp + y.exp)
  {}

  lemma Positive(x: nat, y: nat)
    requires x * y != 0
    ensures y >= 1 && x <= x * y
  {}

  lemma PowShift(k: nat)
    ensures Pow10(k + 4) == SCALE * Pow10(k)
  {
    assert Pow10(k + 4) == 10 * Pow10(k + 3) == 100 * Pow10(k + 2) == 1000 * Pow10(k + 1);
  }

  lemma QuotientFits(n: nat, d: nat)
    requires d > 0 && n < LIMIT * d
    ensures HalfEven(n, d) <= LIMIT
  {
    assert n == (n / d) * d + n % d;
    NoCarryStrict(n / d, LIMIT, d);
  }

  lemma WholeIsSmall(n: nat)
    requires n < LIMIT
    ensures HalfUp(n, UNIT) < LIMIT
  {}

  lemma ZeroProduct(delta: nat, rate: nat, coef: nat)
    requires delta * rate * coef == 0
    ensures PriceUsage(delta, rate, coef) == Ok(0)
  {
    var p1 := Mul(Decimal(delta, 0), Decimal(rate, 0));
    if coef == 0 {
      assert p1.coef * coef == 0;
    } else {
      assert delta * rate == 0 by { if delta * rate >= 1 { MulLe(1, delta * rate, coef); } }
    }
    var p2 := Mul(p1, Decimal(coef, -4));
    assert p2.coef == 0;
    WholeOfZero(p2.exp);
  }

  lemma WholeOfZero(e: int)
    ensures ToWhole(Decimal(0, e)) == Ok(0)
  {
    if e < 0 {
      HalfUpUnique(0, Pow10(-e), 0);
    }
  }

  /** A GiB at coefficient one costs exactly the rate. */
  lemma GibCostsRate(rate: nat)
    requires 1073741824 * rate * 10000 < LIMIT
    ensures PriceUsage(1073741824, rate, 10000) == Ok(rate)
  {
    hide PriceUsage;
    ExactPrice(1073741824, rate, 10000);
    HalfUpUnique(1073741824 * rate * 10000, UNIT, rate);
  }

  // ---- one price per reseller level ----

  /** One hop of the chain: the child owes the parent `rate` rials per GiB. */
  datatype Edge = Edge(child: nat, parent: nat, rate: int)

  datatype Charge = Charge(child: nat, parent: nat, delta: int, rate: int, amount: nat)

  /** cascade: the charges of a positive delta, all priced before any is settled. */
  function Cascade(delta: int, edges: seq<Edge>, coef: int): (r: Result<seq<Charge>>)
    ensures r.Ok? ==> |r.value| == if delta > 0 then |edges| else 0
    ensures r.Ok? ==> forall i :: 0 <= i < |r.value| ==>
              && r.value[i] == Charge(edges[i].child, edges[i].parent, delta, edges[i].rate, r.value[i].amount)
              && PriceUsage(delta, edges[i].rate, coef) == Ok(r.value[i].amount)
  {
    if delta <= 0 || edges == [] then Ok([])
    else
      match PriceUsage(delta, edges[0].rate, coef)
      case Err(e) => Err(e)
      case Ok(amount) =>
        match Cascade(delta, edges[1..], coef)
        case Err(e) => Err(e)
        case Ok(rest) => Ok([Charge(edges[0].child, edges[0].parent, delta, edges[0].rate, amount)] + rest)
  }

  /** A positive delta cannot be charged exactly when some level cannot be priced; the first such level says why. */
  lemma {:induction false} CascadeFails(delta: int, edges: seq<Edge>, coef: int, e: PriceError)
    ensures Cascade(delta, edges, coef) == Err(e)
       <==> delta > 0 && exists i :: 0 <= i < |edges| && PriceUsage(delta, edges[i].rate, coef) == Err(e)
                                     && forall j :: 0 <= j < i ==> PriceUsage(delta, edges[j].rate, coef).Ok?
  {
    hide PriceUsage;
    if delta > 0 && edges != [] {
      CascadeFails(delta, edges[1..], coef, e);
      var rest := edges[1..];
      assert forall i :: 0 <= i < |rest| ==> rest[i] == edges[i + 1];
      if i :| 0 <= i < |rest| && PriceUsage(delta, rest[i].rate, coef) == Err(e)
              && forall j :: 0 <= j < i ==> PriceUsage(delta, rest[j].rate, coef).Ok? {
        assert edges[i + 1] == rest[i];
        if PriceUsage(delta, edges[0].rate, coef).Ok? {
          forall j | 0 <= j < i + 1 ensures PriceUsage(delta, edges[j].rate, coef).Ok? {
            if j > 0 { assert PriceUsage(delta, rest[j - 1].rate, coef).Ok?; }
          }
        }
      }
      if i :| 0 <= i < |edges| && PriceUsage(delta, edges[i].rate, coef) == Err(e)
              && forall j :: 0 <= j < i ==> PriceUsage(delta, edges[j].rate, coef).Ok? {
        if i > 0 {
          assert rest[i - 1] == edges[i];
          forall j | 0 <= j < i - 1 ensures PriceUsage(delta, rest[j].rate, coef).Ok? {
            assert PriceUsage(delta, edges[j + 1].rate, coef).Ok?;
          }
        }
      }
    }
  }

  // ---- rounding drift ----

  /** What the parts of a split cost, each rounded on its own. */
  function RoundedParts(parts: seq<nat>, w: nat, d: nat): int
    requires d > 0
  {
    if parts == [] then 0
    else RoundedParts(parts[..|parts| - 1], w, d) + HalfUp(parts[|parts| - 1] * w, d)
  }

  /** r rials for n parts of total weight sw are within n / 2 of sw / d. */
  ghost predicate Near(r: int, sw: int, n: int, d: int) {
    2 * sw - n * d <= 2 * (r * d) <= 2 * sw + n * d
  }

  lemma NearStep(r: int, sw: int, n: nat, d: nat, u: int, xw: int)
    requires d > 0 && Near(r, sw, n, d) && (2 * u - 1) * d <= 2 * xw < (2 * u + 1) * d
    ensures Near(r + u, sw + xw, n + 1, d)
    ensures 2 * (sw + xw) - (n + 1) * d < 2 * ((r + u) * d)
  {
    Distribute2(r, u, d);
    Distribute2(n, 1, d);
    Odd(u, d);
  }

  lemma Distribute2(a: int, b: int, c: int)
    ensures (a + b) * c == a * c + b * c
  {}

  lemma Odd(u: int, d: int)
    ensures (2 * u - 1) * d == 2 * (u * d) - d && (2 * u + 1) * d == 2 * (u * d) + d
  {}

  lemma {:induction false} PartsBounds(parts: seq<nat>, w: nat, d: nat)
    requires d > 0
    ensures Sum(parts) >= 0 && Near(RoundedParts(parts, w, d), Sum(parts) * w, |parts|, d)
    ensures parts != [] ==> 2 * (Sum(parts) * w) - |parts| * d < 2 * (RoundedParts(parts, w, d) * d)
  {
    if parts != [] {
      var n := |parts| - 1;
      var x, s, r := parts[n], Sum(parts[..n]), RoundedParts(parts[..n], w, d);
      PartsBounds(parts[..n], w, d);
      HalfUpBounds(x * w, d);
      NearStep(r, s * w, n, d, HalfUp(x * w, d), x * w);
      Distribute2(s, x, w);
    }
  }

  /** Rounding n parts one by one differs from rounding their total by at most n / 2. */
  lemma SplitDrift(parts: seq<nat>, w: nat, d: nat)
    requires d > 0
    ensures Sum(parts) >= 0 && Sum(parts) * w >= 0
    ensures -(|parts| as int) <= 2 * (RoundedParts(parts, w, d) - HalfUp(Sum(parts) * w, d)) <= |parts|
  {
    PartsBounds(parts, w, d);
    var x: nat := Sum(parts) * w;
    if |parts| == 0 {
      HalfUpUnique(0, d, 0);
    } else {
      HalfUpBounds(x, d);
      Between(RoundedParts(parts, w, d), HalfUp(x, d), x, |parts|, d);
    }
  }

  lemma Between(r: int, u: int, x: int, n: nat, d: nat)
    requires d > 0 && (2 * u - 1) * d <= 2 * x < (2 * u + 1) * d
    requires 2 * x - n * d < 2 * (r * d) <= 2 * x + n * d
    ensures -(n as int) <= 2 * (r - u) <= n
  {
    Distribute2(2 * u + 1, n, d);
    Distribute2(2 * u - 1 - n, n, d);
    assert (2 * r) * d == 2 * (r * d);
    NoCarryStrict(2 * r, 2 * u + 1 + n, d);
    NoCarryStrict(2 * u - 1 - n, 2 * r, d);
  }

  /**
   Charging a total in n readings instead of one moves a level's bill by at most n / 2 rials,
   whatever the split, at a fixed rate and coefficient.
   */
  lemma ReadingDrift(parts: seq<nat>, rate: nat, coef: nat, prices: seq<nat>, whole: nat)
    requires |prices| == |parts| && Sum(parts) >= 0
    requires forall i :: 0 <= i < |parts| ==> PriceUsage(parts[i], rate, coef) == Ok(prices[i])
    requires PriceUsage(Sum(parts), rate, coef) == Ok(whole)
    requires Sum(parts) * rate * coef < LIMIT
    ensures -(|parts| as int) <= 2 * (Sum(prices) - whole) <= |parts|
  {
    hide PriceUsage;
    var w := rate * coef;
    Reassociate(Sum(parts), rate, coef);
    PriceOfWeight(Sum(parts), rate, coef, w);
    PricesAreRounded(parts, rate, coef, w, prices);
    SplitDrift(parts, w, UNIT);
  }

  lemma PriceOfWeight(delta: nat, rate: nat, coef: nat, w: nat)
    requires w == rate * coef && delta * w < LIMIT
    ensures PriceUsage(delta, rate, coef) == Ok(HalfUp(delta * w, UNIT))
  {
    Reassociate(delta, rate, coef);
    ExactPrice(delta, rate, coef);
  }

  lemma {:induction false} PricesAreRounded(parts: seq<nat>, rate: nat, coef: nat, w: nat, prices: seq<nat>)
    requires |prices| == |parts| && w == rate * coef && Sum(parts) * w < LIMIT
    requires forall i :: 0 <= i < |parts| ==> PriceUsage(parts[i], rate, coef) == Ok(prices[i])
    ensures Sum(prices) == RoundedParts(parts, w, UNIT)
  {
    hide PriceUsage, HalfUp;
    if parts != [] {
      var n := |parts| - 1;
      PartsBounds(parts[..n], w, 1);
      SplitProduct(Sum(parts[..n]), parts[n], w);
      PriceOfWeight(parts[n], rate, coef, w);
      PricesAreRounded(parts[..n], rate, coef, w, prices[..n]);
    }
  }

  lemma Reassociate(a: int, b: int, c: int)
    ensures a * b * c == a * (b * c)
  {}

  lemma SplitProduct(a: nat, b: nat, w: nat)
    requires (a + b) * w < LIMIT
    ensures a * w < LIMIT && b * w < LIMIT
  {
    Distribute2(a, b, w);
  }
}
