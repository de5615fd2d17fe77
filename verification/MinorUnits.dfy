/** Prices as IEEE 754 binary64 numbers and their way to minor units
    (internal/grpc/v1/server.go). */
module MinorUnits {
  import opened Catalog

  const TWO52 := 0x10_0000_0000_0000
  const TWO53 := 0x20_0000_0000_0000

  /** m * 2^e */
  function Scale(m: int, e: int): real
    decreases if e < 0 then -e else e
  {
    if e == 0 then m as real else if e > 0 then Scale(m + m, e - 1) else Scale(m, e + 1) / 2.0
  }

  /** x * 2^-e */
  function Units(x: real, e: int): real
    decreases if e < 0 then -e else e
  {
    if e == 0 then x else if e > 0 then Units(x / 2.0, e - 1) else Units(x + x, e + 1)
  }

  predicate IsDoubleAs(x: real, m: int, e: int) {
    -TWO53 < m < TWO53 && -1074 <= e <= 971 && x == Scale(m, e)
  }

  /** The finite doubles, subnormals included. */
  ghost predicate IsDouble(x: real) { exists m: int, e: int :: IsDoubleAs(x, m, e) }

  function Gap(x: real, y: real): real { if x < y then y - x else x - y }

  /** d is a double no other double is closer to x than. */
  ghost predicate IsNearest(x: real, d: real) {
    IsDouble(d) && forall y | IsDouble(y) :: Gap(x, d) <= Gap(x, y)
  }

  // ------------------------------------------------------------- arithmetic

  lemma {:induction false} ScaleAdds(a: int, b: int, e: int)
    ensures Scale(a + b, e) == Scale(a, e) + Scale(b, e)
    decreases if e < 0 then -e else e
  {
    if e > 0 {
      ScaleAdds(a + a, b + b, e - 1);
      assert a + b + (a + b) == a + a + (b + b);
    } else if e < 0 {
      ScaleAdds(a, b, e + 1);
    }
  }

  lemma {:induction false} ScalePositive(m: int, e: int)
    requires m > 0
    ensures Scale(m, e) > 0.0
    decreases if e < 0 then -e else e
  {
    if e > 0 { ScalePositive(m + m, e - 1); } else if e < 0 { ScalePositive(m, e + 1); }
  }

  lemma ScaleOrder(a: int, b: int, e: int)
    requires a <= b
    ensures Scale(a, e) <= Scale(b, e)
  {
    if a < b {
      ScaleAdds(a, b - a, e);
      ScalePositive(b - a, e);
    }
  }

  lemma {:induction false} Doubling(m: int, e: int)
    ensures Scale(m, e + 1) == Scale(m + m, e)
    decreases if e < 0 then -e else 0
  {
    if e < 0 {
      ScaleAdds(m, m, e);
      assert Scale(m, e) == Scale(m, e + 1) / 2.0;
    }
  }

  lemma {:induction false} ScaleConstant(e: int)
    ensures Scale(TWO52, e) == TWO52 as real * Scale(1, e)
    decreases if e < 0 then -e else e
  {
    if e > 0 {
      ScaleConstant(e - 1);
      ScaleAdds(TWO52, TWO52, e - 1);
      ScaleAdds(1, 1, e - 1);
    } else if e < 0 {
      ScaleConstant(e + 1);
    }
  }

  /** A multiple of a coarser spacing is a larger multiple of a finer one. */
  lemma {:induction false} AsFiner(n: int, coarse: int, fine: int) returns (t: int)
    requires fine <= coarse
    ensures Scale(n, coarse) == Scale(t, fine)
    ensures n >= 0 ==> t >= n && (fine < coarse ==> t >= n + n)
    decreases coarse - fine
  {
    if fine == coarse {
      t := n;
    } else {
      Doubling(n, coarse - 1);
      t := AsFiner(n + n, coarse - 1, fine);
    }
  }

  /** Units counts in multiples of 2^e. */
  lemma {:induction false} UnitsOrder(x: real, m: int, e: int)
    ensures Units(x, e) <= m as real <==> x <= Scale(m, e)
    ensures Units(x, e) >= m as real <==> x >= Scale(m, e)
    decreases if e < 0 then -e else e
  {
    if e > 0 {
      UnitsOrder(x / 2.0, m, e - 1);
      ScaleAdds(m, m, e - 1);
    } else if e < 0 {
      UnitsOrder(x + x, m, e + 1);
    }
  }

  lemma {:induction false} UnitsDouble(x: real, e: int)
    ensures Units(x + x, e) == Units(x, e) + Units(x, e)
    decreases if e < 0 then -e else e
  {
    if e > 0 { UnitsDouble(x / 2.0, e - 1); } else if e < 0 { UnitsDouble(x + x, e + 1); }
  }

  // ---------------------------------------------------------------- rounding

  /** x lies in the binade whose doubles are 2^e apart. */
  predicate InBinade(x: real, e: int) { Scale(TWO52, e) <= x < Scale(TWO53, e) }

  /** The positive numbers that round to a normal double below the overflow. */
  predicate IsNormal(x: real) { exists e: int | -1074 <= e <= 970 :: InBinade(x, e) }

  lemma BinadeOrder(x: real, a: int, b: int)
    requires InBinade(x, a) && InBinade(x, b)
    ensures a >= b
  {
    if a < b {
      var t := AsFiner(TWO52, b, a);
      ScaleOrder(TWO53, t, a);
    }
  }

  lemma BinadeUnique(x: real)
    ensures forall a, b | InBinade(x, a) && InBinade(x, b) :: a == b
  {
    forall a, b | InBinade(x, a) && InBinade(x, b)
      ensures a == b
    {
      BinadeOrder(x, a, b);
      BinadeOrder(x, b, a);
    }
  }

  function Exponent(x: real): (e: int)
    requires IsNormal(x)
    ensures -1074 <= e <= 970 && InBinade(x, e)
  {
    BinadeUnique(x);
    var e: int :| -1074 <= e <= 970 && InBinade(x, e); e
  }

  function RoundHalfEven(u: real): int {
    var m, rest := u.Floor, u - u.Floor as real;
    if rest < 0.5 || (rest == 0.5 && m % 2 == 0) then m else m + 1
  }

  /** Rounding to nearest, ties to even (section 4.3.1 of IEEE 754-2019). */
  function ToDouble(x: real): real
    requires x == 0.0 || IsNormal(x)
  {
    if x == 0.0 then 0.0 else var e := Exponent(x); Scale(RoundHalfEven(Units(x, e)), e)
  }

  lemma MultiplesApart(m: int, e: int, n: int, f: int)
    requires m >= TWO52 && n < TWO53
    ensures Scale(n, f) <= Scale(m, e) || Scale(n, f) >= Scale(m + 1, e)
  {
    if f >= e {
      var t := AsFiner(n, f, e);
      if t <= m { ScaleOrder(t, m, e); } else { ScaleOrder(m + 1, t, e); }
    } else {
      var t := AsFiner(m, e, f);
      ScaleOrder(n, t, f);
    }
  }

  /** Neighbours in a binade have no double between them. */
  lemma NoDoubleBetween(m: int, e: int, y: real)
    requires m >= TWO52 && IsDouble(y)
    ensures y <= Scale(m, e) || y >= Scale(m + 1, e)
  {
    var n: int, f: int :| IsDoubleAs(y, n, f);
    MultiplesApart(m, e, n, f);
  }

  lemma SignificandIsDouble(m: int, e: int)
    requires TWO52 <= m <= TWO53 && -1074 <= e <= 970
    ensures IsDouble(Scale(m, e))
  {
    if m < TWO53 {
      assert IsDoubleAs(Scale(m, e), m, e);
    } else {
      Doubling(TWO52, e);
      assert IsDoubleAs(Scale(m, e), TWO52, e + 1);
    }
  }

  lemma SignificandRange(x: real, e: int)
    requires InBinade(x, e)
    ensures TWO52 <= Units(x, e).Floor < TWO53
  {
    UnitsOrder(x, TWO52, e);
    UnitsOrder(x, TWO53, e);
  }

  /** The rounded significand is the nearer of the two around x. */
  lemma RoundedIsNearer(x: real, e: int)
    ensures var m := Units(x, e).Floor;
      var d := Scale(RoundHalfEven(Units(x, e)), e);
      && Scale(m, e) <= x <= Scale(m + 1, e)
      && (RoundHalfEven(Units(x, e)) == m || RoundHalfEven(Units(x, e)) == m + 1)
      && Gap(x, d) <= x - Scale(m, e) && Gap(x, d) <= Scale(m + 1, e) - x
  {
    var m := Units(x, e).Floor;
    UnitsOrder(x, m, e);
    UnitsOrder(x, m + 1, e);
    UnitsDouble(x, e);
    UnitsOrder(x + x, m + m + 1, e);
    ScaleAdds(m, m + 1, e);
    assert m + (m + 1) == m + m + 1;
  }

  lemma HalfSpacing(x: real, m: int, e: int, gap: real)
    requires InBinade(x, e) && gap <= x - Scale(m, e) && gap <= Scale(m + 1, e) - x
    ensures gap * TWO53 as real <= x
  {
    ScaleAdds(m, 1, e);
    ScaleConstant(e);
  }

  /** ToDouble really is nearest, with a relative error of at most 2^-53. */
  lemma ToDoubleIsNearest(x: real)
    requires x != 0.0 && IsNormal(x)
    ensures IsNearest(x, ToDouble(x))
    ensures Gap(x, ToDouble(x)) * TWO53 as real <= x
  {
    var e := Exponent(x);
    var m, d := Units(x, e).Floor, ToDouble(x);
    SignificandRange(x, e);
    RoundedIsNearer(x, e);
    SignificandIsDouble(RoundHalfEven(Units(x, e)), e);
    HalfSpacing(x, m, e, Gap(x, d));
    forall y | IsDouble(y)
      ensures Gap(x, d) <= Gap(x, y)
    {
      NoDoubleBetween(m, e, y);
    }
  }

  /** Whichever way ties go, rounding has a relative error of at most 2^-53. */
  lemma RelativeError(x: real, d: real)
    requires x != 0.0 && IsNormal(x) && IsNearest(x, d)
    ensures Gap(x, d) * TWO53 as real <= x
  {
    ToDoubleIsNearest(x);
    assert Gap(x, d) <= Gap(x, ToDouble(x));
  }

  // ------------------------------------------------------------- minor units

  lemma {:induction false} BinadeExists(x: real, e: int, n: nat)
    requires -1074 <= e && e + n <= 971 && Scale(TWO52, e) <= x < Scale(TWO52, e + n)
    ensures IsNormal(x)
    decreases n
  {
    Doubling(TWO52, e);
    if n > 0 && Scale(TWO52, e + 1) <= x {
      BinadeExists(x, e + 1, n - 1);
    } else if n > 0 {
      assert InBinade(x, e);
    }
  }

  lemma NormalRange(x: real)
    requires 0.005 <= x <= 100000000000.0
    ensures IsNormal(x)
  {
    assert Scale(TWO52, -12) == (TWO52 / 0x1000) as real >= 1000000000000.0;
    assert Scale(TWO52, -24) == (TWO52 / 0x1000000) as real;
    assert Scale(TWO52, -36) == (TWO52 / 0x10_0000_0000) as real;
    assert Scale(TWO52, -48) == (TWO52 / 0x1_0000_0000_0000) as real;
    assert Scale(TWO52, -60) == 1.0 / 256.0;
    BinadeExists(x, -60, 48);
  }

  /** Two relative errors of 2^-53 on at most ten digits stay far below half a unit. */
  lemma ErrorBudget(x: real, d: real, p: real)
    requires 0.01 <= x <= 100000000.0
    requires Gap(x, d) * TWO53 as real <= x && Gap(d * 100.0, p) * TWO53 as real <= d * 100.0
    ensures Gap(x * 100.0, p) < 0.5
  {
    assert Gap(x, d) <= 0.0001;
    assert Gap(d * 100.0, p) <= 0.01;
  }

  /** However the two roundings break their ties: the price read as a double, times
      100 in double arithmetic, rounded half away from zero, is the stored number
      of cents, for every price DECIMAL(10,2) can hold. */
  lemma MinorUnitsExact(cents: int, d: real, p: real)
    requires 0 <= cents <= MAX_CENTS
    requires IsNearest(Dollars(cents), d) && IsNearest(d * 100.0, p)
    ensures RoundHalfAway(p) == cents
  {
    var x := Dollars(cents);
    if cents == 0 {
      assert IsDoubleAs(0.0, 0, 0);
      assert Gap(x, d) <= Gap(x, 0.0);
      assert Gap(d * 100.0, p) <= Gap(d * 100.0, 0.0);
    } else {
      NormalRange(x);
      RelativeError(x, d);
      NormalRange(d * 100.0);
      RelativeError(d * 100.0, p);
      ErrorBudget(x, d, p);
      assert x * 100.0 == cents as real;
    }
  }

  /** int64(math.Round(p.Price * 100)) of a price read as a double. */
  function MinorUnits(price: real): int
    requires price * 100.0 == 0.0 || IsNormal(price * 100.0)
  {
    RoundHalfAway(ToDouble(price * 100.0))
  }

  /** The double a stored price is scanned into. */
  function ScannedPrice(cents: int): (price: real)
    requires 0 <= cents <= MAX_CENTS
    ensures price * 100.0 == 0.0 || IsNormal(price * 100.0)
  {
    var x := Dollars(cents);
    if cents > 0 then
      NormalRange(x);
      ToDoubleIsNearest(x);
      NormalRange(ToDouble(x) * 100.0);
      ToDouble(x)
    else 0.0
  }

  /** Minor units give back exactly the stored cents. */
  lemma PricesKeepTheirCents(cents: int)
    requires 0 <= cents <= MAX_CENTS
    ensures MinorUnits(ScannedPrice(cents)) == cents
  {
    var d := ScannedPrice(cents);
    if cents > 0 {
      NormalRange(Dollars(cents));
      ToDoubleIsNearest(Dollars(cents));
      ToDoubleIsNearest(d * 100.0);
      MinorUnitsExact(cents, d, ToDouble(d * 100.0));
    }
  }
}
