/** The random choice of playtree.c, with the rounding of its floats. */
module RandomDraw {
  const RAND_MAX := 0x7fff_ffff
  const MANTISSA := 0x100_0000   // the whole numbers below it are floats

  /** The distance between floats around `n`. */
  function Unit(n: nat): (u: nat)
    ensures u > 0
  {
    if n < MANTISSA then 1 else 2 * Unit(n / 2)
  }

  /** The float nearest to `n`, the even one of two that are equally near. */
  function Float(n: nat): nat { Rounded(n / Unit(n), n % Unit(n), Unit(n)) }

  /** The multiple of `u` that is nearest to `q` units and a rest. */
  function Rounded(q: nat, r: nat, u: nat): nat {
    if 2 * r > u || (2 * r == u && q % 2 == 1) then (q + 1) * u else q * u
  }

  /** Rounding moves a number by half a unit at most. */
  lemma FloatMoves(n: nat)
    ensures 2 * (Float(n) - n) <= Unit(n) && 2 * (n - Float(n)) <= Unit(n)
  {
    hide Unit, Rounded;
    UnitMoves(n, Unit(n));
  }

  lemma UnitMoves(n: nat, u: nat)
    requires u > 0
    ensures 2 * (Rounded(n / u, n % u, u) - n) <= u && 2 * (n - Rounded(n / u, n % u, u)) <= u
  {
    hide Rounded;
    Euclid(n, u);
    var q, r := n / u, n % u;
    RoundedMoves(n, q, r, u);
  }

  lemma RoundedMoves(n: nat, q: nat, r: nat, u: nat)
    requires n == q * u + r && r < u
    ensures 2 * (Rounded(q, r, u) - n) <= u && 2 * (n - Rounded(q, r, u)) <= u
  {
    assert (q + 1) * u == q * u + u;
  }

  /** The number of the choice that the random number `rnd` makes: a product of floats, scaled down. */
  function Draw(count: nat, rnd: nat): nat { Float(Product(Float(count), Float(rnd))) / (RAND_MAX + 1) }

  function Product(a: nat, b: nat): nat { a * b }

  /** The 64 highest random numbers. */
  predicate Top(rnd: nat) { rnd >= RAND_MAX - 63 }

  lemma {:induction false} UnitBound(n: nat)
    ensures Unit(n) == 1 || Unit(n) * 0x80_0000 <= n
  {
    if n >= MANTISSA { UnitBound(n / 2); }
  }

  /** Rounding adds at most one part in two to the 24. */
  lemma FloatAbove(n: nat)
    ensures (Float(n) - n) * MANTISSA <= n
  {
    FloatMoves(n);
    UnitBound(n);
    hide Float, Unit;
  }

  /** It takes away no more either. */
  lemma FloatBelow(n: nat)
    ensures (n - Float(n)) * MANTISSA <= n
  {
    FloatMoves(n);
    UnitBound(n);
    hide Float, Unit;
  }

  lemma FloatTwice(n: nat)
    requires 2 * n >= MANTISSA
    ensures Float(2 * n) == 2 * Float(n)
  {
    var u := Unit(n);
    var q, r := n / u, n % u;
    assert 2 * n / 2 == n && Unit(2 * n) == 2 * u;
    assert 2 * n == q * (2 * u) + 2 * r;
    Divides(2 * n, 2 * u, q, 2 * r);
    assert (q + 1) * (2 * u) == 2 * ((q + 1) * u) && q * (2 * u) == 2 * (q * u);
  }

  lemma TimesMore(a: int, b: int, u: int)
    requires a <= b && u >= 0
    ensures a * u <= b * u
  {
  }

  lemma Divides(n: nat, u: nat, q: nat, r: nat)
    requires u > 0 && n == q * u + r && r < u
    ensures n / u == q && n % u == r
  {
    var k := n / u;
    if k < q { TimesMore(k + 1, q, u); }
    if k > q { TimesMore(q + 1, k, u); }
    assert (k + 1) * u == k * u + u && (q + 1) * u == q * u + u;
    Euclid(n, u);
  }

  lemma Euclid(n: nat, u: nat)
    requires u > 0
    ensures n == (n / u) * u + n % u && n % u < u
  {
  }

  function Power(k: nat): nat { if k == 0 then 1 else 2 * Power(k - 1) }

  /** A whole number of few digits, scaled by a power of two, is a float. */
  lemma {:induction false} FloatScaled(n: nat, k: nat)
    requires n < MANTISSA
    ensures Float(n * Power(k)) == n * Power(k)
  {
    if k > 0 {
      assert n * Power(k) == 2 * (n * Power(k - 1));
      FloatScaled(n, k - 1);
      hide Float, Power;
      if n * Power(k) < MANTISSA {
        FloatSmall(n * Power(k));
      } else {
        FloatTwice(n * Power(k - 1));
      }
    } else {
      FloatSmall(n);
    }
  }

  lemma FloatSmall(n: nat)
    requires n < MANTISSA
    ensures Float(n) == n
  {
    assert Unit(n) == 1 && n / 1 == n && n % 1 == 0;
  }

  lemma UnitOfRand(rnd: nat)
    requires RAND_MAX / 2 < rnd <= RAND_MAX
    ensures Unit(rnd) == 128
  {
    assert forall n: nat :: n >= MANTISSA ==> Unit(n) == 2 * Unit(n / 2);
    assert Unit(rnd / 128) == 1;
    assert Unit(rnd / 64) == 2 by { assert rnd / 64 / 2 == rnd / 128; }
    assert Unit(rnd / 32) == 4 by { assert rnd / 32 / 2 == rnd / 64; }
    assert Unit(rnd / 16) == 8 by { assert rnd / 16 / 2 == rnd / 32; }
    assert Unit(rnd / 8) == 16 by { assert rnd / 8 / 2 == rnd / 16; }
    assert Unit(rnd / 4) == 32 by { assert rnd / 4 / 2 == rnd / 8; }
    assert Unit(rnd / 2) == 64 by { assert rnd / 2 / 2 == rnd / 4; }
  }

  /** The highest random numbers round up to the whole range. */
  lemma FloatOfRand(rnd: nat)
    requires rnd <= RAND_MAX
    ensures if Top(rnd) then Float(rnd) == RAND_MAX + 1 else Float(rnd) <= RAND_MAX - 127
  {
    if rnd <= RAND_MAX / 2 {
      FloatAbove(rnd);
      hide Float;
    } else {
      UnitOfRand(rnd);
      hide Unit, Rounded;
      RoundedOfRand(rnd);
    }
  }

  lemma RoundedOfRand(rnd: nat)
    requires rnd <= RAND_MAX
    ensures var f := Rounded(rnd / 128, rnd % 128, 128);
      if Top(rnd) then f == RAND_MAX + 1 else f <= RAND_MAX - 127
  {
  }

  /** The draw is one of the choices, except that the highest random numbers draw none. */
  lemma DrawExactly(count: nat, rnd: nat)
    requires 0 < count < MANTISSA && rnd <= RAND_MAX
    ensures if Top(rnd) then Draw(count, rnd) == count else Draw(count, rnd) < count
  {
    FloatSmall(count);
    FloatOfRand(rnd);
    hide Float;
    if Top(rnd) {
      DrawTop(count);
    } else {
      DrawBelow(count, Float(rnd));
    }
  }

  lemma DrawTop(count: nat)
    requires count < MANTISSA
    ensures Float(count * (RAND_MAX + 1)) / (RAND_MAX + 1) == count
  {
    HighestPower();
    hide Float, Power;
    FloatScaled(count, 31);
    Divides(count * (RAND_MAX + 1), RAND_MAX + 1, count, 0);
  }

  lemma HighestPower()
    ensures Power(31) == RAND_MAX + 1
  {
    assert Power(8) == 0x100 && Power(16) == 0x1_0000 && Power(24) == 0x100_0000;
  }

  lemma DrawBelow(count: nat, f: nat)
    requires 0 < count && f <= RAND_MAX - 127
    ensures Float(count * f) / (RAND_MAX + 1) < count
  {
    hide Float;
    var p := count * f;
    FloatAbove(p);
    TimesMore(f, RAND_MAX - 127, count);
    assert p <= count * (RAND_MAX - 127) == count * (RAND_MAX + 1) - count * 128;
    assert Float(p) < count * (RAND_MAX + 1);
    DividesBelow(Float(p), RAND_MAX + 1, count);
  }

  lemma DividesBelow(n: nat, u: nat, q: nat)
    requires u > 0 && n < q * u
    ensures n / u < q
  {
    if n / u >= q { TimesMore(q, n / u, u); }
    Euclid(n, u);
  }

  /** The draw is the place of the random number in its range, scaled to the count, up to the rounding of floats. */
  lemma DrawNear(count: nat, rnd: nat)
    requires 0 < count < MANTISSA && rnd <= RAND_MAX
    ensures Draw(count, rnd) * (RAND_MAX + 1) <= count * (rnd + 256)
    ensures count * (rnd - 256) < (Draw(count, rnd) + 1) * (RAND_MAX + 1)
  {
    FloatSmall(count);
    FloatOfRand(rnd);
    FloatAbove(rnd);
    FloatBelow(rnd);
    hide Float;
    ProductNear(count, rnd, Float(rnd));
    Euclid(Float(count * Float(rnd)), RAND_MAX + 1);
  }

  lemma ProductNear(count: nat, rnd: nat, f: nat)
    requires 0 < count && rnd - 128 < f < rnd + 128 && f <= RAND_MAX + 1
    ensures count * (rnd - 256) < Float(count * f) < count * (rnd + 256)
  {
    TimesMore(f, RAND_MAX + 1, count);
    TimesMore(f, rnd + 127, count);
    TimesMore(rnd - 127, f, count);
    Scaled(count, rnd);
    FloatWithin(count * f, count);
  }

  lemma FloatWithin(p: nat, count: nat)
    requires p <= count * (RAND_MAX + 1)
    ensures p - count * 128 <= Float(p) <= p + count * 128
  {
    FloatAbove(p);
    FloatBelow(p);
    hide Float;
    assert count * (RAND_MAX + 1) == count * 128 * MANTISSA;
  }

  lemma Scaled(count: nat, rnd: nat)
    ensures (rnd + 127) * count == count * rnd + 127 * count && (rnd - 127) * count == count * rnd - 127 * count
    ensures count * (rnd + 256) == count * rnd + 256 * count && count * (rnd - 256) == count * rnd - 256 * count
  {
  }
}
