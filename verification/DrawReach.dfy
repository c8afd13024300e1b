/** Which choices the random draw of playtree.c can make at all. */
module DrawReach {
  import opened RandomDraw

  const RANGE := RAND_MAX + 1

  lemma Powers()
    ensures Power(6) == 0x40 && Power(7) == 0x80 && Power(30) == 0x4000_0000 && Power(31) == 0x8000_0000
    ensures Power(53) == 0x20_0000_0000_0000
  {
    assert Power(10) == 0x400 && Power(20) == 0x10_0000;
    assert Power(25) == 0x200_0000 && Power(35) == 0x8_0000_0000 && Power(45) == 0x2000_0000_0000;
    assert Power(50) == 0x4_0000_0000_0000;
  }

  lemma {:induction false} UnitIs(n: nat, k: nat)
    requires 0x80_0000 * Power(k) <= n < MANTISSA * Power(k)
    ensures Unit(n) == Power(k)
  {
    if k > 0 {
      assert n / 2 < MANTISSA * Power(k - 1);
      UnitIs(n / 2, k - 1);
      assert Power(k) >= 2;
    }
  }

  /** The multiple of the unit that is nearest, the even one of two. */
  lemma Nearest(n: nat, k: nat) returns (q: nat)
    requires 0x80_0000 * Power(k) <= n < MANTISSA * Power(k)
    ensures Float(n) == q * Power(k)
    ensures 2 * (Float(n) - n) <= Power(k) && 2 * (n - Float(n)) <= Power(k)
    ensures 2 * (Float(n) - n) == Power(k) || 2 * (n - Float(n)) == Power(k) ==> q % 2 == 0
  {
    UnitIs(n, k);
    var u := Unit(n);
    Euclid(n, u);
    hide Unit, Power;
    RoundedMoves(n, n / u, n % u, u);
    q := RoundedEven(n, n / u, n % u, u);
  }

  lemma RoundedEven(n: nat, a: nat, r: nat, u: nat) returns (q: nat)
    requires n == a * u + r && r < u
    ensures var f := Rounded(a, r, u);
      (f == q * u && (2 * (f - n) == u || 2 * (n - f) == u ==> q % 2 == 0))
  {
    assert (a + 1) * u == a * u + u;
    q := if 2 * r > u || (2 * r == u && a % 2 == 1) then a + 1 else a;
  }

  /** Rounding does not go below a float. */
  lemma {:induction false} FloatAtLeast(n: nat, a: nat, k: nat)
    requires a <= MANTISSA && n >= a * Power(k)
    ensures Float(n) >= a * Power(k)
  {
    if n < MANTISSA {
      FloatSmall(n);
    } else if k > 0 {
      assert a * Power(k) == 2 * (a * Power(k - 1)) && n / 2 >= a * Power(k - 1);
      FloatAtLeast(n / 2, a, k - 1);
      FloatHalf(n);
    } else {
      Large(n);
    }
  }

  lemma Large(n: nat)
    requires n >= MANTISSA
    ensures Float(n) >= MANTISSA
  {
    UnitBound(n);
    var u := Unit(n);
    Euclid(n, u);
    if n / u < 0x80_0000 { TimesMore(n / u + 1, 0x80_0000, u); }
    TimesMore(0x80_0000, n / u, u);
    assert u >= 2 && (n / u + 1) * u == n / u * u + u;
  }

  lemma FloatHalf(n: nat)
    requires n >= MANTISSA
    ensures Float(n) >= 2 * Float(n / 2)
  {
    HalfParts(n);
    var u, q, r := Unit(n / 2), n / 2 / Unit(n / 2), n / 2 % Unit(n / 2);
    hide Unit;
    RoundedTwice(q, r, u, n % 2);
  }

  lemma RoundedTwice(q: nat, r: nat, u: nat, b: nat)
    requires r < u
    ensures Rounded(q, 2 * r + b, 2 * u) >= 2 * Rounded(q, r, u)
  {
    assert q * (2 * u) == 2 * (q * u) && (q + 1) * (2 * u) == 2 * ((q + 1) * u);
    TimesMore(q, q + 1, u);
  }

  lemma HalfParts(n: nat)
    requires n >= MANTISSA
    ensures Unit(n) == 2 * Unit(n / 2) && n / Unit(n) == n / 2 / Unit(n / 2)
    ensures n % Unit(n) == 2 * (n / 2 % Unit(n / 2)) + n % 2
  {
    var h := n / 2;
    assert Unit(n) == 2 * Unit(h);
    HalfDivides(n, Unit(h));
  }

  lemma HalfDivides(n: nat, u: nat)
    requires u > 0
    ensures n / (2 * u) == n / 2 / u && n % (2 * u) == 2 * (n / 2 % u) + n % 2
  {
    var h := n / 2;
    var q, r := h / u, h % u;
    Euclid(h, u);
    assert q * (2 * u) == 2 * (q * u);
    Divides(n, 2 * u, q, 2 * r + n % 2);
  }

  // ---------------------------------------------------------------------------------
  // From one product to the next

  function Place(p: nat): nat { Float(p) / RANGE }

  /** Products that are close together are drawn to the same choice or to the next one. */
  lemma SmallStep(p: nat, next: nat)
    requires p <= next <= p + 0x4000_0000 && next <= 0x40_0000_0000_0000
    ensures Place(next) <= Place(p) + 1
  {
    var d := Place(p);
    Powers();
    FloatAbove(p);
    FloatAbove(next);
    hide Float, Power;
    Euclid(Float(p), RANGE);
    if d + 1 <= MANTISSA && p >= (d + 1) * RANGE {
      FloatAtLeast(p, d + 1, 31);
    }
    assert d * RANGE <= Float(p) < (d + 1) * RANGE;
    assert Float(next) <= next + 0x4000_0000 < (d + 2) * RANGE;
    DividesBelow(Float(next), RANGE, d + 2);
  }

  const SKIPPED := 0x80_0000

  /** Products that are further apart too, with one choice that may be passed over. */
  lemma LargeStep(p: nat, next: nat)
    requires p <= next < p + RANGE && 0x20_0000_0000_0000 <= p && next < 0x80_0000_0000_0000
    ensures Place(next) <= Place(p) + 2 && (Place(next) == Place(p) + 2 ==> Place(p) + 1 == SKIPPED)
  {
    Powers();
    hide Float, Power;
    if next < 0x40_0000_0000_0000 {
      var q := Nearest(p, 30);
      var r := Nearest(next, 30);
      Halves(q, r);
    } else if p >= 0x40_0000_0000_0000 {
      var q := Nearest(p, 31);
      var r := Nearest(next, 31);
      Divides(q * RANGE, RANGE, q, 0);
      Divides(r * RANGE, RANGE, r, 0);
    } else {
      var q := Nearest(p, 30);
      var r := Nearest(next, 31);
      Halves(q, q);
      Divides(r * RANGE, RANGE, r, 0);
    }
  }

  lemma Halves(q: nat, r: nat)
    ensures q * 0x4000_0000 / RANGE == q / 2 && r * 0x4000_0000 / RANGE == r / 2
  {
  }

  // ---------------------------------------------------------------------------------
  // Random numbers that are floats, with all choices between them

  const LAST := 0x180_0000

  function Grid(i: nat): nat { if i <= MANTISSA then 64 * i else 128 * (i - 0x80_0000) }

  lemma GridFloat(i: nat)
    requires i <= LAST
    ensures Float(Grid(i)) == Grid(i) && Grid(i) <= RANGE
    ensures i < LAST ==> Grid(i) <= RAND_MAX && !Top(Grid(i)) && Grid(i) < Grid(i + 1)
    ensures i == LAST ==> Grid(i) == RANGE
  {
    Powers();
    hide Float, Power;
    if i < MANTISSA {
      FloatScaled(i, 6);
    } else if i < LAST {
      FloatScaled(i - 0x80_0000, 7);
    } else {
      FloatScaled(1, 31);
    }
  }

  function DrawnAt(count: nat, i: nat): nat { Place(count * Grid(i)) }

  lemma GridStep(count: nat, i: nat)
    requires 0 < count < MANTISSA && i < LAST
    ensures var d, e := DrawnAt(count, i), DrawnAt(count, i + 1);
      (e <= d + 2 && (e == d + 2 ==> d + 1 == SKIPPED && count > SKIPPED))
  {
    hide Float, Place;
    GridFloat(i);
    GridFloat(i + 1);
    if i < MANTISSA {
      LowStep(count, Grid(i));
    } else {
      HighStep(count, Grid(i));
    }
  }

  lemma LowStep(count: nat, f: nat)
    requires 0 < count < MANTISSA && f + 64 <= 0x4000_0000
    ensures Place(count * (f + 64)) <= Place(count * f) + 1
  {
    hide Place;
    TimesMore(f + 64, 0x4000_0000, count);
    Further(count, f, 64);
    SmallStep(count * f, count * (f + 64));
  }

  lemma HighStep(count: nat, f: nat)
    requires 0 < count < MANTISSA && 0x4000_0000 <= f && f + 128 <= RANGE
    ensures var d, e := Place(count * f), Place(count * (f + 128));
      (e <= d + 2 && (e == d + 2 ==> d + 1 == SKIPPED && count > SKIPPED))
  {
    hide Place;
    TimesMore(f + 128, RANGE, count);
    Further(count, f, 128);
    if count <= SKIPPED {
      SmallStep(count * f, count * (f + 128));
    } else {
      TimesMore(0x4000_0000, f, count);
      LargeStep(count * f, count * (f + 128));
    }
  }

  lemma Further(count: nat, f: nat, s: nat)
    ensures count * (f + s) == count * f + count * s && (f + s) * count == count * (f + s) && f * count == count * f
  {
  }

  /** Two neighbours with the choice `j` at the first one or between them. */
  lemma Between(count: nat, j: nat, n: nat) returns (i: nat)
    requires DrawnAt(count, 0) <= j < DrawnAt(count, n)
    ensures i < n && DrawnAt(count, i) <= j < DrawnAt(count, i + 1)
  {
    hide DrawnAt;
    i := n - 1;
    while j < DrawnAt(count, i)
      invariant i < n && j < DrawnAt(count, i + 1)
      decreases i
    {
      i := i - 1;
    }
  }

  ghost predicate Drawn(count: nat, j: nat) {
    exists rnd :: 0 <= rnd <= RAND_MAX && !Top(rnd) && Draw(count, rnd) == j
  }

  /** Whether some multiple of the count comes near the one choice that may be passed over. */
  predicate ReachesAll(count: nat)
    requires count > 0
  {
    0x8000_0080_0000 % count <= 0xc0_0000
  }

  lemma DrawOfFloat(count: nat, rnd: nat)
    requires count < MANTISSA && Float(rnd) == rnd
    ensures Draw(count, rnd) == Place(count * rnd)
  {
    FloatSmall(count);
    hide Float;
  }

  /** Every choice but the one that may be passed over is drawn by some random number. */
  lemma OthersDrawn(count: nat, j: nat)
    requires 0 < count < MANTISSA && j < count
    requires j != SKIPPED || count <= SKIPPED
    ensures Drawn(count, j)
  {
    hide Float, Draw, Grid;
    GridFloat(LAST);
    GridFloat(0);
    DrawTop(count);
    assert Grid(0) == 0 by { Zero(); }
    FloatSmall(0);
    var i := Between(count, j, LAST);
    GridStep(count, i);
    GridFloat(i);
    DrawOfFloat(count, Grid(i));
    assert Draw(count, Grid(i)) == j;
  }

  lemma Zero()
    ensures Grid(0) == 0
  {
  }

  /** The choice that may be passed over is drawn when a multiple of the count comes near it. */
  lemma SkippedDrawn(count: nat)
    requires SKIPPED < count < MANTISSA && ReachesAll(count)
    ensures Drawn(count, SKIPPED)
  {
    var top := 0x8000_0080_0000;
    var m := top / count;
    Euclid(top, count);
    if m >= MANTISSA { TimesMore(MANTISSA, m, count); }
    assert count * m == m * count && count * (128 * m) == 128 * (count * m);
    Powers();
    FloatScaled(m, 7);
    hide Float, Draw, Power;
    DrawOfFloat(count, 128 * m);
    NearSkipped(count * (128 * m));
    assert Draw(count, 128 * m) == SKIPPED;
  }

  /** The products that are rounded to that choice. */
  lemma NearSkipped(p: nat)
    requires 0x20_0000_0000_0000 <= p < 0x80_0000_0000_0000
    ensures Place(p) == SKIPPED <==> 0x3f_ffff_e000_0000 <= p <= 0x40_0000_4000_0000
  {
    Powers();
    hide Float, Power;
    if p < 0x40_0000_0000_0000 {
      var q := Nearest(p, 30);
      Halves(q, q);
    } else {
      var q := Nearest(p, 31);
      Divides(q * RANGE, RANGE, q, 0);
    }
  }

  /** It is drawn by no random number otherwise. */
  lemma SkippedOnlySo(count: nat, rnd: nat)
    requires SKIPPED < count < MANTISSA && rnd <= RAND_MAX && Draw(count, rnd) == SKIPPED
    ensures ReachesAll(count)
  {
    var f := Float(rnd);
    FloatSmall(count);
    FloatOfRand(rnd);
    hide Float, Unit;
    SkippedProduct(count, f);
    HighFloat(rnd);
    Halved(count, f, f / 128);
    Remainder(0x8000_0080_0000, count, f / 128);
  }

  lemma Halved(count: nat, f: nat, m: nat)
    requires f == 128 * m
    ensures count * f == 128 * (count * m)
  {
  }

  /** The float of the random number that draws it, and its product. */
  lemma SkippedProduct(count: nat, f: nat)
    requires SKIPPED < count < MANTISSA && f <= RANGE && Place(count * f) == SKIPPED
    ensures f > 0x4000_0000 && 0x3f_ffff_e000_0000 <= count * f <= 0x40_0000_4000_0000
  {
    var p := count * f;
    TimesMore(f, RANGE, count);
    TimesMore(count, MANTISSA - 1, RANGE);
    FloatAbove(p);
    hide Float;
    Euclid(Float(p), RANGE);
    NearSkipped(p);
    if f <= 0x4000_0000 { TimesMore(f, 0x4000_0000, count); }
  }

  lemma HighFloat(rnd: nat)
    requires rnd <= RAND_MAX && Float(rnd) > 0x4000_0000
    ensures Float(rnd) % 128 == 0
  {
    Powers();
    hide Float, Power;
    if rnd >= 0x4000_0000 {
      var q := Nearest(rnd, 7);
    } else if rnd >= 0x2000_0000 {
      var q := Nearest(rnd, 6);
    } else {
      FloatAbove(rnd);
    }
  }

  lemma Remainder(n: nat, u: nat, m: nat)
    requires u > 0 && u * m <= n
    ensures n % u <= n - u * m
  {
    Euclid(n, u);
    if n / u < m { TimesMore(n / u + 1, m, u); }
    TimesMore(m, n / u, u);
  }

  /**
   * Every one of the choices is drawn by some random number, if and only if the count is one for which the
   * one choice that rounding may pass over is reached. All counts up to 12582912 are.
   */
  lemma AllDrawnExactly(count: nat)
    requires 0 < count < MANTISSA
    ensures (forall j: nat :: j < count ==> Drawn(count, j)) <==> ReachesAll(count)
    ensures count <= 0xc0_0000 ==> ReachesAll(count)
  {
    hide Draw, Drawn;
    forall j: nat | j < count && (j != SKIPPED || ReachesAll(count)) ensures Drawn(count, j) {
      if j == SKIPPED { SkippedDrawn(count); } else { OthersDrawn(count, j); }
    }
    if !ReachesAll(count) {
      NotDrawn(count);
    }
  }

  lemma NotDrawn(count: nat)
    requires 0 < count < MANTISSA && !ReachesAll(count)
    ensures SKIPPED < count && !Drawn(count, SKIPPED)
  {
    hide Draw;
    forall rnd: nat | rnd <= RAND_MAX ensures Draw(count, rnd) != SKIPPED {
      if Draw(count, rnd) == SKIPPED { SkippedOnlySo(count, rnd); }
    }
  }

  /** There are such counts. */
  lemma PassedOver()
    ensures !ReachesAll(0xc0_155c) && !Drawn(0xc0_155c, SKIPPED)
  {
    NotDrawn(0xc0_155c);
  }
}
