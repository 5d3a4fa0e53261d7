/** Rounding up twice: where a side scaled twice is the side scaled once by the
    product, and where it is not. */
module Nesting {
  import opened Basics
  import opened Fractions
  import opened Sizes

  /** A scale that divides by a whole number, and the number. */
  ghost predicate Divides(scale: real, parts: nat) { parts >= 1 && Times(scale, parts as real) == 1.0 }

  ghost predicate Reciprocal(scale: real) { exists parts: nat :: Divides(scale, parts) }

  /** Whether rounding up at a share and again at a scale is rounding up once at the
      product: the scale divides by a whole number, or there was nothing to round. */
  ghost predicate Nests(share: real, scale: real) {
    Reciprocal(scale) || (share == 1.0 && 0.0 < scale <= 1.0)
  }

  lemma CeilingIs(x: real, up: int)
    requires (up - 1) as real < x <= up as real
    ensures Ceiling(x) == up
  {}

  lemma CeilingBounds(x: real)
    ensures (Ceiling(x) - 1) as real < x <= Ceiling(x) as real
  {}

  lemma TimesMore(a: real, b: real, c: real)
    requires c > 0.0
    ensures a < b <==> Times(a, c) < Times(b, c)
    ensures a <= b <==> Times(a, c) <= Times(b, c)
  {}

  lemma TimesIs(a: real, b: real, c: real)
    ensures Times(Times(a, b), c) == Times(a, Times(b, c)) && Times(a, b) == Times(b, a)
    ensures Times(a + b, c) == Times(a, c) + Times(b, c) && Times(a, 1.0) == a
  {}

  lemma WholeTimes(a: int, b: nat)
    ensures Times(a as real, b as real) == (a * b) as real
  {}

  lemma Positive(a: real, b: real)
    requires a > 0.0 && b > 0.0
    ensures Times(a, b) > 0.0
  {}

  /** A side at a scale of at most one, with nothing to hold back. */
  lemma SideIs(n: nat, scale: real)
    requires 1 <= n <= MOST_PIXELS && 0.0 < scale <= 1.0
    ensures Side(n, scale) == Ceiling(Times(n as real, scale)) && Side(n, scale) <= n
  {
    Positive(n as real, scale);
    TimesMore(scale, 1.0, n as real);
    TimesIs(n as real, scale, 1.0);
    TimesIs(n as real, 1.0, 1.0);
    CeilingBounds(Times(n as real, scale));
  }

  /** Where a whole number of a length's parts rounds up. */
  lemma CeilingDivided(x: real, scale: real, parts: nat)
    requires Divides(scale, parts) && x > 0.0
    ensures var up := Ceiling(Times(x, scale)); ((up - 1) * parts) as real < x <= (up * parts) as real
  {
    var up, q := Ceiling(Times(x, scale)), parts as real;
    CeilingBounds(Times(x, scale));
    TimesIs(x, scale, q);
    TimesIs(x, 1.0, 1.0);
    TimesMore((up - 1) as real, Times(x, scale), q);
    TimesMore(Times(x, scale), up as real, q);
    WholeTimes(up - 1, parts);
    WholeTimes(up, parts);
    hide Times;
  }

  lemma OneMultiple(c: int, d: int, parts: nat, x: real)
    requires parts >= 1
    requires ((c - 1) * parts) as real < x <= (c * parts) as real
    requires ((d - 1) * parts) as real < x <= (d * parts) as real
    ensures c == d
  {
    MultipleLess(c, d, parts);
    MultipleLess(d, c, parts);
  }

  lemma MultipleLess(c: int, d: int, parts: nat)
    requires parts >= 1
    ensures c < d ==> c * parts <= (d - 1) * parts
  {
    WholeTimes(c, parts);
    WholeTimes(d - 1, parts);
    TimesMore(c as real, (d - 1) as real, parts as real);
    hide Times;
  }

  /** Rounding up at any share and then over a whole division is rounding up once. */
  lemma NestedSides(n: nat, share: real, scale: real)
    requires 1 <= n <= MOST_PIXELS && 0.0 < share <= 1.0 && Nests(share, scale)
    ensures 0.0 < Times(share, scale) <= 1.0
    ensures Side(Side(n, share), scale) == Side(n, Times(share, scale))
  {
    hide Times, Side, Ceiling;
    TimesIs(share, scale, 1.0);
    TimesIs(scale, share, 1.0);
    TimesIs(scale, 1.0, 1.0);
    if parts: nat :| Divides(scale, parts) {
      DividesBy(scale, parts);
      Positive(share, scale);
      Positive(n as real, share);
      TimesMore(share, 1.0, scale);
      SideIs(n, share);
      SideIs(Side(n, share), scale);
      SideIs(n, Times(share, scale));
      TimesIs(n as real, share, scale);
      NestedCeilings(Times(n as real, share), scale, parts);
    } else {
      NeutralSide(n);
    }
  }

  lemma DividesBy(scale: real, parts: nat)
    requires Divides(scale, parts)
    ensures 0.0 < scale <= 1.0
  {}

  lemma NestedCeilings(x: real, scale: real, parts: nat)
    requires Divides(scale, parts) && x > 0.0
    ensures Ceiling(Times(Ceiling(x) as real, scale)) == Ceiling(Times(x, scale))
  {
    var once, twice := Ceiling(Times(x, scale)), Ceiling(Times(Ceiling(x) as real, scale));
    CeilingBounds(x);
    CeilingDivided(x, scale, parts);
    CeilingDivided(Ceiling(x) as real, scale, parts);
    hide Times, Ceiling;
    assert (twice - 1) * parts < Ceiling(x) <= twice * parts;
    OneMultiple(once, twice, parts, x);
  }

  // ---- And where it is not ----

  /** A number that is `p` in `q`. */
  ghost predicate Ratio(x: real, p: nat, q: nat) { q >= 1 && Times(x, q as real) == p as real }

  lemma RatioIn(x: real, p: nat, q: nat)
    requires Ratio(x, p, q) && x > 0.0
    ensures p >= 1 && (x < 1.0 ==> p < q) && (x <= 1.0 ==> p <= q) && (p == 1 ==> Divides(x, q))
  {
    Positive(x, q as real);
    TimesMore(x, 1.0, q as real);
    TimesIs(1.0, q as real, 1.0);
    TimesIs(q as real, 1.0, 1.0);
    hide Times;
  }

  lemma RatioReduced(x: real, p: nat, q: nat, g: nat, p': nat, q': nat)
    requires Ratio(x, p, q) && p == g * p' && q == g * q' && g >= 1
    ensures Ratio(x, p', q')
  {
    hide Times;
    PositiveTimes(g, q');
    WholeTimes(g, p');
    WholeTimes(g, q');
    TimesIs(g as real, q' as real, 1.0);
    TimesIs(x, q' as real, g as real);
    TimesIs(g as real, p' as real, 1.0);
    TimesMore(Times(x, q' as real), p' as real, g as real);
    TimesMore(p' as real, Times(x, q' as real), g as real);
  }

  lemma ShareInRange(share: real, scale: real)
    requires 0.0 < share <= 1.0 && 0.0 < scale <= 1.0
    ensures 0.0 < Times(share, scale) <= 1.0
  {
    Positive(share, scale);
    TimesMore(share, 1.0, scale);
    TimesIs(1.0, scale, 1.0);
    TimesIs(scale, 1.0, 1.0);
  }

  /** What a miss comes to: over `m` and at most `k`, and `m` and one over `k`. */
  lemma MissInReals(share: real, scale: real, p: nat, q: nat, v: nat, u: nat, n: nat, m: nat, k: nat)
    requires Ratio(share, p, q) && Ratio(scale, v, u) && Missed(p, q, v, u, n, m, k)
    ensures m as real < Times(n as real, share)
    ensures Times(Times(n as real, share), scale) <= k as real < Times((m + 1) as real, scale)
  {
    hide Times;
    var (x, y) := (Times(n as real, share), Times((m + 1) as real, scale));
    TimesIs(n as real, share, q as real);
    TimesIs((m + 1) as real, scale, u as real);
    WholeTimes(n, p);
    WholeTimes(m, q);
    WholeTimes(m + 1, v);
    WholeTimes(k, u);
    TimesMore(m as real, x, q as real);
    TimesMore(k as real, y, u as real);
    WholeTimes(n * p, v);
    WholeTimes(k * u, q);
    TimesIs(x, scale, u as real);
    TimesIs(x, v as real, q as real);
    TimesIs(x, q as real, v as real);
    TimesIs(v as real, q as real, 1.0);
    TimesMore(Times(Times(x, scale), u as real), Times(k as real, u as real), q as real);
    TimesMore(Times(x, scale), k as real, u as real);
  }

  lemma CeilingOver(x: real, a: int)
    ensures a as real < x <==> a < Ceiling(x)
  {
    CeilingBounds(x);
  }

  lemma MissRoundsUp(x: real, scale: real, m: nat, k: nat)
    requires scale > 0.0 && m as real < x && Times(x, scale) <= k as real < Times((m + 1) as real, scale)
    ensures Ceiling(Times(x, scale)) <= k < Ceiling(Times(Ceiling(x) as real, scale))
  {
    hide Times, Ceiling;
    CeilingOver(x, m);
    CeilingOver(Times(x, scale), k);
    TimesMore((m + 1) as real, Ceiling(x) as real, scale);
    CeilingOver(Times(Ceiling(x) as real, scale), k);
  }

  /** A miss on a side a texture may have shows in its pixels. */
  lemma MissShows(share: real, scale: real, p: nat, q: nat, v: nat, u: nat, n: nat, m: nat, k: nat)
    requires 0.0 < share < 1.0 && 0.0 < scale <= 1.0 && 1 <= n <= MOST_PIXELS
    requires Ratio(share, p, q) && Ratio(scale, v, u) && Missed(p, q, v, u, n, m, k)
    ensures Side(Side(n, share), scale) > Side(n, Times(share, scale))
  {
    hide Times, Side, Ceiling, Ratio, Missed;
    MissInReals(share, scale, p, q, v, u, n, m, k);
    ShareInRange(share, scale);
    SideIs(n, share);
    SideIs(n, Times(share, scale));
    SideIs(Side(n, share), scale);
    TimesIs(n as real, share, scale);
    MissRoundsUp(Times(n as real, share), scale, m, k);
  }

  /** A scale that divides by no whole number, at a share of less than one, both of them
      fractions: some side, no longer than the lower parts multiplied, is larger rounded
      up twice than rounded up once. */
  lemma RoundedTwice(share: real, scale: real, p: nat, q: nat, v: nat, u: nat) returns (n: nat)
    requires 0.0 < share < 1.0 && 0.0 < scale <= 1.0 && !Reciprocal(scale)
    requires Ratio(share, p, q) && Ratio(scale, v, u) && q * u <= MOST_PIXELS
    ensures 1 <= n <= q * u && Side(Side(n, share), scale) > Side(n, Times(share, scale))
  {
    hide Times, Side, Ratio, Missed, Apart, Divides;
    RatioIn(share, p, q);
    RatioIn(scale, v, u);
    var g, p', q', a, b := LowestTerms(p, q);
    var h, u', v', c, d := LowestTerms(u, v);
    RatioReduced(share, p, q, g, p', q');
    RatioReduced(scale, v, u, h, v', u');
    RatioIn(share, p', q');
    RatioIn(scale, v', u');
    var m, k;
    n, m, k := MissedSomewhere(p', q', v', u', a, b, c, d);
    Shorter(q, u, g, q', h, u');
    MissShows(share, scale, p', q', v', u', n, m, k);
  }

  lemma Shorter(q: nat, u: nat, g: nat, q': nat, h: nat, u': nat)
    requires g >= 1 && h >= 1 && q == g * q' && u == h * u'
    ensures q' * u' <= q * u
  {
    NeverUnder(g - 1, q');
    NeverUnder(h - 1, u');
    assert q == (g - 1) * q' + q' && u == (h - 1) * u' + u';
    NeverUnder(q - q', u);
    NeverUnder(q', u - u');
    assert (q - q') * u == q * u - q' * u && q' * (u - u') == q' * u - q' * u';
  }

  /** Where a share and a scale tell: there was nothing to round, or the two are fractions
      whose lower parts multiply to a side a texture may have. */
  ghost predicate Telling(share: real, scale: real) {
    && 0.0 < scale <= 1.0
    && (share == 1.0
        || (0.0 < share < 1.0
            && exists p: nat, q: nat, v: nat, u: nat ::
              Ratio(share, p, q) && Ratio(scale, v, u) && q * u <= MOST_PIXELS))
  }

  /** Rounding up twice is rounding up once, on every side, exactly where the scale
      divides by a whole number or there was nothing to round. */
  lemma NestsExactly(share: real, scale: real)
    requires Telling(share, scale)
    ensures Nests(share, scale)
       <==> forall n :: 1 <= n <= MOST_PIXELS ==> Side(Side(n, share), scale) == Side(n, Times(share, scale))
  {
    hide Side, Times, Reciprocal, Ratio;
    if Nests(share, scale) {
      forall n | 1 <= n <= MOST_PIXELS
        ensures Side(Side(n, share), scale) == Side(n, Times(share, scale))
      {
        NestedSides(n, share, scale);
      }
    } else {
      var p: nat, q: nat, v: nat, u: nat :| Ratio(share, p, q) && Ratio(scale, v, u) && q * u <= MOST_PIXELS;
      var n := RoundedTwice(share, scale, p, q, v, u);
      assert Side(Side(n, share), scale) != Side(n, Times(share, scale));
    }
  }

  lemma NotReciprocal()
    ensures !Reciprocal(0.75)
  {
    assert forall parts: nat :: Times(0.75, parts as real) == (3 * parts) as real / 4.0;
  }

  /** Three quarters of three quarters tell. */
  lemma QuartersTell()
    ensures Telling(0.75, 0.75) && !Nests(0.75, 0.75)
  {
    assert Ratio(0.75, 3, 4) && 4 * 4 <= MOST_PIXELS;
    NotReciprocal();
  }

  /** A whole less one part in 2 to the power of 40. */
  const ALMOST: real := 1.0 - 1.0 / 1099511627776.0

  /** Not every miss shows: three quarters of almost a whole are missed on no side of
      fewer than 32 bits. */
  lemma TooFineToShow(n: nat)
    requires 1 <= n <= MOST_PIXELS
    ensures !Nests(ALMOST, 0.75) && Side(Side(n, ALMOST), 0.75) == Side(n, Times(ALMOST, 0.75))
  {
    NotReciprocal();
    SideIs(n, ALMOST);
    CeilingIs(Times(n as real, ALMOST), n);
    SideIs(n, 0.75);
    SideIs(n, Times(ALMOST, 0.75));
    var up := (3 * n + 3) / 4;
    assert up - 1 < up && 4 * (up - 1) + 1 <= 3 * n <= 4 * up;
    CeilingIs(Times(n as real, 0.75), up);
    CeilingIs(Times(n as real, Times(ALMOST, 0.75)), up);
  }
}
