/** Whole numbers behind a share and a scale that are fractions: where a multiple of
    the one comes just under a multiple of what undoes the other. */
module Fractions {

  /** The greatest common part of two numbers, by taking the smaller from the larger,
      and multiples of the two that far apart. */
  lemma Euclid(a: nat, b: nat) returns (g: nat, k: nat, n: nat, x: nat, y: nat)
    requires a >= 1 && b >= 1
    ensures g >= 1 && a == g * x && b == g * y && a * k == b * n + g
    ensures 1 <= k <= b && n < a
    decreases a + b
  {
    if a == b {
      g, k, n, x, y := a, 1, 0, 1, 1;
    } else if a > b {
      g, k, n, x, y := Euclid(a - b, b);
      TakenOff(a, b, k, g, x, y);
      n, x := n + k, x + y;
    } else {
      g, k, n, x, y := Euclid(a, b - a);
      TakenOff(b, a, n, g, y, x);
      k, y := k + n, y + x;
    }
  }

  lemma TakenOff(a: nat, b: nat, k: nat, g: nat, x: nat, y: nat)
    requires a >= b && a - b == g * x && b == g * y
    ensures a == g * (x + y)
    ensures forall n: nat {:trigger b * (n + k)} :: b * (n + k) + (a - b) * k == b * n + a * k
  {
    assert g * (x + y) == g * x + g * y;
    forall n: nat
      ensures b * (n + k) + (a - b) * k == b * n + a * k
    {
      assert b * (n + k) == b * n + b * k && (a - b) * k == a * k - b * k;
    }
  }

  /** Numbers with no common part, told by multiples of the two that are one apart. */
  ghost predicate Apart(p: nat, q: nat, k: nat, n: nat) { p * k == q * n + 1 }

  /** What two numbers with no common part leave of a third's parts. */
  lemma PartOfBoth(p: nat, q: nat, k: nat, n: nat, u: nat, g: nat, z: nat, x: nat)
    requires Apart(p, q, k, n) && p * u == g * z && q * u == g * x
    ensures u == g * (z * k - x * n)
  {
    assert u == p * u * k - q * u * n by {
      assert p * u * k == p * k * u == (q * n + 1) * u == q * n * u + u == q * u * n + u;
    }
    assert g * z * k == g * (z * k) && g * x * n == g * (x * n);
  }

  lemma NeverUnder(a: int, b: int)
    requires a >= 0 && b >= 0
    ensures a * b >= 0
  {}

  lemma PositiveTimes(g: nat, h: int)
    requires g * h > 0
    ensures h >= 1 && g <= g * h
  {
    if h <= 0 {
      NeverUnder(g, -h);
      assert false;
    }
    NeverUnder(g, h - 1);
    assert g * (h - 1) == g * h - g;
  }

  lemma Cancel(c: nat, a: int, b: int)
    requires c >= 1
    ensures c * a < c * b <==> a < b
  {
    if a < b {
      NeverUnder(c, b - a - 1);
      assert c * (b - a - 1) == c * b - c * a - c;
    } else {
      NeverUnder(c, a - b);
      assert c * (a - b) == c * a - c * b;
    }
  }

  /** For a share of `p` in `q` and a scale of `v` in `u`: a side of `n` is over `m` at the
      share and at most `k` at both, and one more than `m` is over `k` at the scale. */
  ghost predicate Missed(p: nat, q: nat, v: nat, u: nat, n: nat, m: nat, k: nat) {
    m * q < n * p && n * p * v <= k * u * q && k * u < (m + 1) * v
  }

  ghost predicate Multiple(a: nat, g: nat) { exists w: nat :: a == g * w }

  /** It is missed where the two multiples are less than `q` apart and `k` times `u` is
      no whole number of `v`. */
  lemma MissedWhere(p: nat, q: nat, v: nat, u: nat, n: nat, k: nat) returns (m: nat)
    requires v >= 1 && 0 <= q * u * k - v * p * n < q && !Multiple(k * u, v)
    ensures Missed(p, q, v, u, n, m, k)
  {
    var e;
    m, e := Divided(k * u, v);
    Regroup(p, q, v, u, n, k, m, e);
    AtLeastOnce(q, e);
    Cancel(v, m * q, n * p);
  }

  lemma Divided(a: nat, v: nat) returns (m: nat, e: nat)
    requires v >= 1
    ensures a == v * m + e && e < v && (e == 0 ==> Multiple(a, v))
  {
    m, e := a / v, a % v;
    if e == 0 { assert a == v * m; }
  }

  lemma AtLeastOnce(q: nat, e: nat)
    requires e >= 1
    ensures q <= q * e
  {
    NeverUnder(q, e - 1);
    assert q * (e - 1) == q * e - q;
  }

  lemma Regroup(p: nat, q: nat, v: nat, u: nat, n: nat, k: nat, m: nat, e: nat)
    requires k * u == v * m + e
    ensures q * u * k == v * (m * q) + q * e && k * u * q == q * u * k
    ensures v * p * n == v * (n * p) == n * p * v && (m + 1) * v == v * m + v
  {
    assert q * u * k == q * (k * u) == q * (v * m) + q * e;
  }

  /** The multiples that meet, where they do not meet on a whole number of `v`. */
  lemma MetWhere(p: nat, q: nat, v: nat, u: nat, g: nat, x: nat, y: nat) returns (m: nat)
    requires v >= 1 && g >= 1 && q >= 1 && q * u == g * x && v * p == g * y && !Multiple(p * u, g)
    ensures Missed(p, q, v, u, x, m, y)
  {
    Meet(q * u, v * p, g, x, y);
    if w: nat :| y * u == v * w {
      MeetWhole(p, v, u, g, y, w);
      assert false;
    }
    m := MissedWhere(p, q, v, u, x, y);
  }

  lemma Meet(a: nat, b: nat, g: nat, x: nat, y: nat)
    requires a == g * x && b == g * y
    ensures a * y == b * x
  {}

  lemma MeetWhole(p: nat, v: nat, u: nat, g: nat, y: nat, w: nat)
    requires v >= 1 && v * p == g * y && y * u == v * w
    ensures p * u == g * w
  {
    assert v * (p * u) == v * p * u == g * y * u == g * (y * u) == g * (v * w) == v * (g * w);
    Cancel(v, p * u, g * w);
    Cancel(v, g * w, p * u);
  }

  /** Multiples one greatest common part apart, where that part is one of `u` and of `p`. */
  lemma NearWhere(p: nat, q: nat, v: nat, u: nat, g: nat, n: nat, k: nat, c: nat, d: nat, z: nat, x: nat, y: nat)
    returns (m: nat)
    requires v >= 2 && 1 <= p < q && g >= 1 && u >= 1 && q * u * k == v * p * n + g
    requires Apart(u, v, c, d) && q * u == g * x && v * p == g * y && u == g * z
    ensures Missed(p, q, v, u, n, m, k)
  {
    NoPartLeft(p, v, u, g, c, d, z, y);
    if w: nat :| k * u == v * w {
      NearWhole(p, q, v, u, g, n, k, w);
      OneAtMost(u, v, g, c, d, z, q * w - p * n);
      assert false;
    }
    m := MissedWhere(p, q, v, u, n, k);
  }

  lemma NearWhole(p: nat, q: nat, v: nat, u: nat, g: nat, n: nat, k: nat, w: nat)
    requires k * u == v * w && q * u * k == v * p * n + g
    ensures g == v * (q * w - p * n)
  {
    assert q * u * k == q * (k * u) == q * (v * w) == v * (q * w);
    assert v * p * n == v * (p * n);
  }

  lemma OneAtMost(u: nat, v: nat, g: nat, c: nat, d: nat, z: nat, h: int)
    requires Apart(u, v, c, d) && u == g * z && g == v * h
    ensures v <= 1
  {
    assert u * c == v * (h * z * c) by { assert u * c == v * h * z * c; }
    PositiveTimes(v, h * z * c - d);
  }

  lemma NoPartLeft(p: nat, v: nat, u: nat, g: nat, c: nat, d: nat, z: nat, y: nat)
    requires 1 <= p && g >= 1 && Apart(u, v, c, d) && v * p == g * y && u == g * z
    ensures g <= p
  {
    assert p == p * (u * c) - p * (v * d) by { assert p * (u * c) == p * (v * d + 1) == p * (v * d) + p; }
    assert p * (u * c) == g * (z * c * p) && p * (v * d) == v * p * d == g * (y * d);
    PositiveTimes(g, z * c * p - y * d);
  }

  lemma OnceMore(a: nat, b: nat, g: nat, k: nat, n: nat, x: nat, y: nat)
    requires a == g * x && b == g * y && a * k == b * n + g
    ensures a * (k + y) == b * (n + x) + g
  {
    Meet(a, b, g, x, y);
  }

  /** A share of less than one and a scale that divides by no whole number are missed by
      a side of at most `q` times `u`. */
  lemma MissedSomewhere(p: nat, q: nat, v: nat, u: nat, a: nat, b: nat, c: nat, d: nat)
    returns (n: nat, m: nat, k: nat)
    requires 1 <= p < q && 2 <= v <= u && Apart(p, q, a, b) && Apart(u, v, c, d)
    ensures 1 <= n <= q * u && Missed(p, q, v, u, n, m, k)
  {
    NeverUnder(q - 1, u - 1);
    var g, x, y;
    g, k, n, x, y := Euclid(q * u, v * p);
    PositiveTimes(g, x);
    PositiveTimes(x, g);
    if z: nat :| p * u == g * z {
      PartOfBoth(p, q, a, b, u, g, z, x);
      PositiveTimes(g, z * a - x * b);
      if n == 0 {
        OnceMore(q * u, v * p, g, k, n, x, y);
        n, k := n + x, k + y;
      }
      m := NearWhere(p, q, v, u, g, n, k, c, d, z * a - x * b, x, y);
    } else {
      n, k := x, y;
      m := MetWhere(p, q, v, u, g, x, y);
    }
  }

  lemma TakenOut(g: nat, x: nat, k: nat)
    ensures g * x * k == g * (x * k) && g * (x * k) + g == g * (x * k + 1)
  {}

  /** A fraction in its lowest terms. */
  lemma LowestTerms(p: nat, q: nat) returns (g: nat, x: nat, y: nat, k: nat, n: nat)
    requires p >= 1 && q >= 1
    ensures g >= 1 && p == g * x && q == g * y && Apart(x, y, k, n)
  {
    g, k, n, x, y := Euclid(p, q);
    TakenOut(g, x, k);
    TakenOut(g, y, n);
    Cancel(g, x * k, y * n + 1);
    Cancel(g, y * n + 1, x * k);
  }
}
