/** The small-sample statistics of the evaluation reports, over exact rationals and reals. */
module Statistics {
  import opened Results
  import opened Numbers

  // ---------------------------------------------------------------- binomial coefficients

  /** `math.comb` */
  function Comb(n: nat, k: nat): nat {
    if k == 0 then 1 else if n == 0 then 0 else Comb(n - 1, k - 1) + Comb(n - 1, k)
  }

  /** The sum of the coefficients up to `t`. */
  function Tail(n: nat, t: nat): (r: nat)
    ensures r > 0
  {
    Comb(n, t) + if t == 0 then 0 else Tail(n, t - 1)
  }

  lemma {:induction false} CombBeyond(n: nat, k: nat)
    requires k > n
    ensures Comb(n, k) == 0
  {
    if n == 0 {
    } else {
      CombBeyond(n - 1, k - 1);
      CombBeyond(n - 1, k);
    }
  }

  lemma {:induction false} CombPositive(n: nat, k: nat)
    requires k <= n
    ensures Comb(n, k) > 0
  {
    if k == 0 {
    } else {
      CombPositive(n - 1, k - 1);
    }
  }

  lemma {:induction false} CombEnds(n: nat)
    ensures Comb(n, 0) == 1 && Comb(n, n) == 1
  {
    if n == 0 {
    } else {
      CombEnds(n - 1);
      CombBeyond(n - 1, n);
    }
  }

  lemma {:induction false} CombSymmetric(n: nat, k: nat)
    requires k <= n
    ensures Comb(n, k) == Comb(n, n - k)
  {
    if k == 0 || k == n {
      CombEnds(n);
    } else {
      CombSymmetric(n - 1, k - 1);
      CombSymmetric(n - 1, k);
    }
  }

  lemma {:induction false} TailPascal(n: nat, t: nat)
    requires n > 0 && t > 0
    ensures Tail(n, t) == Tail(n - 1, t) + Tail(n - 1, t - 1)
  {
    if t == 1 {
      assert Tail(n, 1) == Comb(n, 1) + Tail(n, 0);
      assert Tail(n - 1, 1) == Comb(n - 1, 1) + Tail(n - 1, 0);
    } else {
      TailPascal(n, t - 1);
    }
  }

  lemma {:induction false} WholeTail(n: nat)
    ensures Tail(n, n) == Pow2(n)
  {
    if n == 0 {
    } else {
      WholeTail(n - 1);
      TailPascal(n, n);
      CombBeyond(n - 1, n);
    }
  }

  lemma {:induction false} TailsComplement(n: nat, t: nat)
    requires t < n
    ensures Tail(n, t) + Tail(n, n - 1 - t) == Pow2(n)
  {
    if t == 0 {
      WholeTail(n);
      CombEnds(n);
    } else {
      TailsComplement(n, t - 1);
      CombSymmetric(n, t);
    }
  }

  lemma {:induction false} TailGrows(n: nat, s: nat, t: nat)
    requires s < t <= n
    ensures Tail(n, s) < Tail(n, t)
  {
    CombPositive(n, t);
    if s >= t - 1 {
    } else {
      TailGrows(n, s, t - 1);
    }
  }

  // ---------------------------------------------------------------- exact McNemar

  datatype StatisticsError = NegativeCount

  /** `exact_mcnemar` */
  function ExactMcNemar(regressions: int, improvements: int): Result<real, StatisticsError> {
    if regressions < 0 || improvements < 0 then Failure(NegativeCount)
    else
      var total := regressions + improvements;
      if total == 0 then Success(1.0)
      else
        var p := (2 * Tail(total, Min(regressions, improvements))) as real / Pow2(total) as real;
        Success(if p < 1.0 then p else 1.0)
  }

  /** Twice the lower tail passes the number of outcomes exactly for equal counts, and meets
      it exactly for counts one apart. */
  lemma TwiceTheTail(b: nat, c: nat)
    requires b + c > 0
    ensures 2 * Tail(b + c, Min(b, c)) > Pow2(b + c) <==> b == c
    ensures 2 * Tail(b + c, Min(b, c)) == Pow2(b + c) <==> b == c + 1 || c == b + 1
  {
    var n, t := b + c, Min(b, c);
    TailsComplement(n, t);
    if n - 1 - t > t {
      TailGrows(n, t, n - 1 - t);
    } else if n - 1 - t < t {
      TailGrows(n, n - 1 - t, t);
    }
  }

  lemma Quotient(a: int, b: int)
    requires a > 0 && b > 0
    ensures var q := a as real / b as real; q > 0.0 && (q < 1.0 <==> a < b)
  {
  }

  /** The p-value lies in (0, 1], is symmetric, and is 1 exactly when the counts differ by at
      most one. */
  lemma PValueRange(b: nat, c: nat)
    ensures ExactMcNemar(b, c).Success? && ExactMcNemar(b, c) == ExactMcNemar(c, b)
    ensures 0.0 < ExactMcNemar(b, c).value <= 1.0
    ensures ExactMcNemar(b, c).value == 1.0 <==> b <= c + 1 && c <= b + 1
  {
    if b + c > 0 {
      TwiceTheTail(b, c);
      Quotient(2 * Tail(b + c, Min(b, c)), Pow2(b + c));
    }
  }

  lemma Scale(a: int, b: int, c: int)
    requires 0 < a < b && c > 0
    ensures a as real / c as real < b as real / c as real
  {
  }

  /** Among tables with the same number of discordant pairs, a more lopsided one has a
      strictly smaller p-value. */
  lemma LopsidedIsMoreSignificant(b: nat, c: nat, d: nat, e: nat)
    requires b + c == d + e && Min(b, c) < Min(d, e)
    ensures ExactMcNemar(b, c).value < ExactMcNemar(d, e).value
  {
    var n := b + c;
    TailGrows(n, Min(b, c), Min(d, e));
    TwiceTheTail(b, c);
    Quotient(2 * Tail(n, Min(b, c)), Pow2(n));
    Scale(2 * Tail(n, Min(b, c)), 2 * Tail(n, Min(d, e)), Pow2(n));
  }

  // ---------------------------------------------------------------- what the p-value means

  /** A split of `total` discordant pairs at least as lopsided as `t` to the rest. */
  predicate IsExtreme(regressions: nat, total: nat, t: nat) {
    regressions <= t || total - regressions <= t
  }

  /** Flip the remaining pairs either way: in how many of the outcomes is the split as
      lopsided as observed? */
  function Extremes(left: nat, regressions: nat, total: nat, t: nat): nat {
    if left == 0 then if IsExtreme(regressions, total, t) then 1 else 0
    else Extremes(left - 1, regressions, total, t) + Extremes(left - 1, regressions + 1, total, t)
  }

  /** The same count by how many of the remaining pairs fall on one side, up to `k`. */
  function Grouped(left: nat, regressions: nat, total: nat, t: nat, k: nat): nat {
    (if IsExtreme(regressions + k, total, t) then Comb(left, k) else 0)
    + if k == 0 then 0 else Grouped(left, regressions, total, t, k - 1)
  }

  lemma {:induction false} GroupedPascal(left: nat, regressions: nat, total: nat, t: nat, k: nat)
    requires left > 0
    ensures Grouped(left, regressions, total, t, k) ==
            Grouped(left - 1, regressions, total, t, k)
            + if k == 0 then 0 else Grouped(left - 1, regressions + 1, total, t, k - 1)
  {
    if k == 0 {
    } else {
      GroupedPascal(left, regressions, total, t, k - 1);
    }
  }

  lemma {:induction false} ExtremesAreGrouped(left: nat, regressions: nat, total: nat, t: nat)
    ensures Extremes(left, regressions, total, t) == Grouped(left, regressions, total, t, left)
  {
    if left == 0 {
    } else {
      ExtremesAreGrouped(left - 1, regressions, total, t);
      ExtremesAreGrouped(left - 1, regressions + 1, total, t);
      GroupedPascal(left, regressions, total, t, left);
      CombBeyond(left - 1, left);
    }
  }

  /** The lower tail, then nothing, then the upper tail. */
  lemma {:induction false} GroupedTails(n: nat, t: nat, k: nat)
    requires k <= n
    ensures Grouped(n, 0, n, t, k) ==
            if n <= 2 * t + 1 then Tail(n, k)
            else if k <= t then Tail(n, k)
            else if k < n - t then Tail(n, t)
            else Tail(n, t) + Tail(n, k) - Tail(n, n - t - 1)
  {
    if k == 0 {
    } else {
      GroupedTails(n, t, k - 1);
    }
  }

  lemma Whole(a: int)
    requires a > 0
    ensures a as real / a as real == 1.0
  {
  }

  /** The p-value is the probability, when each discordant pair is as likely to fall either
      way, of a split at least as lopsided as the observed one. */
  lemma PValueIsTheExtremeShare(b: nat, c: nat)
    ensures ExactMcNemar(b, c) ==
            Success(Extremes(b + c, 0, b + c, Min(b, c)) as real / Pow2(b + c) as real)
  {
    var n, t := b + c, Min(b, c);
    ExtremesAreGrouped(n, 0, n, t);
    GroupedTails(n, t, n);
    WholeTail(n);
    if n > 0 {
      TwiceTheTail(b, c);
      Quotient(2 * Tail(n, t), Pow2(n));
      if n > 2 * t + 1 {
        TailsComplement(n, t);
      } else {
        Whole(Pow2(n));
      }
    }
  }

  // ---------------------------------------------------------------- the Wilson interval

  datatype Interval = Interval(low: real, high: real)

  function Clamp(low: real, high: real): Interval {
    Interval(if low < 0.0 then 0.0 else low, if high > 1.0 then 1.0 else high)
  }

  function Proportion(successes: int, total: int): real
    requires total > 0
  {
    successes as real / total as real
  }

  /** What stands under the square root. */
  function Radicand(p: real, n: real, z: real): real
    requires n > 0.0
  {
    p * (1.0 - p) / n + z * z / (4.0 * n * n)
  }

  lemma Positive(z: real, n: real)
    requires n > 0.0
    ensures 1.0 + z * z / n >= 1.0
  {
  }

  function Center(p: real, n: real, z: real): real
    requires n > 0.0
  {
    Positive(z, n);
    (p + z * z / (2.0 * n)) / (1.0 + z * z / n)
  }

  function Half(n: real, z: real, root: real): real
    requires n > 0.0
  {
    Positive(z, n);
    z * root / (1.0 + z * z / n)
  }

  /** `wilson_interval`, given the square root of its radicand. */
  function WilsonInterval(successes: int, total: int, z: real, root: real): Interval
    requires total > 0 ==> root >= 0.0 && root * root == Radicand(Proportion(successes, total), total as real, z)
  {
    if total <= 0 then Interval(0.0, 1.0)
    else
      var n := total as real;
      var center, half := Center(Proportion(successes, total), n, z), Half(n, z, root);
      Clamp(center - half, center + half)
  }

  /** The score test's quadratic, from the interval's center and half width. */
  lemma ScoreQuadratic(p: real, w: real, d: real, c: real, h: real, q: real)
    requires d == 1.0 + w && w >= 0.0 && c * d == p + w / 2.0
    requires (h * d) * (h * d) == w * (p * (1.0 - p) + w / 4.0)
    ensures d * ((q - c) * (q - c) - h * h) == (q - p) * (q - p) - w * (q * (1.0 - q))
  {
  }

  lemma ProductSign(a: real, b: real)
    ensures a > 0.0 && b > 0.0 ==> a * b > 0.0
    ensures a >= 0.0 && b >= 0.0 ==> a * b >= 0.0
    ensures a < 0.0 && b > 0.0 ==> a * b < 0.0
  {
  }

  lemma SignOfProduct(a: real, b: real)
    ensures a * b <= 0.0 <==> (a <= 0.0 && b >= 0.0) || (a >= 0.0 && b <= 0.0)
    ensures a * b >= 0.0 <==> (a <= 0.0 && b <= 0.0) || (a >= 0.0 && b >= 0.0)
  {
    ProductSign(a, b);
    ProductSign(-a, b);
    ProductSign(a, -b);
    ProductSign(-a, -b);
  }

  /** Between the ends of an interval, whichever comes first. */
  predicate Between(q: real, a: real, b: real) {
    a <= q <= b || b <= q <= a
  }

  /** A point lies between two ends exactly when its squared distance from the middle does not
      pass the squared half width. */
  lemma WithinHalf(c: real, h: real, q: real)
    ensures Between(q, c - h, c + h) <==> (q - c) * (q - c) - h * h <= 0.0
    ensures (q - c) * (q - c) - h * h >= 0.0 ==> (q <= c - h && q <= c + h) || (c - h <= q && c + h <= q)
  {
    var a, b := q - c - h, q - c + h;
    assert a * b == (q - c) * (q - c) - h * h;
    SignOfProduct(a, b);
  }

  lemma SignOf(d: real, x: real)
    requires d > 0.0
    ensures d * x <= 0.0 <==> x <= 0.0
    ensures d * x >= 0.0 <==> x >= 0.0
  {
  }

  /** A total, and the square root that `math.sqrt` finds whenever there is one. */
  predicate WilsonInput(successes: int, total: int, z: real, root: real) {
    total > 0 && root >= 0.0 && root * root == Radicand(Proportion(successes, total), total as real, z)
  }

  function Weight(n: real, z: real): (w: real)
    requires n > 0.0
    ensures w >= 0.0
  {
    Positive(z, n);
    z * z / n
  }

  lemma ProportionRange(successes: int, total: int)
    requires total > 0
    ensures 0.0 <= Proportion(successes, total) <= 1.0 <==> 0 <= successes <= total
  {
    var p, n := Proportion(successes, total), total as real;
    assert p * n == successes as real;
    assert (p - 1.0) * n == successes as real - n;
    SignOfProduct(-p, n);
    SignOfProduct(p - 1.0, n);
    assert 0.0 <= p <==> 0.0 <= successes as real;
    assert p <= 1.0 <==> successes as real <= n;
  }

  lemma CenterForm(p: real, n: real, z: real)
    requires n > 0.0
    ensures Center(p, n, z) * (1.0 + Weight(n, z)) == p + Weight(n, z) / 2.0
  {
  }

  lemma Nonnegative(h: real, d: real, x: real)
    requires d >= 1.0 && h * d == x
    ensures x >= 0.0 ==> h >= 0.0
  {
    ProductSign(h, d);
  }

  lemma RadicandScaled(p: real, n: real, z: real)
    requires n > 0.0
    ensures Radicand(p, n, z) * n == p * (1.0 - p) + Weight(n, z) / 4.0
  {
    var u, y, w := p * (1.0 - p) / n, z * z / (4.0 * n * n), Weight(n, z);
    assert u * n == p * (1.0 - p) && w * n == z * z;
    assert y * (4.0 * n * n) == z * z;
    assert n * (4.0 * (y * n)) == n * w;
    assert (u + y) * n == u * n + y * n;
  }

  lemma RadicandForm(p: real, n: real, z: real, root: real)
    requires n > 0.0 && root * root == Radicand(p, n, z)
    ensures (z * root) * (z * root) == Weight(n, z) * (p * (1.0 - p) + Weight(n, z) / 4.0)
  {
  }

  lemma HalfForm(p: real, n: real, z: real, root: real)
    requires n > 0.0 && root >= 0.0 && root * root == Radicand(p, n, z)
    ensures var w, h := Weight(n, z), Half(n, z, root);
            && (h * (1.0 + w)) * (h * (1.0 + w)) == w * (p * (1.0 - p) + w / 4.0)
            && p * (1.0 - p) + w / 4.0 >= 0.0
            && (z >= 0.0 ==> h >= 0.0)
  {
    hide Radicand;
    ProductSign(z, root);
    Nonnegative(Half(n, z, root), 1.0 + Weight(n, z), z * root);
    RadicandForm(p, n, z, root);
    RadicandScaled(p, n, z);
    ProductSign(root, root);
    ProductSign(root * root, n);
  }

  /** The squared distance from the observed proportion is at most `w` times the variance. */
  predicate NotRejected(p: real, w: real, q: real) {
    (q - p) * (q - p) <= w * (q * (1.0 - q))
  }

  /** Where a proportion lies is the sign of the score test's quadratic. */
  lemma OnItsSide(p: real, w: real, d: real, c: real, h: real, q: real)
    requires w >= 0.0 && d == 1.0 + w && c * d == p + w / 2.0
    requires (h * d) * (h * d) == w * (p * (1.0 - p) + w / 4.0)
    ensures Between(q, c - h, c + h) <==> NotRejected(p, w, q)
    ensures (q - p) * (q - p) - w * (q * (1.0 - q)) >= 0.0 ==>
              (q <= c - h && q <= c + h) || (c - h <= q && c + h <= q)
  {
    ScoreQuadratic(p, w, d, c, h, q);
    var x, score := (q - c) * (q - c) - h * h, (q - p) * (q - p) - w * (q * (1.0 - q));
    assert d * x == score;
    SignOf(d, x);
    assert score >= 0.0 ==> x >= 0.0;
    WithinHalf(c, h, q);
  }

  lemma Square(x: real)
    ensures x * x >= 0.0
  {
  }

  lemma AtTheEnds(p: real, w: real)
    ensures (0.0 - p) * (0.0 - p) - w * (0.0 * (1.0 - 0.0)) >= 0.0
    ensures (1.0 - p) * (1.0 - p) - w * (1.0 * (1.0 - 1.0)) >= 0.0
  {
    Square(0.0 - p);
    Square(1.0 - p);
  }

  lemma AtTheProportion(p: real, w: real)
    requires w >= 0.0 && p * (1.0 - p) + w / 4.0 >= 0.0
    ensures NotRejected(p, w, p) <==> 0.0 <= p <= 1.0
  {
    var v := p * (1.0 - p);
    ProductSign(p, 1.0 - p);
    ProductSign(p, p - 1.0);
    ProductSign(-p, 1.0 - p);
    ProductSign(w, v);
    ProductSign(v, w);
    ProductSign(-v, w);
  }

  lemma NotBelow(p: real, w: real)
    requires w >= 0.0 && p * (1.0 - p) + w / 4.0 >= 0.0
    ensures p + w / 2.0 >= 0.0
  {
    ProductSign(-p, 1.0 - 2.0 * p);
    assert -p * (1.0 - 2.0 * p) == -2.0 * (p * (1.0 - p)) + p;
  }

  lemma CenterRange(p: real, w: real, d: real, c: real)
    requires w >= 0.0 && p * (1.0 - p) + w / 4.0 >= 0.0 && d == 1.0 + w && c * d == p + w / 2.0
    ensures 0.0 <= c <= 1.0
  {
    NotBelow(p, w);
    assert (1.0 - p) * (1.0 - (1.0 - p)) == p * (1.0 - p);
    NotBelow(1.0 - p, w);
    SignOf(d, c);
    SignOf(d, c - 1.0);
    assert d * (c - 1.0) == c * d - d;
  }

  lemma Bounds(p: real, w: real, d: real, c: real, h: real)
    requires w >= 0.0 && p * (1.0 - p) + w / 4.0 >= 0.0
    requires d == 1.0 + w && c * d == p + w / 2.0
    requires (h * d) * (h * d) == w * (p * (1.0 - p) + w / 4.0)
    ensures 0.0 <= c - h <= 1.0 && 0.0 <= c + h <= 1.0
    ensures Between(p, c - h, c + h) <==> 0.0 <= p <= 1.0
  {
    OnItsSide(p, w, d, c, h, 0.0);
    OnItsSide(p, w, d, c, h, 1.0);
    OnItsSide(p, w, d, c, h, p);
    AtTheEnds(p, w);
    AtTheProportion(p, w);
    CenterRange(p, w, d, c);
  }

  /** Whenever the square root exists - for any successes and any `z` - the unclamped ends lie
      in [0, 1], so the clamps never act; and the observed proportion lies between them
      exactly when it is one, with 0 <= successes <= total. */
  lemma ClampsAreNoOps(successes: int, total: int, z: real, root: real)
    requires WilsonInput(successes, total, z, root)
    ensures var p, n := Proportion(successes, total), total as real;
            var center, half := Center(p, n, z), Half(n, z, root);
            && 0.0 <= center - half <= 1.0 && 0.0 <= center + half <= 1.0
            && WilsonInterval(successes, total, z, root) == Interval(center - half, center + half)
            && (Between(p, center - half, center + half) <==> 0 <= successes <= total)
            && (z >= 0.0 ==> center - half <= center + half)
  {
    hide Center, Half, Weight, Proportion, Radicand;
    var n, p := total as real, Proportion(successes, total);
    ProportionRange(successes, total);
    CenterForm(p, n, z);
    HalfForm(p, n, z, root);
    Bounds(p, Weight(n, z), 1.0 + Weight(n, z), Center(p, n, z), Half(n, z, root));
  }

  /** What the interval is: the proportions that the score test does not reject, those whose
      squared distance from the observed one is at most `z` squared times their variance. */
  lemma WilsonIsTheScoreInterval(successes: int, total: int, z: real, root: real, q: real)
    requires WilsonInput(successes, total, z, root)
    ensures var i := WilsonInterval(successes, total, z, root);
            var p := Proportion(successes, total);
            && (Between(q, i.low, i.high) <==> NotRejected(p, Weight(total as real, z), q))
            && (z >= 0.0 ==> i.low <= i.high)
  {
    hide Center, Half, Weight, Proportion, WilsonInterval, Radicand, Between, NotRejected;
    var n, p := total as real, Proportion(successes, total);
    CenterForm(p, n, z);
    HalfForm(p, n, z, root);
    ClampsAreNoOps(successes, total, z, root);
    OnItsSide(p, Weight(n, z), 1.0 + Weight(n, z), Center(p, n, z), Half(n, z, root), q);
  }
}
