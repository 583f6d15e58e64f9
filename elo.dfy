/**
 * The rating model: the win expectation of two ratings, the pooled rating of
 * a two-player team, and the single rating change one match produces.
 *
 * Ratings are mathematical reals. The two transcendental functions the
 * program takes from floating point, `10 ** x` and `log10`, are not
 * computed: they are handed in as a `Math` value, so that every property
 * below holds for whatever functions are plugged in. Where a property needs
 * an algebraic law of the exponential, the law is a hypothesis of the lemma.
 */
module EloRating {

  /** `10 ** x`: any function whose values are all positive. */
  type Pow10 = f: real -> real | forall x :: f(x) > 0.0 witness (x: real) => 1.0

  /** The two transcendentals used by the rating model. */
  datatype Math = Math(pow10: Pow10, log10: real -> real)

  /** Law of the exponential: 10^0 = 1. */
  ghost predicate UnitAtZero(m: Math) {
    m.pow10(0.0) == 1.0
  }

  /** Law of the exponential: 10^x * 10^-x = 1. */
  ghost predicate InverseLaw(m: Math) {
    forall x, y :: x + y == 0.0 ==> m.pow10(x) * m.pow10(y) == 1.0
  }

  /** Law of the logarithm: log10(10^x) = x. */
  ghost predicate LogInverse(m: Math) {
    forall x :: m.log10(m.pow10(x)) == x
  }

  /**
   * calculate_avg_elo: the logistic pooling of two ratings on scale `t`.
   * When log10 undoes 10^x, pooling a rating with itself gives it back.
   */
  function AvgElo(m: Math, elo1: real, elo2: real, t: int): (r: real)
    requires t != 0
    ensures LogInverse(m) && elo1 == elo2 ==> r == elo1
  {
    var x1 := elo1 / (t as real);
    var mean := (m.pow10(x1) + m.pow10(elo2 / (t as real))) / 2.0;
    assert elo1 == elo2 ==> mean == m.pow10(x1);
    assert LogInverse(m) ==> m.log10(m.pow10(x1)) == x1;
    m.log10(mean) * (t as real)
  }

  /** The order of the two ratings does not matter to the pooled rating. */
  lemma AvgEloSymmetric(m: Math, elo1: real, elo2: real, t: int)
    requires t != 0
    ensures AvgElo(m, elo2, elo1, t) == AvgElo(m, elo1, elo2, t)
  {
    assert m.pow10(elo2 / (t as real)) + m.pow10(elo1 / (t as real))
        == m.pow10(elo1 / (t as real)) + m.pow10(elo2 / (t as real));
  }

  /** calculate_avg_win: the expected score of `elo1` against `elo2`. */
  function AvgWin(m: Math, elo1: real, elo2: real, t: int): (p: real)
    requires t != 0
    ensures 0.0 < p < 1.0
  {
    var q := m.pow10((elo2 - elo1) / (t as real));
    assert q > 0.0;
    1.0 / (1.0 + q)
  }

  /** The share of the points won by the first side (Python's true division). */
  function WinFraction(score1: int, score2: int): (w: real)
    requires score1 + score2 != 0
    ensures 0 <= score1 && 0 <= score2 ==> 0.0 <= w <= 1.0
    ensures score1 == 0 ==> w == 0.0
    ensures score2 == 0 ==> w == 1.0
  {
    (score1 as real) / ((score1 + score2) as real)
  }

  /**
   * calculate_elo_diff: no change when no points were scored at all;
   * otherwise K times the gap between the achieved and the expected share.
   * With K > 0 the first side gains exactly when it did better than expected,
   * and with non-negative scores the change is strictly inside (-K, K).
   */
  function EloDiff(m: Math, elo1: real, elo2: real, score1: int, score2: int, t: int, k: int): (r: real)
    requires score1 + score2 != 0 ==> t != 0
    ensures score1 + score2 == 0 ==> r == 0.0
    ensures score1 + score2 != 0 ==>
      r == (k as real) * (WinFraction(score1, score2) - AvgWin(m, elo1, elo2, t))
    ensures k > 0 && score1 + score2 != 0 ==>
      (r > 0.0 <==> WinFraction(score1, score2) > AvgWin(m, elo1, elo2, t))
    ensures k > 0 && 0 <= score1 && 0 <= score2 ==> -(k as real) < r < k as real
  {
    if score1 + score2 == 0 then 0.0
    else
      var expectedWin := AvgWin(m, elo1, elo2, t);
      var win := WinFraction(score1, score2);
      Scaled(k, win, expectedWin)
  }

  /** `k * (w - e)`: its sign is that of `w - e` and, for a share `w` and an expectation `e`, it stays inside (-k, k). */
  function Scaled(k: int, w: real, e: real): (g: real)
    ensures g == (k as real) * (w - e)
    ensures k > 0 ==> (g > 0.0 <==> w > e)
    ensures k > 0 && 0.0 <= w <= 1.0 && 0.0 < e < 1.0 ==> -(k as real) < g < k as real
  {
    var kr := k as real;
    var d := w - e;
    var g := kr * d;
    if k > 0 then
      SignAndBound(kr, d, g);
      g
    else
      g
  }

  /** A positive factor keeps the sign of what it multiplies, and maps (-1, 1) into (-a, a). */
  lemma SignAndBound(a: real, d: real, g: real)
    requires a > 0.0 && g == a * d
    ensures g > 0.0 <==> d > 0.0
    ensures -1.0 < d < 1.0 ==> -a < g < a
  {
    PositiveFactorSign(a, d, g);
    if -1.0 < d < 1.0 {
      PositiveFactorBound(a, d, g);
    }
  }

  lemma PositiveFactorSign(a: real, d: real, g: real)
    requires a > 0.0 && g == a * d
    ensures g > 0.0 <==> d > 0.0
  {
    if d <= 0.0 {
      assert a * -d >= 0.0;
      assert a * -d == -g;
    }
  }

  lemma PositiveFactorBound(a: real, d: real, g: real)
    requires a > 0.0 && g == a * d && -1.0 < d < 1.0
    ensures -a < g < a
  {
    assert a * (1.0 - d) > 0.0;
    assert a * (1.0 - d) == a - g;
    assert a * (1.0 + d) > 0.0;
    assert a * (1.0 + d) == a + g;
  }

  lemma NegatedQuotient(a: real, c: real)
    requires c != 0.0
    ensures (-a) / c + a / c == 0.0
  {
  }

  /** Two positive reals whose product is one give complementary shares. */
  lemma ReciprocalShares(q: real, p: real)
    requires q > 0.0 && p > 0.0 && q * p == 1.0
    ensures 1.0 / (1.0 + q) + 1.0 / (1.0 + p) == 1.0
  {
    assert (1.0 + p) * q == q + 1.0;
    assert 1.0 / (1.0 + p) == q / (1.0 + q);
  }

  /**
   * calculate_elo_diff_team: pool each team, then rate the two pooled
   * ratings against each other. The zero-score guard and the (-K, K) bound
   * carry over whatever the four ratings.
   */
  function EloDiffTeam(m: Math, t1Elo1: real, t1Elo2: real, t2Elo1: real, t2Elo2: real,
                       t1Score: int, t2Score: int, t: int, k: int): (r: real)
    requires t != 0
    ensures t1Score + t2Score == 0 ==> r == 0.0
    ensures k > 0 && 0 <= t1Score && 0 <= t2Score ==> -(k as real) < r < k as real
    ensures k > 0 && t1Score + t2Score != 0 ==>
      (r > 0.0 <==> WinFraction(t1Score, t2Score) >
                    AvgWin(m, AvgElo(m, t1Elo1, t1Elo2, t), AvgElo(m, t2Elo1, t2Elo2, t), t))
  {
    var avgElo1 := AvgElo(m, t1Elo1, t1Elo2, t);
    var avgElo2 := AvgElo(m, t2Elo1, t2Elo2, t);
    EloDiff(m, avgElo1, avgElo2, t1Score, t2Score, t, k)
  }

  /** Two equal ratings expect an even result. */
  lemma EvenOdds(m: Math, elo: real, t: int)
    requires t != 0 && UnitAtZero(m)
    ensures AvgWin(m, elo, elo, t) == 0.5
  {
    assert (elo - elo) / (t as real) == 0.0;
  }

  /** The two sides' expectations add up to one. */
  lemma Complementary(m: Math, elo1: real, elo2: real, t: int)
    requires t != 0 && InverseLaw(m)
    ensures AvgWin(m, elo1, elo2, t) + AvgWin(m, elo2, elo1, t) == 1.0
  {
    var x := (elo2 - elo1) / (t as real);
    var y := (elo1 - elo2) / (t as real);
    NegatedQuotient(elo2 - elo1, t as real);
    assert x + y == 0.0;
    assert AvgWin(m, elo1, elo2, t) == 1.0 / (1.0 + m.pow10(x));
    assert AvgWin(m, elo2, elo1, t) == 1.0 / (1.0 + m.pow10(y));
    InverseAt(m, x, y);
    SharesAt(m, x, y);
  }

  lemma InverseAt(m: Math, x: real, y: real)
    requires InverseLaw(m) && x + y == 0.0
    ensures m.pow10(x) * m.pow10(y) == 1.0
  {
  }

  lemma SharesAt(m: Math, x: real, y: real)
    requires m.pow10(x) * m.pow10(y) == 1.0
    ensures 1.0 / (1.0 + m.pow10(x)) + 1.0 / (1.0 + m.pow10(y)) == 1.0
  {
    var q, p := m.pow10(x), m.pow10(y);
    assert q > 0.0 && p > 0.0;
    ReciprocalShares(q, p);
  }

  /** The order of the two players inside a team does not matter. */
  lemma TeammatesCommute(m: Math, a1: real, a2: real, b1: real, b2: real, s1: int, s2: int, t: int, k: int)
    requires t != 0
    ensures EloDiffTeam(m, a2, a1, b2, b1, s1, s2, t, k) == EloDiffTeam(m, a1, a2, b1, b2, s1, s2, t, k)
  {
    AvgEloSymmetric(m, a1, a2, t);
    AvgEloSymmetric(m, b1, b2, t);
  }

  /**
   * Rating the second side against the first negates the change, whenever
   * the two sides' expectations are complementary.
   */
  lemma EloDiffAntisymmetric(m: Math, elo1: real, elo2: real, s1: int, s2: int, t: int, k: int)
    requires t != 0
    requires AvgWin(m, elo1, elo2, t) + AvgWin(m, elo2, elo1, t) == 1.0
    ensures EloDiff(m, elo2, elo1, s2, s1, t, k) == -EloDiff(m, elo1, elo2, s1, s2, t, k)
  {
    if s1 + s2 != 0 {
      var w, p := WinFraction(s1, s2), AvgWin(m, elo1, elo2, t);
      FractionsComplement(s1, s2);
      assert WinFraction(s2, s1) - AvgWin(m, elo2, elo1, t) == -(w - p);
      NegatedProduct(k as real, w - p);
    }
  }

  lemma NegatedProduct(a: real, b: real)
    ensures a * -b == -(a * b)
  {
  }

  /** Listing the teams the other way round negates the change. */
  lemma TeamsSwapNegates(m: Math, a1: real, a2: real, b1: real, b2: real, s1: int, s2: int, t: int, k: int)
    requires t != 0 && InverseLaw(m)
    ensures EloDiffTeam(m, b1, b2, a1, a2, s2, s1, t, k) == -EloDiffTeam(m, a1, a2, b1, b2, s1, s2, t, k)
  {
    Complementary(m, AvgElo(m, a1, a2, t), AvgElo(m, b1, b2, t), t);
    PooledSwap(m, a1, a2, b1, b2, s1, s2, t, k);
  }

  lemma PooledSwap(m: Math, a1: real, a2: real, b1: real, b2: real, s1: int, s2: int, t: int, k: int)
    requires t != 0
    requires AvgWin(m, AvgElo(m, a1, a2, t), AvgElo(m, b1, b2, t), t) +
             AvgWin(m, AvgElo(m, b1, b2, t), AvgElo(m, a1, a2, t), t) == 1.0
    ensures EloDiffTeam(m, b1, b2, a1, a2, s2, s1, t, k) == -EloDiffTeam(m, a1, a2, b1, b2, s1, s2, t, k)
  {
    EloDiffAntisymmetric(m, AvgElo(m, a1, a2, t), AvgElo(m, b1, b2, t), s1, s2, t, k);
  }

  /** The two sides' shares of the points add up to one. */
  lemma FractionsComplement(s1: int, s2: int)
    requires s1 + s2 != 0
    ensures WinFraction(s1, s2) + WinFraction(s2, s1) == 1.0
  {
    var c := (s1 + s2) as real;
    assert (s2 + s1) as real == c;
    assert (s1 as real) / c + (s2 as real) / c == ((s1 as real) + (s2 as real)) / c;
  }

  /**
   * Four equal ratings: the pooled ratings are equal, the expectation is one
   * half, and the change is K times (achieved share - 1/2).
   */
  lemma EvenTeamsDelta(m: Math, elo: real, s1: int, s2: int, t: int, k: int)
    requires t != 0 && UnitAtZero(m) && LogInverse(m)
    requires s1 + s2 != 0
    ensures EloDiffTeam(m, elo, elo, elo, elo, s1, s2, t, k) == (k as real) * (WinFraction(s1, s2) - 0.5)
  {
    EvenOdds(m, elo, t);
  }
}
