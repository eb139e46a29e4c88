/** When a prohibited action can out-score a permitted one. The tier-3 risk score was chosen so that it never would. */
module Outranking {
  import opened Vocabulary
  import opened Rounding
  import opened Ranking

  lemma {:induction false} ScalingKeepsHalfEven(n: nat, d: nat, c: nat)
    requires d > 0 && c > 0
    ensures n * c >= 0 && d * c > 0 && HalfEven(n * c, d * c) == HalfEven(n, d)
  {
    var q, r := n / d, n % d;
    assert n == q * d + r;
    ProductPositive(d, c);
    ProductOrder(r, d, c);
    assert n * c == q * (d * c) + r * c by {
      assert (q * d + r) * c == q * d * c + r * c;
    }
    QuotientIs(n * c, d * c, q, r * c);
    assert 2 * r < d ==> 2 * (r * c) < d * c by { if 2 * r < d { ProductOrder(2 * r, d, c); } }
    assert 2 * r > d ==> 2 * (r * c) > d * c by { if 2 * r > d { ProductOrder(d, 2 * r, c); } }
  }

  lemma ProductPositive(d: nat, c: nat)
    requires d > 0 && c > 0
    ensures d * c > 0
  {
  }

  lemma ProductOrder(a: nat, b: nat, c: nat)
    requires a < b && c > 0
    ensures 0 <= a * c < b * c
  {
  }

  lemma QuotientIs(n: nat, d: nat, q: nat, r: nat)
    requires d > 0 && n == q * d + r && r < d
    ensures n / d == q && n % d == r
  {
    var k := n / d;
    assert n == k * d + n % d;
    assert (q - k) * d == n % d - r;
    MultipleBelow(q - k, d);
  }

  /** A smaller fraction never rounds higher, whatever the denominators. */
  lemma SmallerFraction(n: nat, d: nat, m: nat, e: nat)
    requires d > 0 && e > 0 && n * e <= m * d
    ensures HalfEven(n, d) <= HalfEven(m, e)
  {
    ScalingKeepsHalfEven(n, d, e);
    ScalingKeepsHalfEven(m, e, d);
    assert e * d == d * e;
    HalfEvenMonotone(n * e, m * d, d * e);
  }

  lemma CompositeOrder(v: nat, b: nat, v': nat, b': nat, weighted: nat)
    requires weighted > 0 && b > 0 && b' > 0 && v * b' <= v' * b
    ensures Composite(v, b, weighted) <= Composite(v', b', weighted)
  {
    ProductPositive(weighted, b);
    ProductPositive(weighted, b');
    assert v * 10_000 * (weighted * b') == (v * b') * (10_000 * weighted);
    assert v' * 10_000 * (weighted * b) == (v' * b) * (10_000 * weighted);
    MulLe(v * b', v' * b, 10_000 * weighted);
    SmallerFraction(v * 10_000, weighted * b, v' * 10_000, weighted * b');
  }

  lemma ValueMonotone(atRisk: nat, a: Band, b: Band)
    requires RecoveryShare(a) <= RecoveryShare(b)
    ensures ExpectedValue(atRisk, a) <= ExpectedValue(atRisk, b)
  {
    MulLe(RecoveryShare(a), RecoveryShare(b), atRisk);
    HalfEvenMonotone(atRisk * RecoveryShare(a), atRisk * RecoveryShare(b), 100);
  }

  /** Whole cents can stretch the ratio of a half to three tenths, but never past two. */
  lemma HighIsAtMostTwiceMedium(atRisk: nat)
    ensures ExpectedValue(atRisk, High) <= 2 * ExpectedValue(atRisk, Medium)
  {
    HalfEvenIsNearest(atRisk * 50, 100);
    HalfEvenIsNearest(atRisk * 30, 100);
  }

  predicate NeverOutscores(recovery: Band, recovery': Band, effort': Band, tier': RiskTier) {
    || RecoveryShare(recovery) <= RecoveryShare(recovery')
    || (recovery.High? && recovery'.Medium? && !(effort'.High? && tier' == CUSTOMER_FACING_OR_MATERIAL))
  }

  lemma CrossProducts(v: nat, b: nat, v': nat, b': nat)
    requires (v <= v' && b' <= b) || (v <= 2 * v' && 2 * b' <= b)
    ensures v * b' <= v' * b
  {
    if v <= v' && b' <= b {
      MulLe(b', b, v);
      MulLe(v, v', b);
    } else {
      MulLe(v, 2 * v', b');
      MulLe(2 * b', b, v');
    }
  }

  lemma NeverOutscoresHolds(recovery: Band, effort: Band, recovery': Band, effort': Band, tier': RiskTier, atRisk: nat, weighted: nat)
    requires tier' != PROHIBITED && weighted > 0 && NeverOutscores(recovery, recovery', effort', tier')
    ensures Composite(ExpectedValue(atRisk, recovery), Burden(effort, PROHIBITED), weighted)
            <= Composite(ExpectedValue(atRisk, recovery'), Burden(effort', tier'), weighted)
  {
    var v, v' := ExpectedValue(atRisk, recovery), ExpectedValue(atRisk, recovery');
    var b, b' := Burden(effort, PROHIBITED), Burden(effort', tier');
    assert (v <= v' && b' <= b) || (v <= 2 * v' && 2 * b' <= b) by {
      if RecoveryShare(recovery) <= RecoveryShare(recovery') {
        ValueMonotone(atRisk, recovery, recovery');
      } else {
        HighIsAtMostTwiceMedium(atRisk);
      }
    }
    CrossProducts(v, b, v', b');
    CompositeOrder(v, b, v', b', weighted);
  }

  lemma OneCentAgainstNone(effort: Band, b': nat)
    requires b' > 0
    ensures Composite(1, Burden(effort, PROHIBITED), 2) > Composite(0, b', 2)
  {
    assert Composite(0, b', 2) == HalfEven(0 * (2 * b'), 2 * b');
    HalfEvenOfMultiple(0, 2 * b');
    assert Composite(1, 12, 2) == 417 && Composite(1, 13, 2) == 385 && Composite(1, 15, 2) == 333;
  }

  lemma TwoCentsAgainstOne(effort: Band)
    ensures Composite(2, Burden(effort, PROHIBITED), 3) > Composite(1, Burden(High, CUSTOMER_FACING_OR_MATERIAL), 3)
  {
    assert Composite(2, 12, 3) == 556 && Composite(2, 13, 3) == 513 && Composite(2, 15, 3) == 444;
    assert Composite(1, 8, 3) == 417;
  }

  /** The figures that show it: two cents at risk of two, or three of three. */
  lemma CanOutscore(recovery: Band, effort: Band, recovery': Band, effort': Band, tier': RiskTier) returns (figure: nat)
    requires tier' != PROHIBITED && !NeverOutscores(recovery, recovery', effort', tier')
    ensures figure > 0
    ensures Composite(ExpectedValue(figure, recovery), Burden(effort, PROHIBITED), figure)
            > Composite(ExpectedValue(figure, recovery'), Burden(effort', tier'), figure)
  {
    if recovery'.Low? {
      figure := 2;
      assert ExpectedValue(2, recovery) == 1 && ExpectedValue(2, recovery') == 0;
      OneCentAgainstNone(effort, Burden(effort', tier'));
    } else {
      figure := 3;
      assert ExpectedValue(3, recovery) == 2 && ExpectedValue(3, recovery') == 1;
      TwoCentsAgainstOne(effort);
    }
  }

  lemma ScoreFromBands(d: Draft, atRisk: nat, weighted: nat)
    requires weighted > 0
    ensures ScoreOf(d, atRisk, weighted).composite == Composite(ExpectedValue(atRisk, d.recovery), Burden(d.effort, TierOf(d)), weighted)
  {
  }

  /** A prohibited draft can be scored above a permitted one, for some at-risk and weighted figures with the first within
      the second, exactly when its recovery band is better and, for high against medium, the permitted draft is also
      customer-facing or material and of high effort. With equal recovery bands it never can. */
  lemma ProhibitedOutscoresIff(p: Draft, q: Draft)
    requires TierOf(p) == PROHIBITED && TierOf(q) != PROHIBITED
    ensures
      (exists atRisk: nat, weighted: nat :: weighted > 0 && atRisk <= weighted
         && ScoreOf(p, atRisk, weighted).composite > ScoreOf(q, atRisk, weighted).composite)
      <==> !NeverOutscores(p.recovery, q.recovery, q.effort, TierOf(q))
  {
    var tier := TierOf(q);
    if NeverOutscores(p.recovery, q.recovery, q.effort, tier) {
      forall atRisk: nat, weighted: nat | weighted > 0 && atRisk <= weighted
        ensures ScoreOf(p, atRisk, weighted).composite <= ScoreOf(q, atRisk, weighted).composite
      {
        ScoreFromBands(p, atRisk, weighted);
        ScoreFromBands(q, atRisk, weighted);
        NeverOutscoresHolds(p.recovery, p.effort, q.recovery, q.effort, tier, atRisk, weighted);
      }
    } else {
      var figure := CanOutscore(p.recovery, p.effort, q.recovery, q.effort, tier);
      ScoreFromBands(p, figure, figure);
      ScoreFromBands(q, figure, figure);
    }
  }

  /** Scores do not restate which deal is bigger: scaling the value and the weighted value together changes nothing. */
  lemma CompositeIgnoresDealSize(value: nat, burden: nat, weighted: nat, scale: nat)
    requires weighted > 0 && burden > 0 && scale > 0
    ensures weighted * scale > 0 && Composite(value * scale, burden, weighted * scale) == Composite(value, burden, weighted)
  {
    ProductPositive(weighted, scale);
    ProductPositive(weighted, burden);
    ScalingKeepsHalfEven(value * 10_000, weighted * burden, scale);
    assert value * scale * 10_000 == value * 10_000 * scale;
    assert weighted * scale * burden == weighted * burden * scale;
  }
}
