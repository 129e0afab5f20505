/** Per-class constants and the staircase decay weight of one vote. */
module DecayModel {
  import opened Types

  /** Milliseconds after which a vote's weight steps down once (`get_melting_rate`). */
  function MeltingRate(drClass: nat): (r: nat)
    ensures r > 0
    ensures r == 6 * ResultInterval(drClass)
  {
    match drClass
    case 1 => 2400 * 1000
    case 2 => 7200 * 1000
    case 3 => 21600 * 1000
    case 4 => 64800 * 1000
    case _ => 194400 * 1000
  }

  /** Milliseconds between two samples of a short transition series (`get_result_interval`). */
  function ResultInterval(drClass: nat): (r: nat)
    ensures r > 0
  {
    match drClass
    case 1 => 400 * 1000
    case 2 => 20 * 60 * 1000
    case 3 => 60 * 60 * 1000
    case 4 => 3 * 60 * 60 * 1000
    case _ => 9 * 60 * 60 * 1000
  }

  /** The five tabled classes: each of classes 1 to 4 is three times slower
      than the one before, and every other class falls into the last row. */
  lemma ClassTable(drClass: nat)
    ensures drClass == 1 ==> MeltingRate(drClass) == 2_400_000 && ResultInterval(drClass) == 400_000
    ensures 1 <= drClass <= 4 ==> MeltingRate(drClass + 1) == 3 * MeltingRate(drClass)
    ensures 1 <= drClass <= 4 ==> ResultInterval(drClass + 1) == 3 * ResultInterval(drClass)
    ensures drClass !in {1, 2, 3, 4} ==>
      MeltingRate(drClass) == 194_400_000 && ResultInterval(drClass) == 32_400_000
  {
  }

  /** Among the classes from 1 up, a larger class decays more slowly and samples more coarsely. */
  lemma SlowerForLargerClass(c1: nat, c2: nat)
    requires 1 <= c1 <= c2
    ensures MeltingRate(c1) <= MeltingRate(c2)
    ensures ResultInterval(c1) <= ResultInterval(c2)
  {
  }

  /** Number of whole melting periods in `elapsed`: the u64 floor division `elapsed / melting_rate`. */
  function Step(elapsed: nat, meltingRate: nat): (k: nat)
    requires meltingRate > 0
    ensures k * meltingRate <= elapsed < (k + 1) * meltingRate
  {
    elapsed / meltingRate
  }

  /** The decay polynomial ratio (4k + 5) / (k^2 + 4k + 5), exactly. */
  function WeightAt(k: nat): (w: real)
    ensures 0.0 < w <= 1.0
    ensures k == 0 ==> w == 1.0
  {
    var num := 4 * k + 5;
    var den := k * k + 4 * k + 5;
    assert 0 < num <= den;
    RatioAtMostOne(num as real, den as real);
    num as real / den as real
  }

  lemma RatioAtMostOne(num: real, den: real)
    requires 0.0 < num <= den
    ensures 0.0 < num / den <= 1.0
  {
    assert num / den * den == num;
  }

  /** The weight of a vote `elapsed` ms old (`eval_formula`). */
  function Weight(elapsed: nat, meltingRate: nat): (w: real)
    requires meltingRate > 0
    ensures 0.0 < w <= 1.0
  {
    WeightAt(Step(elapsed, meltingRate))
  }

  /** Division facts: a/b <= c/d for positive denominators whenever a*d <= c*b. */
  lemma RatioLe(a: real, b: real, c: real, d: real)
    requires b > 0.0 && d > 0.0
    requires a * d <= c * b
    ensures a / b <= c / d
  {
    var x, y := a / b, c / d;
    assert x * b == a;
    assert y * d == c;
    assert x * b * d <= y * d * b;
    assert (x - y) * (b * d) <= 0.0;
  }

  /** One more melting period strictly lowers the weight. */
  lemma WeightAtStepDown(k: nat)
    ensures WeightAt(k + 1) < WeightAt(k)
  {
    var a, b := (4 * (k + 1) + 5) as real, ((k + 1) * (k + 1) + 4 * (k + 1) + 5) as real;
    var c, d := (4 * k + 5) as real, (k * k + 4 * k + 5) as real;
    // (4k + 9)(k^2 + 4k + 5) + (4k^2 + 14k + 5) == (4k + 5)(k^2 + 6k + 10)
    assert (4 * k + 9) * (k * k + 4 * k + 5) + (4 * k * k + 14 * k + 5)
        == (4 * k + 5) * ((k + 1) * (k + 1) + 4 * (k + 1) + 5);
    assert a * d < c * b;
    RatioLt(a, b, c, d);
  }

  lemma RatioLt(a: real, b: real, c: real, d: real)
    requires b > 0.0 && d > 0.0
    requires a * d < c * b
    ensures a / b < c / d
  {
    var x, y := a / b, c / d;
    assert x * b == a;
    assert y * d == c;
    assert (x - y) * (b * d) < 0.0;
  }

  /** The weight as a function of k is non-increasing. */
  lemma {:induction false} WeightAtAntitone(k1: nat, k2: nat)
    requires k1 <= k2
    ensures WeightAt(k2) <= WeightAt(k1)
    decreases k2 - k1
  {
    if k1 < k2 {
      WeightAtAntitone(k1, k2 - 1);
      WeightAtStepDown(k2 - 1);
    }
  }

  /** The weight tends to 0: after k periods it is at most 5 / (k + 1). */
  lemma WeightAtVanishes(k: nat)
    ensures WeightAt(k) <= 5.0 / (k + 1) as real
  {
    var a, b := (4 * k + 5) as real, (k * k + 4 * k + 5) as real;
    assert (4 * k + 5) * (k + 1) <= 5 * (k * k + 4 * k + 5);
    RatioLe(a, b, 5.0, (k + 1) as real);
  }

  lemma MulLe(a: nat, b: nat, m: nat)
    requires a <= b
    ensures a * m <= b * m
  {
  }

  /** Floor division is monotone in the dividend. */
  lemma StepMonotone(e1: nat, e2: nat, meltingRate: nat)
    requires meltingRate > 0 && e1 <= e2
    ensures Step(e1, meltingRate) <= Step(e2, meltingRate)
  {
    var k1, k2 := Step(e1, meltingRate), Step(e2, meltingRate);
    if k2 < k1 {
      MulLe(k2 + 1, k1, meltingRate);
    }
  }

  /** The weight is constant on each melting period [k*m, (k+1)*m): it depends
      on `elapsed` only through k. */
  lemma WeightStaircase(elapsed: nat, meltingRate: nat, k: nat)
    requires meltingRate > 0
    requires k * meltingRate <= elapsed < (k + 1) * meltingRate
    ensures Step(elapsed, meltingRate) == k
    ensures Weight(elapsed, meltingRate) == WeightAt(k)
  {
    var q := elapsed / meltingRate;
    if q < k {
      MulLe(q + 1, k, meltingRate);
    } else if q > k {
      MulLe(k + 1, q, meltingRate);
    }
  }

  /** An older vote never weighs more than a younger one. */
  lemma WeightAntitone(e1: nat, e2: nat, meltingRate: nat)
    requires meltingRate > 0 && e1 <= e2
    ensures Weight(e2, meltingRate) <= Weight(e1, meltingRate)
  {
    StepMonotone(e1, e2, meltingRate);
    WeightAtAntitone(Step(e1, meltingRate), Step(e2, meltingRate));
  }

  /** With the class-1 melting rate: a fresh vote weighs 1 and one period later 9/10. */
  lemma WeightExamples()
    ensures Weight(0, MeltingRate(1)) == 1.0
    ensures Weight(2_400_000, MeltingRate(1)) == 0.9
  {
  }

  /** In u64 arithmetic the denominator `val * val + 4 * val + 5` fits exactly when
      k <= 2^32 - 3; from k = 2^32 - 2 on it overflows (the weight above is exact). */
  lemma DenominatorFitsU64(k: nat)
    ensures k * k + 4 * k + 5 < U64_LIMIT <==> k <= 0x1_0000_0000 - 3
  {
    var m := 0x1_0000_0000 - 3;
    if k <= m {
      MulLe(k, m, k);
      MulLe(k, m, m);
      assert m * m + 4 * m + 5 < U64_LIMIT;
    } else {
      MulLe(m + 1, k, k);
      MulLe(m + 1, k, m + 1);
      assert (m + 1) * (m + 1) + 4 * (m + 1) + 5 >= U64_LIMIT;
    }
  }
}
