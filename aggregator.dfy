/** `calc_result`: sum the decay weights of the votes valid at one instant into
    per-choice buckets and scale the buckets to percentages. */
module Aggregator {
  import opened Types
  import opened DecayModel

  /** A vote counts at `now` when it was created no later than `now` and has
      not yet expired (an `expiredAt` of 0 never expires). */
  predicate Counts(v: Vote, now: int)
    ensures v.expiredAt == 0 ==> (Counts(v, now) <==> v.createdAt <= now)
    ensures 0 < v.expiredAt <= v.createdAt ==> !Counts(v, now)
  {
    v.createdAt <= now && (v.expiredAt == 0 || v.expiredAt > now)
  }

  /** What `calc_result` needs of its votes so that `points[vote.answer]` stays
      in bounds: every vote that counts at `now` names one of the `n` choices. */
  predicate AnswersFit(votes: seq<Vote>, n: nat, now: int)
    ensures n == 0 ==> (AnswersFit(votes, n, now) <==> !SomeVoteCounts(votes, now))
  {
    forall v :: v in votes && Counts(v, now) ==> v.answer < n
  }

  /** Some vote of the list counts at `now`. */
  predicate SomeVoteCounts(votes: seq<Vote>, now: int) {
    exists v :: v in votes && Counts(v, now)
  }

  /** The validity window is an interval: a vote that counts at two instants
      counts at every instant between them. */
  lemma ValidityWindow(v: Vote, t1: int, t: int, t2: int)
    requires t1 <= t <= t2 && Counts(v, t1) && Counts(v, t2)
    ensures Counts(v, t)
  {
  }

  /** The weight vote `v` adds to bucket `c` at `now`. */
  function Contribution(v: Vote, now: nat, meltingRate: nat, c: nat): (w: real)
    requires meltingRate > 0
    ensures w >= 0.0
    ensures w > 0.0 <==> Counts(v, now) && v.answer == c
  {
    if Counts(v, now) && v.answer == c then Weight(now - v.createdAt, meltingRate) else 0.0
  }

  /** Bucket `c` after the first |votes| iterations of the accumulation loop. */
  function Tally(votes: seq<Vote>, now: nat, meltingRate: nat, c: nat): (t: real)
    requires meltingRate > 0
    ensures t >= 0.0
    decreases |votes|
  {
    if votes == [] then 0.0
    else Tally(votes[..|votes| - 1], now, meltingRate, c)
         + Contribution(votes[|votes| - 1], now, meltingRate, c)
  }

  /** The bucket vector `points`: one tally per choice. */
  function Buckets(votes: seq<Vote>, now: nat, meltingRate: nat, n: nat): (b: seq<real>)
    requires meltingRate > 0
    ensures |b| == n
  {
    seq(n, c requires 0 <= c < n => Tally(votes, now, meltingRate, c))
  }

  /** `points.iter().sum()`, a left fold. */
  function Sum(s: seq<real>): real
    decreases |s|
  {
    if s == [] then 0.0 else Sum(s[..|s| - 1]) + s[|s| - 1]
  }

  predicate NonNegative(s: seq<real>) {
    forall i :: 0 <= i < |s| ==> s[i] >= 0.0
  }

  /** `f64::round`: to the nearest integer, halfway cases away from zero. */
  function RoundHalfAway(x: real): (r: int)
    ensures x - 0.5 <= r as real <= x + 0.5
    ensures x >= 0.0 ==> x - 0.5 < r as real
    ensures x < 0.0 ==> r as real < x + 0.5
    ensures x >= 0.0 ==> r >= 0
  {
    if x >= 0.0 then (x + 0.5).Floor else -((-x + 0.5).Floor)
  }

  /** The exact share of bucket `c`, as a percentage. */
  function Share(points: seq<real>, c: nat): real
    requires c < |points| && Sum(points) != 0.0
  {
    points[c] / Sum(points) * 100.0
  }

  /** Scaling to percentages, `(point / sum * 1e6).round() / 1e4`; when the sum is 0
      (so, the buckets being non-negative, every bucket is 0) each entry is 0/0. */
  function Normalize(points: seq<real>): (r: seq<Entry>)
    requires NonNegative(points)
    ensures |r| == |points|
  {
    var sum := Sum(points);
    seq(|points|, c requires 0 <= c < |points| =>
      if sum == 0.0 then NaN
      else Finite(RoundHalfAway(points[c] / sum * 1000000.0) as real / 10000.0))
  }

  /** The value of `calc_result(now, melting_rate, n, votes)`. */
  function Aggregate(now: nat, meltingRate: nat, n: nat, votes: seq<Vote>): (r: seq<Entry>)
    requires meltingRate > 0
    requires AnswersFit(votes, n, now)
    ensures |r| == n
    ensures forall c :: 0 <= c < n ==> (r[c] == NaN <==> !SomeVoteCounts(votes, now))
  {
    var points := Buckets(votes, now, meltingRate, n);
    BucketsNonNegative(votes, now, meltingRate, n);
    BucketsTotal(votes, now, meltingRate, n);
    TotalWeightPositiveIff(votes, now, meltingRate);
    NormalizeNaNIff(points);
    Normalize(points)
  }

  /** `calc_result`: a zero vector of `numOfChoices` buckets, updated in place,
      vote by vote, for the votes that count at `now`, then normalised. */
  method CalcResult(now: nat, meltingRate: nat, numOfChoices: nat, votes: seq<Vote>)
    returns (r: seq<Entry>)
    requires meltingRate > 0
    requires AnswersFit(votes, numOfChoices, now)
    ensures r == Aggregate(now, meltingRate, numOfChoices, votes)
  {
    var points := new real[numOfChoices](_ => 0.0);
    var j := 0;
    while j < |votes|
      invariant 0 <= j <= |votes|
      invariant forall c :: 0 <= c < numOfChoices ==> points[c] == Tally(votes[..j], now, meltingRate, c)
    {
      var vote := votes[j];
      assert votes[..j + 1][..j] == votes[..j];
      if Counts(vote, now) {
        points[vote.answer] := points[vote.answer] + Weight(now - vote.createdAt, meltingRate);
      }
      j := j + 1;
    }
    assert votes[..j] == votes;
    assert points[..] == Buckets(votes, now, meltingRate, numOfChoices);
    BucketsNonNegative(votes, now, meltingRate, numOfChoices);
    r := Normalize(points[..]);
  }

  // ---------------------------------------------------------------------------
  // Buckets

  lemma BucketsNonNegative(votes: seq<Vote>, now: nat, meltingRate: nat, n: nat)
    requires meltingRate > 0
    ensures NonNegative(Buckets(votes, now, meltingRate, n))
  {
  }

  /** Tallying is additive over a split of the vote list. */
  lemma {:induction false} TallyConcat(a: seq<Vote>, b: seq<Vote>, now: nat, meltingRate: nat, c: nat)
    requires meltingRate > 0
    ensures Tally(a + b, now, meltingRate, c) == Tally(a, now, meltingRate, c) + Tally(b, now, meltingRate, c)
    decreases |b|
  {
    if b == [] {
      assert a + b == a;
    } else {
      var b' := b[..|b| - 1];
      assert (a + b)[..|a + b| - 1] == a + b';
      TallyConcat(a, b', now, meltingRate, c);
    }
  }

  lemma TallySingle(v: Vote, now: nat, meltingRate: nat, c: nat)
    requires meltingRate > 0
    ensures Tally([v], now, meltingRate, c) == Contribution(v, now, meltingRate, c)
  {
    assert [v][..0] == [];
  }

  /** A vote that does not count at `now` (created later, or already expired)
      can be inserted anywhere without changing any bucket. */
  lemma InvalidVoteIgnored(a: seq<Vote>, v: Vote, b: seq<Vote>, now: nat, meltingRate: nat, n: nat)
    requires meltingRate > 0
    requires !Counts(v, now)
    ensures Buckets(a + [v] + b, now, meltingRate, n) == Buckets(a + b, now, meltingRate, n)
  {
    forall c | 0 <= c < n
      ensures Tally(a + [v] + b, now, meltingRate, c) == Tally(a + b, now, meltingRate, c)
    {
      TallyConcat(a + [v], b, now, meltingRate, c);
      TallyConcat(a, [v], now, meltingRate, c);
      TallyConcat(a, b, now, meltingRate, c);
      TallySingle(v, now, meltingRate, c);
    }
  }

  /** Appending a vote for choice c changes bucket c if and only if the vote counts
      at `now`, and then by exactly that vote's decay weight. */
  lemma VoteContributesIff(votes: seq<Vote>, v: Vote, now: nat, meltingRate: nat)
    requires meltingRate > 0
    ensures Counts(v, now) ==>
      Tally(votes + [v], now, meltingRate, v.answer)
        == Tally(votes, now, meltingRate, v.answer) + Weight(now - v.createdAt, meltingRate)
    ensures Tally(votes + [v], now, meltingRate, v.answer) != Tally(votes, now, meltingRate, v.answer)
        <==> Counts(v, now)
    ensures forall c :: c != v.answer ==>
      Tally(votes + [v], now, meltingRate, c) == Tally(votes, now, meltingRate, c)
  {
    assert (votes + [v])[..|votes|] == votes;
  }

  /** Bucket c is 0 exactly when no vote for c counts at `now`. */
  lemma {:induction false} TallyZeroIff(votes: seq<Vote>, now: nat, meltingRate: nat, c: nat)
    requires meltingRate > 0
    ensures Tally(votes, now, meltingRate, c) == 0.0
        <==> forall v :: v in votes && v.answer == c ==> !Counts(v, now)
    decreases |votes|
  {
    if votes != [] {
      var init := votes[..|votes| - 1];
      TallyZeroIff(init, now, meltingRate, c);
      assert votes == init + [votes[|votes| - 1]];
    }
  }

  // ---------------------------------------------------------------------------
  // Sums

  lemma {:induction false} ElementAtMostSum(s: seq<real>, i: nat)
    requires NonNegative(s) && i < |s|
    ensures 0.0 <= s[i] <= Sum(s)
    decreases |s|
  {
    var init := s[..|s| - 1];
    SumNonNegative(init);
    if i < |s| - 1 {
      ElementAtMostSum(init, i);
    }
  }

  /** The sum of non-negative entries is non-negative. */
  lemma {:induction false} SumNonNegative(s: seq<real>)
    requires NonNegative(s)
    ensures Sum(s) >= 0.0
    decreases |s|
  {
    if s != [] {
      SumNonNegative(s[..|s| - 1]);
    }
  }

  /** Sum distributes over scaling to percentages. */
  lemma {:induction false} SumOfShares(s: seq<real>, d: real)
    requires d != 0.0
    ensures Sum(seq(|s|, i requires 0 <= i < |s| => s[i] / d * 100.0)) == Sum(s) / d * 100.0
    decreases |s|
  {
    var t := seq(|s|, i requires 0 <= i < |s| => s[i] / d * 100.0);
    if s != [] {
      var init := s[..|s| - 1];
      assert t[..|t| - 1] == seq(|init|, i requires 0 <= i < |init| => init[i] / d * 100.0);
      SumOfShares(init, d);
      assert (Sum(init) + s[|s| - 1]) / d == Sum(init) / d + s[|s| - 1] / d;
    }
  }

  /** Vectors that are pointwise within `e` of each other have sums within |a| * e. */
  lemma {:induction false} SumClose(a: seq<real>, b: seq<real>, e: real)
    requires |a| == |b|
    requires forall i :: 0 <= i < |a| ==> -e <= a[i] - b[i] <= e
    ensures -(|a| as real) * e <= Sum(a) - Sum(b) <= (|a| as real) * e
    decreases |a|
  {
    if a != [] {
      SumClose(a[..|a| - 1], b[..|b| - 1], e);
    }
  }

  // ---------------------------------------------------------------------------
  // Normalisation

  /** The exact shares lie in [0, 100] and total 100. */
  lemma SharesArePercentages(points: seq<real>)
    requires NonNegative(points) && Sum(points) > 0.0
    ensures forall c :: 0 <= c < |points| ==> 0.0 <= Share(points, c) <= 100.0
    ensures Sum(seq(|points|, c requires 0 <= c < |points| => Share(points, c))) == 100.0
  {
    var sum := Sum(points);
    forall c | 0 <= c < |points|
      ensures 0.0 <= Share(points, c) <= 100.0
    {
      ElementAtMostSum(points, c);
      RatioAtMostOneOrZero(points[c], sum);
    }
    SumOfShares(points, sum);
    assert seq(|points|, c requires 0 <= c < |points| => Share(points, c))
        == seq(|points|, i requires 0 <= i < |points| => points[i] / sum * 100.0);
  }

  lemma RatioAtMostOneOrZero(x: real, d: real)
    requires 0.0 <= x <= d && d > 0.0
    ensures 0.0 <= x / d <= 1.0
  {
    if x > 0.0 {
      RatioAtMostOne(x, d);
    }
  }

  /** Each rounded entry is defined when the sum is positive, lies in [0, 100]
      and is within 0.00005 of the exact share. */
  lemma RoundedEntry(points: seq<real>, c: nat)
    requires NonNegative(points) && Sum(points) > 0.0 && c < |points|
    ensures Normalize(points)[c].Finite?
    ensures 0.0 <= Normalize(points)[c].value <= 100.0
    ensures -0.00005 <= Normalize(points)[c].value - Share(points, c) <= 0.00005
  {
    SharesArePercentages(points);
    var q := points[c] / Sum(points) * 1000000.0;
    assert q == Share(points, c) * 10000.0;
    var r := RoundHalfAway(q);
    assert q <= 1000000.0;
    assert r as real <= 1000000.5;
  }

  /** The defined entries as numbers. */
  function Values(r: seq<Entry>): (vs: seq<real>)
    requires forall i :: 0 <= i < |r| ==> r[i].Finite?
    ensures |vs| == |r| && forall i :: 0 <= i < |r| ==> vs[i] == r[i].value
  {
    seq(|r|, i requires 0 <= i < |r| => r[i].value)
  }

  /** With a positive sum every entry is a defined percentage. */
  lemma RoundedEntries(points: seq<real>)
    requires NonNegative(points) && Sum(points) > 0.0
    ensures forall c :: 0 <= c < |points| ==>
      Normalize(points)[c].Finite? && 0.0 <= Normalize(points)[c].value <= 100.0
  {
    forall c | 0 <= c < |points|
      ensures Normalize(points)[c].Finite? && 0.0 <= Normalize(points)[c].value <= 100.0
    {
      RoundedEntry(points, c);
    }
  }

  /** With a positive sum the rounded entries total 100 up to |points| * 0.00005. */
  lemma RoundedTotal(points: seq<real>)
    requires NonNegative(points) && Sum(points) > 0.0
    ensures forall c :: 0 <= c < |points| ==> Normalize(points)[c].Finite?
    ensures -(|points| as real) * 0.00005 <= Sum(Values(Normalize(points))) - 100.0
    ensures Sum(Values(Normalize(points))) - 100.0 <= (|points| as real) * 0.00005
  {
    RoundedEntries(points);
    var vs := Values(Normalize(points));
    var shares := seq(|points|, c requires 0 <= c < |points| => Share(points, c));
    forall c | 0 <= c < |points|
      ensures -0.00005 <= vs[c] - shares[c] <= 0.00005
    {
      RoundedEntry(points, c);
    }
    SharesArePercentages(points);
    TotalNear(vs, shares);
  }

  lemma TotalNear(vs: seq<real>, shares: seq<real>)
    requires |vs| == |shares| && Sum(shares) == 100.0
    requires forall c :: 0 <= c < |vs| ==> -0.00005 <= vs[c] - shares[c] <= 0.00005
    ensures -(|vs| as real) * 0.00005 <= Sum(vs) - 100.0 <= (|vs| as real) * 0.00005
  {
    SumClose(vs, shares, 0.00005);
  }

  /** An entry is NaN exactly when the sum is 0. */
  lemma NormalizeNaNIff(points: seq<real>)
    requires NonNegative(points)
    ensures forall c :: 0 <= c < |points| ==> (Normalize(points)[c] == NaN <==> Sum(points) == 0.0)
  {
    if Sum(points) > 0.0 {
      RoundedEntries(points);
    }
  }

  /** With a zero sum every entry is NaN. */
  lemma NormalizeZero(points: seq<real>)
    requires NonNegative(points) && Sum(points) == 0.0
    ensures forall c :: 0 <= c < |points| ==> Normalize(points)[c] == NaN
  {
  }

  // ---------------------------------------------------------------------------
  // The aggregate

  /** The buckets total the weights of the votes that count. */
  function TotalWeight(votes: seq<Vote>, now: nat, meltingRate: nat): (t: real)
    requires meltingRate > 0
    ensures t >= 0.0
    decreases |votes|
  {
    if votes == [] then 0.0
    else
      var v := votes[|votes| - 1];
      TotalWeight(votes[..|votes| - 1], now, meltingRate)
      + (if Counts(v, now) then Weight(now - v.createdAt, meltingRate) else 0.0)
  }

  /** Adding w at index a of a vector raises its sum by w. */
  lemma {:induction false} SumBump(s: seq<real>, t: seq<real>, a: nat, w: real)
    requires |s| == |t| && a < |s|
    requires t[a] == s[a] + w
    requires forall i :: 0 <= i < |s| && i != a ==> t[i] == s[i]
    ensures Sum(t) == Sum(s) + w
    decreases |s|
  {
    var k := |s| - 1;
    if a == k {
      assert t[..k] == s[..k];
    } else {
      SumBump(s[..k], t[..k], a, w);
    }
  }

  lemma {:induction false} BucketsTotal(votes: seq<Vote>, now: nat, meltingRate: nat, n: nat)
    requires meltingRate > 0
    requires AnswersFit(votes, n, now)
    ensures Sum(Buckets(votes, now, meltingRate, n)) == TotalWeight(votes, now, meltingRate)
    decreases |votes|
  {
    if votes == [] {
      SumOfZeros(Buckets(votes, now, meltingRate, n));
    } else {
      var init := votes[..|votes| - 1];
      var v := votes[|votes| - 1];
      assert votes == init + [v];
      BucketsTotal(init, now, meltingRate, n);
      if Counts(v, now) {
        SumBump(Buckets(init, now, meltingRate, n), Buckets(votes, now, meltingRate, n),
                v.answer, Weight(now - v.createdAt, meltingRate));
      } else {
        assert Buckets(init, now, meltingRate, n) == Buckets(votes, now, meltingRate, n);
      }
    }
  }

  lemma {:induction false} SumOfZeros(s: seq<real>)
    requires forall i :: 0 <= i < |s| ==> s[i] == 0.0
    ensures Sum(s) == 0.0
    decreases |s|
  {
    if s != [] {
      SumOfZeros(s[..|s| - 1]);
    }
  }

  /** The total weight is positive exactly when some vote counts. */
  lemma {:induction false} TotalWeightPositiveIff(votes: seq<Vote>, now: nat, meltingRate: nat)
    requires meltingRate > 0
    ensures TotalWeight(votes, now, meltingRate) > 0.0 <==> SomeVoteCounts(votes, now)
    decreases |votes|
  {
    if votes != [] {
      var init := votes[..|votes| - 1];
      TotalWeightPositiveIff(init, now, meltingRate);
      assert votes == init + [votes[|votes| - 1]];
    }
  }

  /** What `calc_result` returns: one entry per choice; NaN everywhere exactly when
      no vote counts at `now`; otherwise percentages in [0, 100], each within 0.00005
      of its bucket's exact share of the total weight, totalling 100 up to rounding. */
  lemma AggregateMeaning(now: nat, meltingRate: nat, n: nat, votes: seq<Vote>)
    requires meltingRate > 0
    requires AnswersFit(votes, n, now)
    ensures |Aggregate(now, meltingRate, n, votes)| == n
    ensures SomeVoteCounts(votes, now) <==> TotalWeight(votes, now, meltingRate) > 0.0
    ensures !SomeVoteCounts(votes, now) ==>
      forall c :: 0 <= c < n ==> Aggregate(now, meltingRate, n, votes)[c] == NaN
    ensures TotalWeight(votes, now, meltingRate) > 0.0 ==>
      forall c :: 0 <= c < n ==>
        && Aggregate(now, meltingRate, n, votes)[c].Finite?
        && 0.0 <= Aggregate(now, meltingRate, n, votes)[c].value <= 100.0
        && -0.00005 <= Aggregate(now, meltingRate, n, votes)[c].value
             - Tally(votes, now, meltingRate, c) / TotalWeight(votes, now, meltingRate) * 100.0 <= 0.00005
    ensures TotalWeight(votes, now, meltingRate) > 0.0 ==>
      -(n as real) * 0.00005 <= Sum(Values(Aggregate(now, meltingRate, n, votes))) - 100.0 <= (n as real) * 0.00005
  {
    var points := Buckets(votes, now, meltingRate, n);
    BucketsNonNegative(votes, now, meltingRate, n);
    BucketsTotal(votes, now, meltingRate, n);
    TotalWeightPositiveIff(votes, now, meltingRate);
    if Sum(points) > 0.0 {
      RoundedTotal(points);
      forall c | 0 <= c < n
        ensures Normalize(points)[c].Finite? && 0.0 <= Normalize(points)[c].value <= 100.0
        ensures -0.00005 <= Normalize(points)[c].value - Share(points, c) <= 0.00005
      {
        RoundedEntry(points, c);
      }
    } else {
      NormalizeZero(points);
    }
  }

  /** One class-1 vote for choice 0 of two, created at 0 and never expiring: at
      instant 0 it takes the whole distribution; with no vote at all, both entries are NaN. */
  lemma SingleVoteExample()
    ensures Aggregate(0, MeltingRate(1), 2, [Vote(1, 0, 0, 0)]) == [Finite(100.0), Finite(0.0)]
    ensures Aggregate(0, MeltingRate(1), 2, []) == [NaN, NaN]
  {
    var votes := [Vote(1, 0, 0, 0)];
    var points := Buckets(votes, 0, MeltingRate(1), 2);
    TallySingle(votes[0], 0, MeltingRate(1), 0);
    TallySingle(votes[0], 0, MeltingRate(1), 1);
    assert points == [1.0, 0.0];
    assert Sum(points) == 1.0 by {
      assert points[..1] == [1.0];
      assert [1.0][..0] == [];
      assert Sum([1.0]) == 1.0;
    }
  }

  /** Rounding to four decimals need not keep the total within 0.0001 of 100:
      buckets in the ratio 499999 : 499999 : 499999 : 500003 round to 25, 25, 25
      and 25.0002, totalling 100.0002. */
  lemma RoundingExample()
    ensures Normalize([249999.5, 249999.5, 249999.5, 250001.5])
         == [Finite(25.0), Finite(25.0), Finite(25.0), Finite(25.0002)]
    ensures Sum(Values(Normalize([249999.5, 249999.5, 249999.5, 250001.5]))) == 100.0002
  {
    var points := [249999.5, 249999.5, 249999.5, 250001.5];
    SumOfFour(249999.5, 249999.5, 249999.5, 250001.5);
    var vs := Values(Normalize(points));
    assert vs == [25.0, 25.0, 25.0, 25.0002];
    SumOfFour(25.0, 25.0, 25.0, 25.0002);
  }

  lemma SumOfFour(a: real, b: real, c: real, d: real)
    ensures Sum([a, b, c, d]) == a + b + c + d
  {
    assert [a, b, c, d][..3] == [a, b, c];
    assert [a, b, c][..2] == [a, b];
    assert [a, b][..1] == [a];
    assert [a][..0] == [];
    assert Sum([a]) == a;
    assert Sum([a, b]) == a + b;
    assert Sum([a, b, c]) == a + b + c;
  }
}
