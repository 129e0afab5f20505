/** `calc_transition`: the short and long look-back series of one theme. */
module Transitions {
  import opened Types
  import opened DecayModel
  import opened Aggregator

  /** Number of samples in each series. */
  const SAMPLES: nat := 60
  /** The long series is the short cadence stretched by this factor. */
  const STRETCH: nat := 24
  /** The oldest sample lies this many result intervals before `now`. */
  const LOOK_BACK: nat := (SAMPLES - 1) * STRETCH

  /** `votes.filter(|vote| vote.theme_id == theme_id)`, in input order. */
  function ThemeVotes(votes: seq<Vote>, themeId: nat): (r: seq<Vote>)
    ensures forall v :: v in r <==> v in votes && v.themeId == themeId
    ensures |r| <= |votes|
    decreases |votes|
  {
    if votes == [] then []
    else
      var init := ThemeVotes(votes[..|votes| - 1], themeId);
      var v := votes[|votes| - 1];
      assert forall u :: u in votes <==> u in votes[..|votes| - 1] || u == v;
      if v.themeId == themeId then init + [v] else init
  }

  /** Filtering commutes with concatenation. */
  lemma {:induction false} ThemeVotesConcat(a: seq<Vote>, b: seq<Vote>, themeId: nat)
    ensures ThemeVotes(a + b, themeId) == ThemeVotes(a, themeId) + ThemeVotes(b, themeId)
    decreases |b|
  {
    if b == [] {
      assert a + b == a;
    } else {
      var b' := b[..|b| - 1];
      assert (a + b)[..|a + b| - 1] == a + b';
      ThemeVotesConcat(a, b', themeId);
    }
  }

  /** A vote of another theme can be inserted anywhere without changing the filtered list. */
  lemma OtherThemeVoteFiltered(a: seq<Vote>, v: Vote, b: seq<Vote>, themeId: nat)
    requires v.themeId != themeId
    ensures ThemeVotes(a + [v] + b, themeId) == ThemeVotes(a + b, themeId)
  {
    ThemeVotesConcat(a + [v], b, themeId);
    ThemeVotesConcat(a, [v], themeId);
    ThemeVotesConcat(a, b, themeId);
    assert [v][..0] == [];
  }

  /** The instant of sample `i` of the short series: `now - i * interval`. */
  function ShortInstant(now: nat, interval: nat, i: nat): (t: nat)
    requires i < SAMPLES && LOOK_BACK * interval <= now
    ensures t <= now
    ensures 0 < i && 0 < interval ==> t < now
  {
    MulLe(i, LOOK_BACK, interval);
    now - i * interval
  }

  /** The instant of sample `i` of the long series: `now - (i * 24) * interval`. */
  function LongInstant(now: nat, interval: nat, i: nat): (t: nat)
    requires i < SAMPLES && LOOK_BACK * interval <= now
    ensures t <= now
    ensures STRETCH * i < SAMPLES ==> t == ShortInstant(now, interval, STRETCH * i)
  {
    MulLe(i * STRETCH, LOOK_BACK, interval);
    now - i * STRETCH * interval
  }

  /** What `calc_transition` needs of its caller: no u64 underflow at the oldest
      sample, and every vote that counts at a sampled instant in range. */
  predicate CanSample(now: nat, theme: Theme, themeVotes: seq<Vote>)
    ensures CanSample(now, theme, themeVotes) ==> AnswersFit(themeVotes, |theme.choices|, now)
    ensures themeVotes == [] ==>
      (CanSample(now, theme, themeVotes) <==> LOOK_BACK * ResultInterval(theme.drClass) <= now)
  {
    var interval := ResultInterval(theme.drClass);
    var n := |theme.choices|;
    && LOOK_BACK * interval <= now
    && (assert ShortInstant(now, interval, 0) == now;
        forall i :: 0 <= i < SAMPLES ==> AnswersFit(themeVotes, n, ShortInstant(now, interval, i)))
    && (forall i :: 0 <= i < SAMPLES ==> AnswersFit(themeVotes, n, LongInstant(now, interval, i)))
  }

  /** The snapshot of the theme's votes at instant `t`. */
  function Snapshot(t: nat, theme: Theme, themeVotes: seq<Vote>): (tr: Transition)
    requires AnswersFit(themeVotes, |theme.choices|, t)
    ensures tr.timestamp == t && |tr.percentage| == |theme.choices|
  {
    AggregateMeaning(t, MeltingRate(theme.drClass), |theme.choices|, themeVotes);
    Transition(t, Aggregate(t, MeltingRate(theme.drClass), |theme.choices|, themeVotes))
  }

  /** `calc_transition(now, theme, votes)`: (short series, long series). */
  function CalcTransition(now: nat, theme: Theme, votes: seq<Vote>): (r: (seq<Transition>, seq<Transition>))
    requires CanSample(now, theme, ThemeVotes(votes, theme.themeId))
    ensures |r.0| == SAMPLES && |r.1| == SAMPLES
    ensures forall i :: 0 <= i < SAMPLES ==>
      && r.0[i].timestamp == now - i * ResultInterval(theme.drClass)
      && r.1[i].timestamp == now - STRETCH * i * ResultInterval(theme.drClass)
    ensures forall i :: 0 <= i < SAMPLES ==>
      && |r.0[i].percentage| == |theme.choices|
      && |r.1[i].percentage| == |theme.choices|
  {
    var interval := ResultInterval(theme.drClass);
    var cur := ThemeVotes(votes, theme.themeId);
    ( seq(SAMPLES, i requires 0 <= i < SAMPLES => Snapshot(ShortInstant(now, interval, i), theme, cur)),
      seq(SAMPLES, i requires 0 <= i < SAMPLES => Snapshot(LongInstant(now, interval, i), theme, cur)) )
  }

  /** Every sample is the aggregate of the theme's votes at the sample's own timestamp. */
  lemma SamplesAreAggregates(now: nat, theme: Theme, votes: seq<Vote>, i: nat)
    requires CanSample(now, theme, ThemeVotes(votes, theme.themeId))
    requires i < SAMPLES
    ensures AnswersFit(ThemeVotes(votes, theme.themeId), |theme.choices|, CalcTransition(now, theme, votes).0[i].timestamp)
    ensures AnswersFit(ThemeVotes(votes, theme.themeId), |theme.choices|, CalcTransition(now, theme, votes).1[i].timestamp)
    ensures CalcTransition(now, theme, votes).0[i].percentage
         == Aggregate(CalcTransition(now, theme, votes).0[i].timestamp, MeltingRate(theme.drClass),
                      |theme.choices|, ThemeVotes(votes, theme.themeId))
    ensures CalcTransition(now, theme, votes).1[i].percentage
         == Aggregate(CalcTransition(now, theme, votes).1[i].timestamp, MeltingRate(theme.drClass),
                      |theme.choices|, ThemeVotes(votes, theme.themeId))
  {
  }

  /** Both series start at `now` with the same snapshot. */
  lemma SeriesStartTogether(now: nat, theme: Theme, votes: seq<Vote>)
    requires CanSample(now, theme, ThemeVotes(votes, theme.themeId))
    ensures CalcTransition(now, theme, votes).0[0].timestamp == now
    ensures CalcTransition(now, theme, votes).0[0] == CalcTransition(now, theme, votes).1[0]
  {
  }

  /** Where the two cadences meet (long samples 1 and 2 are short samples 24 and 48)
      they carry the same snapshot. */
  lemma SeriesMeet(now: nat, theme: Theme, votes: seq<Vote>, j: nat)
    requires CanSample(now, theme, ThemeVotes(votes, theme.themeId))
    requires STRETCH * j < SAMPLES
    ensures CalcTransition(now, theme, votes).1[j] == CalcTransition(now, theme, votes).0[STRETCH * j]
  {
  }

  /** Both series run from the most recent sample to the oldest: timestamps strictly decrease. */
  lemma SeriesMostRecentFirst(now: nat, theme: Theme, votes: seq<Vote>, i: nat, j: nat)
    requires CanSample(now, theme, ThemeVotes(votes, theme.themeId))
    requires i < j < SAMPLES
    ensures CalcTransition(now, theme, votes).0[j].timestamp < CalcTransition(now, theme, votes).0[i].timestamp
    ensures CalcTransition(now, theme, votes).1[j].timestamp < CalcTransition(now, theme, votes).1[i].timestamp
  {
    var interval := ResultInterval(theme.drClass);
    MulLt(i, j, interval);
    MulLt(STRETCH * i, STRETCH * j, interval);
  }

  lemma MulLt(a: nat, b: nat, m: nat)
    requires a < b && m > 0
    ensures a * m < b * m
  {
  }

  /** Only the theme's own votes matter: inserting a vote of another theme anywhere
      leaves both series unchanged. */
  lemma OtherThemesIgnored(now: nat, theme: Theme, a: seq<Vote>, v: Vote, b: seq<Vote>)
    requires v.themeId != theme.themeId
    requires CanSample(now, theme, ThemeVotes(a + b, theme.themeId))
    ensures ThemeVotes(a + [v] + b, theme.themeId) == ThemeVotes(a + b, theme.themeId)
    ensures CalcTransition(now, theme, a + [v] + b) == CalcTransition(now, theme, a + b)
  {
    OtherThemeVoteFiltered(a, v, b, theme.themeId);
  }
}
