/** `computer`: one response per theme, built from its transition series. */
module Pipeline {
  import opened Types
  import opened DecayModel
  import opened Aggregator
  import opened Transitions

  /** `now as u64` for a finite float: toward zero, saturating at both ends of the u64 range. */
  function TruncateNow(x: real): (t: nat)
    ensures x <= 0.0 ==> t == 0
    ensures 0.0 <= x < U64_LIMIT as real ==> t as real <= x < t as real + 1.0
    ensures x >= U64_LIMIT as real ==> t == U64_LIMIT - 1
  {
    if x <= 0.0 then 0
    else if x >= U64_LIMIT as real then U64_LIMIT - 1
    else x.Floor
  }

  /** What `computer` needs of its request at the truncated instant `now`:
      every theme can be sampled. */
  predicate CanCompute(request: Request, now: nat)
    ensures request.themes == [] ==> CanCompute(request, now)
    ensures CanCompute(request, now) ==> forall j :: 0 <= j < |request.themes| ==>
      AnswersFit(ThemeVotes(request.votes, request.themes[j].themeId), |request.themes[j].choices|, now)
  {
    forall j :: 0 <= j < |request.themes| ==>
      CanSample(now, request.themes[j], ThemeVotes(request.votes, request.themes[j].themeId))
  }

  /** The response for one theme. */
  function ThemeResponse(now: nat, theme: Theme, votes: seq<Vote>): (r: Response)
    requires CanSample(now, theme, ThemeVotes(votes, theme.themeId))
    ensures r.themeId == theme.themeId
    ensures (r.shortTransition, r.longTransition) == CalcTransition(now, theme, votes)
    ensures r.percentage == r.shortTransition[0].percentage
  {
    var (short, long) := CalcTransition(now, theme, votes);
    Response(theme.themeId, short[0].percentage, short, long)
  }

  /** `computer(request, now)` on the decoded request, before encoding. */
  function Computer(request: Request, now: real): (r: seq<Response>)
    requires CanCompute(request, TruncateNow(now))
    ensures |r| == |request.themes|
    ensures forall j :: 0 <= j < |r| ==>
      && r[j].themeId == request.themes[j].themeId
      && (r[j].shortTransition, r[j].longTransition)
           == CalcTransition(TruncateNow(now), request.themes[j], request.votes)
      && r[j].percentage == r[j].shortTransition[0].percentage
  {
    var t := TruncateNow(now);
    seq(|request.themes|, j requires 0 <= j < |request.themes| =>
      ThemeResponse(t, request.themes[j], request.votes))
  }

  /** Each response's `percentage` is the aggregate of its theme's votes at the
      truncated instant, which is also the first sample of both series, with one
      entry per choice. */
  lemma CurrentPercentage(request: Request, now: real, j: nat)
    requires CanCompute(request, TruncateNow(now))
    requires j < |request.themes|
    ensures AnswersFit(ThemeVotes(request.votes, request.themes[j].themeId),
                       |request.themes[j].choices|, TruncateNow(now))
    ensures Computer(request, now)[j].percentage
         == Aggregate(TruncateNow(now), MeltingRate(request.themes[j].drClass),
                      |request.themes[j].choices|, ThemeVotes(request.votes, request.themes[j].themeId))
    ensures Computer(request, now)[j].percentage == Computer(request, now)[j].longTransition[0].percentage
    ensures |Computer(request, now)[j].percentage| == |request.themes[j].choices|
    ensures |Computer(request, now)[j].shortTransition| == SAMPLES
    ensures |Computer(request, now)[j].longTransition| == SAMPLES
  {
    var theme := request.themes[j];
    SamplesAreAggregates(TruncateNow(now), theme, request.votes, 0);
    SeriesStartTogether(TruncateNow(now), theme, request.votes);
  }

  /** Themes are processed independently and in input order: splitting the theme
      list splits the response list the same way. */
  lemma ThemesIndependent(themes1: seq<Theme>, themes2: seq<Theme>, votes: seq<Vote>, now: real)
    requires CanCompute(Request(themes1 + themes2, votes), TruncateNow(now))
    ensures CanCompute(Request(themes1, votes), TruncateNow(now))
    ensures CanCompute(Request(themes2, votes), TruncateNow(now))
    ensures Computer(Request(themes1 + themes2, votes), now)
         == Computer(Request(themes1, votes), now) + Computer(Request(themes2, votes), now)
  {
    var t := TruncateNow(now);
    forall j | 0 <= j < |themes2|
      ensures CanSample(t, themes2[j], ThemeVotes(votes, themes2[j].themeId))
    {
      assert (themes1 + themes2)[|themes1| + j] == themes2[j];
    }
    forall j | 0 <= j < |themes1|
      ensures CanSample(t, themes1[j], ThemeVotes(votes, themes1[j].themeId))
    {
      assert (themes1 + themes2)[j] == themes1[j];
    }
  }
}
