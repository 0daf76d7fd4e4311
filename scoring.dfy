/** The scoring done by the dashboard over the sector aggregates: the ranking
    score of the find page and its top-N selection, and the evaluation of a
    business idea (four subscores, an overall score and its label, the factors
    that pull the score down and the suggestions). The Streamlit page computes
    these inline; here they are functions of an aggregate and the user's
    capital. */
module Scoring {
  import opened Wrappers
  import opened Startup
  import Stats
  import Ranking

  // ------------------------------------------------------------ arithmetic

  function Min(a: real, b: real): real { if a <= b then a else b }

  function Max(a: real, b: real): real { if a >= b then a else b }

  /** `max(lo, min(hi, x))`: `x` clamped into [lo, hi]. */
  function Clamp(x: real, lo: real, hi: real): (r: real)
    requires lo <= hi
    ensures lo <= r <= hi
    ensures lo <= x <= hi ==> r == x
    ensures x < lo ==> r == lo
    ensures x > hi ==> r == hi
  {
    Max(lo, Min(hi, x))
  }

  // ------------------------------------------------------------ ranking score

  /** The growth part of the ranking score, `max(0, min(3, (g + 0.1) * 15))`. */
  function GrowthPoints(g: real): (p: real)
    ensures 0.0 <= p <= 3.0
  {
    Clamp((g + 0.1) * 15.0, 0.0, 3.0)
  }

  /** The share of active startups, `active / max(total, 1)`. */
  function ActiveRatio(a: SectorAggregate): real {
    a.activeStartups as real / (if a.totalStartups > 1 then a.totalStartups else 1) as real
  }

  /** The four parts of the ranking score, before clamping. */
  function RawOpportunity(a: SectorAggregate): real {
    (1.0 - a.saturationScore) * 3.0 + GrowthPoints(a.growthRate)
      + (1.0 - a.riskScore) * 2.0 + ActiveRatio(a) * 2.0
  }

  /** `calculate_opportunity_score`: the sum of the four parts, clamped into
      [0, 10]. */
  function OpportunityScore(a: SectorAggregate): (s: real)
    ensures 0.0 <= s <= 10.0
  {
    Clamp(RawOpportunity(a), 0.0, 10.0)
  }

  /** The growth part lies in [0, 3], is 1.5 for a flat sector, 0 once the
      sector shrinks by a tenth and 3 once it grows by a tenth. */
  lemma GrowthPointsFacts(g: real)
    ensures 0.0 <= GrowthPoints(g) <= 3.0
    ensures g == 0.0 ==> GrowthPoints(g) == 1.5
    ensures g <= -0.1 ==> GrowthPoints(g) == 0.0
    ensures g >= 0.1 ==> GrowthPoints(g) == 3.0
  {
    if g <= -0.1 {
      assert (g + 0.1) * 15.0 <= 0.0;
    }
    if g >= 0.1 {
      assert (g + 0.1) * 15.0 >= 3.0;
    }
  }

  /** Faster growth never earns fewer growth points. */
  lemma GrowthPointsMonotone(g1: real, g2: real)
    requires g1 <= g2
    ensures GrowthPoints(g1) <= GrowthPoints(g2)
  {
    assert (g1 + 0.1) * 15.0 <= (g2 + 0.1) * 15.0;
  }

  /** The active share of a sector whose active records are part of its
      records lies in [0, 1]. */
  lemma ActiveRatioInRange(a: SectorAggregate)
    requires 0 <= a.activeStartups <= a.totalStartups
    ensures 0.0 <= ActiveRatio(a) <= 1.0
  {
    var n := (if a.totalStartups > 1 then a.totalStartups else 1) as real;
    Stats.DivideBoundAbove(a.activeStartups as real, n, 1.0);
    Stats.DivideBound(a.activeStartups as real, n, 0.0);
  }

  /** For a valid aggregate whose active records are part of its records the
      four parts already add up to at most 10, so the clamp never changes the
      score. */
  lemma OpportunityUnclamped(a: SectorAggregate)
    requires ValidAggregate(a) && a.activeStartups <= a.totalStartups
    ensures OpportunityScore(a) == RawOpportunity(a)
  {
    ActiveRatioInRange(a);
    assert 0.0 <= (1.0 - a.saturationScore) * 3.0 <= 3.0;
    assert 0.0 <= (1.0 - a.riskScore) * 2.0 <= 2.0;
  }

  /** A worked case: saturation 0.3, growth 0.05, risk 0.2 and 70 of 100
      startups active give 2.1 + 2.25 + 1.6 + 1.4 = 7.35. */
  lemma OpportunityExample(a: SectorAggregate)
    requires a.saturationScore == 0.3 && a.growthRate == 0.05 && a.riskScore == 0.2
    requires a.activeStartups == 70 && a.totalStartups == 100
    ensures OpportunityScore(a) == 7.35
  {
    assert ActiveRatio(a) == 0.7;
    assert GrowthPoints(0.05) == 2.25;
  }

  /** A sector that is less saturated, grows faster, is less risky and has a
      larger active share never ranks lower. */
  lemma OpportunityMonotone(a: SectorAggregate, b: SectorAggregate)
    requires a.saturationScore >= b.saturationScore && a.riskScore >= b.riskScore
    requires a.growthRate <= b.growthRate && ActiveRatio(a) <= ActiveRatio(b)
    ensures OpportunityScore(a) <= OpportunityScore(b)
  {
    GrowthPointsMonotone(a.growthRate, b.growthRate);
    assert RawOpportunity(a) <= RawOpportunity(b);
  }

  /** `get_score_class`. */
  function ScoreClass(score: real): (c: string)
    ensures c == "score-high" || c == "score-medium" || c == "score-low"
  {
    if score >= 7.0 then "score-high"
    else if score >= 4.0 then "score-medium"
    else "score-low"
  }

  /** The position of a class on the low-medium-high scale. */
  function ClassRank(c: string): int {
    if c == "score-high" then 2 else if c == "score-medium" then 1 else 0
  }

  /** The class bands: [7, ...) is high, [4, 7) medium, below 4 low; a higher
      score never gets a lower class. */
  lemma ScoreClassBands(x: real, y: real)
    ensures ScoreClass(x) == "score-high" <==> x >= 7.0
    ensures ScoreClass(x) == "score-medium" <==> 4.0 <= x < 7.0
    ensures ScoreClass(x) == "score-low" <==> x < 4.0
    ensures x <= y ==> ClassRank(ScoreClass(x)) <= ClassRank(ScoreClass(y))
  {
  }

  // ------------------------------------------------------------ find page

  /** The number of recommendations: `max(min(5, n), min(2, n))`. */
  function ResultCount(n: nat): nat {
    var least: nat := if n < 2 then n else 2;
    var most: nat := if n < 5 then n else 5;
    if most >= least then most else least
  }

  /** The "at least two" bound never matters: the count is `min(5, n)`. */
  lemma ResultCountIsMinFive(n: nat)
    ensures ResultCount(n) == if n < 5 then n else 5
  {
  }

  /** The candidate sectors: all of them, or those of the chosen industry,
      each as often as the table holds it. */
  function Candidates(table: seq<SectorAggregate>, industry: Option<string>): (c: seq<SectorAggregate>)
    ensures forall a :: a in c <==> a in table && (industry.None? || a.sector == industry.value)
    ensures forall a ::
      multiset(c)[a] == if industry.None? || a.sector == industry.value then multiset(table)[a] else 0
  {
    match industry
    case None => table
    case Some(s) =>
      Ranking.WhereIsFilter(table, (a: SectorAggregate) => a.sector == s);
      Ranking.Where(table, (a: SectorAggregate) => a.sector == s)
  }

  /** The recommendations: `nlargest` of the candidates by ranking score. */
  function Recommend(table: seq<SectorAggregate>, industry: Option<string>): seq<SectorAggregate> {
    var c := Candidates(table, industry);
    Ranking.TopBy(c, OpportunityScore, ResultCount(|c|))
  }

  /** The recommendations are `min(5, n)` of the `n` candidates, each shown at
      most as often as it is a candidate, best score first, and no candidate
      left out scores higher than one shown. */
  lemma RecommendSpec(table: seq<SectorAggregate>, industry: Option<string>)
    ensures var c := Candidates(table, industry);
      var r := Recommend(table, industry);
      && |r| == (if |c| < 5 then |c| else 5)
      && multiset(r) <= multiset(c)
      && (forall i :: 0 <= i < |r| ==> r[i] in table && (industry.None? || r[i].sector == industry.value))
      && (forall i, j :: 0 <= i < j < |r| ==> OpportunityScore(r[i]) >= OpportunityScore(r[j]))
      && (forall x, j :: x in c && x !in r && 0 <= j < |r| ==> OpportunityScore(x) <= OpportunityScore(r[j]))
  {
    var c := Candidates(table, industry);
    ResultCountIsMinFive(|c|);
    Ranking.TopBySpec(c, OpportunityScore, ResultCount(|c|));
    Ranking.TopBySelects(c, OpportunityScore, ResultCount(|c|));
  }

  // ------------------------------------------------------------ evaluation

  /** The four subscores of an idea, each on a 0-10 scale. */
  datatype Breakdown = Breakdown(saturation: real, growth: real, capital: real, risk: real)

  /** `(1 - saturation) * 10`: a less saturated market scores higher. */
  function SaturationSub(saturation: real): real {
    (1.0 - saturation) * 10.0
  }

  /** `max(0, min(10, (g + 0.2) * 25))`. */
  function GrowthSub(g: real): (s: real)
    ensures 0.0 <= s <= 10.0
  {
    Clamp((g + 0.2) * 25.0, 0.0, 10.0)
  }

  /** The capital fit: neutral 5 when the sector's average funding is under
      1000 (no data), otherwise 10, 7, 4 or 2 as the capital reaches the
      average, half of it, a fifth of it, or less. */
  function CapitalSub(avg: real, capital: real): (s: real)
    ensures s == 2.0 || s == 4.0 || s == 5.0 || s == 7.0 || s == 10.0
  {
    if avg == 0.0 || avg < 1000.0 then 5.0
    else if capital >= avg then 10.0
    else if capital >= avg * 0.5 then 7.0
    else if capital >= avg * 0.2 then 4.0
    else 2.0
  }

  /** `(1 - risk) * 10`: a lower failure rate scores higher. */
  function RiskSub(risk: real): real {
    (1.0 - risk) * 10.0
  }

  /** The subscores of an idea in the sector `a` with `capital` to invest. */
  function Evaluate(a: SectorAggregate, capital: real): Breakdown {
    Breakdown(SaturationSub(a.saturationScore), GrowthSub(a.growthRate),
      CapitalSub(a.avgFundingPerStartup, capital), RiskSub(a.riskScore))
  }

  /** The weighted average, 30% saturation, 30% growth, 20% capital, 20% risk. */
  function Overall(b: Breakdown): real {
    b.saturation * 0.30 + b.growth * 0.30 + b.capital * 0.20 + b.risk * 0.20
  }

  /** The label shown under the overall score. */
  function Label(overall: real): string {
    if overall >= 7.0 then "Excellent Opportunity"
    else if overall >= 5.0 then "Good Opportunity"
    else "Challenging Opportunity"
  }

  /** Growth subscore: 0 once the sector shrinks by a fifth, 5 for a flat
      sector, 10 once it grows by a fifth, and never lower for faster growth. */
  lemma GrowthSubFacts(g: real, h: real)
    ensures g <= -0.2 ==> GrowthSub(g) == 0.0
    ensures g == 0.0 ==> GrowthSub(g) == 5.0
    ensures g >= 0.2 ==> GrowthSub(g) == 10.0
    ensures g <= h ==> GrowthSub(g) <= GrowthSub(h)
  {
    if g <= -0.2 {
      assert (g + 0.2) * 25.0 <= 0.0;
    }
    if g >= 0.2 {
      assert (g + 0.2) * 25.0 >= 10.0;
    }
    if g <= h {
      assert (g + 0.2) * 25.0 <= (h + 0.2) * 25.0;
    }
  }

  /** The capital thresholds are inclusive: with an average of 500,000 a
      capital of exactly 250,000 (half) gives 7, of exactly 100,000 (a fifth)
      gives 4, and of exactly 500,000 gives 10. */
  lemma CapitalSubBoundaries()
    ensures CapitalSub(500000.0, 250000.0) == 7.0
    ensures CapitalSub(500000.0, 100000.0) == 4.0
    ensures CapitalSub(500000.0, 500000.0) == 10.0
    ensures CapitalSub(500000.0, 99999.0) == 2.0
    ensures CapitalSub(999.0, 0.0) == 5.0 && CapitalSub(0.0, 1000000.0) == 5.0
  {
  }

  /** With data (an average of at least 1000) the capital fit is 10 from the
      average up, 7 from half of it, 4 from a fifth of it, and 2 below; every
      threshold is inclusive. */
  lemma CapitalSubBands(avg: real, c: real)
    requires avg >= 1000.0
    ensures CapitalSub(avg, c) == 10.0 <==> c >= avg
    ensures CapitalSub(avg, c) == 7.0 <==> avg * 0.5 <= c < avg
    ensures CapitalSub(avg, c) == 4.0 <==> avg * 0.2 <= c < avg * 0.5
    ensures CapitalSub(avg, c) == 2.0 <==> c < avg * 0.2
  {
  }

  /** Without data (average under 1000) the capital fit is neutral whatever the
      capital; otherwise more capital never lowers it. */
  lemma CapitalSubMonotone(avg: real, c1: real, c2: real)
    requires c1 <= c2
    ensures avg < 1000.0 ==> CapitalSub(avg, c1) == 5.0
    ensures avg >= 1000.0 ==> CapitalSub(avg, c1) <= CapitalSub(avg, c2)
  {
  }

  /** With saturation and risk in [0, 1] every subscore lies in [0, 10], and so
      does the overall score. */
  lemma OverallInRange(a: SectorAggregate, capital: real)
    requires 0.0 <= a.saturationScore <= 1.0 && 0.0 <= a.riskScore <= 1.0
    ensures var b := Evaluate(a, capital);
      && 0.0 <= b.saturation <= 10.0 && 0.0 <= b.growth <= 10.0
      && 0.0 <= b.capital <= 10.0 && 0.0 <= b.risk <= 10.0
      && 0.0 <= Overall(b) <= 10.0
  {
    var b := Evaluate(a, capital);
    WeightedInRange(b);
  }

  lemma WeightedInRange(b: Breakdown)
    requires 0.0 <= b.saturation <= 10.0 && 0.0 <= b.growth <= 10.0
    requires 0.0 <= b.capital <= 10.0 && 0.0 <= b.risk <= 10.0
    ensures 0.0 <= Overall(b) <= 10.0
  {
  }

  /** The label bands: [7, ...) excellent, [5, 7) good, below 5 challenging. */
  lemma LabelBands(overall: real)
    ensures Label(overall) == "Excellent Opportunity" <==> overall >= 7.0
    ensures Label(overall) == "Good Opportunity" <==> 5.0 <= overall < 7.0
    ensures Label(overall) == "Challenging Opportunity" <==> overall < 5.0
  {
  }

  // ------------------------------------------------------------ factors

  /** A reason the score is low; the message text shown for it is not modelled. */
  datatype Factor = HighCompetition | LimitedGrowth | CapitalGap | HigherRisk

  /** The order in which the page lists the factors. */
  function FactorRank(f: Factor): nat {
    match f
    case HighCompetition => 0
    case LimitedGrowth => 1
    case CapitalGap => 2
    case HigherRisk => 3
  }

  /** One factor per subscore below 5, in the order of the subscores. */
  function FactorsOf(b: Breakdown): seq<Factor> {
    (if b.saturation < 5.0 then [HighCompetition] else [])
      + ((if b.growth < 5.0 then [LimitedGrowth] else [])
      + ((if b.capital < 5.0 then [CapitalGap] else [])
      + (if b.risk < 5.0 then [HigherRisk] else [])))
  }

  /** The factor list of the evaluation page, built by conditional appends. */
  method Factors(b: Breakdown) returns (factors: seq<Factor>)
    ensures factors == FactorsOf(b)
  {
    factors := [];
    if b.saturation < 5.0 {
      factors := factors + [HighCompetition];
    }
    if b.growth < 5.0 {
      factors := factors + [LimitedGrowth];
    }
    if b.capital < 5.0 {
      factors := factors + [CapitalGap];
    }
    if b.risk < 5.0 {
      factors := factors + [HigherRisk];
    }
  }

  /** Each factor is listed exactly when its subscore is below 5; none is
      listed exactly when every subscore is at least 5. */
  lemma FactorsListed(b: Breakdown)
    ensures var f := FactorsOf(b);
      && (HighCompetition in f <==> b.saturation < 5.0)
      && (LimitedGrowth in f <==> b.growth < 5.0)
      && (CapitalGap in f <==> b.capital < 5.0)
      && (HigherRisk in f <==> b.risk < 5.0)
      && (f == [] <==> b.saturation >= 5.0 && b.growth >= 5.0 && b.capital >= 5.0 && b.risk >= 5.0)
  {
  }

  /** The factors come at most once each, in the order saturation, growth,
      capital, risk. */
  lemma FactorsOrdered(b: Breakdown)
    ensures var f := FactorsOf(b);
      forall i, j :: 0 <= i < j < |f| ==> FactorRank(f[i]) < FactorRank(f[j])
  {
  }

  // ------------------------------------------------------------ suggestions

  /** A suggestion of the evaluation page; the message text is not modelled. */
  datatype Suggestion =
    | LessSaturatedSectors(sectors: seq<string>)
    | RaiseCapital(target: real)
    | FasterGrowingSectors(sectors: seq<string>)
    | KeepCourse

  function SectorName(a: SectorAggregate): string { a.sector }

  /** The saturation of a sector, negated, so that the largest comes first
      when `nsmallest` is expressed as a selection of the best. */
  function LowSaturation(a: SectorAggregate): real { -a.saturationScore }

  function Growth(a: SectorAggregate): real { a.growthRate }

  /** `df[df.saturation_score < x]`. */
  function LessSaturatedRows(table: seq<SectorAggregate>, x: real): seq<SectorAggregate> {
    Ranking.Where(table, (a: SectorAggregate) => a.saturationScore < x)
  }

  /** `df[df.growth_rate > g]`. */
  function FasterGrowingRows(table: seq<SectorAggregate>, g: real): seq<SectorAggregate> {
    Ranking.Where(table, (a: SectorAggregate) => a.growthRate > g)
  }

  /** `df[df.saturation_score < x].nsmallest(2, "saturation_score")`. */
  function LessSaturated(table: seq<SectorAggregate>, x: real): seq<SectorAggregate> {
    Ranking.TopBy(LessSaturatedRows(table, x), LowSaturation, 2)
  }

  /** `df[df.growth_rate > g].nlargest(2, "growth_rate")`. */
  function FasterGrowing(table: seq<SectorAggregate>, g: real): seq<SectorAggregate> {
    Ranking.TopBy(FasterGrowingRows(table, g), Growth, 2)
  }

  /** The names of the sectors `r`, in order. */
  function Names(r: seq<SectorAggregate>): seq<string> {
    Stats.Each(SectorName, r)
  }

  /** The suggestion list given the alternatives found: `less` (the less
      saturated sectors) and `faster` (the faster-growing ones). */
  function Assemble(b: Breakdown, capital: real, avg: real, less: seq<string>, faster: seq<string>)
    : seq<Suggestion>
  {
    var s :=
      (if b.saturation < 6.0 && less != [] then [LessSaturatedSectors(less)] else [])
      + (if b.capital < 6.0 && capital < avg then [RaiseCapital(avg)] else [])
      + (if b.growth < 6.0 && faster != [] then [FasterGrowingSectors(faster)] else []);
    if s == [] then [KeepCourse] else s
  }

  /** The suggestions for an idea in sector `row` of `table`, with subscores
      `b` and `capital` to invest. */
  function SuggestionsOf(table: seq<SectorAggregate>, row: SectorAggregate, b: Breakdown, capital: real)
    : seq<Suggestion>
  {
    Assemble(b, capital, row.avgFundingPerStartup,
      Names(LessSaturated(table, row.saturationScore)), Names(FasterGrowing(table, row.growthRate)))
  }

  /** The suggestion list of the evaluation page. */
  method Suggestions(table: seq<SectorAggregate>, row: SectorAggregate, b: Breakdown, capital: real)
    returns (suggestions: seq<Suggestion>)
    ensures suggestions == SuggestionsOf(table, row, b, capital)
  {
    var less := Names(LessSaturated(table, row.saturationScore));
    var faster := Names(FasterGrowing(table, row.growthRate));
    suggestions := AddSuggestions(b, capital, row.avgFundingPerStartup, less, faster);
  }

  /** The conditional appends that build the suggestion list from the
      alternatives found. */
  method AddSuggestions(b: Breakdown, capital: real, avg: real, less: seq<string>, faster: seq<string>)
    returns (suggestions: seq<Suggestion>)
    ensures suggestions == Assemble(b, capital, avg, less, faster)
  {
    suggestions := [];
    if b.saturation < 6.0 && |less| > 0 {
      suggestions := suggestions + [LessSaturatedSectors(less)];
    }
    if b.capital < 6.0 && capital < avg {
      suggestions := suggestions + [RaiseCapital(avg)];
    }
    if b.growth < 6.0 && |faster| > 0 {
      suggestions := suggestions + [FasterGrowingSectors(faster)];
    }
    if |suggestions| == 0 {
      suggestions := suggestions + [KeepCourse];
    }
  }

  /** The fallback is given exactly when nothing else is, and then alone; the
      list names at most three suggestions, one of each kind, in the order
      saturation, capital, growth. */
  lemma SuggestionsSpec(b: Breakdown, capital: real, avg: real, less: seq<string>, faster: seq<string>)
    ensures var s := Assemble(b, capital, avg, less, faster);
      var wantLess := b.saturation < 6.0 && less != [];
      var wantCapital := b.capital < 6.0 && capital < avg;
      var wantFaster := b.growth < 6.0 && faster != [];
      && 1 <= |s| <= 3
      && (KeepCourse in s <==> s == [KeepCourse])
      && (s == [KeepCourse] <==> !wantLess && !wantCapital && !wantFaster)
      && (LessSaturatedSectors(less) in s <==> wantLess)
      && (RaiseCapital(avg) in s <==> wantCapital)
      && (FasterGrowingSectors(faster) in s <==> wantFaster)
      && (wantLess ==> s[0] == LessSaturatedSectors(less))
      && (wantFaster ==> s[|s| - 1] == FasterGrowingSectors(faster))
  {
  }

  /** The less saturated alternatives: of the `n` rows of the table that are
      strictly less saturated than `x` (each row as often as the table holds
      it), `min(2, n)` are named, least saturated first, and no row left out
      is less saturated than one named. */
  lemma LessSaturatedSpec(table: seq<SectorAggregate>, x: real)
    ensures var c := LessSaturatedRows(table, x);
      forall a :: multiset(c)[a] == if a.saturationScore < x then multiset(table)[a] else 0
    ensures var c := LessSaturatedRows(table, x);
      var r := LessSaturated(table, x);
      && |r| == (if |c| < 2 then |c| else 2)
      && multiset(r) <= multiset(c)
      && (forall i :: 0 <= i < |r| ==> r[i] in table && r[i].saturationScore < x)
      && (forall i, j :: 0 <= i < j < |r| ==> r[i].saturationScore <= r[j].saturationScore)
      && (forall a, j :: a in table && a.saturationScore < x && a !in r && 0 <= j < |r| ==>
            r[j].saturationScore <= a.saturationScore)
  {
    LessSaturatedOrder(table, x);
    Ranking.WhereIsFilter(table, (a: SectorAggregate) => a.saturationScore < x);
    Ranking.TopBySelects(LessSaturatedRows(table, x), LowSaturation, 2);
  }

  /** Membership, order and dominance of the less saturated alternatives. */
  lemma LessSaturatedOrder(table: seq<SectorAggregate>, x: real)
    ensures var r := LessSaturated(table, x);
      && (forall i :: 0 <= i < |r| ==> r[i] in table && r[i].saturationScore < x)
      && (forall i, j :: 0 <= i < j < |r| ==> r[i].saturationScore <= r[j].saturationScore)
      && (forall a, j :: a in table && a.saturationScore < x && a !in r && 0 <= j < |r| ==>
            r[j].saturationScore <= a.saturationScore)
  {
    var c := LessSaturatedRows(table, x);
    var r := LessSaturated(table, x);
    Ranking.TopBySpec(c, LowSaturation, 2);
    forall i, j | 0 <= i < j < |r| ensures r[i].saturationScore <= r[j].saturationScore {
      assert LowSaturation(r[i]) >= LowSaturation(r[j]);
    }
    forall a, j | a in table && a.saturationScore < x && a !in r && 0 <= j < |r|
      ensures r[j].saturationScore <= a.saturationScore
    {
      assert a in c;
      assert LowSaturation(a) <= LowSaturation(r[j]);
    }
  }

  /** The faster-growing alternatives: of the `n` rows of the table that grow
      strictly faster than `g` (each row as often as the table holds it),
      `min(2, n)` are named, fastest first, and no row left out grows faster
      than one named. */
  lemma FasterGrowingSpec(table: seq<SectorAggregate>, g: real)
    ensures var c := FasterGrowingRows(table, g);
      forall a :: multiset(c)[a] == if a.growthRate > g then multiset(table)[a] else 0
    ensures var c := FasterGrowingRows(table, g);
      var r := FasterGrowing(table, g);
      && |r| == (if |c| < 2 then |c| else 2)
      && multiset(r) <= multiset(c)
      && (forall i :: 0 <= i < |r| ==> r[i] in table && r[i].growthRate > g)
      && (forall i, j :: 0 <= i < j < |r| ==> r[i].growthRate >= r[j].growthRate)
      && (forall a, j :: a in table && a.growthRate > g && a !in r && 0 <= j < |r| ==>
            a.growthRate <= r[j].growthRate)
  {
    FasterGrowingOrder(table, g);
    Ranking.WhereIsFilter(table, (a: SectorAggregate) => a.growthRate > g);
    Ranking.TopBySelects(FasterGrowingRows(table, g), Growth, 2);
  }

  /** Membership, order and dominance of the faster-growing alternatives. */
  lemma FasterGrowingOrder(table: seq<SectorAggregate>, g: real)
    ensures var r := FasterGrowing(table, g);
      && (forall i :: 0 <= i < |r| ==> r[i] in table && r[i].growthRate > g)
      && (forall i, j :: 0 <= i < j < |r| ==> r[i].growthRate >= r[j].growthRate)
      && (forall a, j :: a in table && a.growthRate > g && a !in r && 0 <= j < |r| ==>
            a.growthRate <= r[j].growthRate)
  {
    var c := FasterGrowingRows(table, g);
    var r := FasterGrowing(table, g);
    Ranking.TopBySpec(c, Growth, 2);
    forall i, j | 0 <= i < j < |r| ensures r[i].growthRate >= r[j].growthRate {
      assert Growth(r[i]) >= Growth(r[j]);
    }
    forall a, j | a in table && a.growthRate > g && a !in r && 0 <= j < |r|
      ensures a.growthRate <= r[j].growthRate
    {
      assert a in c;
      assert Growth(a) <= Growth(r[j]);
    }
  }

  // ------------------------------------------------------------ the page

  /** `df[df.sector == industry].iloc[0]`: the first aggregate of the chosen
      sector, if there is one. */
  function SectorRow(table: seq<SectorAggregate>, industry: string): (r: Option<SectorAggregate>)
    ensures r.None? <==> forall i :: 0 <= i < |table| ==> table[i].sector != industry
    ensures r.Some? ==> r.value in table && r.value.sector == industry
    ensures r.Some? ==>
      exists i :: 0 <= i < |table| && table[i] == r.value && forall j :: 0 <= j < i ==> table[j].sector != industry
  {
    if table == [] then None
    else if table[0].sector == industry then Some(table[0])
    else SectorRow(table[1..], industry)
  }

  /** What the evaluation page shows for one idea. */
  datatype Report = Report(
    breakdown: Breakdown,
    overall: real,
    scoreClass: string,
    verdict: string,
    factors: seq<Factor>,
    suggestions: seq<Suggestion>)

  /** The evaluation page for an idea in `industry` with `capital` to invest;
      none when the table has no aggregate of that sector. */
  method EvaluateIdea(table: seq<SectorAggregate>, industry: string, capital: real)
    returns (report: Option<Report>)
    ensures report.None? <==> SectorRow(table, industry).None?
    ensures report.Some? ==>
      var row := SectorRow(table, industry).value;
      var b := Evaluate(row, capital);
      report.value == Report(b, Overall(b), ScoreClass(Overall(b)), Label(Overall(b)),
        FactorsOf(b), SuggestionsOf(table, row, b, capital))
  {
    var found := SectorRow(table, industry);
    if found.None? {
      return None;
    }
    var row := found.value;
    var b := Evaluate(row, capital);
    var overall := Overall(b);
    var factors := Factors(b);
    var suggestions := Suggestions(table, row, b, capital);
    report := Some(Report(b, overall, ScoreClass(overall), Label(overall), factors, suggestions));
  }
}
