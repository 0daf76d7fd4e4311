/** The aggregation stage: the clean records are grouped by sector and each
    group is summarised into a `SectorAggregate`; an aggregate that breaks the
    field constraints is dropped, alone. */
module Aggregate {
  import opened Wrappers
  import opened Startup
  import Stats
  import Ranking
  import Clean

  // ------------------------------------------------------------ groups

  function SectorsOf(rows: seq<StartupClean>): (s: seq<string>)
    ensures |s| == |rows|
    ensures forall i :: 0 <= i < |rows| ==> s[i] == rows[i].sector
  {
    seq(|rows|, i requires 0 <= i < |rows| => rows[i].sector)
  }

  /** The group keys, in order of first appearance. */
  function Sectors(rows: seq<StartupClean>): seq<string> {
    Stats.Distinct(SectorsOf(rows))
  }

  /** The records of sector `s`, in table order. */
  function Group(rows: seq<StartupClean>, s: string): (g: seq<StartupClean>)
    ensures forall i :: 0 <= i < |g| ==> g[i].sector == s && g[i] in rows
  {
    if rows == [] then []
    else
      var init := rows[..|rows| - 1];
      var x := rows[|rows| - 1];
      assert rows == init + [x];
      Group(init, s) + (if x.sector == s then [x] else [])
  }

  /** `groupby` keeps every record of the sector exactly as often as the table
      holds it, and no other record. */
  lemma {:induction false} GroupIsFilter(rows: seq<StartupClean>, s: string)
    ensures forall r :: multiset(Group(rows, s))[r] == if r.sector == s then multiset(rows)[r] else 0
  {
    if rows != [] {
      var init := rows[..|rows| - 1];
      assert rows == init + [rows[|rows| - 1]];
      GroupIsFilter(init, s);
    }
  }

  /** A group holds as many records as the table has records of its sector. */
  lemma {:induction false} GroupSize(rows: seq<StartupClean>, s: string)
    ensures |Group(rows, s)| == Stats.Count(SectorsOf(rows), s)
  {
    if rows != [] {
      var init := rows[..|rows| - 1];
      GroupSize(init, s);
      assert SectorsOf(rows)[..|rows| - 1] == SectorsOf(init);
    }
  }

  /** The largest group size among the sectors `keys`. */
  function MaxGroupSize(rows: seq<StartupClean>, keys: seq<string>): (m: nat)
    ensures forall i :: 0 <= i < |keys| ==> |Group(rows, keys[i])| <= m
    ensures keys != [] ==> exists i :: 0 <= i < |keys| && m == |Group(rows, keys[i])|
  {
    if keys == [] then 0
    else
      var rest := MaxGroupSize(rows, keys[1..]);
      assert forall i :: 1 <= i < |keys| ==> keys[i] == keys[1..][i - 1];
      if |Group(rows, keys[0])| >= rest then |Group(rows, keys[0])| else rest
  }

  /** `df.groupby("sector").size().max()`: no group is larger, and some group
      of a non-empty table is that large. */
  function LargestGroup(rows: seq<StartupClean>): nat {
    MaxGroupSize(rows, Sectors(rows))
  }

  lemma LargestGroupBounds(rows: seq<StartupClean>, s: string)
    ensures |Group(rows, s)| <= LargestGroup(rows)
    ensures rows != [] ==> LargestGroup(rows) > 0
  {
    GroupSize(rows, s);
    if s in SectorsOf(rows) {
      var k :| 0 <= k < |Sectors(rows)| && Sectors(rows)[k] == s;
    }
    if rows != [] {
      assert SectorsOf(rows)[0] in Sectors(rows);
      var k :| 0 <= k < |Sectors(rows)| && Sectors(rows)[k] == rows[0].sector;
      GroupSize(rows, rows[0].sector);
    }
  }

  // ------------------------------------------------------------ columns of a group

  function Fundings(g: seq<StartupClean>): (f: seq<real>)
    ensures |f| == |g| && forall i :: 0 <= i < |g| ==> f[i] == g[i].totalFunding
  {
    seq(|g|, i requires 0 <= i < |g| => g[i].totalFunding)
  }

  function Rounds(g: seq<StartupClean>): (f: seq<real>)
    ensures |f| == |g| && forall i :: 0 <= i < |g| ==> f[i] == g[i].fundingRounds as real
  {
    seq(|g|, i requires 0 <= i < |g| => g[i].fundingRounds as real)
  }

  function Statuses(g: seq<StartupClean>): (f: seq<string>)
    ensures |f| == |g| && forall i :: 0 <= i < |g| ==> f[i] == g[i].status
  {
    seq(|g|, i requires 0 <= i < |g| => g[i].status)
  }

  function Years(g: seq<StartupClean>): (f: seq<Option<int>>)
    ensures |f| == |g| && forall i :: 0 <= i < |g| ==> f[i] == g[i].foundedYear
  {
    seq(|g|, i requires 0 <= i < |g| => g[i].foundedYear)
  }

  function TimesToFirstFunding(g: seq<StartupClean>): (f: seq<Option<int>>)
    ensures |f| == |g| && forall i :: 0 <= i < |g| ==> f[i] == g[i].timeToFirstFundingDays
  {
    seq(|g|, i requires 0 <= i < |g| => g[i].timeToFirstFundingDays)
  }

  function Employees(g: seq<StartupClean>): (f: seq<Option<int>>)
    ensures |f| == |g| && forall i :: 0 <= i < |g| ==> f[i] == g[i].employeeCount
  {
    seq(|g|, i requires 0 <= i < |g| => g[i].employeeCount)
  }

  function Countries(g: seq<StartupClean>): (f: seq<Option<string>>)
    ensures |f| == |g| && forall i :: 0 <= i < |g| ==> f[i] == g[i].country
  {
    seq(|g|, i requires 0 <= i < |g| => g[i].country)
  }

  function CapitalRanges(g: seq<StartupClean>): (f: seq<string>)
    ensures |f| == |g| && forall i :: 0 <= i < |g| ==> f[i] == g[i].capitalRange
  {
    seq(|g|, i requires 0 <= i < |g| => g[i].capitalRange)
  }

  // ------------------------------------------------------------ metrics

  /** Records of the group with the given status. */
  function StatusCount(g: seq<StartupClean>, status: string): nat {
    Stats.Count(Statuses(g), status)
  }

  /** The earliest and latest founded year among the records that have one. */
  function YearMin(g: seq<StartupClean>): Option<int> {
    var ys := Stats.Present(Years(g));
    if |ys| > 0 then Some(Stats.MinOf(ys)) else None
  }

  function YearMax(g: seq<StartupClean>): Option<int> {
    var ys := Stats.Present(Years(g));
    if |ys| > 0 then Some(Stats.MaxOf(ys)) else None
  }

  /** Records of the group founded in year `y` (0 for a year nobody founded in). */
  function YearCount(g: seq<StartupClean>, y: int): nat {
    Stats.Count(Years(g), Some(y))
  }

  /** The growth heuristic: over the last (at most) three calendar years of the
      founded-year span, the relative change of the number of records founded
      from the first of those years to the last. Zero when the span is a
      single year, when a bound is missing or 0 (falsy), and when no record
      was founded in the first of those years. */
  function GrowthRate(g: seq<StartupClean>): real {
    GrowthOver(g, YearMin(g), YearMax(g))
  }

  /** The growth heuristic of `g` for the founded-year bounds `lo` and `hi`. */
  function GrowthOver(g: seq<StartupClean>, lo: Option<int>, hi: Option<int>): real {
    if lo.Some? && lo.value != 0 && hi.Some? && hi.value != 0 && hi.value > lo.value then
      var first := if hi.value - 2 > lo.value then hi.value - 2 else lo.value;
      Change(YearCount(g, first), YearCount(g, hi.value))
    else 0.0
  }

  /** The relative change from `c0` to `c1`, or 0 when `c0` is 0. */
  function Change(c0: nat, c1: nat): real {
    if c0 > 0 then (c1 as int - c0) as real / c0 as real else 0.0
  }

  /** A relative change towards a positive count is above -1. */
  lemma ChangeAboveMinusOne(c0: nat, c1: nat)
    requires c1 > 0
    ensures Change(c0, c1) > -1.0
  {
    if c0 > 0 {
      Stats.RatioAboveMinusOne((c1 as int - c0) as real, c0 as real);
    }
  }

  /** `min(1, size / largest)`, or 0 when the largest group is empty. The
      quotient reaches 1 exactly when `size >= largest`, which is the test
      written here. */
  function Saturation(size: nat, largest: nat): real {
    if largest > 0 then
      if size >= largest then 1.0 else size as real / largest as real
    else 0.0
  }

  /** The failure rate `closed / total`, or 0 for an empty group. */
  function Risk(closed: nat, total: nat): real {
    if total > 0 then closed as real / total as real else 0.0
  }

  /** `value_counts().head(5)` of the present countries: the (at most) five most
      frequent countries, most frequent first, a tie going to the country met
      first. */
  function TopCountries(g: seq<StartupClean>): seq<string> {
    var cs := Stats.Present(Countries(g));
    Ranking.TopBy(Stats.Distinct(cs), Frequency(cs), 5)
  }

  /** How often each country occurs in `cs`, as a score. */
  function Frequency(cs: seq<string>): string -> real {
    c => Stats.Count(cs, c) as real
  }

  /** `value_counts().to_dict()` of the capital ranges. */
  function CapitalDistribution(g: seq<StartupClean>): map<string, int> {
    Stats.Histogram(CapitalRanges(g))
  }

  /** The aggregate of sector `s` whose records are `g`, with `largest` the
      size of the largest group of the whole table. */
  function Summarise(s: string, g: seq<StartupClean>, largest: nat): (a: SectorAggregate)
    ensures a.sector == s
  {
    var total := |g|;
    var closed := StatusCount(g, "closed");
    SectorAggregate(
      s,
      total,
      StatusCount(g, "active"),
      closed,
      Stats.Sum(Fundings(g)),
      if total > 0 then Stats.Mean(Fundings(g)) else 0.0,
      if total > 0 then Stats.Median(Fundings(g)) else 0.0,
      if total > 0 then Stats.Mean(Rounds(g)) else 0.0,
      Stats.MeanOfPresent(TimesToFirstFunding(g)),
      if total > 0 then Stats.MeanOfPresent(Employees(g)) else None,
      YearMin(g),
      YearMax(g),
      GrowthRate(g),
      Saturation(total, largest),
      Risk(closed, total),
      TopCountries(g),
      CapitalDistribution(g))
  }

  /** The aggregate of sector `s` of the table `rows`: the group of `s`,
      normalised by the largest group of the table. */
  function AggregateOf(rows: seq<StartupClean>, s: string): (a: SectorAggregate)
    ensures a.sector == s
  {
    Summarise(s, Group(rows, s), LargestGroup(rows))
  }

  /** The aggregate of each sector of the table `rows`, as a function. */
  function SummaryOf(rows: seq<StartupClean>): string -> SectorAggregate {
    s => AggregateOf(rows, s)
  }

  /** The aggregates of the sectors `keys`, in order. */
  function AllAggregates(rows: seq<StartupClean>, keys: seq<string>): (aggs: seq<SectorAggregate>)
    ensures |aggs| == |keys|
  {
    Stats.Each(SummaryOf(rows), keys)
  }

  /** The aggregates that pass validation, in order. */
  function Keep(aggs: seq<SectorAggregate>): seq<SectorAggregate> {
    if aggs == [] then []
    else
      var rest := Keep(aggs[..|aggs| - 1]);
      var a := aggs[|aggs| - 1];
      if ValidAggregate(a) then rest + [a] else rest
  }

  // ------------------------------------------------------------ the stage

  /** `list(range(lo, hi))` */
  function Range(lo: int, hi: int): (r: seq<int>)
    requires lo <= hi
    ensures |r| == hi - lo && forall i :: 0 <= i < |r| ==> r[i] == lo + i
  {
    seq(hi - lo, i requires 0 <= i < hi - lo => lo + i)
  }

  /** When the founded years span more than one year, at least two distinct
      years are observed: the two ends. */
  lemma YearsOfSpan(g: seq<StartupClean>)
    requires YearMin(g).Some? && YearMax(g).Some? && YearMax(g).value > YearMin(g).value
    ensures |Stats.Distinct(Stats.Present(Years(g)))| >= 2
  {
    var ys := Stats.Present(Years(g));
    Stats.DistinctTwo(ys, YearMin(g).value, YearMax(g).value);
  }

  /** The growth-rate block of `aggregate_by_sector`. */
  method GrowthOf(g: seq<StartupClean>) returns (growth: real)
    ensures growth == GrowthRate(g)
  {
    var lo := YearMin(g);
    var hi := YearMax(g);
    var observed := |Stats.Distinct(Stats.Present(Years(g)))|;
    if lo.Some? && hi.Some? && hi.value > lo.value {
      YearsOfSpan(g);
    }
    growth := GrowthBetween(g, lo, hi, observed);
  }

  /** The growth-rate block for the founded-year bounds `lo` and `hi`, with
      `observed` the number of distinct founded years, branch by branch. The
      two inner length tests always pass once the span has two ends. */
  method GrowthBetween(g: seq<StartupClean>, lo: Option<int>, hi: Option<int>, observed: nat)
    returns (growth: real)
    requires lo.Some? && hi.Some? && hi.value > lo.value ==> observed >= 2
    ensures growth == GrowthOver(g, lo, hi)
  {
    if lo.Some? && lo.value != 0 && hi.Some? && hi.value != 0 && hi.value > lo.value {
      var years := Range(lo.value, hi.value + 1);
      if |years| >= 2 {
        if observed >= 2 {
          growth := RecentGrowth(g, years);
        } else {
          assert false;
        }
      } else {
        assert false;
      }
    } else {
      growth := 0.0;
    }
  }

  /** The innermost step of the growth-rate block: the relative change over
      the last (at most) three years of the span `years`. */
  method RecentGrowth(g: seq<StartupClean>, years: seq<int>) returns (growth: real)
    requires |years| >= 2 && forall i :: 0 <= i < |years| ==> years[i] == years[0] + i
    requires years[0] != 0 && years[|years| - 1] != 0
    ensures growth == GrowthOver(g, Some(years[0]), Some(years[|years| - 1]))
  {
    // `years` is already in order, so `sorted(years)[-3:]` is its tail
    var recent := if |years| >= 3 then years[|years| - 3..] else years;
    var counts := seq(|recent|, i requires 0 <= i < |recent| => YearCount(g, recent[i]));
    assert counts[0] == YearCount(g, recent[0]);
    assert counts[|counts| - 1] == YearCount(g, years[|years| - 1]);
    if counts[0] > 0 {
      growth := (counts[|counts| - 1] as int - counts[0]) as real / counts[0] as real;
    } else {
      growth := 0.0;
    }
  }

  /** `aggregate_by_sector`: one aggregate per group, kept when it validates. */
  method AggregateBySector(rows: seq<StartupClean>) returns (aggregated: seq<SectorAggregate>)
    ensures aggregated == Keep(AllAggregates(rows, Sectors(rows)))
  {
    var sectors := Sectors(rows);
    aggregated := [];
    ghost var all := [];
    var k := 0;
    while k < |sectors|
      invariant 0 <= k <= |sectors|
      invariant all == AllAggregates(rows, sectors[..k])
      invariant aggregated == Keep(all)
    {
      var a := SummariseGroup(rows, sectors[k]);
      KeepSnoc(all, a);
      Stats.EachSnoc(SummaryOf(rows), sectors, k);
      all := all + [a];
      if ValidAggregate(a) {
        aggregated := aggregated + [a];
      }
      k := k + 1;
    }
    assert sectors[..k] == sectors;
  }

  /** Validation of one more aggregate extends the output by it when it passes. */
  lemma KeepSnoc(aggs: seq<SectorAggregate>, a: SectorAggregate)
    ensures Keep(aggs + [a]) == Keep(aggs) + if ValidAggregate(a) then [a] else []
  {
    assert (aggs + [a])[..|aggs|] == aggs;
  }

  /** The body of the loop of `aggregate_by_sector` for one group, up to
      validation. */
  method SummariseGroup(rows: seq<StartupClean>, sector: string) returns (a: SectorAggregate)
    ensures a == AggregateOf(rows, sector)
  {
    var g := Group(rows, sector);
    var totalStartups := |g|;
    var activeStartups := StatusCount(g, "active");
    var closedStartups := StatusCount(g, "closed");
    var totalFunding := Stats.Sum(Fundings(g));
    var avgFunding := if totalStartups > 0 then Stats.Mean(Fundings(g)) else 0.0;
    var medianFunding := if totalStartups > 0 then Stats.Median(Fundings(g)) else 0.0;
    var avgRounds := if totalStartups > 0 then Stats.Mean(Rounds(g)) else 0.0;
    var avgTimeToFirst := Stats.MeanOfPresent(TimesToFirstFunding(g));
    var avgEmployees := if totalStartups > 0 then Stats.MeanOfPresent(Employees(g)) else None;
    var growthRate := GrowthOf(g);
    var largest := LargestGroup(rows);
    var saturationScore := Saturation(totalStartups, largest);
    var riskScore := Risk(closedStartups, totalStartups);
    a := SectorAggregate(sector, totalStartups, activeStartups, closedStartups, totalFunding,
      avgFunding, medianFunding, avgRounds, avgTimeToFirst, avgEmployees, YearMin(g), YearMax(g),
      growthRate, saturationScore, riskScore, TopCountries(g), CapitalDistribution(g));
  }

  // ------------------------------------------------------------ properties

  function AggregateSectors(aggs: seq<SectorAggregate>): (s: seq<string>)
    ensures |s| == |aggs| && forall i :: 0 <= i < |aggs| ==> s[i] == aggs[i].sector
  {
    seq(|aggs|, i requires 0 <= i < |aggs| => aggs[i].sector)
  }

  /** What validation keeps: exactly the valid aggregates, in their order;
      an invalid one takes no other with it. */
  lemma {:induction false} KeepSpec(aggs: seq<SectorAggregate>)
    ensures forall i :: 0 <= i < |Keep(aggs)| ==> ValidAggregate(Keep(aggs)[i]) && Keep(aggs)[i] in aggs
    ensures forall i :: 0 <= i < |aggs| && ValidAggregate(aggs[i]) ==> aggs[i] in Keep(aggs)
  {
    if aggs != [] {
      var init := aggs[..|aggs| - 1];
      KeepSpec(init);
      assert aggs == init + [aggs[|aggs| - 1]];
    }
  }

  /** Keeping the valid aggregates keeps their sectors distinct. */
  lemma {:induction false} KeepDistinct(aggs: seq<SectorAggregate>)
    requires Stats.NoDup(AggregateSectors(aggs))
    ensures Stats.NoDup(AggregateSectors(Keep(aggs)))
  {
    if aggs != [] {
      var init := aggs[..|aggs| - 1];
      var last := aggs[|aggs| - 1];
      assert Stats.NoDup(AggregateSectors(init)) by {
        forall i, j | 0 <= i < j < |init| ensures init[i].sector != init[j].sector {
          assert init[i] == aggs[i] && init[j] == aggs[j];
        }
      }
      KeepDistinct(init);
      KeepSpec(init);
      var rest := Keep(init);
      if ValidAggregate(last) {
        forall i | 0 <= i < |rest| ensures rest[i].sector != last.sector {
          var k :| 0 <= k < |init| && init[k] == rest[i];
          assert init[k] == aggs[k];
        }
        assert AggregateSectors(rest + [last]) == AggregateSectors(rest) + [last.sector];
      }
    }
  }

  /** Nothing is dropped when every aggregate validates. */
  lemma {:induction false} KeepAllValid(aggs: seq<SectorAggregate>)
    requires forall i :: 0 <= i < |aggs| ==> ValidAggregate(aggs[i])
    ensures Keep(aggs) == aggs
  {
    if aggs != [] {
      var init := aggs[..|aggs| - 1];
      KeepAllValid(init);
      assert aggs == init + [aggs[|aggs| - 1]];
    }
  }

  /** A sector is in the output of validation exactly when an aggregate of
      that sector passed it. */
  lemma {:induction false} KeptSectors(aggs: seq<SectorAggregate>, x: string)
    ensures x in AggregateSectors(Keep(aggs)) <==>
      exists k :: 0 <= k < |aggs| && aggs[k].sector == x && ValidAggregate(aggs[k])
  {
    if aggs != [] {
      var init := aggs[..|aggs| - 1];
      var last := aggs[|aggs| - 1];
      KeptSectors(init, x);
      var rest := Keep(init);
      if ValidAggregate(last) {
        assert AggregateSectors(rest + [last]) == AggregateSectors(rest) + [last.sector];
      }
      if exists k :: 0 <= k < |init| && init[k].sector == x && ValidAggregate(init[k]) {
        var k :| 0 <= k < |init| && init[k].sector == x && ValidAggregate(init[k]);
        assert aggs[k] == init[k];
      }
      if exists k :: 0 <= k < |aggs| && aggs[k].sector == x && ValidAggregate(aggs[k]) {
        var k :| 0 <= k < |aggs| && aggs[k].sector == x && ValidAggregate(aggs[k]);
        if k < |init| {
          assert init[k] == aggs[k];
        }
      }
    }
  }

  /** Validation of the aggregates `summary(k)` of distinct sectors `keys`
      keeps at most one aggregate per sector, each the summary of its sector,
      and drops a sector exactly when its summary fails validation. */
  lemma KeepOfSummaries(keys: seq<string>, summary: string -> SectorAggregate, all: seq<SectorAggregate>, s: string)
    requires Stats.NoDup(keys)
    requires |all| == |keys| && forall i :: 0 <= i < |keys| ==> all[i] == summary(keys[i])
    requires forall i :: 0 <= i < |keys| ==> summary(keys[i]).sector == keys[i]
    ensures var out := Keep(all);
      && Stats.NoDup(AggregateSectors(out))
      && (forall i :: 0 <= i < |out| ==> out[i] == summary(out[i].sector))
      && (s in AggregateSectors(out) <==> s in keys && ValidAggregate(summary(s)))
  {
    var out := Keep(all);
    assert AggregateSectors(all) == keys;
    KeepDistinct(all);
    KeepSpec(all);
    forall i | 0 <= i < |out| ensures out[i] == summary(out[i].sector) {
      var k :| 0 <= k < |all| && all[k] == out[i];
    }
    KeptSectors(all, s);
    if s in AggregateSectors(out) {
      var k :| 0 <= k < |all| && all[k].sector == s && ValidAggregate(all[k]);
      assert keys[k] == s;
    }
    if s in keys && ValidAggregate(summary(s)) {
      var k :| 0 <= k < |keys| && keys[k] == s;
      assert all[k].sector == s && ValidAggregate(all[k]);
    }
  }

  /** At most one aggregate per sector of the table, each the aggregate of its
      own sector; a sector of the table is missing from the output exactly when
      its own aggregate fails validation. */
  lemma AggregateBySectorSpec(rows: seq<StartupClean>, s: string)
    ensures var out := Keep(AllAggregates(rows, Sectors(rows)));
      && Stats.NoDup(AggregateSectors(out))
      && (forall i :: 0 <= i < |out| ==> out[i] == AggregateOf(rows, out[i].sector))
      && (s in AggregateSectors(out) <==> s in SectorsOf(rows) && ValidAggregate(AggregateOf(rows, s)))
  {
    var keys := Sectors(rows);
    KeepOfSummaries(keys, SummaryOf(rows), AllAggregates(rows, keys), s);
  }

  /** The active and closed records of a group are disjoint parts of it. */
  lemma StatusCountsWithinGroup(g: seq<StartupClean>)
    ensures StatusCount(g, "active") + StatusCount(g, "closed") <= |g|
  {
    Stats.CountTwo(Statuses(g), "active", "closed");
  }

  /** Risk is the share of closed records, within [0, 1]. */
  lemma RiskInRange(closed: nat, total: nat)
    requires closed <= total
    ensures 0.0 <= Risk(closed, total) <= 1.0
    ensures total > 0 ==> Risk(closed, total) * total as real == closed as real
  {
    if total > 0 {
      Stats.DivideBoundAbove(closed as real, total as real, 1.0);
    }
  }

  /** Saturation of a group no larger than the largest lies in [0, 1]; it is
      positive for a non-empty group and exactly 1 for the largest one. */
  lemma SaturationInRange(size: nat, largest: nat)
    requires size <= largest
    ensures 0.0 <= Saturation(size, largest) <= 1.0
    ensures size > 0 ==> Saturation(size, largest) > 0.0
    ensures size == largest > 0 ==> Saturation(size, largest) == 1.0
  {
    if largest > 0 {
      Stats.DivideBoundAbove(size as real, largest as real, 1.0);
      if size > 0 {
        assert size as real / largest as real > 0.0;
      }
      if size == largest {
        assert size as real / largest as real == 1.0;
      }
    }
  }

  /** The funding figures of a group of non-negative amounts and counts are
      non-negative: the total, the average, the median and the average number
      of rounds. */
  lemma GroupFundingFacts(g: seq<StartupClean>)
    requires forall i :: 0 <= i < |g| ==> g[i].totalFunding >= 0.0 && g[i].fundingRounds >= 0
    ensures Stats.Sum(Fundings(g)) >= 0.0
    ensures |g| > 0 ==>
      && Stats.Mean(Fundings(g)) >= 0.0
      && Stats.Median(Fundings(g)) >= 0.0
      && Stats.Mean(Rounds(g)) >= 0.0
  {
    FundingsNonNegative(g);
    if |g| > 0 {
      MeanFundingNonNegative(g);
      MedianFundingNonNegative(g);
      MeanRoundsNonNegative(g);
    }
  }

  lemma FundingsNonNegative(g: seq<StartupClean>)
    requires forall i :: 0 <= i < |g| ==> g[i].totalFunding >= 0.0
    ensures Stats.Sum(Fundings(g)) >= 0.0
  {
    Stats.SumAtLeast(Fundings(g), 0.0);
  }

  lemma MeanFundingNonNegative(g: seq<StartupClean>)
    requires |g| > 0 && forall i :: 0 <= i < |g| ==> g[i].totalFunding >= 0.0
    ensures Stats.Mean(Fundings(g)) >= 0.0
  {
    Stats.MeanWithin(Fundings(g), 0.0, 0.0);
  }

  lemma MedianFundingNonNegative(g: seq<StartupClean>)
    requires |g| > 0 && forall i :: 0 <= i < |g| ==> g[i].totalFunding >= 0.0
    ensures Stats.Median(Fundings(g)) >= 0.0
  {
    Stats.MedianWithin(Fundings(g), 0.0, 0.0);
  }

  lemma MeanRoundsNonNegative(g: seq<StartupClean>)
    requires |g| > 0 && forall i :: 0 <= i < |g| ==> g[i].fundingRounds >= 0
    ensures Stats.Mean(Rounds(g)) >= 0.0
  {
    Stats.MeanWithin(Rounds(g), 0.0, 0.0);
  }

  /** The average amount spread over the group gives the group's total. */
  lemma AverageSpreadsTotal(g: seq<StartupClean>)
    requires |g| > 0
    ensures Stats.Mean(Fundings(g)) * |g| as real == Stats.Sum(Fundings(g))
  {
    Stats.MeanTimesSize(Fundings(g));
  }

  /** The aggregate of a group of non-negative amounts and counts, no larger
      than the largest group, satisfies every field constraint; its counts and
      its risk are those of the group. */
  lemma SummariseValid(s: string, g: seq<StartupClean>, largest: nat)
    requires |g| <= largest
    requires forall i :: 0 <= i < |g| ==> g[i].totalFunding >= 0.0 && g[i].fundingRounds >= 0
    ensures var a := Summarise(s, g, largest);
      && ValidAggregate(a)
      && a.totalStartups == |g|
      && a.activeStartups + a.closedStartups <= a.totalStartups
  {
    StatusCountsWithinGroup(g);
    RiskInRange(StatusCount(g, "closed"), |g|);
    SaturationInRange(|g|, largest);
    GroupFundingFacts(g);
  }

  /** Every field of the aggregate of sector `s` is the corresponding statistic
      of the sector's group: the counts, the funding sum, average and median and
      the average number of rounds (0 for an empty group), the averages of the
      optional columns, the founded-year bounds, the growth rate, the saturation
      against the largest group, the risk, the top countries and the capital
      distribution. */
  lemma AggregateFields(rows: seq<StartupClean>, s: string)
    ensures var g := Group(rows, s);
      var a := AggregateOf(rows, s);
      && a.totalStartups == |g| == Stats.Count(SectorsOf(rows), s)
      && a.activeStartups == StatusCount(g, "active")
      && a.closedStartups == StatusCount(g, "closed")
      && a.totalFunding == Stats.Sum(Fundings(g))
      && (|g| > 0 ==>
            && a.avgFundingPerStartup == Stats.Mean(Fundings(g))
            && a.medianFunding == Stats.Median(Fundings(g))
            && a.avgFundingRounds == Stats.Mean(Rounds(g))
            && a.avgEmployeeCount == Stats.MeanOfPresent(Employees(g)))
      && (|g| == 0 ==>
            a.avgFundingPerStartup == a.medianFunding == a.avgFundingRounds == 0.0 && a.avgEmployeeCount.None?)
      && a.avgTimeToFirstFundingDays == Stats.MeanOfPresent(TimesToFirstFunding(g))
      && a.foundedYearMin == YearMin(g) && a.foundedYearMax == YearMax(g)
      && a.growthRate == GrowthRate(g)
      && a.saturationScore == Saturation(|g|, LargestGroup(rows))
      && a.riskScore == Risk(StatusCount(g, "closed"), |g|)
      && a.topCountries == TopCountries(g)
      && a.capitalDistribution == CapitalDistribution(g)
  {
    GroupSize(rows, s);
  }

  /** For records whose employee counts and times to first funding are absent
      or non-negative, the two optional averages of every sector are absent
      exactly when no record of the sector has the value, and non-negative
      otherwise. */
  lemma OptionalAverages(rows: seq<StartupClean>, s: string)
    requires forall i :: 0 <= i < |rows| ==> OptionalsNonNegative(rows[i])
    ensures var g := Group(rows, s);
      var a := AggregateOf(rows, s);
      && (a.avgEmployeeCount.None? <==> forall i :: 0 <= i < |g| ==> g[i].employeeCount.None?)
      && (a.avgEmployeeCount.Some? ==> a.avgEmployeeCount.value >= 0.0)
      && (a.avgTimeToFirstFundingDays.None? <==> forall i :: 0 <= i < |g| ==> g[i].timeToFirstFundingDays.None?)
      && (a.avgTimeToFirstFundingDays.Some? ==> a.avgTimeToFirstFundingDays.value >= 0.0)
  {
    var g := Group(rows, s);
    GroupOptionals(rows, s);
    GroupAverages(g);
    AggregateFields(rows, s);
  }

  /** The employee count and the time to first funding are absent or
      non-negative. */
  predicate OptionalsNonNegative(c: StartupClean) {
    NonNegative(c.employeeCount) && NonNegative(c.timeToFirstFundingDays)
  }

  lemma GroupOptionals(rows: seq<StartupClean>, s: string)
    requires forall i :: 0 <= i < |rows| ==> OptionalsNonNegative(rows[i])
    ensures forall i :: 0 <= i < |Group(rows, s)| ==> OptionalsNonNegative(Group(rows, s)[i])
  {
    var g := Group(rows, s);
    forall i | 0 <= i < |g| ensures OptionalsNonNegative(g[i]) {
      var k :| 0 <= k < |rows| && rows[k] == g[i];
    }
  }

  /** The two optional averages of a group whose values are absent or
      non-negative. */
  lemma GroupAverages(g: seq<StartupClean>)
    requires forall i :: 0 <= i < |g| ==> OptionalsNonNegative(g[i])
    ensures var e := Stats.MeanOfPresent(Employees(g));
      && (e.None? <==> forall i :: 0 <= i < |g| ==> g[i].employeeCount.None?)
      && (e.Some? ==> e.value >= 0.0)
    ensures var t := Stats.MeanOfPresent(TimesToFirstFunding(g));
      && (t.None? <==> forall i :: 0 <= i < |g| ==> g[i].timeToFirstFundingDays.None?)
      && (t.Some? ==> t.value >= 0.0)
  {
    PresentMeanFacts(Employees(g));
    PresentMeanFacts(TimesToFirstFunding(g));
  }

  /** The average of an optional column of absent or non-negative values. */
  lemma PresentMeanFacts(xs: seq<Option<int>>)
    requires forall i :: 0 <= i < |xs| ==> NonNegative(xs[i])
    ensures Stats.MeanOfPresent(xs).Some? ==> Stats.MeanOfPresent(xs).value >= 0.0
  {
    Stats.MeanOfPresentWithin(xs, 0, 0);
  }

  /** The counts of an aggregate: the group is the sector's records, and the
      active and closed records are disjoint parts of it. */
  lemma AggregateCounts(rows: seq<StartupClean>, s: string)
    ensures AggregateOf(rows, s).totalStartups == Stats.Count(SectorsOf(rows), s)
    ensures AggregateOf(rows, s).activeStartups + AggregateOf(rows, s).closedStartups
      <= AggregateOf(rows, s).totalStartups
  {
    GroupSize(rows, s);
    StatusCountsWithinGroup(Group(rows, s));
  }

  /** Saturation lies in [0, 1]; it is positive for a sector of the table and
      exactly 1 for the largest sector. Risk lies in [0, 1] too. */
  lemma SaturationFacts(rows: seq<StartupClean>, s: string)
    ensures 0.0 <= AggregateOf(rows, s).saturationScore <= 1.0
    ensures s in SectorsOf(rows) ==> AggregateOf(rows, s).saturationScore > 0.0
    ensures |Group(rows, s)| == LargestGroup(rows) && rows != [] ==>
      AggregateOf(rows, s).saturationScore == 1.0
    ensures 0.0 <= AggregateOf(rows, s).riskScore <= 1.0
  {
    var g := Group(rows, s);
    LargestGroupBounds(rows, s);
    GroupSize(rows, s);
    SaturationInRange(|g|, LargestGroup(rows));
    StatusCountsWithinGroup(g);
    RiskInRange(StatusCount(g, "closed"), |g|);
  }

  /** For records with non-negative funding and rounds the aggregate of every
      sector validates. The total is the group's sum, the average that sum over
      the group size, and the median lies between any bounds on the amounts. */
  lemma FundingFacts(rows: seq<StartupClean>, s: string, lo: real, hi: real)
    requires forall i :: 0 <= i < |rows| ==> rows[i].totalFunding >= 0.0 && rows[i].fundingRounds >= 0
    ensures ValidAggregate(AggregateOf(rows, s))
    ensures AggregateOf(rows, s).totalFunding == Stats.Sum(Fundings(Group(rows, s)))
    ensures s in SectorsOf(rows) ==>
      && |Group(rows, s)| > 0
      && AggregateOf(rows, s).avgFundingPerStartup == Stats.Mean(Fundings(Group(rows, s)))
    ensures s in SectorsOf(rows) && Stats.AtLeast(Fundings(Group(rows, s)), lo) ==>
      lo <= AggregateOf(rows, s).medianFunding
    ensures s in SectorsOf(rows) && Stats.AtMost(Fundings(Group(rows, s)), hi) ==>
      AggregateOf(rows, s).medianFunding <= hi
  {
    var g := Group(rows, s);
    assert forall i :: 0 <= i < |g| ==> g[i].totalFunding >= 0.0 && g[i].fundingRounds >= 0 by {
      forall i | 0 <= i < |g| ensures g[i].totalFunding >= 0.0 && g[i].fundingRounds >= 0 {
        var k :| 0 <= k < |rows| && rows[k] == g[i];
      }
    }
    LargestGroupBounds(rows, s);
    SummariseValid(s, g, LargestGroup(rows));
    GroupSize(rows, s);
    if |g| > 0 {
      Stats.MedianWithin(Fundings(g), lo, hi);
    }
  }

  /** Every sector of a table of non-negative funding is produced. */
  lemma NoSectorDropped(rows: seq<StartupClean>, keys: seq<string>)
    requires forall i :: 0 <= i < |rows| ==> rows[i].totalFunding >= 0.0 && rows[i].fundingRounds >= 0
    ensures Keep(AllAggregates(rows, keys)) == AllAggregates(rows, keys)
  {
    var all := AllAggregates(rows, keys);
    forall i | 0 <= i < |all| ensures ValidAggregate(all[i]) {
      FundingFacts(rows, keys[i], 0.0, 0.0);
    }
    KeepAllValid(all);
  }

  /** The whole pipeline: the records the clean stage keeps give one aggregate
      per sector. */
  lemma CleanTableKeepsEverySector(table: seq<RawInput>)
    ensures var rows := Clean.Accepted(Clean.Prepared(table));
      Keep(AllAggregates(rows, Sectors(rows))) == AllAggregates(rows, Sectors(rows))
  {
    var rows := Clean.Accepted(Clean.Prepared(table));
    Clean.CleanDataSpec(table);
    NoSectorDropped(rows, Sectors(rows));
  }

  /** The founded-year bounds are absent exactly when no record of the group
      has a year. */
  lemma YearBoundsAbsent(g: seq<StartupClean>)
    ensures YearMin(g).None? <==> forall i :: 0 <= i < |g| ==> g[i].foundedYear.None?
    ensures YearMax(g).None? <==> YearMin(g).None?
  {
    var ys := Stats.Present(Years(g));
    if ys == [] {
      assert forall i :: 0 <= i < |g| ==> g[i].foundedYear.None?;
    } else {
      assert ys[0] in ys;
      assert Some(ys[0]) in Years(g);
    }
  }

  /** Otherwise they are the smallest and the largest year present. */
  lemma YearBoundsPresent(g: seq<StartupClean>)
    ensures YearMin(g).Some? ==> Some(YearMin(g).value) in Years(g) && Some(YearMax(g).value) in Years(g)
    ensures forall i :: 0 <= i < |g| && g[i].foundedYear.Some? ==>
      YearMin(g).Some? && YearMin(g).value <= g[i].foundedYear.value <= YearMax(g).value
  {
    var ys := Stats.Present(Years(g));
    forall i | 0 <= i < |g| && g[i].foundedYear.Some?
      ensures YearMin(g).Some? && YearMin(g).value <= g[i].foundedYear.value <= YearMax(g).value
    {
      assert Some(g[i].foundedYear.value) in Years(g);
      assert g[i].foundedYear.value in ys;
    }
  }

  /** The growth rate is never below -1: the latest year of the span has at
      least one record. It is 0 unless the span covers more than one year. */
  lemma GrowthFacts(g: seq<StartupClean>)
    ensures GrowthRate(g) > -1.0
    ensures GrowthRate(g) != 0.0 ==>
      YearMin(g).Some? && YearMax(g).Some? && YearMax(g).value > YearMin(g).value
  {
    var hi := YearMax(g);
    if hi.Some? {
      YearBoundsAbsent(g);
      YearBoundsPresent(g);
      assert YearCount(g, hi.value) > 0;
    }
    GrowthOverFacts(g, YearMin(g), hi);
  }

  /** The growth heuristic for bounds whose upper year has a record. */
  lemma GrowthOverFacts(g: seq<StartupClean>, lo: Option<int>, hi: Option<int>)
    requires hi.Some? ==> YearCount(g, hi.value) > 0
    ensures GrowthOver(g, lo, hi) > -1.0
    ensures GrowthOver(g, lo, hi) != 0.0 ==> lo.Some? && hi.Some? && hi.value > lo.value
  {
    if lo.Some? && lo.value != 0 && hi.Some? && hi.value != 0 && hi.value > lo.value {
      var first := if hi.value - 2 > lo.value then hi.value - 2 else lo.value;
      ChangeAboveMinusOne(YearCount(g, first), YearCount(g, hi.value));
    }
  }

  /** The top countries: at most five, most frequent first, each present in the
      group, and no country left out is more frequent than one listed. */
  lemma TopCountriesFacts(g: seq<StartupClean>)
    ensures var cs := Stats.Present(Countries(g));
      var top := TopCountries(g);
      && |top| == (if |Stats.Distinct(cs)| < 5 then |Stats.Distinct(cs)| else 5)
      && (forall i :: 0 <= i < |top| ==> top[i] in cs)
      && (forall i, j :: 0 <= i < j < |top| ==> Stats.Count(cs, top[i]) >= Stats.Count(cs, top[j]))
      && (forall c, j :: c in cs && c !in top && 0 <= j < |top| ==>
            Stats.Count(cs, c) <= Stats.Count(cs, top[j]))
      && (forall c :: Stats.Count(cs, c) == multiset(Countries(g))[Some(c)])
  {
    var cs := Stats.Present(Countries(g));
    MostFrequent(cs, Stats.Distinct(cs));
    forall c ensures Stats.Count(cs, c) == multiset(Countries(g))[Some(c)] {
      Stats.CountIsMultiplicity(cs, c);
    }
  }

  lemma MostFrequent(cs: seq<string>, d: seq<string>)
    requires forall x :: x in d <==> x in cs
    ensures var top := Ranking.TopBy(d, Frequency(cs), 5);
      && |top| <= 5
      && (forall i :: 0 <= i < |top| ==> top[i] in cs)
      && (forall i, j :: 0 <= i < j < |top| ==> Stats.Count(cs, top[i]) >= Stats.Count(cs, top[j]))
      && (forall c, j :: c in cs && c !in top && 0 <= j < |top| ==>
            Stats.Count(cs, c) <= Stats.Count(cs, top[j]))
  {
    var f := Frequency(cs);
    var top := Ranking.TopBy(d, f, 5);
    Ranking.TopBySpec(d, f, 5);
    forall i, j | 0 <= i < j < |top| ensures Stats.Count(cs, top[i]) >= Stats.Count(cs, top[j]) {
      assert f(top[i]) >= f(top[j]);
    }
    forall c, j | c in cs && c !in top && 0 <= j < |top| ensures Stats.Count(cs, c) <= Stats.Count(cs, top[j]) {
      assert c in d;
      assert f(c) <= f(top[j]);
    }
  }

  /** The capital distribution: its keys are exactly the capital ranges that
      occur in the group, each mapped to its number of records, and the counts
      add up to the group size. */
  lemma CapitalDistributionFacts(g: seq<StartupClean>)
    ensures CapitalDistribution(g).Keys == set i | 0 <= i < |g| :: g[i].capitalRange
    ensures forall r :: r in CapitalDistribution(g) ==> CapitalDistribution(g)[r] == Stats.Count(CapitalRanges(g), r)
    ensures Stats.SumOver(CapitalDistribution(g), Stats.Distinct(CapitalRanges(g))) == |g|
  {
    var cr := CapitalRanges(g);
    Stats.HistogramTotal(cr);
    assert (set i | 0 <= i < |cr| :: cr[i]) == (set i | 0 <= i < |g| :: g[i].capitalRange);
  }
}
