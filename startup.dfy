/** The record shapes of the pipeline and their field rules: the raw record
    (validated), the clean record (normalised, with defaults) and the
    per-sector aggregate (with its validity constraints). Validation failures
    are returned as a list of field errors instead of an exception. */
module Startup {
  import opened Wrappers
  import Text

  const MinYear: int := 1900
  const MaxYear: int := 2030

  /** Why one field made a record invalid. */
  datatype FieldError =
    | Required(field: string)              // missing, or None where a value is required
    | YearOutOfRange(field: string, year: int)
    | Negative(field: string)

  /** The keyword arguments handed to the raw model: any field may be None. */
  datatype RawInput = RawInput(
    name: Option<string>,
    sector: Option<string>,
    foundedYear: Option<int>,
    fundingRounds: Option<int>,
    totalFunding: Option<real>,
    status: Option<string>,
    country: Option<string>,
    city: Option<string>,
    employeeCount: Option<int>,
    firstFundingYear: Option<int>,
    lastFundingYear: Option<int>,
    timeToFirstFundingDays: Option<int>,
    timeToLastFundingDays: Option<int>)

  /** A raw record that passed validation: name and sector are present. */
  datatype StartupRaw = StartupRaw(
    name: string,
    sector: string,
    foundedYear: Option<int>,
    fundingRounds: Option<int>,
    totalFunding: Option<real>,
    status: Option<string>,
    country: Option<string>,
    city: Option<string>,
    employeeCount: Option<int>,
    firstFundingYear: Option<int>,
    lastFundingYear: Option<int>,
    timeToFirstFundingDays: Option<int>,
    timeToLastFundingDays: Option<int>)

  /** A cleaned record. */
  datatype StartupClean = StartupClean(
    name: string,
    sector: string,
    foundedYear: Option<int>,
    fundingRounds: int,
    totalFunding: real,
    status: string,
    country: Option<string>,
    city: Option<string>,
    employeeCount: Option<int>,
    firstFundingYear: Option<int>,
    lastFundingYear: Option<int>,
    timeToFirstFundingDays: Option<int>,
    timeToLastFundingDays: Option<int>,
    fundingStage: string,
    capitalRange: string)

  /** The per-sector summary. */
  datatype SectorAggregate = SectorAggregate(
    sector: string,
    totalStartups: int,
    activeStartups: int,
    closedStartups: int,
    totalFunding: real,
    avgFundingPerStartup: real,
    medianFunding: real,
    avgFundingRounds: real,
    avgTimeToFirstFundingDays: Option<real>,
    avgEmployeeCount: Option<real>,
    foundedYearMin: Option<int>,
    foundedYearMax: Option<int>,
    growthRate: real,
    saturationScore: real,
    riskScore: real,
    topCountries: seq<string>,
    capitalDistribution: map<string, int>)

  // ------------------------------------------------------------ raw record

  /** The year validator: a year passes when it is absent or within
      [MinYear, MaxYear]; otherwise the offending year is reported. */
  function ValidateYear(v: Option<int>): Result<Option<int>, int> {
    if v.Some? && (v.value < MinYear || v.value > MaxYear) then Failure(v.value) else Success(v)
  }

  function YearErrors(field: string, v: Option<int>): seq<FieldError> {
    match ValidateYear(v)
    case Failure(y) => [YearOutOfRange(field, y)]
    case Success(_) => []
  }

  function NegativeIntErrors(field: string, v: Option<int>): seq<FieldError> {
    if v.Some? && v.value < 0 then [Negative(field)] else []
  }

  function NegativeRealErrors(field: string, v: Option<real>): seq<FieldError> {
    if v.Some? && v.value < 0.0 then [Negative(field)] else []
  }

  /** Every field error of `r`, in field declaration order. */
  function RawErrors(r: RawInput): seq<FieldError> {
    (if r.name.None? then [Required("name")] else [])
    + (if r.sector.None? then [Required("sector")] else [])
    + YearErrors("founded_year", r.foundedYear)
    + NegativeIntErrors("funding_rounds", r.fundingRounds)
    + NegativeRealErrors("total_funding", r.totalFunding)
    + NegativeIntErrors("employee_count", r.employeeCount)
    + YearErrors("first_funding_year", r.firstFundingYear)
    + YearErrors("last_funding_year", r.lastFundingYear)
    + NegativeIntErrors("time_to_first_funding_days", r.timeToFirstFundingDays)
    + NegativeIntErrors("time_to_last_funding_days", r.timeToLastFundingDays)
  }

  predicate YearInRange(v: Option<int>) {
    v.None? || MinYear <= v.value <= MaxYear
  }

  predicate NonNegative(v: Option<int>) {
    v.None? || v.value >= 0
  }

  /** Validation of a raw record. A record is accepted exactly when name and
      sector are given, the three year fields are absent or in range, and the
      five numeric fields are absent or non-negative; an accepted record keeps
      every field as given, a rejected one reports at least one error. */
  function ValidateRaw(r: RawInput): (res: Result<StartupRaw, seq<FieldError>>)
    ensures res.Success? <==>
      && r.name.Some? && r.sector.Some?
      && YearInRange(r.foundedYear) && YearInRange(r.firstFundingYear) && YearInRange(r.lastFundingYear)
      && NonNegative(r.fundingRounds) && NonNegative(r.employeeCount)
      && (r.totalFunding.None? || r.totalFunding.value >= 0.0)
      && NonNegative(r.timeToFirstFundingDays) && NonNegative(r.timeToLastFundingDays)
    ensures res.Success? ==>
      && res.value.name == r.name.value && res.value.sector == r.sector.value
      && res.value.foundedYear == r.foundedYear && res.value.fundingRounds == r.fundingRounds
      && res.value.totalFunding == r.totalFunding && res.value.status == r.status
      && res.value.country == r.country && res.value.city == r.city
      && res.value.employeeCount == r.employeeCount
      && res.value.firstFundingYear == r.firstFundingYear && res.value.lastFundingYear == r.lastFundingYear
      && res.value.timeToFirstFundingDays == r.timeToFirstFundingDays
      && res.value.timeToLastFundingDays == r.timeToLastFundingDays
    ensures res.Failure? ==> |res.error| > 0
  {
    var errors := RawErrors(r);
    if errors == [] then
      Success(StartupRaw(r.name.value, r.sector.value, r.foundedYear, r.fundingRounds, r.totalFunding,
        r.status, r.country, r.city, r.employeeCount, r.firstFundingYear, r.lastFundingYear,
        r.timeToFirstFundingDays, r.timeToLastFundingDays))
    else
      Failure(errors)
  }

  /** The inclusive year bounds. */
  lemma YearBoundaries()
    ensures ValidateYear(Some(1900)) == Success(Some(1900))
    ensures ValidateYear(Some(2030)) == Success(Some(2030))
    ensures ValidateYear(Some(1800)) == Failure(1800)
    ensures ValidateYear(Some(2031)) == Failure(2031)
    ensures ValidateYear(None) == Success(None)
  {
  }

  // ------------------------------------------------------------ clean record

  /** The sector validator: strip, then title-case. */
  function NormalizeSector(v: string): string {
    Text.Title(Text.Strip(v))
  }

  /** The status validator: an empty status becomes "unknown"; any other is
      stripped, then lower-cased (so a whitespace-only status becomes ""). */
  function NormalizeStatus(v: string): string {
    if v == "" then "unknown" else Text.Lower(Text.Strip(v))
  }

  /** A sector already stripped and title-cased is left as it is. */
  lemma NormalizeSectorOfNormalized(v: string)
    requires Text.IsStripped(v) && Text.Title(v) == v
    ensures NormalizeSector(v) == v
  {
    Text.StripOfStripped(v);
  }

  /** A status already stripped and lower-cased is left as it is, except that
      the empty status becomes "unknown"; either way the result is a non-empty
      lower-case status. */
  lemma NormalizeStatusOfNormalized(v: string)
    requires Text.IsStripped(v) && Text.Lower(v) == v
    ensures NormalizeStatus(v) == if v == "" then "unknown" else v
    ensures NormalizeStatus(v) != "" && Text.Lower(NormalizeStatus(v)) == NormalizeStatus(v)
  {
    Text.StripOfStripped(v);
    if v == "" {
      assert Text.Lower("unknown") == "unknown";
    }
  }

  lemma NormalizeSectorExample()
    ensures NormalizeSector("  technology  ") == "Technology"
  {
    StripExample();
    TitleExample();
  }

  lemma StripExample()
    ensures Text.Strip("  technology  ") == "technology"
  {
    var s := "  technology  ";
    assert Text.LeadingSpaces(s[2..]) == 0;
    assert Text.LeadingSpaces(s[1..]) == 1;
    assert Text.LeadingSpaces(s) == 2;
    var t := s[2..];
    assert Text.TrailingSpaces(t[..10]) == 0;
    assert Text.TrailingSpaces(t[..11]) == 1;
    assert Text.TrailingSpaces(t) == 2;
  }

  lemma TitleExample()
    ensures Text.Title("technology") == "Technology"
  {
    var w := "technology";
    Text.TitleOfLowerWord(w);
  }

  lemma NormalizeStatusExamples()
    ensures NormalizeStatus("  ACTIVE  ") == "active"
    ensures NormalizeStatus("") == "unknown"
  {
    var u := "  ACTIVE  ";
    assert Text.LeadingSpaces(u[2..]) == 0;
    assert Text.LeadingSpaces(u[1..]) == 1;
    assert Text.LeadingSpaces(u) == 2;
    var w := u[2..];
    assert Text.TrailingSpaces(w[..6]) == 0;
    assert Text.TrailingSpaces(w[..7]) == 1;
    assert Text.TrailingSpaces(w) == 2;
    assert Text.Strip(u) == "ACTIVE";
  }

  /** The emptiness test comes before the strip, so a status made only of
      whitespace normalises to the empty string, not to "unknown". */
  lemma BlankStatusIsEmpty(v: string)
    requires v != [] && forall i :: 0 <= i < |v| ==> Text.IsSpace(v[i])
    ensures NormalizeStatus(v) == ""
  {
    BlankStripsToEmpty(v);
  }

  lemma {:induction false} BlankStripsToEmpty(v: string)
    requires forall i :: 0 <= i < |v| ==> Text.IsSpace(v[i])
    ensures Text.LeadingSpaces(v) == |v|
    ensures Text.Strip(v) == ""
  {
    if v != [] {
      assert forall i :: 0 <= i < |v[1..]| ==> Text.IsSpace(v[1..][i]) by {
        forall i | 0 <= i < |v[1..]| ensures Text.IsSpace(v[1..][i]) {
          assert v[1..][i] == v[i + 1];
        }
      }
      BlankStripsToEmpty(v[1..]);
    }
  }

  /** Normalising an already normalised sector changes nothing. */
  lemma NormalizeSectorIdempotent(v: string)
    ensures NormalizeSector(NormalizeSector(v)) == NormalizeSector(v)
  {
    Text.StripIsStripped(v);
    Text.TitleKeepsStripped(Text.Strip(v));
    Text.StripOfStripped(NormalizeSector(v));
    Text.TitleIdempotent(Text.Strip(v));
  }

  /** A clean record built from a name and a sector alone takes the declared
      defaults; only the sector passes through its validator. */
  function DefaultClean(name: string, sector: string): (c: StartupClean)
    ensures c.name == name && c.sector == NormalizeSector(sector)
    ensures c.fundingRounds == 0 && c.totalFunding == 0.0 && c.status == "unknown"
    ensures c.fundingStage == "unknown" && c.capitalRange == "unknown"
    ensures c.foundedYear.None? && c.country.None? && c.city.None? && c.employeeCount.None?
  {
    StartupClean(name, NormalizeSector(sector), None, 0, 0.0, "unknown", None, None, None, None, None,
      None, None, "unknown", "unknown")
  }

  /** The clean model applied to every field of a validated raw record plus the
      two derived labels. All raw fields are passed, None included, so a None
      funding_rounds, total_funding or status is rejected (those three fields
      are not optional) instead of taking the default. */
  function BuildClean(raw: StartupRaw, fundingStage: string, capitalRange: string)
    : (res: Result<StartupClean, seq<FieldError>>)
    ensures res.Success? <==> raw.fundingRounds.Some? && raw.totalFunding.Some? && raw.status.Some?
    ensures res.Success? ==>
      && res.value.name == raw.name
      && res.value.sector == NormalizeSector(raw.sector)
      && res.value.status == NormalizeStatus(raw.status.value)
      && res.value.fundingRounds == raw.fundingRounds.value
      && res.value.totalFunding == raw.totalFunding.value
      && res.value.foundedYear == raw.foundedYear
      && res.value.country == raw.country && res.value.city == raw.city
      && res.value.employeeCount == raw.employeeCount
      && res.value.firstFundingYear == raw.firstFundingYear && res.value.lastFundingYear == raw.lastFundingYear
      && res.value.timeToFirstFundingDays == raw.timeToFirstFundingDays
      && res.value.timeToLastFundingDays == raw.timeToLastFundingDays
      && res.value.fundingStage == fundingStage && res.value.capitalRange == capitalRange
  {
    var errors :=
      (if raw.fundingRounds.None? then [Required("funding_rounds")] else [])
      + (if raw.totalFunding.None? then [Required("total_funding")] else [])
      + (if raw.status.None? then [Required("status")] else []);
    if errors != [] then Failure(errors)
    else
      Success(StartupClean(raw.name, NormalizeSector(raw.sector), raw.foundedYear,
        raw.fundingRounds.value, raw.totalFunding.value, NormalizeStatus(raw.status.value),
        raw.country, raw.city, raw.employeeCount, raw.firstFundingYear, raw.lastFundingYear,
        raw.timeToFirstFundingDays, raw.timeToLastFundingDays, fundingStage, capitalRange))
  }

  // ------------------------------------------------------------ aggregate

  /** The field constraints of a sector aggregate: counts and funding figures
      non-negative, saturation and risk within [0, 1]; the growth rate, the
      optional means, the year bounds and the two collections are free. */
  predicate ValidAggregate(a: SectorAggregate) {
    && a.totalStartups >= 0 && a.activeStartups >= 0 && a.closedStartups >= 0
    && a.totalFunding >= 0.0 && a.avgFundingPerStartup >= 0.0
    && a.medianFunding >= 0.0 && a.avgFundingRounds >= 0.0
    && 0.0 <= a.saturationScore <= 1.0
    && 0.0 <= a.riskScore <= 1.0
  }

  /** Validity does not depend on the growth rate. */
  lemma GrowthRateUnconstrained(a: SectorAggregate, g: real)
    ensures ValidAggregate(a.(growthRate := g)) == ValidAggregate(a)
  {
  }
}
