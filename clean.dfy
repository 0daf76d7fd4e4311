/** The clean stage: text normalisation of the raw table, removal of
    duplicate (name, sector, founded year) rows, the two derived labels
    (funding stage and capital range) and the row-by-row validation into
    clean records, counting the rows that fail.

    A table row is a `RawInput`. A missing cell is `None`; in a numeric
    column that is NaN, which `x or 0` keeps (NaN is truthy) and which fails
    every comparison. */
module Clean {
  import opened Wrappers
  import opened Startup
  import Text
  import Stats

  // ------------------------------------------------------------ text columns

  /** A text cell after `astype(str).str.strip()` followed by the replacement
      of "nan" with "". The table comes from the raw collection, where a
      missing cell is Python `None`: it renders as "None" and is kept. A cell
      that holds a floating NaN renders as "nan", which is `Some("nan")` here,
      and ends up empty. */
  function NormalizeText(cell: Option<string>): (t: string)
    ensures Text.IsStripped(t) && t != "nan"
    ensures cell.None? ==> t == "None"
    ensures cell.Some? && Text.IsStripped(cell.value) && cell.value != "nan" ==> t == cell.value
    ensures cell.Some? ==>
      exists s :: Text.IsTrimOf(s, cell.value) && Text.IsStripped(s) && t == if s == "nan" then "" else s
  {
    match cell
    case None =>
      // "None" has no whitespace to strip and is not "nan"
      "None"
    case Some(v) =>
      Text.StripFacts(v);
      var s := Text.Strip(v);
      if s == "nan" then "" else s
  }

  lemma NormalizeTextExamples()
    ensures NormalizeText(None) == "None"
    ensures NormalizeText(Some(" nan ")) == ""
    ensures NormalizeText(Some(" Berlin")) == "Berlin"
    ensures Text.Lower(NormalizeText(None)) == "none"
  {
    var s := " nan ";
    assert Text.LeadingSpaces(s[1..]) == 0;
    assert Text.LeadingSpaces(s) == 1;
    assert Text.TrailingSpaces(s[1..][..3]) == 0;
    assert Text.TrailingSpaces(s[1..]) == 1;
    assert Text.Strip(s) == "nan";
    var b := " Berlin";
    assert Text.LeadingSpaces(b[1..]) == 0;
    assert Text.LeadingSpaces(b) == 1;
    assert Text.TrailingSpaces(b[1..]) == 0;
    assert Text.Strip(b) == "Berlin";
    Text.LowerSpec("None");
  }

  /** The text normalisation of one row: name, country and city are stripped
      ("nan" becoming ""), the sector is then title-cased and the status
      lower-cased. Every text cell is present afterwards, so the later
      `fillna("unknown")` on the status has nothing to fill. */
  function NormalizeRow(r: RawInput): (n: RawInput)
    ensures SameNumbers(n, r)
  {
    r.(name := Some(NormalizeText(r.name)),
       sector := Some(Text.Title(NormalizeText(r.sector))),
       status := Some(Text.Lower(NormalizeText(r.status))),
       country := Some(NormalizeText(r.country)),
       city := Some(NormalizeText(r.city)))
  }

  /** What the text normalisation guarantees about a row. */
  predicate IsNormalized(r: RawInput) {
    && r.name.Some? && Text.IsStripped(r.name.value)
    && r.sector.Some? && Text.IsStripped(r.sector.value) && Text.Title(r.sector.value) == r.sector.value
    && r.status.Some? && Text.IsStripped(r.status.value) && Text.Lower(r.status.value) == r.status.value
    && r.country.Some? && Text.IsStripped(r.country.value)
    && r.city.Some? && Text.IsStripped(r.city.value)
  }

  lemma NormalizeRowIsNormalized(r: RawInput)
    ensures IsNormalized(NormalizeRow(r))
  {
    var n := NormalizeRow(r);
    Text.TitleKeepsStripped(NormalizeText(r.sector));
    Text.TitleIdempotent(NormalizeText(r.sector));
    Text.LowerKeepsStripped(NormalizeText(r.status));
    Text.LowerIdempotent(NormalizeText(r.status));
  }

  /** Two sector spellings that differ only in letter case and surrounding
      whitespace normalise to the same sector. */
  lemma SectorCaseVariantsAgree(s: string, t: string)
    requires Text.Lower(Text.Strip(s)) == Text.Lower(Text.Strip(t))
    requires Text.Lower(Text.Strip(s)) != "nan"
    ensures Text.Title(NormalizeText(Some(s))) == Text.Title(NormalizeText(Some(t)))
  {
    Text.TitleIgnoresCase(Text.Strip(s), Text.Strip(t));
  }

  /** The numeric cells of `n` are those of `r`. */
  predicate SameNumbers(n: RawInput, r: RawInput) {
    && n.fundingRounds == r.fundingRounds && n.totalFunding == r.totalFunding
    && n.foundedYear == r.foundedYear && n.employeeCount == r.employeeCount
    && n.firstFundingYear == r.firstFundingYear && n.lastFundingYear == r.lastFundingYear
    && n.timeToFirstFundingDays == r.timeToFirstFundingDays
    && n.timeToLastFundingDays == r.timeToLastFundingDays
  }

  /** The text normalisation of the whole table, column by column: every row
      comes out normalised with its numeric cells untouched. */
  function NormalizeAll(table: seq<RawInput>): (rows: seq<RawInput>)
    ensures |rows| == |table|
    ensures forall i :: 0 <= i < |table| ==> rows[i] == NormalizeRow(table[i])
    ensures forall i :: 0 <= i < |table| ==> IsNormalized(rows[i]) && SameNumbers(rows[i], table[i])
  {
    var rows := seq(|table|, i requires 0 <= i < |table| => NormalizeRow(table[i]));
    forall i | 0 <= i < |table|
      ensures IsNormalized(rows[i])
    {
      NormalizeRowIsNormalized(table[i]);
    }
    rows
  }

  // ------------------------------------------------------------ duplicates

  /** The duplicate-detection key. */
  type Key = (Option<string>, Option<string>, Option<int>)

  function KeyOf(r: RawInput): Key {
    (r.name, r.sector, r.foundedYear)
  }

  function Keys(rows: seq<RawInput>): (ks: seq<Key>)
    ensures |ks| == |rows|
    ensures forall i :: 0 <= i < |rows| ==> ks[i] == KeyOf(rows[i])
  {
    seq(|rows|, i requires 0 <= i < |rows| => KeyOf(rows[i]))
  }

  /** No earlier row of `rows` has the key of row `i`. */
  predicate IsFirst(rows: seq<RawInput>, i: nat)
    requires i < |rows|
  {
    forall j :: 0 <= j < i ==> KeyOf(rows[j]) != KeyOf(rows[i])
  }

  /** `drop_duplicates(keep="first")` on the key columns. */
  function Dedup(rows: seq<RawInput>): (d: seq<RawInput>)
    ensures |d| <= |rows|
    ensures forall j :: 0 <= j < |d| ==> d[j] in rows
  {
    if rows == [] then []
    else
      var init := rows[..|rows| - 1];
      var x := rows[|rows| - 1];
      assert rows == init + [x];
      var p := Dedup(init);
      if KeyOf(x) in Keys(init) then p else p + [x]
  }

  /** The keys that survive are the distinct keys of the table, in order of
      first appearance. */
  lemma {:induction false} DedupKeys(rows: seq<RawInput>)
    ensures Keys(Dedup(rows)) == Stats.Distinct(Keys(rows))
  {
    if rows != [] {
      var init := rows[..|rows| - 1];
      var x := rows[|rows| - 1];
      DedupKeys(init);
      KeysSnoc(init, x);
      assert init + [x] == rows;
      KeysSnoc(Dedup(init), x);
      Stats.DistinctSnoc(Keys(init), KeyOf(x));
    }
  }

  lemma KeysSnoc(rows: seq<RawInput>, x: RawInput)
    ensures Keys(rows + [x]) == Keys(rows) + [KeyOf(x)]
  {
  }

  /** The row kept for a key is the first row of the table with that key. */
  lemma {:induction false} DedupKeepsFirst(rows: seq<RawInput>)
    ensures forall i, j ::
      (0 <= i < |rows| && 0 <= j < |Dedup(rows)| && IsFirst(rows, i) && KeyOf(rows[i]) == KeyOf(Dedup(rows)[j]))
      ==> rows[i] == Dedup(rows)[j]
  {
    if rows != [] {
      var init := rows[..|rows| - 1];
      var x := rows[|rows| - 1];
      var n := |rows| - 1;
      DedupKeepsFirst(init);
      var p := Dedup(init);
      var d := Dedup(rows);
      forall i, j | 0 <= i < |rows| && 0 <= j < |d| && IsFirst(rows, i) && KeyOf(rows[i]) == KeyOf(d[j])
        ensures rows[i] == d[j]
      {
        if i < n {
          assert rows[i] == init[i];
          assert IsFirst(init, i) by {
            forall k | 0 <= k < i ensures KeyOf(init[k]) != KeyOf(init[i]) {
              assert init[k] == rows[k];
            }
          }
          if j < |p| {
            assert d[j] == p[j];
          }
        } else {
          assert KeyOf(x) !in Keys(init) by {
            forall k | 0 <= k < n ensures Keys(init)[k] != KeyOf(x) {
              assert init[k] == rows[k];
            }
          }
        }
      }
    }
  }

  /** A table whose keys are already distinct is left as it is. */
  lemma {:induction false} DedupOfDistinct(rows: seq<RawInput>)
    requires Stats.NoDup(Keys(rows))
    ensures Dedup(rows) == rows
  {
    if rows != [] {
      var init := rows[..|rows| - 1];
      var x := rows[|rows| - 1];
      assert rows == init + [x];
      KeysSnoc(init, x);
      Stats.NoDupSnoc(Keys(init), KeyOf(x));
      DedupOfDistinct(init);
    }
  }

  /** Removing duplicates twice removes nothing more. */
  lemma DedupIdempotent(rows: seq<RawInput>)
    ensures Dedup(Dedup(rows)) == Dedup(rows)
  {
    DedupKeys(rows);
    DedupOfDistinct(Dedup(rows));
  }

  // ------------------------------------------------------------ derived labels

  /** The funding stage of a row. A missing count or amount is NaN: `NaN or 0`
      stays NaN, which equals no number, so it never selects "pre-seed" and a
      missing or negative count falls through to "unknown". */
  function FundingStage(rounds: Option<int>, total: Option<real>): (stage: string)
    ensures stage == "pre-seed" <==> rounds == Some(0) || total == Some(0.0)
    ensures stage == "unknown" <==>
      rounds != Some(0) && total != Some(0.0) && (rounds.None? || rounds.value < 0)
  {
    if rounds == Some(0) || total == Some(0.0) then "pre-seed"
    else if rounds == Some(1) then "seed"
    else if rounds == Some(2) then "series-a"
    else if rounds == Some(3) then "series-b"
    else if rounds.Some? && rounds.value >= 4 then "series-c-plus"
    else "unknown"
  }

  /** The position of a stage on the funding ladder. */
  function StageRank(stage: string): int {
    if stage == "pre-seed" then 0
    else if stage == "seed" then 1
    else if stage == "series-a" then 2
    else if stage == "series-b" then 3
    else if stage == "series-c-plus" then 4
    else -1
  }

  /** With a non-zero amount, more rounds never mean an earlier stage, and any
      non-negative count gets a stage on the ladder. */
  lemma FundingStageMonotone(a: int, b: int, total: Option<real>)
    requires 0 <= a <= b && total != Some(0.0)
    ensures 0 <= StageRank(FundingStage(Some(a), total)) <= StageRank(FundingStage(Some(b), total))
    ensures StageRank(FundingStage(Some(a), total)) == if a < 4 then a else 4
  {
  }

  /** The capital range of a row. A missing amount is NaN, which fails every
      comparison and so lands in the top range. */
  function CapitalRange(total: Option<real>): (range: string)
    ensures range == "0-0" <==> total == Some(0.0)
    ensures range == "50M+" <==> total.None? || total.value >= 50000000.0
  {
    if total.None? then "50M+"
    else if total.value == 0.0 then "0-0"
    else if total.value < 1000000.0 then "0-1M"
    else if total.value < 10000000.0 then "1M-10M"
    else if total.value < 50000000.0 then "10M-50M"
    else "50M+"
  }

  function RangeRank(range: string): int {
    if range == "0-0" then 0
    else if range == "0-1M" then 1
    else if range == "1M-10M" then 2
    else if range == "10M-50M" then 3
    else if range == "50M+" then 4
    else -1
  }

  /** A larger positive amount never lands in a lower range; the upper bounds
      of the ranges are exclusive. */
  lemma CapitalRangeMonotone(a: real, b: real)
    requires 0.0 < a <= b
    ensures 1 <= RangeRank(CapitalRange(Some(a))) <= RangeRank(CapitalRange(Some(b)))
  {
  }

  lemma CapitalRangeBoundaries()
    ensures CapitalRange(Some(999999.0)) == "0-1M"
    ensures CapitalRange(Some(1000000.0)) == "1M-10M"
    ensures CapitalRange(Some(10000000.0)) == "10M-50M"
    ensures CapitalRange(Some(50000000.0)) == "50M+"
  {
  }

  // ------------------------------------------------------------ validation

  /** One row through the raw model, then the clean model, with the derived
      labels of the row. */
  function CleanRow(row: RawInput): (res: Result<StartupClean, seq<FieldError>>)
    ensures res.Success? <==>
      (ValidateRaw(row).Success? && row.fundingRounds.Some? && row.totalFunding.Some? && row.status.Some?)
  {
    match ValidateRaw(row)
    case Failure(e) => Failure(e)
    case Success(raw) =>
      BuildClean(raw, FundingStage(row.fundingRounds, row.totalFunding), CapitalRange(row.totalFunding))
  }

  /** A row without a funding count or amount is a validation error: the clean
      model is given an explicit None for a field that is not optional. */
  lemma MissingFundingRejected(row: RawInput)
    requires row.fundingRounds.None? || row.totalFunding.None?
    ensures CleanRow(row).Failure?
  {
  }

  /** What the clean stage guarantees of every record it keeps. */
  predicate WellFormed(c: StartupClean) {
    && Text.IsStripped(c.name)
    && Text.IsStripped(c.sector) && Text.Title(c.sector) == c.sector
    && c.status != "" && Text.Lower(c.status) == c.status
    && c.fundingRounds >= 0 && c.totalFunding >= 0.0
    && YearInRange(c.foundedYear)
    && c.fundingStage == FundingStage(Some(c.fundingRounds), Some(c.totalFunding))
    && c.fundingStage != "unknown"
    && c.capitalRange == CapitalRange(Some(c.totalFunding))
    && c.country.Some? && Text.IsStripped(c.country.value)
    && c.city.Some? && Text.IsStripped(c.city.value)
    && NonNegative(c.employeeCount) && NonNegative(c.timeToFirstFundingDays)
  }

  /** A normalised row that validates gives a well-formed record; its sector is
      the row's own, and its status the row's own unless that is empty. */
  lemma CleanRowWellFormed(row: RawInput)
    requires IsNormalized(row) && CleanRow(row).Success?
    ensures WellFormed(CleanRow(row).value)
    ensures CleanRow(row).value.sector == row.sector.value
    ensures CleanRow(row).value.status == if row.status.value == "" then "unknown" else row.status.value
  {
    NormalizeSectorOfNormalized(row.sector.value);
    NormalizeStatusOfNormalized(row.status.value);
  }

  /** The records of the rows that validate, in table order. */
  function Accepted(rows: seq<RawInput>): seq<StartupClean> {
    if rows == [] then []
    else
      var rest := Accepted(rows[..|rows| - 1]);
      match CleanRow(rows[|rows| - 1])
      case Success(c) => rest + [c]
      case Failure(_) => rest
  }

  /** The names of the rows that fail validation, in table order. */
  function Rejected(rows: seq<RawInput>): seq<string> {
    if rows == [] then []
    else
      var rest := Rejected(rows[..|rows| - 1]);
      match CleanRow(rows[|rows| - 1])
      case Success(_) => rest
      case Failure(_) => rest + [rows[|rows| - 1].name.GetOr("unknown")]
  }

  lemma AcceptedRejectedStep(rows: seq<RawInput>, i: nat)
    requires i < |rows|
    ensures Accepted(rows[..i + 1]) ==
      Accepted(rows[..i]) + (if CleanRow(rows[i]).Success? then [CleanRow(rows[i]).value] else [])
    ensures Rejected(rows[..i + 1]) ==
      Rejected(rows[..i]) + (if CleanRow(rows[i]).Success? then [] else [rows[i].name.GetOr("unknown")])
  {
    assert rows[..i + 1][..i] == rows[..i];
  }

  /** Every row is either kept or counted as an error. */
  lemma {:induction false} AcceptedRejectedPartition(rows: seq<RawInput>)
    ensures |Accepted(rows)| + |Rejected(rows)| == |rows|
  {
    if rows != [] {
      AcceptedRejectedPartition(rows[..|rows| - 1]);
    }
  }

  /** Every record kept from normalised rows is well-formed. */
  lemma {:induction false} AcceptedWellFormed(rows: seq<RawInput>)
    requires forall i :: 0 <= i < |rows| ==> IsNormalized(rows[i])
    ensures forall j :: 0 <= j < |Accepted(rows)| ==> WellFormed(Accepted(rows)[j])
  {
    if rows != [] {
      var init := rows[..|rows| - 1];
      assert forall i :: 0 <= i < |init| ==> IsNormalized(init[i]) by {
        forall i | 0 <= i < |init| ensures IsNormalized(init[i]) {
          assert init[i] == rows[i];
        }
      }
      AcceptedWellFormed(init);
      var last := rows[|rows| - 1];
      if CleanRow(last).Success? {
        CleanRowWellFormed(last);
      }
    }
  }

  /** The rows that reach validation: normalised, then de-duplicated. */
  function Prepared(table: seq<RawInput>): seq<RawInput> {
    Dedup(NormalizeAll(table))
  }

  lemma PreparedNormalized(table: seq<RawInput>)
    ensures forall i :: 0 <= i < |Prepared(table)| ==> IsNormalized(Prepared(table)[i])
  {
    var n := NormalizeAll(table);
    forall i | 0 <= i < |Prepared(table)| ensures IsNormalized(Prepared(table)[i]) {
      var k :| 0 <= k < |n| && n[k] == Prepared(table)[i];
    }
  }

  function Min(a: int, b: int): int {
    if a < b then a else b
  }

  /** Growing a list by one element grows its prefix of length `n` by the same
      element while the list is shorter than `n`, and leaves it unchanged after. */
  lemma PrefixStep<T>(xs: seq<T>, x: T, n: nat)
    ensures (xs + [x])[..Min(n, |xs| + 1)] ==
      if |xs| + 1 <= n then xs[..Min(n, |xs|)] + [x] else xs[..Min(n, |xs|)]
  {
    if |xs| + 1 <= n {
      assert xs[..Min(n, |xs|)] == xs;
      assert (xs + [x])[..Min(n, |xs| + 1)] == xs + [x];
    }
  }

  /** One more error: its name is logged while fewer than ten were logged. */
  lemma LogStep(before: seq<string>, name: string, logged: seq<string>)
    requires logged == before[..Min(10, |before|)]
    ensures (before + [name])[..Min(10, |before| + 1)] ==
      if |before| + 1 <= 10 then logged + [name] else logged
  {
    PrefixStep(before, name, 10);
  }

  /** One turn of the validation loop keeps its three results in step with
      `Accepted` and `Rejected`. */
  lemma ValidateStep(rows: seq<RawInput>, i: nat, clean: seq<StartupClean>, errors: nat, logged: seq<string>)
    requires i < |rows|
    requires clean == Accepted(rows[..i])
    requires errors == |Rejected(rows[..i])|
    requires logged == Rejected(rows[..i])[..Min(10, errors)]
    ensures var res := CleanRow(rows[i]);
      && (res.Success? ==>
            && clean + [res.value] == Accepted(rows[..i + 1])
            && errors == |Rejected(rows[..i + 1])|
            && logged == Rejected(rows[..i + 1])[..Min(10, errors)])
      && (res.Failure? ==>
            && clean == Accepted(rows[..i + 1])
            && errors + 1 == |Rejected(rows[..i + 1])|
            && (if errors + 1 <= 10 then logged + [rows[i].name.GetOr("unknown")] else logged)
               == Rejected(rows[..i + 1])[..Min(10, errors + 1)])
  {
    AcceptedRejectedStep(rows, i);
    LogStep(Rejected(rows[..i]), rows[i].name.GetOr("unknown"), logged);
  }

  /** `clean_data`: normalise, drop duplicates, then validate row by row. */
  method CleanData(table: seq<RawInput>) returns (clean: seq<StartupClean>, errors: nat, logged: seq<string>)
    ensures clean == Accepted(Prepared(table))
    ensures errors == |Rejected(Prepared(table))|
    ensures logged == Rejected(Prepared(table))[..Min(10, errors)]
  {
    clean, errors, logged := ValidateRows(Prepared(table));
  }

  /** The validation loop of `clean_data`. It returns the clean records, the
      number of validation errors and the names logged for the first ten
      errors. */
  method ValidateRows(rows: seq<RawInput>) returns (clean: seq<StartupClean>, errors: nat, logged: seq<string>)
    ensures clean == Accepted(rows)
    ensures errors == |Rejected(rows)|
    ensures logged == Rejected(rows)[..Min(10, errors)]
  {
    clean := [];
    errors := 0;
    logged := [];
    var i := 0;
    while i < |rows|
      invariant 0 <= i <= |rows|
      invariant clean == Accepted(rows[..i])
      invariant errors == |Rejected(rows[..i])|
      invariant logged == Rejected(rows[..i])[..Min(10, errors)]
    {
      var res := CleanRow(rows[i]);
      ValidateStep(rows, i, clean, errors, logged);
      if res.Success? {
        clean := clean + [res.value];
      } else {
        errors := errors + 1;
        if errors <= 10 {
          logged := logged + [rows[i].name.GetOr("unknown")];
        }
      }
      i := i + 1;
    }
    assert rows[..i] == rows;
  }

  /** What the clean stage delivers: well-formed records only, and one record
      or one error per distinct key of the normalised table (so never more
      than the table has rows). */
  lemma CleanDataSpec(table: seq<RawInput>)
    ensures forall j :: 0 <= j < |Accepted(Prepared(table))| ==> WellFormed(Accepted(Prepared(table))[j])
    ensures |Accepted(Prepared(table))| + |Rejected(Prepared(table))|
      == |Stats.Distinct(Keys(NormalizeAll(table)))| <= |table|
  {
    var rows := Prepared(table);
    PreparedNormalized(table);
    AcceptedWellFormed(rows);
    AcceptedRejectedPartition(rows);
    DedupKeys(NormalizeAll(table));
  }
}
