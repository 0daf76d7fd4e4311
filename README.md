# MarketMind ETL core in Dafny

This project models the data core of MarketMind, a startup-market ETL pipeline
with a dashboard on top of it. The pipeline has three layers, and the model
covers the logic of each:

- **Raw layer** (`src/models/startup.py`). A raw startup record is validated
  field by field:
  - name and sector are required;
  - the three year fields must lie in [1900, 2030];
  - the counts and amounts must be non-negative.

  The clean record normalises its sector (strip, then title case) and its
  status (empty becomes `"unknown"`, otherwise strip, then lower case). The
  sector aggregate has its own field constraints.
- **Clean layer** (`src/pipeline/clean.py`, `clean_data`). This layer:
  - normalises the text columns;
  - drops duplicate (name, sector, founded year) rows, keeping the first;
  - derives the funding stage and the capital range;
  - validates every row through the raw model and then the clean model,
    counting the rows that fail and logging the names of the first ten.
- **Aggregated layer** (`src/pipeline/aggregate.py`, `aggregate_by_sector`).
  Each sector group is summarised into:
  - counts, funding sum, mean, median and mean rounds;
  - optional means of the time to first funding and of the employee count;
  - the founded-year span and the growth heuristic;
  - saturation and risk;
  - the top five countries and the capital-range histogram.

  A summary that fails validation is dropped.
- **Dashboard scoring** (`dashboard/app.py`). This covers:
  - the opportunity score and its CSS class;
  - the top-N selection of the find page;
  - for the evaluation page:
    - the four subscores, the weighted overall score and its label;
    - the factors that pull the score down;
    - the suggestions with their less-saturated and faster-growing
      alternatives.

## Modules

- **Wrappers**: `Option` and `Result`.
- **Text**: Python's `str.strip`, `str.lower` and `str.title` on characters.
- **Stats**: the data-frame statistics the pipeline relies on:
  - occurrence counts and distinct values in first-seen order;
  - frequency tables;
  - sum, mean and median (through a verified insertion sort), minimum and
    maximum;
  - means over optional samples.
- **Ranking**: `TopBy`, the selection of the k best elements by a score, the
  first one winning among equals. It stands for `value_counts().head(k)`,
  `nlargest` and `nsmallest`.
- **Startup**: the three record shapes, validation and the two field
  normalisers.
- **Clean**: `clean_data`.
- **Aggregate**: `aggregate_by_sector`.
- **Scoring**: the dashboard computations.

## How the model is built

The per-row and per-group computations are functions. The loops of the source
are methods with loop invariants, each proved equal to a specification
function:
- the validation loop of `clean_data` is `Clean.ValidateRows`;
- the group loop of `aggregate_by_sector` is `Aggregate.AggregateBySector`;
- the conditional appends that build the factor and suggestion lists are
  `Scoring.Factors` and `Scoring.AddSuggestions`.

The properties are proved about those specification functions.

A missing cell is `None`. In a numeric column pandas holds a missing cell as
NaN, and the model keeps NaN's behaviour where it decides a branch:
- `x or 0` keeps NaN, because NaN is truthy;
- NaN fails every comparison.

So a missing funding amount lands in the `"50M+"` capital range. A missing
round count gets the `"unknown"` funding stage when the total is not 0; with
a total of 0 the stage is `"pre-seed"`.

`clean_data` works on the table loaded from the raw collection, where a
missing text cell is Python `None`. `astype(str)` renders it as `"None"`,
which is not replaced, so a missing city stays `"None"` and a missing status
becomes `"none"` rather than `"unknown"`. A text cell holding a floating NaN
renders as `"nan"` and ends up `""`; the model writes it as `Some("nan")`.

### Where the declared defaults do not apply

`StartupClean` declares defaults for three fields
(`src/models/startup.py:40-41` and `:43`): `funding_rounds: int = 0`,
`total_funding: float = 0.0` and `status: str = "unknown"`. They never apply
in the pipeline. The code passes `raw_model.model_dump()` to the clean model
(`src/pipeline/clean.py:143-152`). That dump holds an explicit `None` for
each of the three fields, and none of them is optional in `StartupClean`.
Pydantic rejects an explicit `None`, so such a row is counted as a
validation error and is not given the default.
The model follows the code: see `Startup.BuildClean` and
`Clean.MissingFundingRejected`.

## Model

| member | source | states |
|---|---|---|
| `Text.StripIsStripped` | src/models/startup.py:57 | `strip` leaves no whitespace at either end |
| `Text.StripOfStripped` | src/models/startup.py:57 | `strip` leaves text without end whitespace unchanged |
| `Text.StripIdempotent` | src/pipeline/clean.py:54 | stripping twice is stripping once |
| `Text.StripCutsLeadingSpace` | src/pipeline/clean.py:54 | everything `strip` cuts from the front is whitespace |
| `Text.StripCutsTrailingSpace` | src/pipeline/clean.py:54 | everything `strip` cuts from the back is whitespace |
| `Text.StripIsSlice` | src/pipeline/clean.py:54 | the stripped text is a slice of the text with only whitespace cut off around it |
| `Text.StripFacts` | src/pipeline/clean.py:54 | the stripped text has no end whitespace, is such a slice, and is the text itself when that has no end whitespace |
| `Text.LowerSpec` | src/models/startup.py:64 | `lower` keeps the length, leaves no upper-case letter, changes only upper-case letters, and turns each into its lower-case letter (code point + 32) |
| `Text.LowerIdempotent` | src/pipeline/clean.py:64 | lower-casing twice is lower-casing once |
| `Text.LowerKeepsStripped` | src/models/startup.py:64 | lower-casing keeps text free of end whitespace |
| `Text.TitleSpec` | src/models/startup.py:57 | `title` keeps non-letters, keeps each letter up to case, and upper-cases a letter exactly when the character before it is not a letter |
| `Text.TitleOfLowerWord` | src/pipeline/clean.py:60 | the title case of a lower-case word capitalises its first letter only |
| `Text.TitleIdempotent` | src/pipeline/clean.py:60 | title-casing twice is title-casing once |
| `Text.TitleIgnoresCase` | src/pipeline/clean.py:60 | texts equal up to case have the same title form |
| `Text.TitleKeepsStripped` | src/models/startup.py:57 | title-casing keeps text free of end whitespace |
| `Stats.Count` | src/pipeline/aggregate.py:51-52 | the number of occurrences is at most the length, and positive exactly when the value occurs |
| `Stats.Distinct` | src/pipeline/aggregate.py:44 | the group keys: the same values as the input, without repetition, no more of them than inputs |
| `Stats.Histogram` | src/pipeline/aggregate.py:112 | `value_counts().to_dict()`: its keys are exactly the values, each mapped to its count, which lies between 1 and the number of values |
| `Stats.CountIsMultiplicity` | src/pipeline/aggregate.py:108 | the count of a value is its multiplicity in the column |
| `Stats.HistogramTotal` | src/pipeline/aggregate.py:112 | the counts of the frequency table add up to the number of values |
| `Stats.MeanWithin` | src/pipeline/aggregate.py:56 | the mean lies within any bounds that hold for every sample |
| `Stats.MeanTimesSize` | src/pipeline/aggregate.py:55-56 | the mean times the sample size is the sum |
| `Stats.Sort` | src/pipeline/aggregate.py:57 | the sorted sample is ordered and a permutation of the sample |
| `Stats.MedianWithin` | src/pipeline/aggregate.py:57 | the median lies within any bounds that hold for every sample |
| `Stats.MinOf` | src/pipeline/aggregate.py:76 | the minimum is one of the values and no value is smaller |
| `Stats.MaxOf` | src/pipeline/aggregate.py:77 | the maximum is one of the values and no value is larger |
| `Stats.Present` | src/pipeline/aggregate.py:75 | `dropna()`: exactly the values that are present, each as often as it occurs |
| `Stats.MeanOfPresent` | src/pipeline/aggregate.py:61-72 | a mean skipping missing samples is absent exactly when no sample is present, and otherwise the mean of the present samples |
| `Stats.MeanOfPresentWithin` | src/pipeline/aggregate.py:61-72 | that mean lies within any bounds that hold for every present sample |
| `Ranking.Where` | dashboard/app.py:469 | a boolean mask keeps exactly the elements that satisfy the predicate |
| `Ranking.WhereIsFilter` | dashboard/app.py:469 | the mask keeps each satisfying element exactly as often as the input holds it, and nothing else |
| `Ranking.ArgMaxIsBest` | dashboard/app.py:506 | the element picked has the largest score, and no earlier element scores as much |
| `Ranking.TopByPartition` | dashboard/app.py:506 | the selection and what it leaves make up the input, as a multiset |
| `Ranking.TopByOrdered` | dashboard/app.py:506 | the selection comes best score first |
| `Ranking.TopByDominates` | dashboard/app.py:506 | nothing left out scores higher than anything selected |
| `Ranking.TopBySelects` | dashboard/app.py:506 | the selection takes each element at most as often as the input holds it |
| `Ranking.TopBySpec` | dashboard/app.py:506 | at most k elements, all from the input, in non-increasing score, none left out scoring higher than one chosen |
| `Startup.ValidateRaw` | src/models/startup.py:8-31 | a raw record is accepted iff name and sector are given, years are absent or in [1900, 2030] and counts and amounts are absent or non-negative; an accepted record keeps all thirteen fields as given; a rejection reports an error |
| `Startup.YearBoundaries` | src/models/startup.py:26-31 | the year bounds 1900 and 2030 are inclusive and None passes |
| `Startup.NormalizeSectorOfNormalized` | src/models/startup.py:54-57 | the sector validator leaves a stripped, title-cased sector unchanged |
| `Startup.NormalizeStatusOfNormalized` | src/models/startup.py:59-64 | the status validator leaves a stripped, lower-case status unchanged, except that empty becomes "unknown"; the result is non-empty and lower-case |
| `Startup.NormalizeSectorExample` | src/models/startup.py:54-57 | "  technology  " becomes "Technology" |
| `Startup.NormalizeStatusExamples` | src/models/startup.py:59-64 | "  ACTIVE  " becomes "active" and "" becomes "unknown" |
| `Startup.BlankStatusIsEmpty` | src/models/startup.py:62-64 | a whitespace-only status becomes "", not "unknown", because the emptiness test comes before the strip |
| `Startup.NormalizeSectorIdempotent` | src/models/startup.py:54-57 | normalising a normalised sector changes nothing |
| `Startup.DefaultClean` | src/models/startup.py:34-52 | a clean record built from name and sector alone takes the declared defaults: 0 rounds, 0.0 funding, status, stage and range "unknown" |
| `Startup.BuildClean` | src/pipeline/clean.py:143-152 | the clean model accepts a validated record iff rounds, funding and status are present; the record then has the normalised sector and status, the two derived labels, and each of the other twelve fields passed through |
| `Startup.GrowthRateUnconstrained` | src/models/startup.py:82 | the growth rate has no constraint: aggregate validity does not depend on it |
| `Clean.NormalizeText` | src/pipeline/clean.py:51-56 | a normalised text cell is stripped and never "nan"; a missing (`None`) cell becomes "None"; any other cell becomes its strip (a slice with only whitespace cut around it and none left at its ends), except that "nan" becomes "" |
| `Clean.NormalizeTextExamples` | src/pipeline/clean.py:54-56 | a missing cell becomes "None" (a missing status so "none"), " nan " becomes "", " Berlin" becomes "Berlin" |
| `Clean.NormalizeRow` | src/pipeline/clean.py:49-65 | text normalisation leaves every numeric column as it was |
| `Clean.NormalizeRowIsNormalized` | src/pipeline/clean.py:49-65 | after normalisation every text cell is present and stripped, the sector title-cased and the status lower-cased |
| `Clean.SectorCaseVariantsAgree` | src/pipeline/clean.py:54-60 | sector spellings differing only in case and end whitespace normalise alike |
| `Clean.NormalizeAll` | src/pipeline/clean.py:49-65 | the table keeps its length; row i is row i of the table normalised, and comes out with all text cells present and stripped, sector title-cased and status lower-cased, and its numeric cells unchanged |
| `Clean.Dedup` | src/pipeline/clean.py:79 | de-duplication keeps at most as many rows, all from the table |
| `Clean.DedupKeys` | src/pipeline/clean.py:79 | the surviving keys are the distinct keys of the table in first-seen order |
| `Clean.DedupKeepsFirst` | src/pipeline/clean.py:79 | the row kept for a key is the first row with that key |
| `Clean.DedupOfDistinct` | src/pipeline/clean.py:79 | a table without duplicate keys is unchanged |
| `Clean.DedupIdempotent` | src/pipeline/clean.py:79 | removing duplicates twice removes nothing more |
| `Clean.FundingStage` | src/pipeline/clean.py:86-104 | "pre-seed" iff rounds or total is 0; "unknown" iff neither is 0 and the count is missing or negative |
| `Clean.FundingStageMonotone` | src/pipeline/clean.py:91-100 | with a non-zero total, the stage rank is min(rounds, 4) and grows with the rounds |
| `Clean.CapitalRange` | src/pipeline/clean.py:106-121 | "0-0" iff the total is 0; "50M+" iff it is missing or at least 50M |
| `Clean.CapitalRangeMonotone` | src/pipeline/clean.py:110-119 | a larger positive total never lands in a lower range |
| `Clean.CapitalRangeBoundaries` | src/pipeline/clean.py:112-119 | the upper bounds 1M, 10M and 50M are exclusive |
| `Clean.CleanRow` | src/pipeline/clean.py:128-153 | a row validates iff the raw model accepts it and rounds, funding and status are present |
| `Clean.MissingFundingRejected` | src/pipeline/clean.py:140-152 | a row without rounds or funding is a validation error |
| `Clean.CleanRowWellFormed` | src/pipeline/clean.py:128-153 | a normalised row that validates gives a well-formed record with its own sector and status |
| `Clean.AcceptedRejectedPartition` | src/pipeline/clean.py:128-157 | every row is either kept or counted as an error |
| `Clean.AcceptedWellFormed` | src/pipeline/clean.py:128-153 | every record kept from normalised rows is well-formed |
| `Clean.PreparedNormalized` | src/pipeline/clean.py:49-79 | every row reaching validation is normalised |
| `Clean.ValidateRows` | src/pipeline/clean.py:123-159 | the loop returns the accepted records, the number of failures and the names of the first ten failures |
| `Clean.CleanData` | src/pipeline/clean.py:36-169 | `clean_data` is validation of the normalised, de-duplicated table |
| `Clean.CleanDataSpec` | src/pipeline/clean.py:36-169 | every record is well-formed, and records plus errors equal the distinct keys, never more than the table |
| `Aggregate.Group` | src/pipeline/aggregate.py:44-48 | a group holds only records of its sector, all from the table |
| `Aggregate.GroupIsFilter` | src/pipeline/aggregate.py:44-48 | a group holds each record of its sector exactly as often as the table does, and no other record |
| `Aggregate.GroupSize` | src/pipeline/aggregate.py:50 | a group's size is the number of records of its sector |
| `Aggregate.MaxGroupSize` | src/pipeline/aggregate.py:100 | the largest size bounds every group and is reached by one |
| `Aggregate.LargestGroupBounds` | src/pipeline/aggregate.py:100 | no group exceeds the largest, which is positive for a non-empty table |
| `Aggregate.Summarise` | src/pipeline/aggregate.py:114-134 | the summary carries its group's sector |
| `Aggregate.AggregateOf` | src/pipeline/aggregate.py:48-134 | the aggregate of a sector carries that sector |
| `Aggregate.AggregateFields` | src/pipeline/aggregate.py:48-134 | each field of a sector's aggregate is the corresponding statistic of the sector's group, the total being the sector's record count, with 0 and None for an empty group |
| `Aggregate.OptionalAverages` | src/pipeline/aggregate.py:60-72 | for absent-or-non-negative inputs the average employee count and time to first funding are absent iff no record of the sector has one, and non-negative otherwise |
| `Aggregate.GroupAverages` | src/pipeline/aggregate.py:60-72 | the same two facts about a group |
| `Aggregate.YearsOfSpan` | src/pipeline/aggregate.py:80-84 | a span of more than one year has at least two observed years |
| `Aggregate.GrowthOf` | src/pipeline/aggregate.py:79-96 | the growth block computes `GrowthRate` |
| `Aggregate.GrowthBetween` | src/pipeline/aggregate.py:80-96 | branch by branch, the growth block computes the growth for the given bounds |
| `Aggregate.RecentGrowth` | src/pipeline/aggregate.py:85-90 | the relative change over the last three years of the span |
| `Aggregate.AggregateBySector` | src/pipeline/aggregate.py:35-146 | the loop yields the aggregates of the sectors that pass validation, in group order |
| `Aggregate.SummariseGroup` | src/pipeline/aggregate.py:48-134 | the loop body computes the sector's aggregate |
| `Aggregate.KeepSpec` | src/pipeline/aggregate.py:136-141 | validation keeps exactly the valid aggregates |
| `Aggregate.KeepDistinct` | src/pipeline/aggregate.py:136-141 | validation keeps sectors distinct |
| `Aggregate.KeepAllValid` | src/pipeline/aggregate.py:136-141 | nothing is dropped when all are valid |
| `Aggregate.KeptSectors` | src/pipeline/aggregate.py:136-141 | a sector is output iff one of its aggregates is valid |
| `Aggregate.AggregateBySectorSpec` | src/pipeline/aggregate.py:35-146 | one aggregate per sector, each that sector's own, and a sector is missing iff its aggregate fails validation |
| `Aggregate.StatusCountsWithinGroup` | src/pipeline/aggregate.py:50-52 | active plus closed is at most the group size |
| `Aggregate.RiskInRange` | src/pipeline/aggregate.py:103-105 | risk lies in [0, 1] and is closed/total |
| `Aggregate.SaturationInRange` | src/pipeline/aggregate.py:100-101 | saturation lies in [0, 1], is positive for a non-empty group and 1 for the largest |
| `Aggregate.GroupFundingFacts` | src/pipeline/aggregate.py:54-58 | sum, mean, median and mean rounds are non-negative for non-negative inputs |
| `Aggregate.AverageSpreadsTotal` | src/pipeline/aggregate.py:55-56 | the mean amount times the group size is the total |
| `Aggregate.SummariseValid` | src/pipeline/aggregate.py:114-138 | the summary of a group of non-negative funding is valid, with consistent counts |
| `Aggregate.AggregateCounts` | src/pipeline/aggregate.py:50-52 | the total is the sector's record count; active plus closed fits within it |
| `Aggregate.SaturationFacts` | src/pipeline/aggregate.py:98-105 | saturation and risk lie in [0, 1]; saturation is positive for a present sector and 1 for the largest |
| `Aggregate.FundingFacts` | src/pipeline/aggregate.py:54-58 | the aggregate is valid, its total is the group's sum, its mean the group's mean, and its median within any bounds on the amounts |
| `Aggregate.NoSectorDropped` | src/pipeline/aggregate.py:136-141 | with non-negative funding no aggregate fails validation |
| `Aggregate.CleanTableKeepsEverySector` | src/pipeline/aggregate.py:136-141 | the output of the clean stage loses no sector in aggregation |
| `Aggregate.YearBoundsAbsent` | src/pipeline/aggregate.py:74-77 | the year bounds are absent iff no record has a founded year |
| `Aggregate.YearBoundsPresent` | src/pipeline/aggregate.py:74-77 | otherwise they are years present and bound every year |
| `Aggregate.GrowthFacts` | src/pipeline/aggregate.py:79-96 | growth is above -1 and non-zero only for a span of several years |
| `Aggregate.TopCountriesFacts` | src/pipeline/aggregate.py:107-109 | min(5, number of distinct present countries) countries, most frequent first, none left out more frequent than one listed; each frequency is the number of records with that country |
| `Aggregate.CapitalDistributionFacts` | src/pipeline/aggregate.py:111-112 | the keys are the ranges present, the counts are exact, and they add up to the group size |
| `Scoring.Clamp` | dashboard/app.py:338 | the result lies in [lo, hi] and equals the input inside, the nearer bound outside |
| `Scoring.GrowthPoints` | dashboard/app.py:338 | the growth part lies in [0, 3] |
| `Scoring.OpportunityScore` | dashboard/app.py:328-344 | the ranking score lies in [0, 10] |
| `Scoring.GrowthPointsFacts` | dashboard/app.py:338 | the growth part is 1.5 for a flat sector, 0 at -10% and below, 3 at +10% and above |
| `Scoring.GrowthPointsMonotone` | dashboard/app.py:338 | faster growth never earns fewer points |
| `Scoring.ActiveRatioInRange` | dashboard/app.py:340 | the active share lies in [0, 1] |
| `Scoring.OpportunityUnclamped` | dashboard/app.py:336-344 | for a valid aggregate the clamp never applies |
| `Scoring.OpportunityExample` | dashboard/app.py:336-344 | a worked case scores 7.35 |
| `Scoring.OpportunityMonotone` | dashboard/app.py:336-344 | a better sector on every part never ranks lower |
| `Scoring.ScoreClass` | dashboard/app.py:347-354 | one of the three classes |
| `Scoring.ScoreClassBands` | dashboard/app.py:347-354 | high iff the score is at least 7, medium iff in [4, 7), low iff below 4; monotone |
| `Scoring.ResultCountIsMinFive` | dashboard/app.py:502-506 | the number of recommendations is min(5, n) |
| `Scoring.Candidates` | dashboard/app.py:465-469 | the candidates are the table's rows of the chosen industry (all rows without one), each exactly as often as in the table |
| `Scoring.RecommendSpec` | dashboard/app.py:464-506 | min(5, n) of the n candidates, each at most as often as it is a candidate, best score first, none left out scoring higher |
| `Scoring.GrowthSub` | dashboard/app.py:632 | the growth subscore lies in [0, 10] |
| `Scoring.CapitalSub` | dashboard/app.py:635-645 | the capital subscore is one of 2, 4, 5, 7, 10 |
| `Scoring.GrowthSubFacts` | dashboard/app.py:632 | 0 at -20% and below, 5 when flat, 10 at +20% and above; monotone |
| `Scoring.CapitalSubBands` | dashboard/app.py:636-645 | with an average of at least 1000: 10 iff capital >= average, 7 iff in [half, average), 4 iff in [a fifth, half), 2 below a fifth |
| `Scoring.CapitalSubBoundaries` | dashboard/app.py:636-645 | the thresholds are inclusive; an average under 1000 is neutral |
| `Scoring.CapitalSubMonotone` | dashboard/app.py:636-645 | without data the subscore is 5; otherwise more capital never lowers it |
| `Scoring.OverallInRange` | dashboard/app.py:629-656 | every subscore and the overall score lie in [0, 10] |
| `Scoring.LabelBands` | dashboard/app.py:667 | excellent iff the score is at least 7, good iff in [5, 7), challenging iff below 5 |
| `Scoring.Factors` | dashboard/app.py:706-718 | the appends build `FactorsOf` |
| `Scoring.FactorsListed` | dashboard/app.py:706-721 | each factor is listed iff its subscore is below 5; none iff all subscores are at least 5 |
| `Scoring.FactorsOrdered` | dashboard/app.py:706-718 | the factors appear once each, in subscore order |
| `Scoring.AddSuggestions` | dashboard/app.py:728-748 | the appends build `Assemble` |
| `Scoring.Suggestions` | dashboard/app.py:728-748 | the suggestion list is `SuggestionsOf` |
| `Scoring.SuggestionsSpec` | dashboard/app.py:728-748 | one to three suggestions, each kind iff its condition, fallback alone iff none applies, in page order |
| `Scoring.LessSaturatedSpec` | dashboard/app.py:730-735 | of the n rows strictly less saturated (each as often as in the table), min(2, n) are named, none more often than it qualifies, least saturated first, none left out less saturated |
| `Scoring.LessSaturatedOrder` | dashboard/app.py:730-735 | the named rows qualify, come least saturated first, and none left out is less saturated |
| `Scoring.FasterGrowingSpec` | dashboard/app.py:740-745 | of the n rows growing strictly faster (each as often as in the table), min(2, n) are named, none more often than it qualifies, fastest first, none left out faster |
| `Scoring.FasterGrowingOrder` | dashboard/app.py:740-745 | the named rows qualify, come fastest first, and none left out grows faster |
| `Scoring.SectorRow` | dashboard/app.py:624 | the first aggregate of the sector: absent iff the table has none, otherwise a row of that sector with no row of that sector before it |
| `Scoring.EvaluateIdea` | dashboard/app.py:620-748 | the page shows the subscores, overall score, class, label, factors and suggestions of the sector's first row |

## Left out

- Database I/O is not modelled: loading and saving collections, creating
  indexes, showing collection information and the `main` functions. Log
  messages are modelled only as the list of logged names.
- `last_funding_date` is not modelled. Its date parsing has no influence on
  any other field.
- `pd.to_numeric(errors="coerce")` is not modelled. A value that does not
  parse is given to the model as a missing one.
- Pydantic type coercion is not modelled, nor are type errors on non-text
  names.
- Numbers are mathematical reals and integers. Floating-point rounding and
  NaN arithmetic are not modelled beyond the branch behaviour described
  above.
- Case mapping is ASCII only: Unicode case folding in `lower` and `title`
  is not modelled. Whitespace for `strip` is Python's full `str.isspace`
  set.
- Group order follows first appearance; pandas `groupby` sorts the keys. The
  set of aggregates and each one's contents do not depend on that order.
- `value_counts` ties go to the value met first. pandas leaves the order of
  equal counts unspecified.
- `Scoring.Recommend`: the soft re-weighting by risk appetite and by capital
  preference (`dashboard/app.py:476-499`) is not modelled. The ranking uses
  the unadjusted opportunity score.
- Display-only parts of the dashboard are not modelled:
  - the reasons list of the find page and the score bars;
  - the message texts of factors and suggestions. Factors are an enumeration;
    suggestions carry the sector names and the capital target.
- The "alternative sectors" table (`dashboard/app.py:753` onward) is not
  modelled.
- `Scoring.EvaluateIdea` returns `None` where `iloc[0]` on an empty
  selection raises an `IndexError`.
- `Aggregate.Summarise`: its own ensures states only the sector. The field
  values are stated by `AggregateFields` for `AggregateOf`, and their
  properties by `SummariseValid`, `AggregateCounts`, `SaturationFacts`,
  `FundingFacts`, `OptionalAverages`, `GrowthFacts`, `TopCountriesFacts` and
  `CapitalDistributionFacts`.
