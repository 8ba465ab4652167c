# Mental-health service gap analysis: a verified model

This project models, in Dafny, the deterministic rules inside a university
mental-health analytics pipeline. The pipeline generates sample appointment
data, cleans and enriches it in a Spark ETL job, uploads files to Google Cloud
Storage, and scores the aggregates for service gaps. The model keeps the rules
and drops the cloud and plotting plumbing around them. Aggregate rows that
came from SQL queries are inputs here. Numbers are `real`.

Modules, one file each:

- `Wrappers` (wrappers.dfy): `Option`.
- `Counting` (counting.dfy): the set of positions of a sequence whose
  element satisfies a predicate, the count behind `len(df[mask])`.
- `Text` (text.dfy): decimal rendering of naturals, `str.zfill`, `str.lstrip`
  of one character, and splitting on a separator.
- `Sorting` (sorting.dfy): a stable insertion sort by a real key. It stands
  for the ordering in `sorted`, in pandas' quantile and in Spark's window.
- `Calendar` (calendar.dfy): dates as day numbers, Spark's `dayofweek`
  (1 = Sunday … 7 = Saturday) and `datediff`.
- `Quantile` (quantile.dfy): pandas' `quantile(0.75)` with linear
  interpolation, and what it implies for a value above it.
- `GapScoring` (gap_scoring.dfy): the row-wise formulas of the five
  analyses. These are the gap classifier, the day map, the peak flag, the
  right-closed adequacy bins, the equity score, the inner join and the
  staffing projection.
- `ServiceGapAnalysis` (service_gap_analysis.dfy): the class
  `ServiceGapAnalyzer`. Its `results` map is updated by each analysis.
  `GenerateRecommendations` builds its list step by step and stores it.
- `SparkEtl` (spark_etl.dfy): `transform_data` as functions over a sequence
  of nullable records. It covers null filtering, de-duplication, the calendar
  columns, `service_category`, the per-student window (`row_number`, `lag`,
  `datediff`) and the high-risk flag. Spark's three-valued `when` conditions
  are written out.
- `SampleData` (sample_data.dfy): the class `SampleDataGenerator`.
  - Identifiers are zero-padded.
  - `generate_appointments` is an imperative loop that appends records and
    reads the last record's counselor.
  - Every random outcome is an oracle value supplied by the caller.
- `GcsIngestion` (gcs_ingestion.dfy): blob names, `gs://` URIs, BigQuery
  dataset and table references, and the accumulation loop of
  `upload_directory` in the class `GcpDataIngestion`.

The staffing projection follows the code. The number of additional
counselors is `ceil(current × (avg_wait / 3 − 1))` with no floor at zero, so
a category that already waits less than three days gets a negative number:
nothing clamps the value at zero.

## Model

| member | source | states |
|---|---|---|
| Text.NatToDecimal | src/data_generation/generate_sample_data.py:46 | `str(i)`: nonempty, all digits, no leading zero for a positive number |
| Text.DecimalRoundTrip | src/data_generation/generate_sample_data.py:46 | reading back the decimal text of `i` gives `i` |
| Text.ZFill | src/data_generation/generate_sample_data.py:46-50 | `zfill(width)` is the text padded on the left with zeros to at least `width`; the original text is kept whole as the suffix, never truncated |
| Text.ZFillKeepsValue | src/data_generation/generate_sample_data.py:46-50 | zero padding keeps the text all digits and keeps its numeric value |
| Text.LeadingZerosKeepValue | src/data_generation/generate_sample_data.py:46 | leading zeros do not change a decimal value |
| Text.IntToString | src/analysis/service_gap_analysis.py:362 | the f-string's integer text: for a non-negative count, digits whose decimal value is the count; for a negative one, '-' then digits whose value is its magnitude; no leading zero unless the count is 0 |
| Text.LStrip | src/data_ingestion/upload_to_gcs.py:110 | `lstrip(c)`: the result is no longer than the input and does not start with `c` |
| Text.LStripDropsOnly | src/data_ingestion/upload_to_gcs.py:110 | `lstrip(c)` removes only a prefix, and that prefix is made of `c` only |
| Text.Split | src/data_ingestion/upload_to_gcs.py:200 | splitting on `c` gives at least one part, and no part contains `c` |
| Sorting.SortBy | src/processing/spark_etl.py:114 | the result is a permutation of the input, ordered by the key |
| Sorting.PermutationKeepsDistinct | src/processing/spark_etl.py:114-117 | reordering a duplicate-free sequence keeps it duplicate-free |
| Calendar.DayOfWeek | src/processing/spark_etl.py:101 | `dayofweek` lies in 1..7; it is 1 (Sunday) exactly on the days seven apart from 1970-01-04 and 7 (Saturday) exactly on the days seven apart from 1970-01-03 |
| Calendar.EpochIsDayZero | src/processing/spark_etl.py:101 | 1970-01-01 is day 0, and 1970-01-04 has day of week 1 (Sunday) |
| Calendar.NextDayNumber | src/processing/spark_etl.py:101 | the day after a valid date is valid, one day number later, and one day apart by `datediff` |
| Calendar.NextWeekday | src/processing/spark_etl.py:101 | the day after a valid date has the next `dayofweek`, Saturday (7) wrapping to Sunday (1) |
| Calendar.DateDiff | src/processing/spark_etl.py:122 | `datediff` of a date with itself is 0 |
| Calendar.DateDiffAdds | src/processing/spark_etl.py:122 | `datediff` adds up along a chain of dates |
| Quantile.Ascending | src/analysis/service_gap_analysis.py:127 | the column sorted: a permutation, in ascending order |
| Quantile.QuantileBetween | src/analysis/service_gap_analysis.py:127 | the interpolated 0.75 quantile lies between the order statistics at ranks ⌊0.75(n−1)⌋ and the next one |
| Quantile.QuantileOfConstant | src/analysis/service_gap_analysis.py:127 | the quantile of a constant column is that constant |
| Quantile.AboveQuantileBound | src/analysis/service_gap_analysis.py:127-128 | at most n − 1 − ⌊0.75(n−1)⌋ values lie strictly above the quantile |
| Quantile.RaisingKeepsAbove | src/analysis/service_gap_analysis.py:127-128 | raising a value that is above the quantile keeps it above the new quantile |
| Quantile.OrderStatistic | src/analysis/service_gap_analysis.py:127 | in an ascending column, the `j`-th value is at most `c` iff more than `j` values are at most `c` |
| Quantile.Quantile75 | src/analysis/service_gap_analysis.py:127 | the 0.75 quantile lies between the column minimum and maximum |
| Quantile.CountAtMostUpdate | src/analysis/service_gap_analysis.py:127-128 | replacing one value changes the count of values at most `c` only by that position's contribution |
| GapScoring.UtilizationRate | src/analysis/service_gap_analysis.py:75 | the rate is non-negative and times the number of unique students gives the number of visits |
| GapScoring.ClassifyGap | src/analysis/service_gap_analysis.py:78-86 | High Gap iff wait > 7 or utilization < 2; Moderate Gap iff not that and (wait > 3 or utilization < 3); Adequate iff wait ≤ 3 and utilization ≥ 3 |
| GapScoring.SeverityMonotone | src/analysis/service_gap_analysis.py:78-86 | a longer wait or a lower utilization never gives a milder label |
| GapScoring.ScoreDemographics | src/analysis/service_gap_analysis.py:75-86 | one scored row per input row, each keeping its input, with its rate and its label as above |
| GapScoring.CountHighGap | src/analysis/service_gap_analysis.py:312-316 | the count is the number of positions labelled High Gap, so it is positive iff some row is |
| GapScoring.DayName | src/analysis/service_gap_analysis.py:119-121 | the map is defined exactly on 1..7, with 1 Sunday and 7 Saturday |
| GapScoring.DayNameInjective | src/analysis/service_gap_analysis.py:119-121 | different days get different names |
| GapScoring.DemandColumn | src/analysis/service_gap_analysis.py:124 | one appointments-per-counselor value per row |
| GapScoring.PeakFlags | src/analysis/service_gap_analysis.py:127-128 | a row is flagged iff its value is strictly above the interpolated 0.75 quantile of the column |
| GapScoring.CountTrueIsCountAbove | src/analysis/service_gap_analysis.py:128 | the number of flags equals the number of values above the threshold |
| GapScoring.NoPeakWhenUniform | src/analysis/service_gap_analysis.py:127-128 | when all values are equal, no row is flagged |
| GapScoring.PeakShareBound | src/analysis/service_gap_analysis.py:127-128 | at most n − 1 − ⌊0.75(n−1)⌋ rows are flagged, so never all of them |
| GapScoring.PeakStaysWhenRaised | src/analysis/service_gap_analysis.py:127-128 | raising a flagged row's value, the others fixed, keeps it flagged |
| GapScoring.ScoreTemporal | src/analysis/service_gap_analysis.py:119-128 | each row keeps its input and gets its day name, its demand per counselor and its peak flag |
| GapScoring.CountPeak | src/analysis/service_gap_analysis.py:327-331 | the count is the number of positions with peak demand, so it is positive iff some row has it |
| GapScoring.ExtendedWaitCount | src/analysis/service_gap_analysis.py:146 | counts a subset of the rows (at most all of them), and is positive iff some wait exceeds 7 days |
| GapScoring.PctExtendedWait | src/analysis/service_gap_analysis.py:155 | the percentage is non-negative, at most 100 when the count is at most the demand, and 0 iff the count is 0 |
| GapScoring.PctExtendedWaitOfGroup | src/analysis/service_gap_analysis.py:146-155 | for counts taken from the rows themselves the percentage lies in [0, 100] |
| GapScoring.Cut | src/analysis/service_gap_analysis.py:159-163 | `pd.cut` with right-closed bins: a bin is returned only if the value lies in (edge, next edge], and none is returned only if it lies in no bin |
| GapScoring.CutCovers | src/analysis/service_gap_analysis.py:159-163 | with ascending edges a value gets a bin iff it lies in (first edge, last edge] |
| GapScoring.AdequacyRating | src/analysis/service_gap_analysis.py:159-163 | (0,10] Excellent, (10,25] Good, (25,50] Needs Improvement, (50,100] Critical, and no label for 0 or less or above 100 |
| GapScoring.AdequacyBoundaries | src/analysis/service_gap_analysis.py:161 | 0 gets no label; 10, 25 and 50 fall in the lower bin; 100 is Critical |
| GapScoring.SomeExtendedWaitIsRated | src/analysis/service_gap_analysis.py:146-163 | a group with at least one extended wait always gets a label |
| GapScoring.ScoreServiceTypeRow | src/analysis/service_gap_analysis.py:155-163 | the row keeps its input; the percentage is extended waits over demand times 100, the rating is the `pd.cut` label of that percentage, and demand per counselor is demand over counselors; Critical iff the percentage is in (50, 100]; for a consistent row, no label iff no extended wait |
| GapScoring.CriticalWhenMostWaitLong | src/analysis/service_gap_analysis.py:155-163 | for a consistent row, Critical iff more than half of the demand waited over 7 days |
| GapScoring.ScoreServiceTypes | src/analysis/service_gap_analysis.py:155-163 | one scored row per input row |
| GapScoring.CountCritical | src/analysis/service_gap_analysis.py:342-346 | the count is the number of positions rated Critical, so it is positive iff some row is |
| GapScoring.MeanOfConstant | src/analysis/service_gap_analysis.py:212-213 | the unweighted mean of a constant column is that constant |
| GapScoring.EquityRow | src/analysis/service_gap_analysis.py:215-220 | the visit ratio is visits over the mean visits, the wait ratio is the mean wait over the wait; the score is their average; underserved iff the score is below 0.7, that is iff the ratios sum below 1.4; a row equal to both means scores 1.0 and is not underserved |
| GapScoring.ScoreEquity | src/analysis/service_gap_analysis.py:212-220 | each row is scored against the unweighted means of the visit and wait columns |
| GapScoring.VisitRatiosSumToCount | src/analysis/service_gap_analysis.py:212-215 | the visit ratios against the unweighted mean sum to the number of rows |
| GapScoring.UniformIsNotUnderserved | src/analysis/service_gap_analysis.py:212-220 | when all groups have the same visits and wait, none is underserved |
| GapScoring.MergeMembers | src/analysis/service_gap_analysis.py:270 | the inner join pairs exactly the capacity and wait rows that share a service category |
| GapScoring.MergeKeepsStaffed | src/analysis/service_gap_analysis.py:270-284 | every joined row has a nonzero counselor count |
| GapScoring.Merge | src/analysis/service_gap_analysis.py:270 | every joined pair is a capacity row and a wait row of the same service category |
| GapScoring.Ceil | src/analysis/service_gap_analysis.py:278 | `ceil(x)` is the least integer at or above `x` |
| GapScoring.AdditionalCounselors | src/analysis/service_gap_analysis.py:274-280 | the projection is the least integer at or above current × (wait / 3 − 1), with no floor at 0 |
| GapScoring.AdditionalAtOrBelowTarget | src/analysis/service_gap_analysis.py:274-280 | at or below a 3-day wait the projection is at most 0, and exactly 0 at 3 days |
| GapScoring.AdditionalPositiveIffLongWait | src/analysis/service_gap_analysis.py:274-280 | with staff on hand, the projection is positive iff the wait is above 3 days |
| GapScoring.PctIncrease | src/analysis/service_gap_analysis.py:280 | the percentage times the current staff is 100 times the projection; positive iff the projection is, and 0 iff it is 0 |
| GapScoring.FourCounselorsNineDays | src/analysis/service_gap_analysis.py:274-285 | 4 counselors at a 9-day wait need 8 more, a 200% increase |
| GapScoring.ResourceRow | src/analysis/service_gap_analysis.py:277-285 | the row keeps its inputs; appointments and hours (minutes over 60) per counselor; the wait reduction factor is the wait over 3 days, so it exceeds 1 iff the wait does; it carries the projection and the percentage increase |
| GapScoring.ScoreResources | src/analysis/service_gap_analysis.py:270-285 | one resource row per joined pair |
| GapScoring.TotalAdditional | src/analysis/service_gap_analysis.py:357 | the sum of the projections: at most 0 when no row needs staff, at least 0 when every row needs some |
| GapScoring.TotalAdditionalAppend | src/analysis/service_gap_analysis.py:357 | the sum over joined tables is the sum of their sums |
| ServiceGapAnalysis.KeyTextInjective | src/analysis/service_gap_analysis.py:374 | the six result keys are different dictionary keys |
| ServiceGapAnalysis.Recommendation.Issue | src/analysis/service_gap_analysis.py:316-362 | the issue text carries the decimal of its count, followed by a space, at the start (after "Overall capacity shortage of " for Staffing) |
| ServiceGapAnalysis.IssueStatesCount | src/analysis/service_gap_analysis.py:316-362 | a non-negative count can be read back from the issue text as the digits before the next space |
| ServiceGapAnalysis.DemographicPart | src/analysis/service_gap_analysis.py:311-323 | a HIGH Demographic Gaps record is emitted iff the table is present and has a High Gap row, and its count is the number of High Gap rows |
| ServiceGapAnalysis.SchedulingPart | src/analysis/service_gap_analysis.py:326-338 | a HIGH Scheduling Optimization record is emitted iff the table is present and has a peak row, and its count is the number of peak rows |
| ServiceGapAnalysis.CapacityPart | src/analysis/service_gap_analysis.py:341-353 | a CRITICAL Service Capacity record is emitted iff the table is present and has a Critical row, and its count is the number of Critical rows |
| ServiceGapAnalysis.StaffingPart | src/analysis/service_gap_analysis.py:356-365 | a HIGH Staffing record is emitted iff resource needs are present, whatever their total, and its count is the sum of the projected additional counselors |
| ServiceGapAnalysis.Recommendations | src/analysis/service_gap_analysis.py:308-365 | at most four records in the fixed category order; only Service Capacity is CRITICAL; each category appears under exactly its condition |
| ServiceGapAnalysis.PartsCombine | src/analysis/service_gap_analysis.py:308-365 | the four parts concatenated keep the order, the priorities and each category's presence |
| ServiceGapAnalysis.CategoriesOfParts | src/analysis/service_gap_analysis.py:308-365 | the categories present are exactly those of the nonempty parts |
| ServiceGapAnalysis.RecommendationsIgnoreOwnEntry | src/analysis/service_gap_analysis.py:374 | storing the recommendations does not change what recommendations the results call for |
| ServiceGapAnalysis.StaffingIsLast | src/analysis/service_gap_analysis.py:356-365 | with resource needs present, the last record is Staffing with their summed total |
| ServiceGapAnalysis.CriticalTextOnlyForCapacity | src/analysis/service_gap_analysis.py:316-362 | a record's priority text is "CRITICAL" iff it is the Service Capacity record, and "HIGH" iff it is any other |
| ServiceGapAnalysis.CategoryTextInjective | src/analysis/service_gap_analysis.py:316-362 | the four category texts are different strings |
| ServiceGapAnalysis.ServiceGapAnalyzer.constructor | src/analysis/service_gap_analysis.py:29-37 | starts with an empty results dictionary |
| ServiceGapAnalysis.ServiceGapAnalyzer.AnalyzeDemographicGaps | src/analysis/service_gap_analysis.py:75-88 | returns the scored table and stores it under its key; no other entry changes |
| ServiceGapAnalysis.ServiceGapAnalyzer.AnalyzeTemporalGaps | src/analysis/service_gap_analysis.py:119-130 | returns the scored table and stores it under its key; no other entry changes |
| ServiceGapAnalysis.ServiceGapAnalyzer.AnalyzeServiceTypeGaps | src/analysis/service_gap_analysis.py:155-165 | returns the scored table and stores it under its key; no other entry changes |
| ServiceGapAnalysis.ServiceGapAnalyzer.IdentifyUnderservedPopulations | src/analysis/service_gap_analysis.py:212-222 | returns the scored table and stores it under its key; no other entry changes |
| ServiceGapAnalysis.ServiceGapAnalyzer.CalculateResourceNeeds | src/analysis/service_gap_analysis.py:250-287 | returns the joined, projected table and stores it under its key; no other entry changes |
| ServiceGapAnalysis.ServiceGapAnalyzer.GenerateRecommendations | src/analysis/service_gap_analysis.py:302-376 | the list built step by step equals the recommendations the stored tables call for; only the recommendations entry is added or overwritten |
| ServiceGapAnalysis.ServiceGapAnalyzer.RunCompleteAnalysis | src/analysis/service_gap_analysis.py:387-405 | all six entries are stored, each table is its analysis of the inputs, the stored recommendations are the ones those tables call for, and the last one is Staffing |
| SparkEtl.ServiceCategory | src/processing/spark_etl.py:105-111 | Counseling, Crisis and Group iff the type is in their lists; Other iff the type is null or in none of them |
| SparkEtl.UnlistedTypesAreOther | src/processing/spark_etl.py:105-111 | null, "Assessment" and "Follow-up" map to Other |
| SparkEtl.CategoryTextInjective | src/processing/spark_etl.py:105-111 | the four `service_category` labels are different strings |
| SparkEtl.IsWeekend | src/processing/spark_etl.py:102 | true iff the day of week is 1 or 7, never null |
| SparkEtl.HighRisk | src/processing/spark_etl.py:127-133 | true iff the wait exceeds 14, or the category is Crisis, or no-show is true; a null comparison counts as false |
| SparkEtl.DropNullKeys | src/processing/spark_etl.py:93-94 | keeps exactly the input records whose student id and date are not null |
| SparkEtl.Dedup | src/processing/spark_etl.py:95 | no two kept records share (student, date, service type); every kept record is an input record; the set of keys is unchanged |
| SparkEtl.KeysOfAppend | src/processing/spark_etl.py:95 | appending a record adds exactly its key to the key set |
| SparkEtl.Clean | src/processing/spark_etl.py:93-95 | no null student id or date, no repeated key, only input records, and every key of a non-null input record survives |
| SparkEtl.Positions | src/processing/spark_etl.py:114 | the positions of a student's partition, each once |
| SparkEtl.VisitOrder | src/processing/spark_etl.py:114 | the student's partition, each record once, in ascending date order |
| SparkEtl.IndexOf | src/processing/spark_etl.py:117 | the first position of a value in a sequence |
| SparkEtl.VisitIndex | src/processing/spark_etl.py:117 | the record's place in its student's date order |
| SparkEtl.Window | src/processing/spark_etl.py:114-124 | the visit number is the record's place in its student's date order, counted from 1; `prev_visit_date` is null exactly on the first visit, and `days_since_last_visit` is null exactly when it is |
| SparkEtl.PreviousVisit | src/processing/spark_etl.py:118 | a later visit's lagged record is the same student's visit numbered one less, on an earlier or equal day, and the `prev_visit_date` column holds exactly that record's date |
| SparkEtl.EnrichRow | src/processing/spark_etl.py:98-133 | the original record unchanged, with its year and month, its `dayofweek`, the weekend flag, its service category, the high-risk flag and the window columns it gets |
| SparkEtl.Transform | src/processing/spark_etl.py:93-133 | one enriched row per cleaned record; each keeps an input record whose keys are not null, and only columns are added |
| SparkEtl.VisitNumberRange | src/processing/spark_etl.py:117 | a visit number lies between 1 and the student's number of records |
| SparkEtl.VisitNumbersDistinct | src/processing/spark_etl.py:117 | two records of one student get different visit numbers |
| SparkEtl.VisitNumbersCovered | src/processing/spark_etl.py:117 | every number from 1 to the student's record count is used |
| SparkEtl.VisitNumbersFollowDates | src/processing/spark_etl.py:114-117 | a lower visit number never has a later date, and an earlier date always has a lower number |
| SparkEtl.DaysSinceLastVisit | src/processing/spark_etl.py:118-124 | `prev_visit_date` and `days_since_last_visit` are null exactly on the first visit; otherwise `prev_visit_date` is the date of the student's visit numbered one less and the day difference is taken to it, so never negative |
| SampleData.PaddedId | src/data_generation/generate_sample_data.py:44-50 | the prefix followed by `str(i).zfill(width)`: at least `width` digits whose value is `i`, ending in the decimal of `i` |
| SampleData.PaddedIds | src/data_generation/generate_sample_data.py:44-50 | `n` identifiers for 1..n in order, pairwise distinct |
| SampleData.RandInt | src/data_generation/generate_sample_data.py:101-119 | `randint(a, b)` lies in [a, b] |
| SampleData.Choice | src/data_generation/generate_sample_data.py:66-94 | `choice` returns a member of the list |
| SampleData.NumVisits | src/data_generation/generate_sample_data.py:76-77 | the visit count is the truncated gamma draw plus one, capped at 20, so in [1, 20] |
| SampleData.SampleSize | src/data_generation/generate_sample_data.py:80 | `min(num_visits, len(date_range))` |
| SampleData.VisitDates | src/data_generation/generate_sample_data.py:80 | one date of the range per sampled position, in ascending date order |
| SampleData.VisitDatesAscend | src/data_generation/generate_sample_data.py:80 | distinct sampled positions, sorted, give strictly ascending dates |
| SampleData.DatesAtPermutation | src/data_generation/generate_sample_data.py:80 | two orderings of the same positions pick the same dates |
| SampleData.VisitDatesAreSampled | src/data_generation/generate_sample_data.py:80 | the visit dates are exactly the dates at the sampled positions, as a multiset |
| SampleData.ServiceTypeOf | src/data_generation/generate_sample_data.py:84-90 | a first visit is Crisis Support when that draw says so |
| SampleData.Duration | src/data_generation/generate_sample_data.py:100-107 | Workshop in [90,120], Group Therapy in [60,90], Crisis Support in [45,90], others in [30,60] |
| SampleData.WaitDays | src/data_generation/generate_sample_data.py:110-121 | Crisis Support in [0,3]; otherwise [7,21] in months 4, 5, 10 and 11, and [2,10] in the rest |
| SampleData.CounselorFor | src/data_generation/generate_sample_data.py:92-97 | a first visit, or a visit that does not keep the counselor, picks from the list; otherwise it keeps the previous one |
| SampleData.ReferralFor | src/data_generation/generate_sample_data.py:127-140 | the source is "Follow-up" iff the visit is not the first |
| SampleData.MakeVisit | src/data_generation/generate_sample_data.py:145-160 | the record carries the student's attributes, the date and the assigned counselor |
| SampleData.MakeVisitRules | src/data_generation/generate_sample_data.py:100-160 | the record obeys the duration, wait, referral and follow-up rules for its place among the visits |
| SampleData.Counselors | src/data_generation/generate_sample_data.py:92-97 | every counselor is from the list, and a visit drawn to keep the counselor repeats the previous one |
| SampleData.CounselorAt | src/data_generation/generate_sample_data.py:92-97 | each visit's counselor is decided from the previous visit's counselor |
| SampleData.StudentVisits | src/data_generation/generate_sample_data.py:82-162 | one record per visit date |
| SampleData.NextVisit | src/data_generation/generate_sample_data.py:92-97 | appending the next visit, with its counselor taken from the last record, extends the student's visit records by one |
| SampleData.StudentVisitsObey | src/data_generation/generate_sample_data.py:82-162 | every visit record obeys the field rules, lies on its date, and has a listed or kept counselor |
| SampleData.StudentBlocks | src/data_generation/generate_sample_data.py:61-162 | one block of records per student |
| SampleData.StudentRecords | src/data_generation/generate_sample_data.py:61-162 | a student who is not served gets no records; a served student gets one per sampled date |
| SampleData.AppointmentsExtend | src/data_generation/generate_sample_data.py:61-162 | one more student appends exactly that student's records |
| SampleData.VisitCountBounds | src/data_generation/generate_sample_data.py:62-80 | a served student gets between 1 and 20 records; a student who is not served gets none |
| SampleData.StudentRules | src/data_generation/generate_sample_data.py:82-162 | each record obeys the field rules, lies in the date range, has a listed counselor, and keeps the counselor when drawn to |
| SampleData.DatesOf | src/data_generation/generate_sample_data.py:147 | the date column has one entry per record |
| SampleData.VisitsOnDates | src/data_generation/generate_sample_data.py:82-147 | the records' dates are exactly the visit dates, in order |
| SampleData.StudentDatesAscend | src/data_generation/generate_sample_data.py:80-82 | one student's records have strictly ascending dates |
| SampleData.StudentObeys | src/data_generation/generate_sample_data.py:82-162 | one student's records obey the rules, and every follow-up record follows an earlier record of the same student |
| SampleData.FlattenObeys | src/data_generation/generate_sample_data.py:61-162 | joining the students' blocks keeps the rules and the follow-up ordering |
| SampleData.AppointmentRules | src/data_generation/generate_sample_data.py:61-162 | every generated record is for a listed student, with a listed counselor, and obeys the field rules; every follow-up directly follows an earlier visit of the same student |
| SampleData.StudentProfiles | src/data_generation/generate_sample_data.py:65-73 | one attribute set per student |
| SampleData.ProfilesAmongConcat | src/data_generation/generate_sample_data.py:61-162 | adding one student's block keeps every record's attributes among the drawn ones |
| SampleData.FlattenProfiles | src/data_generation/generate_sample_data.py:61-162 | every record of the joined blocks carries the attributes drawn for its own student |
| SampleData.SameStudentSameProfile | src/data_generation/generate_sample_data.py:65-160 | with distinct identifiers, two records of one student carry the same attributes |
| SampleData.ProfilesConstant | src/data_generation/generate_sample_data.py:65-160 | year, college, status, international and first-generation are constant across one student's records |
| SampleData.BlockProfile | src/data_generation/generate_sample_data.py:65-160 | a student's block carries that student's drawn attributes |
| SampleData.SampleDataGenerator.constructor | src/data_generation/generate_sample_data.py:19-23 | keeps the student count and the daily date range, which may be empty |
| SampleData.SampleDataGenerator.GenerateStudentIds | src/data_generation/generate_sample_data.py:44-46 | `num_students` distinct identifiers, the `k`-th exactly "STU" + `str(k).zfill(6)`, so at least six digits worth `k` |
| SampleData.SampleDataGenerator.GenerateCounselorIds | src/data_generation/generate_sample_data.py:48-50 | 50 by default; distinct identifiers, the `k`-th exactly "CNS" + `str(k).zfill(3)`, so at least three digits worth `k` |
| SampleData.SampleDataGenerator.AppendVisits | src/data_generation/generate_sample_data.py:82-162 | appends exactly the student's visit records, reading the last record for counselor continuity |
| SampleData.SampleDataGenerator.AppendStudent | src/data_generation/generate_sample_data.py:61-162 | appends exactly the student's records, nothing when they do not use the service |
| SampleData.SampleDataGenerator.GenerateAppointments | src/data_generation/generate_sample_data.py:52-164 | the records are every student's block in identifier order, so they obey the rules proved of the blocks |
| GcsIngestion.BlobName | src/data_ingestion/upload_to_gcs.py:110 | the blob name never starts with '/' |
| GcsIngestion.LStripAppend | src/data_ingestion/upload_to_gcs.py:110 | stripping a joined text strips only the first part, unless that part is all `c` |
| GcsIngestion.StripsToEmpty | src/data_ingestion/upload_to_gcs.py:110 | stripping '/' empties a text iff it is all slashes |
| GcsIngestion.StripSlash | src/data_ingestion/upload_to_gcs.py:110 | a leading slash is removed along with the rest |
| GcsIngestion.BlobNameKeepsSlashes | src/data_ingestion/upload_to_gcs.py:110 | with a prefix that is not all slashes, only its leading slashes go; the separator and the path are kept |
| GcsIngestion.BlobNameDropsPrefix | src/data_ingestion/upload_to_gcs.py:110 | with a prefix of slashes only, the blob name is the path without leading slashes |
| GcsIngestion.DefaultPrefixBlobName | src/data_ingestion/upload_to_gcs.py:90-110 | with the default empty prefix, the blob name is the path without leading slashes |
| GcsIngestion.TrailingSlashPrefix | src/data_ingestion/upload_to_gcs.py:110 | the prefix "x/" gives "x//" then the path: interior slashes stay |
| GcsIngestion.GcsUri | src/data_ingestion/upload_to_gcs.py:82 | the URI is "gs://", then the bucket, then one '/', then the blob |
| GcsIngestion.ParseGcsUri | src/data_ingestion/upload_to_gcs.py:82 | a parsed URI is rebuilt exactly from its bucket and blob |
| GcsIngestion.GcsUriRoundTrip | src/data_ingestion/upload_to_gcs.py:82 | a bucket without '/' and any blob are read back from their URI |
| GcsIngestion.DatasetRef | src/data_ingestion/upload_to_gcs.py:171 | the project, one '.', then the dataset |
| GcsIngestion.TableRef | src/data_ingestion/upload_to_gcs.py:200 | the project, '.', the dataset, '.', then the table |
| GcsIngestion.TableInDataset | src/data_ingestion/upload_to_gcs.py:171-200 | a table reference extends its dataset reference by a dot and the table |
| GcsIngestion.TableRefRoundTrip | src/data_ingestion/upload_to_gcs.py:200 | without dots in the parts, splitting the reference on '.' gives back project, dataset and table |
| GcsIngestion.DatasetRefRoundTrip | src/data_ingestion/upload_to_gcs.py:171 | without dots in the parts, splitting the reference on '.' gives back project and dataset |
| GcsIngestion.Files | src/data_ingestion/upload_to_gcs.py:107-108 | only regular files among the visited entries, each one of them |
| GcsIngestion.FilesAppend | src/data_ingestion/upload_to_gcs.py:107-108 | the files of joined listings are the files of each, in order |
| GcsIngestion.FilesSingle | src/data_ingestion/upload_to_gcs.py:107-108 | one entry is kept iff it is a regular file |
| GcsIngestion.FilesComplete | src/data_ingestion/upload_to_gcs.py:107-108 | every visited regular file is kept |
| GcsIngestion.FileCountAppend | src/data_ingestion/upload_to_gcs.py:107-108 | the file count of joined listings is the sum of their counts |
| GcsIngestion.FilesCounted | src/data_ingestion/upload_to_gcs.py:107-115 | the number of kept files is the number of file entries |
| GcsIngestion.DirectoryUris | src/data_ingestion/upload_to_gcs.py:107-113 | one URI per regular file: the `k`-th is the `gs://` URI of the blob name built from the prefix and the `k`-th file's relative path |
| GcsIngestion.GcpDataIngestion.constructor | src/data_ingestion/upload_to_gcs.py:25-34 | keeps the project and bucket names |
| GcsIngestion.GcpDataIngestion.UploadFile | src/data_ingestion/upload_to_gcs.py:60-85 | returns "gs://" + bucket + "/" + blob, which parses back to the bucket and blob |
| GcsIngestion.GcpDataIngestion.UploadDirectory | src/data_ingestion/upload_to_gcs.py:87-116 | the returned list is exactly the directory's URIs: the `k`-th file in traversal order gives the `k`-th URI, and directories add nothing |

## Left out

- BigQuery SQL and client calls (`query_data`, `save_results`, CSV output) are not modelled. The aggregate rows the queries return are inputs to the scoring functions.
- Logging is left out in every file, including the logged summaries and the printed recommendation lines.
- The dashboard module (src/visualization/create_dashboards.py) is not part of this model. It is presentation only.
- Spark I/O and aggregation are not modelled: the session, `extract_data`, `load_to_hive`, `save_to_gcs`, `run_pipeline`, `print_summary` and `create_aggregate_views`.
- SparkEtl.Dedup: Spark does not specify which of several duplicate records `dropDuplicates` keeps. The model keeps the first, and its contract states only what holds whichever is kept.
- SparkEtl.VisitOrder: Spark does not specify the window order of two records of one student on the same date. The model orders them by input position (a stable sort), and its contract states only the date order.
- Google Cloud Storage and BigQuery client calls are not modelled: bucket and dataset creation, the upload itself, download, listing, load jobs, external tables, `setup_data_pipeline` and YAML loading. The bucket's contents are not modelled.
- GcsIngestion.GcpDataIngestion.UploadFile: the local source path only names the bytes to send, so it does not appear in the result.
- GcsIngestion.GcpDataIngestion.UploadDirectory: the recursive directory walk is an input sequence of entries in traversal order, with each entry's path relative to the source directory. Path separators are taken as '/'.
- Random distributions are not modelled. This covers the 15% service probability, the gamma draw, the choice weights, the 70% continuity draw, the 40% follow-up draw and the no-show probability `0.05 + 0.01 × wait`. Each draw is an oracle value, and only what the code does with it is modelled.
- SampleData.ReferralFor: the crisis and non-crisis weightings of a first visit's referral source differ only in probability, so they are modelled as one pick from the same list.
- SampleData.SampleDataGenerator.constructor: `pd.date_range` is given as a daily, strictly ascending sequence of dates rather than computed from the start and end text.
- SampleData.MakeVisit: the date is kept as a date value, not its `strftime('%Y-%m-%d')` text.
- `add_data_quality_issues` and `generate_dataset` are not modelled. They are random blanking of values, a sort, CSV output and printing.
- Floating-point behaviour is not modelled. `.round(1)` on the percentage increase, and infinities and NaN from zero denominators are left out. Numbers are reals, and the denominators the code divides by are required to be nonzero; the code has no error handling for them.
- `standard_weekly_appointments` is assigned and never used, so there is nothing to model. The workload columns `avg_appointments_per_counselor` and `avg_hours_per_counselor` are computed, but they feed only logging and CSV output.
- Text columns are enumerations: labels, categories, service types, colleges and referral sources are datatypes, and each has a function giving its exact text. The recommendation record keeps its priority, category and count, and spells out its issue, recommendation and expected-impact texts by function.
- ServiceGapAnalysis.Recommendation: the recommendation and expected-impact texts are constants per category, spelled out exactly; no property beyond their wording is stated about them.
