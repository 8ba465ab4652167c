/**
 * The row-wise scoring rules of the service-gap analysis. Each BigQuery
 * aggregate arrives as a sequence of rows; every function here adds the
 * derived columns the analysis computes with pandas (`np.where`, `pd.cut`,
 * ratios, `quantile(0.75)`, `np.ceil`). Counts are `nat`, pandas floats
 * are `real`.
 */
module GapScoring {
  import opened Wrappers
  import opened Quantile
  import opened Counting

  // ---------------------------------------------------------------------
  // Demographic gaps

  datatype GapLabel = HighGap | ModerateGap | Adequate

  /** One row of the demographic aggregate (one student year / college / flags group). */
  datatype DemographicStat = DemographicStat(
    studentYear: string, studentCollege: string,
    internationalStudent: bool, firstGeneration: bool,
    totalVisits: nat, avgWaitDays: real, uniqueStudents: nat, noShows: nat)

  datatype DemographicGap = DemographicGap(
    stat: DemographicStat, utilizationRate: real, serviceGap: GapLabel)

  /** Visits per unique student. */
  function UtilizationRate(totalVisits: nat, uniqueStudents: nat): (u: real)
    requires uniqueStudents > 0
    ensures u >= 0.0
    ensures u * uniqueStudents as real == totalVisits as real
  {
    totalVisits as real / uniqueStudents as real
  }

  /**
   * The nested `np.where`: the first condition that holds decides the label.
   * The three labels split all (wait, utilization) pairs into three bands.
   */
  function ClassifyGap(avgWaitDays: real, utilizationRate: real): (g: GapLabel)
    ensures g == HighGap <==> avgWaitDays > 7.0 || utilizationRate < 2.0
    ensures g == ModerateGap <==>
              avgWaitDays <= 7.0 && utilizationRate >= 2.0
              && (avgWaitDays > 3.0 || utilizationRate < 3.0)
    ensures g == Adequate <==> avgWaitDays <= 3.0 && utilizationRate >= 3.0
  {
    if avgWaitDays > 7.0 || utilizationRate < 2.0 then HighGap
    else if avgWaitDays > 3.0 || utilizationRate < 3.0 then ModerateGap
    else Adequate
  }

  /** How severe a label is: Adequate 0, Moderate 1, High 2. */
  function Severity(g: GapLabel): nat {
    match g
    case Adequate => 0
    case ModerateGap => 1
    case HighGap => 2
  }

  /** A longer wait or a lower utilization never yields a milder label. */
  lemma SeverityMonotone(w1: real, u1: real, w2: real, u2: real)
    requires w1 <= w2 && u1 >= u2
    ensures Severity(ClassifyGap(w1, u1)) <= Severity(ClassifyGap(w2, u2))
  {
    var g1, g2 := ClassifyGap(w1, u1), ClassifyGap(w2, u2);
    if g1 == HighGap {
      assert g2 == HighGap;
    } else if g1 == ModerateGap {
      assert g2 != Adequate;
    }
  }

  function ScoreDemographicRow(r: DemographicStat): (g: DemographicGap)
    requires r.uniqueStudents > 0
    ensures g.stat == r
    ensures g.utilizationRate * r.uniqueStudents as real == r.totalVisits as real
    ensures g.serviceGap == ClassifyGap(r.avgWaitDays, g.utilizationRate)
  {
    var u := UtilizationRate(r.totalVisits, r.uniqueStudents);
    DemographicGap(r, u, ClassifyGap(r.avgWaitDays, u))
  }

  /** `analyze_demographic_gaps` after the query: one scored row per input row, same order. */
  function ScoreDemographics(rows: seq<DemographicStat>): (out: seq<DemographicGap>)
    requires forall i :: 0 <= i < |rows| ==> rows[i].uniqueStudents > 0
    ensures |out| == |rows|
    ensures forall i :: 0 <= i < |rows| ==> out[i] == ScoreDemographicRow(rows[i])
  {
    seq(|rows|, i requires 0 <= i < |rows| => ScoreDemographicRow(rows[i]))
  }

  predicate IsHighGap(r: DemographicGap) {
    r.serviceGap == HighGap
  }

  /** Number of rows labelled High Gap. */
  function CountHighGap(rows: seq<DemographicGap>): (k: nat)
    ensures k == |Where(rows, IsHighGap)|
    ensures k <= |rows|
    ensures k > 0 <==> exists i :: 0 <= i < |rows| && rows[i].serviceGap == HighGap
  {
    if rows == [] then 0
    else
      var n := |rows| - 1;
      WhereSnoc(rows, IsHighGap);
      CountHighGap(rows[..n]) + (if rows[n].serviceGap == HighGap then 1 else 0)
  }

  // ---------------------------------------------------------------------
  // Temporal gaps

  /** One row of the temporal aggregate (year, month, day of week, category). */
  datatype TemporalStat = TemporalStat(
    year: int, month: int, dayOfWeek: int, serviceCategory: string,
    appointmentCount: nat, avgWaitDays: real, availableCounselors: nat)

  datatype TemporalGap = TemporalGap(
    stat: TemporalStat, dayName: Option<string>, demandPerCounselor: real, peakDemand: bool)

  /** The `day_map` lookup; a day outside 1..7 maps to no name (NaN in pandas). */
  function DayName(d: int): (name: Option<string>)
    ensures name.Some? <==> 1 <= d <= 7
    ensures name == Some("Sunday") <==> d == 1
    ensures name == Some("Saturday") <==> d == 7
  {
    if d == 1 then Some("Sunday")
    else if d == 2 then Some("Monday")
    else if d == 3 then Some("Tuesday")
    else if d == 4 then Some("Wednesday")
    else if d == 5 then Some("Thursday")
    else if d == 6 then Some("Friday")
    else if d == 7 then Some("Saturday")
    else None
  }

  /** Different days of the week get different names. */
  lemma DayNameInjective(d1: int, d2: int)
    requires 1 <= d1 <= 7 && 1 <= d2 <= 7 && d1 != d2
    ensures DayName(d1) != DayName(d2)
  {
  }

  function DemandPerCounselor(r: TemporalStat): real
    requires r.availableCounselors > 0
  {
    r.appointmentCount as real / r.availableCounselors as real
  }

  function DemandColumn(rows: seq<TemporalStat>): (d: seq<real>)
    requires forall i :: 0 <= i < |rows| ==> rows[i].availableCounselors > 0
    ensures |d| == |rows|
    ensures forall i :: 0 <= i < |rows| ==> d[i] == DemandPerCounselor(rows[i])
  {
    seq(|rows|, i requires 0 <= i < |rows| => DemandPerCounselor(rows[i]))
  }

  /** `column > column.quantile(0.75)`, row by row; an empty column has no flags. */
  function PeakFlags(d: seq<real>): (flags: seq<bool>)
    ensures |flags| == |d|
    ensures forall i :: 0 <= i < |d| ==> (flags[i] <==> d[i] > Quantile75(d))
  {
    if d == [] then [] else
    var q := Quantile75(d);
    seq(|d|, i requires 0 <= i < |d| => d[i] > q)
  }

  function CountTrue(b: seq<bool>): (k: nat)
    ensures k <= |b|
  {
    if b == [] then 0 else (if b[0] then 1 else 0) + CountTrue(b[1..])
  }

  lemma {:induction false} CountTrueIsCountAbove(d: seq<real>, c: real, b: seq<bool>)
    requires |b| == |d|
    requires forall i :: 0 <= i < |d| ==> (b[i] <==> d[i] > c)
    ensures CountTrue(b) == CountAbove(d, c)
    decreases |d|
  {
    if d != [] {
      CountTrueIsCountAbove(d[1..], c, b[1..]);
    }
  }

  /** When every value is the same, no period is a peak. */
  lemma NoPeakWhenUniform(d: seq<real>, v: real)
    requires forall i :: 0 <= i < |d| ==> d[i] == v
    ensures forall i :: 0 <= i < |d| ==> !PeakFlags(d)[i]
  {
    if d != [] {
      QuantileOfConstant(d, v);
    }
  }

  /**
   * At most n - 1 - floor(0.75 * (n - 1)) of n periods are peaks, so at
   * least one period is never flagged.
   */
  lemma PeakShareBound(d: seq<real>)
    requires d != []
    ensures CountTrue(PeakFlags(d)) <= |d| - 1 - LowerRank(|d|)
    ensures CountTrue(PeakFlags(d)) < |d|
  {
    CountTrueIsCountAbove(d, Quantile75(d), PeakFlags(d));
    AboveQuantileBound(d);
  }

  /** Raising a flagged period's demand, the others unchanged, keeps it flagged. */
  lemma PeakStaysWhenRaised(d: seq<real>, i: nat, v: real)
    requires i < |d| && PeakFlags(d)[i] && v >= d[i]
    ensures PeakFlags(d[i := v])[i]
  {
    RaisingKeepsAbove(d, i, v);
  }

  /** `analyze_temporal_gaps` after the query. */
  function ScoreTemporal(rows: seq<TemporalStat>): (out: seq<TemporalGap>)
    requires forall i :: 0 <= i < |rows| ==> rows[i].availableCounselors > 0
    ensures |out| == |rows|
    ensures forall i :: 0 <= i < |rows| ==>
              && out[i].stat == rows[i]
              && out[i].dayName == DayName(rows[i].dayOfWeek)
              && out[i].demandPerCounselor == DemandPerCounselor(rows[i])
              && out[i].peakDemand == PeakFlags(DemandColumn(rows))[i]
  {
    var d := DemandColumn(rows);
    var flags := PeakFlags(d);
    seq(|rows|, i requires 0 <= i < |rows| =>
      TemporalGap(rows[i], DayName(rows[i].dayOfWeek), d[i], flags[i]))
  }

  predicate IsPeak(r: TemporalGap) {
    r.peakDemand
  }

  /** Number of periods with peak demand. */
  function CountPeak(rows: seq<TemporalGap>): (k: nat)
    ensures k == |Where(rows, IsPeak)|
    ensures k <= |rows|
    ensures k > 0 <==> exists i :: 0 <= i < |rows| && rows[i].peakDemand
  {
    if rows == [] then 0
    else
      var n := |rows| - 1;
      WhereSnoc(rows, IsPeak);
      CountPeak(rows[..n]) + (if rows[n].peakDemand then 1 else 0)
  }

  // ---------------------------------------------------------------------
  // Service-type gaps

  /** One row of the service-type aggregate (service category and college). */
  datatype ServiceTypeStat = ServiceTypeStat(
    serviceCategory: string, studentCollege: string,
    demand: nat, avgWait: real, extendedWaitCount: nat, counselorCount: nat)

  datatype Adequacy = Excellent | Good | NeedsImprovement | Critical

  datatype ServiceTypeGap = ServiceTypeGap(
    stat: ServiceTypeStat, pctExtendedWait: real, demandPerCounselor: real,
    adequacyRating: Option<Adequacy>)

  /** The aggregate's `SUM(CASE WHEN wait_days > 7 ...)`: a count of a subset of the rows. */
  function ExtendedWaitCount(waits: seq<real>): (k: nat)
    ensures k <= |waits|
    ensures k > 0 <==> exists i :: 0 <= i < |waits| && waits[i] > 7.0
  {
    if waits == [] then 0
    else (if waits[0] > 7.0 then 1 else 0) + ExtendedWaitCount(waits[1..])
  }

  function PctExtendedWait(extended: nat, demand: nat): (p: real)
    requires demand > 0
    ensures p >= 0.0
    ensures extended <= demand ==> p <= 100.0
    ensures p == 0.0 <==> extended == 0
  {
    (extended as real / demand as real) * 100.0
  }

  /** The percentage of a group's waits longer than a week lies in [0, 100]. */
  lemma PctExtendedWaitOfGroup(waits: seq<real>)
    requires waits != []
    ensures 0.0 <= PctExtendedWait(ExtendedWaitCount(waits), |waits|) <= 100.0
  {
  }

  ghost predicate StrictlyAscending(edges: seq<real>) {
    forall i, j :: 0 <= i < j < |edges| ==> edges[i] < edges[j]
  }

  /**
   * `pd.cut` with right-closed bins: the index of the bin (edges[k], edges[k+1]]
   * holding x, or None when x lies in none of them.
   */
  function Cut(x: real, edges: seq<real>): (k: Option<nat>)
    ensures k.Some? ==> k.value + 1 < |edges| && edges[k.value] < x <= edges[k.value + 1]
    ensures k.None? ==> forall j :: 0 <= j < |edges| - 1 ==> !(edges[j] < x <= edges[j + 1])
    decreases |edges|
  {
    if |edges| < 2 then None
    else if edges[0] < x <= edges[1] then Some(0)
    else
      match Cut(x, edges[1..])
      case None => None
      case Some(j) => Some(j + 1)
  }

  /** Within ascending edges, x has a bin exactly when edges[0] < x <= the last edge. */
  lemma {:induction false} CutCovers(x: real, edges: seq<real>)
    requires |edges| >= 2 && StrictlyAscending(edges)
    ensures Cut(x, edges).Some? <==> edges[0] < x <= edges[|edges| - 1]
    decreases |edges|
  {
    if !(edges[0] < x <= edges[1]) && |edges| > 2 {
      CutCovers(x, edges[1..]);
    }
  }

  const AdequacyEdges: seq<real> := [0.0, 10.0, 25.0, 50.0, 100.0]

  function AdequacyLabel(k: nat): Adequacy {
    if k == 0 then Excellent
    else if k == 1 then Good
    else if k == 2 then NeedsImprovement
    else Critical
  }

  /** The `pd.cut` of the extended-wait percentage into four ratings. */
  function AdequacyRating(pct: real): (a: Option<Adequacy>)
    ensures a == Some(Excellent) <==> 0.0 < pct <= 10.0
    ensures a == Some(Good) <==> 10.0 < pct <= 25.0
    ensures a == Some(NeedsImprovement) <==> 25.0 < pct <= 50.0
    ensures a == Some(Critical) <==> 50.0 < pct <= 100.0
    ensures a == None <==> pct <= 0.0 || pct > 100.0
  {
    var e := AdequacyEdges;
    assert e[0] == 0.0 && e[1] == 10.0 && e[2] == 25.0 && e[3] == 50.0 && e[4] == 100.0;
    CutCovers(pct, e);
    match Cut(pct, e)
    case None => None
    case Some(k) => Some(AdequacyLabel(k))
  }

  /** Exactly 0 and the shared edges: 0 gets no rating, 10, 25 and 50 the lower bin. */
  lemma AdequacyBoundaries()
    ensures AdequacyRating(0.0) == None
    ensures AdequacyRating(10.0) == Some(Excellent)
    ensures AdequacyRating(25.0) == Some(Good)
    ensures AdequacyRating(50.0) == Some(NeedsImprovement)
    ensures AdequacyRating(100.0) == Some(Critical)
  {
  }

  /** Any group with at least one wait longer than a week gets a rating. */
  lemma SomeExtendedWaitIsRated(waits: seq<real>)
    requires waits != [] && ExtendedWaitCount(waits) > 0
    ensures AdequacyRating(PctExtendedWait(ExtendedWaitCount(waits), |waits|)).Some?
  {
  }

  function ScoreServiceTypeRow(r: ServiceTypeStat): (g: ServiceTypeGap)
    requires r.demand > 0 && r.counselorCount > 0
    ensures g.stat == r
    ensures g.pctExtendedWait == PctExtendedWait(r.extendedWaitCount, r.demand)
    ensures g.adequacyRating == AdequacyRating(g.pctExtendedWait)
    ensures g.demandPerCounselor == r.demand as real / r.counselorCount as real
    ensures g.adequacyRating == Some(Critical) <==> 50.0 < g.pctExtendedWait <= 100.0
    ensures r.extendedWaitCount <= r.demand ==> (g.adequacyRating.None? <==> r.extendedWaitCount == 0)
  {
    var p := PctExtendedWait(r.extendedWaitCount, r.demand);
    ServiceTypeGap(r, p, r.demand as real / r.counselorCount as real, AdequacyRating(p))
  }

  /** A service type is rated critical exactly when more than half of its waits exceed a week. */
  lemma CriticalWhenMostWaitLong(r: ServiceTypeStat)
    requires r.demand > 0 && r.counselorCount > 0 && r.extendedWaitCount <= r.demand
    ensures ScoreServiceTypeRow(r).adequacyRating == Some(Critical) <==> 2 * r.extendedWaitCount > r.demand
  {
    OverHalf(r.extendedWaitCount as real, r.demand as real);
  }

  lemma OverHalf(e: real, d: real)
    requires d > 0.0
    ensures (e / d) * 100.0 > 50.0 <==> 2.0 * e > d
  {
    var q := e / d;
    assert q * d == e;
    if q > 0.5 {
      assert q * d > 0.5 * d;
    } else {
      assert q * d <= 0.5 * d;
    }
  }

  /** `analyze_service_type_gaps` after the query. */
  function ScoreServiceTypes(rows: seq<ServiceTypeStat>): (out: seq<ServiceTypeGap>)
    requires forall i :: 0 <= i < |rows| ==> rows[i].demand > 0 && rows[i].counselorCount > 0
    ensures |out| == |rows|
    ensures forall i :: 0 <= i < |rows| ==> out[i] == ScoreServiceTypeRow(rows[i])
  {
    seq(|rows|, i requires 0 <= i < |rows| => ScoreServiceTypeRow(rows[i]))
  }

  predicate IsCritical(r: ServiceTypeGap) {
    r.adequacyRating == Some(Critical)
  }

  /** Number of service-college rows rated Critical. */
  function CountCritical(rows: seq<ServiceTypeGap>): (k: nat)
    ensures k == |Where(rows, IsCritical)|
    ensures k <= |rows|
    ensures k > 0 <==> exists i :: 0 <= i < |rows| && rows[i].adequacyRating == Some(Critical)
  {
    if rows == [] then 0
    else
      var n := |rows| - 1;
      WhereSnoc(rows, IsCritical);
      CountCritical(rows[..n]) + (if rows[n].adequacyRating == Some(Critical) then 1 else 0)
  }

  // ---------------------------------------------------------------------
  // Underserved populations

  /** One row of the population aggregate (student year and the two flags). */
  datatype PopulationStat = PopulationStat(
    studentYear: string, internationalStudent: bool, firstGeneration: bool,
    studentCount: nat, avgVisitsPerStudent: real, avgWaitDays: real)

  datatype PopulationEquity = PopulationEquity(
    stat: PopulationStat, visitRatio: real, waitRatio: real, equityScore: real, underserved: bool)

  function Sum(s: seq<real>): real {
    if s == [] then 0.0 else s[0] + Sum(s[1..])
  }

  /** The unweighted mean of a column (`Series.mean()`). */
  function Mean(s: seq<real>): real
    requires s != []
  {
    Sum(s) / |s| as real
  }

  lemma {:induction false} SumOfConstant(s: seq<real>, v: real)
    requires forall i :: 0 <= i < |s| ==> s[i] == v
    ensures Sum(s) == |s| as real * v
    decreases |s|
  {
    if s != [] {
      SumOfConstant(s[1..], v);
    }
  }

  lemma MeanOfConstant(s: seq<real>, v: real)
    requires s != []
    requires forall i :: 0 <= i < |s| ==> s[i] == v
    ensures Mean(s) == v
  {
    SumOfConstant(s, v);
  }

  function Visits(rows: seq<PopulationStat>): (c: seq<real>)
    ensures |c| == |rows|
    ensures forall i :: 0 <= i < |rows| ==> c[i] == rows[i].avgVisitsPerStudent
  {
    seq(|rows|, i requires 0 <= i < |rows| => rows[i].avgVisitsPerStudent)
  }

  function Waits(rows: seq<PopulationStat>): (c: seq<real>)
    ensures |c| == |rows|
    ensures forall i :: 0 <= i < |rows| ==> c[i] == rows[i].avgWaitDays
  {
    seq(|rows|, i requires 0 <= i < |rows| => rows[i].avgWaitDays)
  }

  /** The score of one group against the two column means. */
  function EquityRow(r: PopulationStat, meanVisits: real, meanWait: real): (e: PopulationEquity)
    requires meanVisits != 0.0 && r.avgWaitDays != 0.0
    ensures e.stat == r
    ensures e.visitRatio == r.avgVisitsPerStudent / meanVisits && e.waitRatio == meanWait / r.avgWaitDays
    ensures e.equityScore == (e.visitRatio + e.waitRatio) / 2.0
    ensures e.underserved <==> e.equityScore < 0.7
    ensures e.underserved <==> e.visitRatio + e.waitRatio < 1.4
    ensures (r.avgVisitsPerStudent == meanVisits && r.avgWaitDays == meanWait)
              ==> e.equityScore == 1.0 && !e.underserved
  {
    var vr := r.avgVisitsPerStudent / meanVisits;
    var wr := meanWait / r.avgWaitDays;
    SelfRatio(meanVisits);
    SelfRatio(r.avgWaitDays);
    var score := (vr + wr) / 2.0;
    PopulationEquity(r, vr, wr, score, score < 0.7)
  }

  lemma SelfRatio(x: real)
    requires x != 0.0
    ensures x / x == 1.0
  {
  }

  ghost predicate EquityDefined(rows: seq<PopulationStat>) {
    && (rows != [] ==> Mean(Visits(rows)) != 0.0)
    && forall i :: 0 <= i < |rows| ==> rows[i].avgWaitDays != 0.0
  }

  /** `identify_underserved_populations` after the query. */
  function ScoreEquity(rows: seq<PopulationStat>): (out: seq<PopulationEquity>)
    requires EquityDefined(rows)
    ensures |out| == |rows|
    ensures forall i :: 0 <= i < |rows| ==>
              out[i] == EquityRow(rows[i], Mean(Visits(rows)), Mean(Waits(rows)))
  {
    if rows == [] then [] else
    var mv, mw := Mean(Visits(rows)), Mean(Waits(rows));
    seq(|rows|, i requires 0 <= i < |rows| => EquityRow(rows[i], mv, mw))
  }

  function VisitRatios(out: seq<PopulationEquity>): (c: seq<real>)
    ensures |c| == |out|
    ensures forall i :: 0 <= i < |out| ==> c[i] == out[i].visitRatio
  {
    seq(|out|, i requires 0 <= i < |out| => out[i].visitRatio)
  }

  lemma {:induction false} SumScaled(s: seq<real>, c: seq<real>, m: real)
    requires m != 0.0 && |c| == |s|
    requires forall i :: 0 <= i < |s| ==> c[i] == s[i] / m
    ensures Sum(c) == Sum(s) / m
    decreases |s|
  {
    if s != [] {
      SumScaled(s[1..], c[1..], m);
      assert c[0] + Sum(c[1..]) == s[0] / m + Sum(s[1..]) / m;
    }
  }

  /** The visit ratios average to exactly 1: they sum to the number of groups. */
  lemma VisitRatiosSumToCount(rows: seq<PopulationStat>)
    requires rows != [] && EquityDefined(rows)
    ensures Sum(VisitRatios(ScoreEquity(rows))) == |rows| as real
  {
    var out := ScoreEquity(rows);
    var v := Visits(rows);
    var m := Mean(v);
    assert forall i :: 0 <= i < |rows| ==> VisitRatios(out)[i] == v[i] / m;
    SumScaled(v, VisitRatios(out), m);
    SumOverMean(Sum(v), |rows| as real);
  }

  lemma SumOverMean(total: real, n: real)
    requires n > 0.0 && total / n != 0.0
    ensures total / (total / n) == n
  {
  }

  /** When every group has the same visits and the same wait, nobody is underserved. */
  lemma UniformIsNotUnderserved(rows: seq<PopulationStat>)
    requires rows != [] && EquityDefined(rows)
    requires forall i :: 0 <= i < |rows| ==>
               rows[i].avgVisitsPerStudent == rows[0].avgVisitsPerStudent
               && rows[i].avgWaitDays == rows[0].avgWaitDays
    ensures forall i :: 0 <= i < |rows| ==> !ScoreEquity(rows)[i].underserved
  {
    MeanOfConstant(Visits(rows), rows[0].avgVisitsPerStudent);
    MeanOfConstant(Waits(rows), rows[0].avgWaitDays);
  }

  // ---------------------------------------------------------------------
  // Resource needs

  /** One row of the capacity aggregate (per service category). */
  datatype CapacityStat = CapacityStat(
    serviceCategory: string, currentCounselors: nat, totalAppointments: nat, totalMinutes: nat)

  /** One row of the wait aggregate (per service category). */
  datatype WaitStat = WaitStat(serviceCategory: string, avgWaitDays: real, p75WaitDays: real)

  datatype ResourceNeed = ResourceNeed(
    capacity: CapacityStat, wait: WaitStat,
    avgAppointmentsPerCounselor: real, avgHoursPerCounselor: real,
    waitReductionFactor: real, additionalCounselorsNeeded: int, pctIncreaseNeeded: real)

  /** `pd.merge(capacity, wait, on='service_category')`: an inner join in left-row order. */
  function Merge(caps: seq<CapacityStat>, waits: seq<WaitStat>): (m: seq<(CapacityStat, WaitStat)>)
    ensures forall i :: 0 <= i < |m| ==>
              m[i].0 in caps && m[i].1 in waits && m[i].0.serviceCategory == m[i].1.serviceCategory
  {
    if caps == [] then []
    else MatchingWaits(caps[0], waits) + Merge(caps[1..], waits)
  }

  function MatchingWaits(c: CapacityStat, waits: seq<WaitStat>): (m: seq<(CapacityStat, WaitStat)>)
    ensures forall i :: 0 <= i < |m| ==>
              m[i].0 == c && m[i].1 in waits && m[i].1.serviceCategory == c.serviceCategory
  {
    if waits == [] then []
    else (if waits[0].serviceCategory == c.serviceCategory then [(c, waits[0])] else [])
         + MatchingWaits(c, waits[1..])
  }

  lemma {:induction false} MatchingWaitsMembers(c: CapacityStat, waits: seq<WaitStat>, p: (CapacityStat, WaitStat))
    ensures p in MatchingWaits(c, waits) <==> p.0 == c && p.1 in waits && p.1.serviceCategory == c.serviceCategory
    decreases |waits|
  {
    if waits != [] {
      MatchingWaitsMembers(c, waits[1..], p);
      assert waits == [waits[0]] + waits[1..];
    }
  }

  /** A pair is in the join exactly when both rows are in their tables and share the category. */
  lemma {:induction false} MergeMembers(caps: seq<CapacityStat>, waits: seq<WaitStat>, p: (CapacityStat, WaitStat))
    ensures p in Merge(caps, waits) <==> p.0 in caps && p.1 in waits && p.0.serviceCategory == p.1.serviceCategory
    decreases |caps|
  {
    if caps != [] {
      MergeMembers(caps[1..], waits, p);
      MatchingWaitsMembers(caps[0], waits, p);
      assert caps == [caps[0]] + caps[1..];
    }
  }

  lemma MergeKeepsStaffed(caps: seq<CapacityStat>, waits: seq<WaitStat>)
    requires forall i :: 0 <= i < |caps| ==> caps[i].currentCounselors > 0
    ensures forall p :: p in Merge(caps, waits) ==> p.0.currentCounselors > 0
  {
    forall p | p in Merge(caps, waits) ensures p.0.currentCounselors > 0 {
      MergeMembers(caps, waits, p);
    }
  }

  /** numpy's `ceil` on a float, cast to an integer: the least integer not below x. */
  function Ceil(x: real): (c: int)
    ensures c as real >= x
    ensures (c - 1) as real < x
  {
    -((-x).Floor)
  }

  const TargetWaitDays: real := 3.0

  /** Counselors to add so the wait would fall to the three-day target; negative when over-staffed. */
  function AdditionalCounselors(current: nat, avgWaitDays: real): (a: int)
    ensures a as real >= current as real * (avgWaitDays / TargetWaitDays - 1.0)
    ensures (a - 1) as real < current as real * (avgWaitDays / TargetWaitDays - 1.0)
  {
    Ceil(current as real * (avgWaitDays / TargetWaitDays - 1.0))
  }

  /** At the target wait nobody is added; below it the figure is zero or negative. */
  lemma AdditionalAtOrBelowTarget(current: nat, avgWaitDays: real)
    requires avgWaitDays <= TargetWaitDays
    ensures AdditionalCounselors(current, avgWaitDays) <= 0
    ensures avgWaitDays == TargetWaitDays ==> AdditionalCounselors(current, avgWaitDays) == 0
  {
    var f := avgWaitDays / TargetWaitDays - 1.0;
    assert f <= 0.0;
    ProductNonPositive(current as real, f);
  }

  lemma ProductNonPositive(a: real, f: real)
    requires a >= 0.0 && f <= 0.0
    ensures a * f <= 0.0
  {
  }

  /** With staff on hand, someone must be added exactly when the wait exceeds the target. */
  lemma AdditionalPositiveIffLongWait(current: nat, avgWaitDays: real)
    requires current > 0
    ensures AdditionalCounselors(current, avgWaitDays) > 0 <==> avgWaitDays > TargetWaitDays
  {
    var f := avgWaitDays / TargetWaitDays - 1.0;
    if avgWaitDays > TargetWaitDays {
      assert f > 0.0;
      ProductPositive(current as real, f);
      var a := AdditionalCounselors(current, avgWaitDays);
      assert a as real >= current as real * f;
    } else {
      AdditionalAtOrBelowTarget(current, avgWaitDays);
    }
  }

  lemma ProductPositive(a: real, f: real)
    requires a > 0.0 && f > 0.0
    ensures a * f > 0.0
  {
  }

  /** The additional counselors as a percentage of the current ones. */
  function PctIncrease(additional: int, current: nat): (p: real)
    requires current > 0
    ensures p * current as real == additional as real * 100.0
    ensures p > 0.0 <==> additional > 0
    ensures p == 0.0 <==> additional == 0
  {
    (additional as real / current as real) * 100.0
  }

  /** Four counselors at a nine-day wait need eight more, a 200% increase. */
  lemma FourCounselorsNineDays()
    ensures AdditionalCounselors(4, 9.0) == 8
    ensures PctIncrease(8, 4) == 200.0
  {
    assert 4 as real * (9.0 / TargetWaitDays - 1.0) == 8.0;
  }

  function ResourceRow(c: CapacityStat, w: WaitStat): (r: ResourceNeed)
    requires c.currentCounselors > 0
    ensures r.capacity == c && r.wait == w
    ensures r.avgAppointmentsPerCounselor == c.totalAppointments as real / c.currentCounselors as real
    ensures r.avgHoursPerCounselor == c.totalMinutes as real / c.currentCounselors as real / 60.0
    ensures r.waitReductionFactor == w.avgWaitDays / TargetWaitDays
    ensures r.additionalCounselorsNeeded == AdditionalCounselors(c.currentCounselors, w.avgWaitDays)
    ensures r.pctIncreaseNeeded == PctIncrease(r.additionalCounselorsNeeded, c.currentCounselors)
    ensures r.waitReductionFactor > 1.0 <==> w.avgWaitDays > TargetWaitDays
  {
    var n := c.currentCounselors as real;
    var factor := w.avgWaitDays / TargetWaitDays;
    var additional := AdditionalCounselors(c.currentCounselors, w.avgWaitDays);
    ResourceNeed(c, w, c.totalAppointments as real / n, c.totalMinutes as real / n / 60.0,
                 factor, additional, PctIncrease(additional, c.currentCounselors))
  }

  /** `calculate_resource_needs` after the two queries: one row per joined pair. */
  function ScoreResources(caps: seq<CapacityStat>, waits: seq<WaitStat>): (out: seq<ResourceNeed>)
    requires forall i :: 0 <= i < |caps| ==> caps[i].currentCounselors > 0
    ensures |out| == |Merge(caps, waits)|
    ensures forall i :: 0 <= i < |out| ==>
              var p := Merge(caps, waits)[i];
              p.0.currentCounselors > 0 && out[i] == ResourceRow(p.0, p.1)
  {
    var pairs := Merge(caps, waits);
    MergeKeepsStaffed(caps, waits);
    seq(|pairs|, i requires 0 <= i < |pairs| && pairs[i].0.currentCounselors > 0 =>
      ResourceRow(pairs[i].0, pairs[i].1))
  }

  /** `resource_df['additional_counselors_needed'].sum()`. */
  function TotalAdditional(rows: seq<ResourceNeed>): (total: int)
    ensures (forall i :: 0 <= i < |rows| ==> rows[i].additionalCounselorsNeeded <= 0) ==> total <= 0
    ensures (forall i :: 0 <= i < |rows| ==> rows[i].additionalCounselorsNeeded >= 0) ==> total >= 0
  {
    if rows == [] then 0 else rows[0].additionalCounselorsNeeded + TotalAdditional(rows[1..])
  }

  /** The shortage of two tables together is the sum of their shortages. */
  lemma {:induction false} TotalAdditionalAppend(a: seq<ResourceNeed>, b: seq<ResourceNeed>)
    ensures TotalAdditional(a + b) == TotalAdditional(a) + TotalAdditional(b)
    decreases |a|
  {
    if a == [] {
      assert a + b == b;
    } else {
      assert (a + b)[1..] == a[1..] + b;
      TotalAdditionalAppend(a[1..], b);
    }
  }
}
