/**
 * The service-gap analyzer: each analysis scores one aggregate and stores the
 * scored table under its name in the analyzer's `results` dictionary, and
 * `GenerateRecommendations` turns the stored tables into at most four
 * recommendation records in a fixed order.
 *
 * The BigQuery queries are not modelled: every analysis receives the
 * aggregate rows its query would return.
 */
module ServiceGapAnalysis {
  import opened Wrappers
  import opened Text
  import opened GapScoring
  import opened Counting

  datatype Priority = HighPriority | CriticalPriority

  function PriorityText(p: Priority): string {
    match p
    case HighPriority => "HIGH"
    case CriticalPriority => "CRITICAL"
  }

  /**
   * One recommendation record. Its issue, recommendation and expected-impact
   * texts are fixed by the category and the count it reports, so the record
   * keeps those two and spells the texts out on demand.
   */
  datatype Recommendation = Recommendation(priority: Priority, category: Category, count: int)
  {
    /**
     * The issue text states the count: the other three categories open with
     * it, the staffing record puts it after a fixed 29-character lead-in.
     */
    function Issue(): (s: string)
      ensures var n := IntToString(count);
        var at := if category == Staffing then 29 else 0;
        |s| > at + |n| && s[at..at + |n|] == n && s[at + |n|] == ' '
    {
      var n := IntToString(count);
      var lead := if category == Staffing then "Overall capacity shortage of " else "";
      Framed(lead, n, IssueTail(category));
      lead + n + IssueTail(category)
    }

    function Advice(): string {
      match category
      case DemographicGaps =>
        "Increase outreach and dedicated resources for international students, first-generation students, and specific colleges"
      case SchedulingOptimization =>
        "Extend counseling hours during midterms and finals; add weekend appointments"
      case ServiceCapacity =>
        "Immediate hiring for crisis support and high-demand counseling services"
      case Staffing =>
        "Phased hiring plan with priority on crisis support and individual counseling"
    }

    function ExpectedImpact(): string {
      match category
      case DemographicGaps => "15-20% increase in utilization among underserved groups"
      case SchedulingOptimization => "10-15% reduction in average wait times"
      case ServiceCapacity => "25-30% reduction in extended wait times"
      case Staffing => "10% increase in service capacity as stated in project goals"
    }
  }

  /** What follows the count in the issue text. */
  function IssueTail(c: Category): (t: string)
    ensures |t| > 0 && t[0] == ' '
  {
    " " + match c
    case DemographicGaps => "demographic segments with high service gaps"
    case SchedulingOptimization => "time periods with peak demand"
    case ServiceCapacity => "service-college combinations critically understaffed"
    case Staffing => "counselors"
  }

  lemma Framed(lead: string, n: string, rest: string)
    requires |rest| > 0
    ensures var s := lead + n + rest;
      |s| > |lead| + |n| && s[|lead|..|lead| + |n|] == n && s[|lead| + |n|] == rest[0]
  {
    var s := lead + n + rest;
    assert s[|lead|..|lead| + |n|] == n;
  }

  /** The count can be read back from the issue text: its digits, followed by a space. */
  lemma IssueStatesCount(r: Recommendation)
    requires r.count >= 0
    ensures var at := if r.category == Staffing then 29 else 0;
      exists k :: at < k < |r.Issue()| && r.Issue()[k] == ' '
        && AllDigits(r.Issue()[at..k]) && DecimalValue(r.Issue()[at..k]) == r.count
  {
    var at := if r.category == Staffing then 29 else 0;
    var k := at + |IntToString(r.count)|;
    assert r.Issue()[at..k] == IntToString(r.count);
  }

  /** A value stored in `results`: one scored table per analysis. */
  datatype Table =
    | DemographicTable(demographic: seq<DemographicGap>)
    | TemporalTable(temporal: seq<TemporalGap>)
    | ServiceTypeTable(serviceType: seq<ServiceTypeGap>)
    | PopulationTable(population: seq<PopulationEquity>)
    | ResourceTable(resources: seq<ResourceNeed>)
    | RecommendationTable(recommendations: seq<Recommendation>)

  /** The names under which the analyses store their tables. */
  datatype TableName =
    | DemographicKey | TemporalKey | ServiceTypeKey | PopulationKey | ResourceKey | RecommendationsKey

  /** The dictionary key each name stands for. */
  function KeyText(k: TableName): string {
    match k
    case DemographicKey => "demographic_gaps"
    case TemporalKey => "temporal_gaps"
    case ServiceTypeKey => "service_type_gaps"
    case PopulationKey => "underserved_populations"
    case ResourceKey => "resource_needs"
    case RecommendationsKey => "recommendations"
  }

  /** Different names are different dictionary keys. */
  lemma KeyTextInjective(k1: TableName, k2: TableName)
    requires k1 != k2
    ensures KeyText(k1) != KeyText(k2)
  {
    assert KeyText(k1)[0] != KeyText(k2)[0] || KeyText(k1)[1] != KeyText(k2)[1]
           || |KeyText(k1)| != |KeyText(k2)|;
  }

  /** Every name the analyzer writes holds the kind of table that analysis produces. */
  ghost predicate WellKeyed(results: map<TableName, Table>) {
    && (DemographicKey in results ==> results[DemographicKey].DemographicTable?)
    && (TemporalKey in results ==> results[TemporalKey].TemporalTable?)
    && (ServiceTypeKey in results ==> results[ServiceTypeKey].ServiceTypeTable?)
    && (PopulationKey in results ==> results[PopulationKey].PopulationTable?)
    && (ResourceKey in results ==> results[ResourceKey].ResourceTable?)
    && (RecommendationsKey in results ==> results[RecommendationsKey].RecommendationTable?)
  }

  /** The four recommendation categories, in the order they are considered. */
  datatype Category = DemographicGaps | SchedulingOptimization | ServiceCapacity | Staffing

  function CategoryText(c: Category): string {
    match c
    case DemographicGaps => "Demographic Gaps"
    case SchedulingOptimization => "Scheduling Optimization"
    case ServiceCapacity => "Service Capacity"
    case Staffing => "Staffing"
  }

  /** Position of a category in the order the recommendations are built. */
  function CategoryRank(c: Category): nat {
    match c
    case DemographicGaps => 0
    case SchedulingOptimization => 1
    case ServiceCapacity => 2
    case Staffing => 3
  }

  function DemographicRecommendation(highGap: nat): Recommendation {
    Recommendation(HighPriority, DemographicGaps, highGap)
  }

  function SchedulingRecommendation(peaks: nat): Recommendation {
    Recommendation(HighPriority, SchedulingOptimization, peaks)
  }

  function CapacityRecommendation(critical: nat): Recommendation {
    Recommendation(CriticalPriority, ServiceCapacity, critical)
  }

  function StaffingRecommendation(totalNeeded: int): Recommendation {
    Recommendation(HighPriority, Staffing, totalNeeded)
  }

  predicate HasCategory(recs: seq<Recommendation>, category: Category) {
    exists i :: 0 <= i < |recs| && recs[i].category == category
  }

  /** Every record of `recs` has category `c` and the priority that category gets. */
  ghost predicate OnlyCategory(recs: seq<Recommendation>, c: Category) {
    && |recs| <= 1
    && forall i :: 0 <= i < |recs| ==>
         recs[i].category == c && (recs[i].priority == CriticalPriority <==> c == ServiceCapacity)
  }

  ghost predicate RanksAscend(recs: seq<Recommendation>) {
    forall i, j :: 0 <= i < j < |recs| ==> CategoryRank(recs[i].category) < CategoryRank(recs[j].category)
  }

  function DemographicPart(results: map<TableName, Table>): (p: seq<Recommendation>)
    requires WellKeyed(results)
    ensures OnlyCategory(p, DemographicGaps)
    ensures p != [] <==>
              DemographicKey in results
              && exists k :: 0 <= k < |results[DemographicKey].demographic|
                             && results[DemographicKey].demographic[k].serviceGap == HighGap
    ensures p != [] ==> DemographicKey in results
                        && p[0].count == |Where(results[DemographicKey].demographic, IsHighGap)|
  {
    if DemographicKey in results && CountHighGap(results[DemographicKey].demographic) > 0
    then [DemographicRecommendation(CountHighGap(results[DemographicKey].demographic))]
    else []
  }

  function SchedulingPart(results: map<TableName, Table>): (p: seq<Recommendation>)
    requires WellKeyed(results)
    ensures OnlyCategory(p, SchedulingOptimization)
    ensures p != [] <==>
              TemporalKey in results
              && exists k :: 0 <= k < |results[TemporalKey].temporal|
                             && results[TemporalKey].temporal[k].peakDemand
    ensures p != [] ==> TemporalKey in results
                        && p[0].count == |Where(results[TemporalKey].temporal, IsPeak)|
  {
    if TemporalKey in results && CountPeak(results[TemporalKey].temporal) > 0
    then [SchedulingRecommendation(CountPeak(results[TemporalKey].temporal))]
    else []
  }

  function CapacityPart(results: map<TableName, Table>): (p: seq<Recommendation>)
    requires WellKeyed(results)
    ensures OnlyCategory(p, ServiceCapacity)
    ensures p != [] <==>
              ServiceTypeKey in results
              && exists k :: 0 <= k < |results[ServiceTypeKey].serviceType|
                             && results[ServiceTypeKey].serviceType[k].adequacyRating == Some(Critical)
    ensures p != [] ==> ServiceTypeKey in results
                        && p[0].count == |Where(results[ServiceTypeKey].serviceType, IsCritical)|
  {
    if ServiceTypeKey in results && CountCritical(results[ServiceTypeKey].serviceType) > 0
    then [CapacityRecommendation(CountCritical(results[ServiceTypeKey].serviceType))]
    else []
  }

  function StaffingPart(results: map<TableName, Table>): (p: seq<Recommendation>)
    requires WellKeyed(results)
    ensures OnlyCategory(p, Staffing)
    ensures p != [] <==> ResourceKey in results
    ensures p != [] ==> ResourceKey in results
                        && p[0].count == TotalAdditional(results[ResourceKey].resources)
  {
    if ResourceKey in results
    then [StaffingRecommendation(TotalAdditional(results[ResourceKey].resources))]
    else []
  }

  lemma HasCategoryConcat(a: seq<Recommendation>, b: seq<Recommendation>, c: Category)
    ensures HasCategory(a + b, c) <==> HasCategory(a, c) || HasCategory(b, c)
  {
    if HasCategory(a + b, c) {
      var i :| 0 <= i < |a + b| && (a + b)[i].category == c;
      if i >= |a| {
        assert b[i - |a|].category == c;
      }
    }
    if HasCategory(a, c) {
      var i :| 0 <= i < |a| && a[i].category == c;
      assert (a + b)[i] == a[i];
    }
    if HasCategory(b, c) {
      var i :| 0 <= i < |b| && b[i].category == c;
      assert (a + b)[|a| + i] == b[i];
    }
  }

  /** Appending records of a later category keeps the categories in ascending order. */
  lemma RanksAscendConcat(a: seq<Recommendation>, b: seq<Recommendation>, c: Category)
    requires RanksAscend(a) && OnlyCategory(b, c)
    requires forall i :: 0 <= i < |a| ==> CategoryRank(a[i].category) < CategoryRank(c)
    ensures RanksAscend(a + b)
  {
  }

  lemma OnlyCategoryHas(p: seq<Recommendation>, c: Category, d: Category)
    requires OnlyCategory(p, c)
    ensures HasCategory(p, d) <==> p != [] && c == d
  {
    if p != [] {
      assert p[0].category == c;
    }
  }

  /**
   * The recommendations the stored tables call for: categories in the fixed
   * order, each of the first three exactly when its table is stored and has a
   * qualifying row, Staffing whenever resource needs are stored.
   */
  function Recommendations(results: map<TableName, Table>): (recs: seq<Recommendation>)
    requires WellKeyed(results)
    ensures |recs| <= 4
    ensures RanksAscend(recs)
    ensures forall i :: 0 <= i < |recs| ==>
              (recs[i].priority == CriticalPriority <==> recs[i].category == ServiceCapacity)
    ensures HasCategory(recs, DemographicGaps) <==>
              DemographicKey in results
              && exists k :: 0 <= k < |results[DemographicKey].demographic|
                             && results[DemographicKey].demographic[k].serviceGap == HighGap
    ensures HasCategory(recs, SchedulingOptimization) <==>
              TemporalKey in results
              && exists k :: 0 <= k < |results[TemporalKey].temporal|
                             && results[TemporalKey].temporal[k].peakDemand
    ensures HasCategory(recs, ServiceCapacity) <==>
              ServiceTypeKey in results
              && exists k :: 0 <= k < |results[ServiceTypeKey].serviceType|
                             && results[ServiceTypeKey].serviceType[k].adequacyRating == Some(Critical)
    ensures HasCategory(recs, Staffing) <==> ResourceKey in results
  {
    var a, b, c, d := DemographicPart(results), SchedulingPart(results), CapacityPart(results), StaffingPart(results);
    PartsCombine(a, b, c, d);
    a + b + c + d
  }

  /** Only the Service Capacity record carries the priority text "CRITICAL"; every other one says "HIGH". */
  lemma CriticalTextOnlyForCapacity(results: map<TableName, Table>)
    requires WellKeyed(results)
    ensures forall i :: 0 <= i < |Recommendations(results)| ==>
              (PriorityText(Recommendations(results)[i].priority) == "CRITICAL"
               <==> Recommendations(results)[i].category == ServiceCapacity)
    ensures forall i :: 0 <= i < |Recommendations(results)| ==>
              (PriorityText(Recommendations(results)[i].priority) == "HIGH"
               <==> Recommendations(results)[i].category != ServiceCapacity)
  {
    var recs := Recommendations(results);
    forall i | 0 <= i < |recs|
      ensures PriorityText(recs[i].priority) == "CRITICAL" <==> recs[i].category == ServiceCapacity
      ensures PriorityText(recs[i].priority) == "HIGH" <==> recs[i].category != ServiceCapacity
    {
      assert |PriorityText(recs[i].priority)| == if recs[i].priority == CriticalPriority then 8 else 4;
    }
  }

  /** Different categories get different category texts, so the text column identifies the category. */
  lemma CategoryTextInjective(c1: Category, c2: Category)
    requires c1 != c2
    ensures CategoryText(c1) != CategoryText(c2)
  {
    assert CategoryText(c1)[0] != CategoryText(c2)[0] || |CategoryText(c1)| != |CategoryText(c2)|;
  }

  lemma PartsCombine(a: seq<Recommendation>, b: seq<Recommendation>, c: seq<Recommendation>, d: seq<Recommendation>)
    requires OnlyCategory(a, DemographicGaps) && OnlyCategory(b, SchedulingOptimization)
    requires OnlyCategory(c, ServiceCapacity) && OnlyCategory(d, Staffing)
    ensures |a + b + c + d| <= 4
    ensures RanksAscend(a + b + c + d)
    ensures forall i :: 0 <= i < |a + b + c + d| ==>
              ((a + b + c + d)[i].priority == CriticalPriority <==> (a + b + c + d)[i].category == ServiceCapacity)
    ensures HasCategory(a + b + c + d, DemographicGaps) <==> a != []
    ensures HasCategory(a + b + c + d, SchedulingOptimization) <==> b != []
    ensures HasCategory(a + b + c + d, ServiceCapacity) <==> c != []
    ensures HasCategory(a + b + c + d, Staffing) <==> d != []
  {
    RanksAscendConcat([], a, DemographicGaps);
    assert [] + a == a;
    RanksAscendConcat(a, b, SchedulingOptimization);
    RanksAscendConcat(a + b, c, ServiceCapacity);
    RanksAscendConcat(a + b + c, d, Staffing);
    CategoriesOfParts(a, b, c, d);
  }

  lemma CategoriesOfParts(a: seq<Recommendation>, b: seq<Recommendation>, c: seq<Recommendation>, d: seq<Recommendation>)
    requires OnlyCategory(a, DemographicGaps) && OnlyCategory(b, SchedulingOptimization)
    requires OnlyCategory(c, ServiceCapacity) && OnlyCategory(d, Staffing)
    ensures forall i :: 0 <= i < |a + b + c + d| ==>
              ((a + b + c + d)[i].priority == CriticalPriority <==> (a + b + c + d)[i].category == ServiceCapacity)
    ensures forall cat :: HasCategory(a + b + c + d, cat) <==>
              (a != [] && cat == DemographicGaps) || (b != [] && cat == SchedulingOptimization)
              || (c != [] && cat == ServiceCapacity) || (d != [] && cat == Staffing)
  {
    forall cat
      ensures HasCategory(a + b + c + d, cat) <==>
              (a != [] && cat == DemographicGaps) || (b != [] && cat == SchedulingOptimization)
              || (c != [] && cat == ServiceCapacity) || (d != [] && cat == Staffing)
    {
      HasCategoryConcat(a + b + c, d, cat);
      HasCategoryConcat(a + b, c, cat);
      HasCategoryConcat(a, b, cat);
      OnlyCategoryHas(a, DemographicGaps, cat);
      OnlyCategoryHas(b, SchedulingOptimization, cat);
      OnlyCategoryHas(c, ServiceCapacity, cat);
      OnlyCategoryHas(d, Staffing, cat);
    }
  }

  /** Storing a new recommendations table does not change what the other tables call for. */
  lemma RecommendationsIgnoreOwnEntry(results: map<TableName, Table>, recs: seq<Recommendation>)
    requires WellKeyed(results)
    ensures WellKeyed(results[RecommendationsKey := RecommendationTable(recs)])
    ensures Recommendations(results[RecommendationsKey := RecommendationTable(recs)]) == Recommendations(results)
  {
    var r' := results[RecommendationsKey := RecommendationTable(recs)];
    assert DemographicPart(r') == DemographicPart(results);
    assert SchedulingPart(r') == SchedulingPart(results);
    assert CapacityPart(r') == CapacityPart(results);
    assert StaffingPart(r') == StaffingPart(results);
  }

  /**
   * When resource needs are stored the last record is the Staffing one, with
   * the summed shortfall in its issue text, even when that sum is zero or
   * negative.
   */
  lemma StaffingIsLast(results: map<TableName, Table>)
    requires WellKeyed(results) && ResourceKey in results
    ensures Recommendations(results) != []
    ensures Recommendations(results)[|Recommendations(results)| - 1]
            == StaffingRecommendation(TotalAdditional(results[ResourceKey].resources))
  {
  }

  class ServiceGapAnalyzer {
    const projectId: string
    var results: map<TableName, Table>

    ghost predicate Valid()
      reads this
    {
      WellKeyed(results)
    }

    constructor (projectId: string)
      ensures Valid()
      ensures this.projectId == projectId && results == map[]
    {
      this.projectId := projectId;
      results := map[];
    }

    /** Scores the demographic aggregate and stores it under "demographic_gaps". */
    method AnalyzeDemographicGaps(rows: seq<DemographicStat>) returns (df: seq<DemographicGap>)
      requires Valid()
      requires forall i :: 0 <= i < |rows| ==> rows[i].uniqueStudents > 0
      modifies this
      ensures Valid()
      ensures df == ScoreDemographics(rows)
      ensures results == old(results)[DemographicKey := DemographicTable(df)]
    {
      df := ScoreDemographics(rows);
      results := results[DemographicKey := DemographicTable(df)];
    }

    /** Scores the temporal aggregate and stores it under "temporal_gaps". */
    method AnalyzeTemporalGaps(rows: seq<TemporalStat>) returns (df: seq<TemporalGap>)
      requires Valid()
      requires forall i :: 0 <= i < |rows| ==> rows[i].availableCounselors > 0
      modifies this
      ensures Valid()
      ensures df == ScoreTemporal(rows)
      ensures results == old(results)[TemporalKey := TemporalTable(df)]
    {
      df := ScoreTemporal(rows);
      results := results[TemporalKey := TemporalTable(df)];
    }

    /** Scores the service-type aggregate and stores it under "service_type_gaps". */
    method AnalyzeServiceTypeGaps(rows: seq<ServiceTypeStat>) returns (df: seq<ServiceTypeGap>)
      requires Valid()
      requires forall i :: 0 <= i < |rows| ==> rows[i].demand > 0 && rows[i].counselorCount > 0
      modifies this
      ensures Valid()
      ensures df == ScoreServiceTypes(rows)
      ensures results == old(results)[ServiceTypeKey := ServiceTypeTable(df)]
    {
      df := ScoreServiceTypes(rows);
      results := results[ServiceTypeKey := ServiceTypeTable(df)];
    }

    /** Scores the population aggregate and stores it under "underserved_populations". */
    method IdentifyUnderservedPopulations(rows: seq<PopulationStat>) returns (df: seq<PopulationEquity>)
      requires Valid()
      requires EquityDefined(rows)
      modifies this
      ensures Valid()
      ensures df == ScoreEquity(rows)
      ensures results == old(results)[PopulationKey := PopulationTable(df)]
    {
      df := ScoreEquity(rows);
      results := results[PopulationKey := PopulationTable(df)];
    }

    /** Joins capacity and wait aggregates, projects staffing, stores it under "resource_needs". */
    method CalculateResourceNeeds(caps: seq<CapacityStat>, waits: seq<WaitStat>) returns (df: seq<ResourceNeed>)
      requires Valid()
      requires forall i :: 0 <= i < |caps| ==> caps[i].currentCounselors > 0
      modifies this
      ensures Valid()
      ensures df == ScoreResources(caps, waits)
      ensures results == old(results)[ResourceKey := ResourceTable(df)]
    {
      df := ScoreResources(caps, waits);
      results := results[ResourceKey := ResourceTable(df)];
    }

    /**
     * Builds the recommendations step by step from the stored tables and
     * stores them under "recommendations"; no other entry changes.
     */
    method GenerateRecommendations() returns (recs: seq<Recommendation>)
      requires Valid()
      modifies this
      ensures Valid()
      ensures recs == Recommendations(old(results))
      ensures results == old(results)[RecommendationsKey := RecommendationTable(recs)]
    {
      recs := [];
      if DemographicKey in results {
        var highGap := CountHighGap(results[DemographicKey].demographic);
        if highGap > 0 {
          recs := recs + [DemographicRecommendation(highGap)];
        }
      }
      assert recs == DemographicPart(results);
      if TemporalKey in results {
        var peaks := CountPeak(results[TemporalKey].temporal);
        if peaks > 0 {
          recs := recs + [SchedulingRecommendation(peaks)];
        }
      }
      assert recs == DemographicPart(results) + SchedulingPart(results);
      if ServiceTypeKey in results {
        var critical := CountCritical(results[ServiceTypeKey].serviceType);
        if critical > 0 {
          recs := recs + [CapacityRecommendation(critical)];
        }
      }
      assert recs == DemographicPart(results) + SchedulingPart(results) + CapacityPart(results);
      if ResourceKey in results {
        var totalNeeded := TotalAdditional(results[ResourceKey].resources);
        recs := recs + [StaffingRecommendation(totalNeeded)];
      }
      assert recs == DemographicPart(results) + SchedulingPart(results)
                     + CapacityPart(results) + StaffingPart(results);
      results := results[RecommendationsKey := RecommendationTable(recs)];
    }

    /**
     * Runs the five analyses and then the recommendations: all six entries
     * are stored, and the stored recommendations are those the stored tables
     * call for, ending with Staffing.
     */
    method RunCompleteAnalysis(
      demographic: seq<DemographicStat>, temporal: seq<TemporalStat>,
      serviceType: seq<ServiceTypeStat>, population: seq<PopulationStat>,
      caps: seq<CapacityStat>, waits: seq<WaitStat>)
      returns (r: map<TableName, Table>)
      requires Valid()
      requires forall i :: 0 <= i < |demographic| ==> demographic[i].uniqueStudents > 0
      requires forall i :: 0 <= i < |temporal| ==> temporal[i].availableCounselors > 0
      requires forall i :: 0 <= i < |serviceType| ==>
                 serviceType[i].demand > 0 && serviceType[i].counselorCount > 0
      requires EquityDefined(population)
      requires forall i :: 0 <= i < |caps| ==> caps[i].currentCounselors > 0
      modifies this
      ensures Valid() && r == results
      ensures ResourceKey in r && RecommendationsKey in r
      ensures r[ResourceKey] == ResourceTable(ScoreResources(caps, waits))
      ensures DemographicKey in r && r[DemographicKey] == DemographicTable(ScoreDemographics(demographic))
      ensures TemporalKey in r && r[TemporalKey] == TemporalTable(ScoreTemporal(temporal))
      ensures ServiceTypeKey in r && r[ServiceTypeKey] == ServiceTypeTable(ScoreServiceTypes(serviceType))
      ensures PopulationKey in r && r[PopulationKey] == PopulationTable(ScoreEquity(population))
      ensures r[RecommendationsKey] == RecommendationTable(Recommendations(r))
      ensures var recs := r[RecommendationsKey].recommendations;
              recs != [] && recs[|recs| - 1].category == Staffing
    {
      var d1 := AnalyzeDemographicGaps(demographic);
      var d2 := AnalyzeTemporalGaps(temporal);
      assert results[DemographicKey] == DemographicTable(d1);
      var d3 := AnalyzeServiceTypeGaps(serviceType);
      assert results[DemographicKey] == DemographicTable(d1) && results[TemporalKey] == TemporalTable(d2);
      var d4 := IdentifyUnderservedPopulations(population);
      assert results[DemographicKey] == DemographicTable(d1) && results[TemporalKey] == TemporalTable(d2)
             && results[ServiceTypeKey] == ServiceTypeTable(d3);
      var d5 := CalculateResourceNeeds(caps, waits);
      assert results[DemographicKey] == DemographicTable(d1) && results[TemporalKey] == TemporalTable(d2)
             && results[ServiceTypeKey] == ServiceTypeTable(d3) && results[PopulationKey] == PopulationTable(d4);
      ghost var before := results;
      var recs := GenerateRecommendations();
      RecommendationsIgnoreOwnEntry(before, recs);
      StaffingIsLast(before);
      r := results;
    }
  }
}
