/**
 * The row enrichment of the Spark ETL job (`transform_data`): null and
 * duplicate cleaning, the calendar columns, the service category, the
 * per-student visit numbering over a window ordered by date, and the
 * high-risk flag. Spark's nullable columns are `Option`s, and its
 * three-valued conditions are spelled out with `Truth`.
 */
module SparkEtl {
  import opened Wrappers
  import opened Calendar
  import opened Sorting

  /** One raw service record, every column nullable as in the extraction schema. */
  datatype ServiceRecord = ServiceRecord(
    studentId: Option<string>, appointmentDate: Option<Date>, serviceType: Option<string>,
    counselorId: Option<string>, durationMinutes: Option<int>, studentYear: Option<string>,
    studentCollege: Option<string>, studentStatus: Option<string>,
    internationalStudent: Option<bool>, firstGeneration: Option<bool>,
    referralSource: Option<string>, waitDays: Option<int>,
    noShow: Option<bool>, followUpScheduled: Option<bool>)

  // ---------------------------------------------------------------------
  // Three-valued conditions

  /** The value of a Spark SQL condition: true, false or null. */
  datatype Truth = Yes | No | Unknown

  function FromBool(b: bool): Truth {
    if b then Yes else No
  }

  /** SQL `OR`: true if either side is true, false if both are false, null otherwise. */
  function Or(a: Truth, b: Truth): Truth {
    if a == Yes || b == Yes then Yes
    else if a == No && b == No then No
    else Unknown
  }

  /** `col.isin(values)`: null on a null column. */
  function IsIn<T(==)>(x: Option<T>, values: seq<T>): Truth {
    match x
    case None => Unknown
    case Some(v) => FromBool(v in values)
  }

  /** `col > bound`: null on a null column. */
  function Greater(x: Option<int>, bound: int): Truth {
    match x
    case None => Unknown
    case Some(v) => FromBool(v > bound)
  }

  /** `col == value`: null on a null column. */
  function Equals<T(==)>(x: Option<T>, value: T): Truth {
    match x
    case None => Unknown
    case Some(v) => FromBool(v == value)
  }

  /** `when(c, ...)` takes its branch only when `c` is true; false and null fall through. */
  predicate Holds(c: Truth) {
    c == Yes
  }

  // ---------------------------------------------------------------------
  // Derived columns

  datatype Category = Counseling | Crisis | Group | Other

  function CategoryText(c: Category): string {
    match c
    case Counseling => "Counseling"
    case Crisis => "Crisis"
    case Group => "Group"
    case Other => "Other"
  }

  lemma CategoryTextInjective(c1: Category, c2: Category)
    requires c1 != c2
    ensures CategoryText(c1) != CategoryText(c2)
  {
    assert CategoryText(c1)[0] != CategoryText(c2)[0] || CategoryText(c1)[1] != CategoryText(c2)[1]
           || |CategoryText(c1)| != |CategoryText(c2)|;
  }

  const CounselingTypes: seq<string> := ["Individual Counseling", "Therapy Session"]
  const CrisisTypes: seq<string> := ["Crisis Support", "Emergency"]
  const GroupTypes: seq<string> := ["Group Therapy", "Workshop"]

  /** The `service_category` chain of `when`s with its `otherwise("Other")`. */
  function ServiceCategory(serviceType: Option<string>): (c: Category)
    ensures c == Counseling <==> serviceType.Some? && serviceType.value in CounselingTypes
    ensures c == Crisis <==> serviceType.Some? && serviceType.value in CrisisTypes
    ensures c == Group <==> serviceType.Some? && serviceType.value in GroupTypes
    ensures c == Other <==>
              serviceType.None?
              || serviceType.value !in CounselingTypes + CrisisTypes + GroupTypes
  {
    if Holds(IsIn(serviceType, CounselingTypes)) then Counseling
    else if Holds(IsIn(serviceType, CrisisTypes)) then Crisis
    else if Holds(IsIn(serviceType, GroupTypes)) then Group
    else Other
  }

  /** Types the source names nowhere, and a null type, all land in Other. */
  lemma UnlistedTypesAreOther()
    ensures ServiceCategory(None) == Other
    ensures ServiceCategory(Some("Assessment")) == Other
    ensures ServiceCategory(Some("Follow-up")) == Other
  {
    assert "Assessment" !in CounselingTypes + CrisisTypes + GroupTypes;
    assert "Follow-up" !in CounselingTypes + CrisisTypes + GroupTypes;
  }

  /** `is_weekend`: day 1 (Sunday) or 7 (Saturday); never null for a present day. */
  function IsWeekend(dayOfWeek: int): (w: bool)
    ensures w <==> dayOfWeek == 1 || dayOfWeek == 7
  {
    Holds(IsIn(Some(dayOfWeek), [1, 7]))
  }

  /**
   * `high_risk_indicator`: the disjunction of three nullable comparisons
   * under `when(...).otherwise(False)`, so a null comparison counts as false.
   */
  function HighRisk(r: ServiceRecord, c: Category): (h: bool)
    ensures h <==> (r.waitDays.Some? && r.waitDays.value > 14) || c == Crisis || r.noShow == Some(true)
  {
    Holds(Or(Or(Greater(r.waitDays, 14), FromBool(c == Crisis)), Equals(r.noShow, true)))
  }

  // ---------------------------------------------------------------------
  // Cleaning

  predicate HasKeys(r: ServiceRecord) {
    r.studentId.Some? && r.appointmentDate.Some?
  }

  /** The two `isNotNull` filters. */
  function DropNullKeys(rs: seq<ServiceRecord>): (out: seq<ServiceRecord>)
    ensures forall i :: 0 <= i < |out| ==> HasKeys(out[i]) && out[i] in rs
    ensures forall r :: r in rs && HasKeys(r) ==> r in out
  {
    if rs == [] then []
    else
      var rest := DropNullKeys(rs[1..]);
      assert forall r :: r in rs[1..] ==> r in rs;
      if HasKeys(rs[0]) then [rs[0]] + rest else rest
  }

  /** The columns `dropDuplicates` compares; nulls compare equal there. */
  function Key(r: ServiceRecord): (Option<string>, Option<Date>, Option<string>) {
    (r.studentId, r.appointmentDate, r.serviceType)
  }

  function KeysOf(rs: seq<ServiceRecord>): set<(Option<string>, Option<Date>, Option<string>)> {
    set i | 0 <= i < |rs| :: Key(rs[i])
  }

  /**
   * `dropDuplicates` on the three key columns: the result keeps one record per
   * key (the first), loses no key and invents no record.
   */
  function Dedup(rs: seq<ServiceRecord>): (out: seq<ServiceRecord>)
    ensures forall i, j :: 0 <= i < j < |out| ==> Key(out[i]) != Key(out[j])
    ensures forall i :: 0 <= i < |out| ==> out[i] in rs
    ensures KeysOf(out) == KeysOf(rs)
    decreases |rs|
  {
    if rs == [] then []
    else
      var init := rs[..|rs| - 1];
      var last := rs[|rs| - 1];
      var rest := Dedup(init);
      assert KeysOf(rs) == KeysOf(init) + {Key(last)} by {
        assert rs == init + [last];
      }
      assert forall r :: r in init ==> r in rs;
      KeysOfAppend(rest, last);
      if Key(last) in KeysOf(rest) then rest else rest + [last]
  }

  lemma KeysOfAppend(s: seq<ServiceRecord>, x: ServiceRecord)
    ensures KeysOf(s + [x]) == KeysOf(s) + {Key(x)}
  {
    forall k | k in KeysOf(s) ensures k in KeysOf(s + [x]) {
      var i :| 0 <= i < |s| && Key(s[i]) == k;
      assert (s + [x])[i] == s[i];
    }
    assert (s + [x])[|s|] == x;
  }

  ghost predicate Cleaned(rs: seq<ServiceRecord>) {
    forall i :: 0 <= i < |rs| ==> HasKeys(rs[i])
  }

  /** Null filtering followed by de-duplication. */
  function Clean(rs: seq<ServiceRecord>): (out: seq<ServiceRecord>)
    ensures Cleaned(out)
    ensures forall i, j :: 0 <= i < j < |out| ==> Key(out[i]) != Key(out[j])
    ensures forall i :: 0 <= i < |out| ==> out[i] in rs
    ensures forall r :: r in rs && HasKeys(r) ==> Key(r) in KeysOf(out)
  {
    var kept := DropNullKeys(rs);
    var out := Dedup(kept);
    assert forall r :: r in rs && HasKeys(r) ==> Key(r) in KeysOf(kept) by {
      forall r | r in rs && HasKeys(r) ensures Key(r) in KeysOf(kept) {
        var i :| 0 <= i < |kept| && kept[i] == r;
      }
    }
    out
  }

  // ---------------------------------------------------------------------
  // Per-student window ordered by appointment date

  function DayOf(r: ServiceRecord): int {
    if r.appointmentDate.Some? then DayNumber(r.appointmentDate.value) else 0
  }

  /** Position `i` holds a record of student `sid`. */
  ghost predicate InPartition(rs: seq<ServiceRecord>, sid: string, i: nat) {
    i < |rs| && rs[i].studentId == Some(sid)
  }

  /** The positions of one student's records, ascending. */
  function Positions(rs: seq<ServiceRecord>, sid: string): (ps: seq<nat>)
    ensures forall i :: i in ps <==> InPartition(rs, sid, i)
    ensures forall k :: 0 <= k < |ps| ==> InPartition(rs, sid, ps[k])
    ensures Distinct(ps)
    decreases |rs|
  {
    if rs == [] then []
    else
      var init := Positions(rs[..|rs| - 1], sid);
      assert |rs| - 1 !in init;
      if rs[|rs| - 1].studentId == Some(sid) then init + [|rs| - 1] else init
  }

  function DayKey(rs: seq<ServiceRecord>): nat -> real {
    (p: nat) => if p < |rs| then DayOf(rs[p]) as real else 0.0
  }

  /**
   * The partition of one student, in window order (by appointment date; ties
   * keep input order, where Spark leaves them unspecified).
   */
  function VisitOrder(rs: seq<ServiceRecord>, sid: string): (order: seq<nat>)
    ensures multiset(order) == multiset(Positions(rs, sid))
    ensures forall i :: i in order <==> InPartition(rs, sid, i)
    ensures forall k :: 0 <= k < |order| ==> InPartition(rs, sid, order[k])
    ensures Distinct(order)
    ensures forall a, b :: 0 <= a < b < |order| ==> DayOf(rs[order[a]]) <= DayOf(rs[order[b]])
  {
    var ps := Positions(rs, sid);
    var order := SortBy(ps, DayKey(rs));
    SortedPositions(rs, sid, ps, order);
    order
  }

  lemma SortedPositions(rs: seq<ServiceRecord>, sid: string, ps: seq<nat>, order: seq<nat>)
    requires ps == Positions(rs, sid)
    requires multiset(order) == multiset(ps) && SortedBy(order, DayKey(rs))
    ensures forall i :: i in order <==> InPartition(rs, sid, i)
    ensures forall k :: 0 <= k < |order| ==> InPartition(rs, sid, order[k])
    ensures Distinct(order)
    ensures forall a, b :: 0 <= a < b < |order| ==> DayOf(rs[order[a]]) <= DayOf(rs[order[b]])
  {
    PermutationKeepsDistinct(ps, order);
    SameElements(ps, order);
    forall k | 0 <= k < |order| ensures InPartition(rs, sid, order[k]) {
      assert order[k] in order;
    }
    forall a, b | 0 <= a < b < |order| ensures DayOf(rs[order[a]]) <= DayOf(rs[order[b]]) {
      assert DayKey(rs)(order[a]) <= DayKey(rs)(order[b]);
    }
  }

  lemma SameElements(ps: seq<nat>, order: seq<nat>)
    requires multiset(order) == multiset(ps)
    ensures forall x :: x in order <==> x in ps
  {
    forall x ensures x in order <==> x in ps {
      assert x in order <==> x in multiset(order);
      assert x in ps <==> x in multiset(ps);
    }
  }

  function IndexOf(s: seq<nat>, x: nat): (k: nat)
    requires x in s
    ensures k < |s| && s[k] == x
    ensures forall j :: 0 <= j < k ==> s[j] != x
  {
    if s[0] == x then 0 else 1 + IndexOf(s[1..], x)
  }

  /** One cleaned record with the columns `transform_data` adds. */
  datatype EnrichedRecord = EnrichedRecord(
    base: ServiceRecord, year: int, month: int, dayOfWeek: int, isWeekend: bool,
    serviceCategory: Category, visitNumber: nat, prevVisitDate: Option<Date>,
    daysSinceLastVisit: Option<int>, highRiskIndicator: bool)

  function VisitIndex(rs: seq<ServiceRecord>, i: nat): (k: nat)
    requires Cleaned(rs) && i < |rs|
    ensures k < |VisitOrder(rs, rs[i].studentId.value)|
    ensures VisitOrder(rs, rs[i].studentId.value)[k] == i
  {
    IndexOf(VisitOrder(rs, rs[i].studentId.value), i)
  }

  /** The three window columns of one record. */
  datatype WindowColumns = WindowColumns(visitNumber: nat, prevVisitDate: Option<Date>, daysSinceLastVisit: Option<int>)

  /**
   * `row_number()` and `lag(appointment_date)` over the student's window, and
   * `datediff` to the lagged date when there is one.
   */
  function Window(rs: seq<ServiceRecord>, i: nat): (w: WindowColumns)
    requires Cleaned(rs) && i < |rs|
    ensures w.visitNumber == VisitIndex(rs, i) + 1
    ensures w.prevVisitDate.None? <==> w.visitNumber == 1
    ensures w.daysSinceLastVisit.Some? <==> w.prevVisitDate.Some?
  {
    var order := VisitOrder(rs, rs[i].studentId.value);
    var k := VisitIndex(rs, i);
    var prev := if k == 0 then None else Some(rs[order[k - 1]].appointmentDate.value);
    var days := if prev.Some? then Some(DateDiff(rs[i].appointmentDate.value, prev.value)) else None;
    WindowColumns(k + 1, prev, days)
  }

  function EnrichRow(rs: seq<ServiceRecord>, i: nat): (e: EnrichedRecord)
    requires Cleaned(rs) && i < |rs|
    ensures e.base == rs[i]
    ensures e.year == rs[i].appointmentDate.value.year && e.month == rs[i].appointmentDate.value.month
    ensures e.dayOfWeek == DayOfWeek(rs[i].appointmentDate.value)
    ensures 1 <= e.dayOfWeek <= 7 && (e.isWeekend <==> e.dayOfWeek == 1 || e.dayOfWeek == 7)
    ensures e.serviceCategory == ServiceCategory(rs[i].serviceType)
    ensures e.serviceCategory == Crisis <==> rs[i].serviceType.Some? && rs[i].serviceType.value in CrisisTypes
    ensures e.highRiskIndicator <==>
              (rs[i].waitDays.Some? && rs[i].waitDays.value > 14) || e.serviceCategory == Crisis
              || rs[i].noShow == Some(true)
    ensures e.visitNumber == Window(rs, i).visitNumber
    ensures e.prevVisitDate == Window(rs, i).prevVisitDate
    ensures e.daysSinceLastVisit == Window(rs, i).daysSinceLastVisit
  {
    var r := rs[i];
    var date := r.appointmentDate.value;
    var dow := DayOfWeek(date);
    var category := ServiceCategory(r.serviceType);
    var w := Window(rs, i);
    EnrichedRecord(r, date.year, date.month, dow, IsWeekend(dow), category,
                   w.visitNumber, w.prevVisitDate, w.daysSinceLastVisit, HighRisk(r, category))
  }

  /** `transform_data`: clean, then enrich every surviving record; only columns are added. */
  function Transform(rs: seq<ServiceRecord>): (out: seq<EnrichedRecord>)
    ensures |out| == |Clean(rs)|
    ensures forall i :: 0 <= i < |out| ==> out[i] == EnrichRow(Clean(rs), i)
    ensures forall i :: 0 <= i < |out| ==> out[i].base in rs && HasKeys(out[i].base)
  {
    var c := Clean(rs);
    seq(|c|, i requires 0 <= i < |c| => EnrichRow(c, i))
  }

  // ---------------------------------------------------------------------
  // Properties of the window columns

  function StudentOf(rs: seq<ServiceRecord>, i: nat): string
    requires Cleaned(rs) && i < |rs|
  {
    rs[i].studentId.value
  }

  /** A student's visit numbers lie in 1..k for k records. */
  lemma VisitNumberRange(rs: seq<ServiceRecord>, i: nat)
    requires Cleaned(rs) && i < |rs|
    ensures 1 <= Window(rs, i).visitNumber <= |Positions(rs, StudentOf(rs, i))|
  {
    var order := VisitOrder(rs, StudentOf(rs, i));
    assert |order| == |multiset(order)| == |Positions(rs, StudentOf(rs, i))|;
  }

  /** Two different records of one student never share a visit number. */
  lemma VisitNumbersDistinct(rs: seq<ServiceRecord>, i: nat, j: nat)
    requires Cleaned(rs) && i < |rs| && j < |rs| && i != j
    requires StudentOf(rs, i) == StudentOf(rs, j)
    ensures Window(rs, i).visitNumber != Window(rs, j).visitNumber
  {
  }

  /** Every number 1..k is the visit number of some record of the student. */
  lemma VisitNumbersCovered(rs: seq<ServiceRecord>, sid: string, n: nat)
    requires Cleaned(rs) && 1 <= n <= |Positions(rs, sid)|
    ensures exists i :: 0 <= i < |rs| && rs[i].studentId == Some(sid) && Window(rs, i).visitNumber == n
  {
    var order := VisitOrder(rs, sid);
    assert |order| == |multiset(order)| == |Positions(rs, sid)|;
    var i := order[n - 1];
    assert StudentOf(rs, i) == sid;
    assert VisitIndex(rs, i) == n - 1;
  }

  /** Visit numbers follow appointment dates: a strictly earlier date gets a smaller number. */
  lemma VisitNumbersFollowDates(rs: seq<ServiceRecord>, i: nat, j: nat)
    requires Cleaned(rs) && i < |rs| && j < |rs|
    requires StudentOf(rs, i) == StudentOf(rs, j)
    ensures Window(rs, i).visitNumber < Window(rs, j).visitNumber ==> DayOf(rs[i]) <= DayOf(rs[j])
    ensures DayOf(rs[i]) < DayOf(rs[j]) ==> Window(rs, i).visitNumber < Window(rs, j).visitNumber
  {
    VisitIndexFollowsDates(rs, i, j);
  }

  lemma VisitIndexFollowsDates(rs: seq<ServiceRecord>, i: nat, j: nat)
    requires Cleaned(rs) && i < |rs| && j < |rs|
    requires StudentOf(rs, i) == StudentOf(rs, j)
    ensures VisitIndex(rs, i) < VisitIndex(rs, j) ==> DayOf(rs[i]) <= DayOf(rs[j])
    ensures DayOf(rs[i]) < DayOf(rs[j]) ==> VisitIndex(rs, i) < VisitIndex(rs, j)
  {
    var order := VisitOrder(rs, StudentOf(rs, i));
    var a, b := VisitIndex(rs, i), VisitIndex(rs, j);
    assert order[a] == i && order[b] == j;
    if b < a {
      assert DayOf(rs[order[b]]) <= DayOf(rs[order[a]]);
    }
  }

  /**
   * `days_since_last_visit` is null exactly on the first visit; otherwise it
   * is the day difference to the visit numbered one less, and never negative.
   */
  lemma DaysSinceLastVisit(rs: seq<ServiceRecord>, i: nat)
    requires Cleaned(rs) && i < |rs|
    ensures Window(rs, i).prevVisitDate.None? <==> Window(rs, i).visitNumber == 1
    ensures Window(rs, i).daysSinceLastVisit.None? <==> Window(rs, i).visitNumber == 1
    ensures Window(rs, i).visitNumber > 1 ==>
              exists j :: 0 <= j < |rs| && StudentOf(rs, j) == StudentOf(rs, i)
                          && Window(rs, j).visitNumber == Window(rs, i).visitNumber - 1
                          && Window(rs, i).prevVisitDate == Some(rs[j].appointmentDate.value)
                          && Window(rs, i).daysSinceLastVisit
                             == Some(DateDiff(rs[i].appointmentDate.value, rs[j].appointmentDate.value))
    ensures Window(rs, i).daysSinceLastVisit.Some? ==> Window(rs, i).daysSinceLastVisit.value >= 0
  {
    if VisitIndex(rs, i) > 0 {
      var j := PreviousVisit(rs, i);
    }
  }

  /** The record the window lags to: the same student's visit numbered one less, on an earlier or equal day. */
  lemma PreviousVisit(rs: seq<ServiceRecord>, i: nat) returns (j: nat)
    requires Cleaned(rs) && i < |rs| && VisitIndex(rs, i) > 0
    ensures j < |rs| && j == VisitOrder(rs, StudentOf(rs, i))[VisitIndex(rs, i) - 1]
    ensures StudentOf(rs, j) == StudentOf(rs, i) && VisitIndex(rs, j) == VisitIndex(rs, i) - 1
    ensures DayOf(rs[j]) <= DayOf(rs[i])
    ensures Window(rs, i).prevVisitDate == Some(rs[j].appointmentDate.value)
  {
    var order := VisitOrder(rs, StudentOf(rs, i));
    var k := VisitIndex(rs, i);
    j := order[k - 1];
    assert StudentOf(rs, j) == StudentOf(rs, i);
    assert VisitIndex(rs, j) == k - 1;
    assert DayOf(rs[j]) <= DayOf(rs[i]);
  }
}
