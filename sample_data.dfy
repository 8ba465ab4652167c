/**
 * The sample-data generator: zero-padded student and counselor identifiers,
 * and the appointment records built visit by visit for each student who uses
 * the service. Every random draw is an oracle value handed in by the caller
 * (`StudentDraw`, `VisitDraw`); the model fixes what is done with a draw, not
 * how likely it is.
 */
module SampleData {
  import opened Wrappers
  import opened Text
  import opened Sorting
  import opened Calendar

  /** The service types, in the order the generator lists them. */
  datatype ServiceType =
    IndividualCounseling | CrisisSupport | GroupTherapy | TherapySession | Workshop | Assessment | FollowUp
  {
    function Text(): string {
      match this
      case IndividualCounseling => "Individual Counseling"
      case CrisisSupport => "Crisis Support"
      case GroupTherapy => "Group Therapy"
      case TherapySession => "Therapy Session"
      case Workshop => "Workshop"
      case Assessment => "Assessment"
      case FollowUp => "Follow-up"
    }
  }

  const ServiceTypes: seq<ServiceType> := [
    IndividualCounseling, CrisisSupport, GroupTherapy, TherapySession, Workshop, Assessment, FollowUp
  ]

  datatype College =
    Business | Engineering | ArtsAndSciences | Education | Health | LiberalArts | Music | VisualArts
  {
    function Text(): string {
      match this
      case Business => "College of Business"
      case Engineering => "College of Engineering"
      case ArtsAndSciences => "College of Arts and Sciences"
      case Education => "College of Education"
      case Health => "College of Health"
      case LiberalArts => "College of Liberal Arts"
      case Music => "College of Music"
      case VisualArts => "College of Visual Arts"
    }
  }

  const Colleges: seq<College> := [
    Business, Engineering, ArtsAndSciences, Education, Health, LiberalArts, Music, VisualArts
  ]

  datatype StudentYear = Freshman | Sophomore | Junior | Senior | Graduate
  {
    function Text(): string {
      match this
      case Freshman => "Freshman"
      case Sophomore => "Sophomore"
      case Junior => "Junior"
      case Senior => "Senior"
      case Graduate => "Graduate"
    }
  }

  const StudentYears: seq<StudentYear> := [Freshman, Sophomore, Junior, Senior, Graduate]

  datatype Status = FullTime | PartTime
  {
    function Text(): string {
      match this
      case FullTime => "Full-time"
      case PartTime => "Part-time"
    }
  }

  /** Where a visit came from; `FollowUpVisit` ("Follow-up") is used for every non-first visit. */
  datatype Referral =
    SelfReferral | Faculty | Advisor | Peer | HealthServices | ResidenceLife | Athletics | Online | Emergency
    | FollowUpVisit
  {
    function Text(): string {
      match this
      case SelfReferral => "Self-referral"
      case Faculty => "Faculty"
      case Advisor => "Advisor"
      case Peer => "Peer"
      case HealthServices => "Health Services"
      case ResidenceLife => "Residence Life"
      case Athletics => "Athletics"
      case Online => "Online"
      case Emergency => "Emergency"
      case FollowUpVisit => "Follow-up"
    }
  }

  /** The sources a first visit is drawn from. */
  const ReferralSources: seq<Referral> := [
    SelfReferral, Faculty, Advisor, Peer, HealthServices, ResidenceLife, Athletics, Online, Emergency
  ]

  /** Months of academic stress, when non-crisis waits are longer. */
  const StressMonths: set<int> := {10, 11, 4, 5}

  const VisitCap: nat := 20

  // ---------------------------------------------------------------------
  // Identifiers
  // ---------------------------------------------------------------------

  /** `f"{prefix}{str(i).zfill(width)}"`. */
  function PaddedId(prefix: string, width: nat, i: nat): (id: string)
    ensures id == prefix + ZFill(NatToDecimal(i), width)
    ensures |id| >= |prefix| + width
    ensures id[..|prefix|] == prefix
    ensures AllDigits(id[|prefix|..]) && DecimalValue(id[|prefix|..]) == i
    ensures |prefix| + |NatToDecimal(i)| <= |id| && id[|id| - |NatToDecimal(i)|..] == NatToDecimal(i)
  {
    var digits := NatToDecimal(i);
    DecimalRoundTrip(i);
    ZFillKeepsValue(digits, width);
    var id := prefix + ZFill(digits, width);
    assert id[|prefix|..] == ZFill(digits, width);
    assert id[|id| - |digits|..] == ZFill(digits, width)[|ZFill(digits, width)| - |digits|..];
    id
  }

  /** The identifiers for 1..n, in order; no two are equal. */
  function PaddedIds(prefix: string, width: nat, n: nat): (ids: seq<string>)
    ensures |ids| == n
    ensures forall k :: 0 <= k < n ==> ids[k] == PaddedId(prefix, width, k + 1)
    ensures Distinct(ids)
  {
    var ids := seq(n, k requires 0 <= k < n => PaddedId(prefix, width, k + 1));
    PaddedIdsDistinct(prefix, width, ids);
    ids
  }

  lemma PaddedIdsDistinct(prefix: string, width: nat, ids: seq<string>)
    requires forall k :: 0 <= k < |ids| ==> ids[k] == PaddedId(prefix, width, k + 1)
    ensures Distinct(ids)
  {
    forall a, b | 0 <= a < b < |ids| ensures ids[a] != ids[b] {
      assert DecimalValue(ids[a][|prefix|..]) == a + 1;
      assert DecimalValue(ids[b][|prefix|..]) == b + 1;
    }
  }

  // ---------------------------------------------------------------------
  // Draws and records
  // ---------------------------------------------------------------------

  /** The random outcomes for one visit. */
  datatype VisitDraw = VisitDraw(
    firstCrisis: bool,
    typePick: nat,
    sameCounselor: bool,
    counselorPick: nat,
    durationDraw: nat,
    baseWaitDraw: nat,
    crisisWaitDraw: nat,
    noShow: bool,
    referralPick: nat,
    followUpDraw: bool)

  /**
   * The random outcomes for one student: whether they use the service, their
   * attributes, the gamma draw truncated to an integer, the positions in the
   * date range picked by `random.sample`, and one `VisitDraw` per visit.
   */
  datatype StudentDraw = StudentDraw(
    usesServices: bool,
    yearPick: nat,
    collegePick: nat,
    partTime: bool,
    international: bool,
    firstGeneration: bool,
    gammaDraw: nat,
    dateSample: seq<nat>,
    visits: seq<VisitDraw>)

  /** The attributes of a student, fixed before their first visit. */
  datatype Profile = Profile(
    studentId: string,
    studentYear: StudentYear,
    studentCollege: College,
    studentStatus: Status,
    internationalStudent: bool,
    firstGeneration: bool)

  /** One appointment record (the date is kept as a date, not its text). */
  datatype Appointment = Appointment(
    studentId: string,
    appointmentDate: Date,
    serviceType: ServiceType,
    counselorId: string,
    durationMinutes: int,
    studentYear: StudentYear,
    studentCollege: College,
    studentStatus: Status,
    internationalStudent: bool,
    firstGeneration: bool,
    referralSource: Referral,
    waitDays: int,
    noShow: bool,
    followUpScheduled: bool)
  {
    function ProfileOf(): Profile {
      Profile(studentId, studentYear, studentCollege, studentStatus, internationalStudent, firstGeneration)
    }
  }

  /** `random.randint(a, b)` driven by the draw `u`. */
  function RandInt(a: int, b: int, u: nat): (r: int)
    requires a <= b
    ensures a <= r <= b
  {
    a + u % (b - a + 1)
  }

  /** `random.choice(xs)` (and `random.choices(xs, weights)[0]`) driven by the draw `u`. */
  function Choice<T>(xs: seq<T>, u: nat): (x: T)
    requires xs != []
    ensures x in xs
  {
    xs[u % |xs|]
  }

  function ProfileFrom(id: string, s: StudentDraw): (p: Profile)
    ensures p.studentId == id
  {
    Profile(id, Choice(StudentYears, s.yearPick), Choice(Colleges, s.collegePick),
            if s.partTime then PartTime else FullTime, s.international, s.firstGeneration)
  }

  /** `min(int(gamma) + 1, 20)`. */
  function NumVisits(gammaDraw: nat): (n: nat)
    ensures 1 <= n <= VisitCap && n <= gammaDraw + 1
    ensures n < VisitCap ==> n == gammaDraw + 1
  {
    if gammaDraw + 1 < VisitCap then gammaDraw + 1 else VisitCap
  }

  /** How many dates are sampled: the visit count, but never more than the range holds. */
  function SampleSize(gammaDraw: nat, rangeLength: nat): (m: nat)
    ensures m <= NumVisits(gammaDraw) && m <= rangeLength
    ensures m == NumVisits(gammaDraw) || m == rangeLength
  {
    if NumVisits(gammaDraw) < rangeLength then NumVisits(gammaDraw) else rangeLength
  }

  /** What `random.sample` and the per-visit draws can deliver for one student. */
  ghost predicate ValidDraw(s: StudentDraw, rangeLength: nat) {
    && |s.dateSample| == SampleSize(s.gammaDraw, rangeLength)
    && (forall k :: 0 <= k < |s.dateSample| ==> s.dateSample[k] < rangeLength)
    && Distinct(s.dateSample)
    && |s.visits| >= |s.dateSample|
  }

  function PositionKey(p: nat): real { p as real }

  lemma SortedInRange(sample: seq<nat>, sorted: seq<nat>, bound: nat)
    requires forall k :: 0 <= k < |sample| ==> sample[k] < bound
    requires multiset(sorted) == multiset(sample)
    ensures forall k :: 0 <= k < |sorted| ==> sorted[k] < bound
  {
    forall k | 0 <= k < |sorted| ensures sorted[k] < bound {
      assert sorted[k] in multiset(sample);
    }
  }

  /** The dates at the given positions of the range, in the order of the positions. */
  function DatesAt(dateRange: seq<Date>, positions: seq<nat>): (dates: seq<Date>)
    requires forall k :: 0 <= k < |positions| ==> positions[k] < |dateRange|
    ensures |dates| == |positions|
    ensures forall k :: 0 <= k < |dates| ==> dates[k] == dateRange[positions[k]]
  {
    if positions == [] then [] else [dateRange[positions[0]]] + DatesAt(dateRange, positions[1..])
  }

  /** Taking one element out of a sequence takes one copy of it out of its multiset. */
  lemma RemoveOne<T>(s: seq<T>, j: nat)
    requires j < |s|
    ensures multiset(s) == multiset(s[..j] + s[j + 1..]) + multiset{s[j]}
  {
    assert s == s[..j] + [s[j]] + s[j + 1..];
  }

  lemma AddedOnceCancels<T>(m: multiset<T>, n: multiset<T>, x: T)
    requires m + multiset{x} == n + multiset{x}
    ensures m == n
  {
    forall y ensures m[y] == n[y] {
      assert (m + multiset{x})[y] == (n + multiset{x})[y];
    }
  }

  /** Dropping position `j` from the positions drops the date at `j` from the dates. */
  lemma DatesAtRemoveOne(dateRange: seq<Date>, b: seq<nat>, j: nat, rest: seq<nat>)
    requires forall k :: 0 <= k < |b| ==> b[k] < |dateRange|
    requires j < |b| && rest == b[..j] + b[j + 1..]
    ensures forall k :: 0 <= k < |rest| ==> rest[k] < |dateRange|
    ensures multiset(DatesAt(dateRange, b)) == multiset(DatesAt(dateRange, rest)) + multiset{dateRange[b[j]]}
  {
    assert forall k :: 0 <= k < |rest| ==> rest[k] == (if k < j then b[k] else b[k + 1]);
    var dates := DatesAt(dateRange, b);
    RemoveOne(dates, j);
    var l, r := dates[..j] + dates[j + 1..], DatesAt(dateRange, rest);
    forall k | 0 <= k < |l| ensures l[k] == r[k] {
      if k < j {
        assert l[k] == dates[k];
      } else {
        assert l[k] == dates[k + 1];
      }
    }
    assert l == r;
  }

  /** Reordering the positions reorders the dates: the same dates, as many times each. */
  lemma {:induction false} DatesAtPermutation(dateRange: seq<Date>, a: seq<nat>, b: seq<nat>)
    requires forall k :: 0 <= k < |a| ==> a[k] < |dateRange|
    requires multiset(a) == multiset(b)
    ensures forall k :: 0 <= k < |b| ==> b[k] < |dateRange|
    ensures multiset(DatesAt(dateRange, a)) == multiset(DatesAt(dateRange, b))
    decreases |a|
  {
    SortedInRange(a, b, |dateRange|);
    if a != [] {
      var x := a[0];
      assert x in multiset(b);
      var j :| 0 <= j < |b| && b[j] == x;
      var rest := b[..j] + b[j + 1..];
      RemoveOne(b, j);
      assert a == [x] + a[1..];
      AddedOnceCancels(multiset(rest), multiset(a[1..]), x);
      DatesAtPermutation(dateRange, a[1..], rest);
      DatesAtRemoveOne(dateRange, b, j, rest);
      DatesAtFirst(dateRange, a);
    }
  }

  lemma DatesAtFirst(dateRange: seq<Date>, a: seq<nat>)
    requires forall k :: 0 <= k < |a| ==> a[k] < |dateRange|
    requires a != []
    ensures multiset(DatesAt(dateRange, a)) == multiset(DatesAt(dateRange, a[1..])) + multiset{dateRange[a[0]]}
  {
    var first, rest := dateRange[a[0]], DatesAt(dateRange, a[1..]);
    assert DatesAt(dateRange, a) == [first] + rest;
    assert multiset([first] + rest) == multiset{first} + multiset(rest);
  }

  /** `sorted(random.sample(date_range, m))`, the sample given as positions in the range. */
  function VisitDates(dateRange: seq<Date>, sample: seq<nat>): (dates: seq<Date>)
    requires forall k :: 0 <= k < |sample| ==> sample[k] < |dateRange|
    ensures |dates| == |sample|
    ensures forall k :: 0 <= k < |dates| ==> dates[k] in dateRange
  {
    var sorted := SortBy(sample, PositionKey);
    SortedInRange(sample, sorted, |dateRange|);
    DatesAt(dateRange, sorted)
  }

  /** The visit dates are exactly the sampled days, each as often as it was drawn. */
  lemma VisitDatesAreSampled(dateRange: seq<Date>, sample: seq<nat>)
    requires forall k :: 0 <= k < |sample| ==> sample[k] < |dateRange|
    ensures multiset(VisitDates(dateRange, sample)) == multiset(DatesAt(dateRange, sample))
  {
    var sorted := SortBy(sample, PositionKey);
    DatesAtPermutation(dateRange, sample, sorted);
    assert VisitDates(dateRange, sample) == DatesAt(dateRange, sorted);
  }

  ghost predicate StrictlyLater(dates: seq<Date>) {
    forall i, j :: 0 <= i < j < |dates| ==> DayNumber(dates[i]) < DayNumber(dates[j])
  }

  /** Sampling distinct days of an ascending range and sorting them gives strictly later dates. */
  lemma VisitDatesAscend(dateRange: seq<Date>, sample: seq<nat>)
    requires StrictlyLater(dateRange)
    requires forall k :: 0 <= k < |sample| ==> sample[k] < |dateRange|
    requires Distinct(sample)
    ensures StrictlyLater(VisitDates(dateRange, sample))
  {
    var sorted := SortBy(sample, PositionKey);
    SortedInRange(sample, sorted, |dateRange|);
    PermutationKeepsDistinct(sample, sorted);
    assert forall i, j :: 0 <= i < j < |sorted| ==> PositionKey(sorted[i]) != PositionKey(sorted[j]);
    SortedDistinctKeysAscend(sorted, PositionKey);
    assert forall i, j :: 0 <= i < j < |sorted| ==> sorted[i] < sorted[j];
    DatesAtAscend(dateRange, sorted);
    assert DatesAt(dateRange, sorted) == VisitDates(dateRange, sample);
  }

  /** Days picked at increasing positions of an ascending range are strictly later one by one. */
  lemma DatesAtAscend(dateRange: seq<Date>, positions: seq<nat>)
    requires StrictlyLater(dateRange)
    requires forall k :: 0 <= k < |positions| ==> positions[k] < |dateRange|
    requires forall i, j :: 0 <= i < j < |positions| ==> positions[i] < positions[j]
    ensures StrictlyLater(DatesAt(dateRange, positions))
  {
    var dates := DatesAt(dateRange, positions);
    forall i, j | 0 <= i < j < |dates| ensures DayNumber(dates[i]) < DayNumber(dates[j]) {
      assert dates[i] == dateRange[positions[i]] && dates[j] == dateRange[positions[j]];
    }
  }

  // ---------------------------------------------------------------------
  // Field rules
  // ---------------------------------------------------------------------

  /** The duration range allowed for a service type. */
  predicate DurationAllowed(serviceType: ServiceType, minutes: int) {
    if serviceType == Workshop then 90 <= minutes <= 120
    else if serviceType == GroupTherapy then 60 <= minutes <= 90
    else if serviceType == CrisisSupport then 45 <= minutes <= 90
    else 30 <= minutes <= 60
  }

  /** The wait range allowed for a service type in a month. */
  predicate WaitAllowed(serviceType: ServiceType, month: int, wait: int) {
    if serviceType == CrisisSupport then 0 <= wait <= 3
    else if month in StressMonths then 7 <= wait <= 21
    else 2 <= wait <= 10
  }

  /** Crisis Support on a first visit when the draw says so, otherwise a pick from the list. */
  function ServiceTypeOf(i: nat, d: VisitDraw): (t: ServiceType)
    ensures i == 0 && d.firstCrisis ==> t == CrisisSupport
  {
    if i == 0 && d.firstCrisis then CrisisSupport else Choice(ServiceTypes, d.typePick)
  }

  function Duration(serviceType: ServiceType, u: nat): (minutes: int)
    ensures DurationAllowed(serviceType, minutes)
    ensures 30 <= minutes <= 120
  {
    if serviceType == Workshop then RandInt(90, 120, u)
    else if serviceType == GroupTherapy then RandInt(60, 90, u)
    else if serviceType == CrisisSupport then RandInt(45, 90, u)
    else RandInt(30, 60, u)
  }

  function WaitDays(serviceType: ServiceType, month: int, baseDraw: nat, crisisDraw: nat): (wait: int)
    ensures WaitAllowed(serviceType, month, wait)
    ensures 0 <= wait <= 21
  {
    var baseWait := if month in StressMonths then RandInt(7, 21, baseDraw) else RandInt(2, 10, baseDraw);
    if serviceType == CrisisSupport then RandInt(0, 3, crisisDraw) else baseWait
  }

  /**
   * A pick from the list on the first visit; later, the previous record's
   * counselor when the continuity draw succeeds, a fresh pick otherwise.
   */
  function CounselorFor(i: nat, previous: Option<string>, counselorIds: seq<string>, d: VisitDraw): (c: string)
    requires counselorIds != []
    requires i > 0 ==> previous.Some?
    ensures i == 0 || !d.sameCounselor ==> c in counselorIds
    ensures i > 0 && d.sameCounselor ==> c == previous.value
  {
    if i == 0 then Choice(counselorIds, d.counselorPick)
    else if d.sameCounselor then previous.value
    else Choice(counselorIds, d.counselorPick)
  }

  function ReferralFor(i: nat, d: VisitDraw): (r: Referral)
    ensures i > 0 <==> r == FollowUpVisit
  {
    if i == 0 then Choice(ReferralSources, d.referralPick) else FollowUpVisit
  }

  /** The rules the `i`-th of `n` records of the student `p` obeys. */
  ghost predicate VisitRules(a: Appointment, p: Profile, i: nat, n: nat) {
    && a.ProfileOf() == p
    && DurationAllowed(a.serviceType, a.durationMinutes)
    && WaitAllowed(a.serviceType, a.appointmentDate.month, a.waitDays)
    && (i > 0 <==> a.referralSource == FollowUpVisit)
    && (i + 1 < n ==> a.followUpScheduled)
  }

  /** The `i`-th of `n` visits of the student `p` on `date`, with the counselor already assigned. */
  function MakeVisit(p: Profile, i: nat, n: nat, date: Date, counselor: string, d: VisitDraw): (a: Appointment)
    requires i < n
    ensures a.ProfileOf() == p && a.appointmentDate == date && a.counselorId == counselor
  {
    var serviceType := ServiceTypeOf(i, d);
    Appointment(
      p.studentId, date, serviceType, counselor,
      Duration(serviceType, d.durationDraw),
      p.studentYear, p.studentCollege, p.studentStatus, p.internationalStudent, p.firstGeneration,
      ReferralFor(i, d),
      WaitDays(serviceType, date.month, d.baseWaitDraw, d.crisisWaitDraw),
      d.noShow,
      i + 1 < n || d.followUpDraw)
  }

  /** Every visit obeys the duration, wait, referral and follow-up rules for its position. */
  lemma MakeVisitRules(p: Profile, i: nat, n: nat, date: Date, counselor: string, d: VisitDraw)
    requires i < n
    ensures VisitRules(MakeVisit(p, i, n, date, counselor, d), p, i, n)
  {
  }

  // ---------------------------------------------------------------------
  // Records of one student, and of all students
  // ---------------------------------------------------------------------

  /** The `i`-th counselor is the one before. */
  ghost predicate Repeats(c: seq<string>, i: nat)
    requires 0 < i < |c|
  {
    c[i] == c[i - 1]
  }

  /** The `i`-th record has the counselor of the record before it. */
  ghost predicate KeepsCounselor(r: seq<Appointment>, i: nat)
    requires 0 < i < |r|
  {
    r[i].counselorId == r[i - 1].counselorId
  }

  /** The counselors of a student's first `k` visits, each assigned knowing the one before. */
  function Counselors(counselorIds: seq<string>, draws: seq<VisitDraw>, k: nat): (c: seq<string>)
    requires counselorIds != [] && k <= |draws|
    ensures |c| == k
    ensures forall i :: 0 <= i < k ==> c[i] in counselorIds
    ensures forall i :: 0 < i < k && draws[i].sameCounselor ==> Repeats(c, i)
    decreases k
  {
    if k == 0 then []
    else
      var before := Counselors(counselorIds, draws, k - 1);
      var c := before + [CounselorFor(k - 1, if k == 1 then None else Some(before[k - 2]), counselorIds, draws[k - 1])];
      assert forall i :: 0 <= i < k - 1 ==> c[i] == before[i];
      c
  }

  /** The `i`-th counselor is assigned from the `i`-th draw and the counselor before. */
  lemma {:induction false} CounselorAt(counselorIds: seq<string>, draws: seq<VisitDraw>, k: nat, i: nat)
    requires counselorIds != [] && i < k <= |draws|
    ensures var c := Counselors(counselorIds, draws, k);
      c[i] == CounselorFor(i, if i == 0 then None else Some(c[i - 1]), counselorIds, draws[i])
    decreases k
  {
    if i < k - 1 {
      CounselorAt(counselorIds, draws, k - 1, i);
    }
  }

  /** The visit records of one student, one per date. */
  function StudentVisits(p: Profile, dates: seq<Date>, counselorIds: seq<string>,
                         draws: seq<VisitDraw>): (r: seq<Appointment>)
    requires counselorIds != [] && |dates| <= |draws|
    ensures |r| == |dates|
  {
    var c := Counselors(counselorIds, draws, |dates|);
    seq(|dates|, i requires 0 <= i < |dates| => MakeVisit(p, i, |dates|, dates[i], c[i], draws[i]))
  }

  /**
   * Appending the `i`-th visit, its counselor assigned from the last record
   * appended, extends the first `i` visits of `StudentVisits` by one.
   */
  lemma NextVisit(records: seq<Appointment>, extended: seq<Appointment>, p: Profile, dates: seq<Date>,
                  counselorIds: seq<string>, draws: seq<VisitDraw>, i: nat)
    requires counselorIds != [] && i < |dates| <= |draws|
    requires extended == records + StudentVisits(p, dates, counselorIds, draws)[..i]
    ensures var previous := if i == 0 then None else Some(extended[|extended| - 1].counselorId);
      var counselor := CounselorFor(i, previous, counselorIds, draws[i]);
      extended + [MakeVisit(p, i, |dates|, dates[i], counselor, draws[i])]
      == records + StudentVisits(p, dates, counselorIds, draws)[..i + 1]
  {
    var all := StudentVisits(p, dates, counselorIds, draws);
    var visit := all[i];
    assert i > 0 ==> extended[|extended| - 1] == all[i - 1];
    CounselorAt(counselorIds, draws, |dates|, i);
    AppendAssociates(records, all[..i], visit);
    assert all[..i + 1] == all[..i] + [visit];
  }

  /**
   * Records `r` of the student `p` with visits on `dates`: each obeys the
   * rules for its position, falls on its date and has a listed counselor,
   * who is the previous one whenever the continuity draw succeeded.
   */
  ghost predicate VisitsObey(r: seq<Appointment>, p: Profile, dates: seq<Date>,
                             counselorIds: seq<string>, draws: seq<VisitDraw>) {
    && |r| == |dates| <= |draws|
    && (forall i :: 0 <= i < |r| ==> VisitRules(r[i], p, i, |dates|))
    && (forall i :: 0 <= i < |r| ==> r[i].appointmentDate == dates[i] && r[i].counselorId in counselorIds)
    && (forall i :: 0 < i < |r| && draws[i].sameCounselor ==> KeepsCounselor(r, i))
  }

  lemma StudentVisitsObey(p: Profile, dates: seq<Date>, counselorIds: seq<string>, draws: seq<VisitDraw>)
    requires counselorIds != [] && |dates| <= |draws|
    ensures VisitsObey(StudentVisits(p, dates, counselorIds, draws), p, dates, counselorIds, draws)
  {
    var r := StudentVisits(p, dates, counselorIds, draws);
    var c := Counselors(counselorIds, draws, |dates|);
    forall i | 0 <= i < |r| ensures VisitRules(r[i], p, i, |dates|) {
      MakeVisitRules(p, i, |dates|, dates[i], c[i], draws[i]);
    }
    forall i | 0 < i < |r| && draws[i].sameCounselor ensures KeepsCounselor(r, i) {
      assert Repeats(c, i);
    }
  }

  /** The records of one student: none unless they use the service, else one per sampled date. */
  function StudentRecords(dateRange: seq<Date>, id: string, counselorIds: seq<string>,
                          s: StudentDraw): (recs: seq<Appointment>)
    requires counselorIds != [] && ValidDraw(s, |dateRange|)
    ensures !s.usesServices ==> recs == []
    ensures s.usesServices ==> |recs| == |s.dateSample|
  {
    if !s.usesServices then []
    else
      var dates := VisitDates(dateRange, s.dateSample);
      StudentVisits(ProfileFrom(id, s), dates, counselorIds, s.visits)
  }

  ghost predicate ValidDraws(draws: seq<StudentDraw>, rangeLength: nat) {
    forall j :: 0 <= j < |draws| ==> ValidDraw(draws[j], rangeLength)
  }

  /** The records of each student, one block per student identifier. */
  function StudentBlocks(dateRange: seq<Date>, ids: seq<string>, counselorIds: seq<string>,
                         draws: seq<StudentDraw>): (blocks: seq<seq<Appointment>>)
    requires counselorIds != [] && |ids| <= |draws| && ValidDraws(draws, |dateRange|)
    ensures |blocks| == |ids|
  {
    seq(|ids|, k requires 0 <= k < |ids| => StudentRecords(dateRange, ids[k], counselorIds, draws[k]))
  }

  /** The first `j` blocks, one after the other. */
  function Flatten(blocks: seq<seq<Appointment>>, j: nat): seq<Appointment>
    requires j <= |blocks|
  {
    if j == 0 then [] else Flatten(blocks, j - 1) + blocks[j - 1]
  }

  /** Blocks that agree on their first `j` entries flatten alike. */
  lemma {:induction false} FlattenPrefix(b1: seq<seq<Appointment>>, b2: seq<seq<Appointment>>, j: nat)
    requires j <= |b1| && j <= |b2|
    requires forall k :: 0 <= k < j ==> b1[k] == b2[k]
    ensures Flatten(b1, j) == Flatten(b2, j)
  {
    if j > 0 {
      FlattenPrefix(b1, b2, j - 1);
    }
  }

  /** The records of all students, in student order. */
  function Appointments(dateRange: seq<Date>, ids: seq<string>, counselorIds: seq<string>,
                        draws: seq<StudentDraw>): seq<Appointment>
    requires counselorIds != [] && |ids| <= |draws| && ValidDraws(draws, |dateRange|)
  {
    Flatten(StudentBlocks(dateRange, ids, counselorIds, draws), |ids|)
  }

  /** One more student appends exactly that student's records after everyone else's. */
  lemma AppointmentsExtend(dateRange: seq<Date>, ids: seq<string>, id: string, counselorIds: seq<string>,
                           draws: seq<StudentDraw>)
    requires counselorIds != [] && |ids| < |draws| && ValidDraws(draws, |dateRange|)
    ensures Appointments(dateRange, ids + [id], counselorIds, draws)
         == Appointments(dateRange, ids, counselorIds, draws)
            + StudentRecords(dateRange, id, counselorIds, draws[|ids|])
  {
    var before := StudentBlocks(dateRange, ids, counselorIds, draws);
    var after := StudentBlocks(dateRange, ids + [id], counselorIds, draws);
    forall k | 0 <= k < |ids| ensures after[k] == before[k] {
      assert (ids + [id])[k] == ids[k];
    }
    FlattenPrefix(after, before, |ids|);
    assert (ids + [id])[|ids|] == id;
  }

  // ---------------------------------------------------------------------
  // Properties
  // ---------------------------------------------------------------------

  /** A student who uses the service has between 1 and 20 visits (given a non-empty range). */
  lemma VisitCountBounds(dateRange: seq<Date>, id: string, counselorIds: seq<string>, s: StudentDraw)
    requires counselorIds != [] && ValidDraw(s, |dateRange|)
    ensures var n := |StudentRecords(dateRange, id, counselorIds, s)|;
      && (s.usesServices ==> n == SampleSize(s.gammaDraw, |dateRange|))
      && (s.usesServices && dateRange != [] ==> 1 <= n <= VisitCap)
      && (!s.usesServices ==> n == 0)
  {
  }

  /** The rules every record of one student obeys, and counselor continuity between consecutive visits. */
  lemma StudentRules(dateRange: seq<Date>, id: string, counselorIds: seq<string>, s: StudentDraw)
    requires counselorIds != [] && ValidDraw(s, |dateRange|)
    ensures var r := StudentRecords(dateRange, id, counselorIds, s);
      forall i :: 0 <= i < |r| ==>
        && VisitRules(r[i], ProfileFrom(id, s), i, |r|)
        && r[i].appointmentDate in dateRange
        && r[i].counselorId in counselorIds
    ensures var r := StudentRecords(dateRange, id, counselorIds, s);
      forall i :: 0 < i < |r| && s.visits[i].sameCounselor ==> KeepsCounselor(r, i)
  {
    if s.usesServices {
      var dates := VisitDates(dateRange, s.dateSample);
      StudentVisitsObey(ProfileFrom(id, s), dates, counselorIds, s.visits);
    }
  }

  function DatesOf(r: seq<Appointment>): (dates: seq<Date>)
    ensures |dates| == |r|
  {
    seq(|r|, i requires 0 <= i < |r| => r[i].appointmentDate)
  }

  /** One student's visits fall on strictly later dates, one after the other. */
  lemma StudentDatesAscend(dateRange: seq<Date>, id: string, counselorIds: seq<string>, s: StudentDraw)
    requires counselorIds != [] && ValidDraw(s, |dateRange|) && StrictlyLater(dateRange)
    ensures StrictlyLater(DatesOf(StudentRecords(dateRange, id, counselorIds, s)))
  {
    if s.usesServices {
      VisitDatesAscend(dateRange, s.dateSample);
      VisitsOnDates(ProfileFrom(id, s), VisitDates(dateRange, s.dateSample), counselorIds, s.visits);
    }
  }

  /** The `i`-th visit of a student falls on the `i`-th date. */
  lemma VisitsOnDates(p: Profile, dates: seq<Date>, counselorIds: seq<string>, draws: seq<VisitDraw>)
    requires counselorIds != [] && |dates| <= |draws|
    ensures DatesOf(StudentVisits(p, dates, counselorIds, draws)) == dates
  {
    var r := StudentVisits(p, dates, counselorIds, draws);
    forall i | 0 <= i < |r| ensures DatesOf(r)[i] == dates[i] {
      assert r[i].appointmentDate == dates[i];
    }
  }

  ghost predicate RecordRules(a: Appointment, ids: seq<string>, counselorIds: seq<string>) {
    && a.studentId in ids
    && a.counselorId in counselorIds
    && DurationAllowed(a.serviceType, a.durationMinutes)
    && WaitAllowed(a.serviceType, a.appointmentDate.month, a.waitDays)
  }

  ghost predicate AllObey(recs: seq<Appointment>, ids: seq<string>, counselorIds: seq<string>) {
    forall a :: 0 <= a < |recs| ==> RecordRules(recs[a], ids, counselorIds)
  }

  /** A follow-up record comes right after an earlier visit of the same student. */
  ghost predicate FollowsPrevious(before: Appointment, a: Appointment) {
    && before.ProfileOf() == a.ProfileOf()
    && DayNumber(before.appointmentDate) < DayNumber(a.appointmentDate)
  }

  ghost predicate FollowUpsFollow(recs: seq<Appointment>) {
    forall a :: 0 <= a < |recs| && recs[a].referralSource == FollowUpVisit ==>
      a > 0 && FollowsPrevious(recs[a - 1], recs[a])
  }

  /** One student's records obey the field rules, and each of their follow-ups follows the visit before. */
  lemma StudentObeys(dateRange: seq<Date>, id: string, counselorIds: seq<string>, s: StudentDraw)
    requires counselorIds != [] && ValidDraw(s, |dateRange|) && StrictlyLater(dateRange)
    ensures var r := StudentRecords(dateRange, id, counselorIds, s);
      AllObey(r, [id], counselorIds) && FollowUpsFollow(r)
  {
    var r := StudentRecords(dateRange, id, counselorIds, s);
    StudentRules(dateRange, id, counselorIds, s);
    StudentDatesAscend(dateRange, id, counselorIds, s);
    var dates := DatesOf(r);
    forall a | 0 <= a < |r| && r[a].referralSource == FollowUpVisit
      ensures a > 0 && FollowsPrevious(r[a - 1], r[a])
    {
      assert VisitRules(r[a], ProfileFrom(id, s), a, |r|);
      assert VisitRules(r[a - 1], ProfileFrom(id, s), a - 1, |r|);
      assert dates[a - 1] == r[a - 1].appointmentDate && dates[a] == r[a].appointmentDate;
    }
  }

  lemma AllObeyWiden(recs: seq<Appointment>, ids: seq<string>, ids': seq<string>, counselorIds: seq<string>)
    requires AllObey(recs, ids, counselorIds)
    requires forall x :: x in ids ==> x in ids'
    ensures AllObey(recs, ids', counselorIds)
  {
  }

  lemma AllObeyConcat(x: seq<Appointment>, y: seq<Appointment>, ids: seq<string>, counselorIds: seq<string>)
    requires AllObey(x, ids, counselorIds) && AllObey(y, ids, counselorIds)
    ensures AllObey(x + y, ids, counselorIds)
  {
    forall a | 0 <= a < |x + y| ensures RecordRules((x + y)[a], ids, counselorIds) {
      if a < |x| {
        assert (x + y)[a] == x[a];
      } else {
        assert (x + y)[a] == y[a - |x|];
      }
    }
  }

  /** A follow-up never opens a block, so concatenating blocks keeps every follow-up after its visit. */
  lemma FollowUpsConcat(x: seq<Appointment>, y: seq<Appointment>)
    requires FollowUpsFollow(x) && FollowUpsFollow(y)
    ensures FollowUpsFollow(x + y)
  {
    var r := x + y;
    forall a | 0 <= a < |r| && r[a].referralSource == FollowUpVisit
      ensures a > 0 && FollowsPrevious(r[a - 1], r[a])
    {
      if a < |x| {
        assert r[a] == x[a] && r[a - 1] == x[a - 1];
      } else {
        assert r[a] == y[a - |x|];
        assert r[a - 1] == y[a - |x| - 1];
      }
    }
  }

  lemma {:induction false} FlattenObeys(blocks: seq<seq<Appointment>>, ids: seq<string>,
                                        counselorIds: seq<string>, j: nat)
    requires j <= |blocks| && j <= |ids|
    requires forall k :: 0 <= k < j ==> AllObey(blocks[k], [ids[k]], counselorIds) && FollowUpsFollow(blocks[k])
    ensures AllObey(Flatten(blocks, j), ids[..j], counselorIds) && FollowUpsFollow(Flatten(blocks, j))
    decreases j
  {
    if j > 0 {
      var pre := Flatten(blocks, j - 1);
      FlattenObeys(blocks, ids, counselorIds, j - 1);
      assert ids[..j] == ids[..j - 1] + [ids[j - 1]];
      AllObeyWiden(pre, ids[..j - 1], ids[..j], counselorIds);
      AllObeyWiden(blocks[j - 1], [ids[j - 1]], ids[..j], counselorIds);
      AllObeyConcat(pre, blocks[j - 1], ids[..j], counselorIds);
      FollowUpsConcat(pre, blocks[j - 1]);
    }
  }

  /**
   * Across all students: every record obeys the field rules with a listed
   * student identifier, and a FollowUpVisit record directly follows an
   * earlier visit of the same student.
   */
  lemma AppointmentRules(dateRange: seq<Date>, ids: seq<string>, counselorIds: seq<string>,
                         draws: seq<StudentDraw>)
    requires counselorIds != [] && |ids| <= |draws| && ValidDraws(draws, |dateRange|)
    requires StrictlyLater(dateRange)
    ensures var recs := Appointments(dateRange, ids, counselorIds, draws);
      AllObey(recs, ids, counselorIds) && FollowUpsFollow(recs)
  {
    var blocks := StudentBlocks(dateRange, ids, counselorIds, draws);
    forall k | 0 <= k < |ids|
      ensures AllObey(blocks[k], [ids[k]], counselorIds) && FollowUpsFollow(blocks[k])
    {
      StudentObeys(dateRange, ids[k], counselorIds, draws[k]);
    }
    FlattenObeys(blocks, ids, counselorIds, |ids|);
    assert ids[..|ids|] == ids;
  }

  /** The attributes drawn for the first `j` students. */
  function StudentProfiles(ids: seq<string>, draws: seq<StudentDraw>, j: nat): (ps: seq<Profile>)
    requires j <= |ids| && j <= |draws|
    ensures |ps| == j
  {
    seq(j, k requires 0 <= k < j => ProfileFrom(ids[k], draws[k]))
  }

  /** Each record carries one of the attribute sets `profiles`. */
  ghost predicate ProfilesAmong(recs: seq<Appointment>, profiles: seq<Profile>) {
    forall a :: 0 <= a < |recs| ==> recs[a].ProfileOf() in profiles
  }

  /** Every record of `block` carries the attributes `p`. */
  ghost predicate BlockOf(block: seq<Appointment>, p: Profile) {
    forall i :: 0 <= i < |block| ==> block[i].ProfileOf() == p
  }

  lemma ProfilesAmongConcat(x: seq<Appointment>, y: seq<Appointment>, profiles: seq<Profile>, j: nat)
    requires 0 < j <= |profiles| && ProfilesAmong(x, profiles[..j - 1]) && BlockOf(y, profiles[j - 1])
    ensures ProfilesAmong(x + y, profiles[..j])
  {
    assert profiles[..j] == profiles[..j - 1] + [profiles[j - 1]];
    var r := x + y;
    forall a | 0 <= a < |r| ensures r[a].ProfileOf() in profiles[..j] {
      if a < |x| {
        assert r[a] == x[a];
      } else {
        assert r[a] == y[a - |x|];
      }
    }
  }

  lemma {:induction false} FlattenProfiles(blocks: seq<seq<Appointment>>, profiles: seq<Profile>, j: nat)
    requires j <= |blocks| && j <= |profiles|
    requires forall k :: 0 <= k < j ==> BlockOf(blocks[k], profiles[k])
    ensures ProfilesAmong(Flatten(blocks, j), profiles[..j])
    decreases j
  {
    if j > 0 {
      FlattenProfiles(blocks, profiles, j - 1);
      ProfilesAmongConcat(Flatten(blocks, j - 1), blocks[j - 1], profiles, j);
    }
  }

  /** With distinct identifiers, records with one student identifier carry one set of attributes. */
  lemma SameStudentSameProfile(recs: seq<Appointment>, ids: seq<string>, draws: seq<StudentDraw>, j: nat)
    requires j <= |ids| && j <= |draws| && Distinct(ids)
    requires ProfilesAmong(recs, StudentProfiles(ids, draws, j))
    ensures forall a, b :: 0 <= a < |recs| && 0 <= b < |recs| && recs[a].studentId == recs[b].studentId ==>
      recs[a].ProfileOf() == recs[b].ProfileOf()
  {
    forall a, b | 0 <= a < |recs| && 0 <= b < |recs| && recs[a].studentId == recs[b].studentId
      ensures recs[a].ProfileOf() == recs[b].ProfileOf()
    {
      var ps := StudentProfiles(ids, draws, j);
      var ka :| 0 <= ka < j && ps[ka] == recs[a].ProfileOf();
      var kb :| 0 <= kb < j && ps[kb] == recs[b].ProfileOf();
      assert ps[ka].studentId == ids[ka] && ps[kb].studentId == ids[kb];
      assert ka == kb;
    }
  }

  /**
   * Every record carries the attributes drawn for one student, and with
   * distinct identifiers the records of one student all carry the same ones.
   */
  lemma ProfilesConstant(dateRange: seq<Date>, ids: seq<string>, counselorIds: seq<string>,
                         draws: seq<StudentDraw>)
    requires counselorIds != [] && |ids| <= |draws| && ValidDraws(draws, |dateRange|)
    requires Distinct(ids)
    ensures ProfilesAmong(Appointments(dateRange, ids, counselorIds, draws), StudentProfiles(ids, draws, |ids|))
    ensures var recs := Appointments(dateRange, ids, counselorIds, draws);
      forall a, b :: 0 <= a < |recs| && 0 <= b < |recs| && recs[a].studentId == recs[b].studentId ==>
        recs[a].ProfileOf() == recs[b].ProfileOf()
  {
    var blocks := StudentBlocks(dateRange, ids, counselorIds, draws);
    var profiles := StudentProfiles(ids, draws, |ids|);
    forall k | 0 <= k < |ids| ensures BlockOf(blocks[k], profiles[k]) {
      BlockProfile(dateRange, ids[k], counselorIds, draws[k]);
    }
    FlattenProfiles(blocks, profiles, |ids|);
    assert profiles[..|ids|] == profiles;
    SameStudentSameProfile(Flatten(blocks, |ids|), ids, draws, |ids|);
  }

  lemma BlockProfile(dateRange: seq<Date>, id: string, counselorIds: seq<string>, s: StudentDraw)
    requires counselorIds != [] && ValidDraw(s, |dateRange|)
    ensures BlockOf(StudentRecords(dateRange, id, counselorIds, s), ProfileFrom(id, s))
  {
  }

  lemma AppendAssociates<T>(a: seq<T>, b: seq<T>, x: T)
    ensures (a + b) + [x] == a + (b + [x])
  {
  }

  // ---------------------------------------------------------------------
  // The generator
  // ---------------------------------------------------------------------

  class SampleDataGenerator {
    const numStudents: nat
    /** The daily `pd.date_range` from the start date to the end date. */
    const dateRange: seq<Date>

    ghost predicate Valid() {
      StrictlyLater(dateRange)
    }

    constructor (numStudents: nat, dateRange: seq<Date>)
      requires StrictlyLater(dateRange)
      ensures this.numStudents == numStudents && this.dateRange == dateRange
      ensures Valid()
    {
      this.numStudents := numStudents;
      this.dateRange := dateRange;
    }

    /** "STU" followed by i padded to six digits, for i = 1..numStudents. */
    function GenerateStudentIds(): (ids: seq<string>)
      ensures |ids| == numStudents && Distinct(ids)
      ensures forall k :: 0 <= k < |ids| ==>
        |ids[k]| >= 9 && ids[k][..3] == "STU" && AllDigits(ids[k][3..]) && DecimalValue(ids[k][3..]) == k + 1
      ensures forall k :: 0 <= k < |ids| ==> ids[k] == "STU" + ZFill(NatToDecimal(k + 1), 6)
    {
      PaddedIds("STU", 6, numStudents)
    }

    /** "CNS" followed by i padded to three digits, for i = 1..numCounselors. */
    function GenerateCounselorIds(numCounselors: nat := 50): (ids: seq<string>)
      ensures |ids| == numCounselors && Distinct(ids)
      ensures forall k :: 0 <= k < |ids| ==>
        |ids[k]| >= 6 && ids[k][..3] == "CNS" && AllDigits(ids[k][3..]) && DecimalValue(ids[k][3..]) == k + 1
      ensures forall k :: 0 <= k < |ids| ==> ids[k] == "CNS" + ZFill(NatToDecimal(k + 1), 3)
    {
      PaddedIds("CNS", 3, numCounselors)
    }

    /** One student's turn: nothing unless they use the service, otherwise their visits. */
    method AppendStudent(records: seq<Appointment>, studentId: string, counselorIds: seq<string>,
                         s: StudentDraw)
      returns (extended: seq<Appointment>)
      requires counselorIds != [] && ValidDraw(s, |dateRange|)
      ensures extended == records + StudentRecords(dateRange, studentId, counselorIds, s)
    {
      extended := records;
      if s.usesServices {
        var profile := ProfileFrom(studentId, s);
        var dates := VisitDates(dateRange, s.dateSample);
        extended := AppendVisits(records, profile, dates, counselorIds, s.visits);
      }
    }

    /**
     * The visits of one student, appended one by one; a later visit reads the
     * counselor of the record appended just before it.
     */
    method AppendVisits(records: seq<Appointment>, profile: Profile, dates: seq<Date>,
                        counselorIds: seq<string>, visits: seq<VisitDraw>)
      returns (extended: seq<Appointment>)
      requires counselorIds != [] && |dates| <= |visits|
      ensures extended == records + StudentVisits(profile, dates, counselorIds, visits)
    {
      extended := records;
      var i := 0;
      while i < |dates|
        invariant 0 <= i <= |dates|
        invariant extended == records + StudentVisits(profile, dates, counselorIds, visits)[..i]
      {
        var previous := if i == 0 then None else Some(extended[|extended| - 1].counselorId);
        var counselor := CounselorFor(i, previous, counselorIds, visits[i]);
        var record := MakeVisit(profile, i, |dates|, dates[i], counselor, visits[i]);
        NextVisit(records, extended, profile, dates, counselorIds, visits, i);
        extended := extended + [record];
        i := i + 1;
      }
      assert StudentVisits(profile, dates, counselorIds, visits)[..i] == StudentVisits(profile, dates, counselorIds, visits);
    }

    /** Students in order, each taking a turn at `AppendStudent`. */
    method GenerateAppointments(draws: seq<StudentDraw>) returns (records: seq<Appointment>)
      requires |draws| == numStudents && ValidDraws(draws, |dateRange|)
      ensures records == Appointments(dateRange, GenerateStudentIds(), GenerateCounselorIds(), draws)
    {
      records := [];
      var studentIds := GenerateStudentIds();
      var counselorIds := GenerateCounselorIds();
      ghost var blocks := StudentBlocks(dateRange, studentIds, counselorIds, draws);
      var j := 0;
      while j < |studentIds|
        invariant 0 <= j <= |studentIds|
        invariant records == Flatten(blocks, j)
      {
        records := AppendStudent(records, studentIds[j], counselorIds, draws[j]);
        j := j + 1;
      }
    }
  }
}
