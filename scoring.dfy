/**
 * The score of one faculty member for one section. Seven contributions add to `score` and
 * `sortScore` and append to `pros`, `cons` and `errors`. Each contribution is a pure
 * function here; the class FacultyClassScheduleScore performs them as in-place updates.
 */
module Scoring {
  import opened Domain
  import opened DiminishingReturns
  import opened Filtering

  const MAXIMUM_PREPS: nat := 2

  /** What one calculation adds to a score record. */
  datatype Contribution = Contribution(score: real, sortScore: int, pros: seq<Note>, cons: seq<Note>, errors: seq<Note>)

  const NoContribution := Contribution(0.0, 0, [], [], [])

  /** The readable state of a score record. */
  datatype Candidate = Candidate(
    facultyMember: FacultyMember,
    score: real,
    sortScore: int,
    pros: seq<Note>,
    cons: seq<Note>,
    errors: seq<Note>)
  {
    function Plus(c: Contribution): Candidate {
      Candidate(facultyMember, score + c.score, sortScore + c.sortScore, pros + c.pros, cons + c.cons, errors + c.errors)
    }

    /** A candidate may be assigned by hand when it has no hard error. */
    predicate IsAssignable() {
      errors == []
    }
  }

  /** A freshly constructed score record. */
  function Start(fm: FacultyMember): Candidate {
    Candidate(fm, 0.0, 0, [], [], [])
  }

  // ---------------------------------------------------------------------------
  // Lookups

  /** The sections of `css` that are assigned to the faculty member `fid`, in order. */
  function ClassSchedulesForFaculty(css: seq<ClassSchedule>, fid: FacultyId): seq<ClassSchedule> {
    Filter(css, (x: ClassSchedule) => AssignedTo(x, fid))
  }

  lemma ClassSchedulesForFacultyMembers(css: seq<ClassSchedule>, fid: FacultyId, x: ClassSchedule)
    ensures x in ClassSchedulesForFaculty(css, fid) <==> x in css && AssignedTo(x, fid)
  {
    FilterMembers(css, (x: ClassSchedule) => AssignedTo(x, fid), x);
  }

  /** The member's sections of two lists in a row are those of the first, then those of the second. */
  lemma ClassSchedulesForFacultyAppend(a: seq<ClassSchedule>, b: seq<ClassSchedule>, fid: FacultyId)
    ensures ClassSchedulesForFaculty(a + b, fid) == ClassSchedulesForFaculty(a, fid) + ClassSchedulesForFaculty(b, fid)
  {
    FilterAppend(a, b, (x: ClassSchedule) => AssignedTo(x, fid));
  }

  /** One entry per position assigned to `fid`: two equal sections assigned to fid count twice. */
  lemma ClassSchedulesForFacultyCount(css: seq<ClassSchedule>, fid: FacultyId)
    ensures |ClassSchedulesForFaculty(css, fid)| == |set i | 0 <= i < |css| && AssignedTo(css[i], fid)|
  {
    var mine := (x: ClassSchedule) => AssignedTo(x, fid);
    FilterCount(css, mine);
    assert Positions(css, mine) == set i | 0 <= i < |css| && AssignedTo(css[i], fid);
  }

  /** The ids of the subjects of `css`: one per distinct subject, as de-duplication by id keeps. */
  function SubjectIds(css: seq<ClassSchedule>): set<SubjectId> {
    if css == [] then {} else SubjectIds(css[..|css| - 1]) + {css[|css| - 1].subject.id}
  }

  lemma {:induction false} SubjectIdsMembers(css: seq<ClassSchedule>, id: SubjectId)
    ensures id in SubjectIds(css) <==> exists x :: x in css && x.subject.id == id
  {
    if css != [] {
      SubjectIdsMembers(css[..|css| - 1], id);
      assert css == css[..|css| - 1] + [css[|css| - 1]];
    }
  }

  /** The meeting hours of the sections of `css` that meet on `days`. */
  function HoursOnDays(css: seq<ClassSchedule>, days: MeetingDays): set<MeetingHours> {
    if css == [] then {}
    else HoursOnDays(css[..|css| - 1], days)
         + (if css[|css| - 1].meetingDays == days then {css[|css| - 1].meetingHours} else {})
  }

  lemma {:induction false} HoursOnDaysMembers(css: seq<ClassSchedule>, days: MeetingDays, h: MeetingHours)
    ensures h in HoursOnDays(css, days) <==> exists x :: x in css && x.meetingDays == days && x.meetingHours == h
  {
    if css != [] {
      HoursOnDaysMembers(css[..|css| - 1], days, h);
      assert css == css[..|css| - 1] + [css[|css| - 1]];
    }
  }

  /** The number of subdocuments associated with `program`. */
  function AssociatedCount(docs: seq<Subdocument>, program: Program): (n: nat)
    ensures n <= |docs|
  {
    |Filter(docs, (d: Subdocument) => program in d.associatedPrograms)|
  }

  lemma AssociatedCountBounds(docs: seq<Subdocument>, program: Program)
    ensures AssociatedCount(docs, program) == 0 <==> forall d :: d in docs ==> program !in d.associatedPrograms
    ensures AssociatedCount(docs, program) == |docs| <==> forall d :: d in docs ==> program in d.associatedPrograms
  {
    var tagged := (d: Subdocument) => program in d.associatedPrograms;
    FilterAll(docs, tagged);
    forall d | d in docs ensures d in Filter(docs, tagged) <==> program in d.associatedPrograms {
      FilterMembers(docs, tagged, d);
    }
    if Filter(docs, tagged) != [] {
      FilterMembers(docs, tagged, Filter(docs, tagged)[0]);
    }
  }

  /** The first declared constraint for the given days and hours. */
  function FindConstraint(avs: seq<TimeConstraint>, days: MeetingDays, hours: MeetingHours): Option<TimeConstraint> {
    if avs == [] then None
    else if avs[0].meetingDays == days && avs[0].meetingHours == hours then Some(avs[0])
    else FindConstraint(avs[1..], days, hours)
  }

  predicate Matches(tc: TimeConstraint, days: MeetingDays, hours: MeetingHours) {
    tc.meetingDays == days && tc.meetingHours == hours
  }

  /** The search finds nothing exactly when no constraint matches, and otherwise finds the first match. */
  lemma {:induction false} FindConstraintFirst(avs: seq<TimeConstraint>, days: MeetingDays, hours: MeetingHours)
    ensures FindConstraint(avs, days, hours).None? <==> forall tc :: tc in avs ==> !Matches(tc, days, hours)
    ensures FindConstraint(avs, days, hours).Some? ==>
      exists k :: 0 <= k < |avs| && avs[k] == FindConstraint(avs, days, hours).value && Matches(avs[k], days, hours) &&
        forall k' :: 0 <= k' < k ==> !Matches(avs[k'], days, hours)
  {
    if avs != [] && !Matches(avs[0], days, hours) {
      var tail := avs[1..];
      FindConstraintFirst(tail, days, hours);
      assert forall tc :: tc in avs ==> tc == avs[0] || tc in tail;
      var r := FindConstraint(tail, days, hours);
      if r.Some? {
        var k :| 0 <= k < |tail| && tail[k] == r.value && Matches(tail[k], days, hours) &&
                 forall k' :: 0 <= k' < k ==> !Matches(tail[k'], days, hours);
        assert avs[k + 1] == r.value;
        assert forall k' :: 0 < k' < k + 1 ==> avs[k'] == tail[k' - 1];
      }
    } else if avs != [] {
      assert avs[0] == FindConstraint(avs, days, hours).value;
    }
  }

  /**
   * The switch on the faculty type falls through: from the matching case label onward every
   * case body adds BASE_POINTS.
   */
  function FallThrough(cases: seq<FacultyType>, t: FacultyType, matched: bool): real {
    if cases == [] then 0.0
    else
      var m := matched || cases[0] == t;
      (if m then BASE_POINTS else 0.0) + FallThrough(cases[1..], t, m)
  }

  const RANK_CASES: seq<FacultyType> := [Instructor, AssistantProfessor, AssociateProfessor, FullProfessor, PartTime]

  function RankScore(t: FacultyType): real {
    FallThrough(RANK_CASES, t, false)
  }

  /** Once a case has matched, every remaining case body runs. */
  lemma {:induction false} FallThroughMatched(cases: seq<FacultyType>, t: FacultyType)
    ensures FallThrough(cases, t, true) == BASE_POINTS * |cases| as real
  {
    if cases != [] {
      FallThroughMatched(cases[1..], t);
    }
  }

  /** Matching the k-th label runs the bodies of labels k to the end. */
  lemma {:induction false} FallThroughFrom(cases: seq<FacultyType>, t: FacultyType, k: nat)
    requires k < |cases| && cases[k] == t && t !in cases[..k]
    ensures FallThrough(cases, t, false) == BASE_POINTS * (|cases| - k) as real
  {
    if k == 0 {
      FallThroughMatched(cases[1..], t);
    } else {
      assert cases[0] in cases[..k];
      assert cases[1..][..k - 1] == cases[1..k];
      assert forall x :: x in cases[1..k] ==> x in cases[..k];
      FallThroughFrom(cases[1..], t, k - 1);
    }
  }

  /** The cumulative rank score: 500, 400, 300, 200 and 100 from Instructor down to PartTime. */
  lemma RankScoreCumulative(t: FacultyType)
    ensures RankScore(t) == match t
      case Instructor => 500.0
      case AssistantProfessor => 400.0
      case AssociateProfessor => 300.0
      case FullProfessor => 200.0
      case PartTime => 100.0
    ensures 100.0 <= RankScore(t) <= 500.0
  {
    var k := match t
      case Instructor => 0
      case AssistantProfessor => 1
      case AssociateProfessor => 2
      case FullProfessor => 3
      case PartTime => 4;
    FallThroughFrom(RANK_CASES, t, k);
  }

  // ---------------------------------------------------------------------------
  // The seven contributions

  /** Diminishing-returns points for the qualifications associated with the section's program. */
  function SubdocumentScore(fm: FacultyMember, cs: ClassSchedule): (c: Contribution)
    ensures c.sortScore == 0 && c.pros == [] && c.cons == [] && c.errors == []
  {
    var program := cs.subject.program;
    Contribution(
      SeriesSum(AssociatedCount(fm.degrees, program), DEGREE)
      + SeriesSum(AssociatedCount(fm.extensionWorks, program), EXTENSION_WORKS)
      + SeriesSum(AssociatedCount(fm.presentations, program), PRESENTATIONS)
      + SeriesSum(AssociatedCount(fm.instructionalMaterials, program), INSTRUCTIONAL_MATERIALS)
      + SeriesSum(AssociatedCount(fm.recognitions, program), RECOGNITIONS),
      0, [], [], [])
  }

  function Rank(fm: FacultyMember): (c: Contribution)
    ensures c.sortScore == 0 && c.pros == [] && c.cons == [] && c.errors == []
  {
    Contribution(RankScore(fm.facultyType), 0, [], [], [])
  }

  /**
   * Distinct subjects already assigned to the faculty member: teaching the section's subject
   * already is a pro; otherwise reaching the cap of MAXIMUM_PREPS is a con.
   */
  function Preparations(fm: FacultyMember, cs: ClassSchedule, css: seq<ClassSchedule>): (c: Contribution)
    ensures c.errors == [] && |c.pros| + |c.cons| <= 1
  {
    var subjects := SubjectIds(ClassSchedulesForFaculty(css, fm.id));
    if cs.subject.id in subjects then
      Contribution(BASE_POINTS, 300, [AlreadyAssignedToSubject], [], [])
    else if |subjects| >= MAXIMUM_PREPS then
      Contribution(0.0, 200, [], [AlreadyHasPreparations(|subjects|)], [])
    else
      NoContribution
  }

  /** True when `h` has two earlier blocks and both are in `hours`. */
  predicate IsThirdConsecutive(h: MeetingHours, hours: set<MeetingHours>) {
    h != AM_7_9 && h != AM_9_11 &&
    TwoMeetingHoursBefore(h).0 in hours && TwoMeetingHoursBefore(h).1 in hours
  }

  /** The hard errors: a third consecutive block on the same days, and a double booking. */
  function ScheduleCompatibility(fm: FacultyMember, cs: ClassSchedule, css: seq<ClassSchedule>): (c: Contribution)
    ensures c.score == 0.0 && c.sortScore == 0 && c.pros == [] && c.cons == []
  {
    var hours := HoursOnDays(ClassSchedulesForFaculty(css, fm.id), cs.meetingDays);
    Contribution(0.0, 0, [], [],
      (if IsThirdConsecutive(cs.meetingHours, hours) then [ThirdConsecutive] else [])
      + (if cs.meetingHours in hours then [ConflictingTimeSlot] else []))
  }

  /** Accepted past assignments to the subject, through the diminishing-returns series. */
  function Experience(timesTaught: nat): (c: Contribution)
    ensures c.cons == [] && c.errors == []
  {
    if timesTaught > 0 then
      Contribution(SeriesSum(timesTaught, TIMES_TAUGHT), 400, [HasTaughtBefore(timesTaught)], [], [])
    else
      Contribution(SeriesSum(0, TIMES_TAUGHT), 0, [], [], [])
  }

  /** No constraints at all means available everywhere; otherwise the first matching constraint decides. */
  function Availability(cs: ClassSchedule, avs: seq<TimeConstraint>): (c: Contribution)
    ensures c.errors == [] && |c.pros| + |c.cons| == 1
  {
    if avs == [] then
      Contribution(0.0, 400, [AvailableAtTimeSlot], [], [])
    else
      match FindConstraint(avs, cs.meetingDays, cs.meetingHours)
      case Some(tc) =>
        if tc.availabilityType == Preferred then Contribution(BASE_POINTS, 500, [PreferredTimeSlot], [], [])
        else if tc.availabilityType == Available then Contribution(0.0, 400, [AvailableAtTimeSlot], [], [])
        else Contribution(0.0, 100, [], [NotAvailableAtTimeSlot], [])
      case None =>
        Contribution(0.0, 100, [], [NotAvailableAtTimeSlot], [])
  }

  /** 500 points and a pro for an underloaded faculty member. */
  function LoadStatus(fm: FacultyMember, css: seq<ClassSchedule>, statusFor: (FacultyType, nat) -> LoadAmountStatus): (c: Contribution)
    ensures c.sortScore == 0 && c.cons == [] && c.errors == []
  {
    if statusFor(fm.facultyType, |ClassSchedulesForFaculty(css, fm.id)|) == Underloaded then
      Contribution(500.0, 0, [IsUnderloaded], [], [])
    else
      NoContribution
  }

  /** The seven calculations of a score record. */
  datatype Calculation =
    | SubdocumentCalculation | RankCalculation | PreparationsCalculation | ScheduleCompatibilityCalculation
    | AvailabilityCalculation | LoadStatusCalculation | ExperienceCalculation

  /**
   * The calculations in the order their records land. All seven run together; the experience
   * calculation is the only one that waits on a query before it records anything, so its
   * record comes after the others'.
   */
  const CALCULATIONS: seq<Calculation> := [
    SubdocumentCalculation, RankCalculation, PreparationsCalculation, ScheduleCompatibilityCalculation,
    AvailabilityCalculation, LoadStatusCalculation, ExperienceCalculation]

  /** What calculation `k` adds to the score record of `fm` for `cs`. */
  function ContributionOf(k: Calculation, fm: FacultyMember, cs: ClassSchedule, css: seq<ClassSchedule>, avs: seq<TimeConstraint>, env: Env): Contribution {
    match k
    case SubdocumentCalculation => SubdocumentScore(fm, cs)
    case RankCalculation => Rank(fm)
    case PreparationsCalculation => Preparations(fm, cs, css)
    case ScheduleCompatibilityCalculation => ScheduleCompatibility(fm, cs, css)
    case AvailabilityCalculation => Availability(cs, avs)
    case LoadStatusCalculation => LoadStatus(fm, css, env.statusForLoadAmount)
    case ExperienceCalculation => Experience(env.timesTaught(fm.id, cs.subject.id))
  }

  /** The record `r` after the calculations `ks`, in order. */
  function Perform(r: Candidate, ks: seq<Calculation>, cs: ClassSchedule, css: seq<ClassSchedule>, avs: seq<TimeConstraint>, env: Env): Candidate {
    if ks == [] then r
    else Perform(r, ks[..|ks| - 1], cs, css, avs, env).Plus(ContributionOf(ks[|ks| - 1], r.facultyMember, cs, css, avs, env))
  }

  /** Performing one more calculation adds its contribution. */
  lemma PerformStep(r: Candidate, ks: seq<Calculation>, j: nat, cs: ClassSchedule, css: seq<ClassSchedule>, avs: seq<TimeConstraint>, env: Env)
    requires 0 < j <= |ks|
    ensures Perform(r, ks[..j], cs, css, avs, env)
            == Perform(r, ks[..j - 1], cs, css, avs, env).Plus(ContributionOf(ks[j - 1], r.facultyMember, cs, css, avs, env))
  {
    assert ks[..j][..j - 1] == ks[..j - 1];
  }

  /** The score record of `fm` for `cs`, given the term's sections and fm's constraints. */
  function Evaluate(fm: FacultyMember, cs: ClassSchedule, css: seq<ClassSchedule>, avs: seq<TimeConstraint>, env: Env): Candidate {
    Perform(Start(fm), CALCULATIONS, cs, css, avs, env)
  }

  /** Performing a list of the seven calculations in order adds their contributions one after another. */
  lemma PerformSeven(r: Candidate, ks: seq<Calculation>, cs: ClassSchedule, css: seq<ClassSchedule>, avs: seq<TimeConstraint>, env: Env)
    requires |ks| == 7
    requires ks[0] == SubdocumentCalculation && ks[1] == RankCalculation && ks[2] == PreparationsCalculation
    requires ks[3] == ScheduleCompatibilityCalculation && ks[4] == AvailabilityCalculation
    requires ks[5] == LoadStatusCalculation && ks[6] == ExperienceCalculation
    ensures var fm := r.facultyMember;
      Perform(r, ks, cs, css, avs, env)
      == r.Plus(SubdocumentScore(fm, cs))
          .Plus(Rank(fm))
          .Plus(Preparations(fm, cs, css))
          .Plus(ScheduleCompatibility(fm, cs, css))
          .Plus(Availability(cs, avs))
          .Plus(LoadStatus(fm, css, env.statusForLoadAmount))
          .Plus(Experience(env.timesTaught(fm.id, cs.subject.id)))
  {
    assert ks[..0] == [] && ks[..7] == ks;
    PerformStep(r, ks, 1, cs, css, avs, env);
    PerformStep(r, ks, 2, cs, css, avs, env);
    PerformStep(r, ks, 3, cs, css, avs, env);
    PerformStep(r, ks, 4, cs, css, avs, env);
    PerformStep(r, ks, 5, cs, css, avs, env);
    PerformStep(r, ks, 6, cs, css, avs, env);
    PerformStep(r, ks, 7, cs, css, avs, env);
  }

  /** Seven contributions added one after another, field by field. */
  lemma PlusSeven(r: Candidate, c1: Contribution, c2: Contribution, c3: Contribution, c4: Contribution, c5: Contribution, c6: Contribution, c7: Contribution)
    ensures r.Plus(c1).Plus(c2).Plus(c3).Plus(c4).Plus(c5).Plus(c6).Plus(c7) == Candidate(
      r.facultyMember,
      r.score + c1.score + c2.score + c3.score + c4.score + c5.score + c6.score + c7.score,
      r.sortScore + c1.sortScore + c2.sortScore + c3.sortScore + c4.sortScore + c5.sortScore + c6.sortScore + c7.sortScore,
      r.pros + c1.pros + c2.pros + c3.pros + c4.pros + c5.pros + c6.pros + c7.pros,
      r.cons + c1.cons + c2.cons + c3.cons + c4.cons + c5.cons + c6.cons + c7.cons,
      r.errors + c1.errors + c2.errors + c3.errors + c4.errors + c5.errors + c6.errors + c7.errors)
  {
  }

  /** Empty note lists drop out of a concatenation. */
  lemma DropEmpties(a: seq<Note>, b: seq<Note>, c: seq<Note>, d: seq<Note>)
    ensures [] + [] + [] + a + [] + b + c + d == a + b + c + d
    ensures [] + [] + [] + a + [] + b + [] + [] == a + b
    ensures [] + [] + [] + [] + a + [] + [] + [] == a
  {
  }

  /** The record belongs to the faculty member it was built for. */
  lemma EvaluateFacultyMember(fm: FacultyMember, cs: ClassSchedule, css: seq<ClassSchedule>, avs: seq<TimeConstraint>, env: Env)
    ensures Evaluate(fm, cs, css, avs, env).facultyMember == fm
  {
    PerformSeven(Start(fm), CALCULATIONS, cs, css, avs, env);
    PlusSeven(Start(fm), SubdocumentScore(fm, cs), Rank(fm), Preparations(fm, cs, css), ScheduleCompatibility(fm, cs, css),
      Availability(cs, avs), LoadStatus(fm, css, env.statusForLoadAmount), Experience(env.timesTaught(fm.id, cs.subject.id)));
  }

  /** Only the preparations, availability and experience calculations move the sort score. */
  lemma EvaluateSortScore(fm: FacultyMember, cs: ClassSchedule, css: seq<ClassSchedule>, avs: seq<TimeConstraint>, env: Env)
    ensures var e := Evaluate(fm, cs, css, avs, env);
      var p := Preparations(fm, cs, css);
      var a := Availability(cs, avs);
      var x := Experience(env.timesTaught(fm.id, cs.subject.id));
      e.sortScore == p.sortScore + a.sortScore + x.sortScore
  {
    PerformSeven(Start(fm), CALCULATIONS, cs, css, avs, env);
    PlusSeven(Start(fm), SubdocumentScore(fm, cs), Rank(fm), Preparations(fm, cs, css), ScheduleCompatibility(fm, cs, css),
      Availability(cs, avs), LoadStatus(fm, css, env.statusForLoadAmount), Experience(env.timesTaught(fm.id, cs.subject.id)));
  }

  /** Only the schedule-compatibility calculation records errors. */
  lemma EvaluateErrors(fm: FacultyMember, cs: ClassSchedule, css: seq<ClassSchedule>, avs: seq<TimeConstraint>, env: Env)
    ensures Evaluate(fm, cs, css, avs, env).errors == ScheduleCompatibility(fm, cs, css).errors
  {
    DropEmpties(ScheduleCompatibility(fm, cs, css).errors, [], [], []);
    PerformSeven(Start(fm), CALCULATIONS, cs, css, avs, env);
    PlusSeven(Start(fm), SubdocumentScore(fm, cs), Rank(fm), Preparations(fm, cs, css), ScheduleCompatibility(fm, cs, css),
      Availability(cs, avs), LoadStatus(fm, css, env.statusForLoadAmount), Experience(env.timesTaught(fm.id, cs.subject.id)));
  }

  /** Only the preparations and availability calculations record cons. */
  lemma EvaluateCons(fm: FacultyMember, cs: ClassSchedule, css: seq<ClassSchedule>, avs: seq<TimeConstraint>, env: Env)
    ensures Evaluate(fm, cs, css, avs, env).cons == Preparations(fm, cs, css).cons + Availability(cs, avs).cons
  {
    DropEmpties(Preparations(fm, cs, css).cons, Availability(cs, avs).cons, [], []);
    PerformSeven(Start(fm), CALCULATIONS, cs, css, avs, env);
    PlusSeven(Start(fm), SubdocumentScore(fm, cs), Rank(fm), Preparations(fm, cs, css), ScheduleCompatibility(fm, cs, css),
      Availability(cs, avs), LoadStatus(fm, css, env.statusForLoadAmount), Experience(env.timesTaught(fm.id, cs.subject.id)));
  }

  /** The pros, in the order they land: preparations, availability, load status, experience. */
  lemma EvaluatePros(fm: FacultyMember, cs: ClassSchedule, css: seq<ClassSchedule>, avs: seq<TimeConstraint>, env: Env)
    ensures var e := Evaluate(fm, cs, css, avs, env);
      var p := Preparations(fm, cs, css);
      var a := Availability(cs, avs);
      var l := LoadStatus(fm, css, env.statusForLoadAmount);
      var x := Experience(env.timesTaught(fm.id, cs.subject.id));
      e.pros == p.pros + a.pros + l.pros + x.pros
  {
    DropEmpties(Preparations(fm, cs, css).pros, Availability(cs, avs).pros, LoadStatus(fm, css, env.statusForLoadAmount).pros, Experience(env.timesTaught(fm.id, cs.subject.id)).pros);
    PerformSeven(Start(fm), CALCULATIONS, cs, css, avs, env);
    PlusSeven(Start(fm), SubdocumentScore(fm, cs), Rank(fm), Preparations(fm, cs, css), ScheduleCompatibility(fm, cs, css),
      Availability(cs, avs), LoadStatus(fm, css, env.statusForLoadAmount), Experience(env.timesTaught(fm.id, cs.subject.id)));
  }

  /** The score is the sum of what the six score-adding calculations add; schedule compatibility adds none. */
  lemma EvaluateScore(fm: FacultyMember, cs: ClassSchedule, css: seq<ClassSchedule>, avs: seq<TimeConstraint>, env: Env)
    ensures var e := Evaluate(fm, cs, css, avs, env);
      var p := Preparations(fm, cs, css);
      var a := Availability(cs, avs);
      var l := LoadStatus(fm, css, env.statusForLoadAmount);
      var x := Experience(env.timesTaught(fm.id, cs.subject.id));
      e.score == SubdocumentScore(fm, cs).score + Rank(fm).score + p.score + a.score + l.score + x.score
  {
    PerformSeven(Start(fm), CALCULATIONS, cs, css, avs, env);
    PlusSeven(Start(fm), SubdocumentScore(fm, cs), Rank(fm), Preparations(fm, cs, css), ScheduleCompatibility(fm, cs, css),
      Availability(cs, avs), LoadStatus(fm, css, env.statusForLoadAmount), Experience(env.timesTaught(fm.id, cs.subject.id)));
  }

  // ---------------------------------------------------------------------------
  // The stateful score record

  class FacultyClassScheduleScore {
    const facultyMember: FacultyMember
    const classSchedule: ClassSchedule
    const classSchedules: seq<ClassSchedule>
    const availabilities: seq<TimeConstraint>
    var pros: seq<Note>
    var cons: seq<Note>
    var errors: seq<Note>
    var score: real
    var sortScore: int

    function Record(): Candidate
      reads this
    {
      Candidate(facultyMember, score, sortScore, pros, cons, errors)
    }

    /** True exactly when no hard error was recorded. */
    function IsAssignable(): (b: bool)
      reads this
      ensures b <==> Record().IsAssignable()
    {
      |errors| == 0
    }

    constructor (fm: FacultyMember, cs: ClassSchedule, css: seq<ClassSchedule>, avs: seq<TimeConstraint>)
      ensures facultyMember == fm && classSchedule == cs && classSchedules == css && availabilities == avs
      ensures Record() == Start(fm)
    {
      facultyMember := fm;
      classSchedule := cs;
      classSchedules := css;
      availabilities := avs;
      pros, cons, errors := [], [], [];
      score, sortScore := 0.0, 0;
    }

    method CalculateScore(env: Env)
      modifies this
      ensures Record() == Perform(old(Record()), CALCULATIONS, classSchedule, classSchedules, availabilities, env)
    {
      ghost var r0 := Record();
      for j := 0 to |CALCULATIONS|
        invariant Record() == Perform(r0, CALCULATIONS[..j], classSchedule, classSchedules, availabilities, env)
      {
        Calculate(CALCULATIONS[j], env);
        PerformStep(r0, CALCULATIONS, j + 1, classSchedule, classSchedules, availabilities, env);
      }
      assert CALCULATIONS[..|CALCULATIONS|] == CALCULATIONS;
    }

    /** Runs calculation `k` against this record. */
    method Calculate(k: Calculation, env: Env)
      modifies this
      ensures Record() == old(Record()).Plus(ContributionOf(k, facultyMember, classSchedule, classSchedules, availabilities, env))
    {
      match k
      case SubdocumentCalculation => CalculateSubdocumentScore();
      case RankCalculation => CalculateRankScore();
      case PreparationsCalculation => CalculatePreparations();
      case ScheduleCompatibilityCalculation => CalculateScheduleCompatibility();
      case AvailabilityCalculation => CalculateAvailability();
      case LoadStatusCalculation => CalculateLoadStatus(env.statusForLoadAmount);
      case ExperienceCalculation => CalculateExperience(env.timesTaught(facultyMember.id, classSchedule.subject.id));
    }

    method CalculateSubdocumentScore()
      modifies this
      ensures Record() == old(Record()).Plus(SubdocumentScore(facultyMember, classSchedule))
    {
      var program := classSchedule.subject.program;
      var degreeCount := AssociatedCount(facultyMember.degrees, program);
      var extensionWorkCount := AssociatedCount(facultyMember.extensionWorks, program);
      var presentationCount := AssociatedCount(facultyMember.presentations, program);
      var instructionalMaterialCount := AssociatedCount(facultyMember.instructionalMaterials, program);
      var recognitionCount := AssociatedCount(facultyMember.recognitions, program);
      var d := ScoreWithDiminishingReturns(degreeCount, DEGREE);
      var e := ScoreWithDiminishingReturns(extensionWorkCount, EXTENSION_WORKS);
      var p := ScoreWithDiminishingReturns(presentationCount, PRESENTATIONS);
      var i := ScoreWithDiminishingReturns(instructionalMaterialCount, INSTRUCTIONAL_MATERIALS);
      var r := ScoreWithDiminishingReturns(recognitionCount, RECOGNITIONS);
      score := score + (d + e + p + i + r);
    }

    method CalculateRankScore()
      modifies this
      ensures Record() == old(Record()).Plus(Rank(facultyMember))
    {
      var t := facultyMember.facultyType;
      RankScoreCumulative(t);
      var rankScore := 0.0;
      var matched := false;
      matched := matched || t == Instructor;
      if matched { rankScore := rankScore + BASE_POINTS; }
      matched := matched || t == AssistantProfessor;
      if matched { rankScore := rankScore + BASE_POINTS; }
      matched := matched || t == AssociateProfessor;
      if matched { rankScore := rankScore + BASE_POINTS; }
      matched := matched || t == FullProfessor;
      if matched { rankScore := rankScore + BASE_POINTS; }
      matched := matched || t == PartTime;
      if matched { rankScore := rankScore + BASE_POINTS; }
      score := score + rankScore;
    }

    method CalculatePreparations()
      modifies this
      ensures Record() == old(Record()).Plus(Preparations(facultyMember, classSchedule, classSchedules))
    {
      var subjectsForFaculty := SubjectIds(ClassSchedulesForFaculty(classSchedules, facultyMember.id));
      var assignedToSameSubject := classSchedule.subject.id in subjectsForFaculty;
      var prepsCanTake := |subjectsForFaculty| < MAXIMUM_PREPS || assignedToSameSubject;
      if !prepsCanTake {
        cons := cons + [AlreadyHasPreparations(|subjectsForFaculty|)];
        sortScore := sortScore + 200;
      }
      if assignedToSameSubject {
        score := score + BASE_POINTS;
        pros := pros + [AlreadyAssignedToSubject];
        sortScore := sortScore + 300;
      }
    }

    method CalculateScheduleCompatibility()
      modifies this
      ensures Record() == old(Record()).Plus(ScheduleCompatibility(facultyMember, classSchedule, classSchedules))
    {
      var cs := classSchedule;
      var classHoursOfTheDays := HoursOnDays(ClassSchedulesForFaculty(classSchedules, facultyMember.id), cs.meetingDays);
      var isThirdConsecutive := cs.meetingHours != AM_7_9 && cs.meetingHours != AM_9_11 &&
        var tmhb := TwoMeetingHoursBefore(cs.meetingHours);
        tmhb.0 in classHoursOfTheDays && tmhb.1 in classHoursOfTheDays;
      ghost var before := errors;
      if isThirdConsecutive {
        errors := errors + [ThirdConsecutive];
      }
      if cs.meetingHours in classHoursOfTheDays {
        errors := errors + [ConflictingTimeSlot];
      }
      assert errors == before + (if isThirdConsecutive then [ThirdConsecutive] else [])
                              + (if cs.meetingHours in classHoursOfTheDays then [ConflictingTimeSlot] else []);
    }

    method CalculateExperience(timesTaught: nat)
      modifies this
      ensures Record() == old(Record()).Plus(Experience(timesTaught))
    {
      if timesTaught > 0 {
        pros := pros + [HasTaughtBefore(timesTaught)];
        sortScore := sortScore + 400;
      }
      var gained := ScoreWithDiminishingReturns(timesTaught, TIMES_TAUGHT);
      score := score + gained;
    }

    method CalculateAvailability()
      modifies this
      ensures Record() == old(Record()).Plus(Availability(classSchedule, availabilities))
    {
      var availability := FindConstraint(availabilities, classSchedule.meetingDays, classSchedule.meetingHours);
      if |availabilities| == 0 {
        pros := pros + [AvailableAtTimeSlot];
        sortScore := sortScore + 400;
        return;
      }
      var isAvailable := availability.Some? &&
        (availability.value.availabilityType == Available || availability.value.availabilityType == Preferred);
      if isAvailable {
        if availability.value.availabilityType == Preferred {
          score := score + BASE_POINTS;
          pros := pros + [PreferredTimeSlot];
          sortScore := sortScore + 500;
        } else {
          pros := pros + [AvailableAtTimeSlot];
          sortScore := sortScore + 400;
        }
      } else {
        cons := cons + [NotAvailableAtTimeSlot];
        sortScore := sortScore + 100;
      }
    }

    method CalculateLoadStatus(statusFor: (FacultyType, nat) -> LoadAmountStatus)
      modifies this
      ensures Record() == old(Record()).Plus(LoadStatus(facultyMember, classSchedules, statusFor))
    {
      var loadAmountStatus := statusFor(facultyMember.facultyType, |ClassSchedulesForFaculty(classSchedules, facultyMember.id)|);
      if loadAmountStatus == Underloaded {
        pros := pros + [IsUnderloaded];
        score := score + 500.0;
      }
    }
  }
}
