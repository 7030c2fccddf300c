/** What the score model promises about one evaluated record. */
module ScoreProperties {
  import opened Domain
  import opened DiminishingReturns
  import opened Scoring

  /** The distinct subjects of the sections already assigned to faculty member `fid`. */
  function AssignedSubjects(fid: FacultyId, css: seq<ClassSchedule>): set<SubjectId> {
    SubjectIds(ClassSchedulesForFaculty(css, fid))
  }

  /** The time blocks on `days` at which faculty member `fid` already teaches. */
  function BookedHours(fid: FacultyId, css: seq<ClassSchedule>, days: MeetingDays): set<MeetingHours> {
    HoursOnDays(ClassSchedulesForFaculty(css, fid), days)
  }

  lemma AssignedSubjectsMembers(fid: FacultyId, css: seq<ClassSchedule>, id: SubjectId)
    ensures id in AssignedSubjects(fid, css) <==> exists x :: x in css && AssignedTo(x, fid) && x.subject.id == id
  {
    var mine := ClassSchedulesForFaculty(css, fid);
    SubjectIdsMembers(mine, id);
    forall x | x in css && AssignedTo(x, fid) && x.subject.id == id ensures id in AssignedSubjects(fid, css) {
      ClassSchedulesForFacultyMembers(css, fid, x);
    }
    if id in AssignedSubjects(fid, css) {
      var x :| x in mine && x.subject.id == id;
      ClassSchedulesForFacultyMembers(css, fid, x);
    }
  }

  lemma BookedHoursMembers(fid: FacultyId, css: seq<ClassSchedule>, days: MeetingDays, h: MeetingHours)
    ensures h in BookedHours(fid, css, days) <==>
            exists x :: x in css && AssignedTo(x, fid) && x.meetingDays == days && x.meetingHours == h
  {
    var mine := ClassSchedulesForFaculty(css, fid);
    HoursOnDaysMembers(mine, days, h);
    forall x | x in css && AssignedTo(x, fid) && x.meetingDays == days && x.meetingHours == h
      ensures h in BookedHours(fid, css, days)
    {
      ClassSchedulesForFacultyMembers(css, fid, x);
    }
    if h in BookedHours(fid, css, days) {
      var x :| x in mine && x.meetingDays == days && x.meetingHours == h;
      ClassSchedulesForFacultyMembers(css, fid, x);
    }
  }

  // ---------------------------------------------------------------------------
  // The notes each calculation can record

  lemma PreparationsNotes(fm: FacultyMember, cs: ClassSchedule, css: seq<ClassSchedule>)
    ensures var c := Preparations(fm, cs, css);
      (c.pros == [] || c.pros == [AlreadyAssignedToSubject]) &&
      (c.cons == [] || c.cons == [AlreadyHasPreparations(|AssignedSubjects(fm.id, css)|)])
  {
  }

  lemma AvailabilityNotes(cs: ClassSchedule, avs: seq<TimeConstraint>)
    ensures var c := Availability(cs, avs);
      (c.pros == [] || c.pros == [AvailableAtTimeSlot] || c.pros == [PreferredTimeSlot]) &&
      (c.cons == [] || c.cons == [NotAvailableAtTimeSlot])
  {
  }

  lemma LoadStatusNotes(fm: FacultyMember, css: seq<ClassSchedule>, statusFor: (FacultyType, nat) -> LoadAmountStatus)
    ensures var c := LoadStatus(fm, css, statusFor);
      c.pros == [] || c.pros == [IsUnderloaded]
  {
  }

  lemma ExperienceNotes(n: nat)
    ensures Experience(n).pros == [] || Experience(n).pros == [HasTaughtBefore(n)]
  {
  }

  // ---------------------------------------------------------------------------
  // Properties of the evaluated record

  /**
   * The preparation cap: the same-subject pro is recorded exactly when the subject is already
   * among fm's subjects; the preparations con exactly when it is not and fm already has
   * MAXIMUM_PREPS or more distinct subjects, and it reports that number.
   */
  lemma PreparationsProsAndCons(fm: FacultyMember, cs: ClassSchedule, css: seq<ClassSchedule>, avs: seq<TimeConstraint>, env: Env, n: nat)
    ensures var e := Evaluate(fm, cs, css, avs, env);
      var subjects := AssignedSubjects(fm.id, css);
      && (AlreadyAssignedToSubject in e.pros <==> cs.subject.id in subjects)
      && (AlreadyHasPreparations(n) in e.cons <==>
            cs.subject.id !in subjects && |subjects| >= MAXIMUM_PREPS && n == |subjects|)
  {
    EvaluatePros(fm, cs, css, avs, env);
    EvaluateCons(fm, cs, css, avs, env);
    PreparationsNotes(fm, cs, css);
    AvailabilityNotes(cs, avs);
    LoadStatusNotes(fm, css, env.statusForLoadAmount);
    ExperienceNotes(env.timesTaught(fm.id, cs.subject.id));
  }

  /**
   * The hard errors: "third consecutive" exactly when the two blocks before this one are
   * booked on the same days, "conflicting" exactly when this block is, and nothing else.
   */
  lemma ErrorsExact(fm: FacultyMember, cs: ClassSchedule, css: seq<ClassSchedule>, avs: seq<TimeConstraint>, env: Env)
    ensures var e := Evaluate(fm, cs, css, avs, env);
      var hours := BookedHours(fm.id, css, cs.meetingDays);
      && (ThirdConsecutive in e.errors <==> IsThirdConsecutive(cs.meetingHours, hours))
      && (ConflictingTimeSlot in e.errors <==> cs.meetingHours in hours)
      && (forall n :: n in e.errors ==> n == ThirdConsecutive || n == ConflictingTimeSlot)
  {
    EvaluateErrors(fm, cs, css, avs, env);
  }

  /** A record is assignable exactly when the section neither double-books fm nor makes a third consecutive block. */
  lemma AssignableIff(fm: FacultyMember, cs: ClassSchedule, css: seq<ClassSchedule>, avs: seq<TimeConstraint>, env: Env)
    ensures Evaluate(fm, cs, css, avs, env).IsAssignable() <==>
      && !(exists x :: x in css && AssignedTo(x, fm.id) && x.meetingDays == cs.meetingDays && x.meetingHours == cs.meetingHours)
      && !IsThirdConsecutive(cs.meetingHours, BookedHours(fm.id, css, cs.meetingDays))
  {
    EvaluateErrors(fm, cs, css, avs, env);
    BookedHoursMembers(fm.id, css, cs.meetingDays, cs.meetingHours);
  }

  /**
   * Availability: a member with no constraints is available everywhere; otherwise the first
   * constraint for the section's days and hours decides, and no matching constraint counts
   * as not available.
   */
  lemma AvailabilityNote(fm: FacultyMember, cs: ClassSchedule, css: seq<ClassSchedule>, avs: seq<TimeConstraint>, env: Env)
    ensures var e := Evaluate(fm, cs, css, avs, env);
      var found := FindConstraint(avs, cs.meetingDays, cs.meetingHours);
      && (avs == [] ==> AvailableAtTimeSlot in e.pros && NotAvailableAtTimeSlot !in e.cons)
      && (PreferredTimeSlot in e.pros <==> avs != [] && found.Some? && found.value.availabilityType == Preferred)
      && (NotAvailableAtTimeSlot in e.cons <==>
            avs != [] && (found.None? || found.value.availabilityType == Unavailable))
  {
    EvaluatePros(fm, cs, css, avs, env);
    EvaluateCons(fm, cs, css, avs, env);
    PreparationsNotes(fm, cs, css);
    LoadStatusNotes(fm, css, env.statusForLoadAmount);
    ExperienceNotes(env.timesTaught(fm.id, cs.subject.id));
  }

  /** Exactly one of the three availability notes is recorded. */
  lemma OneAvailabilityNote(fm: FacultyMember, cs: ClassSchedule, css: seq<ClassSchedule>, avs: seq<TimeConstraint>, env: Env)
    ensures var e := Evaluate(fm, cs, css, avs, env);
      var available, preferred, unavailable :=
        AvailableAtTimeSlot in e.pros, PreferredTimeSlot in e.pros, NotAvailableAtTimeSlot in e.cons;
      (available || preferred || unavailable) &&
      !(available && preferred) && !(available && unavailable) && !(preferred && unavailable)
  {
    EvaluatePros(fm, cs, css, avs, env);
    EvaluateCons(fm, cs, css, avs, env);
    PreparationsNotes(fm, cs, css);
    AvailabilityNotes(cs, avs);
    LoadStatusNotes(fm, css, env.statusForLoadAmount);
    ExperienceNotes(env.timesTaught(fm.id, cs.subject.id));
  }

  /** The experience pro reports the number of times taught, and appears exactly when it is positive. */
  lemma ExperiencePro(fm: FacultyMember, cs: ClassSchedule, css: seq<ClassSchedule>, avs: seq<TimeConstraint>, env: Env, n: nat)
    ensures HasTaughtBefore(n) in Evaluate(fm, cs, css, avs, env).pros <==>
            n == env.timesTaught(fm.id, cs.subject.id) && n > 0
  {
    EvaluatePros(fm, cs, css, avs, env);
    PreparationsNotes(fm, cs, css);
    AvailabilityNotes(cs, avs);
    LoadStatusNotes(fm, css, env.statusForLoadAmount);
    ExperienceNotes(env.timesTaught(fm.id, cs.subject.id));
  }

  /** The underloaded pro appears exactly when the load status at fm's current load is Underloaded. */
  lemma UnderloadedPro(fm: FacultyMember, cs: ClassSchedule, css: seq<ClassSchedule>, avs: seq<TimeConstraint>, env: Env)
    ensures IsUnderloaded in Evaluate(fm, cs, css, avs, env).pros <==>
            env.statusForLoadAmount(fm.facultyType, |ClassSchedulesForFaculty(css, fm.id)|) == Underloaded
  {
    EvaluatePros(fm, cs, css, avs, env);
    PreparationsNotes(fm, cs, css);
    AvailabilityNotes(cs, avs);
    ExperienceNotes(env.timesTaught(fm.id, cs.subject.id));
  }

  /** The sort score lies between 100 (not available, nothing else) and 1200 (same subject, preferred, taught before). */
  lemma SortScoreRange(fm: FacultyMember, cs: ClassSchedule, css: seq<ClassSchedule>, avs: seq<TimeConstraint>, env: Env)
    ensures 100 <= Evaluate(fm, cs, css, avs, env).sortScore <= 1200
  {
    EvaluateSortScore(fm, cs, css, avs, env);
  }

  /** The score is at least the rank score, hence at least 100. */
  lemma ScoreAtLeastRank(fm: FacultyMember, cs: ClassSchedule, css: seq<ClassSchedule>, avs: seq<TimeConstraint>, env: Env)
    ensures Evaluate(fm, cs, css, avs, env).score >= RankScore(fm.facultyType) >= 100.0
  {
    EvaluateScore(fm, cs, css, avs, env);
    RankScoreCumulative(fm.facultyType);
    PresetsDecay();
    var program := cs.subject.program;
    SeriesBounded(AssociatedCount(fm.degrees, program), DEGREE);
    SeriesBounded(AssociatedCount(fm.extensionWorks, program), EXTENSION_WORKS);
    SeriesBounded(AssociatedCount(fm.presentations, program), PRESENTATIONS);
    SeriesBounded(AssociatedCount(fm.instructionalMaterials, program), INSTRUCTIONAL_MATERIALS);
    SeriesBounded(AssociatedCount(fm.recognitions, program), RECOGNITIONS);
    SeriesBounded(env.timesTaught(fm.id, cs.subject.id), TIMES_TAUGHT);
  }

  /** Teaching the subject more often before strictly raises the experience points. */
  lemma ExperienceGrows(n: nat, n': nat)
    requires n < n'
    ensures Experience(n).score < Experience(n').score
  {
    PresetsDecay();
    SeriesMonotone(n, n', TIMES_TAUGHT);
  }
}
