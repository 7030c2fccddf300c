/** The entities the scheduler reads and writes, as values, and the collaborators it consults. */
module Domain {

  datatype Option<T> = None | Some(value: T)

  type FacultyId = nat
  type SubjectId = nat
  /** An academic program (an enum value in the repository), compared for equality only. */
  type Program = nat
  /** A meeting-days value (an enum value in the repository), compared for equality only. */
  type MeetingDays = nat
  /** A meeting-hours value, as its position in the day's totally ordered list of time blocks. */
  type MeetingHours = nat

  /** The first two time blocks of a day; neither has two blocks before it. */
  const AM_7_9: MeetingHours := 0
  const AM_9_11: MeetingHours := 1

  /** The two time blocks immediately before `h`, earliest first. */
  function TwoMeetingHoursBefore(h: MeetingHours): (r: (MeetingHours, MeetingHours))
    requires h != AM_7_9 && h != AM_9_11
    ensures r.0 < r.1 < h && r.1 + 1 == h && r.0 + 2 == h
  {
    (h - 2, h - 1)
  }

  /** The faculty tiers, in the order of the rank switch. */
  datatype FacultyType = Instructor | AssistantProfessor | AssociateProfessor | FullProfessor | PartTime

  datatype FeedbackStatus = Pending | Accepted | Rejected

  datatype AvailabilityType = Preferred | Available | Unavailable

  datatype LoadAmountStatus = Underloaded | Balanced | Overloaded

  datatype LoadingLimit = LoadingLimit(minimum: nat, maximum: nat)

  /** A degree, extension work, presentation, instructional material or recognition. */
  datatype Subdocument = Subdocument(associatedPrograms: seq<Program>)

  datatype FacultyMember = FacultyMember(
    id: FacultyId,
    facultyType: FacultyType,
    degrees: seq<Subdocument>,
    extensionWorks: seq<Subdocument>,
    presentations: seq<Subdocument>,
    instructionalMaterials: seq<Subdocument>,
    recognitions: seq<Subdocument>)

  datatype Subject = Subject(id: SubjectId, program: Program)

  /** An assignment of a section to a faculty member. */
  datatype Feedback = Feedback(status: FeedbackStatus, facultyMember: FacultyId)

  /** A section of a subject in a term, with at most one assignment. */
  datatype ClassSchedule = ClassSchedule(
    section: string,
    subject: Subject,
    meetingDays: MeetingDays,
    meetingHours: MeetingHours,
    forAdjunct: bool,
    feedback: Option<Feedback>)

  /** A faculty member's declared availability for one time block of one set of days. */
  datatype TimeConstraint = TimeConstraint(
    facultyMember: FacultyId,
    meetingDays: MeetingDays,
    meetingHours: MeetingHours,
    availabilityType: AvailabilityType)

  /**
   * What the scheduler asks of code outside its own file: the number of accepted past
   * assignments of a faculty member to a subject, the load status of a faculty type at a
   * given number of sections, and the per-type loading limits (a table over every type).
   */
  datatype Env = Env(
    timesTaught: (FacultyId, SubjectId) -> nat,
    statusForLoadAmount: (FacultyType, nat) -> LoadAmountStatus,
    loadingLimit: FacultyType -> LoadingLimit)

  /** The remarks a score record collects as pros, cons and errors. */
  datatype Note =
    | AlreadyHasPreparations(count: nat)   // "Already has N preparations"
    | AlreadyAssignedToSubject             // "Already assigned to a class with this subject"
    | ThirdConsecutive                     // "This class is the third consecutive"
    | ConflictingTimeSlot                  // "... conflicting with another class of this time slot"
    | HasTaughtBefore(times: nat)          // "Has taught this subject N times before"
    | AvailableAtTimeSlot                  // "Available at this time slot"
    | PreferredTimeSlot                    // "The time slot of this class is preferred"
    | NotAvailableAtTimeSlot               // "Not available at this time slot"
    | IsUnderloaded                        // "Is underloaded"

  /** A planning period: its sections, which the scheduler updates in place, and its time constraints. */
  class Term {
    const classSchedules: array<ClassSchedule>
    const timeConstraints: seq<TimeConstraint>

    constructor (css: seq<ClassSchedule>, tcs: seq<TimeConstraint>)
      ensures classSchedules[..] == css && timeConstraints == tcs && fresh(classSchedules)
    {
      classSchedules := new ClassSchedule[|css|](i requires 0 <= i < |css| => css[i]);
      timeConstraints := tcs;
    }
  }

  /** True when `cs` carries an assignment to the faculty member `fid`. */
  predicate AssignedTo(cs: ClassSchedule, fid: FacultyId) {
    cs.feedback.Some? && cs.feedback.value.facultyMember == fid
  }
}
