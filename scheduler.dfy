/**
 * The greedy scheduler: sorts a term's sections by meeting hours, then walks the unassigned
 * sections not reserved for adjunct faculty and gives each the best feasible candidate.
 */
module Scheduler {
  import opened Domain
  import opened Scoring
  import opened Sorting
  import opened Ranking
  import opened Filtering

  /** Filtering keeps the order of a sorted list. */
  lemma {:induction false} FilterSorted<T>(s: seq<T>, p: T -> bool, key: T -> int)
    requires IsSortedBy(s, key)
    ensures IsSortedBy(Filter(s, p), key)
  {
    if s != [] {
      var s', x := s[..|s| - 1], s[|s| - 1];
      FilterSorted(s', p, key);
      var f := Filter(s', p);
      forall i | 0 <= i < |f| ensures key(f[i]) <= key(x) {
        FilterMembers(s', p, f[i]);
        var k :| 0 <= k < |s'| && s'[k] == f[i];
      }
    }
  }

  // ---------------------------------------------------------------------------
  // The pieces of one scheduling step

  function MeetingHoursKey(cs: ClassSchedule): int {
    cs.meetingHours
  }

  /** A section the scheduler fills: not yet assigned and not reserved for adjunct faculty. */
  predicate Schedulable(cs: ClassSchedule) {
    cs.feedback.None? && !cs.forAdjunct
  }

  /** The positions of the schedulable sections of `css`, in order. */
  function Queue(css: seq<ClassSchedule>): (q: seq<nat>)
    ensures |q| <= |css|
  {
    if css == [] then []
    else Queue(css[..|css| - 1]) + (if Schedulable(css[|css| - 1]) then [|css| - 1] else [])
  }

  /** The sections of the term currently assigned to `fid`, counted by position. */
  function NumberOfAssignments(fid: FacultyId, css: seq<ClassSchedule>): (n: nat)
    ensures n <= |css|
    ensures n == |set i | 0 <= i < |css| && AssignedTo(css[i], fid)|
  {
    ClassSchedulesForFacultyCount(css, fid);
    |ClassSchedulesForFaculty(css, fid)|
  }

  predicate IsFullTime(c: Candidate) {
    c.facultyMember.facultyType != PartTime
  }

  /** The candidate already carries at least the minimum load of its faculty type. */
  predicate AtMinimum(c: Candidate, css: seq<ClassSchedule>, env: Env) {
    NumberOfAssignments(c.facultyMember.id, css) >= env.loadingLimit(c.facultyMember.facultyType).minimum
  }

  /** Only candidates without errors and without cons may be assigned automatically. */
  predicate Feasible(c: Candidate) {
    c.errors == [] && c.cons == []
  }

  /** The ranked candidates, cut down to the full-time ones while some full-time candidate is below minimum. */
  function Pool(ranked: seq<Candidate>, css: seq<ClassSchedule>, env: Env): seq<Candidate> {
    var fullTime := Filter(ranked, IsFullTime);
    if forall c | c in fullTime :: AtMinimum(c, css, env) then ranked else fullTime
  }

  /** The candidate the scheduler picks for section `cs`: the first feasible one of the pool, if any. */
  function Choice(cs: ClassSchedule, css: seq<ClassSchedule>, tcs: seq<TimeConstraint>, faculties: seq<FacultyMember>, env: Env): Option<Candidate> {
    var feasible := Filter(Pool(Ranked(cs, css, tcs, faculties, env), css, env), Feasible);
    if feasible == [] then None else Some(feasible[0])
  }

  /** Section q handed to faculty member `fid`, pending the member's feedback. */
  function Assign(css: seq<ClassSchedule>, q: nat, fid: FacultyId): (r: seq<ClassSchedule>)
    requires q < |css|
    ensures |r| == |css|
  {
    css[q := css[q].(feedback := Some(Feedback(Pending, fid)))]
  }

  /** One step of the pass: section q gets the chosen candidate, or stays as it is when there is none. */
  function Step(css: seq<ClassSchedule>, q: nat, tcs: seq<TimeConstraint>, faculties: seq<FacultyMember>, env: Env): (r: seq<ClassSchedule>)
    requires q < |css|
    ensures |r| == |css|
  {
    match Choice(css[q], css, tcs, faculties, env)
    case None => css
    case Some(c) => Assign(css, q, c.facultyMember.id)
  }

  predicate InRange(qs: seq<nat>, n: nat) {
    forall k :: 0 <= k < |qs| ==> qs[k] < n
  }

  /** The steps for the positions `qs`, in order. */
  function RunQueue(css: seq<ClassSchedule>, qs: seq<nat>, tcs: seq<TimeConstraint>, faculties: seq<FacultyMember>, env: Env): (r: seq<ClassSchedule>)
    requires InRange(qs, |css|)
    ensures |r| == |css|
  {
    if qs == [] then css
    else Step(RunQueue(css, qs[..|qs| - 1], tcs, faculties, env), qs[|qs| - 1], tcs, faculties, env)
  }

  lemma {:induction false} QueueInRange(css: seq<ClassSchedule>)
    ensures InRange(Queue(css), |css|)
  {
    if css != [] {
      QueueInRange(css[..|css| - 1]);
    }
  }

  /** Running one more position of the queue is one more step. */
  lemma RunQueuePrefix(css: seq<ClassSchedule>, qs: seq<nat>, k: nat, tcs: seq<TimeConstraint>, faculties: seq<FacultyMember>, env: Env)
    requires InRange(qs, |css|) && k < |qs|
    ensures InRange(qs[..k], |css|) && InRange(qs[..k + 1], |css|)
    ensures RunQueue(css, qs[..k + 1], tcs, faculties, env) == Step(RunQueue(css, qs[..k], tcs, faculties, env), qs[k], tcs, faculties, env)
  {
    assert qs[..k + 1][..k] == qs[..k];
  }

  /** The whole pass over the term's sections `css0`. */
  function Schedule(css0: seq<ClassSchedule>, tcs: seq<TimeConstraint>, faculties: seq<FacultyMember>, env: Env): (r: seq<ClassSchedule>)
    ensures |r| == |css0|
  {
    var sorted := SortedBy(css0, MeetingHoursKey);
    QueueInRange(sorted);
    RunQueue(sorted, Queue(sorted), tcs, faculties, env)
  }

  // ---------------------------------------------------------------------------
  // The pass, in place

  /** Sorts the term's sections by meeting hours and assigns each schedulable one its best feasible candidate. */
  method MakeSchedule(term: Term, faculties: seq<FacultyMember>, env: Env)
    modifies term.classSchedules
    ensures term.classSchedules[..] == Schedule(old(term.classSchedules[..]), term.timeConstraints, faculties, env)
  {
    SortByKey(term.classSchedules, MeetingHoursKey);
    ghost var sorted := term.classSchedules[..];
    var queue := Queue(term.classSchedules[..]);
    QueueInRange(sorted);
    for k := 0 to |queue|
      invariant term.classSchedules[..] == RunQueue(sorted, queue[..k], term.timeConstraints, faculties, env)
    {
      RunQueuePrefix(sorted, queue, k, term.timeConstraints, faculties, env);
      ScheduleSection(term, queue[k], faculties, env);
    }
    assert queue[..|queue|] == queue;
  }

  /** One iteration of the pass: the section at position q gets the first feasible candidate of the pool, if any. */
  method ScheduleSection(term: Term, q: nat, faculties: seq<FacultyMember>, env: Env)
    requires q < term.classSchedules.Length
    modifies term.classSchedules
    ensures term.classSchedules[..] == Step(old(term.classSchedules[..]), q, term.timeConstraints, faculties, env)
  {
    var cs := term.classSchedules[q];
    var candidates := CandidatesForClassSchedule(cs, term, faculties, env);

    var fullTimeFaculties := Filter(candidates, IsFullTime);
    var fullTimeFacultiesHaveMinimum := FullTimeFacultiesHaveMinimum(fullTimeFaculties, term, env);
    if !fullTimeFacultiesHaveMinimum {
      candidates := fullTimeFaculties;
    }

    candidates := Filter(candidates, Feasible);
    if |candidates| == 0 {
      return;
    }
    term.classSchedules[q] := cs.(feedback := Some(Feedback(Pending, candidates[0].facultyMember.id)));
  }

  /** Whether every full-time candidate already has the minimum load; stops at the first one that does not. */
  method FullTimeFacultiesHaveMinimum(fullTime: seq<Candidate>, term: Term, env: Env) returns (haveMinimum: bool)
    ensures haveMinimum <==> forall c | c in fullTime :: AtMinimum(c, term.classSchedules[..], env)
  {
    haveMinimum := true;
    for k := 0 to |fullTime|
      invariant haveMinimum <==> forall j | 0 <= j < k :: AtMinimum(fullTime[j], term.classSchedules[..], env)
      invariant haveMinimum
    {
      var c := fullTime[k];
      var loadCount := NumberOfAssignments(c.facultyMember.id, term.classSchedules[..]);
      var loadingLimit := env.loadingLimit(c.facultyMember.facultyType);
      if loadCount < loadingLimit.minimum {
        assert c in fullTime && !AtMinimum(c, term.classSchedules[..], env);
        haveMinimum := false;
        break;
      }
    }
  }
}
