/** Every faculty member scored against one section, highest sortScore first. */
module Ranking {
  import opened Domain
  import opened Scoring
  import opened Sorting
  import opened Filtering

  /** The time constraints the faculty member `fid` submitted, in order. */
  function ConstraintsFor(tcs: seq<TimeConstraint>, fid: FacultyId): seq<TimeConstraint> {
    Filter(tcs, (tc: TimeConstraint) => tc.facultyMember == fid)
  }

  lemma ConstraintsForMembers(tcs: seq<TimeConstraint>, fid: FacultyId, tc: TimeConstraint)
    ensures tc in ConstraintsFor(tcs, fid) <==> tc in tcs && tc.facultyMember == fid
  {
    FilterMembers(tcs, (tc: TimeConstraint) => tc.facultyMember == fid, tc);
  }

  /** The member's constraints of two lists in a row are those of the first, then those of the second. */
  lemma ConstraintsForAppend(a: seq<TimeConstraint>, b: seq<TimeConstraint>, fid: FacultyId)
    ensures ConstraintsFor(a + b, fid) == ConstraintsFor(a, fid) + ConstraintsFor(b, fid)
  {
    FilterAppend(a, b, (tc: TimeConstraint) => tc.facultyMember == fid);
  }

  /**
   * The availability lookup over fid's constraints finds the first of the term's constraints
   * that is fid's and names the section's days and hours, and nothing when there is none.
   */
  lemma ConstraintsForFirstMatch(tcs: seq<TimeConstraint>, fid: FacultyId, days: MeetingDays, hours: MeetingHours)
    ensures FindConstraint(ConstraintsFor(tcs, fid), days, hours).None? <==>
            forall tc :: tc in tcs ==> !(tc.facultyMember == fid && Matches(tc, days, hours))
    ensures FindConstraint(ConstraintsFor(tcs, fid), days, hours).Some? ==>
      exists k :: 0 <= k < |tcs| && tcs[k] == FindConstraint(ConstraintsFor(tcs, fid), days, hours).value
        && tcs[k].facultyMember == fid && Matches(tcs[k], days, hours)
        && forall j :: 0 <= j < k ==> !(tcs[j].facultyMember == fid && Matches(tcs[j], days, hours))
  {
    var mine := (tc: TimeConstraint) => tc.facultyMember == fid;
    var here := (tc: TimeConstraint) => Matches(tc, days, hours);
    var both := (tc: TimeConstraint) => tc.facultyMember == fid && Matches(tc, days, hours);
    var avs := ConstraintsFor(tcs, fid);
    FindConstraintFirst(avs, days, hours);
    FilterFilter(tcs, mine, here, both);
    forall tc ensures tc in tcs && both(tc) <==> tc in avs && here(tc) {
      FilterMembers(tcs, mine, tc);
    }
    var found := FindConstraint(avs, days, hours);
    if found.Some? {
      var k1 :| 0 <= k1 < |avs| && avs[k1] == found.value && Matches(avs[k1], days, hours) &&
                forall k' :: 0 <= k' < k1 ==> !Matches(avs[k'], days, hours);
      FilterMembers(avs, here, avs[k1]);
      FilterFirst(avs, here);
      var k2 :| 0 <= k2 < |avs| && avs[k2] == Filter(avs, here)[0] && here(avs[k2]) && forall j :: 0 <= j < k2 ==> !here(avs[j]);
      assert k1 == k2;
      FilterFirst(tcs, both);
    }
  }

  /** `f` applied to each element of `s`, as Array.prototype.map does. */
  function MapSeq<T, U>(s: seq<T>, f: T -> U): (r: seq<U>)
    ensures |r| == |s|
  {
    if s == [] then [] else MapSeq(s[..|s| - 1], f) + [f(s[|s| - 1])]
  }

  /** The i-th mapped element is f of the i-th element. */
  lemma {:induction false} MapSeqAt<T, U>(s: seq<T>, f: T -> U, i: nat)
    requires i < |s|
    ensures MapSeq(s, f)[i] == f(s[i])
  {
    if i < |s| - 1 {
      MapSeqAt(s[..|s| - 1], f, i);
    }
  }

  /** The score of one faculty member against section `cs`, with that member's constraints. */
  function ScoreOf(cs: ClassSchedule, css: seq<ClassSchedule>, tcs: seq<TimeConstraint>, env: Env): FacultyMember -> Candidate {
    (fs: FacultyMember) => Evaluate(fs, cs, css, ConstraintsFor(tcs, fs.id), env)
  }

  /** The score record of each faculty member, in directory order. */
  function Scored(cs: ClassSchedule, css: seq<ClassSchedule>, tcs: seq<TimeConstraint>, faculties: seq<FacultyMember>, env: Env): seq<Candidate> {
    MapSeq(faculties, ScoreOf(cs, css, tcs, env))
  }

  /** Sorting ascending on the negated sortScore puts the highest sortScore first. */
  function SortKey(c: Candidate): int {
    -c.sortScore
  }

  function Ranked(cs: ClassSchedule, css: seq<ClassSchedule>, tcs: seq<TimeConstraint>, faculties: seq<FacultyMember>, env: Env): seq<Candidate> {
    SortedBy(Scored(cs, css, tcs, faculties, env), SortKey)
  }

  /** Scores every faculty member against `cs` and sorts the records by sortScore, highest first. */
  method CandidatesForClassSchedule(cs: ClassSchedule, term: Term, faculties: seq<FacultyMember>, env: Env)
    returns (candidates: seq<Candidate>)
    ensures candidates == Ranked(cs, term.classSchedules[..], term.timeConstraints, faculties, env)
  {
    var scored := ScoreAll(cs, term.classSchedules[..], term.timeConstraints, faculties, env);
    SortByKey(scored, SortKey);
    candidates := scored[..];
  }

  /** A fresh array holding the score record of each faculty member, in directory order. */
  method ScoreAll(cs: ClassSchedule, css: seq<ClassSchedule>, tcs: seq<TimeConstraint>, faculties: seq<FacultyMember>, env: Env)
    returns (scored: array<Candidate>)
    ensures fresh(scored)
    ensures scored[..] == Scored(cs, css, tcs, faculties, env)
  {
    ghost var score := ScoreOf(cs, css, tcs, env);
    var records: seq<Candidate> := [];
    for i := 0 to |faculties|
      invariant records == MapSeq(faculties[..i], score)
    {
      var fs := faculties[i];
      var availabilities := ConstraintsFor(tcs, fs.id);
      var c := ScoreFaculty(fs, cs, css, availabilities, env);
      assert faculties[..i + 1][..i] == faculties[..i];
      records := records + [c];
    }
    assert faculties[..|faculties|] == faculties;
    scored := new Candidate[|records|](k requires 0 <= k < |records| => records[k]);
  }

  /** The score record of one faculty member, built by a fresh FacultyClassScheduleScore. */
  method ScoreFaculty(fs: FacultyMember, cs: ClassSchedule, css: seq<ClassSchedule>, availabilities: seq<TimeConstraint>, env: Env)
    returns (c: Candidate)
    ensures c == Evaluate(fs, cs, css, availabilities, env)
  {
    var fcss := new FacultyClassScheduleScore(fs, cs, css, availabilities);
    fcss.CalculateScore(env);
    c := fcss.Record();
  }

  /** One record per faculty member: the ranking is a permutation of the scored list. */
  lemma RankedPermutes(cs: ClassSchedule, css: seq<ClassSchedule>, tcs: seq<TimeConstraint>, faculties: seq<FacultyMember>, env: Env)
    ensures |Ranked(cs, css, tcs, faculties, env)| == |faculties|
    ensures multiset(Ranked(cs, css, tcs, faculties, env)) == multiset(Scored(cs, css, tcs, faculties, env))
  {
    SortedByPermutes(Scored(cs, css, tcs, faculties, env), SortKey);
  }

  /** A candidate is ranked exactly when it is the score record of some faculty member. */
  lemma RankedMembers(cs: ClassSchedule, css: seq<ClassSchedule>, tcs: seq<TimeConstraint>, faculties: seq<FacultyMember>, env: Env, c: Candidate)
    ensures c in Ranked(cs, css, tcs, faculties, env) <==>
            exists i :: 0 <= i < |faculties| && c == Evaluate(faculties[i], cs, css, ConstraintsFor(tcs, faculties[i].id), env)
  {
    var scored := Scored(cs, css, tcs, faculties, env);
    SortedByMembers(scored, SortKey, c);
    if c in scored {
      var i :| 0 <= i < |scored| && scored[i] == c;
      MapSeqAt(faculties, ScoreOf(cs, css, tcs, env), i);
      assert c == Evaluate(faculties[i], cs, css, ConstraintsFor(tcs, faculties[i].id), env);
    }
    if exists i :: 0 <= i < |faculties| && c == Evaluate(faculties[i], cs, css, ConstraintsFor(tcs, faculties[i].id), env) {
      var i :| 0 <= i < |faculties| && c == Evaluate(faculties[i], cs, css, ConstraintsFor(tcs, faculties[i].id), env);
      MapSeqAt(faculties, ScoreOf(cs, css, tcs, env), i);
      assert scored[i] == c;
    }
  }

  /** Highest sortScore first. */
  lemma RankedOrdered(cs: ClassSchedule, css: seq<ClassSchedule>, tcs: seq<TimeConstraint>, faculties: seq<FacultyMember>, env: Env)
    ensures var r := Ranked(cs, css, tcs, faculties, env);
      forall i, j :: 0 <= i < j < |r| ==> r[i].sortScore >= r[j].sortScore
  {
    SortedBySorted(Scored(cs, css, tcs, faculties, env), SortKey);
  }

  /** Candidates of equal sortScore stay in directory order. */
  lemma RankedTiesKeepOrder(cs: ClassSchedule, css: seq<ClassSchedule>, tcs: seq<TimeConstraint>, faculties: seq<FacultyMember>, env: Env, v: int)
    ensures WithKey(Ranked(cs, css, tcs, faculties, env), SortKey, -v) == WithKey(Scored(cs, css, tcs, faculties, env), SortKey, -v)
  {
    var scored := Scored(cs, css, tcs, faculties, env);
    assert Ranked(cs, css, tcs, faculties, env) == SortedBy(scored, SortKey);
    SortedByStable(scored, SortKey, -v);
  }
}
