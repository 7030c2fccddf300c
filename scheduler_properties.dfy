/** What the greedy scheduler promises: about one choice, one step and the whole pass. */
module SchedulerProperties {
  import opened Domain
  import opened Scoring
  import opened Sorting
  import opened Ranking
  import opened ScoreProperties
  import opened Scheduler
  import opened Filtering

  // ---------------------------------------------------------------------------
  // One choice

  /** The candidates the choice for `cs` is made from. */
  function PoolFor(cs: ClassSchedule, css: seq<ClassSchedule>, tcs: seq<TimeConstraint>, faculties: seq<FacultyMember>, env: Env): seq<Candidate> {
    Pool(Ranked(cs, css, tcs, faculties, env), css, env)
  }

  /** Every candidate of the pool is a ranked score record. */
  lemma PoolMembers(ranked: seq<Candidate>, css: seq<ClassSchedule>, env: Env, c: Candidate)
    ensures c in Pool(ranked, css, env) ==> c in ranked
  {
    FilterMembers(ranked, IsFullTime, c);
  }

  /** The pool is ordered by sortScore, highest first, as the ranking is. */
  lemma PoolSorted(cs: ClassSchedule, css: seq<ClassSchedule>, tcs: seq<TimeConstraint>, faculties: seq<FacultyMember>, env: Env)
    ensures IsSortedBy(PoolFor(cs, css, tcs, faculties, env), SortKey)
  {
    var ranked := Ranked(cs, css, tcs, faculties, env);
    SortedBySorted(Scored(cs, css, tcs, faculties, env), SortKey);
    FilterSorted(ranked, IsFullTime, SortKey);
  }

  /**
   * The choice is the first feasible candidate of the pool, and there is none exactly when no
   * candidate of the pool is feasible.
   */
  lemma ChoiceIsFirstFeasible(cs: ClassSchedule, css: seq<ClassSchedule>, tcs: seq<TimeConstraint>, faculties: seq<FacultyMember>, env: Env)
    ensures var pool, ch := PoolFor(cs, css, tcs, faculties, env), Choice(cs, css, tcs, faculties, env);
      && (ch.None? <==> forall c | c in pool :: !Feasible(c))
      && (ch.Some? ==>
            && Feasible(ch.value)
            && exists k :: 0 <= k < |pool| && pool[k] == ch.value && forall j :: 0 <= j < k ==> !Feasible(pool[j]))
  {
    var pool := PoolFor(cs, css, tcs, faculties, env);
    var feasible := Filter(pool, Feasible);
    forall c | c in pool ensures c in feasible <==> Feasible(c) {
      FilterMembers(pool, Feasible, c);
    }
    if feasible != [] {
      FilterFirst(pool, Feasible);
    }
  }

  /** No feasible candidate of the pool has a higher sortScore than the chosen one. */
  lemma ChoiceHasHighestSortScore(cs: ClassSchedule, css: seq<ClassSchedule>, tcs: seq<TimeConstraint>, faculties: seq<FacultyMember>, env: Env, c: Candidate)
    requires Choice(cs, css, tcs, faculties, env).Some?
    requires c in PoolFor(cs, css, tcs, faculties, env) && Feasible(c)
    ensures c.sortScore <= Choice(cs, css, tcs, faculties, env).value.sortScore
  {
    var pool := PoolFor(cs, css, tcs, faculties, env);
    var feasible := Filter(pool, Feasible);
    PoolSorted(cs, css, tcs, faculties, env);
    FilterSorted(pool, Feasible, SortKey);
    FilterMembers(pool, Feasible, c);
    var k :| 0 <= k < |feasible| && feasible[k] == c;
    assert k == 0 || SortKey(feasible[0]) <= SortKey(feasible[k]);
  }

  /** The chosen candidate is the score record of one of the faculty members, for this section. */
  lemma ChoiceFromFaculties(cs: ClassSchedule, css: seq<ClassSchedule>, tcs: seq<TimeConstraint>, faculties: seq<FacultyMember>, env: Env)
    requires Choice(cs, css, tcs, faculties, env).Some?
    ensures var c := Choice(cs, css, tcs, faculties, env).value;
      exists i :: 0 <= i < |faculties| && c == Evaluate(faculties[i], cs, css, ConstraintsFor(tcs, faculties[i].id), env)
  {
    var c := Choice(cs, css, tcs, faculties, env).value;
    ChoiceIsFirstFeasible(cs, css, tcs, faculties, env);
    PoolMembers(Ranked(cs, css, tcs, faculties, env), css, env, c);
    RankedMembers(cs, css, tcs, faculties, env, c);
  }

  /**
   * Full-time faculty first: while some full-time candidate is below the minimum load of its
   * type, the chosen candidate is full-time; once none is, the pool is the whole ranking.
   */
  lemma FullTimeFirst(cs: ClassSchedule, css: seq<ClassSchedule>, tcs: seq<TimeConstraint>, faculties: seq<FacultyMember>, env: Env)
    ensures var ranked, ch := Ranked(cs, css, tcs, faculties, env), Choice(cs, css, tcs, faculties, env);
      && ((exists c | c in ranked :: IsFullTime(c) && !AtMinimum(c, css, env)) && ch.Some? ==> IsFullTime(ch.value))
      && ((forall c | c in ranked && IsFullTime(c) :: AtMinimum(c, css, env)) ==> PoolFor(cs, css, tcs, faculties, env) == ranked)
  {
    var ranked := Ranked(cs, css, tcs, faculties, env);
    var fullTime := Filter(ranked, IsFullTime);
    forall c ensures c in fullTime <==> c in ranked && IsFullTime(c) {
      FilterMembers(ranked, IsFullTime, c);
    }
    ChoiceIsFirstFeasible(cs, css, tcs, faculties, env);
  }

  /**
   * What the chosen faculty member is spared: no double booking, no third consecutive block,
   * no preparation beyond the cap, and no time block it declared itself unavailable for.
   */
  lemma ChoiceIsSafe(cs: ClassSchedule, css: seq<ClassSchedule>, tcs: seq<TimeConstraint>, faculties: seq<FacultyMember>, env: Env)
    requires Choice(cs, css, tcs, faculties, env).Some?
    ensures var fm := Choice(cs, css, tcs, faculties, env).value.facultyMember;
      var avs := ConstraintsFor(tcs, fm.id);
      var found := FindConstraint(avs, cs.meetingDays, cs.meetingHours);
      && fm in faculties
      && !(exists x :: x in css && AssignedTo(x, fm.id) && x.meetingDays == cs.meetingDays && x.meetingHours == cs.meetingHours)
      && !IsThirdConsecutive(cs.meetingHours, BookedHours(fm.id, css, cs.meetingDays))
      && (cs.subject.id in AssignedSubjects(fm.id, css) || |AssignedSubjects(fm.id, css)| < MAXIMUM_PREPS)
      && (avs == [] || (found.Some? && found.value.availabilityType != Unavailable))
  {
    var c := Choice(cs, css, tcs, faculties, env).value;
    ChoiceIsFirstFeasible(cs, css, tcs, faculties, env);
    ChoiceFromFaculties(cs, css, tcs, faculties, env);
    var i :| 0 <= i < |faculties| && c == Evaluate(faculties[i], cs, css, ConstraintsFor(tcs, faculties[i].id), env);
    var fm, avs := faculties[i], ConstraintsFor(tcs, faculties[i].id);
    EvaluateFacultyMember(fm, cs, css, avs, env);
    AssignableIff(fm, cs, css, avs, env);
    PreparationsProsAndCons(fm, cs, css, avs, env, |AssignedSubjects(fm.id, css)|);
    AvailabilityNote(fm, cs, css, avs, env);
  }

  // ---------------------------------------------------------------------------
  // One step

  /** A step changes at most section q, and only by giving it a pending assignment to the chosen member. */
  lemma StepEffect(css: seq<ClassSchedule>, q: nat, tcs: seq<TimeConstraint>, faculties: seq<FacultyMember>, env: Env)
    requires q < |css|
    ensures var r, ch := Step(css, q, tcs, faculties, env), Choice(css[q], css, tcs, faculties, env);
      && (forall i | 0 <= i < |css| && i != q :: r[i] == css[i])
      && (ch.None? ==> r == css)
      && (ch.Some? ==> r[q] == css[q].(feedback := Some(Feedback(Pending, ch.value.facultyMember.id))))
  {
  }

  /** Assigning a section to `fid` adds one to fid's load, and takes one from its previous holder's. */
  lemma {:induction false} AssignLoad(css: seq<ClassSchedule>, q: nat, fid: FacultyId, g: FacultyId)
    requires q < |css|
    ensures NumberOfAssignments(g, Assign(css, q, fid)) ==
            NumberOfAssignments(g, css) + (if g == fid then 1 else 0) - (if AssignedTo(css[q], g) then 1 else 0)
  {
    var r := Assign(css, q, fid);
    var n := |css| - 1;
    if q == n {
      assert r[..n] == css[..n];
    } else {
      AssignLoad(css[..n], q, fid, g);
      assert r[..n] == Assign(css[..n], q, fid);
    }
  }

  // ---------------------------------------------------------------------------
  // The queue

  lemma {:induction false} QueueMembers(css: seq<ClassSchedule>, i: nat)
    ensures i in Queue(css) <==> i < |css| && Schedulable(css[i])
  {
    if css != [] {
      QueueMembers(css[..|css| - 1], i);
      QueueInRange(css[..|css| - 1]);
    }
  }

  /** The queue lists positions in increasing order, each once. */
  lemma {:induction false} QueueIncreasing(css: seq<ClassSchedule>)
    ensures forall j, k :: 0 <= j < k < |Queue(css)| ==> Queue(css)[j] < Queue(css)[k]
  {
    if css != [] {
      var css' := css[..|css| - 1];
      QueueIncreasing(css');
      QueueInRange(css');
      var q, q' := Queue(css), Queue(css');
      if Schedulable(css[|css| - 1]) {
        assert q == q' + [|css| - 1];
        forall j, k | 0 <= j < k < |q| ensures q[j] < q[k] {
          if k < |q'| {
            assert q[j] == q'[j] && q[k] == q'[k];
          }
        }
      } else {
        assert q == q';
      }
    }
  }

  lemma QueueSchedulable(css: seq<ClassSchedule>)
    ensures InRange(Queue(css), |css|) && forall k :: 0 <= k < |Queue(css)| ==> Schedulable(css[Queue(css)[k]])
  {
    QueueInRange(css);
    forall k | 0 <= k < |Queue(css)| ensures Schedulable(css[Queue(css)[k]]) {
      QueueMembers(css, Queue(css)[k]);
    }
  }

  /** After the sort, the pass visits the sections in non-decreasing meeting hours. */
  lemma QueueAscendingHours(css0: seq<ClassSchedule>)
    ensures var sorted := SortedBy(css0, MeetingHoursKey);
      var q := Queue(sorted);
      InRange(q, |sorted|) && forall j, k :: 0 <= j < k < |q| ==> sorted[q[j]].meetingHours <= sorted[q[k]].meetingHours
  {
    var sorted := SortedBy(css0, MeetingHoursKey);
    SortedBySorted(css0, MeetingHoursKey);
    QueueIncreasing(sorted);
    QueueInRange(sorted);
  }

  // ---------------------------------------------------------------------------
  // The whole pass

  /** `r` is `sorted` with pending assignments given to some schedulable sections, and nothing else changed. */
  ghost predicate OnlyFillsSchedulable(sorted: seq<ClassSchedule>, r: seq<ClassSchedule>) {
    |r| == |sorted| &&
    forall i :: 0 <= i < |r| ==>
      r[i] == sorted[i] ||
      (Schedulable(sorted[i]) && exists fid: FacultyId :: r[i] == sorted[i].(feedback := Some(Feedback(Pending, fid))))
  }

  lemma {:induction false} RunQueueOnlyFills(sorted: seq<ClassSchedule>, qs: seq<nat>, tcs: seq<TimeConstraint>, faculties: seq<FacultyMember>, env: Env)
    requires InRange(qs, |sorted|)
    requires forall k :: 0 <= k < |qs| ==> Schedulable(sorted[qs[k]])
    ensures OnlyFillsSchedulable(sorted, RunQueue(sorted, qs, tcs, faculties, env))
  {
    if qs != [] {
      var qs', q := qs[..|qs| - 1], qs[|qs| - 1];
      RunQueueOnlyFills(sorted, qs', tcs, faculties, env);
      var prev := RunQueue(sorted, qs', tcs, faculties, env);
      StepEffect(prev, q, tcs, faculties, env);
      var ch := Choice(prev[q], prev, tcs, faculties, env);
      if ch.Some? {
        var fid := ch.value.facultyMember.id;
        var r := Step(prev, q, tcs, faculties, env);
        assert r[q] == sorted[q].(feedback := Some(Feedback(Pending, fid)));
      }
    }
  }

  /**
   * The pass keeps every section, in meeting-hours order, and changes a section only by giving
   * an unassigned, non-adjunct one a pending assignment: already assigned sections and
   * adjunct sections come out as they went in.
   */
  lemma ScheduleOnlyFills(css0: seq<ClassSchedule>, tcs: seq<TimeConstraint>, faculties: seq<FacultyMember>, env: Env)
    ensures var sorted := SortedBy(css0, MeetingHoursKey);
      && multiset(sorted) == multiset(css0)
      && OnlyFillsSchedulable(sorted, Schedule(css0, tcs, faculties, env))
  {
    var sorted := SortedBy(css0, MeetingHoursKey);
    SortedByPermutes(css0, MeetingHoursKey);
    QueueInRange(sorted);
    QueueSchedulable(sorted);
    RunQueueOnlyFills(sorted, Queue(sorted), tcs, faculties, env);
  }

  /** Two assigned sections clash when they give one faculty member the same days and hours. */
  predicate Clash(x: ClassSchedule, y: ClassSchedule) {
    x.feedback.Some? && y.feedback.Some? && x.feedback.value.facultyMember == y.feedback.value.facultyMember &&
    x.meetingDays == y.meetingDays && x.meetingHours == y.meetingHours
  }

  predicate NoDoubleBooking(css: seq<ClassSchedule>) {
    forall i, j :: 0 <= i < j < |css| ==> !Clash(css[i], css[j])
  }

  /** A step never double-books: the chosen member has no section at the same days and hours. */
  lemma StepKeepsNoDoubleBooking(css: seq<ClassSchedule>, q: nat, tcs: seq<TimeConstraint>, faculties: seq<FacultyMember>, env: Env)
    requires q < |css| && NoDoubleBooking(css)
    ensures NoDoubleBooking(Step(css, q, tcs, faculties, env))
  {
    var r := Step(css, q, tcs, faculties, env);
    StepEffect(css, q, tcs, faculties, env);
    var ch := Choice(css[q], css, tcs, faculties, env);
    if ch.Some? {
      ChoiceIsSafe(css[q], css, tcs, faculties, env);
      forall i, j | 0 <= i < j < |r| ensures !Clash(r[i], r[j]) {
        if i == q {
          assert r[j] == css[j] && css[j] in css;
        } else if j == q {
          assert r[i] == css[i] && css[i] in css;
        }
      }
    }
  }

  lemma {:induction false} RunQueueKeepsNoDoubleBooking(css: seq<ClassSchedule>, qs: seq<nat>, tcs: seq<TimeConstraint>, faculties: seq<FacultyMember>, env: Env)
    requires InRange(qs, |css|) && NoDoubleBooking(css)
    ensures NoDoubleBooking(RunQueue(css, qs, tcs, faculties, env))
  {
    if qs != [] {
      RunQueueKeepsNoDoubleBooking(css, qs[..|qs| - 1], tcs, faculties, env);
      StepKeepsNoDoubleBooking(RunQueue(css, qs[..|qs| - 1], tcs, faculties, env), qs[|qs| - 1], tcs, faculties, env);
    }
  }

  /** A permutation of a list without double booking has none either. */
  lemma NoDoubleBookingPermutation(s: seq<ClassSchedule>, t: seq<ClassSchedule>)
    requires multiset(s) == multiset(t) && NoDoubleBooking(s)
    ensures NoDoubleBooking(t)
  {
    forall i, j | 0 <= i < j < |t| ensures !Clash(t[i], t[j]) {
      assert t[i] in multiset(s) && t[j] in multiset(s);
      if t[i] == t[j] {
        TwoOccurrences(t, i, j);
        TwoIndices(s, t[i]);
        var a, b :| 0 <= a < b < |s| && s[a] == t[i] && s[b] == t[i];
        assert !Clash(s[a], s[b]);
      } else {
        var a :| 0 <= a < |s| && s[a] == t[i];
        var b :| 0 <= b < |s| && s[b] == t[j];
        if a < b {
          assert !Clash(s[a], s[b]);
        } else {
          assert !Clash(s[b], s[a]);
        }
      }
    }
  }

  lemma {:induction false} TwoOccurrences<T>(t: seq<T>, i: nat, j: nat)
    requires i < j < |t| && t[i] == t[j]
    ensures multiset(t)[t[i]] >= 2
  {
    assert t == t[..i] + [t[i]] + t[i + 1..j] + [t[j]] + t[j + 1..];
  }

  lemma {:induction false} TwoIndices<T>(s: seq<T>, v: T)
    requires multiset(s)[v] >= 2
    ensures exists i, j :: 0 <= i < j < |s| && s[i] == v && s[j] == v
  {
    var n := |s| - 1;
    assert s == s[..n] + [s[n]];
    if s[n] == v {
      assert multiset(s[..n])[v] >= 1;
      var i :| 0 <= i < n && s[..n][i] == v;
      assert s[i] == v;
    } else {
      TwoIndices(s[..n], v);
      var i, j :| 0 <= i < j < n && s[..n][i] == v && s[..n][j] == v;
      assert s[i] == v && s[j] == v;
    }
  }

  /** If the term had no double booking, the pass introduces none. */
  lemma ScheduleKeepsNoDoubleBooking(css0: seq<ClassSchedule>, tcs: seq<TimeConstraint>, faculties: seq<FacultyMember>, env: Env)
    requires NoDoubleBooking(css0)
    ensures NoDoubleBooking(Schedule(css0, tcs, faculties, env))
  {
    var sorted := SortedBy(css0, MeetingHoursKey);
    SortedByPermutes(css0, MeetingHoursKey);
    NoDoubleBookingPermutation(css0, sorted);
    QueueInRange(sorted);
    RunQueueKeepsNoDoubleBooking(sorted, Queue(sorted), tcs, faculties, env);
  }

  // ---------------------------------------------------------------------------
  // The preparation cap over the pass

  function Max(a: nat, b: nat): nat {
    if a < b then b else a
  }

  lemma SubsetCard<T>(a: set<T>, b: set<T>)
    requires a <= b
    ensures |a| <= |b|
    decreases b
  {
    if a != {} {
      var x :| x in a;
      SubsetCard(a - {x}, b - {x});
    }
  }

  /** Assigning section q to `fid` can add to a member's subjects only section q's subject, and only for `fid`. */
  lemma AssignedSubjectsAfterAssign(css: seq<ClassSchedule>, q: nat, fid: FacultyId, g: FacultyId)
    requires q < |css|
    ensures AssignedSubjects(g, Assign(css, q, fid)) <= AssignedSubjects(g, css) + (if g == fid then {css[q].subject.id} else {})
  {
    var r := Assign(css, q, fid);
    forall id | id in AssignedSubjects(g, r)
      ensures id in AssignedSubjects(g, css) + (if g == fid then {css[q].subject.id} else {})
    {
      AssignedSubjectsMembers(g, r, id);
      var x :| x in r && AssignedTo(x, g) && x.subject.id == id;
      var i :| 0 <= i < |r| && r[i] == x;
      if i != q {
        assert css[i] in css;
        AssignedSubjectsMembers(g, css, id);
      }
    }
  }

  /** A step lets no member's number of distinct subjects grow beyond MAXIMUM_PREPS. */
  lemma StepPreparationCap(css: seq<ClassSchedule>, q: nat, tcs: seq<TimeConstraint>, faculties: seq<FacultyMember>, env: Env, g: FacultyId)
    requires q < |css|
    ensures |AssignedSubjects(g, Step(css, q, tcs, faculties, env))| <= Max(MAXIMUM_PREPS, |AssignedSubjects(g, css)|)
  {
    var ch := Choice(css[q], css, tcs, faculties, env);
    if ch.Some? {
      var fid := ch.value.facultyMember.id;
      var before := AssignedSubjects(g, css);
      var after := AssignedSubjects(g, Assign(css, q, fid));
      AssignedSubjectsAfterAssign(css, q, fid, g);
      ChoiceIsSafe(css[q], css, tcs, faculties, env);
      if g == fid && css[q].subject.id !in before {
        SubsetCard(after, before + {css[q].subject.id});
      } else {
        SubsetCard(after, before);
      }
    }
  }

  lemma {:induction false} RunQueuePreparationCap(css: seq<ClassSchedule>, qs: seq<nat>, tcs: seq<TimeConstraint>, faculties: seq<FacultyMember>, env: Env, g: FacultyId)
    requires InRange(qs, |css|)
    ensures |AssignedSubjects(g, RunQueue(css, qs, tcs, faculties, env))| <= Max(MAXIMUM_PREPS, |AssignedSubjects(g, css)|)
  {
    if qs != [] {
      RunQueuePreparationCap(css, qs[..|qs| - 1], tcs, faculties, env, g);
      StepPreparationCap(RunQueue(css, qs[..|qs| - 1], tcs, faculties, env), qs[|qs| - 1], tcs, faculties, env, g);
    }
  }

  lemma AssignedSubjectsPermutation(s: seq<ClassSchedule>, t: seq<ClassSchedule>, g: FacultyId)
    requires multiset(s) == multiset(t)
    ensures AssignedSubjects(g, s) == AssignedSubjects(g, t)
  {
    forall id ensures id in AssignedSubjects(g, s) <==> id in AssignedSubjects(g, t) {
      AssignedSubjectsMembers(g, s, id);
      AssignedSubjectsMembers(g, t, id);
      forall x ensures x in s <==> x in t {
        assert x in s <==> x in multiset(s);
        assert x in t <==> x in multiset(t);
      }
    }
  }

  /**
   * The pass gives no faculty member more than MAXIMUM_PREPS distinct subjects, unless it
   * already had more before the pass; then it gets no new subject.
   */
  lemma SchedulePreparationCap(css0: seq<ClassSchedule>, tcs: seq<TimeConstraint>, faculties: seq<FacultyMember>, env: Env, g: FacultyId)
    ensures |AssignedSubjects(g, Schedule(css0, tcs, faculties, env))| <= Max(MAXIMUM_PREPS, |AssignedSubjects(g, css0)|)
  {
    var sorted := SortedBy(css0, MeetingHoursKey);
    SortedByPermutes(css0, MeetingHoursKey);
    AssignedSubjectsPermutation(css0, sorted, g);
    QueueInRange(sorted);
    RunQueuePreparationCap(sorted, Queue(sorted), tcs, faculties, env, g);
  }

  // ---------------------------------------------------------------------------
  // No third consecutive block over the pass

  /** Assigning section q to `fid` can add to a member's booked hours only section q's block, and only for `fid`. */
  lemma BookedHoursAfterAssign(css: seq<ClassSchedule>, q: nat, fid: FacultyId, g: FacultyId, d: MeetingDays)
    requires q < |css|
    ensures BookedHours(g, Assign(css, q, fid), d) <=
            BookedHours(g, css, d) + (if g == fid && css[q].meetingDays == d then {css[q].meetingHours} else {})
  {
    var r := Assign(css, q, fid);
    forall h | h in BookedHours(g, r, d)
      ensures h in BookedHours(g, css, d) + (if g == fid && css[q].meetingDays == d then {css[q].meetingHours} else {})
    {
      BookedHoursMembers(g, r, d, h);
      var x :| x in r && AssignedTo(x, g) && x.meetingDays == d && x.meetingHours == h;
      var i :| 0 <= i < |r| && r[i] == x;
      if i != q {
        assert css[i] in css;
        BookedHoursMembers(g, css, d, h);
      }
    }
  }

  /** Blocks added at or after h cannot complete a run of three ending at h. */
  lemma ThirdConsecutiveGrowsOnlyBelow(h: MeetingHours, after: set<MeetingHours>, before: set<MeetingHours>)
    requires forall e | e in after && e !in before :: e >= h
    ensures IsThirdConsecutive(h, after) ==> IsThirdConsecutive(h, before)
  {
  }

  /** The positions `qs` visit sections of `sorted` in non-decreasing meeting hours. */
  predicate Ascending(sorted: seq<ClassSchedule>, qs: seq<nat>) {
    InRange(qs, |sorted|) &&
    forall j, k :: 0 <= j < k < |qs| ==> sorted[qs[j]].meetingHours <= sorted[qs[k]].meetingHours
  }

  /** No section the pass assigned ends a run of three consecutive blocks for its member on its days. */
  ghost predicate NoThirdConsecutiveFilled(sorted: seq<ClassSchedule>, r: seq<ClassSchedule>)
    requires |r| == |sorted|
  {
    forall c :: 0 <= c < |r| && Schedulable(sorted[c]) && r[c].feedback.Some? ==>
      !IsThirdConsecutive(r[c].meetingHours, BookedHours(r[c].feedback.value.facultyMember, r, r[c].meetingDays))
  }

  /** What holds after the steps for the positions `qs`: only those positions changed, and only in their feedback. */
  ghost predicate PassInvariant(sorted: seq<ClassSchedule>, qs: seq<nat>, r: seq<ClassSchedule>) {
    && |r| == |sorted|
    && (forall i | 0 <= i < |r| :: r[i].meetingHours == sorted[i].meetingHours && r[i].meetingDays == sorted[i].meetingDays)
    && (forall i | 0 <= i < |r| && i !in qs :: r[i] == sorted[i])
    && NoThirdConsecutiveFilled(sorted, r)
  }

  lemma StepKeepsPassInvariant(sorted: seq<ClassSchedule>, qs: seq<nat>, q: nat, prev: seq<ClassSchedule>, tcs: seq<TimeConstraint>, faculties: seq<FacultyMember>, env: Env)
    requires q < |sorted| && Ascending(sorted, qs + [q]) && Schedulable(sorted[q])
    requires PassInvariant(sorted, qs, prev)
    ensures PassInvariant(sorted, qs + [q], Step(prev, q, tcs, faculties, env))
  {
    var ch := Choice(prev[q], prev, tcs, faculties, env);
    if ch.Some? {
      ChoiceIsSafe(prev[q], prev, tcs, faculties, env);
      AssignKeepsPassInvariant(sorted, qs, q, prev, ch.value.facultyMember.id);
    } else {
      assert forall i | 0 <= i < |prev| && i !in qs + [q] :: i !in qs;
    }
  }

  lemma AssignKeepsPassInvariant(sorted: seq<ClassSchedule>, qs: seq<nat>, q: nat, prev: seq<ClassSchedule>, fid: FacultyId)
    requires q < |sorted| && Ascending(sorted, qs + [q])
    requires PassInvariant(sorted, qs, prev)
    requires !IsThirdConsecutive(prev[q].meetingHours, BookedHours(fid, prev, prev[q].meetingDays))
    ensures PassInvariant(sorted, qs + [q], Assign(prev, q, fid))
  {
    var r := Assign(prev, q, fid);
    forall c | 0 <= c < |r| && Schedulable(sorted[c]) && r[c].feedback.Some?
      ensures !IsThirdConsecutive(r[c].meetingHours, BookedHours(r[c].feedback.value.facultyMember, r, r[c].meetingDays))
    {
      AssignKeepsFilledSafe(sorted, qs, q, prev, fid, c);
    }
    assert forall i | 0 <= i < |prev| && i !in qs + [q] :: i !in qs && i != q;
  }

  /**
   * Assigning section q, whose block does not end a run of three for `fid`, to `fid` keeps
   * every section filled so far from ending one: those come no later in meeting-hours order.
   */
  lemma AssignKeepsFilledSafe(sorted: seq<ClassSchedule>, qs: seq<nat>, q: nat, prev: seq<ClassSchedule>, fid: FacultyId, c: nat)
    requires q < |sorted| && Ascending(sorted, qs + [q])
    requires PassInvariant(sorted, qs, prev)
    requires !IsThirdConsecutive(prev[q].meetingHours, BookedHours(fid, prev, prev[q].meetingDays))
    requires var r := Assign(prev, q, fid); c < |r| && Schedulable(sorted[c]) && r[c].feedback.Some?
    ensures var r := Assign(prev, q, fid);
      !IsThirdConsecutive(r[c].meetingHours, BookedHours(r[c].feedback.value.facultyMember, r, r[c].meetingDays))
  {
    var r := Assign(prev, q, fid);
    var g, d, h := r[c].feedback.value.facultyMember, r[c].meetingDays, r[c].meetingHours;
    BookedHoursAfterAssign(prev, q, fid, g, d);
    if c != q {
      assert r[c] == prev[c] && prev[c] != sorted[c];
      var m :| 0 <= m < |qs| && qs[m] == c;
      assert (qs + [q])[m] == c && (qs + [q])[|qs|] == q;
      assert h <= prev[q].meetingHours;
    }
    ThirdConsecutiveGrowsOnlyBelow(h, BookedHours(g, r, d), BookedHours(g, prev, d));
  }

  lemma {:induction false} RunQueueNoThirdConsecutive(sorted: seq<ClassSchedule>, qs: seq<nat>, tcs: seq<TimeConstraint>, faculties: seq<FacultyMember>, env: Env)
    requires Ascending(sorted, qs)
    requires forall k :: 0 <= k < |qs| ==> Schedulable(sorted[qs[k]])
    ensures PassInvariant(sorted, qs, RunQueue(sorted, qs, tcs, faculties, env))
  {
    if qs != [] {
      var qs', q := qs[..|qs| - 1], qs[|qs| - 1];
      assert qs == qs' + [q];
      RunQueueNoThirdConsecutive(sorted, qs', tcs, faculties, env);
      StepKeepsPassInvariant(sorted, qs', q, RunQueue(sorted, qs', tcs, faculties, env), tcs, faculties, env);
    }
  }

  /**
   * Because the pass visits the sections in meeting-hours order, no section it assigns ends
   * three consecutive blocks on the same days for the chosen member, in the final schedule.
   */
  lemma ScheduleNoThirdConsecutive(css0: seq<ClassSchedule>, tcs: seq<TimeConstraint>, faculties: seq<FacultyMember>, env: Env)
    ensures NoThirdConsecutiveFilled(SortedBy(css0, MeetingHoursKey), Schedule(css0, tcs, faculties, env))
  {
    var sorted := SortedBy(css0, MeetingHoursKey);
    SortedByPermutes(css0, MeetingHoursKey);
    QueueAscendingHours(css0);
    QueueSchedulable(sorted);
    RunQueueNoThirdConsecutive(sorted, Queue(sorted), tcs, faculties, env);
  }
}
