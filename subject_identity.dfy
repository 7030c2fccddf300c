/**
 * The same-subject test of the preparations calculation, at the level of loaded objects.
 *
 * The term's sections are loaded with their subjects joined, one subject object per section
 * row, so two sections of the same subject carry two distinct objects with equal ids. The
 * calculation makes the member's subjects distinct by id, but then looks the section's own
 * subject up among them by object identity. This module models that check as written, shows
 * an input on which it misses the same subject, and proves that the check by id (the one the
 * rest of the model uses) is what Scoring.Preparations computes.
 */
module SubjectIdentity {
  import opened Domain
  import opened DiminishingReturns
  import opened Scoring

  /** A loaded subject object: `ref` tells apart objects in memory, whatever their fields. */
  datatype SubjectObject = SubjectObject(ref: nat, subject: Subject)

  /** The subject ids of `objs`. */
  function Ids(objs: seq<SubjectObject>): set<SubjectId> {
    if objs == [] then {} else Ids(objs[..|objs| - 1]) + {objs[|objs| - 1].subject.id}
  }

  lemma {:induction false} IdsMembers(objs: seq<SubjectObject>, id: SubjectId)
    ensures id in Ids(objs) <==> exists o :: o in objs && o.subject.id == id
  {
    if objs != [] {
      IdsMembers(objs[..|objs| - 1], id);
      assert objs == objs[..|objs| - 1] + [objs[|objs| - 1]];
    }
  }

  /** The first object of each subject id, in order, as lodash's uniqBy by "id" keeps them. */
  function UniqById(objs: seq<SubjectObject>): (r: seq<SubjectObject>)
    ensures |r| <= |objs|
  {
    if objs == [] then []
    else
      var rest, o := objs[..|objs| - 1], objs[|objs| - 1];
      UniqById(rest) + (if o.subject.id in Ids(rest) then [] else [o])
  }

  lemma IdsAppend(objs: seq<SubjectObject>, o: SubjectObject)
    ensures Ids(objs + [o]) == Ids(objs) + {o.subject.id}
  {
    assert (objs + [o])[..|objs|] == objs;
  }

  /** uniqBy keeps exactly one object per id. */
  lemma {:induction false} UniqByIdKeepsOnePerId(objs: seq<SubjectObject>)
    ensures Ids(UniqById(objs)) == Ids(objs) && |UniqById(objs)| == |Ids(objs)|
  {
    if objs != [] {
      var rest, o := objs[..|objs| - 1], objs[|objs| - 1];
      UniqByIdKeepsOnePerId(rest);
      assert Ids(objs) == Ids(rest) + {o.subject.id};
      if o.subject.id !in Ids(rest) {
        assert UniqById(objs) == UniqById(rest) + [o];
        IdsAppend(UniqById(rest), o);
      } else {
        assert UniqById(objs) == UniqById(rest);
      }
    }
  }

  /** uniqBy invents no object. */
  lemma {:induction false} UniqByIdSubset(objs: seq<SubjectObject>, x: SubjectObject)
    ensures x in UniqById(objs) ==> x in objs
  {
    if objs != [] {
      var rest, o := objs[..|objs| - 1], objs[|objs| - 1];
      UniqByIdSubset(rest, x);
      assert objs == rest + [o];
    }
  }

  /**
   * The preparations calculation as written: the distinct subjects by id, then the section's
   * subject object looked up among them as an object (datatype equality here stands for
   * reference equality: an object is its `ref` together with its fields).
   */
  function PreparationsAsWritten(mine: seq<SubjectObject>, target: SubjectObject): (c: Contribution)
    ensures c.errors == [] && (c.pros == [] || c.pros == [AlreadyAssignedToSubject])
  {
    var subjects := UniqById(mine);
    var assignedToSameSubject := target in subjects;
    var prepsCanTake := |subjects| < MAXIMUM_PREPS || assignedToSameSubject;
    Contribution(
      if assignedToSameSubject then BASE_POINTS else 0.0,
      (if !prepsCanTake then 200 else 0) + (if assignedToSameSubject then 300 else 0),
      if assignedToSameSubject then [AlreadyAssignedToSubject] else [],
      if !prepsCanTake then [AlreadyHasPreparations(|subjects|)] else [],
      [])
  }

  /** The same calculation with the section's subject looked up by id. */
  function PreparationsById(mine: seq<SubjectObject>, target: SubjectObject): (c: Contribution)
    ensures c.errors == [] && (c.pros == [] || c.pros == [AlreadyAssignedToSubject])
  {
    var subjects := UniqById(mine);
    var assignedToSameSubject := target.subject.id in Ids(subjects);
    var prepsCanTake := |subjects| < MAXIMUM_PREPS || assignedToSameSubject;
    Contribution(
      if assignedToSameSubject then BASE_POINTS else 0.0,
      (if !prepsCanTake then 200 else 0) + (if assignedToSameSubject then 300 else 0),
      if assignedToSameSubject then [AlreadyAssignedToSubject] else [],
      if !prepsCanTake then [AlreadyHasPreparations(|subjects|)] else [],
      [])
  }

  /**
   * The member teaches subject 7 (object 1) and subject 8 (object 2); the section is of
   * subject 7, loaded as object 3. As written the member is refused with "already has 2
   * preparations"; by id it gets the same-subject pro and 300 sort points.
   */
  lemma AsWrittenMissesSameSubject(p: Program)
    ensures var mine := [SubjectObject(1, Subject(7, p)), SubjectObject(2, Subject(8, p))];
      var target := SubjectObject(3, Subject(7, p));
      && PreparationsAsWritten(mine, target) == Contribution(0.0, 200, [], [AlreadyHasPreparations(2)], [])
      && PreparationsById(mine, target) == Contribution(BASE_POINTS, 300, [AlreadyAssignedToSubject], [], [])
  {
    var mine := [SubjectObject(1, Subject(7, p)), SubjectObject(2, Subject(8, p))];
    assert mine[..1] == [mine[0]] && [mine[0]][..0] == [];
    assert UniqById(mine) == mine;
  }

  /** When the section's subject object is the only object of its id, the two checks agree. */
  lemma AsWrittenAgreesWhenShared(mine: seq<SubjectObject>, target: SubjectObject)
    requires forall o | o in mine && o.subject.id == target.subject.id :: o == target
    ensures PreparationsAsWritten(mine, target) == PreparationsById(mine, target)
  {
    var subjects := UniqById(mine);
    UniqByIdKeepsOnePerId(mine);
    IdsMembers(subjects, target.subject.id);
    if target.subject.id in Ids(subjects) {
      var o :| o in subjects && o.subject.id == target.subject.id;
      UniqByIdSubset(mine, o);
    }
  }

  /**
   * The check by id is the preparations contribution of the model: for the subject objects of
   * fm's sections, and whatever object carries the section's subject, it equals
   * Scoring.Preparations.
   */
  lemma ByIdMatchesModel(fm: FacultyMember, cs: ClassSchedule, css: seq<ClassSchedule>, mine: seq<SubjectObject>, target: SubjectObject)
    requires Ids(mine) == SubjectIds(ClassSchedulesForFaculty(css, fm.id))
    requires target.subject == cs.subject
    ensures PreparationsById(mine, target) == Preparations(fm, cs, css)
  {
    UniqByIdKeepsOnePerId(mine);
  }
}
