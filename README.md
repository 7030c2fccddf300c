# Automatic class scheduling of falcon-server, in Dafny

This project models the automatic scheduler of falcon-server, found in
`src/controllers/scheduler.ts`, and proves properties of that model. The scheduler takes a
term's class sections. It sorts them by meeting hours. Then, for each section that has no
assignment and is not reserved for adjunct faculty, it picks a faculty member:

- every faculty member is scored against the section (`FacultyClassScheduleScore`);
- the candidates are ranked by `sortScore`, highest first;
- while some full-time candidate is below the minimum load of its type, only full-time
  candidates are kept;
- candidates with errors or cons are dropped;
- the first candidate left gets a pending assignment.

The modules follow the source:

- `Domain` (domain.dfy) holds the entities. Sections, subjects, faculty members, time
  constraints and feedback are values. The term is a class whose section array the scheduler
  updates in place. `Env` holds the three collaborators the scheduler consults outside its own
  file.
- `DiminishingReturns` (diminishing_returns.dfy) holds the presets and the
  `scoreWithDiminishingReturns` loop. It is proved against the series it sums.
- `Scoring` (scoring.dfy) holds the seven calculations. Each one is a pure contribution
  function, with a `FacultyClassScheduleScore` class whose `Calculate*` methods add that
  contribution to the record's fields. `CalculateScore` performs the seven in the order their
  results land (see "Left out").
- `Filtering` (filtering.dfy) holds the order-preserving filter of `Array.prototype.filter`,
  used for a member's sections, a member's time constraints, the candidates and the elements
  of one sort key.
- `Sorting` (sorting.dfy) holds a stable sort by an integer key. It is a function over
  sequences and an in-place insertion sort on an array proved equal to it. It models
  `Array.prototype.sort`, which is stable from ECMAScript 2019 on (see "Left out").
- `Ranking` (ranking.dfy) holds `candidatesForClassSchedule`: every faculty member is scored into
  a fresh array, which is then sorted by `sortScore`, highest first.
- `Scheduler` (scheduler.dfy) holds `numberOfAssignments`, the choice for one section, one step,
  and `makeSchedule` as a method on the term's array. That method is proved equal to the pure
  `Schedule` function.
- `ScoreProperties` (score_properties.dfy) and `SchedulerProperties` (scheduler_properties.dfy)
  hold what the score record, the choice, one step and the whole pass promise.
- `SubjectIdentity` (subject_identity.dfy) holds the finding below.

## Model

| member | source | states |
|---|---|---|
| Domain.TwoMeetingHoursBefore | src/controllers/scheduler.ts:179-183 | the two blocks before a block after the first two are the two immediately preceding ones, earliest first |
| DiminishingReturns.ScoreWithDiminishingReturns | src/controllers/scheduler.ts:47-56 | the loop returns the sum, over items 1..count, of basePoints·multiplier^(i−1); count 0 gives 0; each further item adds basePoints·multiplier^(count−1) |
| DiminishingReturns.PowPositive | src/controllers/scheduler.ts:51 | a positive multiplier has only positive powers |
| DiminishingReturns.PowBelowOne | src/controllers/scheduler.ts:51 | a multiplier below one has powers at most one, and below one from the first power on; SeriesGainAtMostBase rests on it |
| DiminishingReturns.SeriesClosedForm | src/controllers/scheduler.ts:47-56 | sum·(1 − multiplier) = basePoints·(1 − multiplierⁿ) |
| DiminishingReturns.SeriesClosedFormQuotient | src/controllers/scheduler.ts:47-56 | for a multiplier other than 1 the sum is basePoints·(1 − multiplierⁿ)/(1 − multiplier) |
| DiminishingReturns.SeriesStep | src/controllers/scheduler.ts:50-53 | with a decaying preset each further item strictly raises the score |
| DiminishingReturns.SeriesMonotone | src/controllers/scheduler.ts:47-56 | more items never lower the score; strictly more items strictly raise it |
| DiminishingReturns.SeriesBounded | src/controllers/scheduler.ts:47-56 | the score is non-negative and below basePoints/(1 − multiplier) whatever the count: returns diminish |
| DiminishingReturns.SeriesOne | src/controllers/scheduler.ts:47-56 | a single item earns exactly basePoints |
| DiminishingReturns.PresetsDecay | src/controllers/scheduler.ts:20-45 | all six presets have a positive base and a multiplier strictly between 0 and 1 |
| Filtering.Filter | src/controllers/scheduler.ts:357-378 | filtering never lengthens a list; what it keeps, in which order, is stated by the lemmas below |
| Filtering.FilterMembers | src/controllers/scheduler.ts:357-378 | an element is kept exactly when it is in the list and satisfies the test |
| Filtering.FilterAppend | src/controllers/scheduler.ts:85-89 | filtering two lists in a row gives the kept elements of the first, then those of the second: the kept elements keep their order and their multiplicity |
| Filtering.FilterFirst | src/controllers/scheduler.ts:378-391 | the first kept element is the first element of the list that satisfies the test |
| Filtering.FilterFilter | src/controllers/scheduler.ts:86-88 | filtering by one test and then another keeps what satisfies both, in order |
| Filtering.Positions | src/controllers/scheduler.ts:336 | the positions of a list whose element satisfies the test; FilterCount ties it to the filter |
| Filtering.FilterCount | src/controllers/scheduler.ts:336 | a filter keeps one element per position that passes, so its length counts positions, not distinct values |
| Filtering.PositionsSnoc | src/controllers/scheduler.ts:336 | one more element adds its position exactly when it passes |
| Filtering.FilterAll | src/controllers/scheduler.ts:104-107 | everything is kept exactly when every element passes |
| Domain.Term.constructor | src/controllers/scheduler.ts:289-290 | a term holds its sections in a fresh array with exactly the given contents, and its time constraints |
| DiminishingReturns.Pow | src/controllers/scheduler.ts:51 | `Math.pow` with a natural exponent, computed exactly; PowPositive and PowBelowOne bound it |
| DiminishingReturns.SeriesSum | src/controllers/scheduler.ts:47-56 | the sum of basePoints·multiplier^(i−1) over items 1..n; ScoreWithDiminishingReturns computes it and the Series lemmas state its closed form and bounds |
| DiminishingReturns.SeriesGainAtMostBase | src/controllers/scheduler.ts:50-53 | with a decaying preset, item n+1 adds at most basePoints, and strictly less from the second item on |
| Scoring.ClassSchedulesForFaculty | src/controllers/scheduler.ts:85-89 | the filter of the term's sections by an assignment to the member; ClassSchedulesForFacultyMembers, ClassSchedulesForFacultyAppend and ClassSchedulesForFacultyCount give its elements, their order and their multiplicity |
| Scoring.ClassSchedulesForFacultyMembers | src/controllers/scheduler.ts:85-89 | a section is among the member's sections exactly when it is a term section whose feedback names the member's id |
| Scoring.ClassSchedulesForFacultyAppend | src/controllers/scheduler.ts:85-89 | the member's sections of two lists in a row are those of the first, then those of the second: term order is kept |
| Scoring.ClassSchedulesForFacultyCount | src/controllers/scheduler.ts:85-89 | the member's sections number exactly the positions of the term whose feedback names the member, so two equal sections count twice |
| Scoring.SubjectIdsMembers | src/controllers/scheduler.ts:152-155 | an id is among the distinct subject ids exactly when some section has a subject with that id |
| Scoring.HoursOnDaysMembers | src/controllers/scheduler.ts:175-177 | a block is among the booked hours of the days exactly when some section meets on those days at that block |
| Scoring.AssociatedCount | src/controllers/scheduler.ts:104-107 | the number of subdocuments tagged with the program is at most their number |
| Scoring.AssociatedCountBounds | src/controllers/scheduler.ts:104-107 | the count is 0 exactly when no subdocument lists the program, and the full length exactly when all do |
| Scoring.FindConstraint | src/controllers/scheduler.ts:222-226 | the `find` over the member's constraints for the section's days and hours; FindConstraintFirst and Ranking.ConstraintsForFirstMatch state what it finds |
| Scoring.FindConstraintFirst | src/controllers/scheduler.ts:222-226 | the lookup finds nothing exactly when no constraint matches the section's days and hours, and otherwise finds the first match |
| Scoring.FallThrough | src/controllers/scheduler.ts:136-147 | the switch with fall-through from the first matching case label; FallThroughMatched and FallThroughFrom state its value |
| Scoring.RankScore | src/controllers/scheduler.ts:134-149 | the switch over the case list RANK_CASES, from nothing matched; RankScoreCumulative gives its value for each type |
| Scoring.FallThroughMatched | src/controllers/scheduler.ts:136-147 | once a case matches, every later case of the switch adds BASE_POINTS |
| Scoring.FallThroughFrom | src/controllers/scheduler.ts:136-147 | a type first matched at case k collects BASE_POINTS from each of the cases k..end |
| Scoring.RankScoreCumulative | src/controllers/scheduler.ts:134-149 | rank points through the fall-through switch: Instructor 500, AssistantProfessor 400, AssociateProfessor 300, FullProfessor 200, PartTime 100, so always 100..500 |
| Scoring.SubdocumentScore | src/controllers/scheduler.ts:103-132 | the qualifications add only to score: no sort points and no notes |
| Scoring.Rank | src/controllers/scheduler.ts:134-149 | the rank adds only to score: no sort points and no notes |
| Scoring.IsThirdConsecutive | src/controllers/scheduler.ts:179-185 | the section's block has two blocks before it and both are booked; ErrorsExact and ScheduleNoThirdConsecutive state what it rules out |
| Scoring.Preparations | src/controllers/scheduler.ts:151-170 | no errors, and at most one note: the same-subject pro or the preparations con |
| Scoring.ScheduleCompatibility | src/controllers/scheduler.ts:172-196 | only errors: no score, no sort points, no pros or cons |
| Scoring.Experience | src/controllers/scheduler.ts:198-219 | no cons and no errors |
| Scoring.Availability | src/controllers/scheduler.ts:221-254 | exactly one note, a pro or a con, and no errors |
| Scoring.LoadStatus | src/controllers/scheduler.ts:256-266 | no sort points, no cons, no errors |
| Scoring.ContributionOf | src/controllers/scheduler.ts:92-100 | what each of the seven calculations adds; PerformSeven spells the seven out |
| Scoring.Perform | src/controllers/scheduler.ts:91-101 | the record after a list of calculations, in order; PerformStep and PerformSeven state its effect |
| Scoring.Evaluate | src/controllers/scheduler.ts:91-101 | the record of a fresh score object after calculateScore; the Evaluate lemmas and ScoreProperties state every field |
| Scoring.PerformStep | src/controllers/scheduler.ts:91-101 | performing one more calculation of the list adds its contribution to the record |
| Scoring.PerformSeven | src/controllers/scheduler.ts:91-101 | the seven calculations, in landing order, add their contributions one after another |
| Scoring.EvaluateFacultyMember | src/controllers/scheduler.ts:79 | the record belongs to the faculty member it was built for |
| Scoring.EvaluateSortScore | src/controllers/scheduler.ts:162-252 | the sort score is what the preparations, availability and experience calculations add |
| Scoring.EvaluateErrors | src/controllers/scheduler.ts:187-195 | only the schedule-compatibility calculation records errors |
| Scoring.EvaluateCons | src/controllers/scheduler.ts:161-251 | only the preparations and availability calculations record cons, in that order |
| Scoring.EvaluatePros | src/controllers/scheduler.ts:167-263 | the pros are those of preparations, availability, load status and experience, in landing order |
| Scoring.EvaluateScore | src/controllers/scheduler.ts:123-264 | the score is the sum of what the six score-adding calculations add |
| Scoring.FacultyClassScheduleScore.IsAssignable | src/controllers/scheduler.ts:69-71 | a record is assignable exactly when it holds no errors |
| Scoring.FacultyClassScheduleScore.constructor | src/controllers/scheduler.ts:73-83 | the object holds the member, the section, the term's sections and the constraints, with an empty record |
| Scoring.FacultyClassScheduleScore.CalculateScore | src/controllers/scheduler.ts:91-101 | the record afterwards is the record before with the seven calculations performed in landing order |
| Scoring.FacultyClassScheduleScore.Calculate | src/controllers/scheduler.ts:92-100 | one calculation adds exactly its contribution to the record |
| Scoring.FacultyClassScheduleScore.CalculateSubdocumentScore | src/controllers/scheduler.ts:103-132 | adds the subdocument contribution to the record, and nothing else changes |
| Scoring.FacultyClassScheduleScore.CalculateRankScore | src/controllers/scheduler.ts:134-149 | adds the rank contribution to the record |
| Scoring.FacultyClassScheduleScore.CalculatePreparations | src/controllers/scheduler.ts:151-170 | adds the preparations contribution to the record |
| Scoring.FacultyClassScheduleScore.CalculateScheduleCompatibility | src/controllers/scheduler.ts:172-196 | adds the compatibility errors to the record |
| Scoring.FacultyClassScheduleScore.CalculateExperience | src/controllers/scheduler.ts:198-219 | adds the experience contribution for the given number of times taught |
| Scoring.FacultyClassScheduleScore.CalculateAvailability | src/controllers/scheduler.ts:221-254 | adds the availability contribution to the record |
| Scoring.FacultyClassScheduleScore.CalculateLoadStatus | src/controllers/scheduler.ts:256-266 | adds the load-status contribution to the record |
| Sorting.Insert | src/controllers/scheduler.ts:298-308 | inserting makes the list one longer |
| Sorting.SortedBy | src/controllers/scheduler.ts:298-308 | sorting keeps the length |
| Sorting.InsertPermutes | src/controllers/scheduler.ts:298-308 | insertion adds exactly the inserted element |
| Sorting.InsertSorted | src/controllers/scheduler.ts:298-308 | inserting into a sorted list keeps it sorted |
| Sorting.InsertWithKey | src/controllers/scheduler.ts:298-308 | inserting appends the element to the end of its equal-key run |
| Sorting.SortedByPermutes | src/controllers/scheduler.ts:298-308 | the sorted list is a permutation of the input |
| Sorting.SortedByMembers | src/controllers/scheduler.ts:298-308 | sorting keeps exactly the input's elements |
| Sorting.SortedBySorted | src/controllers/scheduler.ts:298-308 | the sorted list is ordered by the key |
| Sorting.SortedByStable | src/controllers/scheduler.ts:298-308 | elements with equal keys keep their input order (stability) |
| Sorting.SortedByOfSorted | src/controllers/scheduler.ts:341-343 | sorting an already sorted list changes nothing |
| Sorting.SortedByIdempotent | src/controllers/scheduler.ts:341-343 | sorting a second time by the same key changes nothing |
| Sorting.SortByKey | src/controllers/scheduler.ts:341-343 | the array afterwards holds its old contents stably sorted by the key |
| Sorting.InsertPeel | src/controllers/scheduler.ts:298-308 | shifting past a larger element is one more insertion step |
| Sorting.InsertStop | src/controllers/scheduler.ts:298-308 | insertion stops at the first element not larger than the inserted one |
| Sorting.InsertInPlace | src/controllers/scheduler.ts:298-308 | the first i+1 cells become the old first i with the old cell i inserted, and the rest is untouched |
| Ranking.ConstraintsFor | src/controllers/scheduler.ts:290 | the filter of the term's constraints by the member's id; ConstraintsForMembers, ConstraintsForAppend and ConstraintsForFirstMatch give its elements, their order and what the lookup finds in it |
| Ranking.ConstraintsForMembers | src/controllers/scheduler.ts:290 | a constraint is the member's exactly when it is a term constraint naming the member |
| Ranking.ConstraintsForAppend | src/controllers/scheduler.ts:290 | the member's constraints of two lists in a row are those of the first, then those of the second: term order is kept |
| Ranking.ConstraintsForFirstMatch | src/controllers/scheduler.ts:222-226 | the availability lookup over the member's constraints finds nothing exactly when no term constraint of the member names the section's days and hours, and otherwise the first such term constraint |
| Ranking.MapSeq | src/controllers/scheduler.ts:288-294 | one result per faculty member |
| Ranking.MapSeqAt | src/controllers/scheduler.ts:288-294 | the i-th result is the score of the i-th faculty member |
| Ranking.ScoreOf | src/controllers/scheduler.ts:289-293 | a member's score record for the section, with that member's constraints; ScoreFaculty computes it |
| Ranking.Scored | src/controllers/scheduler.ts:287-295 | every member's record, in directory order; ScoreAll computes it and MapSeqAt indexes it |
| Ranking.SortKey | src/controllers/scheduler.ts:298-308 | the comparator as an ascending sort on the negated sortScore; RankedOrdered states the resulting order |
| Ranking.Ranked | src/controllers/scheduler.ts:287-308 | the scored records, stably sorted by sortScore, highest first; the Ranked lemmas state its contents, order and ties |
| Ranking.ScoreAll | src/controllers/scheduler.ts:287-295 | a fresh array holding each member's score record, in directory order |
| Ranking.ScoreFaculty | src/controllers/scheduler.ts:290-292 | a fresh score object, once calculated, holds the evaluated record |
| Ranking.CandidatesForClassSchedule | src/controllers/scheduler.ts:269-309 | the candidates are the members' score records, stably sorted by sortScore, highest first |
| Ranking.RankedPermutes | src/controllers/scheduler.ts:287-308 | one candidate per faculty member: the ranking is a permutation of the scored list |
| Ranking.RankedMembers | src/controllers/scheduler.ts:287-308 | a record is ranked exactly when it is the score of some faculty member with that member's constraints |
| Ranking.RankedOrdered | src/controllers/scheduler.ts:298-308 | sortScore never increases along the ranking |
| Ranking.RankedTiesKeepOrder | src/controllers/scheduler.ts:298-308 | candidates of equal sortScore keep directory order |
| ScoreProperties.AssignedSubjects | src/controllers/scheduler.ts:152-155 | the distinct subject ids of the member's sections; AssignedSubjectsMembers states its members |
| ScoreProperties.BookedHours | src/controllers/scheduler.ts:175-177 | the blocks on the given days of the member's sections; BookedHoursMembers states its members |
| ScoreProperties.AssignedSubjectsMembers | src/controllers/scheduler.ts:152-155 | a subject id is among the member's subjects exactly when one of its assigned sections has that subject |
| ScoreProperties.BookedHoursMembers | src/controllers/scheduler.ts:175-177 | a block is booked on the days exactly when one of the member's sections meets then |
| ScoreProperties.PreparationsNotes | src/controllers/scheduler.ts:161-167 | the only notes preparations can record are the same-subject pro and the count con |
| ScoreProperties.AvailabilityNotes | src/controllers/scheduler.ts:230-251 | the only notes availability can record are "available", "preferred" and "not available" |
| ScoreProperties.LoadStatusNotes | src/controllers/scheduler.ts:263 | the only note load status can record is "underloaded" |
| ScoreProperties.ExperienceNotes | src/controllers/scheduler.ts:214 | the only note experience can record reports the times taught |
| ScoreProperties.PreparationsProsAndCons | src/controllers/scheduler.ts:151-170 | the same-subject pro exactly when the subject is already the member's; the preparations con, with the right count, exactly when it is not and the member has at least 2 subjects |
| ScoreProperties.ErrorsExact | src/controllers/scheduler.ts:172-196 | "third consecutive" exactly when the two blocks before are booked on the same days; "conflicting" exactly when this block is; no other error |
| ScoreProperties.AssignableIff | src/controllers/scheduler.ts:69-196 | assignable exactly when the member has no section at the same days and hours and the section is not its third consecutive block |
| ScoreProperties.AvailabilityNote | src/controllers/scheduler.ts:221-254 | no constraints means available; "preferred" exactly when the first match is Preferred; "not available" exactly when there are constraints and none matches or the match is Unavailable |
| ScoreProperties.OneAvailabilityNote | src/controllers/scheduler.ts:221-254 | exactly one of the three availability notes is recorded |
| ScoreProperties.ExperiencePro | src/controllers/scheduler.ts:212-215 | the experience pro appears exactly when the member taught the subject before, and reports how often |
| ScoreProperties.UnderloadedPro | src/controllers/scheduler.ts:256-266 | the underloaded pro appears exactly when the load status at the member's current load is Underloaded |
| ScoreProperties.SortScoreRange | src/controllers/scheduler.ts:151-254 | every sort score lies between 100 and 1200 |
| ScoreProperties.ScoreAtLeastRank | src/controllers/scheduler.ts:91-266 | the score is at least the rank score, which is at least 100 |
| ScoreProperties.ExperienceGrows | src/controllers/scheduler.ts:198-219 | having taught the subject more often strictly raises the experience points |
| Scheduler.FilterSorted | src/controllers/scheduler.ts:357-378 | filtering a ranked list keeps it ranked |
| Scheduler.MeetingHoursKey | src/controllers/scheduler.ts:341-343 | the sort key of the pass, a section's meeting-hours position; QueueAscendingHours states the visit order it gives |
| Scheduler.Schedulable | src/controllers/scheduler.ts:344-346 | no feedback and not for adjunct faculty; QueueMembers states the queue holds exactly these positions |
| Scheduler.Queue | src/controllers/scheduler.ts:344-346 | the queue has at most one position per section |
| Scheduler.NumberOfAssignments | src/controllers/scheduler.ts:327-337 | a member's load is the number of positions of the term's sections whose feedback names it, at most their number |
| Scheduler.IsFullTime | src/controllers/scheduler.ts:357-359 | any faculty type but PartTime; FullTimeFirst states the pool it gives |
| Scheduler.AtMinimum | src/controllers/scheduler.ts:362-368 | the member's number of assignments reaches its type's minimum; FullTimeFacultiesHaveMinimum computes it over the full-time candidates |
| Scheduler.Feasible | src/controllers/scheduler.ts:378 | no errors and no cons; ChoiceIsFirstFeasible and ChoiceIsSafe state what it admits |
| Scheduler.Pool | src/controllers/scheduler.ts:357-375 | the full-time candidates while one of them is below minimum, otherwise all; PoolMembers, PoolSorted and FullTimeFirst state it |
| Scheduler.Choice | src/controllers/scheduler.ts:357-391 | the first feasible candidate of the pool, if any; ChoiceIsFirstFeasible, ChoiceHasHighestSortScore, FullTimeFirst and ChoiceIsSafe state it |
| Scheduler.Assign | src/controllers/scheduler.ts:389-393 | an assignment keeps the number of sections |
| Scheduler.Step | src/controllers/scheduler.ts:348-403 | a step keeps the number of sections |
| Scheduler.RunQueue | src/controllers/scheduler.ts:348-403 | the pass keeps the number of sections |
| Scheduler.QueueInRange | src/controllers/scheduler.ts:340-346 | every queued position is a section of the term |
| Scheduler.RunQueuePrefix | src/controllers/scheduler.ts:348 | running one more queued position is one more step |
| Scheduler.Schedule | src/controllers/scheduler.ts:339-404 | the scheduled term has as many sections as before |
| Scheduler.MakeSchedule | src/controllers/scheduler.ts:339-404 | the term's array afterwards is the pure pass applied to its old contents: sorted by meeting hours, then each queued section stepped in order |
| Scheduler.ScheduleSection | src/controllers/scheduler.ts:351-402 | one iteration leaves the term's sections as one step of the pure pass does |
| Scheduler.FullTimeFacultiesHaveMinimum | src/controllers/scheduler.ts:360-371 | the flag is true exactly when every full-time candidate has at least its type's minimum load |
| SchedulerProperties.PoolMembers | src/controllers/scheduler.ts:357-375 | the pool holds only ranked candidates |
| SchedulerProperties.PoolSorted | src/controllers/scheduler.ts:357-375 | the pool stays ranked by sortScore |
| SchedulerProperties.ChoiceIsFirstFeasible | src/controllers/scheduler.ts:378-391 | nobody is chosen exactly when no pool candidate is free of errors and cons; otherwise the first such candidate is chosen |
| SchedulerProperties.ChoiceHasHighestSortScore | src/controllers/scheduler.ts:298-391 | no feasible pool candidate has a higher sortScore than the chosen one |
| SchedulerProperties.ChoiceFromFaculties | src/controllers/scheduler.ts:287-391 | the chosen candidate is the score record of some faculty member of the directory |
| SchedulerProperties.FullTimeFirst | src/controllers/scheduler.ts:357-375 | while some full-time candidate is below minimum, any chosen candidate is full-time; when none is, the pool is the whole ranking |
| SchedulerProperties.ChoiceIsSafe | src/controllers/scheduler.ts:151-378 | the chosen member has no section at the same days and hours, gets no third consecutive block, stays within 2 subjects unless it already teaches this one, and is not unavailable then |
| SchedulerProperties.StepEffect | src/controllers/scheduler.ts:382-393 | a step changes at most section q, and only by giving it a pending assignment to the chosen member; with no candidate nothing changes |
| SchedulerProperties.AssignLoad | src/controllers/scheduler.ts:327-393 | an assignment raises the new holder's load by one and lowers a previous holder's by one, leaving everyone else's |
| SchedulerProperties.QueueMembers | src/controllers/scheduler.ts:344-346 | a position is queued exactly when its section has no feedback and is not for adjunct faculty |
| SchedulerProperties.QueueIncreasing | src/controllers/scheduler.ts:340-348 | the queue visits positions in increasing order, each once |
| SchedulerProperties.QueueSchedulable | src/controllers/scheduler.ts:344-346 | every queued section is unassigned and not reserved for adjuncts |
| SchedulerProperties.QueueAscendingHours | src/controllers/scheduler.ts:341-343 | after the sort the pass visits sections in non-decreasing meeting hours |
| SchedulerProperties.RunQueueOnlyFills | src/controllers/scheduler.ts:348-403 | the steps for schedulable positions only give such sections pending assignments |
| SchedulerProperties.ScheduleOnlyFills | src/controllers/scheduler.ts:339-404 | the pass keeps the term's sections as a permutation, and changes a section only by giving an unassigned, non-adjunct one a pending assignment |
| SchedulerProperties.StepKeepsNoDoubleBooking | src/controllers/scheduler.ts:187-393 | a step never gives a member two sections at the same days and hours |
| SchedulerProperties.RunQueueKeepsNoDoubleBooking | src/controllers/scheduler.ts:348-403 | no sequence of steps introduces a double booking |
| SchedulerProperties.NoDoubleBookingPermutation | src/controllers/scheduler.ts:341-343 | reordering the sections cannot create a double booking |
| SchedulerProperties.TwoOccurrences | src/controllers/scheduler.ts:341-343 | a value at two positions occurs twice in the multiset |
| SchedulerProperties.TwoIndices | src/controllers/scheduler.ts:341-343 | a value occurring twice sits at two distinct positions |
| SchedulerProperties.ScheduleKeepsNoDoubleBooking | src/controllers/scheduler.ts:339-404 | a term without double bookings has none after the pass |
| SchedulerProperties.SubsetCard | src/controllers/scheduler.ts:152-156 | a subset of the subjects is no larger than the set |
| SchedulerProperties.AssignedSubjectsAfterAssign | src/controllers/scheduler.ts:152-393 | an assignment can add only section q's subject, and only to the new holder's subjects |
| SchedulerProperties.StepPreparationCap | src/controllers/scheduler.ts:151-378 | a step takes no member above 2 distinct subjects, nor above the number it already had |
| SchedulerProperties.RunQueuePreparationCap | src/controllers/scheduler.ts:348-403 | the same over any sequence of steps |
| SchedulerProperties.AssignedSubjectsPermutation | src/controllers/scheduler.ts:341-343 | reordering the sections keeps each member's subjects |
| SchedulerProperties.SchedulePreparationCap | src/controllers/scheduler.ts:339-404 | after the pass no member has more than 2 distinct subjects, unless it had more before |
| SchedulerProperties.BookedHoursAfterAssign | src/controllers/scheduler.ts:175-393 | an assignment can add only section q's block, and only to the new holder's booked hours on q's days |
| SchedulerProperties.ThirdConsecutiveGrowsOnlyBelow | src/controllers/scheduler.ts:179-185 | blocks booked at or after a block cannot complete a run of three ending at it: the rule only looks back |
| SchedulerProperties.StepKeepsPassInvariant | src/controllers/scheduler.ts:348-403 | a step at the next queued position keeps hours and days, touches only visited positions, and keeps every filled section safe from a third consecutive block |
| SchedulerProperties.AssignKeepsPassInvariant | src/controllers/scheduler.ts:389-393 | the same for the assignment itself |
| SchedulerProperties.AssignKeepsFilledSafe | src/controllers/scheduler.ts:341-393 | a later assignment cannot complete a run of three ending at an earlier filled section, since it comes no earlier in meeting hours |
| SchedulerProperties.RunQueueNoThirdConsecutive | src/controllers/scheduler.ts:348-403 | visiting positions in non-decreasing hours keeps every filled section from ending three consecutive blocks |
| SchedulerProperties.ScheduleNoThirdConsecutive | src/controllers/scheduler.ts:341-403 | no section the pass filled ends three consecutive blocks on the same days for its member, since every block the pass fills later is no earlier. The rule only looks back, so a run completed by a block its member held before the pass is not ruled out (see "Left out") |
| SubjectIdentity.IdsMembers | src/controllers/scheduler.ts:152-155 | an id is among the objects' ids exactly when some object has it |
| SubjectIdentity.UniqById | src/controllers/scheduler.ts:152-155 | uniqBy never lengthens the list |
| SubjectIdentity.IdsAppend | src/controllers/scheduler.ts:152-155 | appending an object adds its id |
| SubjectIdentity.UniqByIdKeepsOnePerId | src/controllers/scheduler.ts:152-155 | uniqBy keeps the same ids, exactly one object per id |
| SubjectIdentity.UniqByIdSubset | src/controllers/scheduler.ts:152-155 | uniqBy keeps only objects of the input |
| SubjectIdentity.PreparationsAsWritten | src/controllers/scheduler.ts:151-170 | the calculation as written, comparing subject objects: no errors, at most the same-subject pro |
| SubjectIdentity.PreparationsById | src/controllers/scheduler.ts:151-170 | the calculation comparing subjects by id: no errors, at most the same-subject pro |
| SubjectIdentity.AsWrittenMissesSameSubject | src/controllers/scheduler.ts:157-168 | a member teaching subjects 7 and 8 is refused for another section of subject 7 as written, but favoured by id |
| SubjectIdentity.AsWrittenAgreesWhenShared | src/controllers/scheduler.ts:157 | when the section's subject object is the only object of its id, both checks agree |
| SubjectIdentity.ByIdMatchesModel | src/controllers/scheduler.ts:151-170 | the check by id is the model's preparations contribution, whatever objects carry the subjects |

## Left out

- Persistence is not modelled: loading the faculty directory, counting sections, and saving
  the feedback and the section. The directory of `FacultyMember.find` is the `faculties`
  parameter and the term is a `Term` object. The saves at src/controllers/scheduler.ts:401-402
  are the in-place update of the term's array.
- Logging to the console is left out; it changes no state.
- The seven calculations start concurrently under `Promise.all`. They are modelled as one fixed
  sequence in the order their results land. calculateExperience awaits a count before it adds
  anything, so it lands last. The other six land in the order they are listed.
- The number of accepted past assignments to a subject (a database count) is `Env.timesTaught`.
- `getStatusForLoadAmount` and the `FacultyMemberTypeLoadingLimit` table are `Env` parameters.
  src/enums/load_amount_status and src/enums/faculty_member_type are not part of this model.
  The limit table is taken to cover every faculty type, so the failure when a type is missing
  is not modelled.
- src/enums/meeting_hours is not part of this model. Meeting hours are modelled as positions in
  the day's ordered list of blocks, with `AM_7_9` = 0 and `AM_9_11` = 1. `compareMeetingHours`
  is the order of those positions. `twoMeetingHoursBefore` gives the two preceding positions.
  The source calls `twoMeetingHoursBefore` at line 179, before it checks for the first two
  blocks. The model assumes that call returns normally for those blocks, whose result is then
  unused.
- numberOfAssignments is a database query over the term's sections. It is modelled as a count
  over the term's in-memory array. The scheduler saves every assignment before the next query,
  so the two agree.
- Scores are exact reals, not IEEE doubles. `Math.pow` is exact exponentiation.
- The texts of pros, cons and errors are the `Note` datatype, one constructor per message.
  Counts appear as arguments.
- The score objects are ranked as value snapshots of their records. They no longer change
  after scoring, so this loses nothing.
- Ties in sortScore keep the directory order, as the stable sort in the code does. This is
  proved by Ranking.RankedTiesKeepOrder. A secondary key, such as ascending faculty id, is not
  modelled, because the code has none.
- The stable sort is assumed. `Array.prototype.sort` is required to be stable only from
  ECMAScript 2019 (V8 7.0, Node 11) on; on older engines ties, and both sorts, may come out
  in another order.
- The directory order is assumed fixed for the whole pass. `FacultyMember.find` at
  src/controllers/scheduler.ts:273 has no ordering and runs again for every section; the model
  takes one `faculties` sequence for all of them. Which of several tied candidates is chosen
  (Ranking.RankedTiesKeepOrder, the "first" of SchedulerProperties.ChoiceIsFirstFeasible)
  rests on both assumptions.
- SchedulerProperties.ScheduleNoThirdConsecutive covers only the sections the pass fills. The
  third-consecutive rule at src/controllers/scheduler.ts:179-185 looks only at the two blocks
  before the section, so a member who held block 4 before the pass can be given blocks 2 and 3:
  neither is third in a run when it is assigned, yet 2, 3 and 4 then run consecutively.
- Ranking.ScoreAll builds each record by a call that returns, rather than a promise per
  member; only the order of the results matters, and it is kept.

## Findings

| source | as written | input that shows it | evidently intended | confidence | as-written member | corrected member |
|---|---|---|---|---|---|---|
| src/controllers/scheduler.ts:157 | the section's subject is looked up among the member's distinct subjects by object identity. The term's sections are loaded with one subject object per section row (src/controllers/term.ts:67-72), so another section of the same subject does not match | a member already teaches subject 7 (object 1) and subject 8 (object 2), and the section is of subject 7, loaded as object 3 | compare by subject id, as the line before does when making the subjects distinct. The member then gets the same-subject pro, +100 score and +300 sort points, instead of the "already has 2 preparations" con that excludes them | medium, not executed | SubjectIdentity.AsWrittenMissesSameSubject | SubjectIdentity.ByIdMatchesModel |
