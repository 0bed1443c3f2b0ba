/**
 * The client's scheduling utilities: the double-booking test, staff matching
 * by subject expertise, the crossing of two people's weekly availability into
 * meeting slots, the meeting-type suggestion and the choice of location.
 */
module MeetingUtils {
  import opened Wrappers
  import opened Seqs
  import opened Pairing
  import opened PrioritySort
  import opened TimeOfDay
  import opened Domain

  /** The shortest overlap offered as a meeting slot, in minutes. */
  const MinSlotMinutes := 30

  /** The proficiency from which a learning-strategist meeting is suggested. */
  const StrategistProficiency := 4

  function Max(a: int, b: int): int { if a >= b then a else b }

  function Min(a: int, b: int): int { if a <= b then a else b }

  // ---------------------------------------------------------------------------
  // Double-booking test

  /** The meeting being proposed: who, which calendar day, and the clock times. */
  datatype ProposedMeeting = ProposedMeeting(studentId: int, staffId: int, date: Day, startTime: string, endTime: string)

  predicate HasValidTimes(m: Meeting) {
    IsTimeString(m.startTime) && IsTimeString(m.endTime)
  }

  predicate ProposalHasValidTimes(p: ProposedMeeting) {
    IsTimeString(p.startTime) && IsTimeString(p.endTime)
  }

  /** The same calendar date, and the same student or the same staff member. */
  predicate SharesDayAndParticipant(p: ProposedMeeting, m: Meeting) {
    m.date == p.date && (m.studentId == p.studentId || m.staffId == p.staffId)
  }

  /** The source's three-clause overlap test. */
  predicate ClausesOverlap(newStart: int, newEnd: int, existingStart: int, existingEnd: int) {
    || (newStart >= existingStart && newStart < existingEnd)
    || (newEnd > existingStart && newEnd <= existingEnd)
    || (newStart <= existingStart && newEnd >= existingEnd)
  }

  /** Two half-open intervals [aStart, aEnd) and [bStart, bEnd) share a minute. */
  predicate HalfOpenOverlap(aStart: int, aEnd: int, bStart: int, bEnd: int) {
    aStart < bEnd && bStart < aEnd
  }

  predicate TimesClash(p: ProposedMeeting, m: Meeting)
    requires ProposalHasValidTimes(p) && HasValidTimes(m)
  {
    ClausesOverlap(TimeToMinutes(p.startTime), TimeToMinutes(p.endTime),
                   TimeToMinutes(m.startTime), TimeToMinutes(m.endTime))
  }

  /** `sameDayMeetings.some(...)` */
  function AnyTimeClash(p: ProposedMeeting, ms: seq<Meeting>): (r: bool)
    requires ProposalHasValidTimes(p) && forall m :: m in ms ==> HasValidTimes(m)
    ensures r <==> exists m :: m in ms && TimesClash(p, m)
  {
    if ms == [] then false else TimesClash(p, ms[0]) || AnyTimeClash(p, ms[1..])
  }

  /**
   * `checkMeetingConflict`: the proposal collides with an existing meeting on
   * the same date that shares its student or its staff member. The meeting's
   * status plays no part.
   */
  function CheckMeetingConflict(p: ProposedMeeting, existing: seq<Meeting>): (r: bool)
    requires ProposalHasValidTimes(p)
    requires forall m :: m in existing && SharesDayAndParticipant(p, m) ==> HasValidTimes(m)
    ensures r <==> exists m :: m in existing && SharesDayAndParticipant(p, m) && TimesClash(p, m)
  {
    var sameDayMeetings := Filter(existing, (m: Meeting) => SharesDayAndParticipant(p, m));
    AnyTimeClash(p, sameDayMeetings)
  }

  /** For well-ordered intervals the three clauses are exactly half-open overlap. */
  lemma ClausesAreHalfOpenOverlap(newStart: int, newEnd: int, existingStart: int, existingEnd: int)
    requires newStart < newEnd && existingStart < existingEnd
    ensures ClausesOverlap(newStart, newEnd, existingStart, existingEnd)
        <==> HalfOpenOverlap(newStart, newEnd, existingStart, existingEnd)
  {
  }

  /** The conflict test is half-open interval overlap against the same-day, same-participant meetings. */
  lemma ConflictIsHalfOpenOverlap(p: ProposedMeeting, existing: seq<Meeting>)
    requires ProposalHasValidTimes(p) && TimeToMinutes(p.startTime) < TimeToMinutes(p.endTime)
    requires forall m :: m in existing ==> HasValidTimes(m) && TimeToMinutes(m.startTime) < TimeToMinutes(m.endTime)
    ensures CheckMeetingConflict(p, existing) <==>
      exists m :: m in existing && SharesDayAndParticipant(p, m) &&
        HalfOpenOverlap(TimeToMinutes(p.startTime), TimeToMinutes(p.endTime),
                        TimeToMinutes(m.startTime), TimeToMinutes(m.endTime))
  {
    forall m | m in existing {
      ClausesAreHalfOpenOverlap(TimeToMinutes(p.startTime), TimeToMinutes(p.endTime),
                                TimeToMinutes(m.startTime), TimeToMinutes(m.endTime));
    }
  }

  /** Changing the status of existing meetings (to cancelled, say) never changes the verdict. */
  lemma ConflictIgnoresStatus(p: ProposedMeeting, existing: seq<Meeting>, restated: seq<Meeting>)
    requires ProposalHasValidTimes(p) && forall m :: m in existing ==> HasValidTimes(m)
    requires |restated| == |existing|
    requires forall i :: 0 <= i < |existing| ==> restated[i] == existing[i].(status := restated[i].status)
    ensures forall m :: m in restated ==> HasValidTimes(m)
    ensures CheckMeetingConflict(p, restated) == CheckMeetingConflict(p, existing)
  {
    forall m | m in restated ensures HasValidTimes(m) {
      var i :| 0 <= i < |restated| && restated[i] == m;
      assert existing[i] in existing;
    }
    if CheckMeetingConflict(p, existing) {
      var m :| m in existing && SharesDayAndParticipant(p, m) && TimesClash(p, m);
      var i :| 0 <= i < |existing| && existing[i] == m;
      assert restated[i] in restated && SharesDayAndParticipant(p, restated[i]) && TimesClash(p, restated[i]);
    }
    if CheckMeetingConflict(p, restated) {
      var m :| m in restated && SharesDayAndParticipant(p, m) && TimesClash(p, m);
      var i :| 0 <= i < |restated| && restated[i] == m;
      assert existing[i] in existing && SharesDayAndParticipant(p, existing[i]) && TimesClash(p, existing[i]);
    }
  }

  /** Touching meetings do not collide; overlapping ones do, and a cancelled one still counts. */
  lemma TouchingMeetingsDoNotConflict()
    ensures var existing := Meeting(1, 10, 20, Combo, None, 100, "11:00", "12:00", "", false, "", Cancelled);
      && !CheckMeetingConflict(ProposedMeeting(11, 20, 100, "10:00", "11:00"), [existing])
      && CheckMeetingConflict(ProposedMeeting(11, 20, 100, "10:30", "11:30"), [existing])
  {
    var existing := Meeting(1, 10, 20, Combo, None, 100, "11:00", "12:00", "", false, "", Cancelled);
    assert TimeToMinutes("11:00") == 660 && TimeToMinutes("12:00") == 720;
    assert TimeToMinutes("10:00") == 600 && TimeToMinutes("10:30") == 630 && TimeToMinutes("11:30") == 690;
    assert SharesDayAndParticipant(ProposedMeeting(11, 20, 100, "10:30", "11:30"), existing);
  }

  // ---------------------------------------------------------------------------
  // Staff matching

  /** `map(ss => ss.subjectId)` */
  function SubjectIdsOf(needs: seq<StudentSubject>): (r: seq<int>)
    ensures forall s :: s in r <==> exists n :: n in needs && n.subjectId == s
  {
    if needs == [] then [] else [needs[0].subjectId] + SubjectIdsOf(needs[1..])
  }

  /** The student's needs, in list order. */
  function NeedsOf(studentId: int, studentSubjects: seq<StudentSubject>): seq<StudentSubject> {
    Filter(studentSubjects, (n: StudentSubject) => n.userId == studentId)
  }

  /** The subjects to match on: a given (non-zero) subject, or else all the student's needs. */
  function RelevantSubjectIds(studentId: int, subjectId: Option<int>, studentSubjects: seq<StudentSubject>): (r: seq<int>)
    ensures subjectId.Some? && subjectId.value != 0 ==> r == [subjectId.value]
    ensures !(subjectId.Some? && subjectId.value != 0) ==>
      forall s :: s in r <==> exists n :: n in studentSubjects && n.userId == studentId && n.subjectId == s
  {
    if subjectId.Some? && subjectId.value != 0 then [subjectId.value]
    else SubjectIdsOf(NeedsOf(studentId, studentSubjects))
  }

  ghost predicate HasExpertiseIn(userId: int, subjects: seq<int>, staffExpertise: seq<StaffExpertise>) {
    exists e :: e in staffExpertise && e.userId == userId && e.subjectId in subjects
  }

  /** The user ids of expertise records for any of `subjects`. */
  function ExpertIds(subjects: seq<int>, staffExpertise: seq<StaffExpertise>): (r: seq<int>)
    ensures forall id :: id in r <==> exists e :: e in staffExpertise && e.userId == id && e.subjectId in subjects
  {
    if staffExpertise == [] then []
    else
      var e := staffExpertise[0];
      (if e.subjectId in subjects then [e.userId] else []) + ExpertIds(subjects, staffExpertise[1..])
  }

  /**
   * `findMatchingStaff`: with no relevant subject the whole roster; otherwise
   * the roster members, in roster order, that hold expertise in a relevant subject.
   */
  function FindMatchingStaff(studentId: int, subjectId: Option<int>, staffList: seq<User>,
                             studentSubjects: seq<StudentSubject>, staffExpertise: seq<StaffExpertise>): (r: seq<User>)
    ensures RelevantSubjectIds(studentId, subjectId, studentSubjects) == [] ==> r == staffList
    ensures RelevantSubjectIds(studentId, subjectId, studentSubjects) != [] ==>
      && Sublist(r, staffList)
      && forall u :: u in r <==>
           u in staffList && HasExpertiseIn(u.id, RelevantSubjectIds(studentId, subjectId, studentSubjects), staffExpertise)
  {
    var relevantSubjectIds := RelevantSubjectIds(studentId, subjectId, studentSubjects);
    if |relevantSubjectIds| == 0 then staffList
    else
      var matchingStaffIds := ExpertIds(relevantSubjectIds, staffExpertise);
      FilterIsSublist(staffList, (u: User) => u.id in matchingStaffIds);
      Filter(staffList, (u: User) => u.id in matchingStaffIds)
  }

  /** Fail-open: no subject given and no recorded need yields the whole roster. */
  lemma NoNeedsYieldsWholeRoster(studentId: int, subjectId: Option<int>, staffList: seq<User>,
                                 studentSubjects: seq<StudentSubject>, staffExpertise: seq<StaffExpertise>)
    requires subjectId.None? || subjectId.value == 0
    requires forall n :: n in studentSubjects ==> n.userId != studentId
    ensures FindMatchingStaff(studentId, subjectId, staffList, studentSubjects, staffExpertise) == staffList
  {
    forall i | 0 <= i < |studentSubjects| ensures studentSubjects[i].userId != studentId {
      assert studentSubjects[i] in studentSubjects;
    }
    FilterEmpty(studentSubjects, (n: StudentSubject) => n.userId == studentId);
  }

  /** A given subject replaces the needs: the result is the roster members with expertise in it. */
  lemma SubjectOverridesNeeds(studentId: int, subject: int, staffList: seq<User>,
                              needs1: seq<StudentSubject>, needs2: seq<StudentSubject>, staffExpertise: seq<StaffExpertise>)
    requires subject != 0
    ensures FindMatchingStaff(studentId, Some(subject), staffList, needs1, staffExpertise)
         == FindMatchingStaff(studentId, Some(subject), staffList, needs2, staffExpertise)
    ensures forall u :: u in FindMatchingStaff(studentId, Some(subject), staffList, needs1, staffExpertise) <==>
      u in staffList && exists e :: e in staffExpertise && e.userId == u.id && e.subjectId == subject
  {
    var r := FindMatchingStaff(studentId, Some(subject), staffList, needs1, staffExpertise);
    forall u ensures u in r <==> u in staffList && exists e :: e in staffExpertise && e.userId == u.id && e.subjectId == subject {
      if u in r {
        var e :| e in staffExpertise && e.userId == u.id && e.subjectId in [subject];
      }
    }
  }

  // ---------------------------------------------------------------------------
  // Crossing two people's weekly availability

  predicate WindowHasValidTimes(w: Availability) {
    IsTimeString(w.startTime) && IsTimeString(w.endTime)
  }

  predicate AllValid(ws: seq<Availability>) {
    forall w :: w in ws ==> WindowHasValidTimes(w)
  }

  /** A common free interval in minutes on a weekday, with its location ("" when none). */
  datatype Span = Span(day: int, start: nat, end: nat, location: string)

  /** Both ends lie within one day, so they can be written "HH:MM". */
  predicate WithinDay(sp: Span) {
    sp.start < 1440 && sp.end < 1440
  }

  /** An offered slot as the program returns it: the span's times rendered "HH:MM". */
  datatype Slot = Slot(day: int, start: string, end: string, location: string)

  function ToSlot(sp: Span): Slot {
    Slot(sp.day, MinutesToTime(sp.start), MinutesToTime(sp.end), sp.location)
  }

  /** Rendering keeps everything: a slot determines its span. */
  lemma ToSlotInjective(a: Span, b: Span)
    requires WithinDay(a) && WithinDay(b) && ToSlot(a) == ToSlot(b)
    ensures a == b
  {
    MinutesToTimeRoundTrip(a.start);
    MinutesToTimeRoundTrip(a.end);
    MinutesToTimeRoundTrip(b.start);
    MinutesToTimeRoundTrip(b.end);
  }

  /** The spans rendered one by one, in order. */
  function Render(ps: seq<Span>): (r: seq<Slot>)
    ensures |r| == |ps| && forall i :: 0 <= i < |ps| ==> r[i] == ToSlot(ps[i])
  {
    if ps == [] then [] else [ToSlot(ps[0])] + Render(ps[1..])
  }

  lemma {:induction false} RenderAppend(a: seq<Span>, b: seq<Span>)
    ensures Render(a + b) == Render(a) + Render(b)
  {
    if a == [] {
      assert a + b == b;
    } else {
      assert (a + b)[1..] == a[1..] + b;
      RenderAppend(a[1..], b);
    }
  }

  /**
   * What one student window and one staff window contribute: their
   * intersection when it lasts at least 30 minutes, on the student window's
   * weekday, located at the staff window's location if it has one and
   * otherwise at the student's. (Windows whose times do not match the pattern
   * contribute nothing; the callers exclude them.)
   */
  function OverlapSpan(s: Availability, t: Availability): (r: Option<Span>)
    ensures r.Some? ==> WithinDay(r.value) && r.value.end - r.value.start >= MinSlotMinutes
  {
    if !(WindowHasValidTimes(s) && WindowHasValidTimes(t)) then None
    else
      var overlapStart := Max(TimeToMinutes(s.startTime), TimeToMinutes(t.startTime));
      var overlapEnd := Min(TimeToMinutes(s.endTime), TimeToMinutes(t.endTime));
      if overlapEnd - overlapStart >= MinSlotMinutes then
        Some(Span(s.dayOfWeek, overlapStart, overlapEnd, if t.location != "" then t.location else s.location))
      else None
  }

  /** A pair yields a span exactly when the intersection lasts 30 minutes, and the span is that intersection. */
  lemma OverlapSpanIsIntersection(s: Availability, t: Availability)
    requires WindowHasValidTimes(s) && WindowHasValidTimes(t)
    ensures var r := OverlapSpan(s, t);
      r.Some? <==>
        Min(TimeToMinutes(s.endTime), TimeToMinutes(t.endTime)) - Max(TimeToMinutes(s.startTime), TimeToMinutes(t.startTime)) >= MinSlotMinutes
    ensures var r := OverlapSpan(s, t);
      r.Some? ==>
        && r.value.day == s.dayOfWeek
        && r.value.start == Max(TimeToMinutes(s.startTime), TimeToMinutes(t.startTime))
        && r.value.end == Min(TimeToMinutes(s.endTime), TimeToMinutes(t.endTime))
        && r.value.end - r.value.start >= MinSlotMinutes
        && TimeToMinutes(s.startTime) <= r.value.start && r.value.end <= TimeToMinutes(s.endTime)
        && TimeToMinutes(t.startTime) <= r.value.start && r.value.end <= TimeToMinutes(t.endTime)
        && r.value.location == (if t.location != "" then t.location else s.location)
  {
  }

  /** The windows of one person. */
  function OfUser(ws: seq<Availability>, userId: int): seq<Availability> {
    Filter(ws, (a: Availability) => a.userId == userId)
  }

  /** The weekday of a window, and of a span. */
  function DayOf(w: Availability): int { w.dayOfWeek }

  function SpanDay(sp: Span): int { sp.day }

  /** The windows on one weekday. */
  function OnDay(ws: seq<Availability>, day: int): seq<Availability> {
    OnKey(ws, DayOf, day)
  }

  /** A span carries the student window's weekday. */
  lemma OverlapSpanKeepsDay()
    ensures forall s, t :: OverlapSpan(s, t).Some? ==> SpanDay(OverlapSpan(s, t).value) == DayOf(s)
  {
  }

  /** The spans behind `findAvailableTimeSlots`' result, as a function of its inputs. */
  function AvailableSpans(studentId: int, staffId: int, studentAvailability: seq<Availability>,
                          staffAvailability: seq<Availability>): seq<Span>
  {
    ByKey(OverlapSpan, DayOf, OfUser(studentAvailability, studentId), OfUser(staffAvailability, staffId), 7)
  }

  /**
   * `findAvailableTimeSlots`: for each weekday, every student window of that
   * day against every staff window of that day, pushing each overlap of at
   * least 30 minutes. The innermost loop is `PushPairSlots`.
   */
  method FindAvailableTimeSlots(studentId: int, staffId: int, studentAvailability: seq<Availability>,
                                staffAvailability: seq<Availability>) returns (availableSlots: seq<Slot>)
    requires AllValid(OfUser(studentAvailability, studentId)) && AllValid(OfUser(staffAvailability, staffId))
    ensures availableSlots == Render(AvailableSpans(studentId, staffId, studentAvailability, staffAvailability))
  {
    availableSlots := [];
    var studentSlots := OfUser(studentAvailability, studentId);
    var staffSlots := OfUser(staffAvailability, staffId);
    for day := 0 to 7
      invariant availableSlots == Render(ByKey(OverlapSpan, DayOf, studentSlots, staffSlots, day))
    {
      var studentDaySlots := OnDay(studentSlots, day);
      var staffDaySlots := OnDay(staffSlots, day);
      OnDayKeepsValid(studentSlots, day);
      OnDayKeepsValid(staffSlots, day);
      availableSlots := PushDaySlots(availableSlots, day, studentDaySlots, staffDaySlots);
      WeekStep(studentSlots, staffSlots, day);
      RenderAppend(ByKey(OverlapSpan, DayOf, studentSlots, staffSlots, day), CrossWith(OverlapSpan, studentDaySlots, staffDaySlots));
    }
  }

  /** The middle loop of `findAvailableTimeSlots`: the day's student windows against the day's staff windows. */
  method PushDaySlots(availableSlots: seq<Slot>, day: int, studentDaySlots: seq<Availability>,
                      staffDaySlots: seq<Availability>) returns (pushed: seq<Slot>)
    requires AllValid(studentDaySlots) && AllValid(staffDaySlots)
    requires forall i :: 0 <= i < |studentDaySlots| ==> studentDaySlots[i].dayOfWeek == day
    ensures pushed == availableSlots + Render(CrossWith(OverlapSpan, studentDaySlots, staffDaySlots))
  {
    pushed := availableSlots;
    for i := 0 to |studentDaySlots|
      invariant pushed == availableSlots + Render(CrossWith(OverlapSpan, studentDaySlots[..i], staffDaySlots))
    {
      var studentSlot := studentDaySlots[i];
      assert studentSlot in studentDaySlots;
      RenderCrossStep(studentDaySlots, staffDaySlots, i);
      AppendAssoc(availableSlots, Render(CrossWith(OverlapSpan, studentDaySlots[..i], staffDaySlots)),
                  Render(PairWith(OverlapSpan, studentSlot, staffDaySlots)));
      pushed := PushPairSlots(pushed, day, studentSlot, staffDaySlots);
    }
    assert studentDaySlots[..|studentDaySlots|] == studentDaySlots;
  }

  /** The windows of one weekday are valid windows of that weekday. */
  lemma OnDayKeepsValid(ws: seq<Availability>, day: int)
    requires AllValid(ws)
    ensures AllValid(OnDay(ws, day))
    ensures forall i :: 0 <= i < |OnDay(ws, day)| ==> OnDay(ws, day)[i].dayOfWeek == day
  {
    forall i | 0 <= i < |OnDay(ws, day)| ensures OnDay(ws, day)[i].dayOfWeek == day {
      assert OnDay(ws, day)[i] in OnDay(ws, day);
    }
  }

  /** One more weekday appends that day's overlaps. */
  lemma WeekStep(ss: seq<Availability>, ts: seq<Availability>, day: nat)
    ensures ByKey(OverlapSpan, DayOf, ss, ts, day + 1)
         == ByKey(OverlapSpan, DayOf, ss, ts, day) + CrossWith(OverlapSpan, OnDay(ss, day), OnDay(ts, day))
  {
  }

  /** One more student window appends the rendering of its pairs. */
  lemma RenderCrossStep(ss: seq<Availability>, ts: seq<Availability>, i: nat)
    requires i < |ss|
    ensures Render(CrossWith(OverlapSpan, ss[..i + 1], ts))
         == Render(CrossWith(OverlapSpan, ss[..i], ts)) + Render(PairWith(OverlapSpan, ss[i], ts))
  {
    assert ss[..i + 1][..i] == ss[..i];
    RenderAppend(CrossWith(OverlapSpan, ss[..i], ts), PairWith(OverlapSpan, ss[i], ts));
  }

  /** One more staff window appends the rendering of its overlap, if it has one. */
  lemma RenderPairStep(s: Availability, ts: seq<Availability>, j: nat)
    requires j < |ts|
    ensures Render(PairWith(OverlapSpan, s, ts[..j + 1]))
         == Render(PairWith(OverlapSpan, s, ts[..j]))
          + (if OverlapSpan(s, ts[j]).Some? then [ToSlot(OverlapSpan(s, ts[j]).value)] else [])
  {
    var o := OverlapSpan(s, ts[j]);
    assert ts[..j + 1][..j] == ts[..j];
    RenderAppend(PairWith(OverlapSpan, s, ts[..j]), if o.Some? then [o.value] else []);
  }

  /** The innermost loop of `findAvailableTimeSlots`: one student window against the day's staff windows. */
  method PushPairSlots(availableSlots: seq<Slot>, day: int, studentSlot: Availability, staffDaySlots: seq<Availability>)
    returns (pushed: seq<Slot>)
    requires WindowHasValidTimes(studentSlot) && studentSlot.dayOfWeek == day && AllValid(staffDaySlots)
    ensures pushed == availableSlots + Render(PairWith(OverlapSpan, studentSlot, staffDaySlots))
  {
    pushed := availableSlots;
    for j := 0 to |staffDaySlots|
      invariant pushed == availableSlots + Render(PairWith(OverlapSpan, studentSlot, staffDaySlots[..j]))
    {
      var staffSlot := staffDaySlots[j];
      assert staffSlot in staffDaySlots;
      RenderPairStep(studentSlot, staffDaySlots, j);
      AppendAssoc(availableSlots, Render(PairWith(OverlapSpan, studentSlot, staffDaySlots[..j])),
                  if OverlapSpan(studentSlot, staffSlot).Some? then [ToSlot(OverlapSpan(studentSlot, staffSlot).value)] else []);
      pushed := PushOverlap(pushed, day, studentSlot, staffSlot);
    }
    assert staffDaySlots[..|staffDaySlots|] == staffDaySlots;
  }

  /** The body of the innermost loop: push the pair's overlap when it lasts at least 30 minutes. */
  method PushOverlap(availableSlots: seq<Slot>, day: int, studentSlot: Availability, staffSlot: Availability)
    returns (pushed: seq<Slot>)
    requires WindowHasValidTimes(studentSlot) && WindowHasValidTimes(staffSlot) && studentSlot.dayOfWeek == day
    ensures var contributed := OverlapSpan(studentSlot, staffSlot);
      pushed == availableSlots + if contributed.Some? then [ToSlot(contributed.value)] else []
  {
    var studentStart := TimeToMinutes(studentSlot.startTime);
    var studentEnd := TimeToMinutes(studentSlot.endTime);
    var staffStart := TimeToMinutes(staffSlot.startTime);
    var staffEnd := TimeToMinutes(staffSlot.endTime);
    var overlapStart := Max(studentStart, staffStart);
    var overlapEnd := Min(studentEnd, staffEnd);
    if overlapEnd - overlapStart >= MinSlotMinutes {
      var location := if staffSlot.location != "" then staffSlot.location else studentSlot.location;
      pushed := availableSlots + [Slot(day, MinutesToTime(overlapStart), MinutesToTime(overlapEnd), location)];
    } else {
      pushed := availableSlots;
    }
  }

  /**
   * Every span is the overlap of a window of the student and a window of the
   * staff member on the same weekday 0..6, every such overlap is offered, and
   * spans come in weekday order.
   */
  lemma AvailableSpansCharacterized(studentId: int, staffId: int, studentAvailability: seq<Availability>,
                                    staffAvailability: seq<Availability>)
    ensures forall x :: x in AvailableSpans(studentId, staffId, studentAvailability, staffAvailability) <==>
      exists s, t :: s in studentAvailability && t in staffAvailability && s.userId == studentId && t.userId == staffId
        && 0 <= s.dayOfWeek < 7 && s.dayOfWeek == t.dayOfWeek && OverlapSpan(s, t) == Some(x)
    ensures InKeyOrder(AvailableSpans(studentId, staffId, studentAvailability, staffAvailability), SpanDay, 7)
  {
    var ss := OfUser(studentAvailability, studentId);
    var ts := OfUser(staffAvailability, staffId);
    ByKeySound(OverlapSpan, DayOf, ss, ts, 7);
    ByKeyComplete(OverlapSpan, DayOf, ss, ts, 7);
    OverlapSpanKeepsDay();
    ByKeyOrdered(OverlapSpan, DayOf, SpanDay, ss, ts, 7);
  }

  /** Every offered span lies within one day and lasts at least 30 minutes. */
  lemma AvailableSpansAreLongEnough(studentId: int, staffId: int, studentAvailability: seq<Availability>,
                                    staffAvailability: seq<Availability>)
    ensures forall x :: x in AvailableSpans(studentId, staffId, studentAvailability, staffAvailability) ==>
      WithinDay(x) && x.end - x.start >= MinSlotMinutes
  {
    AvailableSpansCharacterized(studentId, staffId, studentAvailability, staffAvailability);
    forall x | x in AvailableSpans(studentId, staffId, studentAvailability, staffAvailability)
      ensures WithinDay(x) && x.end - x.start >= MinSlotMinutes
    {
      var s, t :| s in studentAvailability && t in staffAvailability && s.userId == studentId && t.userId == staffId
        && 0 <= s.dayOfWeek < 7 && s.dayOfWeek == t.dayOfWeek && OverlapSpan(s, t) == Some(x);
    }
  }

  /**
   * The returned slots, one per span in the same order, carry canonical
   * "HH:MM" times that read back as the span's minutes.
   */
  lemma AvailableSlotsAreCanonical(studentId: int, staffId: int, studentAvailability: seq<Availability>,
                                   staffAvailability: seq<Availability>)
    ensures forall i :: 0 <= i < |AvailableSpans(studentId, staffId, studentAvailability, staffAvailability)| ==>
      var sp := AvailableSpans(studentId, staffId, studentAvailability, staffAvailability)[i];
      && IsCanonical(ToSlot(sp).start) && IsCanonical(ToSlot(sp).end)
      && TimeToMinutes(ToSlot(sp).start) == sp.start && TimeToMinutes(ToSlot(sp).end) == sp.end
  {
    var spans := AvailableSpans(studentId, staffId, studentAvailability, staffAvailability);
    AvailableSpansAreLongEnough(studentId, staffId, studentAvailability, staffAvailability);
    forall i | 0 <= i < |spans|
      ensures IsCanonical(ToSlot(spans[i]).start) && IsCanonical(ToSlot(spans[i]).end)
      ensures TimeToMinutes(ToSlot(spans[i]).start) == spans[i].start && TimeToMinutes(ToSlot(spans[i]).end) == spans[i].end
    {
      assert spans[i] in spans;
      MinutesToTimeRoundTrip(spans[i].start);
      MinutesToTimeRoundTrip(spans[i].end);
    }
  }

  // ---------------------------------------------------------------------------
  // Meeting-type suggestion

  function Priority(n: StudentSubject): int { n.priorityLevel }

  /** The staff member's expertise records, in list order. */
  function ExpertiseOf(staffId: int, staffExpertise: seq<StaffExpertise>): seq<StaffExpertise> {
    Filter(staffExpertise, (e: StaffExpertise) => e.userId == staffId)
  }

  function InSubject(subjectId: int): StaffExpertise -> bool {
    (e: StaffExpertise) => e.subjectId == subjectId
  }

  /** A record of the given staff member in the given subject. */
  function StaffRowIn(staffId: int, subjectId: int): StaffExpertise -> bool {
    (e: StaffExpertise) => e.userId == staffId && e.subjectId == subjectId
  }

  /**
   * `suggestMeetingType`: the student's needs sorted by priority, highest
   * first; when the staff member has expertise in the top need's subject, a
   * learning-strategist meeting for proficiency 4 or more and an academic-coach
   * meeting otherwise; a combo meeting in every other case.
   */
  function SuggestMeetingType(studentId: int, staffId: int, studentSubjects: seq<StudentSubject>,
                              staffExpertise: seq<StaffExpertise>): (r: MeetingType)
    ensures r == LearningStrategist || r == AcademicCoach || r == Combo
  {
    var subjects := SortDesc(NeedsOf(studentId, studentSubjects), Priority);
    var expertise := ExpertiseOf(staffId, staffExpertise);
    if |subjects| > 0 && exists e :: e in expertise && e.subjectId == subjects[0].subjectId then
      match Find(expertise, InSubject(subjects[0].subjectId))
      case Some(subjectExpertise) =>
        if subjectExpertise.proficiencyLevel >= StrategistProficiency then LearningStrategist else AcademicCoach
      case None => AcademicCoach
    else Combo
  }

  /**
   * Without the sort and the intermediate lists: the student's top need is the
   * first of their needs with the greatest priority, and the suggestion follows
   * the staff member's first expertise record in that need's subject.
   */
  lemma SuggestMeetingTypeFollowsTopNeed(studentId: int, staffId: int, studentSubjects: seq<StudentSubject>,
                                         staffExpertise: seq<StaffExpertise>)
    ensures NeedsOf(studentId, studentSubjects) == [] ==>
      SuggestMeetingType(studentId, staffId, studentSubjects, staffExpertise) == Combo
    ensures NeedsOf(studentId, studentSubjects) != [] ==>
      var needs := NeedsOf(studentId, studentSubjects);
      var k := FirstMaxIndex(needs, Priority);
      && IsFirstMax(needs, Priority, k)
      && SuggestMeetingType(studentId, staffId, studentSubjects, staffExpertise) ==
           match Find(staffExpertise, StaffRowIn(staffId, needs[k].subjectId))
           case None => Combo
           case Some(e) => if e.proficiencyLevel >= StrategistProficiency then LearningStrategist else AcademicCoach
  {
    var needs := NeedsOf(studentId, studentSubjects);
    if needs != [] {
      SortHeadIsFirstMax(needs, Priority);
      var top := needs[FirstMaxIndex(needs, Priority)];
      var expertise := ExpertiseOf(staffId, staffExpertise);
      FindAfterFilter(staffExpertise, (e: StaffExpertise) => e.userId == staffId, InSubject(top.subjectId),
                      StaffRowIn(staffId, top.subjectId));
      var found := Find(expertise, InSubject(top.subjectId));
      if found.None? {
        assert forall e :: e in expertise ==> e.subjectId != top.subjectId;
      } else {
        assert found.value in expertise;
      }
    }
  }

  // ---------------------------------------------------------------------------
  // Meeting location

  /** Where a meeting takes place, and whether it is held online. */
  datatype Placement = Placement(location: string, isVirtual: bool)

  /** A window of the given user that names a location. */
  function PlacedBy(userId: int): Availability -> bool {
    (a: Availability) => a.userId == userId && a.location != ""
  }

  /** `map(a => a.location)` */
  function LocationsOf(ws: seq<Availability>): (r: seq<string>)
    ensures |r| == |ws| && forall i :: 0 <= i < |ws| ==> r[i] == ws[i].location
  {
    if ws == [] then [] else [ws[0].location] + LocationsOf(ws[1..])
  }

  /**
   * `determineMeetingLocation`: online when either side is remote; otherwise
   * the first location named by the staff member's windows, then the first
   * named by the student's, then "TBD". A location is never empty.
   */
  function DetermineMeetingLocation(student: User, staff: User, studentAvailability: seq<Availability>,
                                    staffAvailability: seq<Availability>): (r: Placement)
    ensures r.isVirtual <==> staff.isRemote || student.isRemote
    ensures r.isVirtual ==> r.location == "Virtual"
    ensures r.location != ""
  {
    if staff.isRemote then Placement("Virtual", true)
    else if student.isRemote then Placement("Virtual", true)
    else
      var staffWindows := Filter(staffAvailability, PlacedBy(staff.id));
      var staffLocations := LocationsOf(staffWindows);
      if |staffLocations| > 0 then
        assert staffWindows[0] in staffWindows;
        Placement(staffLocations[0], false)
      else
        var studentWindows := Filter(studentAvailability, PlacedBy(student.id));
        var studentLocations := LocationsOf(studentWindows);
        if |studentLocations| > 0 then
          assert studentWindows[0] in studentWindows;
          Placement(studentLocations[0], false)
        else Placement("TBD", false)
  }

  /** In person, the staff member's first named location wins over the student's, and "TBD" is the last resort. */
  lemma LocationPrefersStaff(student: User, staff: User, studentAvailability: seq<Availability>,
                             staffAvailability: seq<Availability>)
    requires !staff.isRemote && !student.isRemote
    ensures DetermineMeetingLocation(student, staff, studentAvailability, staffAvailability) ==
      match Find(staffAvailability, PlacedBy(staff.id))
      case Some(a) => Placement(a.location, false)
      case None =>
        match Find(studentAvailability, PlacedBy(student.id))
        case Some(a) => Placement(a.location, false)
        case None => Placement("TBD", false)
  {
    FilterHeadIsFind(staffAvailability, PlacedBy(staff.id));
    FilterHeadIsFind(studentAvailability, PlacedBy(student.id));
  }
}
