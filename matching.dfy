/**
 * The server's search for a replacement staff member (`findAlternativeStaff`):
 * the first expertise record of the original staff member fixes the subject
 * and the minimum proficiency; candidates are the other professional staff
 * with such expertise, a window on the meeting's weekday covering the meeting,
 * and the requested modality. When nobody qualifies, the scheduling team is
 * sent a high-priority pairing-issue notice.
 *
 * The database reads become sequences passed in (in table order) and the
 * weekday of the meeting's date is passed in as `meetingWeekday`.
 */
module Matching {
  import opened Wrappers
  import opened Seqs
  import opened TimeOfDay
  import opened Domain

  /** The optional `modality` argument. */
  datatype Modality = Virtual | InPerson

  /**
   * The escalation notice, of type PAIRING_ISSUE, for the scheduling team. Its
   * priority is written as the string 'HIGH', the top level of the conflict
   * priorities ('HIGH' | 'MEDIUM' | 'LOW'); `ConflictPriority` stands for it.
   */
  datatype PairingIssue = PairingIssue(
    meetingId: int,
    originalStaffId: int,
    priority: ConflictPriority,
    relatedEntityType: string,
    tags: seq<string>)

  /** The reply: a success flag with either the candidates or a message. */
  datatype AlternativeStaffResult = AlternativeStaffResult(
    success: bool,
    alternativeStaff: Option<seq<User>>,
    message: Option<string>)

  const NoExpertiseMessage := "Could not determine required expertise"
  const NoStaffMessage := "No qualified and available staff found. Scheduling team has been notified."

  function OfStaff(staffId: int): StaffExpertise -> bool {
    (e: StaffExpertise) => e.userId == staffId
  }

  /** The first expertise record of the original staff member, in table order, if any. */
  function RequiredExpertise(staffExpertise: seq<StaffExpertise>, originalStaffId: int): (r: Option<StaffExpertise>)
    ensures r.None? <==> forall e :: e in staffExpertise ==> e.userId != originalStaffId
    ensures r.Some? ==> exists i :: IsFirstIndex(staffExpertise, OfStaff(originalStaffId), i) && staffExpertise[i] == r.value
  {
    Find(staffExpertise, OfStaff(originalStaffId))
  }

  /** The query's candidates: professional staff other than the original staff member, in table order. */
  function OtherProfessionals(users: seq<User>, originalStaffId: int): seq<User> {
    Filter(users, (u: User) => u.role == ProfessionalStaff && u.id != originalStaffId)
  }

  /** An expertise record of at least the required proficiency in the required subject. */
  function Covers(required: StaffExpertise): StaffExpertise -> bool {
    (e: StaffExpertise) => e.subjectId == required.subjectId && e.proficiencyLevel >= required.proficiencyLevel
  }

  /** A window on the meeting's weekday whose times enclose the meeting's, compared as strings. */
  function Encloses(meeting: Meeting, meetingWeekday: int): Availability -> bool {
    (slot: Availability) =>
      slot.dayOfWeek == meetingWeekday && StrLe(slot.startTime, meeting.startTime) && StrLe(meeting.endTime, slot.endTime)
  }

  predicate MatchesModality(staff: User, modality: Option<Modality>) {
    modality.None? || (if modality.value == Virtual then staff.isRemote else !staff.isRemote)
  }

  /** The three tests the candidate filter applies to one staff member. */
  function Qualifies(meeting: Meeting, meetingWeekday: int, required: StaffExpertise, modality: Option<Modality>,
                     staffExpertise: seq<StaffExpertise>, availability: seq<Availability>): User -> bool
  {
    (staff: User) =>
      && Any(Filter(staffExpertise, OfStaff(staff.id)), Covers(required))
      && Any(Filter(availability, (w: Availability) => w.userId == staff.id), Encloses(meeting, meetingWeekday))
      && MatchesModality(staff, modality)
  }

  /** The filtered candidates, once the required expertise is known. */
  function AvailableStaff(meeting: Meeting, meetingWeekday: int, required: StaffExpertise, modality: Option<Modality>,
                          users: seq<User>, staffExpertise: seq<StaffExpertise>, availability: seq<Availability>,
                          originalStaffId: int): seq<User>
  {
    Filter(OtherProfessionals(users, originalStaffId),
           Qualifies(meeting, meetingWeekday, required, modality, staffExpertise, availability))
  }

  /** The notice sent when nobody qualifies. */
  function EscalationFor(meetingId: int, originalStaffId: int): PairingIssue {
    PairingIssue(meetingId, originalStaffId, High, "MEETING", ["scheduling-team", "needs-review"])
  }

  /** What `findAlternativeStaff` answers. */
  function AlternativeAnswer(meeting: Meeting, meetingWeekday: int, originalStaffId: int, modality: Option<Modality>,
                             users: seq<User>, staffExpertise: seq<StaffExpertise>,
                             availability: seq<Availability>): AlternativeStaffResult
  {
    match RequiredExpertise(staffExpertise, originalStaffId)
    case None => AlternativeStaffResult(false, None, Some(NoExpertiseMessage))
    case Some(required) =>
      var availableStaff :=
        AvailableStaff(meeting, meetingWeekday, required, modality, users, staffExpertise, availability, originalStaffId);
      if availableStaff == [] then AlternativeStaffResult(false, None, Some(NoStaffMessage))
      else AlternativeStaffResult(true, Some(availableStaff), None)
  }

  /** The notices `findAlternativeStaff` sends: one when the required expertise is known but nobody qualifies. */
  function Escalations(meeting: Meeting, meetingWeekday: int, originalStaffId: int, modality: Option<Modality>,
                       users: seq<User>, staffExpertise: seq<StaffExpertise>,
                       availability: seq<Availability>): seq<PairingIssue>
  {
    match RequiredExpertise(staffExpertise, originalStaffId)
    case None => []
    case Some(required) =>
      if AvailableStaff(meeting, meetingWeekday, required, modality, users, staffExpertise, availability,
                        originalStaffId) == []
      then [EscalationFor(meeting.id, originalStaffId)]
      else []
  }

  /** The notifications table the escalation is inserted into. */
  class NotificationInbox {
    var issues: seq<PairingIssue>

    constructor()
      ensures issues == []
    {
      issues := [];
    }
  }

  /**
   * `findAlternativeStaff`, with the notice inserted into `inbox` (the
   * corrected program: the table the source inserts into is in scope).
   */
  method FindAlternativeStaff(inbox: NotificationInbox, meeting: Meeting, meetingWeekday: int, originalStaffId: int,
                              modality: Option<Modality>, users: seq<User>, staffExpertise: seq<StaffExpertise>,
                              availability: seq<Availability>) returns (result: AlternativeStaffResult)
    modifies inbox`issues
    ensures result == AlternativeAnswer(meeting, meetingWeekday, originalStaffId, modality, users, staffExpertise, availability)
    ensures inbox.issues == old(inbox.issues)
      + Escalations(meeting, meetingWeekday, originalStaffId, modality, users, staffExpertise, availability)
  {
    var requiredExpertise := RequiredExpertise(staffExpertise, originalStaffId);
    if requiredExpertise.None? {
      return AlternativeStaffResult(false, None, Some(NoExpertiseMessage));
    }
    var qualifiedStaff := OtherProfessionals(users, originalStaffId);
    var availableStaff := Filter(qualifiedStaff, Qualifies(meeting, meetingWeekday, requiredExpertise.value, modality,
                                                           staffExpertise, availability));
    if |availableStaff| == 0 {
      inbox.issues := inbox.issues + [EscalationFor(meeting.id, originalStaffId)];
      return AlternativeStaffResult(false, None, Some(NoStaffMessage));
    }
    return AlternativeStaffResult(true, Some(availableStaff), None);
  }

  /** Some expertise record of `u` is in the required subject at no lower proficiency. */
  ghost predicate HoldsRequiredExpertise(u: User, required: StaffExpertise, staffExpertise: seq<StaffExpertise>) {
    exists e :: e in staffExpertise && e.userId == u.id && e.subjectId == required.subjectId
                && e.proficiencyLevel >= required.proficiencyLevel
  }

  /** Some window of `u` on the meeting's weekday starts no later and ends no earlier, as strings. */
  ghost predicate FreeDuring(u: User, meeting: Meeting, meetingWeekday: int, availability: seq<Availability>) {
    exists w :: w in availability && w.userId == u.id && w.dayOfWeek == meetingWeekday
                && StrLe(w.startTime, meeting.startTime) && StrLe(meeting.endTime, w.endTime)
  }

  /**
   * Every candidate is another professional staff member, holds expertise in
   * the required subject at no lower proficiency, has a window on the
   * meeting's weekday enclosing the meeting, and fits the modality; every such
   * staff member is a candidate, in table order.
   */
  lemma AvailableStaffCharacterized(meeting: Meeting, meetingWeekday: int, required: StaffExpertise,
                                    modality: Option<Modality>, users: seq<User>,
                                    staffExpertise: seq<StaffExpertise>,
                                    availability: seq<Availability>, originalStaffId: int)
    ensures Sublist(AvailableStaff(meeting, meetingWeekday, required, modality, users, staffExpertise, availability,
                                   originalStaffId), users)
    ensures forall u :: u in AvailableStaff(meeting, meetingWeekday, required, modality, users, staffExpertise,
                                            availability, originalStaffId) <==>
      && u in users && u.role == ProfessionalStaff && u.id != originalStaffId
      && HoldsRequiredExpertise(u, required, staffExpertise)
      && FreeDuring(u, meeting, meetingWeekday, availability)
      && (modality == Some(Virtual) ==> u.isRemote)
      && (modality == Some(InPerson) ==> !u.isRemote)
  {
    var p := (u: User) => u.role == ProfessionalStaff && u.id != originalStaffId;
    var q := Qualifies(meeting, meetingWeekday, required, modality, staffExpertise, availability);
    var pq := (u: User) => p(u) && q(u);
    FilterFilter(users, p, q, pq);
    FilterIsSublist(users, pq);
    forall u {
      QualifiesCharacterized(meeting, meetingWeekday, required, modality, staffExpertise, availability, u);
    }
  }

  /** The candidate filter's three tests on one staff member, as conditions on the records. */
  lemma QualifiesCharacterized(meeting: Meeting, meetingWeekday: int, required: StaffExpertise,
                               modality: Option<Modality>, staffExpertise: seq<StaffExpertise>,
                               availability: seq<Availability>, u: User)
    ensures Qualifies(meeting, meetingWeekday, required, modality, staffExpertise, availability)(u) <==>
      && HoldsRequiredExpertise(u, required, staffExpertise)
      && FreeDuring(u, meeting, meetingWeekday, availability)
      && MatchesModality(u, modality)
  {
    AnyOfFilter(staffExpertise, OfStaff(u.id), Covers(required));
    AnyOfFilter(availability, (w: Availability) => w.userId == u.id, Encloses(meeting, meetingWeekday));
  }

  /** `Any` over a filtered list is "some element passes both tests". */
  lemma AnyOfFilter<T(!new)>(s: seq<T>, p: T -> bool, q: T -> bool)
    ensures Any(Filter(s, p), q) <==> exists x :: x in s && p(x) && q(x)
  {
    var f := Filter(s, p);
    if exists x :: x in s && p(x) && q(x) {
      var x :| x in s && p(x) && q(x);
      assert x in f;
      var i :| 0 <= i < |f| && f[i] == x;
      assert q(f[i]);
    }
    if Any(f, q) {
      var i :| 0 <= i < |f| && q(f[i]);
      assert f[i] in f;
    }
  }

  /**
   * Without an expertise record for the original staff member the search
   * fails at once, with no candidates and no notice.
   */
  lemma NoRequiredExpertiseFailsQuietly(meeting: Meeting, meetingWeekday: int, originalStaffId: int,
                                        modality: Option<Modality>, users: seq<User>,
                                        staffExpertise: seq<StaffExpertise>, availability: seq<Availability>)
    requires forall e :: e in staffExpertise ==> e.userId != originalStaffId
    ensures AlternativeAnswer(meeting, meetingWeekday, originalStaffId, modality, users, staffExpertise, availability)
         == AlternativeStaffResult(false, None, Some(NoExpertiseMessage))
    ensures Escalations(meeting, meetingWeekday, originalStaffId, modality, users, staffExpertise, availability) == []
  {
  }

  /**
   * Once the required expertise is known, the search succeeds exactly when a
   * candidate remains, and sends exactly one high-priority notice about the
   * meeting exactly when none does.
   */
  lemma EscalatesExactlyWhenNoneQualify(meeting: Meeting, meetingWeekday: int, originalStaffId: int,
                                        modality: Option<Modality>, users: seq<User>,
                                        staffExpertise: seq<StaffExpertise>, availability: seq<Availability>)
    requires exists e :: e in staffExpertise && e.userId == originalStaffId
    ensures var required := RequiredExpertise(staffExpertise, originalStaffId).value;
      var candidates := AvailableStaff(meeting, meetingWeekday, required, modality, users, staffExpertise, availability,
                                       originalStaffId);
      var answer := AlternativeAnswer(meeting, meetingWeekday, originalStaffId, modality, users, staffExpertise,
                                      availability);
      var sent := Escalations(meeting, meetingWeekday, originalStaffId, modality, users, staffExpertise, availability);
      && (answer.success <==> candidates != [])
      && (answer.success ==> answer.alternativeStaff == Some(candidates) && sent == [])
      && (!answer.success ==>
            && answer.message == Some(NoStaffMessage) && |sent| == 1
            && sent[0].meetingId == meeting.id && sent[0].priority == High
            && sent[0].originalStaffId == originalStaffId)
  {
  }

  /**
   * For zero-padded "HH:MM" times the string comparison of the availability
   * test is the comparison of minutes since midnight.
   */
  lemma EnclosesInMinutes(meeting: Meeting, meetingWeekday: int, slot: Availability)
    requires IsCanonical(slot.startTime) && IsCanonical(slot.endTime)
    requires IsCanonical(meeting.startTime) && IsCanonical(meeting.endTime)
    ensures Encloses(meeting, meetingWeekday)(slot) <==>
      && slot.dayOfWeek == meetingWeekday
      && TimeToMinutes(slot.startTime) <= TimeToMinutes(meeting.startTime)
      && TimeToMinutes(meeting.endTime) <= TimeToMinutes(slot.endTime)
  {
    StrLeIsMinuteOrder(slot.startTime, meeting.startTime);
    StrLeIsMinuteOrder(meeting.endTime, slot.endTime);
  }

  /**
   * The string test is not the minute test for one-digit hours, which the
   * forms' time pattern admits: a 9:00 to 17:00 window encloses a 10:00 to
   * 11:00 meeting in minutes but not as strings.
   */
  lemma ShortHourWindowMissesMeeting()
    ensures var slot := Availability(1, 5, 1, "9:00", "17:00", true, "");
      var meeting := Meeting(1, 2, 5, Combo, None, 0, "10:00", "11:00", "", false, "", Scheduled);
      && IsTimeString(slot.startTime) && IsTimeString(slot.endTime)
      && TimeToMinutes(slot.startTime) <= TimeToMinutes(meeting.startTime)
      && TimeToMinutes(meeting.endTime) <= TimeToMinutes(slot.endTime)
      && !Encloses(meeting, 1)(slot)
  {
    StrLeDisagreesOnShortHour();
  }

  // ---------------------------------------------------------------------------
  // As written: the escalation names a table that is not in scope

  /** How the source's function ends: with a reply, or by throwing. */
  datatype Outcome = Returned(result: AlternativeStaffResult) | ThrewReferenceError(name: string)

  /**
   * `findAlternativeStaff` exactly as written: the module imports `users`,
   * `staffExpertise`, `availability` and `meetings` but not `notifications`,
   * so the escalation branch throws before inserting or replying.
   */
  function FindAlternativeStaffAsWritten(meeting: Meeting, meetingWeekday: int, originalStaffId: int,
                                         modality: Option<Modality>, users: seq<User>,
                                         staffExpertise: seq<StaffExpertise>,
                                         availability: seq<Availability>): (r: Outcome)
    ensures r.ThrewReferenceError? ==> r.name == "notifications"
  {
    match RequiredExpertise(staffExpertise, originalStaffId)
    case None => Returned(AlternativeStaffResult(false, None, Some(NoExpertiseMessage)))
    case Some(required) =>
      var availableStaff :=
        AvailableStaff(meeting, meetingWeekday, required, modality, users, staffExpertise, availability, originalStaffId);
      if availableStaff == [] then ThrewReferenceError("notifications")
      else Returned(AlternativeStaffResult(true, Some(availableStaff), None))
  }

  /**
   * As written, the function throws exactly where the corrected one escalates,
   * and otherwise replies as the corrected one does: the "scheduling team has
   * been notified" reply is never given.
   */
  lemma AsWrittenThrowsInsteadOfEscalating(meeting: Meeting, meetingWeekday: int, originalStaffId: int,
                                           modality: Option<Modality>, users: seq<User>,
                                           staffExpertise: seq<StaffExpertise>, availability: seq<Availability>)
    ensures var asWritten := FindAlternativeStaffAsWritten(meeting, meetingWeekday, originalStaffId, modality, users,
                                                           staffExpertise, availability);
      && (asWritten.ThrewReferenceError? <==>
            Escalations(meeting, meetingWeekday, originalStaffId, modality, users, staffExpertise, availability) != [])
      && (asWritten.Returned? ==> asWritten.result == AlternativeAnswer(meeting, meetingWeekday, originalStaffId,
                                                                      modality, users, staffExpertise, availability)
                                  && asWritten.result.message != Some(NoStaffMessage))
  {
  }

  /**
   * A concrete case: staff member 2 has an expertise record and there is no
   * other staff at all. As written the call throws; the corrected program
   * replies with the "notified" message and sends one notice.
   */
  lemma AsWrittenThrowsWithNoOtherStaff()
    ensures var meeting := Meeting(7, 1, 2, Combo, None, 0, "10:00", "11:00", "Room 1", false, "", Scheduled);
      var expertise := [StaffExpertise(1, 2, 3, 4)];
      && FindAlternativeStaffAsWritten(meeting, 1, 2, None, [], expertise, []) == ThrewReferenceError("notifications")
      && AlternativeAnswer(meeting, 1, 2, None, [], expertise, []) == AlternativeStaffResult(false, None, Some(NoStaffMessage))
      && Escalations(meeting, 1, 2, None, [], expertise, []) == [EscalationFor(7, 2)]
  {
    var expertise := [StaffExpertise(1, 2, 3, 4)];
    assert OfStaff(2)(expertise[0]);
  }
}
