/**
 * The two scheduling forms: the availability form (a weekly window) and the
 * matching form (a meeting between a student and a staff member). Each has a
 * schema that accepts or rejects the entered values; the matching form also
 * narrows the offered staff to the student's matches, forces a meeting
 * virtual when a participant is remote, and builds the meeting it posts.
 *
 * Calendar dates are abstract day numbers; which message the schema reports
 * for a rejected value is not modelled, only whether it rejects.
 */
module Forms {
  import opened Wrappers
  import opened Seqs
  import opened TimeOfDay
  import opened Domain
  import opened MeetingUtils
  import opened Formatting
  import opened Storage

  // ---------------------------------------------------------------------------
  // The availability form

  /** The values the availability form holds; `location` is optional. */
  datatype AvailabilityInput = AvailabilityInput(
    userId: int,
    dayOfWeek: int,
    startTime: string,
    endTime: string,
    isRecurring: bool,
    location: Option<string>)

  /**
   * `availabilitySchema`: a weekday 0..6, two times matching the time pattern,
   * and an end strictly after the start in minutes.
   */
  predicate AvailabilityAccepted(data: AvailabilityInput) {
    && 0 <= data.dayOfWeek <= 6
    && IsTimeString(data.startTime)
    && IsTimeString(data.endTime)
    && TimeToMinutes(data.endTime) > TimeToMinutes(data.startTime)
  }

  /** The form's starting values: Monday, 09:00 to 10:00, recurring, no location. */
  function DefaultAvailability(userId: int): AvailabilityInput {
    AvailabilityInput(userId, 1, "09:00", "10:00", true, Some(""))
  }

  /** The defaults pass the schema, and day 1 is Monday. */
  lemma DefaultAvailabilityAccepted(userId: int)
    ensures AvailabilityAccepted(DefaultAvailability(userId))
    ensures DaysOfWeek[DefaultAvailability(userId).dayOfWeek] == "Monday"
    ensures TimeToMinutes(DefaultAvailability(userId).endTime) - TimeToMinutes(DefaultAvailability(userId).startTime) == 60
  {
    assert TimeToMinutes("09:00") == 540 && TimeToMinutes("10:00") == 600;
  }

  /**
   * An accepted window names a weekday, has times the slot search can read,
   * and reads back from its minute offsets as zero-padded text.
   */
  lemma AcceptedWindowIsUsable(data: AvailabilityInput, id: int)
    requires AvailabilityAccepted(data)
    ensures 0 <= data.dayOfWeek < |DaysOfWeek|
    ensures WindowHasValidTimes(Availability(id, data.userId, data.dayOfWeek, data.startTime, data.endTime,
                                             data.isRecurring, data.location.GetOr("")))
    ensures var start := MinutesToTime(TimeToMinutes(data.startTime));
      var end := MinutesToTime(TimeToMinutes(data.endTime));
      StrLe(start, end) && !StrLe(end, start)
  {
    var start := MinutesToTime(TimeToMinutes(data.startTime));
    var end := MinutesToTime(TimeToMinutes(data.endTime));
    MinutesToTimeRoundTrip(TimeToMinutes(data.startTime));
    MinutesToTimeRoundTrip(TimeToMinutes(data.endTime));
    StrLeIsMinuteOrder(start, end);
    StrLeIsMinuteOrder(end, start);
  }

  /** A one-digit hour passes the schema and still names the same minute offset as its padded form. */
  lemma SchemaAcceptsShortHours()
    ensures AvailabilityAccepted(AvailabilityInput(1, 1, "9:00", "10:00", true, None))
    ensures TimeToMinutes("9:00") == TimeToMinutes("09:00")
  {
  }

  // ---------------------------------------------------------------------------
  // The matching form

  /** The values the matching form holds; `subjectId`, `location` and `notes` are optional. */
  datatype MeetingInput = MeetingInput(
    studentId: int,
    staffId: int,
    meetingType: MeetingType,
    subjectId: Option<int>,
    date: Day,
    startTime: string,
    endTime: string,
    location: Option<string>,
    isVirtual: bool,
    notes: Option<string>)

  /** `matchingSchema`: two times matching the time pattern with the end strictly after the start. */
  predicate MeetingAccepted(data: MeetingInput) {
    && IsTimeString(data.startTime)
    && IsTimeString(data.endTime)
    && TimeToMinutes(data.endTime) > TimeToMinutes(data.startTime)
  }

  /** The form's starting values on the given day. */
  function DefaultMeeting(today: Day): MeetingInput {
    MeetingInput(0, 0, LearningStrategist, None, today, "09:00", "10:00", Some(""), false, Some(""))
  }

  lemma DefaultMeetingAccepted(today: Day)
    ensures MeetingAccepted(DefaultMeeting(today))
    ensures DefaultMeeting(today).studentId == 0 && DefaultMeeting(today).staffId == 0
  {
    assert TimeToMinutes("09:00") == 540 && TimeToMinutes("10:00") == 600;
  }

  /** JavaScript's `text || fallback` on an optional string: the text unless it is absent or empty. */
  function OrElse(text: Option<string>, fallback: string): (r: string)
    ensures text.Some? && text.value != "" ==> r == text.value
    ensures (text.None? || text.value == "") ==> r == fallback
  {
    if text.Some? && text.value != "" then text.value else fallback
  }

  /**
   * The meeting `onSubmit` posts: the entered fields, the location (or
   * "Virtual" for a virtual meeting, "TBD" otherwise), the notes or "", and
   * the status "scheduled".
   */
  function MeetingPayload(data: MeetingInput): (r: NewMeeting)
    ensures r.studentId == data.studentId && r.staffId == data.staffId && r.meetingType == data.meetingType
    ensures r.subjectId == data.subjectId && r.date == data.date
    ensures r.startTime == data.startTime && r.endTime == data.endTime && r.isVirtual == data.isVirtual
    ensures r.location != ""
    ensures data.location.Some? && data.location.value != "" ==> r.location == data.location.value
    ensures (data.location.None? || data.location.value == "") ==> r.location == (if data.isVirtual then "Virtual" else "TBD")
    ensures r.notes == data.notes.GetOr("")
    ensures r.status == Scheduled
  {
    NewMeeting(data.studentId, data.staffId, data.meetingType, data.subjectId, data.date, data.startTime, data.endTime,
               OrElse(data.location, if data.isVirtual then "Virtual" else "TBD"), data.isVirtual,
               OrElse(data.notes, ""), Scheduled)
  }

  /**
   * An accepted form posts a meeting the conflict check can take: times
   * matching the pattern with a positive length, so against meetings that
   * were accepted too the check's test is the half-open overlap of the two
   * intervals.
   */
  lemma AcceptedPayloadIsProperInterval(data: MeetingInput, existing: seq<Meeting>)
    requires MeetingAccepted(data)
    requires forall m :: m in existing ==> HasValidTimes(m) && TimeToMinutes(m.startTime) < TimeToMinutes(m.endTime)
    ensures var p := MeetingPayload(data);
      var proposal := ProposedMeeting(p.studentId, p.staffId, p.date, p.startTime, p.endTime);
      && ProposalHasValidTimes(proposal)
      && (CheckMeetingConflict(proposal, existing) <==>
            exists m :: m in existing && SharesDayAndParticipant(proposal, m)
              && HalfOpenOverlap(TimeToMinutes(p.startTime), TimeToMinutes(p.endTime),
                                 TimeToMinutes(m.startTime), TimeToMinutes(m.endTime)))
  {
    var p := MeetingPayload(data);
    var proposal := ProposedMeeting(p.studentId, p.staffId, p.date, p.startTime, p.endTime);
    ConflictIsHalfOpenOverlap(proposal, existing);
  }

  /**
   * The staff the form offers: the whole list while no student is chosen or
   * the need and expertise lists have not arrived, or when matching finds no
   * one; otherwise the matches.
   */
  function OfferedStaff(studentId: int, subjectId: Option<int>, staff: seq<User>,
                        studentSubjects: Option<seq<StudentSubject>>,
                        staffExpertise: Option<seq<StaffExpertise>>): (r: seq<User>)
    ensures Sublist(r, staff)
    ensures staff != [] ==> r != []
    ensures studentId == 0 || studentSubjects.None? || staffExpertise.None? ==> r == staff
  {
    SublistOfSelf(staff);
    if studentId == 0 then staff
    else if studentSubjects.Some? && staffExpertise.Some? then
      var matching := FindMatchingStaff(studentId, subjectId, staff, studentSubjects.value, staffExpertise.value);
      if |matching| > 0 then matching else staff
    else staff
  }

  /**
   * With a chosen student and both lists loaded, the form offers exactly the
   * matching staff when there are any; an empty match falls back to the list.
   */
  lemma OfferedStaffIsMatchOrFallback(studentId: int, subjectId: Option<int>, staff: seq<User>,
                                      studentSubjects: seq<StudentSubject>, staffExpertise: seq<StaffExpertise>)
    requires studentId != 0
    ensures var matching := FindMatchingStaff(studentId, subjectId, staff, studentSubjects, staffExpertise);
      && (matching != [] ==> OfferedStaff(studentId, subjectId, staff, Some(studentSubjects), Some(staffExpertise)) == matching)
      && (matching == [] ==> OfferedStaff(studentId, subjectId, staff, Some(studentSubjects), Some(staffExpertise)) == staff)
  {
  }

  /**
   * The matching form's state that the effects read and write: the watched
   * form values and the component's offered staff and remote flags.
   */
  class MatchingForm {
    var studentId: int
    var staffId: int
    var subjectId: Option<int>
    var isVirtual: bool
    var location: string
    var filteredStaff: seq<User>
    var selectedStudentIsRemote: bool
    var selectedStaffIsRemote: bool

    /** A fresh form with the default values and nothing offered yet. */
    constructor()
      ensures studentId == 0 && staffId == 0 && subjectId == None && !isVirtual && location == ""
      ensures filteredStaff == [] && !selectedStudentIsRemote && !selectedStaffIsRemote
    {
      studentId := 0;
      staffId := 0;
      subjectId := None;
      isVirtual := false;
      location := "";
      filteredStaff := [];
      selectedStudentIsRemote := false;
      selectedStaffIsRemote := false;
    }

    /**
     * The effect on `isVirtual`: checking it writes "Virtual" as the
     * location; unchecking it clears the location only if it is "Virtual".
     */
    method VirtualChanged()
      modifies this`location
      ensures isVirtual ==> location == "Virtual"
      ensures !isVirtual && old(location) == "Virtual" ==> location == ""
      ensures !isVirtual && old(location) != "Virtual" ==> location == old(location)
    {
      if isVirtual {
        location := "Virtual";
      } else if location == "Virtual" {
        location := "";
      }
    }

    /**
     * The effect on the chosen student: record whether the student is
     * remote and offer the matching staff, with the fall-backs of
     * `OfferedStaff`. Without a student only the offered staff changes.
     */
    method StudentChanged(students: seq<User>, staff: seq<User>, studentSubjects: Option<seq<StudentSubject>>,
                          staffExpertise: Option<seq<StaffExpertise>>)
      modifies this`filteredStaff, this`selectedStudentIsRemote
      ensures filteredStaff == OfferedStaff(studentId, subjectId, staff, studentSubjects, staffExpertise)
      ensures studentId == 0 ==> selectedStudentIsRemote == old(selectedStudentIsRemote)
      ensures studentId != 0 ==>
        (selectedStudentIsRemote <==> exists i :: IsFirstIndex(students, HasId(studentId), i) && students[i].isRemote)
    {
      if studentId == 0 {
        filteredStaff := staff;
        return;
      }
      var selectedStudent := Find(students, HasId(studentId));
      selectedStudentIsRemote := selectedStudent.Some? && selectedStudent.value.isRemote;
      FirstIndexIsUnique(students, HasId(studentId));
      if studentSubjects.Some? && staffExpertise.Some? {
        var matching := FindMatchingStaff(studentId, subjectId, staff, studentSubjects.value, staffExpertise.value);
        filteredStaff := if |matching| > 0 then matching else staff;
      } else {
        filteredStaff := staff;
      }
    }

    /**
     * The effect on the chosen staff member: record whether they are remote,
     * and if so check `isVirtual`. Without a staff member nothing changes.
     */
    method StaffChanged(staff: seq<User>)
      modifies this`selectedStaffIsRemote, this`isVirtual
      ensures staffId == 0 ==> selectedStaffIsRemote == old(selectedStaffIsRemote) && isVirtual == old(isVirtual)
      ensures staffId != 0 ==>
        && (selectedStaffIsRemote <==> exists i :: IsFirstIndex(staff, HasId(staffId), i) && staff[i].isRemote)
        && isVirtual == (old(isVirtual) || selectedStaffIsRemote)
    {
      if staffId == 0 {
        return;
      }
      var selectedStaff := Find(staff, HasId(staffId));
      selectedStaffIsRemote := selectedStaff.Some? && selectedStaff.value.isRemote;
      FirstIndexIsUnique(staff, HasId(staffId));
      if selectedStaff.Some? && selectedStaff.value.isRemote {
        isVirtual := true;
      }
    }

    /** The effect on the two remote flags: either one checks `isVirtual`. */
    method RemoteChanged()
      modifies this`isVirtual
      ensures isVirtual == (old(isVirtual) || selectedStudentIsRemote || selectedStaffIsRemote)
    {
      if selectedStudentIsRemote || selectedStaffIsRemote {
        isVirtual := true;
      }
    }
  }

  function HasId(id: int): User -> bool {
    (u: User) => u.id == id
  }
}
