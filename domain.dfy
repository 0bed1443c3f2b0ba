/**
 * The records the scheduler works on: people, subjects, expertise and need
 * edges, weekly availability windows, meetings, conflicts, activities and
 * notifications, with the enumerations of the shared schema.
 *
 * Calendar dates are abstract day numbers (`Day`) and creation times are
 * abstract instants (`Timestamp`) supplied by the caller; clock times of day
 * stay the "HH:MM" strings the program stores.
 */
module Domain {
  import opened Wrappers

  type Day = int
  type Timestamp = int

  datatype Role = Student | StudentStaff | ProfessionalStaff | Faculty | Admin

  datatype MeetingType =
    LearningStrategist | Combo | VocationalCoach | SocialCoach | AcademicCoach | CheckIn

  datatype MeetingStatus = Scheduled | Cancelled | Completed

  datatype ConflictPriority = High | Medium | Low

  datatype ConflictStatus = Open | Resolved

  /** The string a conflict's status is stored as: 'open' or 'resolved'. */
  function StatusName(s: ConflictStatus): string {
    match s
    case Open => "open"
    case Resolved => "resolved"
  }

  datatype ActivityType =
    UserAdded | MeetingScheduled | MeetingUpdated | MeetingDeleted | ConflictReported | ConflictResolved

  datatype User = User(
    id: int,
    username: string,
    firstName: string,
    lastName: string,
    email: string,
    role: Role,
    isRemote: bool,
    createdAt: Timestamp)

  datatype Subject = Subject(id: int, name: string, code: string)

  /** A staff member's expertise in a subject (the supply side). */
  datatype StaffExpertise = StaffExpertise(id: int, userId: int, subjectId: int, proficiencyLevel: int)

  /** A student's need for a subject (the demand side). */
  datatype StudentSubject = StudentSubject(id: int, userId: int, subjectId: int, priorityLevel: int)

  /** A weekly availability window; an empty `location` is the absent one. */
  datatype Availability = Availability(
    id: int,
    userId: int,
    dayOfWeek: int,
    startTime: string,
    endTime: string,
    isRecurring: bool,
    location: string)

  datatype Meeting = Meeting(
    id: int,
    studentId: int,
    staffId: int,
    meetingType: MeetingType,
    subjectId: Option<int>,
    date: Day,
    startTime: string,
    endTime: string,
    location: string,
    isVirtual: bool,
    notes: string,
    status: MeetingStatus)

  datatype Conflict = Conflict(
    id: int,
    relatedUserId: Option<int>,
    relatedMeetingId: Option<int>,
    description: string,
    priority: ConflictPriority,
    status: ConflictStatus,
    assignedToId: Option<int>,
    reportedById: Option<int>,
    createdAt: Timestamp,
    resolvedAt: Option<Timestamp>)

  /**
   * An activity-log entry as a typed event: who, what, and the id of the user,
   * meeting or conflict it is about (the text description is not modelled).
   */
  datatype Activity = Activity(id: int, userId: int, activityType: ActivityType, entityId: int, createdAt: Timestamp)

  datatype Notification = Notification(id: int, userId: int, message: string, read: bool, createdAt: Timestamp)
}
