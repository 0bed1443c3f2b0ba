/**
 * The in-memory store `MemStorage`: nine tables keyed by auto-increment ids,
 * the activity log that record changes write to, and the store's own versions
 * of staff matching and slot finding.
 *
 * Every table is a JavaScript `Map` from id to record. Ids come from a counter
 * per table that starts at 1 and only grows, and a `set` on an existing key
 * keeps that key's place, so the insertion order `Map.values()` follows is
 * ascending id order; `Values` lists a table that way. Creation times are the
 * `now` parameter of each operation that stamps one.
 */
module Storage {
  import opened Wrappers
  import opened Seqs
  import opened Pairing
  import opened PrioritySort
  import opened TimeOfDay
  import opened Domain
  import opened MeetingUtils

  // ---------------------------------------------------------------------------
  // Tables

  /** `Array.from(m.values())` for a table whose ids lie below `next`: the records in ascending id order. */
  function Values<V(!new)>(m: map<int, V>, next: int): (r: seq<V>)
    ensures forall x :: x in r <==> exists k :: 1 <= k < next && k in m && m[k] == x
    decreases next
  {
    if next <= 1 then []
    else Values(m, next - 1) + (if next - 1 in m then [m[next - 1]] else [])
  }

  /** Every key lies in [1, next) and is the id of the record it maps to; `next` is the table's counter. */
  ghost predicate Keyed<V>(m: map<int, V>, next: int, idOf: V -> int) {
    1 <= next && forall k :: k in m ==> 1 <= k < next && idOf(m[k]) == k
  }

  /** Storing a record under the counter, which is its id, and advancing the counter keeps the table keyed. */
  lemma KeyedInsert<V>(m: map<int, V>, next: int, idOf: V -> int, v: V)
    requires Keyed(m, next, idOf) && idOf(v) == next
    ensures next !in m && Keyed(m[next := v], next + 1, idOf)
  {
  }

  /** A table whose counter has not moved from 1 is empty. */
  lemma NothingBelowOne<V>(m: map<int, V>, idOf: V -> int)
    requires Keyed(m, 1, idOf)
    ensures m == map[]
  {
    assert forall k :: k !in m;
  }

  /** `x` is one of the table's records. */
  ghost predicate Stored<V>(m: map<int, V>, x: V) {
    exists k :: k in m && m[k] == x
  }

  /** In a keyed table `Values` lists every record, in strictly increasing id order. */
  lemma {:induction false} ValuesOfKeyed<V(!new)>(m: map<int, V>, next: int, idOf: V -> int)
    requires Keyed(m, next, idOf)
    ensures forall x :: x in Values(m, next) <==> Stored(m, x)
    ensures forall i, j :: 0 <= i < j < |Values(m, next)| ==> idOf(Values(m, next)[i]) < idOf(Values(m, next)[j])
  {
    if next > 1 {
      var smaller := map k | k in m && k < next - 1 :: m[k];
      ValuesBelow(m, smaller, next - 1);
      ValuesOfKeyed(smaller, next - 1, idOf);
      var init := Values(m, next - 1);
      var r := Values(m, next);
      forall i, j | 0 <= i < j < |r| ensures idOf(r[i]) < idOf(r[j]) {
        assert r[i] == init[i];
        if j < |init| {
          assert r[j] == init[j];
        } else {
          assert r[j] == m[next - 1];
          assert Stored(smaller, r[i]);
        }
      }
    }
  }

  /** Filtering a keyed table keeps exactly its matching records, still in strictly increasing id order. */
  lemma FilteredInIdOrder<V(!new)>(m: map<int, V>, next: int, idOf: V -> int, p: V -> bool)
    requires Keyed(m, next, idOf)
    ensures forall x :: x in Filter(Values(m, next), p) <==> Stored(m, x) && p(x)
    ensures forall i, j :: 0 <= i < j < |Filter(Values(m, next), p)| ==>
      idOf(Filter(Values(m, next), p)[i]) < idOf(Filter(Values(m, next), p)[j])
  {
    ValuesOfKeyed(m, next, idOf);
    FilterKeepsIncreasing(Values(m, next), p, idOf);
  }

  /** Entries at or above `next` play no part in `Values(m, next)`. */
  lemma {:induction false} ValuesBelow<V(!new)>(m: map<int, V>, smaller: map<int, V>, next: int)
    requires forall k :: k < next ==> (k in m <==> k in smaller) && (k in m ==> m[k] == smaller[k])
    ensures Values(m, next) == Values(smaller, next)
    decreases next
  {
    if next > 1 {
      ValuesBelow(m, smaller, next - 1);
    }
  }

  /** Inserting under the counter appends the record at the end of `Values`. */
  lemma AppendUnderCounter<V(!new)>(m: map<int, V>, next: int, v: V)
    requires 1 <= next && forall k :: k in m ==> k < next
    ensures Values(m[next := v], next + 1) == Values(m, next) + [v]
  {
    ValuesBelow(m[next := v], m, next);
  }

  /** In a list of strictly increasing ids, the first match has the lowest id among the matches. */
  lemma FirstInIdOrder(all: seq<User>, p: User -> bool)
    requires forall i, j :: 0 <= i < j < |all| ==> all[i].id < all[j].id
    ensures Find(all, p).Some? ==> forall u :: u in all && p(u) ==> Find(all, p).value.id <= u.id
  {
    if Find(all, p).Some? {
      var i :| IsFirstIndex(all, p, i) && all[i] == Find(all, p).value;
      forall u | u in all && p(u) ensures all[i].id <= u.id {
        var j :| 0 <= j < |all| && all[j] == u;
      }
    }
  }

  /** `m.get(k)`. */
  function Lookup<V>(m: map<int, V>, k: int): (r: Option<V>)
    ensures r.Some? <==> k in m
    ensures r.Some? ==> r.value == m[k]
  {
    if k in m then Some(m[k]) else None
  }

  // ---------------------------------------------------------------------------
  // What callers pass in: records without id (and without the stamps the store adds)

  datatype NewUser = NewUser(username: string, firstName: string, lastName: string, email: string, role: Role, isRemote: bool)

  datatype NewSubject = NewSubject(name: string, code: string)

  datatype NewExpertise = NewExpertise(userId: int, subjectId: int, proficiencyLevel: int)

  datatype NewNeed = NewNeed(userId: int, subjectId: int, priorityLevel: int)

  datatype NewWindow = NewWindow(userId: int, dayOfWeek: int, startTime: string, endTime: string, isRecurring: bool,
                                 location: string)

  datatype NewMeeting = NewMeeting(studentId: int, staffId: int, meetingType: MeetingType, subjectId: Option<int>,
                                   date: Day, startTime: string, endTime: string, location: string, isVirtual: bool,
                                   notes: string, status: MeetingStatus)

  datatype NewConflict = NewConflict(relatedUserId: Option<int>, relatedMeetingId: Option<int>, description: string,
                                     priority: ConflictPriority, status: ConflictStatus, assignedToId: Option<int>,
                                     reportedById: Option<int>)

  /** An activity-log entry to record: who, what, and the id it is about. */
  datatype NewActivity = NewActivity(userId: int, activityType: ActivityType, entityId: int)

  datatype NewNotification = NewNotification(userId: int, message: string)

  // ---------------------------------------------------------------------------
  // Partial updates: `{ ...record, ...patch }`, where a field the patch leaves out keeps its value

  datatype UserPatch = UserPatch(username: Option<string>, firstName: Option<string>, lastName: Option<string>,
                                 email: Option<string>, role: Option<Role>, isRemote: Option<bool>)

  datatype MeetingPatch = MeetingPatch(studentId: Option<int>, staffId: Option<int>, meetingType: Option<MeetingType>,
                                       subjectId: Option<Option<int>>, date: Option<Day>, startTime: Option<string>,
                                       endTime: Option<string>, location: Option<string>, isVirtual: Option<bool>,
                                       notes: Option<string>, status: Option<MeetingStatus>)

  datatype ConflictPatch = ConflictPatch(relatedUserId: Option<Option<int>>, relatedMeetingId: Option<Option<int>>,
                                         description: Option<string>, priority: Option<ConflictPriority>,
                                         status: Option<ConflictStatus>, assignedToId: Option<Option<int>>,
                                         reportedById: Option<Option<int>>)

  function MergeUser(u: User, p: UserPatch): User {
    u.(username := p.username.GetOr(u.username), firstName := p.firstName.GetOr(u.firstName),
       lastName := p.lastName.GetOr(u.lastName), email := p.email.GetOr(u.email), role := p.role.GetOr(u.role),
       isRemote := p.isRemote.GetOr(u.isRemote))
  }

  function MergeMeeting(m: Meeting, p: MeetingPatch): Meeting {
    m.(studentId := p.studentId.GetOr(m.studentId), staffId := p.staffId.GetOr(m.staffId),
       meetingType := p.meetingType.GetOr(m.meetingType), subjectId := p.subjectId.GetOr(m.subjectId),
       date := p.date.GetOr(m.date), startTime := p.startTime.GetOr(m.startTime), endTime := p.endTime.GetOr(m.endTime),
       location := p.location.GetOr(m.location), isVirtual := p.isVirtual.GetOr(m.isVirtual),
       notes := p.notes.GetOr(m.notes), status := p.status.GetOr(m.status))
  }

  function MergeConflict(c: Conflict, p: ConflictPatch): Conflict {
    c.(relatedUserId := p.relatedUserId.GetOr(c.relatedUserId),
       relatedMeetingId := p.relatedMeetingId.GetOr(c.relatedMeetingId),
       description := p.description.GetOr(c.description), priority := p.priority.GetOr(c.priority),
       status := p.status.GetOr(c.status), assignedToId := p.assignedToId.GetOr(c.assignedToId),
       reportedById := p.reportedById.GetOr(c.reportedById))
  }

  const NoUserChange := UserPatch(None, None, None, None, None, None)
  const NoMeetingChange := MeetingPatch(None, None, None, None, None, None, None, None, None, None, None)
  const NoConflictChange := ConflictPatch(None, None, None, None, None, None, None)

  /**
   * A merge keeps the record's id and what the patch leaves out, applying the
   * same patch twice is applying it once, and the empty patch changes nothing.
   */
  lemma MergeUserLaws(u: User, p: UserPatch)
    ensures MergeUser(u, p).id == u.id && MergeUser(u, p).createdAt == u.createdAt
    ensures MergeUser(MergeUser(u, p), p) == MergeUser(u, p)
    ensures MergeUser(u, NoUserChange) == u
    ensures p.role.Some? ==> MergeUser(u, p).role == p.role.value
    ensures p.role.None? ==> MergeUser(u, p).role == u.role
  {
  }

  lemma MergeMeetingLaws(m: Meeting, p: MeetingPatch)
    ensures MergeMeeting(m, p).id == m.id
    ensures MergeMeeting(MergeMeeting(m, p), p) == MergeMeeting(m, p)
    ensures MergeMeeting(m, NoMeetingChange) == m
    ensures p.status.Some? ==> MergeMeeting(m, p).status == p.status.value
    ensures p.status.None? ==> MergeMeeting(m, p).status == m.status
  {
  }

  /**
   * The same laws for conflicts; a patch cannot reach `createdAt` or
   * `resolvedAt`, so an update that sets the status to resolved leaves the
   * conflict without a resolution time.
   */
  lemma MergeConflictLaws(c: Conflict, p: ConflictPatch)
    ensures MergeConflict(c, p).id == c.id
    ensures MergeConflict(c, p).createdAt == c.createdAt && MergeConflict(c, p).resolvedAt == c.resolvedAt
    ensures MergeConflict(MergeConflict(c, p), p) == MergeConflict(c, p)
    ensures MergeConflict(c, NoConflictChange) == c
    ensures p.status.Some? ==> MergeConflict(c, p).status == p.status.value
  {
  }

  /** `resolveConflict`'s new record: status resolved and the resolution time set, nothing else touched. */
  function Resolve(c: Conflict, now: Timestamp): (r: Conflict)
    ensures r.status == Resolved && r.resolvedAt == Some(now)
    ensures r.(status := c.status, resolvedAt := c.resolvedAt) == c
  {
    c.(status := Resolved, resolvedAt := Some(now))
  }

  /** Resolving again is not refused: the later call's time replaces the first. */
  lemma ResolveAgainOverwrites(c: Conflict, first: Timestamp, second: Timestamp)
    ensures Resolve(Resolve(c, first), second) == Resolve(c, second)
    ensures first != second ==> Resolve(Resolve(c, first), second).resolvedAt != Resolve(c, first).resolvedAt
  {
  }

  /** `createActivity`'s `reportedById || 1`: no reporter, or reporter 0, logs against user 1. */
  function ReporterOrAdmin(reportedById: Option<int>): int {
    if reportedById.Some? && reportedById.value != 0 then reportedById.value else AdminId
  }

  /** The id of the first user, the administrator created with the store, to whom system activity is attributed. */
  const AdminId := 1

  /** The id each table is keyed by. */
  function UserKey(u: User): int { u.id }
  function SubjectKey(s: Subject): int { s.id }
  function ExpertiseKey(e: StaffExpertise): int { e.id }
  function NeedKey(n: StudentSubject): int { n.id }
  function WindowKey(a: Availability): int { a.id }
  function MeetingKey(m: Meeting): int { m.id }
  function ConflictKey(c: Conflict): int { c.id }
  function ActivityKey(a: Activity): int { a.id }
  function NotificationKey(n: Notification): int { n.id }

  // ---------------------------------------------------------------------------
  // Queries over a table, as the store's getters and its matching use them

  /** `getUsersByRole`: the users holding `role`, in id order. */
  function UsersWithRole(users: map<int, User>, next: int, role: Role): seq<User> {
    Filter(Values(users, next), (u: User) => u.role == role)
  }

  /** `getStaffExpertiseByUser`. */
  function ExpertiseByUser(staffExpertise: map<int, StaffExpertise>, next: int, userId: int): seq<StaffExpertise> {
    Filter(Values(staffExpertise, next), (e: StaffExpertise) => e.userId == userId)
  }

  /** `getStudentSubjectsByUser`. */
  function NeedsByUser(studentSubjects: map<int, StudentSubject>, next: int, userId: int): seq<StudentSubject> {
    Filter(Values(studentSubjects, next), (n: StudentSubject) => n.userId == userId)
  }

  /** `getAvailabilitiesByUser`. */
  function WindowsByUser(availability: map<int, Availability>, next: int, userId: int): seq<Availability> {
    OfUser(Values(availability, next), userId)
  }

  function ActivityTime(a: Activity): int { a.createdAt }

  function NotificationTime(n: Notification): int { n.createdAt }

  /** `getRecentActivities`' default limit. */
  const DefaultRecentLimit := 10

  /**
   * Where `slice(0, end)` stops on a list of length `len`: a negative end
   * counts back from the length, and the result never passes either end.
   */
  function SliceEnd(len: nat, end: int): (r: nat)
    ensures r <= len
    ensures end >= 0 ==> r == if end < len then end else len
    ensures end < 0 ==> r == if len + end > 0 then len + end else 0
  {
    if end >= 0 then (if end < len then end else len)
    else if len + end > 0 then len + end else 0
  }

  /** The sample data the store starts with: one administrator and five subjects. */
  const SampleAdmin := NewUser("admin", "Sarah", "Thompson", "admin@bridges.adelphi.edu", Admin, false)

  const SampleSubjects := [
    NewSubject("Mathematics", "MATH"),
    NewSubject("English", "ENGL"),
    NewSubject("Computer Science", "CS"),
    NewSubject("Biology", "BIO"),
    NewSubject("Psychology", "PSYCH")
  ]

  /** The subjects table after the first `n` sample subjects are created, with ids 1..n. */
  function SampleSubjectTable(n: nat): map<int, Subject>
    requires n <= |SampleSubjects|
  {
    if n == 0 then map[]
    else SampleSubjectTable(n - 1)[n := Subject(n, SampleSubjects[n - 1].name, SampleSubjects[n - 1].code)]
  }

  /** The sample subjects get ids 1..5 in list order: 1 is Mathematics, 5 is Psychology. */
  lemma SampleSubjectIds()
    ensures forall k :: k in SampleSubjectTable(5) <==> 1 <= k <= 5
    ensures SampleSubjectTable(5)[1] == Subject(1, "Mathematics", "MATH")
    ensures SampleSubjectTable(5)[5] == Subject(5, "Psychology", "PSYCH")
  {
  }

  // ---------------------------------------------------------------------------
  // The store's staff matching

  /** The need names the requested subject: any need when no (non-zero) subject is given. */
  predicate Requested(n: StudentSubject, subjectId: Option<int>) {
    !(subjectId.Some? && subjectId.value != 0) || n.subjectId == subjectId.value
  }

  function ForSubject(subjectId: Option<int>): StudentSubject -> bool {
    (n: StudentSubject) => Requested(n, subjectId)
  }

  /** The student's needs `findMatchingStaffForStudent` matches on, narrowed to the subject when one is given. */
  function RequestedNeeds(studentSubjects: map<int, StudentSubject>, next: int, studentId: int,
                          subjectId: Option<int>): seq<StudentSubject>
  {
    var needs := NeedsByUser(studentSubjects, next, studentId);
    if subjectId.Some? && subjectId.value != 0 then Filter(needs, ForSubject(subjectId)) else needs
  }

  /** Both staff roles, student staff first: `allStaff.push(...professionalStaff)`. */
  function StaffRoster(users: map<int, User>, next: int): seq<User> {
    UsersWithRole(users, next, StudentStaff) + UsersWithRole(users, next, ProfessionalStaff)
  }

  function InSubjects(subjectIds: seq<int>): StaffExpertise -> bool {
    (e: StaffExpertise) => e.subjectId in subjectIds
  }

  /** The staff loop's test: some expertise record of the user is in one of `subjectIds`. */
  function ExpertIn(staffExpertise: map<int, StaffExpertise>, next: int, subjectIds: seq<int>): User -> bool {
    (u: User) => Any(ExpertiseByUser(staffExpertise, next, u.id), InSubjects(subjectIds))
  }

  predicate IsStaffRole(role: Role) {
    role == StudentStaff || role == ProfessionalStaff
  }

  /**
   * The staff loop of `findMatchingStaffForStudent`: each staff member, in
   * roster order, whose expertise records name one of `subjectIds`, unless
   * already taken.
   */
  method StaffWithExpertise(allStaff: seq<User>, staffExpertise: map<int, StaffExpertise>, next: int,
                            subjectIds: seq<int>) returns (matchingStaff: seq<User>)
    ensures matchingStaff == FilterNew(allStaff, ExpertIn(staffExpertise, next, subjectIds))
  {
    matchingStaff := [];
    for i := 0 to |allStaff|
      invariant matchingStaff == FilterNew(allStaff[..i], ExpertIn(staffExpertise, next, subjectIds))
    {
      var staff := allStaff[i];
      var staffExpertises := ExpertiseByUser(staffExpertise, next, staff.id);
      var hasMatchingExpertise := Any(staffExpertises, InSubjects(subjectIds));
      assert allStaff[..i + 1][..i] == allStaff[..i];
      if hasMatchingExpertise && staff !in matchingStaff {
        matchingStaff := matchingStaff + [staff];
      }
    }
    assert allStaff[..|allStaff|] == allStaff;
  }

  /** What `findMatchingStaffForStudent` returns, as a function of the three tables it reads. */
  function MatchingStaff(users: map<int, User>, userNext: int, staffExpertise: map<int, StaffExpertise>,
                         expertiseNext: int, studentSubjects: map<int, StudentSubject>, needNext: int,
                         studentId: int, subjectId: Option<int>): seq<User>
  {
    if studentId !in users then []
    else
      var needs := RequestedNeeds(studentSubjects, needNext, studentId, subjectId);
      if needs == [] then []
      else FilterNew(StaffRoster(users, userNext), ExpertIn(staffExpertise, expertiseNext, SubjectIdsOf(needs)))
  }

  lemma RequestedNeedsCharacterized(studentSubjects: map<int, StudentSubject>, next: int, studentId: int,
                                    subjectId: Option<int>)
    requires Keyed(studentSubjects, next, NeedKey)
    ensures forall n :: n in RequestedNeeds(studentSubjects, next, studentId, subjectId) <==>
      Stored(studentSubjects, n) && n.userId == studentId && Requested(n, subjectId)
  {
    ValuesOfKeyed(studentSubjects, next, NeedKey);
  }

  lemma StaffRosterCharacterized(users: map<int, User>, next: int)
    requires Keyed(users, next, UserKey)
    ensures forall u :: u in StaffRoster(users, next) <==> Stored(users, u) && IsStaffRole(u.role)
  {
    ValuesOfKeyed(users, next, UserKey);
  }

  lemma ExpertInCharacterized(staffExpertise: map<int, StaffExpertise>, next: int, subjectIds: seq<int>, u: User)
    requires Keyed(staffExpertise, next, ExpertiseKey)
    ensures ExpertIn(staffExpertise, next, subjectIds)(u) <==>
      exists e :: Stored(staffExpertise, e) && e.userId == u.id && e.subjectId in subjectIds
  {
    ValuesOfKeyed(staffExpertise, next, ExpertiseKey);
    var mine := ExpertiseByUser(staffExpertise, next, u.id);
    if exists e :: Stored(staffExpertise, e) && e.userId == u.id && e.subjectId in subjectIds {
      var e :| Stored(staffExpertise, e) && e.userId == u.id && e.subjectId in subjectIds;
      assert e in mine;
      var i :| 0 <= i < |mine| && mine[i] == e;
      assert InSubjects(subjectIds)(mine[i]);
    }
    if ExpertIn(staffExpertise, next, subjectIds)(u) {
      var i :| 0 <= i < |mine| && InSubjects(subjectIds)(mine[i]);
      assert mine[i] in mine;
    }
  }

  /**
   * The matched staff: each at most once, and exactly the stored staff
   * members holding expertise in a subject the stored student needs (the
   * given subject, when there is one).
   */
  lemma MatchingStaffCharacterized(users: map<int, User>, userNext: int, staffExpertise: map<int, StaffExpertise>,
                                   expertiseNext: int, studentSubjects: map<int, StudentSubject>, needNext: int,
                                   studentId: int, subjectId: Option<int>)
    requires Keyed(users, userNext, UserKey) && Keyed(staffExpertise, expertiseNext, ExpertiseKey)
    requires Keyed(studentSubjects, needNext, NeedKey)
    ensures Distinct(MatchingStaff(users, userNext, staffExpertise, expertiseNext, studentSubjects, needNext,
                                   studentId, subjectId))
    ensures forall u :: u in MatchingStaff(users, userNext, staffExpertise, expertiseNext, studentSubjects,
                                           needNext, studentId, subjectId) <==>
      && studentId in users && Stored(users, u) && IsStaffRole(u.role)
      && exists e, n :: Stored(staffExpertise, e) && Stored(studentSubjects, n) && e.userId == u.id
           && n.userId == studentId && Requested(n, subjectId) && e.subjectId == n.subjectId
  {
    var needs := RequestedNeeds(studentSubjects, needNext, studentId, subjectId);
    RequestedNeedsCharacterized(studentSubjects, needNext, studentId, subjectId);
    StaffRosterCharacterized(users, userNext);
    var ids := SubjectIdsOf(needs);
    forall u ensures ExpertIn(staffExpertise, expertiseNext, ids)(u) <==>
      exists e, n :: Stored(staffExpertise, e) && Stored(studentSubjects, n) && e.userId == u.id
        && n.userId == studentId && Requested(n, subjectId) && e.subjectId == n.subjectId
    {
      ExpertInCharacterized(staffExpertise, expertiseNext, ids, u);
    }
  }

  /**
   * Fail-closed on the server: a stored student without any need is matched
   * with no one, where the client's `findMatchingStaff` falls back to the
   * whole roster it is given.
   */
  lemma MatchingFailsClosed(users: map<int, User>, userNext: int, staffExpertise: map<int, StaffExpertise>,
                            expertiseNext: int, studentSubjects: map<int, StudentSubject>, needNext: int,
                            studentId: int)
    requires Keyed(studentSubjects, needNext, NeedKey) && studentId in users
    requires forall n :: Stored(studentSubjects, n) ==> n.userId != studentId
    ensures MatchingStaff(users, userNext, staffExpertise, expertiseNext, studentSubjects, needNext,
                          studentId, None) == []
    ensures FindMatchingStaff(studentId, None, StaffRoster(users, userNext), Values(studentSubjects, needNext),
                              Values(staffExpertise, expertiseNext))
         == StaffRoster(users, userNext)
  {
    RequestedNeedsCharacterized(studentSubjects, needNext, studentId, None);
    ValuesOfKeyed(studentSubjects, needNext, NeedKey);
    NoNeedsYieldsWholeRoster(studentId, None, StaffRoster(users, userNext), Values(studentSubjects, needNext),
                             Values(staffExpertise, expertiseNext));
  }

  // ---------------------------------------------------------------------------
  // The store's slot finding: the client's algorithm without locations

  /** A common free interval as the store returns it: weekday and "HH:MM" times. */
  datatype Timeslot = Timeslot(day: int, start: string, end: string)

  function ToTimeslot(sp: Span): Timeslot {
    Timeslot(sp.day, MinutesToTime(sp.start), MinutesToTime(sp.end))
  }

  function Timeslots(ps: seq<Span>): (r: seq<Timeslot>)
    ensures |r| == |ps| && forall i :: 0 <= i < |ps| ==> r[i] == ToTimeslot(ps[i])
  {
    if ps == [] then [] else [ToTimeslot(ps[0])] + Timeslots(ps[1..])
  }

  lemma {:induction false} TimeslotsAppend(a: seq<Span>, b: seq<Span>)
    ensures Timeslots(a + b) == Timeslots(a) + Timeslots(b)
  {
    if a == [] {
      assert a + b == b;
    } else {
      assert (a + b)[1..] == a[1..] + b;
      TimeslotsAppend(a[1..], b);
    }
  }

  /** The store's slots are the client's slots for the same windows with the location dropped. */
  lemma TimeslotsAreSlotsWithoutLocation(ps: seq<Span>)
    ensures |Timeslots(ps)| == |Render(ps)|
    ensures forall i :: 0 <= i < |ps| ==>
      Timeslots(ps)[i] == Timeslot(Render(ps)[i].day, Render(ps)[i].start, Render(ps)[i].end)
  {
  }

  /** The store's early return when either person has no windows gives what the loops would give anyway. */
  lemma NoWindowsNoSpans(studentId: int, staffId: int, studentAvailability: seq<Availability>,
                         staffAvailability: seq<Availability>)
    requires OfUser(studentAvailability, studentId) == [] || OfUser(staffAvailability, staffId) == []
    ensures AvailableSpans(studentId, staffId, studentAvailability, staffAvailability) == []
  {
    ByKeyEmpty(OverlapSpan, DayOf, OfUser(studentAvailability, studentId), OfUser(staffAvailability, staffId), 7);
  }

  /** The outer loop of `findAvailableTimeslots`, over the weekdays 0..6. */
  method WeekTimeslots(studentAvailability: seq<Availability>, staffAvailability: seq<Availability>)
    returns (availableSlots: seq<Timeslot>)
    requires AllValid(studentAvailability) && AllValid(staffAvailability)
    ensures availableSlots == Timeslots(ByKey(OverlapSpan, DayOf, studentAvailability, staffAvailability, 7))
  {
    availableSlots := [];
    for day := 0 to 7
      invariant availableSlots == Timeslots(ByKey(OverlapSpan, DayOf, studentAvailability, staffAvailability, day))
    {
      var studentDaySlots := OnDay(studentAvailability, day);
      var staffDaySlots := OnDay(staffAvailability, day);
      OnDayKeepsValid(studentAvailability, day);
      OnDayKeepsValid(staffAvailability, day);
      availableSlots := PushDayTimeslots(availableSlots, day, studentDaySlots, staffDaySlots);
      WeekStep(studentAvailability, staffAvailability, day);
      TimeslotsAppend(ByKey(OverlapSpan, DayOf, studentAvailability, staffAvailability, day),
                      CrossWith(OverlapSpan, studentDaySlots, staffDaySlots));
    }
  }

  /** One more student window appends the timeslots of its pairs. */
  lemma TimeslotsCrossStep(ss: seq<Availability>, ts: seq<Availability>, i: nat)
    requires i < |ss|
    ensures Timeslots(CrossWith(OverlapSpan, ss[..i + 1], ts))
         == Timeslots(CrossWith(OverlapSpan, ss[..i], ts)) + Timeslots(PairWith(OverlapSpan, ss[i], ts))
  {
    assert ss[..i + 1][..i] == ss[..i];
    TimeslotsAppend(CrossWith(OverlapSpan, ss[..i], ts), PairWith(OverlapSpan, ss[i], ts));
  }

  /** One more staff window appends its overlap's timeslot, if it has one. */
  lemma TimeslotsPairStep(s: Availability, ts: seq<Availability>, j: nat)
    requires j < |ts|
    ensures Timeslots(PairWith(OverlapSpan, s, ts[..j + 1]))
         == Timeslots(PairWith(OverlapSpan, s, ts[..j]))
          + (if OverlapSpan(s, ts[j]).Some? then [ToTimeslot(OverlapSpan(s, ts[j]).value)] else [])
  {
    var o := OverlapSpan(s, ts[j]);
    assert ts[..j + 1][..j] == ts[..j];
    TimeslotsAppend(PairWith(OverlapSpan, s, ts[..j]), if o.Some? then [o.value] else []);
  }

  /** The middle loop of `findAvailableTimeslots`: the day's student windows against the day's staff windows. */
  method PushDayTimeslots(availableSlots: seq<Timeslot>, day: int, studentDaySlots: seq<Availability>,
                          staffDaySlots: seq<Availability>) returns (pushed: seq<Timeslot>)
    requires AllValid(studentDaySlots) && AllValid(staffDaySlots)
    requires forall i :: 0 <= i < |studentDaySlots| ==> studentDaySlots[i].dayOfWeek == day
    ensures pushed == availableSlots + Timeslots(CrossWith(OverlapSpan, studentDaySlots, staffDaySlots))
  {
    pushed := availableSlots;
    for i := 0 to |studentDaySlots|
      invariant pushed == availableSlots + Timeslots(CrossWith(OverlapSpan, studentDaySlots[..i], staffDaySlots))
    {
      var studentSlot := studentDaySlots[i];
      assert studentSlot in studentDaySlots;
      TimeslotsCrossStep(studentDaySlots, staffDaySlots, i);
      AppendAssoc(availableSlots, Timeslots(CrossWith(OverlapSpan, studentDaySlots[..i], staffDaySlots)),
                  Timeslots(PairWith(OverlapSpan, studentSlot, staffDaySlots)));
      pushed := PushPairTimeslots(pushed, day, studentSlot, staffDaySlots);
    }
    assert studentDaySlots[..|studentDaySlots|] == studentDaySlots;
  }

  /** The innermost loop of `findAvailableTimeslots`: one student window against the day's staff windows. */
  method PushPairTimeslots(availableSlots: seq<Timeslot>, day: int, studentSlot: Availability,
                           staffDaySlots: seq<Availability>) returns (pushed: seq<Timeslot>)
    requires WindowHasValidTimes(studentSlot) && studentSlot.dayOfWeek == day && AllValid(staffDaySlots)
    ensures pushed == availableSlots + Timeslots(PairWith(OverlapSpan, studentSlot, staffDaySlots))
  {
    pushed := availableSlots;
    for j := 0 to |staffDaySlots|
      invariant pushed == availableSlots + Timeslots(PairWith(OverlapSpan, studentSlot, staffDaySlots[..j]))
    {
      var staffSlot := staffDaySlots[j];
      assert staffSlot in staffDaySlots;
      TimeslotsPairStep(studentSlot, staffDaySlots, j);
      AppendAssoc(availableSlots, Timeslots(PairWith(OverlapSpan, studentSlot, staffDaySlots[..j])),
                  if OverlapSpan(studentSlot, staffSlot).Some? then [ToTimeslot(OverlapSpan(studentSlot, staffSlot).value)] else []);
      pushed := PushOverlapTimeslot(pushed, day, studentSlot, staffSlot);
    }
    assert staffDaySlots[..|staffDaySlots|] == staffDaySlots;
  }

  /** The body of the innermost loop: push the pair's overlap when it lasts at least 30 minutes. */
  method PushOverlapTimeslot(availableSlots: seq<Timeslot>, day: int, studentSlot: Availability, staffSlot: Availability)
    returns (pushed: seq<Timeslot>)
    requires WindowHasValidTimes(studentSlot) && WindowHasValidTimes(staffSlot) && studentSlot.dayOfWeek == day
    ensures var contributed := OverlapSpan(studentSlot, staffSlot);
      pushed == availableSlots + if contributed.Some? then [ToTimeslot(contributed.value)] else []
  {
    var studentStart := TimeToMinutes(studentSlot.startTime);
    var studentEnd := TimeToMinutes(studentSlot.endTime);
    var staffStart := TimeToMinutes(staffSlot.startTime);
    var staffEnd := TimeToMinutes(staffSlot.endTime);
    var overlapStart := Max(studentStart, staffStart);
    var overlapEnd := Min(studentEnd, staffEnd);
    if overlapEnd - overlapStart >= MinSlotMinutes {
      pushed := availableSlots + [Timeslot(day, MinutesToTime(overlapStart), MinutesToTime(overlapEnd))];
    } else {
      pushed := availableSlots;
    }
  }

  class MemStorage {
    var users: map<int, User>
    var subjects: map<int, Subject>
    var staffExpertise: map<int, StaffExpertise>
    var studentSubjects: map<int, StudentSubject>
    var availability: map<int, Availability>
    var meetings: map<int, Meeting>
    var conflicts: map<int, Conflict>
    var activities: map<int, Activity>
    var notifications: map<int, Notification>

    var currentUserId: int
    var currentSubjectId: int
    var currentStaffExpertiseId: int
    var currentStudentSubjectId: int
    var currentAvailabilityId: int
    var currentMeetingId: int
    var currentConflictId: int
    var currentActivityId: int
    var currentNotificationId: int

    /**
     * Each table is keyed by the ids of its records, all below the table's
     * counter. One predicate per table, reading only that table and its
     * counter, so an operation's frame shows which of them it can disturb.
     */
    ghost predicate UsersKeyed() reads this`users, this`currentUserId { Keyed(users, currentUserId, UserKey) }
    ghost predicate SubjectsKeyed() reads this`subjects, this`currentSubjectId { Keyed(subjects, currentSubjectId, SubjectKey) }
    ghost predicate ExpertiseKeyed() reads this`staffExpertise, this`currentStaffExpertiseId { Keyed(staffExpertise, currentStaffExpertiseId, ExpertiseKey) }
    ghost predicate NeedsKeyed() reads this`studentSubjects, this`currentStudentSubjectId { Keyed(studentSubjects, currentStudentSubjectId, NeedKey) }
    ghost predicate WindowsKeyed() reads this`availability, this`currentAvailabilityId { Keyed(availability, currentAvailabilityId, WindowKey) }
    ghost predicate MeetingsKeyed() reads this`meetings, this`currentMeetingId { Keyed(meetings, currentMeetingId, MeetingKey) }
    ghost predicate ConflictsKeyed() reads this`conflicts, this`currentConflictId { Keyed(conflicts, currentConflictId, ConflictKey) }
    ghost predicate ActivitiesKeyed() reads this`activities, this`currentActivityId { Keyed(activities, currentActivityId, ActivityKey) }
    ghost predicate NotificationsKeyed() reads this`notifications, this`currentNotificationId { Keyed(notifications, currentNotificationId, NotificationKey) }

    /** The store's invariant: every table keyed. */
    ghost predicate Valid()
      reads this
    {
      && UsersKeyed() && SubjectsKeyed() && ExpertiseKeyed() && NeedsKeyed() && WindowsKeyed()
      && MeetingsKeyed() && ConflictsKeyed() && ActivitiesKeyed() && NotificationsKeyed()
    }

    /**
     * The state right after construction at time `now`: the administrator
     * (id 1, logged as added by activity 1) and the five subjects with ids
     * 1..5; every other counter still at 1, so (by `SampleDataOnly`) every
     * other table still empty.
     */
    ghost predicate HoldsSampleData(now: Timestamp)
      reads this
    {
      && users == map[1 := User(1, SampleAdmin.username, SampleAdmin.firstName, SampleAdmin.lastName,
                                SampleAdmin.email, Admin, false, now)]
      && subjects == SampleSubjectTable(5)
      && activities == map[1 := Activity(1, 1, UserAdded, 1, now)]
      && currentUserId == 2 && currentSubjectId == 6 && currentActivityId == 2
      && currentStaffExpertiseId == 1 && currentStudentSubjectId == 1 && currentAvailabilityId == 1
      && currentMeetingId == 1 && currentConflictId == 1 && currentNotificationId == 1
    }

    /** A new store holds the sample data and nothing else: the tables whose counter is still 1 are empty. */
    lemma SampleDataOnly(now: Timestamp)
      requires Valid() && HoldsSampleData(now)
      ensures staffExpertise == map[] && studentSubjects == map[] && availability == map[] && meetings == map[]
      ensures conflicts == map[] && notifications == map[]
    {
      NothingBelowOne(staffExpertise, ExpertiseKey);
      NothingBelowOne(studentSubjects, NeedKey);
      NothingBelowOne(availability, WindowKey);
      NothingBelowOne(meetings, MeetingKey);
      NothingBelowOne(conflicts, ConflictKey);
      NothingBelowOne(notifications, NotificationKey);
    }

    /** A new store: every counter at 1, then the sample data. */
    constructor(now: Timestamp)
      ensures Valid() && HoldsSampleData(now)
    {
      users := map[];
      subjects := map[];
      staffExpertise := map[];
      studentSubjects := map[];
      availability := map[];
      meetings := map[];
      conflicts := map[];
      activities := map[];
      notifications := map[];
      currentUserId := 1;
      currentSubjectId := 1;
      currentStaffExpertiseId := 1;
      currentStudentSubjectId := 1;
      currentAvailabilityId := 1;
      currentMeetingId := 1;
      currentConflictId := 1;
      currentActivityId := 1;
      currentNotificationId := 1;
      new;
      InitSampleData(now);
    }

    /**
     * `initSampleData`: creates the administrator, which logs activity 1, then
     * each sample subject in turn; the other tables are outside its frame.
     */
    method InitSampleData(now: Timestamp)
      modifies this`users, this`currentUserId, this`subjects, this`currentSubjectId, this`activities,
               this`currentActivityId
      requires Valid()
      requires users == map[] && subjects == map[] && activities == map[]
      requires currentUserId == 1 && currentSubjectId == 1 && currentActivityId == 1
      ensures Valid()
      ensures users == map[1 := User(1, SampleAdmin.username, SampleAdmin.firstName, SampleAdmin.lastName,
                                     SampleAdmin.email, Admin, false, now)] && currentUserId == 2
      ensures activities == map[1 := Activity(1, 1, UserAdded, 1, now)] && currentActivityId == 2
      ensures subjects == SampleSubjectTable(|SampleSubjects|) && currentSubjectId == |SampleSubjects| + 1
    {
      var _ := CreateUser(SampleAdmin, now);
      CreateSampleSubjects();
    }

    /** The loop of `initSampleData` over the sample subjects, which get ids 1..5 in list order. */
    method CreateSampleSubjects()
      modifies this`subjects, this`currentSubjectId
      requires Valid() && subjects == map[] && currentSubjectId == 1
      ensures Valid()
      ensures subjects == SampleSubjectTable(|SampleSubjects|) && currentSubjectId == |SampleSubjects| + 1
    {
      for i := 0 to |SampleSubjects|
        invariant Valid()
        invariant subjects == SampleSubjectTable(i) && currentSubjectId == i + 1
      {
        var _ := CreateSubject(SampleSubjects[i]);
      }
    }

    // -------------------------------------------------------------------------
    // Users

    /** `getUser`. */
    function GetUser(id: int): (r: Option<User>)
      reads this
      requires Valid()
      ensures r.Some? <==> id in users
      ensures r.Some? ==> r.value == users[id] && r.value.id == id
    {
      Lookup(users, id)
    }

    /** `getUserByUsername`: the user of lowest id with that username. */
    function GetUserByUsername(username: string): (r: Option<User>)
      reads this
      requires Valid()
      ensures r.None? <==> forall id :: id in users ==> users[id].username != username
      ensures r.Some? ==> r.value.username == username && r.value.id in users && users[r.value.id] == r.value
      ensures r.Some? ==> forall id :: id in users && id < r.value.id ==> users[id].username != username
    {
      var all := Values(users, currentUserId);
      ValuesOfKeyed(users, currentUserId, UserKey);
      FirstInIdOrder(all, (u: User) => u.username == username);
      assert forall id :: id in users ==> Stored(users, users[id]);
      Find(all, (u: User) => u.username == username)
    }

    /** `getUsersByRole`: exactly the stored users holding `role`. */
    function GetUsersByRole(role: Role): (r: seq<User>)
      reads this
      requires Valid()
      ensures forall u :: u in r <==> Stored(users, u) && u.role == role
      ensures forall i, j :: 0 <= i < j < |r| ==> r[i].id < r[j].id
    {
      FilteredInIdOrder(users, currentUserId, UserKey, (u: User) => u.role == role);
      UsersWithRole(users, currentUserId, role)
    }

    /** `createUser`: the record under the next user id, stamped `now`, and one `user_added` activity about it. */
    method CreateUser(data: NewUser, now: Timestamp) returns (user: User)
      modifies this`users, this`currentUserId, this`activities, this`currentActivityId
      requires Valid()
      ensures Valid()
      ensures user == User(old(currentUserId), data.username, data.firstName, data.lastName, data.email, data.role,
                           data.isRemote, now)
      ensures old(currentUserId) !in old(users)
      ensures users == old(users)[user.id := user] && currentUserId == old(currentUserId) + 1
      ensures activities == old(activities)[old(currentActivityId) :=
                Activity(old(currentActivityId), user.id, UserAdded, user.id, now)]
      ensures currentActivityId == old(currentActivityId) + 1
    {
      var id := currentUserId;
      currentUserId := currentUserId + 1;
      user := User(id, data.username, data.firstName, data.lastName, data.email, data.role, data.isRemote, now);
      users := users[id := user];
      var _ := CreateActivity(NewActivity(id, UserAdded, id), now);
    }

    /** `updateUser`: an unknown id changes nothing; otherwise the patch is merged over the stored user. */
    method UpdateUser(id: int, patch: UserPatch) returns (r: Option<User>)
      modifies this`users
      requires Valid()
      ensures Valid()
      ensures id !in old(users) ==> r.None? && users == old(users)
      ensures id in old(users) ==> r == Some(MergeUser(old(users)[id], patch)) && users == old(users)[id := r.value]
    {
      if id !in users {
        return None;
      }
      var updatedUser := MergeUser(users[id], patch);
      users := users[id := updatedUser];
      return Some(updatedUser);
    }

    /** `deleteUser`: whether the id was present; the user is gone afterwards. Nothing else is touched. */
    method DeleteUser(id: int) returns (deleted: bool)
      modifies this`users
      requires Valid()
      ensures Valid()
      ensures deleted <==> id in old(users)
      ensures users == old(users) - {id}
    {
      deleted := id in users;
      users := users - {id};
    }

    // -------------------------------------------------------------------------
    // Subjects

    /** `getSubject`. */
    function GetSubject(id: int): (r: Option<Subject>)
      reads this
      requires Valid()
      ensures r.Some? <==> id in subjects
      ensures r.Some? ==> r.value == subjects[id] && r.value.id == id
    {
      Lookup(subjects, id)
    }

    /** `getSubjects`: every stored subject, in increasing id order. */
    function GetSubjects(): (r: seq<Subject>)
      reads this
      requires Valid()
      ensures forall s :: s in r <==> Stored(subjects, s)
      ensures forall i, j :: 0 <= i < j < |r| ==> r[i].id < r[j].id
    {
      ValuesOfKeyed(subjects, currentSubjectId, SubjectKey);
      Values(subjects, currentSubjectId)
    }

    /** `createSubject`: the record under the next subject id. */
    method CreateSubject(data: NewSubject) returns (subject: Subject)
      modifies this`subjects, this`currentSubjectId
      requires Valid()
      ensures Valid()
      ensures subject == Subject(old(currentSubjectId), data.name, data.code)
      ensures subjects == old(subjects)[subject.id := subject] && currentSubjectId == old(currentSubjectId) + 1
    {
      subject := Subject(currentSubjectId, data.name, data.code);
      subjects := subjects[currentSubjectId := subject];
      currentSubjectId := currentSubjectId + 1;
    }

    // -------------------------------------------------------------------------
    // Staff expertise and student needs

    /** `getStaffExpertise`. */
    function GetStaffExpertise(id: int): (r: Option<StaffExpertise>)
      reads this
      requires Valid()
      ensures r.Some? <==> id in staffExpertise
      ensures r.Some? ==> r.value == staffExpertise[id] && r.value.id == id
    {
      Lookup(staffExpertise, id)
    }

    /** `getStaffExpertiseByUser`: exactly the stored expertise records of the user. */
    function GetStaffExpertiseByUser(userId: int): (r: seq<StaffExpertise>)
      reads this
      requires Valid()
      ensures forall e :: e in r <==> Stored(staffExpertise, e) && e.userId == userId
      ensures forall i, j :: 0 <= i < j < |r| ==> r[i].id < r[j].id
    {
      FilteredInIdOrder(staffExpertise, currentStaffExpertiseId, ExpertiseKey, (e: StaffExpertise) => e.userId == userId);
      ExpertiseByUser(staffExpertise, currentStaffExpertiseId, userId)
    }

    /** `createStaffExpertise`: the record under the next expertise id. */
    method CreateStaffExpertise(data: NewExpertise) returns (expertise: StaffExpertise)
      modifies this`staffExpertise, this`currentStaffExpertiseId
      requires Valid()
      ensures Valid()
      ensures expertise == StaffExpertise(old(currentStaffExpertiseId), data.userId, data.subjectId, data.proficiencyLevel)
      ensures staffExpertise == old(staffExpertise)[expertise.id := expertise]
      ensures currentStaffExpertiseId == old(currentStaffExpertiseId) + 1
    {
      expertise := StaffExpertise(currentStaffExpertiseId, data.userId, data.subjectId, data.proficiencyLevel);
      staffExpertise := staffExpertise[currentStaffExpertiseId := expertise];
      currentStaffExpertiseId := currentStaffExpertiseId + 1;
    }

    /** `getStudentSubject`. */
    function GetStudentSubject(id: int): (r: Option<StudentSubject>)
      reads this
      requires Valid()
      ensures r.Some? <==> id in studentSubjects
      ensures r.Some? ==> r.value == studentSubjects[id] && r.value.id == id
    {
      Lookup(studentSubjects, id)
    }

    /** `getStudentSubjectsByUser`: exactly the stored needs of the user. */
    function GetStudentSubjectsByUser(userId: int): (r: seq<StudentSubject>)
      reads this
      requires Valid()
      ensures forall n :: n in r <==> Stored(studentSubjects, n) && n.userId == userId
      ensures forall i, j :: 0 <= i < j < |r| ==> r[i].id < r[j].id
    {
      FilteredInIdOrder(studentSubjects, currentStudentSubjectId, NeedKey, (n: StudentSubject) => n.userId == userId);
      NeedsByUser(studentSubjects, currentStudentSubjectId, userId)
    }

    /** `createStudentSubject`: the record under the next need id. */
    method CreateStudentSubject(data: NewNeed) returns (need: StudentSubject)
      modifies this`studentSubjects, this`currentStudentSubjectId
      requires Valid()
      ensures Valid()
      ensures need == StudentSubject(old(currentStudentSubjectId), data.userId, data.subjectId, data.priorityLevel)
      ensures studentSubjects == old(studentSubjects)[need.id := need]
      ensures currentStudentSubjectId == old(currentStudentSubjectId) + 1
    {
      need := StudentSubject(currentStudentSubjectId, data.userId, data.subjectId, data.priorityLevel);
      studentSubjects := studentSubjects[currentStudentSubjectId := need];
      currentStudentSubjectId := currentStudentSubjectId + 1;
    }

    // -------------------------------------------------------------------------
    // Availability windows

    /** `getAvailability`. */
    function GetAvailability(id: int): (r: Option<Availability>)
      reads this
      requires Valid()
      ensures r.Some? <==> id in availability
      ensures r.Some? ==> r.value == availability[id] && r.value.id == id
    {
      Lookup(availability, id)
    }

    /** `getAvailabilitiesByUser`: exactly the stored windows of the user. */
    function GetAvailabilitiesByUser(userId: int): (r: seq<Availability>)
      reads this
      requires Valid()
      ensures forall a :: a in r <==> Stored(availability, a) && a.userId == userId
      ensures forall i, j :: 0 <= i < j < |r| ==> r[i].id < r[j].id
    {
      FilteredInIdOrder(availability, currentAvailabilityId, WindowKey, (a: Availability) => a.userId == userId);
      WindowsByUser(availability, currentAvailabilityId, userId)
    }

    /** `createAvailability`: the record under the next window id. */
    method CreateAvailability(data: NewWindow) returns (window: Availability)
      modifies this`availability, this`currentAvailabilityId
      requires Valid()
      ensures Valid()
      ensures window == Availability(old(currentAvailabilityId), data.userId, data.dayOfWeek, data.startTime,
                                     data.endTime, data.isRecurring, data.location)
      ensures availability == old(availability)[window.id := window]
      ensures currentAvailabilityId == old(currentAvailabilityId) + 1
    {
      window := Availability(currentAvailabilityId, data.userId, data.dayOfWeek, data.startTime, data.endTime,
                             data.isRecurring, data.location);
      availability := availability[currentAvailabilityId := window];
      currentAvailabilityId := currentAvailabilityId + 1;
    }

    /** `deleteAvailability`: whether the id was present; the window is gone afterwards. */
    method DeleteAvailability(id: int) returns (deleted: bool)
      modifies this`availability
      requires Valid()
      ensures Valid()
      ensures deleted <==> id in old(availability)
      ensures availability == old(availability) - {id}
    {
      deleted := id in availability;
      availability := availability - {id};
    }

    // -------------------------------------------------------------------------
    // Meetings

    /** `getMeeting`. */
    function GetMeeting(id: int): (r: Option<Meeting>)
      reads this
      requires Valid()
      ensures r.Some? <==> id in meetings
      ensures r.Some? ==> r.value == meetings[id] && r.value.id == id
    {
      Lookup(meetings, id)
    }

    /** `getMeetingsByStudent`: exactly the stored meetings of the student. */
    function GetMeetingsByStudent(studentId: int): (r: seq<Meeting>)
      reads this
      requires Valid()
      ensures forall m :: m in r <==> Stored(meetings, m) && m.studentId == studentId
      ensures forall i, j :: 0 <= i < j < |r| ==> r[i].id < r[j].id
    {
      var p := (m: Meeting) => m.studentId == studentId;
      FilteredInIdOrder(meetings, currentMeetingId, MeetingKey, p);
      Filter(Values(meetings, currentMeetingId), p)
    }

    /** `getMeetingsByStaff`: exactly the stored meetings of the staff member. */
    function GetMeetingsByStaff(staffId: int): (r: seq<Meeting>)
      reads this
      requires Valid()
      ensures forall m :: m in r <==> Stored(meetings, m) && m.staffId == staffId
      ensures forall i, j :: 0 <= i < j < |r| ==> r[i].id < r[j].id
    {
      var p := (m: Meeting) => m.staffId == staffId;
      FilteredInIdOrder(meetings, currentMeetingId, MeetingKey, p);
      Filter(Values(meetings, currentMeetingId), p)
    }

    /** `getMeetingsByDate`: exactly the stored meetings on that calendar day. */
    function GetMeetingsByDate(date: Day): (r: seq<Meeting>)
      reads this
      requires Valid()
      ensures forall m :: m in r <==> Stored(meetings, m) && m.date == date
      ensures forall i, j :: 0 <= i < j < |r| ==> r[i].id < r[j].id
    {
      var p := (m: Meeting) => m.date == date;
      FilteredInIdOrder(meetings, currentMeetingId, MeetingKey, p);
      Filter(Values(meetings, currentMeetingId), p)
    }

    /**
     * `createMeeting`: the record under the next meeting id; a
     * `meeting_scheduled` activity, attributed to the administrator, only when
     * both the student and the staff member are stored users.
     */
    method CreateMeeting(data: NewMeeting, now: Timestamp) returns (meeting: Meeting)
      modifies this`meetings, this`currentMeetingId, this`activities, this`currentActivityId
      requires Valid()
      ensures Valid()
      ensures meeting == Meeting(old(currentMeetingId), data.studentId, data.staffId, data.meetingType, data.subjectId,
                                 data.date, data.startTime, data.endTime, data.location, data.isVirtual, data.notes,
                                 data.status)
      ensures meetings == old(meetings)[meeting.id := meeting] && currentMeetingId == old(currentMeetingId) + 1
      ensures data.studentId in users && data.staffId in users ==>
        && activities == old(activities)[old(currentActivityId) :=
             Activity(old(currentActivityId), AdminId, MeetingScheduled, meeting.id, now)]
        && currentActivityId == old(currentActivityId) + 1
      ensures !(data.studentId in users && data.staffId in users) ==>
        activities == old(activities) && currentActivityId == old(currentActivityId)
    {
      var id := currentMeetingId;
      currentMeetingId := currentMeetingId + 1;
      meeting := Meeting(id, data.studentId, data.staffId, data.meetingType, data.subjectId, data.date, data.startTime,
                         data.endTime, data.location, data.isVirtual, data.notes, data.status);
      meetings := meetings[id := meeting];
      var student := GetUser(meeting.studentId);
      var staff := GetUser(meeting.staffId);
      if student.Some? && staff.Some? {
        var entry := CreateActivity(NewActivity(AdminId, MeetingScheduled, id), now);
        assert entry == Activity(old(currentActivityId), AdminId, MeetingScheduled, meeting.id, now);
      }
    }

    /**
     * `updateMeeting`: an unknown id changes nothing; otherwise the patch is
     * merged over the stored meeting and one `meeting_updated` activity is logged.
     */
    method UpdateMeeting(id: int, patch: MeetingPatch, now: Timestamp) returns (r: Option<Meeting>)
      modifies this`meetings, this`activities, this`currentActivityId
      requires Valid()
      ensures Valid()
      ensures id !in old(meetings) ==>
        r.None? && meetings == old(meetings) && activities == old(activities) && currentActivityId == old(currentActivityId)
      ensures id in old(meetings) ==>
        && r == Some(MergeMeeting(old(meetings)[id], patch))
        && meetings == old(meetings)[id := r.value]
        && activities == old(activities)[old(currentActivityId) :=
             Activity(old(currentActivityId), AdminId, MeetingUpdated, id, now)]
        && currentActivityId == old(currentActivityId) + 1
    {
      if id !in meetings {
        return None;
      }
      var updatedMeeting := MergeMeeting(meetings[id], patch);
      meetings := meetings[id := updatedMeeting];
      var _ := CreateActivity(NewActivity(AdminId, MeetingUpdated, id), now);
      return Some(updatedMeeting);
    }

    /**
     * `deleteMeeting`: an unknown id returns false and logs nothing; otherwise
     * the meeting is removed and one `meeting_deleted` activity is logged.
     */
    method DeleteMeeting(id: int, now: Timestamp) returns (deleted: bool)
      modifies this`meetings, this`activities, this`currentActivityId
      requires Valid()
      ensures Valid()
      ensures deleted <==> id in old(meetings)
      ensures meetings == old(meetings) - {id}
      ensures !deleted ==> activities == old(activities) && currentActivityId == old(currentActivityId)
      ensures deleted ==>
        && activities == old(activities)[old(currentActivityId) :=
             Activity(old(currentActivityId), AdminId, MeetingDeleted, id, now)]
        && currentActivityId == old(currentActivityId) + 1
    {
      if id !in meetings {
        return false;
      }
      meetings := meetings - {id};
      deleted := true;
      var _ := CreateActivity(NewActivity(AdminId, MeetingDeleted, id), now);
    }

    // -------------------------------------------------------------------------
    // Conflicts

    /** `getConflict`. */
    function GetConflict(id: int): (r: Option<Conflict>)
      reads this
      requires Valid()
      ensures r.Some? <==> id in conflicts
      ensures r.Some? ==> r.value == conflicts[id] && r.value.id == id
    {
      Lookup(conflicts, id)
    }

    /**
     * `getConflicts`: the status filter is a string tested for truthiness, so
     * an absent or empty one keeps every conflict; any other keeps those
     * stored under exactly that string, and one naming no status keeps none.
     */
    function GetConflicts(status: Option<string>): (r: seq<Conflict>)
      reads this
      requires Valid()
      ensures forall c :: c in r <==> Stored(conflicts, c) && (status.Some? && status.value != "" ==> StatusName(c.status) == status.value)
      ensures forall i, j :: 0 <= i < j < |r| ==> r[i].id < r[j].id
      ensures (status.None? || status == Some("")) ==> r == Values(conflicts, currentConflictId)
      ensures status.Some? && status.value !in {"", "open", "resolved"} ==> r == []
    {
      ValuesOfKeyed(conflicts, currentConflictId, ConflictKey);
      var all := Values(conflicts, currentConflictId);
      if status.Some? && status.value != "" then
        var wanted := status.value;
        var p := (c: Conflict) => StatusName(c.status) == wanted;
        FilteredInIdOrder(conflicts, currentConflictId, ConflictKey, p);
        var r := Filter(all, p);
        assert r != [] ==> r[0] in r;
        r
      else all
    }

    /**
     * `createConflict`: the record under the next conflict id, created `now`
     * and not resolved, and one `conflict_reported` activity attributed to the
     * reporter, or to the administrator when there is none.
     */
    method CreateConflict(data: NewConflict, now: Timestamp) returns (conflict: Conflict)
      modifies this`conflicts, this`currentConflictId, this`activities, this`currentActivityId
      requires Valid()
      ensures Valid()
      ensures conflict == Conflict(old(currentConflictId), data.relatedUserId, data.relatedMeetingId, data.description,
                                   data.priority, data.status, data.assignedToId, data.reportedById, now, None)
      ensures conflicts == old(conflicts)[conflict.id := conflict] && currentConflictId == old(currentConflictId) + 1
      ensures activities == old(activities)[old(currentActivityId) :=
                Activity(old(currentActivityId), ReporterOrAdmin(data.reportedById), ConflictReported, conflict.id, now)]
      ensures currentActivityId == old(currentActivityId) + 1
    {
      var id := currentConflictId;
      currentConflictId := currentConflictId + 1;
      conflict := Conflict(id, data.relatedUserId, data.relatedMeetingId, data.description, data.priority, data.status,
                           data.assignedToId, data.reportedById, now, None);
      conflicts := conflicts[id := conflict];
      var _ := CreateActivity(NewActivity(ReporterOrAdmin(data.reportedById), ConflictReported, id), now);
    }

    /** `updateConflict`: an unknown id changes nothing; otherwise the patch is merged, with no activity. */
    method UpdateConflict(id: int, patch: ConflictPatch) returns (r: Option<Conflict>)
      modifies this`conflicts
      requires Valid()
      ensures Valid()
      ensures id !in old(conflicts) ==> r.None? && conflicts == old(conflicts)
      ensures id in old(conflicts) ==>
        r == Some(MergeConflict(old(conflicts)[id], patch)) && conflicts == old(conflicts)[id := r.value]
    {
      if id !in conflicts {
        return None;
      }
      var updatedConflict := MergeConflict(conflicts[id], patch);
      conflicts := conflicts[id := updatedConflict];
      return Some(updatedConflict);
    }

    /**
     * `resolveConflict`: an unknown id changes nothing; otherwise the conflict
     * is marked resolved at `now` whatever its status was, every other
     * conflict is untouched, and one `conflict_resolved` activity names the
     * resolver, who is recorded nowhere else.
     */
    method ResolveConflict(id: int, resolvedById: int, now: Timestamp) returns (r: Option<Conflict>)
      modifies this`conflicts, this`activities, this`currentActivityId
      requires Valid()
      ensures Valid()
      ensures id !in old(conflicts) ==>
        && r.None? && conflicts == old(conflicts)
        && activities == old(activities) && currentActivityId == old(currentActivityId)
      ensures id in old(conflicts) ==>
        && r == Some(Resolve(old(conflicts)[id], now))
        && conflicts == old(conflicts)[id := r.value]
        && activities == old(activities)[old(currentActivityId) :=
             Activity(old(currentActivityId), resolvedById, ConflictResolved, id, now)]
        && currentActivityId == old(currentActivityId) + 1
    {
      if id !in conflicts {
        return None;
      }
      var resolvedConflict := Resolve(conflicts[id], now);
      conflicts := conflicts[id := resolvedConflict];
      var _ := CreateActivity(NewActivity(resolvedById, ConflictResolved, id), now);
      return Some(resolvedConflict);
    }

    // -------------------------------------------------------------------------
    // Activities

    /** `getActivity`. */
    function GetActivity(id: int): (r: Option<Activity>)
      reads this
      requires Valid()
      ensures r.Some? <==> id in activities
      ensures r.Some? ==> r.value == activities[id] && r.value.id == id
    {
      Lookup(activities, id)
    }

    /**
     * `getRecentActivities(limit = 10)`: the log sorted newest first (equal
     * times in id order), cut by `slice(0, limit)`.
     */
    function GetRecentActivities(limit: Option<int>): (r: seq<Activity>)
      reads this
      requires Valid()
      ensures |r| == SliceEnd(|Values(activities, currentActivityId)|, limit.GetOr(DefaultRecentLimit))
      ensures r == SortDesc(Values(activities, currentActivityId), ActivityTime)[..|r|]
      ensures Descending(r, ActivityTime)
    {
      var sorted := SortDesc(Values(activities, currentActivityId), ActivityTime);
      SortDescIsDescending(Values(activities, currentActivityId), ActivityTime);
      var r := sorted[..SliceEnd(|sorted|, limit.GetOr(DefaultRecentLimit))];
      assert forall i :: 0 <= i < |r| ==> r[i] == sorted[i];
      r
    }

    /**
     * `createActivity`: the entry under the next activity id, stamped `now`.
     * Every other operation that logs does so through this one.
     */
    method CreateActivity(data: NewActivity, now: Timestamp) returns (activity: Activity)
      modifies this`activities, this`currentActivityId
      requires Valid()
      ensures Valid()
      ensures activity == Activity(old(currentActivityId), data.userId, data.activityType, data.entityId, now)
      ensures activities == old(activities)[activity.id := activity] && currentActivityId == old(currentActivityId) + 1
    {
      activity := Activity(currentActivityId, data.userId, data.activityType, data.entityId, now);
      KeyedInsert(activities, currentActivityId, ActivityKey, activity);
      activities := activities[currentActivityId := activity];
      currentActivityId := currentActivityId + 1;
    }

    // -------------------------------------------------------------------------
    // Notifications

    /** `getNotification`. */
    function GetNotification(id: int): (r: Option<Notification>)
      reads this
      requires Valid()
      ensures r.Some? <==> id in notifications
      ensures r.Some? ==> r.value == notifications[id] && r.value.id == id
    {
      Lookup(notifications, id)
    }

    /** `getNotificationsByUser`: the user's notifications, each once, newest first. */
    function GetNotificationsByUser(userId: int): (r: seq<Notification>)
      reads this
      requires Valid()
      ensures forall n :: n in r <==> Stored(notifications, n) && n.userId == userId
      ensures Descending(r, NotificationTime)
      ensures multiset(r) == multiset(Filter(Values(notifications, currentNotificationId), (n: Notification) => n.userId == userId))
    {
      ValuesOfKeyed(notifications, currentNotificationId, NotificationKey);
      var mine := Filter(Values(notifications, currentNotificationId), (n: Notification) => n.userId == userId);
      SortDescIsDescending(mine, NotificationTime);
      SortDesc(mine, NotificationTime)
    }

    /** `createNotification`: the record under the next notification id, unread and stamped `now`. */
    method CreateNotification(data: NewNotification, now: Timestamp) returns (notification: Notification)
      modifies this`notifications, this`currentNotificationId
      requires Valid()
      ensures Valid()
      ensures notification == Notification(old(currentNotificationId), data.userId, data.message, false, now)
      ensures notifications == old(notifications)[notification.id := notification]
      ensures currentNotificationId == old(currentNotificationId) + 1
    {
      notification := Notification(currentNotificationId, data.userId, data.message, false, now);
      notifications := notifications[currentNotificationId := notification];
      currentNotificationId := currentNotificationId + 1;
    }

    /** `markNotificationAsRead`: false for an unknown id; otherwise the notification is read and true is returned. */
    method MarkNotificationAsRead(id: int) returns (found: bool)
      modifies this`notifications
      requires Valid()
      ensures Valid()
      ensures found <==> id in old(notifications)
      ensures !found ==> notifications == old(notifications)
      ensures found ==> notifications == old(notifications)[id := old(notifications)[id].(read := true)]
    {
      if id !in notifications {
        return false;
      }
      notifications := notifications[id := notifications[id].(read := true)];
      return true;
    }
    // -------------------------------------------------------------------------
    // Matching

    /**
     * `findMatchingStaffForStudent`: an unknown student, or a student without
     * a need (for the given subject), gets no one; otherwise every staff
     * member, student staff first, holding expertise in a needed subject, once.
     */
    method FindMatchingStaffForStudent(studentId: int, subjectId: Option<int>) returns (matchingStaff: seq<User>)
      requires Valid()
      ensures matchingStaff == MatchingStaff(users, currentUserId, staffExpertise, currentStaffExpertiseId,
                                             studentSubjects, currentStudentSubjectId, studentId, subjectId)
    {
      var student := GetUser(studentId);
      if student.None? {
        return [];
      }
      var studentNeeds := GetStudentSubjectsByUser(studentId);
      if subjectId.Some? && subjectId.value != 0 {
        studentNeeds := Filter(studentNeeds, ForSubject(subjectId));
      }
      if |studentNeeds| == 0 {
        return [];
      }
      var allStaff := GetUsersByRole(StudentStaff);
      var professionalStaff := GetUsersByRole(ProfessionalStaff);
      allStaff := allStaff + professionalStaff;
      var subjectIds := SubjectIdsOf(studentNeeds);
      matchingStaff := StaffWithExpertise(allStaff, staffExpertise, currentStaffExpertiseId, subjectIds);
    }

    /** The stored windows of the two users carry times matching the forms' pattern. */
    ghost predicate WindowsValidFor(studentId: int, staffId: int)
      reads this
    {
      forall k :: k in availability && (availability[k].userId == studentId || availability[k].userId == staffId) ==>
        WindowHasValidTimes(availability[k])
    }

    /**
     * `findAvailableTimeslots`: the client's slot search over the stored
     * windows of the two users, returning weekday and times without a
     * location; when either has no window it returns at once.
     */
    method FindAvailableTimeslots(studentId: int, staffId: int) returns (availableSlots: seq<Timeslot>)
      requires Valid() && WindowsValidFor(studentId, staffId)
      ensures availableSlots == Timeslots(AvailableSpans(studentId, staffId, Values(availability, currentAvailabilityId),
                                                         Values(availability, currentAvailabilityId)))
    {
      var studentAvailability := GetAvailabilitiesByUser(studentId);
      var staffAvailability := GetAvailabilitiesByUser(staffId);
      if |studentAvailability| == 0 || |staffAvailability| == 0 {
        NoWindowsNoSpans(studentId, staffId, Values(availability, currentAvailabilityId),
                         Values(availability, currentAvailabilityId));
        return [];
      }
      ValuesOfKeyed(availability, currentAvailabilityId, WindowKey);
      assert AllValid(studentAvailability) && AllValid(staffAvailability);
      availableSlots := WeekTimeslots(studentAvailability, staffAvailability);
    }
  }
}
