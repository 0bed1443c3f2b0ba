# Bridges scheduling core in Dafny

This project models the scheduling core of Bridges, an advising program's tool
for pairing students with support staff. The modelled parts are:

- the client's scheduling utilities. These are the double-booking test, staff
  matching by subject expertise, the crossing of two people's weekly
  availability into meeting slots, the meeting-type suggestion and the choice
  of meeting location (`MeetingUtils`).
- the server's in-memory store `MemStorage` (`Storage`). It keeps nine tables
  keyed by auto-increment ids and an activity log. It also covers the conflict
  lifecycle, meeting and notification operations, and the store's own versions
  of staff matching and slot finding.
- the server's search for a replacement staff member, with its escalation
  notice (`Matching`).
- the display helpers for weekday names, 12-hour times and "time ago" texts
  (`Formatting`).
- the availability and matching forms (`Forms`). These cover their schemas and
  defaults, the matching form's effects on its state, and the meeting it posts.

Clock times stay the "H:MM"/"HH:MM" strings the program stores (`TimeOfDay`).
Calendar dates are abstract day numbers. The weekday of a date and the current
time are parameters. Each `MemStorage` table is a `map` field, and every
operation that changes the store is a method whose `modifies` clause names the
tables and counters it touches. The store's invariant `Valid()` says every
table is keyed by record id below its counter.

JavaScript's `Map` lists values in insertion order, which here is ascending id
order; `Storage.Values` lists a table that way. JavaScript's stable `sort` is
the stable insertion sort `PrioritySort.SortDesc`. `Seqs` and `Pairing` hold the
list combinators the other modules share: `filter`, `find`, `some`, nested loops
over pairs, and grouping by weekday.

Where the system's documented design and the code disagree, the model follows
the code:

- Resolving an already-resolved conflict is not refused. It overwrites the
  resolution time (`Storage.ResolveAgainOverwrites`).
- The resolver is recorded only in the activity log, never on the conflict.
- `updateConflict` can set the status to resolved without a resolution time
  (`Storage.MergeConflictLaws`).
- The store's `findMatchingStaffForStudent` fails closed: a student with no needs
  gets no one. The client's `findMatchingStaff` fails open and returns the whole
  roster (`Storage.MatchingFailsClosed`).
- The alternative-staff search escalates with a notification only, not a
  conflict record.

## Model

| member | source | states |
|---|---|---|
| TimeOfDay.TimeToMinutes | client/src/lib/utils/meeting-utils.ts:201-204 | a time matching the forms' pattern denotes a minute of the day, below 1440 |
| TimeOfDay.TimeToMinutesParts | client/src/components/forms/availability-form.tsx:48-51 | the offset is hours*60 + minutes: it splits back into the hour and the minute read from the text |
| TimeOfDay.Decimal | client/src/lib/types.ts:266 | `toString()` of a number: at least one digit, no leading zero, one or two digits below 100 |
| TimeOfDay.TwoDigits | client/src/lib/utils/meeting-utils.ts:212 | `padStart(2, '0')` of a number below 100 is two digits whose value is that number |
| TimeOfDay.MinutesToTimeRoundTrip | client/src/lib/utils/meeting-utils.ts:209-213 | for m in 0..1439, `minutesToTime(m)` is zero-padded "HH:MM" and `timeToMinutes` of it is m |
| TimeOfDay.TimeRoundTrip | client/src/lib/utils/meeting-utils.ts:201-213 | `minutesToTime(timeToMinutes(s))` gives back s, or s with the hour's missing zero added |
| TimeOfDay.StrLeIsMinuteOrder | server/matching.ts:49-50 | on zero-padded "HH:MM" strings, JavaScript's string `<=` agrees with minute order, both ways |
| TimeOfDay.StrLeDisagreesOnShortHour | server/matching.ts:49-50 | with a one-digit hour, which the pattern allows, "9:00" is earlier in minutes but later as a string than "10:00" |
| MeetingUtils.AnyTimeClash | client/src/lib/utils/meeting-utils.ts:29-41 | `some` over the same-day meetings is true iff one of them clashes in time |
| MeetingUtils.CheckMeetingConflict | client/src/lib/utils/meeting-utils.ts:7-42 | a conflict iff an existing meeting on the same date sharing the student or the staff member clashes in time; only those meetings need parseable times |
| MeetingUtils.ClausesAreHalfOpenOverlap | client/src/lib/utils/meeting-utils.ts:36-40 | for intervals with start < end, the three-clause test is exactly half-open overlap |
| MeetingUtils.ConflictIsHalfOpenOverlap | client/src/lib/utils/meeting-utils.ts:17-41 | for well-ordered intervals, a conflict iff a same-day, same-participant meeting overlaps half-open |
| MeetingUtils.ConflictIgnoresStatus | client/src/lib/utils/meeting-utils.ts:20-26 | changing existing meetings' statuses never changes the verdict, so cancelled meetings still collide |
| MeetingUtils.TouchingMeetingsDoNotConflict | client/src/lib/utils/meeting-utils.ts:29-41 | [10:00,11:00) does not collide with [11:00,12:00); [10:30,11:30) does, even against a cancelled meeting |
| MeetingUtils.SubjectIdsOf | client/src/lib/utils/meeting-utils.ts:57-59 | the mapped ids are exactly the needs' subject ids |
| MeetingUtils.RelevantSubjectIds | client/src/lib/utils/meeting-utils.ts:55-59 | a given non-zero subject alone, else exactly the subjects of the student's needs |
| MeetingUtils.ExpertIds | client/src/lib/utils/meeting-utils.ts:66-68 | exactly the users holding an expertise record in a relevant subject |
| MeetingUtils.FindMatchingStaff | client/src/lib/utils/meeting-utils.ts:47-71 | no relevant subject: the roster unchanged; otherwise an order-preserving sub-list holding exactly the roster members with expertise in a relevant subject |
| MeetingUtils.NoNeedsYieldsWholeRoster | client/src/lib/utils/meeting-utils.ts:61-63 | fail-open: no subject given and no recorded need yields the whole roster |
| MeetingUtils.SubjectOverridesNeeds | client/src/lib/utils/meeting-utils.ts:55-56 | a given subject replaces the needs: the result does not depend on them and is the roster members expert in that subject |
| MeetingUtils.ToSlotInjective | client/src/lib/utils/meeting-utils.ts:111-116 | rendering a span's minutes as "HH:MM" text loses nothing within one day |
| MeetingUtils.OverlapSpan | client/src/lib/utils/meeting-utils.ts:97-117 | whatever one window pair contributes lies within one day and lasts at least 30 minutes |
| MeetingUtils.OverlapSpanIsIntersection | client/src/lib/utils/meeting-utils.ts:97-109 | a pair contributes iff its intersection lasts 30 minutes; the span is that intersection, inside both windows, on the student window's weekday, at the staff location if non-empty and otherwise the student's |
| MeetingUtils.OverlapSpanKeepsDay | client/src/lib/utils/meeting-utils.ts:111-112 | a span carries its student window's weekday |
| MeetingUtils.FindAvailableTimeSlots | client/src/lib/utils/meeting-utils.ts:76-123 | the loops' pushes are the rendering of `AvailableSpans` of the inputs; only the two users' windows need parseable times |
| MeetingUtils.PushDaySlots | client/src/lib/utils/meeting-utils.ts:94-119 | the middle loop appends the rendered overlaps of every student window of the day against every staff window of the day |
| MeetingUtils.PushPairSlots | client/src/lib/utils/meeting-utils.ts:95-118 | the inner loop appends the rendered overlaps of one student window against each staff window in order |
| MeetingUtils.PushOverlap | client/src/lib/utils/meeting-utils.ts:97-117 | the loop body pushes the pair's rendered overlap exactly when it has one |
| MeetingUtils.AvailableSpansCharacterized | client/src/lib/utils/meeting-utils.ts:85-117 | a span is offered iff it is the overlap of a student window and a staff window on the same weekday 0..6; spans come in weekday order |
| MeetingUtils.AvailableSpansAreLongEnough | client/src/lib/utils/meeting-utils.ts:103-107 | every offered span lies within a day and lasts at least 30 minutes |
| MeetingUtils.AvailableSlotsAreCanonical | client/src/lib/utils/meeting-utils.ts:111-116 | every returned slot carries zero-padded times that read back as its span's minutes |
| MeetingUtils.SuggestMeetingType | client/src/lib/utils/meeting-utils.ts:128-155 | the suggestion is learning strategist, academic coach or combo |
| MeetingUtils.SuggestMeetingTypeFollowsTopNeed | client/src/lib/utils/meeting-utils.ts:135-154 | no need: combo; otherwise the first need of highest priority decides: staff expertise in its subject at proficiency >= 4 gives learning strategist, lower gives academic coach, none gives combo |
| MeetingUtils.DetermineMeetingLocation | client/src/lib/utils/meeting-utils.ts:160-196 | virtual iff either side is remote, then at "Virtual"; the location is never empty |
| MeetingUtils.LocationPrefersStaff | client/src/lib/utils/meeting-utils.ts:176-195 | in person: the staff member's first named location, else the student's, else "TBD" |
| PrioritySort.SortDesc | client/src/lib/utils/meeting-utils.ts:135-137 | the sorted copy is a permutation of the list |
| PrioritySort.SortDescIsDescending | server/storage.ts:446-449 | the sorted copy has keys in non-increasing order |
| PrioritySort.SortHeadIsFirstMax | client/src/lib/utils/meeting-utils.ts:135-143 | stability: the sorted head is the first element of greatest key |
| Storage.Values | server/storage.ts:200-202 | `Array.from(m.values())` holds exactly the records with ids below the counter |
| Storage.ValuesOfKeyed | server/storage.ts:200-202 | in a keyed table the values are every stored record, in strictly increasing id order |
| Storage.KeyedInsert | server/storage.ts:204-208 | storing a record under the counter and advancing it keeps the table keyed |
| Storage.AppendUnderCounter | server/storage.ts:163-166 | a record created under the counter comes last in the table's value order |
| Storage.NothingBelowOne | server/storage.ts:108-116 | a table whose counter is still 1 is empty |
| Storage.Lookup | server/storage.ts:147-149 | `Map.get`: present iff the key is stored, and then that record |
| Storage.MergeUserLaws | server/storage.ts:182-189 | a merge keeps the id and creation time, is idempotent, the empty patch changes nothing, and a patched field takes the patch's value |
| Storage.MergeMeetingLaws | server/storage.ts:322-327 | the same laws for meetings |
| Storage.MergeConflictLaws | server/storage.ts:406-413 | the same for conflicts; a merge never touches the creation or resolution time |
| Storage.Resolve | server/storage.ts:419-423 | the resolved record has status resolved and the given resolution time, and is otherwise unchanged |
| Storage.ResolveAgainOverwrites | server/storage.ts:415-424 | resolving twice equals resolving once at the later time; the first resolution time is lost |
| Storage.SliceEnd | server/storage.ts:446-450 | where `slice(0, limit)` stops, negative limits counting back, never past either end |
| Storage.SampleSubjectIds | server/storage.ts:134-143 | the sample subjects get ids 1..5 in list order |
| Storage.StaffWithExpertise | server/storage.ts:514-528 | the staff loop keeps, in roster order, each not-yet-taken staff member with expertise in a needed subject |
| Storage.RequestedNeedsCharacterized | server/storage.ts:497-504 | the needs matched on are exactly the student's stored needs, narrowed to the subject when a non-zero one is given |
| Storage.StaffRosterCharacterized | server/storage.ts:509-511 | the roster is exactly the stored student-staff and professional-staff users |
| Storage.ExpertInCharacterized | server/storage.ts:518-523 | the expertise test holds iff a stored expertise record of the user names a needed subject |
| Storage.MatchingStaffCharacterized | server/storage.ts:492-531 | the result is duplicate-free and holds exactly the stored staff with expertise in a subject the stored student needs (the given subject, if any) |
| Storage.MatchingFailsClosed | server/storage.ts:506 | a stored student with no needs is matched with no one, where the client's matcher returns the whole roster |
| Storage.TimeslotsAreSlotsWithoutLocation | server/storage.ts:541-570 | the store's slots are the client's slots for the same windows without their location |
| Storage.NoWindowsNoSpans | server/storage.ts:537-539 | the early return for a person without windows gives what the loops would give |
| Storage.WeekTimeslots | server/storage.ts:544-570 | the weekday loop's pushes are the timeslots of the overlaps grouped by weekday 0..6 |
| Storage.PushDayTimeslots | server/storage.ts:548-569 | the middle loop appends the timeslots of every student window of the day against every staff window of the day |
| Storage.PushPairTimeslots | server/storage.ts:549-568 | the inner loop appends one student window's overlaps with each staff window in order |
| Storage.PushOverlapTimeslot | server/storage.ts:551-567 | the loop body pushes the pair's overlap exactly when it lasts 30 minutes |
| Storage.MemStorage.SampleDataOnly | server/storage.ts:108-116 | a new store has empty expertise, need, window, meeting, conflict and notification tables |
| Storage.MemStorage.constructor | server/storage.ts:97-120 | the new store is keyed and holds exactly the administrator (id 1, activity 1) and subjects 1..5; every other counter is 1 |
| Storage.MemStorage.InitSampleData | server/storage.ts:122-144 | creates the administrator with its `user_added` activity, then the five subjects |
| Storage.MemStorage.CreateSampleSubjects | server/storage.ts:134-143 | the sample subjects are created in order under ids 1..5 |
| Storage.MemStorage.GetUser | server/storage.ts:147-149 | the user under the id, if any |
| Storage.MemStorage.GetUserByUsername | server/storage.ts:151-155 | none iff no user has the username; otherwise the user of lowest id with it |
| Storage.MemStorage.GetUsersByRole | server/storage.ts:157-161 | exactly the stored users with the role, each once, in ascending id order (the map's insertion order) |
| Storage.MemStorage.CreateUser | server/storage.ts:163-180 | the user gets the counter's id and the time; counter advanced; one `user_added` activity about it |
| Storage.MemStorage.UpdateUser | server/storage.ts:182-189 | unknown id: nothing changes; otherwise the patch merged over the stored user |
| Storage.MemStorage.DeleteUser | server/storage.ts:191-193 | true iff the id was present; the user is gone, nothing else changes |
| Storage.MemStorage.GetSubject | server/storage.ts:196-198 | the subject under the id, if any |
| Storage.MemStorage.GetSubjects | server/storage.ts:200-202 | every stored subject, in increasing id order |
| Storage.MemStorage.CreateSubject | server/storage.ts:204-209 | the subject under the counter's id; counter advanced |
| Storage.MemStorage.GetStaffExpertise | server/storage.ts:212-214 | the record under the id, if any |
| Storage.MemStorage.GetStaffExpertiseByUser | server/storage.ts:216-220 | exactly the stored expertise records of the user, in ascending id order |
| Storage.MemStorage.CreateStaffExpertise | server/storage.ts:222-227 | the record under the counter's id; counter advanced |
| Storage.MemStorage.GetStudentSubject | server/storage.ts:230-232 | the record under the id, if any |
| Storage.MemStorage.GetStudentSubjectsByUser | server/storage.ts:234-238 | exactly the stored needs of the user, in ascending id order |
| Storage.MemStorage.CreateStudentSubject | server/storage.ts:240-245 | the record under the counter's id; counter advanced |
| Storage.MemStorage.GetAvailability | server/storage.ts:248-250 | the window under the id, if any |
| Storage.MemStorage.GetAvailabilitiesByUser | server/storage.ts:252-256 | exactly the stored windows of the user, in ascending id order |
| Storage.MemStorage.CreateAvailability | server/storage.ts:258-263 | the window under the counter's id; counter advanced |
| Storage.MemStorage.DeleteAvailability | server/storage.ts:265-267 | true iff the id was present; the window is gone |
| Storage.MemStorage.GetMeeting | server/storage.ts:270-272 | the meeting under the id, if any |
| Storage.MemStorage.GetMeetingsByStudent | server/storage.ts:274-278 | exactly the stored meetings of the student, in ascending id order |
| Storage.MemStorage.GetMeetingsByStaff | server/storage.ts:280-284 | exactly the stored meetings of the staff member, in ascending id order |
| Storage.MemStorage.GetMeetingsByDate | server/storage.ts:286-292 | exactly the stored meetings on the day, in ascending id order |
| Storage.MemStorage.CreateMeeting | server/storage.ts:294-320 | the meeting under the counter's id; a `meeting_scheduled` activity by the administrator iff both participants are stored users |
| Storage.MemStorage.UpdateMeeting | server/storage.ts:322-341 | unknown id: nothing changes; otherwise the patch merged and one `meeting_updated` activity |
| Storage.MemStorage.DeleteMeeting | server/storage.ts:343-365 | unknown id: false and nothing logged; otherwise the meeting removed and one `meeting_deleted` activity |
| Storage.MemStorage.GetConflict | server/storage.ts:368-370 | the conflict under the id, if any |
| Storage.MemStorage.GetConflicts | server/storage.ts:372-378 | the status is a string tested for truthiness: absent or empty gives every stored conflict; otherwise exactly those whose status is stored under that string, and none for a string naming no status; always in ascending id order |
| Storage.MemStorage.CreateConflict | server/storage.ts:380-404 | stored under a fresh id, stamped, unresolved; one `conflict_reported` activity by the reporter, or by user 1 when there is none |
| Storage.MemStorage.UpdateConflict | server/storage.ts:406-413 | unknown id: nothing changes; otherwise the patch merged, with no activity |
| Storage.MemStorage.ResolveConflict | server/storage.ts:415-439 | unknown id: nothing changes; otherwise that conflict alone is resolved at the given time, and one `conflict_resolved` activity names the resolver |
| Storage.MemStorage.GetActivity | server/storage.ts:442-444 | the entry under the id, if any |
| Storage.MemStorage.GetRecentActivities | server/storage.ts:446-450 | a prefix of the log sorted newest first, as long as `slice(0, limit)` allows, default 10 |
| Storage.MemStorage.CreateActivity | server/storage.ts:452-457 | the entry under the counter's id, stamped; counter advanced |
| Storage.MemStorage.GetNotification | server/storage.ts:460-462 | the notification under the id, if any |
| Storage.MemStorage.GetNotificationsByUser | server/storage.ts:464-468 | exactly the user's notifications, newest first, as a permutation of the user's records in the table (each once) |
| Storage.MemStorage.CreateNotification | server/storage.ts:470-480 | under the counter's id, unread and stamped; counter advanced |
| Storage.MemStorage.MarkNotificationAsRead | server/storage.ts:482-489 | false for an unknown id; otherwise true with the notification read and nothing else changed |
| Storage.MemStorage.FindMatchingStaffForStudent | server/storage.ts:492-531 | the loop's result is the matching staff of the three tables, characterized by `MatchingStaffCharacterized` |
| Storage.MemStorage.FindAvailableTimeslots | server/storage.ts:533-573 | the result is the location-free rendering of the client's spans over the stored windows, including the early return; only the two users' windows need parseable times |
| Matching.RequiredExpertise | server/matching.ts:17-19 | none iff the original staff member has no expertise record; otherwise their first record |
| Matching.FindAlternativeStaff | server/matching.ts:7-80 | the reply is `AlternativeAnswer` and the inbox gains exactly the `Escalations` notices |
| Matching.AvailableStaffCharacterized | server/matching.ts:29-57 | candidates are an order-preserving sub-list, exactly the other professional staff with the required expertise at no lower proficiency, a window enclosing the meeting on its weekday, and the requested modality |
| Matching.QualifiesCharacterized | server/matching.ts:41-56 | the filter passes a staff member iff all three tests hold |
| Matching.NoRequiredExpertiseFailsQuietly | server/matching.ts:21-26 | no expertise record for the original staff member: failure with no candidates and no notice |
| Matching.EscalatesExactlyWhenNoneQualify | server/matching.ts:59-79 | success iff a candidate remains, then with the list and no notice; otherwise the "notified" message and exactly one high-priority notice about the meeting |
| Matching.EnclosesInMinutes | server/matching.ts:47-51 | for zero-padded times the string availability test is the minute test |
| Matching.ShortHourWindowMissesMeeting | server/matching.ts:47-51 | a 9:00-17:00 window fails the string test for a 10:00-11:00 meeting it encloses in minutes |
| Matching.FindAlternativeStaffAsWritten | server/matching.ts:59-74 | as written, a thrown error can only be the reference to `notifications` |
| Matching.AsWrittenThrowsInsteadOfEscalating | server/matching.ts:59-74 | as written, the call throws exactly where the corrected one escalates, and the "notified" reply never happens |
| Matching.AsWrittenThrowsWithNoOtherStaff | server/matching.ts:59-74 | a concrete meeting with no other staff: as written it throws; corrected, it replies "notified" and sends one notice |
| Formatting.DaysOfWeekAreTheWeek | client/src/lib/types.ts:241-249 | seven distinct names, index 0 Sunday, 1 Monday, 6 Saturday |
| Formatting.Hour12 | client/src/lib/types.ts:265 | `hours % 12 \|\| 12` is in 1..12, agrees with hours mod 12, and with the period gives the hour back |
| Formatting.FormatTime | client/src/lib/types.ts:262-267 | unpadded dial hour, the input's two minute digits, AM below noon and PM from noon |
| Formatting.FormatTimeReadsBack | client/src/lib/types.ts:262-267 | the 12-hour text reads back as the same minute of the day |
| Formatting.RelativeTimeBuckets | client/src/lib/types.ts:270-300 | "just now" iff under 60 s; the date iff 30 days or more; otherwise the floored count in exactly one of minutes, hours, days or weeks (1..4) |
| Formatting.AgoTextPlural | client/src/lib/types.ts:281-296 | the unit takes its plural "s" exactly when the count is above one |
| Forms.DefaultAvailabilityAccepted | client/src/components/forms/availability-form.tsx:66-73 | the defaults (Monday, 09:00-10:00, recurring) pass the schema |
| Forms.AcceptedWindowIsUsable | client/src/components/forms/availability-form.tsx:31-45 | an accepted window has a weekday 0..6, times the slot search can read, and end strictly after start |
| Forms.SchemaAcceptsShortHours | client/src/components/forms/availability-form.tsx:34-35 | the schema accepts "9:00", which names the same minute as "09:00" |
| Forms.DefaultMeetingAccepted | client/src/components/forms/matching-form.tsx:85-95 | the matching form's defaults pass its schema, with no student or staff chosen |
| Forms.OrElse | client/src/components/forms/matching-form.tsx:172-174 | `text \|\| fallback`: the text unless absent or empty |
| Forms.MeetingPayload | client/src/components/forms/matching-form.tsx:164-176 | fields copied; location as entered, else "Virtual" when virtual, else "TBD"; notes or ""; status scheduled |
| Forms.AcceptedPayloadIsProperInterval | client/src/components/forms/matching-form.tsx:50-57 | an accepted form posts valid times with end after start, so its conflict check is half-open overlap |
| Forms.OfferedStaff | client/src/components/forms/matching-form.tsx:115-138 | a sub-list of the staff, never empty when the staff is not, and all of it without a student or before both lists load |
| Forms.OfferedStaffIsMatchOrFallback | client/src/components/forms/matching-form.tsx:126-134 | with a student and both lists: the matches when there are any, else the whole list |
| Forms.MatchingForm.constructor | client/src/components/forms/matching-form.tsx:66-96 | no student or staff, not virtual, empty location, nothing offered, neither side remote |
| Forms.MatchingForm.VirtualChanged | client/src/components/forms/matching-form.tsx:106-112 | checking virtual sets location "Virtual"; unchecking clears it only if it was "Virtual" |
| Forms.MatchingForm.StudentChanged | client/src/components/forms/matching-form.tsx:115-138 | offered staff becomes `OfferedStaff`; with a student, the remote flag is the first student with that id's |
| Forms.MatchingForm.StaffChanged | client/src/components/forms/matching-form.tsx:141-151 | with a staff member, records whether they are remote and then makes the meeting virtual; without, nothing changes |
| Forms.MatchingForm.RemoteChanged | client/src/components/forms/matching-form.tsx:154-158 | either remote flag makes the meeting virtual; otherwise it stays as it was |

## Left out

- Passwords, authentication and sessions: the stored users carry no password, because hashing and sessions go through libraries outside the model.
- JavaScript `Date`: dates are abstract day numbers. The date-string normalisation in the conflict test and in `getMeetingsByDate` is day equality. The weekday of the meeting's date (`getDay()`) is passed to the alternative-staff search. `new Date()` is a `now` parameter.
- `formatDate`, the calendar-date fall-back of `getRelativeTime`, is the `CalendarDate` result without its text, because it depends on locale formatting.
- Formatting.RelativeTimeBuckets: starts from the whole elapsed seconds, because reading the clock and subtracting dates is not modelled.
- Activity-log entries keep the author, the type and the entity id; their description text and JSON metadata are left out.
- Storage.MemStorage.MarkNotificationAsRead: modelled as storing an updated copy, so the aliasing of the mutated record object with earlier return values is not captured.
- Time strings that do not match the forms' pattern: `timeToMinutes` would give NaN, which makes every comparison false; the model instead requires matching strings on exactly the records an operation parses, and says nothing about the others.
- MeetingUtils.CheckMeetingConflict: requires parseable times on the proposal and on the existing meetings that share its date and a participant; the other meetings may hold anything.
- MeetingUtils.FindAvailableTimeSlots: requires parseable times on the student's and the staff member's windows only; windows of other users are filtered out before any parsing.
- async/await: every store and search operation is synchronous, as nothing runs concurrently.
- The schemas' error messages, and when the form library runs the refinement, because only whether a value is accepted is modelled.
- The database reads of the alternative-staff search: users, expertise and availability arrive as sequences in table order, and the notice goes into an inbox object.
- Forms.MeetingPayload: the meeting type is the `MeetingType` enumeration, not the schema's free string, so a type outside the enumeration cannot be entered.
- The availability form's submit, reset and API calls, and the matching form's post, toast and reset, because they are UI and network effects.
- Pages, layout, cards, modals and the other UI components, which only render.
- Storage.MemStorage.FindAvailableTimeslots: requires the two users' stored windows to carry pattern-matching times, which the availability form ensures before they are created.

## Findings

| source | as written | input that shows it | evidently intended | confidence | as-written member | corrected member |
|---|---|---|---|---|---|---|
| server/matching.ts:61 | the escalation inserts into `notifications`, which the module never imports (only `users`, `staffExpertise`, `availability`, `meetings`), so the branch throws a ReferenceError before the reply | meeting 7 of staff member 2, who has one expertise record, and no other staff | insert one high-priority PAIRING_ISSUE notice about the meeting and reply that the scheduling team has been notified | high, not executed | Matching.FindAlternativeStaffAsWritten | Matching.FindAlternativeStaff |
