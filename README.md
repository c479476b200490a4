# Hallmark equipment and attendance rules in Dafny

This project models, and proves properties of, four parts of a school's
Django application: the equipment lending tracker, the people and
class-meeting rules of the information base, the barcode-scanner
attendance report, and the Code 39 bar code drawer.

- **Equipment** (`equipment.dfy`, modules `Equipment` and `EquipmentFacts`).
  - A `Store` object holds the item types, the items, the append-only
    transaction ledger and the penalties. Primary keys are positions, in
    creation order.
  - Items move between in stock, out and repair through `check_out`,
    `check_in` and `add_to_stock`. A kit carries its contents along.
  - `save` refuses an item without a number and hands a kit's due date to
    its contents. The database refuses a repeated (serial number, HIP
    number) pair.
  - Also modelled: the due-date rule, the days-overdue count, the lookup
    of a scanned number, the stock counts of a type and `Penalty.levy`.
  - Each state-changing method is proved equal to a function of the old
    state. The lemmas about those functions state what the lending rules
    promise.
- **Information base** (`infobase.dfy`, modules `Infobase` and `InfobaseFacts`).
  - A `School` object holds people, rooms, class meetings and scans.
  - Modelled: the cohort phase calendar, the defaults `Person.save` and
    `Room.save` fill in, enrolment, activity and leave, sections and their
    ordinals, and ordering people by name.
  - Also modelled: stepping from one hour of a class to the next (skipping
    12:00), the number of hours of a class, the guessed end time, and the
    present / absent lists of a meeting.
- **Scanned attendance** (`attendance_scanned.dfy`, module `AttendanceScanned`).
  - The `"H:MM[:SS]-H:MM[:SS]"` parser of `Timespan`, with either side
    optional, and its ordering.
  - The scan-in and scan-out windows of a `ClassBlock`.
  - The present / absent breakdown of `scan_breakdown`.
  - The pairing of a marker's scans into blocks in `marked_blocks`.
- **Code 39** (`code39.dfy`, module `Code39`).
  - The symbol table of ISO/IEC 16388 Code 39.
  - A class `Code39` whose `Encode` builds the list of spans bar by bar
    while flipping a colour.
  - Proved: the message framing, ten elements per character (bars and
    spaces alternating), the width formula, and that reading the spans
    back yields the message.

`calendar.dfy` writes Python's dates, times and timestamps as integers.
- A date is its proleptic Gregorian ordinal.
- A timestamp counts whole seconds.
- `isoweekday` and `toordinal` are written out.

`results.dfy` holds the Option / Result / Outcome types that stand for
Python's None and for exceptions. Every exception the code can raise on a
path it models becomes an `Err`/`Fail` value, except the TypeError of an
item that is out without a due date (see the loan invariant below). A case
the code handles is never excluded by a precondition.

### Choices the lending model makes

- The loan invariant is one-way: an item that is out has a borrower and a
  due date (`Equipment.LoanConsistent`).
  - `check_in` (equipment/models.py:304-316) clears the borrower but keeps
    the due date.
  - `add_to_stock` (equipment/models.py:281-289) sets the status and
    clears neither, so an item put back from out keeps its borrower.
  - `Equipment.Store.Save` and `Equipment.DaysOverdue` require this
    invariant of the records they are given. The admin form can store an
    item that is out without a due date; `days_overdue` then raises
    TypeError comparing None with a timestamp (equipment/models.py:341),
    and so does `levy`. That TypeError is not modelled.
- `check_out` of a kit (equipment/models.py:291-302) checks each content
  item out with no custom due date, so each content gets the default due
  time. `Equipment.Store.CheckOut` instead gives the contents the kit's
  due time. Findings row 1 has both versions; "## Left out" names the
  members that use the corrected one.
- A content item that refuses `check_out` or `check_in` raises
  `TransactionError` from inside the kit's loop. Nothing rolls back, so
  the model keeps everything changed before it.
- Refusing an inactive borrower happens in the views, which are not part
  of this model.

## Model

| member | source | states |
|---|---|---|
| Equipment.Number | equipment/models.py:271-274 | the number is empty exactly when the item has neither number; it is the HIP number when there is one, otherwise the serial number |
| Equipment.MatchesBelow | equipment/models.py:351 | the items whose HIP or serial number is the input, each once, in id order, and no others |
| Equipment.FindByNumber | equipment/models.py:346-357 | the result is the one item matching on either field, with no other match; `NoMatch` exactly when nothing matches; `MultipleMatches` lists exactly the matching ids and arises only when two distinct items match |
| Equipment.IsKit | equipment/models.py:276-279 | a definition without a contract: an item is a kit exactly when its type is; the kit rules (KitsFlat, KitRecordCheckedOut, KitCheckedIn) are stated in terms of it |
| Equipment.Label | equipment/models.py:238-239 | a definition without a contract: the type's manufacturer and model name, then " #" and the number; it is the text of the contents' notes |
| Equipment.DueDatetime | equipment/models.py:253-269 | a custom due timestamp is used as given, otherwise the default rule for today |
| Equipment.DefaultDue | equipment/models.py:261-269 | a definition without a contract; DefaultDueRule states its rule |
| Equipment.DefaultDueRule | equipment/models.py:261-269 | a Friday checkout is due three days later, a Monday, at 7:50; any other day's checkout is due the next day at 17:50; the due time is after the whole checkout moment; a weekday checkout is due on a weekday |
| Equipment.DaysOverdue | equipment/models.py:333-344 | 0 exactly when the item is not out or not past due; otherwise d days with (d-1)·24h ≤ lateness < d·24h, so one minute late is 1 day and 24h01 is 2 |
| Equipment.DaysOverdueMonotone | equipment/models.py:333-344 | lateness never decreases as the clock advances |
| Equipment.CountsPartition | equipment/models.py:192-198 | in-stock, out and repair counts of a type add up to all items of that type |
| Equipment.CountAfterUpdate | equipment/models.py:192-198 | replacing one item changes a status count by exactly what the old and the new item contribute |
| Equipment.HowManyInStock | equipment/models.py:192-194 | a recursive count without a contract of its own; StockCounts states that it is the size of the in-stock filter of the type |
| Equipment.HowManyOut | equipment/models.py:196-198 | a recursive count without a contract of its own; StockCounts states that it is the size of the out filter of the type |
| Equipment.CountIsFilterSize | equipment/models.py:192-198 | the recursive count of a type and status is the size of the set of matching item ids |
| Equipment.StockCounts | equipment/models.py:192-198 | `how_many_in_stock` and `how_many_out` are the sizes of the filters on type and status IN_STOCK, respectively OUT |
| Equipment.Store.HowManyInStockOf | equipment/models.py:192-194 | the number of stored items of the type that are in stock |
| Equipment.Store.HowManyOutOf | equipment/models.py:196-198 | the number of stored items of the type that are out |
| Equipment.Store.Find | equipment/models.py:346-357 | on the stored items: an id only of the one item matching the number, and `NoMatch` exactly when no stored item matches |
| Equipment.Store.AddItemType | equipment/models.py:172-180 | a new type is stored at the end under the next id, and the store invariant holds |
| Equipment.WellFormedKept | equipment/models.py:215-236 | changing only statuses, borrowers and due dates, while keeping loans consistent, keeps the item invariant (known type, a number, unique number pair, flat kits) |
| Equipment.ContentsBelow | equipment/models.py:222-224 | exactly the items whose kit is `k`, in id order |
| Equipment.Contents | equipment/models.py:222-224 | `kit.contents.all()` holds every item of the kit and only those |
| Equipment.ContentsBelowFrame | equipment/models.py:222-224 | lending changes no kit's contents |
| Equipment.CascadeDue | equipment/models.py:247-250 | the save cascade touches only due dates and keeps every loan consistent |
| Equipment.Store.SaveCascade | equipment/models.py:247-250 | the stored items become the cascade of the old items for kit `k` |
| Equipment.Store.Save | equipment/models.py:241-251 | no number: `MissingNumber` and nothing changes; otherwise a kit's contents get its due date, then a repeated number pair is refused with the cascade persisted, or the record is stored under its id (a new one at the end) |
| Equipment.SavedWellFormed | equipment/models.py:241-251 | storing an allowed record with a number and a fresh number pair keeps the item invariant |
| Equipment.CheckOutRecord | equipment/models.py:293-299 | refusal or lending of one item touches only statuses, borrowers and due dates and keeps loans consistent |
| Equipment.CheckOutContents | equipment/models.py:300-302 | the contents loop of check_out keeps the item frame and consistent loans |
| Equipment.CheckOutContentsStops | equipment/models.py:300-302 | once a content item is refused, later items are untouched: the whole loop equals the loop up to the refusal |
| Equipment.CheckOutAsWritten | equipment/models.py:291-302 | check_out as written keeps the item frame |
| Equipment.CheckOutSpec | equipment/models.py:291-302 | corrected check_out keeps the item frame and consistent loans |
| Equipment.Store.CheckOutOne | equipment/models.py:293-299 | the new items, ledger and outcome are those of CheckOutRecord on the old state, and the store invariant holds |
| Equipment.Store.CheckOutEach | equipment/models.py:300-302 | the new state is CheckOutContents of the old state |
| Equipment.Store.CheckOut | equipment/models.py:291-302 | the new state is CheckOutSpec of the old state, and the store invariant holds |
| Equipment.CheckInRecord | equipment/models.py:304-313 | check_in on one item keeps the item frame and consistent loans |
| Equipment.CheckInContents | equipment/models.py:314-316 | the contents loop of check_in keeps the item frame and consistent loans |
| Equipment.CheckInContentsStops | equipment/models.py:314-316 | once a content item is refused, later items are untouched |
| Equipment.CheckInSpec | equipment/models.py:304-316 | check_in of an item and its contents keeps the item frame and consistent loans |
| Equipment.Store.CheckInOne | equipment/models.py:304-313 | the new state is CheckInRecord of the old state |
| Equipment.Store.CheckInEach | equipment/models.py:314-316 | the new state is CheckInContents of the old state |
| Equipment.Store.CheckIn | equipment/models.py:304-316 | the new state is CheckInSpec of the old state, and the store invariant holds |
| Equipment.AddContents | equipment/models.py:286-289 | the contents loop of add_to_stock keeps the item frame and consistent loans |
| Equipment.AddContentsStep | equipment/models.py:286-289 | one more content item is stocked and gets an ADD record only if it was not in stock |
| Equipment.Store.AddEach | equipment/models.py:286-289 | the new items and ledger are AddContents of the old ones |
| Equipment.Store.AddToStock | equipment/models.py:281-289 | the returned record is in stock, with an ADD transaction only if it was not; a kit's contents go through AddContents with the kit note; nothing else changes |
| Equipment.MaxOverdueBelow | equipment/models.py:440-443 | no item lent to the student is later than the maximum, and a nonzero maximum is reached by one of them |
| Equipment.Store.MaxDaysOverdue | equipment/models.py:440-443 | the loop's running maximum is the student's worst lateness and bounds every item lent to them |
| Equipment.Store.ItemsOverdueBy | equipment/models.py:448-451 | exactly the student's items at the given lateness |
| Equipment.Store.Levy | equipment/models.py:429-453 | no late item: no penalty and nothing stored; otherwise one new penalty of 2500 × the worst lateness, attached to exactly the items tied at it |
| EquipmentFacts.OneRecordOut | equipment/models.py:293-299 | checking out a non-kit is refused exactly when it is not in stock, and then nothing changes and the failure carries its status; otherwise only that item changes (out, lent to the person, due as set_due_datetime says) and one CHECKOUT row for the person is appended to the ledger |
| EquipmentFacts.OneRecordIn | equipment/models.py:304-313 | checking in a non-kit is refused exactly when it is not out, and then nothing changes and the failure carries its status; otherwise only that item changes (in stock, without borrower, due date kept) and one CHECKIN row under its former borrower is appended |
| EquipmentFacts.ContentsCheckedOut | equipment/models.py:300-302 | a completed contents loop lent every listed item, all in stock before, to the person, due as set_due_datetime says, touched no other item, and appended one CHECKOUT row per item in list order |
| EquipmentFacts.ContentsCheckedIn | equipment/models.py:314-316 | a completed contents loop returned every listed item, all out before, touched no other item, and appended one CHECKIN row per item under its borrower, in list order |
| EquipmentFacts.KitRecordCheckedOut | equipment/models.py:293-299 | lending the kit record itself keeps its contents, lends the kit, changes no item outside the kit and appends the kit's one CHECKOUT row |
| EquipmentFacts.KitContentsDueWithKit | equipment/models.py:291-302 | corrected check_out of a kit lends the kit and all its contents, each in stock before, to the person, all due when the kit is; the ledger gains the kit's CHECKOUT row, then one per content in id order |
| EquipmentFacts.KitContentsDueAsWritten | equipment/models.py:300-302 | check_out as written leaves every content item due at the default due time, whatever the kit's due time |
| EquipmentFacts.KitRecordCheckedIn | equipment/models.py:305-313 | checking in the kit record itself keeps its contents, puts the kit back in stock without borrower, hands the kit's due date to the contents through the save cascade, changes nothing else and appends the kit's one CHECKIN row |
| EquipmentFacts.KitCheckedIn | equipment/models.py:304-316 | a completed check_in of a kit puts the kit and every content (each out before) back in stock without borrower, leaves the rest alone, and appends the kit's CHECKIN row, then one per content under its borrower with the "Checked in as part of kit" note |
| Equipment.KitNote | equipment/models.py:301-302 | a definition without a contract: the note prefix followed by the kit's label, the `"... kit %s" % self` of the contents loop; KitCheckedIn states the notes it puts in the ledger |
| EquipmentFacts.KitCustomDueDiffers | equipment/models.py:300-302 | with a custom due time other than the default, the as-written contents are due at a different time than the kit, and the corrected ones with it |
| EquipmentFacts.CheckOutThenIn | equipment/models.py:291-316 | checking an in-stock non-kit out and back in succeeds, restores every item except the kept due date, and appends exactly a CHECKOUT and a CHECKIN under the borrower |
| EquipmentFacts.CheckOutCounts | equipment/models.py:192-198 | a successful checkout moves one item of its type from the in-stock count to the out count, and no other type's counts change |
| EquipmentFacts.AddContentsStocks | equipment/models.py:286-289 | after the contents loop every listed item is in stock, and no other item changed |
| EquipmentFacts.AddContentsNoop | equipment/models.py:283-285 | on items already in stock the loop records nothing and changes nothing |
| EquipmentFacts.AddContentsIdempotent | equipment/models.py:281-289 | a second add_to_stock of the same contents records nothing and changes nothing |
| Infobase.PhaseEndDates | infobase/models.py:136-143 | only cohorts 1 and 2 have a calendar: four end dates, increasing |
| Infobase.PhaseFrom | infobase/models.py:163-167 | the first phase from `p` on whose end is not before the date, with every phase between ending earlier; none exactly when all end earlier |
| Infobase.PhaseFor | infobase/models.py:151-167 | a KeyError exactly for a cohort without a calendar; otherwise no phase or a phase from 1 to 4 |
| Infobase.PhaseForCohortAndDate | infobase/models.py:162-167 | the loop over the phases from last to first, overwriting the result, gives PhaseFor |
| InfobaseFacts.PhaseIsBetweenEnds | infobase/models.py:151-167 | the date is in phase p exactly when it is on or before p's end date and after the previous phase's end date |
| InfobaseFacts.PhaseMonotone | infobase/models.py:151-167 | phases only advance as the date does; past the last phase stays past it |
| InfobaseFacts.PhaseExamples | infobase/models.py:155-160 | 1 September 2009 is phase 1 and 1 June 2010 phase 4 of cohort 1, 1 January 2099 none; cohort 3 raises |
| Infobase.IsEnrolled | infobase/models.py:346-349 | a TypeError exactly for a student without expiry; true exactly for a student whose expiry is after the date |
| InfobaseFacts.ActiveWhileEnrolled | infobase/models.py:331-335 | a student with an expiry is active exactly when is_enrolled holds that day |
| InfobaseFacts.PersonExamples | infobase/models.py:240-257 | no expiry is active, yesterday's expiry is not, tomorrow's is; the leave of 1 to 10 January 2001 includes both ends and not the 11th; no leave without both ends |
| InfobaseFacts.KindsOfPeople | infobase/models.py:337-344 | faculty are employees; of the three kinds a person is a student exactly when not an employee |
| Infobase.IsStudent | infobase/models.py:337-338 | a definition without a contract: kind STUDENT_KIND; KindsOfPeople relates the three kinds |
| Infobase.IsEmployee | infobase/models.py:340-341 | a definition without a contract: kind STAFF_KIND or FACULTY_KIND; KindsOfPeople states that it is the complement of being a student |
| Infobase.IsFaculty | infobase/models.py:343-344 | a definition without a contract: kind FACULTY_KIND; KindsOfPeople states that faculty are employees |
| Infobase.IsActive | infobase/models.py:331-335 | a definition without a contract: no expiry, or an expiry after today; ActiveWhileEnrolled and PersonExamples state its cases |
| Infobase.IsOnLeave | infobase/models.py:351-357 | a definition without a contract: both ends of the leave set and the date between them, both included; PersonExamples states its cases |
| Infobase.Section | infobase/models.py:359-370 | None for a non-student; for a student the phase lookup's error, "" when no phase applies, else that phase's section field |
| Infobase.FindFrom | infobase/models.py:377 | the lowest position at or after `i` where the substring occurs, none exactly when it occurs nowhere there |
| Infobase.SectionOrd | infobase/models.py:372-379 | the position of the student's section in SECTIONS, None for a letter not in it; the NoSection error exactly for a non-student, whose section is None, and the UnknownCohort error exactly for a student whose cohort has no phase calendar |
| Infobase.MeetingSectionOrd | infobase/models.py:636-643 | the first position of the meeting's section in SECTIONS, and None exactly when it does not occur there |
| InfobaseFacts.IndexOfLetter | infobase/models.py:377 | a one-letter string is found exactly where that letter occurs, and found whenever it occurs |
| InfobaseFacts.SectionLetterOrdinals | infobase/models.py:636-643 | each letter of TRIPODS has its own position as ordinal, "" has 0, any other letter none |
| InfobaseFacts.StudentSectionOrd | infobase/models.py:372-379 | a student in section SECTIONS[i] has ordinal i |
| Infobase.StrCmp | infobase/models.py:320-322 | cmp on strings is -1, 0 or 1 and 0 exactly for equal strings |
| Infobase.PersonCmp | infobase/models.py:318-322 | 0 exactly when last and preferred first names agree |
| Infobase.StrCmpAntisymmetric | infobase/models.py:320-322 | swapping the strings negates cmp |
| Infobase.StrCmpTransitive | infobase/models.py:320-322 | cmp's order on strings is transitive |
| Infobase.PersonCmpAntisymmetric | infobase/models.py:318-322 | swapping the people negates __cmp__ |
| Infobase.PersonCmpTransitive | infobase/models.py:318-322 | __cmp__ is transitive, so sorting by it is well defined |
| Infobase.InsertByName | infobase/models.py:207 | inserting keeps the ids plus the new one and keeps a name-sorted list sorted |
| Infobase.SortByName | infobase/models.py:207 | `sorted` gives a name-sorted permutation of the ids |
| Infobase.EnrolledBelow | infobase/models.py:217-224 | exactly the enrolled students among the first n, in id order |
| Infobase.Enrolled | infobase/models.py:217-224 | exactly the students whose expiry is after the date (on or after when inclusive), in id order |
| InfobaseFacts.InclusiveAddsExpiryDay | infobase/models.py:221-224 | the inclusive rule adds exactly the students whose ID expires that very day |
| InfobaseFacts.EnrolledAgrees | infobase/models.py:346-349 | PersonManager.enrolled and Person.is_enrolled agree wherever is_enrolled does not raise |
| Infobase.SectionFilter | infobase/models.py:207 | the students of the list whose section that day is the letter, failing exactly when some section lookup raises |
| Infobase.SectionMembers | infobase/models.py:205-208 | name-sorted, exactly the enrolled students whose section that day is the letter |
| Infobase.PersonDefaults | infobase/models.py:324-329 | an empty preferred name becomes the first name; a student without expiry gets phase 4's end plus 7 days, or a KeyError exactly for a cohort without calendar; nothing else changes |
| InfobaseFacts.PersonDefaultsIdempotent | infobase/models.py:324-329 | saving a saved record fills in nothing more |
| InfobaseFacts.SavedStudentEnrolment | infobase/models.py:327-328 | a saved student never makes is_enrolled raise, and a filled-in expiry enrols them until a week after phase 4 |
| Infobase.School.SavePerson | infobase/models.py:324-329 | the stored record is the defaults of the input, under its id or appended; on the KeyError nothing is stored; an id number another stored person has (`id_number` is unique, line 267) is refused with `DuplicateIdNumber` and nothing is stored; id numbers stay unique |
| Infobase.SaveKeepsUnique | infobase/models.py:267 | storing a record whose id number no other person has keeps every id number unique, as an update or an append |
| Infobase.RoomDefaults | infobase/models.py:488-491 | the full name is kept when given, else becomes the abbreviation; the abbreviation is kept |
| Infobase.School.SaveRoom | infobase/models.py:488-491 | the stored room is RoomDefaults of the input, under its id or appended |
| Infobase.Direction | infobase/models.py:584 | `step/abs(step)` is 1 for a positive step and -1 otherwise |
| Infobase.MeetingsAtBelowSpec | infobase/models.py:589-593 | the query keeps exactly the meetings of the same course, section and day at the start time, each once, in id order |
| Infobase.MeetingAtHour | infobase/models.py:588-596 | `objects.get`: the only meeting of the class at the hour, none when there is none, MultipleObjectsReturned otherwise |
| Infobase.Adjacent | infobase/models.py:578-596 | ZeroDivisionError exactly for step 0; for another step, the ValueError of `datetime.time` exactly when the adjacent hour (12:00 skipped) leaves 0..23, and otherwise the lookup at that hour and minute; a found meeting is the only one of the same class at that hour; none means there is no such meeting |
| InfobaseFacts.AdjacentFindsOnly | infobase/models.py:578-596 | conversely, the only meeting at the adjacent hour is found |
| InfobaseFacts.AdjacentFindsNone | infobase/models.py:578-596 | conversely, with no meeting at the adjacent hour none is found |
| InfobaseFacts.MeetingsAtOnly | infobase/models.py:589-593 | when one meeting alone is at the time, the query returns just it |
| InfobaseFacts.MeetingsAtNone | infobase/models.py:589-593 | when no meeting is at the time, the query returns nothing |
| InfobaseFacts.NextThenPrevious | infobase/models.py:572-587 | for a meeting on the full minute, alone at its time and not at 12:00, the next hour's previous hour is the meeting itself |
| InfobaseFacts.NoonIsSkipped | infobase/models.py:586-587 | 11:00 and 12:00 step on to 13:00; 13:00 and 12:00 step back to 11:00 |
| Infobase.FirstHourOf | infobase/models.py:565-570 | the first hour has no previous hour, belongs to the same class and starts no later |
| Infobase.School.FirstHourMeeting | infobase/models.py:565-570 | the loop stepping back while there is a previous hour gives FirstHourOf |
| Infobase.ChainLength | infobase/models.py:550-554 | the chain of next hours from a meeting has between 1 and 24 − start hour meetings |
| Infobase.NumberOfHoursOf | infobase/models.py:546-557 | a successful count is from 1 to 8 and is the length of the chain of next hours from the class's first hour |
| Infobase.School.NumberOfHours | infobase/models.py:546-557 | the counting loop gives NumberOfHoursOf |
| InfobaseFacts.ExampleAdjacent | infobase/models.py:65-90 | at 8:00, 9:00 and 13:00 of one class: 8:00 and 9:00 are each other's adjacent hours, 13:00 has none |
| InfobaseFacts.NumberOfHoursExample | infobase/models.py:91-101 | those meetings form a two-hour class and a separate one-hour class |
| Infobase.EndTimeOf | infobase/models.py:602-609 | a stored end time is used; a missing or midnight end is guessed one hour after the start at its minute, a ValueError exactly when that hour is past 23 |
| Infobase.DatetimeStart | infobase/models.py:598-600 | a timestamp whose day is the meeting's date and whose time is its start time |
| Infobase.School.DatetimeEnd | infobase/models.py:602-609 | returns the end timestamp and keeps a guessed end time in the meeting |
| InfobaseFacts.GuessedEndAfterStart | infobase/models.py:598-609 | a guessed end is one hour minus the start's seconds after the start, so after it; a stored guess gives the same end |
| Infobase.ScannedPersons | infobase/models.py:628 | exactly the people of the scans tied to the meeting, signouts included |
| Infobase.Dedup | infobase/models.py:629-632 | the same people, each once |
| Infobase.School.DedupLoop | infobase/models.py:629-632 | the append loop keeps the first copy of each person |
| Infobase.Absent | infobase/models.py:633 | exactly the expected people not present |
| InfobaseFacts.PresentList | infobase/models.py:628-632 | present is name-sorted, without repeats, and holds exactly the scanned people |
| InfobaseFacts.DedupSorted | infobase/models.py:629-632 | removing repeats keeps a name-sorted list sorted |
| InfobaseFacts.AbsentSorted | infobase/models.py:633 | removing the present keeps a name-sorted list sorted |
| Infobase.School.Attendance | infobase/models.py:623-634 | the method gives AttendanceOf of the stored state |
| Infobase.AttendanceOf | infobase/models.py:623-634 | the function the method is proved against, without a contract of its own; AttendanceLists states what its two lists hold |
| InfobaseFacts.AttendanceLists | infobase/models.py:623-634 | present: each person with a scan of the meeting once, sorted; absent: sorted, exactly the section's students enrolled that day who are not present |
| AttendanceScanned.SplitAt | utility/attendance_scanned.py:44 | the part before the first separator has none, the rest one fewer |
| AttendanceScanned.SplitAtRejoins | utility/attendance_scanned.py:44 | the two parts around the separator join back into the string |
| AttendanceScanned.ClockOfFields | utility/attendance_scanned.py:52-53 | a time exactly when all three fields are numbers as int() reads them (whitespace around, one leading + and whitespace after it) that make a valid time, and then that time |
| AttendanceScanned.ParseInt | utility/attendance_scanned.py:52-53 | int() of a field: a plain run of digits is its decimal value, and an empty field is a ValueError |
| AttendanceScanned.ParseIntExamples | utility/attendance_scanned.py:52-53 | " 8", "30 ", "+5", "\t07\n" and "+ 30" read as 8, 30, 5, 7 and 30 |
| AttendanceScanned.ParseIntRefusals | utility/attendance_scanned.py:52-53 | "", " ", "+", "++5", "7 7", "7a", "+ " and "+ +5" are ValueErrors |
| AttendanceScanned.ParseClock | utility/attendance_scanned.py:52-53 | a side that does not have exactly two colons is a ValueError; a parsed time is valid |
| AttendanceScanned.TimespanOf | utility/attendance_scanned.py:44-60 | a range that does not have exactly one dash is a ValueError |
| AttendanceScanned.NewTimespan | utility/attendance_scanned.py:40-60 | `__init__` step by step gives TimespanOf |
| AttendanceScanned.SetBounds | utility/attendance_scanned.py:51-60 | the conditional assignments of begin and end give SpanOfSides |
| AttendanceScanned.SpanOfSides | utility/attendance_scanned.py:51-60 | the function SetBounds is proved against, without a contract of its own; SpanBoth, SpanNoStart, SpanNoEnd and SpanErrors state its four cases |
| AttendanceScanned.RangeSides | utility/attendance_scanned.py:44-49 | a range is its two sides with the seconds filled in |
| AttendanceScanned.WithSecondsKeepsEmpty | utility/attendance_scanned.py:46-51 | filling in seconds leaves an empty side empty and a given side given |
| AttendanceScanned.SpanBoth | utility/attendance_scanned.py:51-58 | with both sides given the span runs from the first time to the second on that day |
| AttendanceScanned.SpanNoStart | utility/attendance_scanned.py:56-60 | with the start left out, the span opens 30 minutes before the end |
| AttendanceScanned.SpanNoEnd | utility/attendance_scanned.py:51-55 | with the end left out, the span closes 30 minutes after the start |
| AttendanceScanned.SecondsOptional | utility/attendance_scanned.py:45-49 | "H:MM" on both sides names the same span as "HH:MM:SS" |
| AttendanceScanned.SpanErrors | utility/attendance_scanned.py:44-60 | a range without exactly one dash is a ValueError; "-" is refused up front with `NoTimes` |
| AttendanceScanned.ShortNames | utility/attendance_scanned.py:31-33 | "H:MM" without the leading zero names the time on the minute |
| AttendanceScanned.FormattedNames | utility/attendance_scanned.py:120-121 | `str` of a time names that time |
| AttendanceScanned.ExampleTimesWritten | utility/attendance_scanned.py:31-38 | the documentation's hand-written times are "7:30", "8:00", "9:00" and "16:50" |
| AttendanceScanned.TimespanExampleShort | utility/attendance_scanned.py:26-33 | "7:30-8:00" is 7:30 to 8:00 of that day |
| AttendanceScanned.TimespanExampleNoStart | utility/attendance_scanned.py:35-36 | "-9:00" is 8:30 to 9:00 |
| AttendanceScanned.TimespanExampleNoEnd | utility/attendance_scanned.py:37-38 | "16:50-" is 16:50 to 17:20 |
| AttendanceScanned.TimespanExampleSpaced | utility/attendance_scanned.py:44-57 | "7:30 - 8:00" is 7:30 to 8:00, since int() skips the spaces left around the dash |
| AttendanceScanned.CompareSpans | utility/attendance_scanned.py:62-66 | 0 exactly for equal spans, negative exactly when earlier by begin, then by end |
| AttendanceScanned.Cmp | utility/attendance_scanned.py:62-66 | Python's cmp: 0 exactly for equal integers, negative exactly when the first is smaller, and always -1, 0 or 1 |
| AttendanceScanned.CompareSpansOrder | utility/attendance_scanned.py:62-66 | `__cmp__` is antisymmetric and transitive, and equal both ways only for equal spans |
| AttendanceScanned.MeetingOfCourseFrom | utility/attendance_scanned.py:93 | the first meeting, in id order, of the course that day, none exactly when there is none |
| AttendanceScanned.BlockLengthAsWritten | utility/attendance_scanned.py:92-96 | with no meeting of the course that day, indexing the empty query set raises |
| AttendanceScanned.BlockLengthMeaning | utility/attendance_scanned.py:91-96 | the corrected length is 0 exactly when the course does not meet that day, at most 8, and an error only from the first meeting's number_of_hours |
| AttendanceScanned.BlockLengthWithoutMeeting | utility/attendance_scanned.py:92-96 | without a meeting, the as-written length raises where the corrected one is 0 |
| AttendanceScanned.BlockLengthAsWrittenRaises | utility/attendance_scanned.py:92-96 | with no meetings at all, the as-written length raises |
| AttendanceScanned.BlockLengthWithMeeting | utility/attendance_scanned.py:92-96 | where the course meets, both lengths agree |
| AttendanceScanned.BlockOf | utility/attendance_scanned.py:85-96 | a block holds the two parsed spans and the length, and fails when any of them fails |
| AttendanceScanned.MakeTime | utility/attendance_scanned.py:115-118 | `datetime.time(h, m)` exactly for valid values, else a ValueError |
| AttendanceScanned.ClassBlockOf | utility/attendance_scanned.py:108-121 | scan in from (h−1):30 to the class start, scan out from (h+L−1):45 to (h+L):15; a ValueError exactly when h is 0 or h+L reaches 24; number_of_hours' errors pass through |
| AttendanceScanned.BlockOfMeeting | utility/attendance_scanned.py:114-121 | once the number of hours L is known: no ValueError exactly when 1 ≤ h and h+L < 24, and then exactly the two windows above |
| AttendanceScanned.FormattedSpan | utility/attendance_scanned.py:120-121 | writing two times as "%s-%s" and parsing them back gives the span between them |
| AttendanceScanned.ClassBlockOnTheHour | utility/attendance_scanned.py:103-121 | for a class on the hour, each window is 30 minutes, the scan-in window closes at the start, and the scan-out window is centred on the end of the last hour |
| AttendanceScanned.IsBarcodeScan | infobase/models.py:780-795 | a definition without a contract: a non-signout scan of a student on that date not tied to a class meeting (Scan.objects leaves out signouts) |
| AttendanceScanned.ScannedWithin | utility/attendance_scanned.py:136-139 | a definition without a contract: the people with such a scan inside the window, both ends included; PresentMeansBothWindows and PresentGrows state its use |
| AttendanceScanned.PresentIds | utility/attendance_scanned.py:140 | a definition without a contract: scanned in the start window and out in the end window; PresentMeansBothWindows states it |
| AttendanceScanned.InSections | utility/attendance_scanned.py:134 | a definition without a contract: the student's section today occurs in the requested letters; ChosenStudents states the filter built on it |
| AttendanceScanned.PresentMeansBothWindows | utility/attendance_scanned.py:137-141 | present means a barcode scan in the start window and one in the end window, both ends included |
| AttendanceScanned.PresentGrows | utility/attendance_scanned.py:137-141 | more scans never make a present student absent |
| AttendanceScanned.AbsentAreTheRest | utility/attendance_scanned.py:141-143 | the reported absentees are exactly the reported students outside the present set |
| AttendanceScanned.ChosenStudents | utility/attendance_scanned.py:133-134 | exactly the students whose section today is among the requested letters, failing exactly when a section lookup raises |
| AttendanceScanned.ReportStudents | utility/attendance_scanned.py:132-134 | exactly the students enrolled that day (expiry day included), in the requested sections when there are any |
| AttendanceScanned.RowsOf | utility/attendance_scanned.py:147-150 | one line per student, in order, with the section on the block's day and the status present exactly for the present set |
| AttendanceScanned.RowsStep | utility/attendance_scanned.py:147-150 | one more student adds that student's line, or fails with their section lookup's error |
| AttendanceScanned.RowsStop | utility/attendance_scanned.py:147-150 | once the lines fail, the report fails the same way |
| AttendanceScanned.ScanBreakdown | utility/attendance_scanned.py:130-152 | the loop gives RowsOf for the reported students and the present set, or the error of the student selection |
| AttendanceScanned.SortTimes | utility/attendance_scanned.py:214-215 | `order_by("timestamp")` gives the same timestamps in ascending order |
| AttendanceScanned.MarkStampsBelow | utility/attendance_scanned.py:214-215 | exactly the times of the marker's scans of the day among the first n |
| AttendanceScanned.MarkerTimes | utility/attendance_scanned.py:212-215 | the times of the marker's non-signout scans of the day, ascending, all on that day |
| AttendanceScanned.MarkStartSpan | utility/attendance_scanned.py:220 | "-" + `str(t.time())` is the 30 minutes ending at the mark |
| AttendanceScanned.MarkEndSpan | utility/attendance_scanned.py:221 | `str(t.time())` + "-" is the 30 minutes starting at the mark |
| AttendanceScanned.NewMarkedBlock | utility/attendance_scanned.py:219-222 | a pair of marks gives the block whose start span ends at the first and whose end span begins at the second |
| AttendanceScanned.BlocksOfMarks | utility/attendance_scanned.py:216-223 | blocks from pairs (0,1), (2,3), …, one per pair; an odd number of marks raises ValueError |
| AttendanceScanned.MarkedBlocks | utility/attendance_scanned.py:208-223 | the blocks of the marker's scans of the day in time order, two by two |
| Code39.DigitPattern | utility/code39.py:71-80 | each digit's entry is a well-formed pattern |
| Code39.PatternAToI | utility/code39.py:81-89 | each entry for A to I is a well-formed pattern |
| Code39.PatternJToR | utility/code39.py:90-98 | each entry for J to R is a well-formed pattern |
| Code39.PatternSToZ | utility/code39.py:99-106 | each entry for S to Z is a well-formed pattern |
| Code39.SignPattern | utility/code39.py:107-115 | each sign's entry is a well-formed pattern |
| Code39.PatternAsWritten | utility/code39.py:66-115 | every entry the table writes has ten elements, each 0 or 1, three of them wide, the last narrow |
| Code39.Pattern | utility/code39.py:66-115 | the corrected table: the entry of A as the standard draws it, every other entry as written |
| Code39.DecodePattern | utility/code39.py:66-115 | every corrected entry reads back as its own character; the backquote reads back as a space |
| Code39.PatternsDistinct | utility/code39.py:71-115 | two characters share an entry exactly when they are equal or are space and backquote |
| Code39.AsWrittenAReadsAsNine | utility/code39.py:80-81 | as written, A has the entry of 9 and reads back as 9 |
| Code39.TableProperties | utility/code39.py:66-115 | the built map has only well-formed entries, each reading back as its own character |
| Code39.UnionIsTable | utility/code39.py:66-115 | the entries written class by class make up the whole table |
| Code39.MessageFramed | utility/code39.py:20-22 | the message is the upper-cased value between two stars, and upper-casing it again changes nothing |
| Code39.MessageEncodable | utility/code39.py:132-133 | the message can be encoded exactly when each upper-cased character of the value has an entry |
| Code39.FirstUnknown | utility/code39.py:133 | the first character without an entry, where the lookup raises |
| Code39.Patterns | utility/code39.py:132-134 | ten digits per character of the message |
| Code39.PatternsAt | utility/code39.py:133-136 | digit j of character i is digit j of that character's entry |
| Code39.StartStop | utility/code39.py:115 | the message's digits begin and end with the entry of `*` |
| Code39.Encoding | utility/code39.py:128-140 | ten spans per character of the message |
| Code39.EncodingElements | utility/code39.py:131-140 | span k is `elements[digit k][colour k]`, the colour running on unbroken across characters |
| Code39.ElementsDistinct | utility/code39.py:117-122 | the four spans are told apart by width and colour |
| Code39.Alternates | utility/code39.py:131-140 | bars and spaces alternate from a bar, so every character opens with a bar |
| Code39.ReadsBackWidths | utility/code39.py:135-136 | reading the widths of the spans gives back the digits they were drawn from |
| Code39.PatternsDecode | utility/code39.py:128-140 | the digits of a message read back as the message, backquotes as spaces |
| Code39.RoundTrip | utility/code39.py:128-140 | encoding a message and reading the spans back gives the message again, backquotes as spaces |
| Code39.PatternWidth | utility/code39.py:71-115 | one character draws 7 narrow and 3 wide elements |
| Code39.DrawnWidthCounts | utility/code39.py:124-126 | a row is narrow everywhere except at its wide elements |
| Code39.MessageWidth | utility/code39.py:124-126 | a message of n characters draws 7n narrow and 3n wide elements |
| Code39.Code39.constructor | utility/code39.py:13-18 | factor 1: height 30, wide 5, narrow 2; the full table; the four spans |
| Code39.Code39.SetValue | utility/code39.py:20-22 | value stored and message set to the upper-cased `*value*` |
| Code39.Code39.SetFactor | utility/code39.py:24-28 | height 30f, wide 5f, narrow 2f |
| Code39.Code39.CreateSymbolSet | utility/code39.py:66-115 | the map is the corrected table: an entry for exactly its characters |
| Code39.Code39.CreateElements | utility/code39.py:117-122 | the four spans: narrow and wide, space and bar |
| Code39.Code39.GetWidth | utility/code39.py:124-126 | for an encodable message, the formula equals the drawn width of the encoded spans plus one per character plus 10 |
| Code39.Code39.EncodeCharacter | utility/code39.py:134-140 | the inner loop appends the ten spans of the character and ends on black again |
| Code39.Code39.Encode | utility/code39.py:128-140 | succeeds exactly when every character has an entry, and then holds the Encoding; otherwise it raises at the first unknown character, keeping the spans before it |

## Left out

- I/O and the clock.
  - The Django ORM, HTTP views, templates, e-mail and command-line
    handling are not modelled.
  - `datetime.now()` and `date.today()` become the parameters `now` and
    `today`.
  - `Equipment.Store.Levy` reads one `now` for both of its loops. The code
    reads the clock again in every `days_overdue()` call
    (equipment/models.py:340, 443, 450), so an item whose lateness ticks
    over between the two loops is not attached in the code, and the
    penalty may then hold fewer items than the tied ones, or none.
  - Timestamps are whole seconds (see the MarkStartSpan line below).
- Query results come in id order. Django orders ClassMeeting results by
  date, start time, course and section (infobase/models.py:508) and Person
  results by last name, first name and kind (infobase/models.py:313).
  - So `filter(date=date, course=course)[0]` (utility/attendance_scanned.py:93)
    is the lowest-id meeting of the course that day in the model, and the
    earliest-starting one, perhaps of another section, in the code.
  - Sorting people by `__cmp__` is stable, so people with the same last
    and preferred first name keep id order in the model and Meta order in
    the code.
  - Items are ordered by type, HIP number and serial number
    (equipment/models.py:235). So `self.contents.all()` (lines 248, 287,
    301 and 315) runs through a kit's contents in that order in the code
    and in id order in the model. This decides the order of the contents'
    ledger rows, and which contents are already changed when one refuses.
  - Scans are ordered by descending timestamp, then person
    (infobase/models.py:752). `scan_set` of a meeting comes in that order
    before the stable sort by name, and in id order in the model.
- `Item.log_this` is left out: it formats the clock into the log text.
- `Item.__unicode__` is written out as `Equipment.Label`, for the notes of
  a kit's contents. The other display strings are left out, as is the
  text of exception messages. The errors carry the values the
  messages show.
- `Transaction.REPAIR_OUT` and `REPAIR_BACK` are kinds that no modelled
  operation creates. Repair is reached only from outside.
- Equipment.Store.AddToStock: the item's own changed record is returned,
  not stored, as in the code.
  - `add_to_stock` does not save the item itself.
  - On an item that is out, the borrower is kept, because the code never
    clears it.
- The (serial number, HIP number) uniqueness is the database's
  IntegrityError. Save checks it after the kit cascade, so the cascade
  stays persisted.
- Kits inside kits are refused by a store invariant, which the buildkit
  view enforces outside the models. This bounds the kit recursion.
- Penalties are a field the store appends to. The penalty's own `save`
  and the many-to-many table are left out.
- Infobase.Adjacent: meetings are queried by course, section and date
  only, as in the code. A meeting without date or start time is ruled
  out by `Timed`.
  - A start time is a `datetime.time` with valid fields.
- ClassMeeting `is_all_school`, `from_signout_data`, `report_header` and
  the URL helpers are left out: they are ORM queries or display text.
- `PersonManager.instructors` and `not_seen_since`, `id_photo_url`,
  `happy_birthday` and `flagged` are left out: they are database,
  filesystem or clock lookups.
- `get_classes`, `print_list`, `report`, `is_multi_section_class` and
  the `__main__` block of the attendance script are left out: they
  select classes through the ORM, print, or send mail.
- AttendanceScanned.ScanBreakdown: the CSV text of each line is written
  as a `Row`.
  - The row holds the student, the section and the status.
  - The course fields, the date, the class time and the length are the
    same on every line and are left out of the row.
- AttendanceScanned.ClassBlockOf: the windows are built as spans
  directly.
  - FormattedSpan proves that the "%s-%s" text round trip of the code
    gives the same spans.
- Equipment.Store.CheckOut: gives a kit's contents the kit's due time,
  the corrected behaviour of Findings row 1. The code gives each content
  the default due time; `Equipment.CheckOutAsWritten` and
  `EquipmentFacts.KitContentsDueAsWritten` keep that behaviour.
- AttendanceScanned.BlockOf: uses the corrected `BlockLength` of
  Findings row 3. A course without a meeting that day gets a block of
  length 0, where `Block.__init__` raises IndexError;
  `AttendanceScanned.BlockLengthAsWritten` keeps the code's behaviour.
- AttendanceScanned.NewMarkedBlock: builds its block through `BlockOf`,
  so it has the same corrected length.
- AttendanceScanned.BlocksOfMarks: the same, for every pair of marks.
- AttendanceScanned.MarkedBlocks: the same; where the code raises
  IndexError for a course without a meeting, the model returns blocks of
  length 0.
- AttendanceScanned.MarkStartSpan: a mark's timestamp is whole seconds.
  A scan stamped with microseconds prints its time as "HH:MM:SS.ffffff",
  and int() of "SS.ffffff" raises ValueError
  (utility/attendance_scanned.py:57); the model gives the span.
- AttendanceScanned.MarkEndSpan: the same, for the end mark
  (utility/attendance_scanned.py:52).
- AttendanceScanned.MarkedBlocks: the same; with microsecond timestamps
  the code raises ValueError where the model returns the blocks.
- AttendanceScanned.SpanErrors: "-" gives `NoTimes` when parsed. The code
  builds a Timespan with neither `begin` nor `end`, and fails with
  AttributeError only when a window is used.
- AttendanceScanned.TimespanOf: the same refusal of "-" up front.
- Code39.Code39.CreateSymbolSet: the map is built one character class at
  a time, not entry by entry.
  - It holds the corrected entry for `A` (Findings, row 2).
  - PatternAsWritten keeps the table exactly as written.
- Code39.Code39.Encode: `encoded` is a sequence of spans, not a
  concatenated string.
  - `encoded` starts as the empty sequence, where the class attribute
    starts as the integer 0.
- Upper-casing in `setValue` covers ASCII letters only.
- Code39 `generateStyles` and `generateHTML` are left out: they are CSS
  and HTML templating.
- The `BarCode` base class (`utility/barcode.py`) is written out as the
  field values its constructor sets. Its `setName` and its style and HTML
  getters are left out as display code.

## Findings

| source | as written | input that shows it | evidently intended | confidence | as-written member | corrected member |
|---|---|---|---|---|---|---|
| equipment/models.py:300-302 | each content item of a checked-out kit is checked out without a due date, so it resets to the default due time | a kit holding one in-stock item, checked out with a custom due time other than the default: the kit is due at the custom time, the item at the default | contents are due when the kit is, as the save cascade at lines 247-250 states | high (not executed) | EquipmentFacts.KitContentsDueAsWritten | EquipmentFacts.KitContentsDueWithKit |
| utility/code39.py:80-81 | the entry for `A` repeats the entry for `9` (`0011001000`) | the value "A": its bar code reads back as "9" | the standard pattern of `A`, `1000010010` | high (not executed) | Code39.AsWrittenAReadsAsNine | Code39.RoundTrip |
| utility/attendance_scanned.py:92-96 | `filter(...)[0]` on an empty query set raises IndexError, which `except ClassMeeting.DoesNotExist` does not catch | a block for a course with no meeting that day | the length 0 of the `except` clause | high (not executed) | AttendanceScanned.BlockLengthAsWrittenRaises | AttendanceScanned.BlockLengthMeaning |
