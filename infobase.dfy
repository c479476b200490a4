/** The people, phase calendar and class-meeting rules of infobase/models.py:
    the cohort phase lookup, enrolment and leave rules, section letters and
    their ordinals, the ordering of people by name, the stepping from one
    hour of a class to the next (which skips the 12:00 lunch hour), class
    lengths, and the present / absent lists of a class meeting.

    The tables become the fields of one `School` object, indexed by primary
    key in creation order. Dates are day ordinals (module Calendar); "today"
    is always a parameter. */
module Infobase {
  import opened Results
  import opened Calendar

  /** SECTIONS: the section letters, in their sorting order. */
  const Sections := "TRIPODS"

  const StudentKind := 0
  const StaffKind := 1
  const FacultyKind := 2

  type PersonId = nat
  type MeetingId = nat

  datatype Person = Person(
    kind: int,
    firstname: string,
    preferredFirstname: string,
    lastname: string,
    idNumber: string,
    idExpiry: Option<Day>,
    cohort: Option<int>,
    secPhase1: string,
    secPhase2: string,
    secPhase3: string,
    secPhase4: string,
    loaStart: Option<Day>,
    loaEnd: Option<Day>)

  datatype Room = Room(abbreviation: string, fullName: string)

  /** A class meeting: one hour of a course for one section on one day. */
  datatype ClassMeeting = ClassMeeting(
    course: nat, date: Day, timeStart: Time, timeEnd: Option<Time>, section: string, room: nat)

  datatype Scan = Scan(person: PersonId, timestamp: Datetime, classmeeting: Option<MeetingId>, isSignout: bool)

  /** The exceptions the rules raise. */
  datatype Error =
    | UnknownCohort(cohort: Option<int>)    // KeyError: no phase calendar for the cohort
    | NoExpiry                               // TypeError: a date compared with a missing id_expiry
    | NoSection                              // TypeError: SECTIONS.index(None) for a non-student
    | ZeroStep                               // ZeroDivisionError: step / abs(step) with step 0
    | HourOutOfRange(hour: int)              // ValueError: datetime.time with an hour outside 0..23
    | MultipleMeetings(ids: seq<MeetingId>)  // MultipleObjectsReturned from ClassMeeting.objects.get
    | LengthOutOfRange(hours: nat)           // RuntimeError: a class length outside 1..8
    | DuplicateIdNumber(idNumber: string)    // IntegrityError: id_number is a unique column

  // ---------------------------------------------------------------------------
  // Phase calendar

  predicate Increasing(s: seq<Day>) {
    forall i, j | 0 <= i < j < |s| :: s[i] < s[j]
  }

  /** PHASE_END_DATES: the last day of each of the four phases of a cohort;
      only cohorts 1 (September) and 2 (January) have a calendar. */
  function PhaseEndDates(cohort: Option<int>): (r: Option<seq<Day>>)
    ensures r.Some? <==> cohort == Some(1) || cohort == Some(2)
    ensures r.Some? ==> |r.value| == 4 && Increasing(r.value)
  {
    if cohort == Some(1) then
      Some([Ordinal(2009, 11, 6), Ordinal(2010, 1, 15), Ordinal(2010, 3, 26), Ordinal(2010, 6, 18)])
    else if cohort == Some(2) then
      Some([Ordinal(2010, 3, 12), Ordinal(2010, 5, 21), Ordinal(2010, 7, 30), Ordinal(2010, 10, 22)])
    else None
  }

  /** The first phase after phase `p` whose end is not before `date`. */
  function PhaseFrom(ends: seq<Day>, date: Day, p: nat): (r: Option<nat>)
    requires p <= |ends|
    ensures r.Some? ==> p < r.value <= |ends| && date <= ends[r.value - 1]
    ensures r.Some? ==> forall k | p <= k < r.value - 1 :: ends[k] < date
    ensures r.None? <==> forall k | p <= k < |ends| :: ends[k] < date
    decreases |ends| - p
  {
    if p == |ends| then None
    else if date <= ends[p] then Some(p + 1)
    else PhaseFrom(ends, date, p + 1)
  }

  /** phase_for_cohort_and_date: the smallest phase whose end date is on or
      after `date`; None after the last phase; a KeyError for a cohort
      without a calendar. */
  function PhaseFor(cohort: Option<int>, date: Day): (r: Result<Option<nat>, Error>)
    ensures r.Err? <==> PhaseEndDates(cohort).None?
    ensures r.Err? ==> r.error == UnknownCohort(cohort)
    ensures r.Ok? && r.value.Some? ==> 1 <= r.value.value <= 4
  {
    match PhaseEndDates(cohort)
    case None => Err(UnknownCohort(cohort))
    case Some(ends) => Ok(PhaseFrom(ends, date, 0))
  }

  /** The loop of phase_for_cohort_and_date: the phases from last to first,
      each one whose end is not before `date` overwriting the result. */
  method PhaseForCohortAndDate(cohort: Option<int>, date: Day) returns (r: Result<Option<nat>, Error>)
    ensures r == PhaseFor(cohort, date)
  {
    var table := PhaseEndDates(cohort);
    if table.None? {
      return Err(UnknownCohort(cohort));
    }
    var ends := table.value;
    var result: Option<nat> := None;
    var p := |ends|;
    while p > 0
      invariant 0 <= p <= |ends|
      invariant result == PhaseFrom(ends, date, p)
    {
      p := p - 1;
      if date <= ends[p] {
        result := Some(p + 1);
      }
    }
    r := Ok(result);
  }

  // ---------------------------------------------------------------------------
  // People

  predicate IsStudent(p: Person) {
    p.kind == StudentKind
  }

  predicate IsEmployee(p: Person) {
    p.kind == StaffKind || p.kind == FacultyKind
  }

  predicate IsFaculty(p: Person) {
    p.kind == FacultyKind
  }

  /** Person.is_active: with no id_expiry a person is always active (like staff),
      otherwise until the day before the expiry date. */
  predicate IsActive(p: Person, today: Day) {
    p.idExpiry.Some? ==> today < p.idExpiry.value
  }

  /** Person.is_enrolled: a student whose ID expires after `date`. A student
      without an expiry date cannot be compared with `date` (TypeError). */
  function IsEnrolled(p: Person, date: Day): (r: Result<bool, Error>)
    ensures r.Err? <==> IsStudent(p) && p.idExpiry.None?
    ensures r == Ok(true) <==> IsStudent(p) && p.idExpiry.Some? && date < p.idExpiry.value
  {
    if !IsStudent(p) then Ok(false)
    else if p.idExpiry.None? then Err(NoExpiry)
    else Ok(date < p.idExpiry.value)
  }

  /** Person.is_on_leave: `date` lies within the leave of absence, both ends
      included; no leave unless both ends are set. */
  predicate IsOnLeave(p: Person, date: Day) {
    p.loaStart.Some? && p.loaEnd.Some? && p.loaStart.value <= date <= p.loaEnd.value
  }

  function SectionField(p: Person, phase: nat): string
    requires 1 <= phase <= 4
  {
    if phase == 1 then p.secPhase1
    else if phase == 2 then p.secPhase2
    else if phase == 3 then p.secPhase3
    else p.secPhase4
  }

  /** Person.section: None for a non-student; for a student the section
      letter of the phase `date` falls in, or "" when no phase applies. */
  function Section(p: Person, date: Day): (r: Result<Option<string>, Error>)
    ensures !IsStudent(p) ==> r == Ok(None)
    ensures IsStudent(p) ==> (r.Err? <==> PhaseFor(p.cohort, date).Err?)
    ensures IsStudent(p) && r.Ok? ==> (r.value.Some? &&
      match PhaseFor(p.cohort, date).value
      case None => r.value.value == ""
      case Some(k) => r.value.value == SectionField(p, k))
  {
    if !IsStudent(p) then Ok(None)
    else match PhaseFor(p.cohort, date)
      case Err(e) => Err(e)
      case Ok(None) => Ok(Some(""))
      case Ok(Some(k)) => Ok(Some(SectionField(p, k)))
  }

  /** `sub` occurs in `s` at position `j`. */
  predicate OccursAt(s: string, sub: string, j: nat) {
    j + |sub| <= |s| && s[j..j + |sub|] == sub
  }

  /** The lowest index at or after `i` where `sub` occurs in `s`. */
  function FindFrom(s: string, sub: string, i: nat): (r: Option<nat>)
    requires i <= |s|
    ensures r.Some? ==> i <= r.value && OccursAt(s, sub, r.value)
    ensures r.Some? ==> forall j | i <= j < r.value :: !OccursAt(s, sub, j)
    ensures r.None? ==> forall j | i <= j :: !OccursAt(s, sub, j)
    decreases |s| - i
  {
    if i + |sub| > |s| then None
    else if s[i..i + |sub|] == sub then Some(i)
    else
      assert i < |s|;
      FindFrom(s, sub, i + 1)
  }

  /** Python's `str.index`: the first position of `sub` in `s` (0 for the
      empty string); None where Python raises ValueError. */
  function IndexOf(s: string, sub: string): Option<nat> {
    FindFrom(s, sub, 0)
  }

  /** Person.section_ord: the position of the student's section in
      SECTIONS; None for an obsolete letter. A non-student has no section,
      and SECTIONS.index(None) raises TypeError, which is not caught. */
  function SectionOrd(p: Person, date: Day): (r: Result<Option<nat>, Error>)
    ensures r.Ok? ==> Section(p, date).Ok? && Section(p, date).value.Some? &&
                      r.value == IndexOf(Sections, Section(p, date).value.value)
    ensures r == Err(NoSection) <==> !IsStudent(p)
    ensures r.Err? && r.error != NoSection <==> IsStudent(p) && PhaseEndDates(p.cohort).None?
    ensures r.Err? && r.error != NoSection ==> r.error == UnknownCohort(p.cohort)
  {
    match Section(p, date)
    case Err(e) => Err(e)
    case Ok(None) => Err(NoSection)
    case Ok(Some(s)) => Ok(IndexOf(Sections, s))
  }

  /** ClassMeeting.section_ord. */
  function MeetingSectionOrd(m: ClassMeeting): (r: Option<nat>)
    ensures r.Some? ==> OccursAt(Sections, m.section, r.value)
    ensures r.Some? ==> forall j | 0 <= j < r.value :: !OccursAt(Sections, m.section, j)
    ensures r.None? ==> forall j :: !OccursAt(Sections, m.section, j)
  {
    FindFrom(Sections, m.section, 0)
  }

  // ---------------------------------------------------------------------------
  // Ordering people by name

  /** Python's `cmp` on strings: lexicographic by character. */
  function StrCmp(a: string, b: string): (c: int)
    ensures -1 <= c <= 1
    ensures c == 0 <==> a == b
  {
    if a == [] && b == [] then 0
    else if a == [] then -1
    else if b == [] then 1
    else if a[0] < b[0] then -1
    else if a[0] > b[0] then 1
    else StrCmp(a[1..], b[1..])
  }

  /** Person.__cmp__: by last name, then by preferred first name. */
  function PersonCmp(p: Person, q: Person): (c: int)
    ensures -1 <= c <= 1
    ensures c == 0 <==> p.lastname == q.lastname && p.preferredFirstname == q.preferredFirstname
  {
    if p.lastname == q.lastname then StrCmp(p.preferredFirstname, q.preferredFirstname)
    else StrCmp(p.lastname, q.lastname)
  }

  lemma {:induction false} StrCmpAntisymmetric(a: string, b: string)
    ensures StrCmp(a, b) == -StrCmp(b, a)
  {
    if a != [] && b != [] && a[0] == b[0] {
      StrCmpAntisymmetric(a[1..], b[1..]);
    }
  }

  lemma {:induction false} StrCmpTransitive(a: string, b: string, c: string)
    requires StrCmp(a, b) <= 0 && StrCmp(b, c) <= 0
    ensures StrCmp(a, c) <= 0
  {
    if a != [] && b != [] && c != [] && a[0] == b[0] == c[0] {
      StrCmpTransitive(a[1..], b[1..], c[1..]);
    }
  }

  /** __cmp__ is antisymmetric. */
  lemma PersonCmpAntisymmetric(p: Person, q: Person)
    ensures PersonCmp(p, q) == -PersonCmp(q, p)
  {
    StrCmpAntisymmetric(p.lastname, q.lastname);
    StrCmpAntisymmetric(p.preferredFirstname, q.preferredFirstname);
  }

  /** __cmp__ is transitive, so it is a total preorder that `sorted` can use. */
  lemma PersonCmpTransitive(p: Person, q: Person, r: Person)
    requires PersonCmp(p, q) <= 0 && PersonCmp(q, r) <= 0
    ensures PersonCmp(p, r) <= 0
  {
    if p.lastname == q.lastname == r.lastname {
      StrCmpTransitive(p.preferredFirstname, q.preferredFirstname, r.preferredFirstname);
    } else if p.lastname != q.lastname && q.lastname != r.lastname {
      StrCmpTransitive(p.lastname, q.lastname, r.lastname);
      if p.lastname == r.lastname {
        StrCmpAntisymmetric(p.lastname, q.lastname);
      }
    }
  }

  predicate AllIds(people: seq<Person>, s: seq<PersonId>) {
    forall k | 0 <= k < |s| :: s[k] < |people|
  }

  /** `s` lists people in __cmp__ order. */
  predicate SortedByName(people: seq<Person>, s: seq<PersonId>)
    requires AllIds(people, s)
  {
    forall i, j | 0 <= i < j < |s| :: PersonCmp(people[s[i]], people[s[j]]) <= 0
  }

  /** Insert `x` after every element that is not greater than it. */
  function InsertByName(people: seq<Person>, x: PersonId, s: seq<PersonId>): (r: seq<PersonId>)
    requires x < |people| && AllIds(people, s)
    ensures AllIds(people, r) && multiset(r) == multiset(s) + multiset{x}
    ensures SortedByName(people, s) ==> SortedByName(people, r)
  {
    if s == [] then [x]
    else if PersonCmp(people[s[0]], people[x]) > 0 then
      InsertFrontSorted(people, x, s);
      [x] + s
    else
      var t := InsertByName(people, x, s[1..]);
      assert s == [s[0]] + s[1..];
      InsertAfterSorted(people, x, s, t);
      [s[0]] + t
  }

  lemma InsertFrontSorted(people: seq<Person>, x: PersonId, s: seq<PersonId>)
    requires x < |people| && AllIds(people, s) && s != []
    requires PersonCmp(people[s[0]], people[x]) > 0
    ensures SortedByName(people, s) ==> SortedByName(people, [x] + s)
  {
    if SortedByName(people, s) {
      PersonCmpAntisymmetric(people[s[0]], people[x]);
      forall j | 0 <= j < |s| ensures PersonCmp(people[x], people[s[j]]) <= 0 {
        if j > 0 {
          PersonCmpTransitive(people[x], people[s[0]], people[s[j]]);
        }
      }
      var r := [x] + s;
      forall i, j | 0 <= i < j < |r| ensures PersonCmp(people[r[i]], people[r[j]]) <= 0 {
        if i > 0 {
          assert r[i] == s[i - 1] && r[j] == s[j - 1];
        }
      }
    }
  }

  /** Every element of `t` is `x` or an element of `s[1..]`, so it is not
      less than `s[0]` when `s` is sorted and `x` is not less than `s[0]`. */
  lemma InsertAfterSorted(people: seq<Person>, x: PersonId, s: seq<PersonId>, t: seq<PersonId>)
    requires x < |people| && AllIds(people, s) && AllIds(people, t) && s != []
    requires PersonCmp(people[s[0]], people[x]) <= 0
    requires multiset(t) == multiset(s[1..]) + multiset{x}
    requires SortedByName(people, s[1..]) ==> SortedByName(people, t)
    ensures SortedByName(people, s) ==> SortedByName(people, [s[0]] + t)
  {
    if SortedByName(people, s) {
      SortedTail(people, s);
      forall k | 0 <= k < |t| ensures PersonCmp(people[s[0]], people[t[k]]) <= 0 {
        assert t[k] in multiset(t);
        if t[k] != x {
          assert t[k] in multiset(s[1..]);
          var m :| 0 <= m < |s| - 1 && s[1..][m] == t[k];
          assert s[m + 1] == t[k];
        }
      }
      SortedCons(people, s[0], t);
    }
  }

  /** Dropping the first of a name-sorted list keeps it sorted. */
  lemma SortedTail(people: seq<Person>, s: seq<PersonId>)
    requires AllIds(people, s) && SortedByName(people, s) && s != []
    ensures AllIds(people, s[1..]) && SortedByName(people, s[1..])
  {
    var rest := s[1..];
    forall i, j | 0 <= i < j < |rest| ensures PersonCmp(people[rest[i]], people[rest[j]]) <= 0 {
      assert rest[i] == s[i + 1] && rest[j] == s[j + 1];
    }
  }

  /** A name not greater than any in a sorted list can go in front of it. */
  lemma SortedCons(people: seq<Person>, x: PersonId, a: seq<PersonId>)
    requires x < |people| && AllIds(people, a) && SortedByName(people, a)
    requires forall k | 0 <= k < |a| :: PersonCmp(people[x], people[a[k]]) <= 0
    ensures AllIds(people, [x] + a) && SortedByName(people, [x] + a)
  {
    var r := [x] + a;
    forall i, j | 0 <= i < j < |r| ensures PersonCmp(people[r[i]], people[r[j]]) <= 0 {
      assert r[j] == a[j - 1];
      if i > 0 {
        assert r[i] == a[i - 1];
      }
    }
  }

  /** Python's `sorted` with Person.__cmp__, as a stable insertion sort:
      the result is in name order and holds the same ids. */
  function SortByName(people: seq<Person>, s: seq<PersonId>): (r: seq<PersonId>)
    requires AllIds(people, s)
    ensures AllIds(people, r) && SortedByName(people, r)
    ensures multiset(r) == multiset(s)
  {
    if s == [] then []
    else
      var init, last := s[..|s| - 1], s[|s| - 1];
      var sorted := SortByName(people, init);
      var r := InsertByName(people, last, sorted);
      SortStep(s, init, last, sorted, r);
      r
  }

  /** Inserting the last id into the sorted rest gives the ids of the whole list. */
  lemma SortStep(s: seq<PersonId>, init: seq<PersonId>, last: PersonId, sorted: seq<PersonId>, r: seq<PersonId>)
    requires s != [] && init == s[..|s| - 1] && last == s[|s| - 1]
    requires multiset(sorted) == multiset(init) && multiset(r) == multiset(sorted) + multiset{last}
    ensures multiset(r) == multiset(s)
  {
    assert s == init + [last];
  }

  // ---------------------------------------------------------------------------
  // Enrolment and sections (PersonManager)

  /** The enrolment rule of PersonManager.enrolled: a student whose ID
      expires after `date`, or on or after it when `inclusive`. */
  predicate EnrolledOn(p: Person, date: Day, inclusive: bool) {
    IsStudent(p) && p.idExpiry.Some? &&
    (if inclusive then date <= p.idExpiry.value else date < p.idExpiry.value)
  }

  function EnrolledBelow(people: seq<Person>, date: Day, inclusive: bool, n: nat): (ids: seq<PersonId>)
    requires n <= |people|
    ensures forall k | 0 <= k < |ids| :: ids[k] < n && EnrolledOn(people[ids[k]], date, inclusive)
    ensures forall j | 0 <= j < n && EnrolledOn(people[j], date, inclusive) :: j in ids
    ensures forall a, b | 0 <= a < b < |ids| :: ids[a] < ids[b]
  {
    if n == 0 then []
    else
      var before := EnrolledBelow(people, date, inclusive, n - 1);
      var ids := before + (if EnrolledOn(people[n - 1], date, inclusive) then [n - 1] else []);
      assert forall k | 0 <= k < |before| :: ids[k] == before[k];
      assert forall k | |before| <= k < |ids| :: ids[k] == n - 1;
      ids
  }

  /** PersonManager.enrolled: the enrolled students, in id order. */
  function Enrolled(people: seq<Person>, date: Day, inclusive: bool): (ids: seq<PersonId>)
    ensures AllIds(people, ids)
    ensures forall j | 0 <= j < |people| :: j in ids <==> EnrolledOn(people[j], date, inclusive)
    ensures forall a, b | 0 <= a < b < |ids| :: ids[a] < ids[b]
  {
    EnrolledBelow(people, date, inclusive, |people|)
  }

  /** The students of `ids` whose section on `date` is `letter`, in the
      order of `ids`; the first section lookup that raises stops the filter. */
  function SectionFilter(people: seq<Person>, ids: seq<PersonId>, letter: string, date: Day): (r: Result<seq<PersonId>, Error>)
    requires AllIds(people, ids)
    ensures r.Ok? ==> AllIds(people, r.value)
    ensures r.Ok? ==> forall j | 0 <= j < |people| :: j in r.value <==> j in ids && Section(people[j], date) == Ok(Some(letter))
    ensures r.Ok? <==> forall k | 0 <= k < |ids| :: Section(people[ids[k]], date).Ok?
    ensures r.Ok? ==> |r.value| <= |ids|
    decreases |ids|
  {
    if ids == [] then Ok([])
    else
      var last := ids[|ids| - 1];
      assert ids == ids[..|ids| - 1] + [last];
      match SectionFilter(people, ids[..|ids| - 1], letter, date)
      case Err(e) => Err(e)
      case Ok(before) =>
        match Section(people[last], date)
        case Err(e) => Err(e)
        case Ok(s) => Ok(if s == Some(letter) then before + [last] else before)
  }

  /** PersonManager.section: the students enrolled on `date` whose section
      that day is `letter`, sorted by name. */
  function SectionMembers(people: seq<Person>, letter: string, date: Day, inclusive: bool): (r: Result<seq<PersonId>, Error>)
    ensures r.Ok? ==> AllIds(people, r.value) && SortedByName(people, r.value)
    ensures r.Ok? ==> forall j | 0 <= j < |people| ::
      j in r.value <==> EnrolledOn(people[j], date, inclusive) && Section(people[j], date) == Ok(Some(letter))
  {
    match SectionFilter(people, Enrolled(people, date, inclusive), letter, date)
    case Err(e) => Err(e)
    case Ok(s) =>
      var r := SortByName(people, s);
      assert forall j :: j in r <==> j in s by {
        forall j ensures j in r <==> j in s {
          assert j in r <==> j in multiset(r);
          assert j in s <==> j in multiset(s);
        }
      }
      Ok(r)
  }

  // ---------------------------------------------------------------------------
  // Saving people and rooms

  /** Person.save, first step: an empty preferred first name becomes the first name. */
  function WithPreferredName(p: Person): Person {
    if p.preferredFirstname == "" then p.(preferredFirstname := p.firstname) else p
  }

  /** The defaults Person.save applies: the preferred first name, and for a
      student without an expiry date the end of the cohort's fourth phase
      plus seven days; a KeyError for a cohort without a calendar. */
  function PersonDefaults(p: Person): (r: Result<Person, Error>)
    ensures r.Err? <==> IsStudent(p) && p.idExpiry.None? && !(p.cohort == Some(1) || p.cohort == Some(2))
    ensures r.Err? ==> r.error == UnknownCohort(p.cohort)
    ensures r.Ok? ==> r.value.preferredFirstname == if p.preferredFirstname == "" then p.firstname else p.preferredFirstname
    ensures r.Ok? && p.idExpiry.Some? ==> r.value.idExpiry == p.idExpiry
    ensures r.Ok? && IsStudent(p) ==> r.value.idExpiry.Some?
    ensures r.Ok? && !IsStudent(p) ==> r.value.idExpiry == p.idExpiry
    ensures r.Ok? ==> r.value.(preferredFirstname := p.preferredFirstname, idExpiry := p.idExpiry) == p
  {
    var q := WithPreferredName(p);
    if IsStudent(q) && q.idExpiry.None? then
      match PhaseEndDates(q.cohort)
      case None => Err(UnknownCohort(q.cohort))
      case Some(ends) => Ok(q.(idExpiry := Some(ends[3] + 7)))
    else Ok(q)
  }

  /** Room.save: an empty full name becomes the abbreviation. */
  function RoomDefaults(r: Room): (r': Room)
    ensures r'.abbreviation == r.abbreviation
    ensures r.fullName != "" ==> r'.fullName == r.fullName
    ensures r.fullName == "" ==> r'.fullName == r.abbreviation
  {
    if r.abbreviation != "" && r.fullName == "" then r.(fullName := r.abbreviation) else r
  }

  // ---------------------------------------------------------------------------
  // Class meetings

  /** The hour adjacent_hour_classmeeting looks at: one hour on, or back,
      skipping 12:00. */
  function AdjacentHour(hour: int, step: int): int
    requires step == 1 || step == -1
  {
    if hour + step == 12 then hour + 2 * step else hour + step
  }

  /** The meetings of the same course and section on the same day as `m`
      that start at `start`, among the first `n`, in id order. */
  function MeetingsAtBelow(meetings: seq<ClassMeeting>, m: ClassMeeting, start: Time, n: nat): seq<MeetingId>
    requires n <= |meetings|
  {
    if n == 0 then []
    else MeetingsAtBelow(meetings, m, start, n - 1) +
         (if SameClass(meetings[n - 1], m) && meetings[n - 1].timeStart == start then [n - 1] else [])
  }

  /** The filter keeps exactly the meetings of the class at `start`, each once, in id order. */
  lemma {:induction false} MeetingsAtBelowSpec(meetings: seq<ClassMeeting>, m: ClassMeeting, start: Time, n: nat)
    requires n <= |meetings|
    ensures var ids := MeetingsAtBelow(meetings, m, start, n);
      && (forall k | 0 <= k < |ids| :: ids[k] < n && SameClass(meetings[ids[k]], m) && meetings[ids[k]].timeStart == start)
      && (forall j | 0 <= j < n && SameClass(meetings[j], m) && meetings[j].timeStart == start :: j in ids)
      && (forall a, b | 0 <= a < b < |ids| :: ids[a] < ids[b])
  {
    if n > 0 {
      MeetingsAtBelowSpec(meetings, m, start, n - 1);
      var before := MeetingsAtBelow(meetings, m, start, n - 1);
      var ids := MeetingsAtBelow(meetings, m, start, n);
      assert forall k | 0 <= k < |before| :: ids[k] == before[k];
      assert forall k | |before| <= k < |ids| :: ids[k] == n - 1;
    }
  }

  predicate SameClass(a: ClassMeeting, b: ClassMeeting) {
    a.section == b.section && a.course == b.course && a.date == b.date
  }

  /** The direction of a step: 1 forward, -1 back. */
  function Direction(step: int): (s: int)
    ensures s == 1 || s == -1
    ensures s == 1 <==> step > 0
  {
    if step > 0 then 1 else -1
  }

  /** The meeting adjacent_hour_classmeeting looks for, one hour on (s = 1) or back (s = -1). */
  predicate AtAdjacentHour(meetings: seq<ClassMeeting>, m: MeetingId, s: int, k: MeetingId)
    requires m < |meetings| && k < |meetings| && (s == 1 || s == -1)
  {
    SameClass(meetings[k], meetings[m]) &&
    meetings[k].timeStart == Time(AdjacentHour(meetings[m].timeStart.hour, s), meetings[m].timeStart.minute, 0)
  }

  /** ClassMeeting.adjacent_hour_classmeeting of meeting `m`: the single
      meeting of the same class one hour on (step > 0) or back (step < 0),
      skipping 12:00, at the same minute; None when there is none. */
  function Adjacent(meetings: seq<ClassMeeting>, m: MeetingId, step: int): (r: Result<Option<MeetingId>, Error>)
    requires m < |meetings|
    ensures step == 0 <==> r == Err(ZeroStep)
    ensures step != 0 ==>
      ((r.Err? && r.error.HourOutOfRange?) <==> !(0 <= AdjacentHour(meetings[m].timeStart.hour, Direction(step)) < 24))
    ensures step != 0 && 0 <= AdjacentHour(meetings[m].timeStart.hour, Direction(step)) < 24 ==>
      r == MeetingAtHour(meetings, m, Direction(step),
                         Time(AdjacentHour(meetings[m].timeStart.hour, Direction(step)), meetings[m].timeStart.minute, 0))
    ensures r.Ok? && r.value.Some? ==> r.value.value < |meetings| && AtAdjacentHour(meetings, m, Direction(step), r.value.value)
    ensures r.Ok? && r.value.Some? ==>
      forall j | 0 <= j < |meetings| && j != r.value.value :: !AtAdjacentHour(meetings, m, Direction(step), j)
    ensures r.Ok? && r.value.None? ==> forall j | 0 <= j < |meetings| :: !AtAdjacentHour(meetings, m, Direction(step), j)
  {
    if step == 0 then Err(ZeroStep)
    else
      var s := Direction(step);
      var here := meetings[m];
      var hour := AdjacentHour(here.timeStart.hour, s);
      if !(0 <= hour < 24) then Err(HourOutOfRange(hour))
      else MeetingAtHour(meetings, m, s, Time(hour, here.timeStart.minute, 0))
  }

  /** The lookup of adjacent_hour_classmeeting once the hour is known:
      the meetings of the class at `start`, which must be at most one. */
  function MeetingAtHour(meetings: seq<ClassMeeting>, m: MeetingId, s: int, start: Time): (r: Result<Option<MeetingId>, Error>)
    requires m < |meetings| && (s == 1 || s == -1)
    requires start == Time(AdjacentHour(meetings[m].timeStart.hour, s), meetings[m].timeStart.minute, 0)
    ensures r.Err? ==> r.error.MultipleMeetings?
    ensures r.Ok? && r.value.Some? ==> r.value.value < |meetings| && AtAdjacentHour(meetings, m, s, r.value.value)
    ensures r.Ok? && r.value.Some? ==>
      forall j | 0 <= j < |meetings| && j != r.value.value :: !AtAdjacentHour(meetings, m, s, j)
    ensures r.Ok? && r.value.None? ==> forall j | 0 <= j < |meetings| :: !AtAdjacentHour(meetings, m, s, j)
  {
    var ids := MeetingsAtBelow(meetings, meetings[m], start, |meetings|);
    if |ids| == 0 then
      NoMeetingAt(meetings, m, s, start, ids);
      Ok(None)
    else if |ids| == 1 then
      OneMeetingAt(meetings, m, s, start, ids);
      Ok(Some(ids[0]))
    else Err(MultipleMeetings(ids))
  }

  lemma NoMeetingAt(meetings: seq<ClassMeeting>, m: MeetingId, s: int, start: Time, ids: seq<MeetingId>)
    requires m < |meetings| && (s == 1 || s == -1)
    requires start == Time(AdjacentHour(meetings[m].timeStart.hour, s), meetings[m].timeStart.minute, 0)
    requires ids == MeetingsAtBelow(meetings, meetings[m], start, |meetings|) && |ids| == 0
    ensures forall j | 0 <= j < |meetings| :: !AtAdjacentHour(meetings, m, s, j)
  {
    MeetingsAtBelowSpec(meetings, meetings[m], start, |meetings|);
    forall j | 0 <= j < |meetings| ensures !AtAdjacentHour(meetings, m, s, j) {
      assert !(SameClass(meetings[j], meetings[m]) && meetings[j].timeStart == start);
    }
  }

  lemma OneMeetingAt(meetings: seq<ClassMeeting>, m: MeetingId, s: int, start: Time, ids: seq<MeetingId>)
    requires m < |meetings| && (s == 1 || s == -1)
    requires start == Time(AdjacentHour(meetings[m].timeStart.hour, s), meetings[m].timeStart.minute, 0)
    requires ids == MeetingsAtBelow(meetings, meetings[m], start, |meetings|) && |ids| == 1
    ensures ids[0] < |meetings| && AtAdjacentHour(meetings, m, s, ids[0])
    ensures forall j | 0 <= j < |meetings| && j != ids[0] :: !AtAdjacentHour(meetings, m, s, j)
  {
    MeetingsAtBelowSpec(meetings, meetings[m], start, |meetings|);
    forall j | 0 <= j < |meetings| && AtAdjacentHour(meetings, m, s, j) ensures j == ids[0] {
      assert j in ids;
    }
  }

  predicate Timed(meetings: seq<ClassMeeting>) {
    forall j | 0 <= j < |meetings| :: ValidTime(meetings[j].timeStart)
  }

  /** ClassMeeting.first_hour_classmeeting: follow previous hours back to
      the first hour of the class. */
  function FirstHourOf(meetings: seq<ClassMeeting>, m: MeetingId): (r: Result<MeetingId, Error>)
    requires m < |meetings| && Timed(meetings)
    ensures r.Ok? ==> r.value < |meetings| && Adjacent(meetings, r.value, -1) == Ok(None)
    ensures r.Ok? ==> SameClass(meetings[r.value], meetings[m]) &&
                      meetings[r.value].timeStart.hour <= meetings[m].timeStart.hour
    decreases meetings[m].timeStart.hour
  {
    match Adjacent(meetings, m, -1)
    case Err(e) => Err(e)
    case Ok(None) => Ok(m)
    case Ok(Some(j)) => FirstHourOf(meetings, j)
  }

  /** The number of meetings in the chain of next hours that starts at `m`. */
  function ChainLength(meetings: seq<ClassMeeting>, m: MeetingId): (r: Result<nat, Error>)
    requires m < |meetings| && Timed(meetings)
    ensures r.Ok? ==> 1 <= r.value <= 24 - meetings[m].timeStart.hour
    decreases 24 - meetings[m].timeStart.hour
  {
    match Adjacent(meetings, m, 1)
    case Err(e) => Err(e)
    case Ok(None) => Ok(1)
    case Ok(Some(j)) =>
      match ChainLength(meetings, j)
      case Err(e) => Err(e)
      case Ok(n) => Ok(n + 1)
  }

  /** A chain length with `k` more meetings in front of it. */
  function Longer(r: Result<nat, Error>, k: nat): Result<nat, Error> {
    match r
    case Err(e) => Err(e)
    case Ok(n) => Ok(n + k)
  }

  lemma LongerAdds(r: Result<nat, Error>, a: nat, b: nat)
    ensures Longer(Longer(r, a), b) == Longer(r, a + b)
  {
  }

  /** The loop of number_of_hours at meeting `m` of a chain whose length is
      `total`, `k` meetings after its start: an error from the next-hour
      lookup is the chain's error ... */
  lemma ChainFails(meetings: seq<ClassMeeting>, total: Result<nat, Error>, m: MeetingId, k: nat)
    requires m < |meetings| && Timed(meetings) && Adjacent(meetings, m, 1).Err?
    requires total == Longer(ChainLength(meetings, m), k)
    ensures total == Err(Adjacent(meetings, m, 1).error)
  {
    ChainStep(meetings, m);
  }

  /** ... no next hour ends the chain with `m` ... */
  lemma ChainEnds(meetings: seq<ClassMeeting>, total: Result<nat, Error>, m: MeetingId, k: nat)
    requires m < |meetings| && Timed(meetings) && Adjacent(meetings, m, 1) == Ok(None)
    requires total == Longer(ChainLength(meetings, m), k)
    ensures total == Ok(k + 1)
  {
    ChainStep(meetings, m);
  }

  /** ... and a next hour `j` starts later and carries the rest of the chain. */
  lemma ChainGoesOn(meetings: seq<ClassMeeting>, total: Result<nat, Error>, m: MeetingId, k: nat, j: MeetingId)
    requires m < |meetings| && Timed(meetings) && Adjacent(meetings, m, 1) == Ok(Some(j))
    requires total == Longer(ChainLength(meetings, m), k)
    ensures j < |meetings| && meetings[m].timeStart.hour < meetings[j].timeStart.hour
    ensures total == Longer(ChainLength(meetings, j), k + 1)
  {
    ChainStep(meetings, m);
    LongerAdds(ChainLength(meetings, j), 1, k);
  }

  /** One step along the chain of next hours: the next meeting starts at a later hour. */
  lemma ChainStep(meetings: seq<ClassMeeting>, m: MeetingId)
    requires m < |meetings| && Timed(meetings)
    ensures match Adjacent(meetings, m, 1)
      case Err(e) => ChainLength(meetings, m) == Err(e)
      case Ok(None) => ChainLength(meetings, m) == Ok(1)
      case Ok(Some(j)) => meetings[m].timeStart.hour < meetings[j].timeStart.hour &&
                          ChainLength(meetings, m) == Longer(ChainLength(meetings, j), 1)
  {
  }

  /** ClassMeeting.number_of_hours: the length of the chain that runs
      forward from the class's first hour; a RuntimeError outside 1..8. */
  function NumberOfHoursOf(meetings: seq<ClassMeeting>, m: MeetingId): (r: Result<nat, Error>)
    requires m < |meetings| && Timed(meetings)
    ensures r.Ok? ==> 1 <= r.value <= 8
    ensures r.Ok? ==> FirstHourOf(meetings, m).Ok? && ChainLength(meetings, FirstHourOf(meetings, m).value) == r
  {
    match FirstHourOf(meetings, m)
    case Err(e) => Err(e)
    case Ok(first) =>
      match ChainLength(meetings, first)
      case Err(e) => Err(e)
      case Ok(n) => if 0 < n < 9 then Ok(n) else Err(LengthOutOfRange(n))
  }

  /** datetime_start. */
  function DatetimeStart(m: ClassMeeting): (t: Datetime)
    ensures ValidTime(m.timeStart) ==> DayOf(t) == m.date && TimeOf(t) == m.timeStart
  {
    if ValidTime(m.timeStart) then
      CombineSplits(m.date, m.timeStart);
      Combine(m.date, m.timeStart)
    else Combine(m.date, m.timeStart)
  }

  /** A missing end time, or midnight (a false time value), is guessed as
      one hour after the start, at the start's minute. */
  predicate NeedsEndGuess(m: ClassMeeting) {
    m.timeEnd.None? || m.timeEnd == Some(Time(0, 0, 0))
  }

  /** The end time datetime_end uses; the guess fails for a class starting at 23:00 or later. */
  function EndTimeOf(m: ClassMeeting): (r: Result<Time, Error>)
    ensures !NeedsEndGuess(m) ==> r == Ok(m.timeEnd.value)
    ensures NeedsEndGuess(m) && r.Ok? ==> r.value == Time(m.timeStart.hour + 1, m.timeStart.minute, 0)
    ensures NeedsEndGuess(m) ==> (r.Err? <==> !(0 <= m.timeStart.hour + 1 < 24))
  {
    if !NeedsEndGuess(m) then Ok(m.timeEnd.value)
    else if 0 <= m.timeStart.hour + 1 < 24 then Ok(Time(m.timeStart.hour + 1, m.timeStart.minute, 0))
    else Err(HourOutOfRange(m.timeStart.hour + 1))
  }

  // ---------------------------------------------------------------------------
  // Attendance

  /** The people of the scans tied to meeting `m`, in scan order. scan_set
      goes through Scan's first manager, admin_objects, so signout scans
      tied to the meeting count as well. */
  function ScannedPersons(scans: seq<Scan>, m: MeetingId): (ps: seq<PersonId>)
    ensures forall k | 0 <= k < |ps| :: exists j | 0 <= j < |scans| :: ps[k] == scans[j].person
    ensures forall j | 0 <= j < |scans| && scans[j].classmeeting == Some(m) :: scans[j].person in ps
    ensures forall p :: p in ps <==> exists j | 0 <= j < |scans| :: scans[j].classmeeting == Some(m) && scans[j].person == p
  {
    if scans == [] then []
    else
      var before := ScannedPersons(scans[..|scans| - 1], m);
      var last := scans[|scans| - 1];
      assert forall j | 0 <= j < |scans| - 1 :: scans[..|scans| - 1][j] == scans[j];
      before + (if last.classmeeting == Some(m) then [last.person] else [])
  }

  /** The first occurrence of each element, in order. */
  function Dedup(s: seq<PersonId>): (r: seq<PersonId>)
    ensures forall x :: x in r <==> x in s
    ensures forall i, j | 0 <= i < j < |r| :: r[i] != r[j]
    ensures |r| <= |s|
  {
    if s == [] then []
    else
      var d := Dedup(s[..|s| - 1]);
      var x := s[|s| - 1];
      assert forall y :: y in s <==> y in s[..|s| - 1] || y == x by {
        assert s == s[..|s| - 1] + [x];
      }
      if x in d then d else d + [x]
  }

  /** The elements of `expected` that are not in `present`, in order. */
  function Absent(expected: seq<PersonId>, present: seq<PersonId>): (r: seq<PersonId>)
    ensures forall x :: x in r <==> x in expected && x !in present
    ensures |r| <= |expected|
  {
    if expected == [] then []
    else (if expected[0] in present then [] else [expected[0]]) + Absent(expected[1..], present)
  }

  /** ClassMeeting.attendance of meeting `m` as a function of the stored
      state: (present, absent), or the exception of the section lookup. */
  function AttendanceOf(people: seq<Person>, meetings: seq<ClassMeeting>, scans: seq<Scan>, m: MeetingId)
    : Result<(seq<PersonId>, seq<PersonId>), Error>
    requires m < |meetings| && forall j | 0 <= j < |scans| :: scans[j].person < |people|
  {
    match SectionMembers(people, meetings[m].section, meetings[m].date, false)
    case Err(e) => Err(e)
    case Ok(expected) =>
      var present := Dedup(SortByName(people, ScannedPersons(scans, m)));
      Ok((present, Absent(expected, present)))
  }

  // ---------------------------------------------------------------------------
  // The store

  /** The unique constraint on id_number: no two stored people share one
      (a blank id number is a value like any other). */
  predicate UniqueIdNumbers(people: seq<Person>) {
    forall i, j | 0 <= i < j < |people| :: people[i].idNumber != people[j].idNumber
  }

  /** Some stored person other than the one being saved over has `idNumber`. */
  predicate IdNumberTaken(people: seq<Person>, pk: Option<PersonId>, idNumber: string) {
    exists j | 0 <= j < |people| :: pk != Some(j) && people[j].idNumber == idNumber
  }

  /** Saving a record whose id number no other person has keeps the
      id numbers unique, as an update or as an append. */
  lemma {:induction false} SaveKeepsUnique(people: seq<Person>, pk: Option<PersonId>, p: Person)
    requires UniqueIdNumbers(people) && (pk.Some? ==> pk.value < |people|)
    requires !IdNumberTaken(people, pk, p.idNumber)
    ensures pk.Some? ==> UniqueIdNumbers(people[pk.value := p])
    ensures pk.None? ==> UniqueIdNumbers(people + [p])
  {
    if pk.Some? {
      var after := people[pk.value := p];
      forall i, j | 0 <= i < j < |after| ensures after[i].idNumber != after[j].idNumber {
        if i == pk.value {
          assert !(pk != Some(j) && people[j].idNumber == p.idNumber);
        } else if j == pk.value {
          assert !(pk != Some(i) && people[i].idNumber == p.idNumber);
        }
      }
    } else {
      var after := people + [p];
      forall i, j | 0 <= i < j < |after| ensures after[i].idNumber != after[j].idNumber {
        if j == |people| {
          assert !(pk != Some(i) && people[i].idNumber == p.idNumber);
        }
      }
    }
  }

  class School {
    var people: seq<Person>
    var rooms: seq<Room>
    var meetings: seq<ClassMeeting>
    var scans: seq<Scan>

    /** Every scan names a stored person, every meeting starts at a valid
        time and no two people share an id number. */
    ghost predicate Valid()
      reads this
    {
      && Timed(meetings)
      && (forall j | 0 <= j < |scans| :: scans[j].person < |people|)
      && UniqueIdNumbers(people)
    }

    constructor ()
      ensures Valid()
      ensures people == [] && rooms == [] && meetings == [] && scans == []
    {
      people, rooms, meetings, scans := [], [], [], [];
    }

    /** Person.save of record `p`, as a new person (`pk` None) or over
        person `pk`. The returned record carries the defaults that were
        filled in, even when the save raised. */
    method SavePerson(pk: Option<PersonId>, p: Person) returns (r: Result<PersonId, Error>, updated: Person)
      requires Valid() && (pk.Some? ==> pk.value < |people|)
      modifies this`people
      ensures Valid()
      ensures PersonDefaults(p).Ok? ==> updated == PersonDefaults(p).value
      ensures PersonDefaults(p).Err? ==> updated == WithPreferredName(p) && r == Err(PersonDefaults(p).error) && people == old(people)
      ensures PersonDefaults(p).Ok? && IdNumberTaken(old(people), pk, p.idNumber) ==>
        r == Err(DuplicateIdNumber(p.idNumber)) && people == old(people)
      ensures PersonDefaults(p).Ok? && !IdNumberTaken(old(people), pk, p.idNumber) ==>
        if pk.Some? then r == Ok(pk.value) && people == old(people)[pk.value := updated]
        else r == Ok(|old(people)|) && people == old(people) + [updated]
    {
      updated := p;
      if updated.preferredFirstname == "" {
        updated := updated.(preferredFirstname := updated.firstname);
      }
      if updated.kind == StudentKind && updated.idExpiry.None? {
        var table := PhaseEndDates(updated.cohort);
        if table.None? {
          return Err(UnknownCohort(updated.cohort)), updated;
        }
        updated := updated.(idExpiry := Some(table.value[3] + 7));
      }
      if IdNumberTaken(people, pk, updated.idNumber) {
        return Err(DuplicateIdNumber(updated.idNumber)), updated;
      }
      SaveKeepsUnique(people, pk, updated);
      if pk.Some? {
        people := people[pk.value := updated];
        r := Ok(pk.value);
      } else {
        r := Ok(|people|);
        people := people + [updated];
      }
    }

    /** Room.save of record `room`, as a new room or over room `pk`. */
    method SaveRoom(pk: Option<nat>, room: Room) returns (id: nat, updated: Room)
      requires pk.Some? ==> pk.value < |rooms|
      modifies this`rooms
      ensures updated == RoomDefaults(room)
      ensures if pk.Some? then id == pk.value && rooms == old(rooms)[id := updated]
              else id == |old(rooms)| && rooms == old(rooms) + [updated]
    {
      updated := room;
      if updated.abbreviation != "" && updated.fullName == "" {
        updated := updated.(fullName := updated.abbreviation);
      }
      if pk.Some? {
        id := pk.value;
        rooms := rooms[id := updated];
      } else {
        id := |rooms|;
        rooms := rooms + [updated];
      }
    }

    /** ClassMeeting.first_hour_classmeeting: step back while there is a previous hour. */
    method FirstHourMeeting(m: MeetingId) returns (r: Result<MeetingId, Error>)
      requires Valid() && m < |meetings|
      ensures r == FirstHourOf(meetings, m)
    {
      var theclass: MeetingId := m;
      while true
        invariant theclass < |meetings|
        invariant FirstHourOf(meetings, theclass) == FirstHourOf(meetings, m)
        decreases meetings[theclass].timeStart.hour
      {
        var previous := Adjacent(meetings, theclass, -1);
        if previous.Err? {
          return Err(previous.error);
        }
        if previous.value.None? {
          return Ok(theclass);
        }
        theclass := previous.value.value;
      }
    }

    /** ClassMeeting.number_of_hours: count the meetings from the first hour
        onwards while there is a next hour. */
    method NumberOfHours(m: MeetingId) returns (r: Result<nat, Error>)
      requires Valid() && m < |meetings|
      ensures r == NumberOfHoursOf(meetings, m)
    {
      var first := FirstHourMeeting(m);
      if first.Err? {
        return Err(first.error);
      }
      var classLength: nat := 0;
      var classContinues: MeetingId := first.value;
      while true
        invariant classContinues < |meetings|
        invariant ChainLength(meetings, first.value) == Longer(ChainLength(meetings, classContinues), classLength)
        decreases 24 - meetings[classContinues].timeStart.hour
      {
        classLength := classLength + 1;
        var next := Adjacent(meetings, classContinues, 1);
        if next.Err? {
          ChainFails(meetings, ChainLength(meetings, first.value), classContinues, classLength - 1);
          return Err(next.error);
        }
        if next.value.None? {
          ChainEnds(meetings, ChainLength(meetings, first.value), classContinues, classLength - 1);
          break;
        }
        ChainGoesOn(meetings, ChainLength(meetings, first.value), classContinues, classLength - 1, next.value.value);
        classContinues := next.value.value;
      }
      if !(0 < classLength < 9) {
        return Err(LengthOutOfRange(classLength));
      }
      r := Ok(classLength);
    }

    /** ClassMeeting.datetime_end: the end timestamp of meeting `m`. When the
        end time is guessed, the guess is written into the stored meeting,
        where the code only sets it on the instance and never saves it.
        This changes nothing observable here: the guess is idempotent (a
        guessed end is never guessed again) and no modelled query reads
        the end time. */
    method DatetimeEnd(m: MeetingId) returns (r: Result<Datetime, Error>)
      requires m < |meetings|
      modifies this`meetings
      ensures var e := EndTimeOf(old(meetings)[m]);
        && (e.Ok? ==> r == Ok(Combine(old(meetings)[m].date, e.value)))
        && (e.Err? ==> r == Err(e.error))
        && meetings == (if e.Ok? && NeedsEndGuess(old(meetings)[m]) then old(meetings)[m := old(meetings)[m].(timeEnd := Some(e.value))]
                        else old(meetings))
    {
      var meeting := meetings[m];
      if meeting.timeEnd.None? || meeting.timeEnd == Some(Time(0, 0, 0)) {
        var hour := meeting.timeStart.hour + 1;
        if !(0 <= hour < 24) {
          return Err(HourOutOfRange(hour));
        }
        meeting := meeting.(timeEnd := Some(Time(hour, meeting.timeStart.minute, 0)));
        meetings := meetings[m := meeting];
      }
      r := Ok(Combine(meeting.date, meeting.timeEnd.value));
    }

    /** The loop of ClassMeeting.attendance that keeps the first copy of each person. */
    static method DedupLoop(raw: seq<PersonId>) returns (present: seq<PersonId>)
      ensures present == Dedup(raw)
    {
      present := [];
      var k := 0;
      while k < |raw|
        invariant 0 <= k <= |raw|
        invariant present == Dedup(raw[..k])
      {
        assert raw[..k + 1][..k] == raw[..k];
        if raw[k] !in present {
          present := present + [raw[k]];
        }
        k := k + 1;
      }
      assert raw[..|raw|] == raw;
    }

    /** ClassMeeting.attendance of meeting `m`: (present, absent). */
    method Attendance(m: MeetingId) returns (r: Result<(seq<PersonId>, seq<PersonId>), Error>)
      requires Valid() && m < |meetings|
      ensures r == AttendanceOf(people, meetings, scans, m)
    {
      var expected := SectionMembers(people, meetings[m].section, meetings[m].date, false);
      if expected.Err? {
        return Err(expected.error);
      }
      var presentRaw := SortByName(people, ScannedPersons(scans, m));
      var present := DedupLoop(presentRaw);
      var absent := Absent(expected.value, present);
      r := Ok((present, absent));
    }
  }
}

// The lemmas below are about the rules of module Infobase.
module InfobaseFacts {
  import opened Results
  import opened Calendar
  import opened Infobase

  /** The phase lookup in both directions: `date` is in phase `p` exactly
      when it is on or before the end of phase `p` and after the end of the
      phase before it. */
  lemma PhaseIsBetweenEnds(cohort: Option<int>, date: Day, p: nat)
    requires PhaseEndDates(cohort).Some? && 1 <= p <= 4
    ensures var ends := PhaseEndDates(cohort).value;
      PhaseFor(cohort, date) == Ok(Some(p)) <==> date <= ends[p - 1] && (p == 1 || ends[p - 2] < date)
  {
    var ends := PhaseEndDates(cohort).value;
    var r := PhaseFrom(ends, date, 0);
    if date <= ends[p - 1] && (p == 1 || ends[p - 2] < date) {
      forall k | 0 <= k < p - 1 ensures ends[k] < date {
        if k < p - 2 {
          assert ends[k] < ends[p - 2];
        }
      }
      assert r.Some?;
    }
  }

  /** Phases only move forward as the date advances, and once past the last
      phase a cohort stays past it. */
  lemma PhaseMonotone(cohort: Option<int>, d1: Day, d2: Day)
    requires d1 <= d2 && PhaseEndDates(cohort).Some?
    ensures PhaseFor(cohort, d1).value.None? ==> PhaseFor(cohort, d2).value.None?
    ensures PhaseFor(cohort, d1).value.Some? && PhaseFor(cohort, d2).value.Some? ==>
      PhaseFor(cohort, d1).value.value <= PhaseFor(cohort, d2).value.value
  {
    var ends := PhaseEndDates(cohort).value;
    var r1, r2 := PhaseFrom(ends, d1, 0), PhaseFrom(ends, d2, 0);
    assert r2.Some? && d1 <= ends[r2.value - 1] ==> r1.Some? && r1.value <= r2.value;
  }

  /** The examples of phase_for_cohort_and_date: 1 September 2009 is in phase
      1 of cohort 1, 1 June 2010 in phase 4, and 1 January 2099 in none. */
  lemma PhaseExamples()
    ensures PhaseFor(Some(1), Ordinal(2009, 9, 1)) == Ok(Some(1))
    ensures PhaseFor(Some(1), Ordinal(2010, 6, 1)) == Ok(Some(4))
    ensures PhaseFor(Some(1), Ordinal(2099, 1, 1)) == Ok(None)
    ensures PhaseFor(Some(3), Ordinal(2010, 6, 1)) == Err(UnknownCohort(Some(3)))
  {
    PhaseIsBetweenEnds(Some(1), Ordinal(2009, 9, 1), 1);
    PhaseIsBetweenEnds(Some(1), Ordinal(2010, 6, 1), 4);
  }

  /** A one-letter string is found only where that letter is. */
  lemma IndexOfLetter(s: string, c: char)
    ensures IndexOf(s, [c]).Some? ==> IndexOf(s, [c]).value < |s| && s[IndexOf(s, [c]).value] == c
    ensures c in s ==> IndexOf(s, [c]).Some?
  {
    var r := IndexOf(s, [c]);
    if r.Some? {
      assert s[r.value..r.value + 1] == [c];
    }
    if c in s {
      var k :| 0 <= k < |s| && s[k] == c;
      assert s[k..k + 1] == [c];
      assert OccursAt(s, [c], k);
    }
  }

  /** Every letter of SECTIONS has its own position as ordinal, the empty
      section has ordinal 0, and any other letter has none. */
  lemma SectionLetterOrdinals()
    ensures forall i | 0 <= i < |Sections| :: IndexOf(Sections, [Sections[i]]) == Some(i)
    ensures IndexOf(Sections, "") == Some(0)
    ensures forall c :: c !in Sections ==> IndexOf(Sections, [c]) == None
  {
    assert forall i, j | 0 <= i < j < |Sections| :: Sections[i] != Sections[j];
    forall i | 0 <= i < |Sections| ensures IndexOf(Sections, [Sections[i]]) == Some(i) {
      var r := IndexOf(Sections, [Sections[i]]);
      assert OccursAt(Sections, [Sections[i]], i);
      assert r.Some?;
      assert Sections[r.value..r.value + 1] == [Sections[i]];
      assert Sections[r.value] == Sections[i];
    }
    assert OccursAt(Sections, "", 0);
    forall c | c !in Sections ensures IndexOf(Sections, [c]) == None {
      IndexOfLetter(Sections, c);
    }
  }

  /** A student whose section is one of the letters of SECTIONS gets that
      letter's position as ordinal. */
  lemma StudentSectionOrd(p: Person, date: Day, i: nat)
    requires IsStudent(p) && i < |Sections| && Section(p, date) == Ok(Some([Sections[i]]))
    ensures SectionOrd(p, date) == Ok(Some(i))
  {
    SectionLetterOrdinals();
  }


  /** Meeting `j` is of the class of `m` and starts at `start`. */
  predicate StartsAt(meetings: seq<ClassMeeting>, m: ClassMeeting, start: Time, j: nat)
    requires j < |meetings|
  {
    SameClass(meetings[j], m) && meetings[j].timeStart == start
  }

  lemma MeetingsAtOnly(meetings: seq<ClassMeeting>, m: ClassMeeting, start: Time, n: nat, k: MeetingId)
    requires n <= |meetings| && k < |meetings| && StartsAt(meetings, m, start, k)
    requires forall j | 0 <= j < |meetings| && j != k :: !StartsAt(meetings, m, start, j)
    ensures MeetingsAtBelow(meetings, m, start, n) == if k < n then [k] else []
  {
    MeetingsAtBelowSpec(meetings, m, start, n);
    var ids := MeetingsAtBelow(meetings, m, start, n);
    forall i | 0 <= i < |ids| ensures ids[i] == k {
      assert StartsAt(meetings, m, start, ids[i]);
    }
    OnlyOneValue(ids, k);
    if k < n {
      assert k in ids;
    }
  }

  /** A strictly increasing list whose elements all equal `k` is `[k]` or empty. */
  lemma OnlyOneValue(ids: seq<MeetingId>, k: MeetingId)
    requires forall i | 0 <= i < |ids| :: ids[i] == k
    requires forall a, b | 0 <= a < b < |ids| :: ids[a] < ids[b]
    ensures ids == [] || ids == [k]
  {
    if ids != [] {
      SpreadOut(ids);
      assert ids[|ids| - 1] == k && ids[0] == k;
      assert ids == [k];
    }
  }

  /** A strictly increasing list of ids spans at least its length less one. */
  lemma {:induction false} SpreadOut(ids: seq<MeetingId>)
    requires ids != [] && forall a, b | 0 <= a < b < |ids| :: ids[a] < ids[b]
    ensures ids[|ids| - 1] - ids[0] >= |ids| - 1
  {
    if |ids| > 1 {
      var rest := ids[1..];
      assert forall a, b | 0 <= a < b < |rest| :: rest[a] < rest[b] by {
        forall a, b | 0 <= a < b < |rest| ensures rest[a] < rest[b] {
          assert rest[a] == ids[a + 1] && rest[b] == ids[b + 1];
        }
      }
      SpreadOut(rest);
      assert ids[0] < ids[1];
    }
  }

  lemma MeetingsAtNone(meetings: seq<ClassMeeting>, m: ClassMeeting, start: Time, n: nat)
    requires n <= |meetings|
    requires forall j | 0 <= j < |meetings| :: !StartsAt(meetings, m, start, j)
    ensures MeetingsAtBelow(meetings, m, start, n) == []
  {
    MeetingsAtBelowSpec(meetings, m, start, n);
    var ids := MeetingsAtBelow(meetings, m, start, n);
    if ids != [] {
      assert StartsAt(meetings, m, start, ids[0]);
      assert false;
    }
  }

  /** adjacent_hour_classmeeting finds a meeting when it is the only one
      of the class at the adjacent hour (the converse of its contract) ... */
  lemma AdjacentFindsOnly(meetings: seq<ClassMeeting>, m: MeetingId, step: int, s: int, k: MeetingId)
    requires m < |meetings| && k < |meetings| && step != 0 && s == (if step > 0 then 1 else -1)
    requires 0 <= AdjacentHour(meetings[m].timeStart.hour, s) < 24
    requires AtAdjacentHour(meetings, m, s, k)
    requires forall j | 0 <= j < |meetings| && j != k :: !AtAdjacentHour(meetings, m, s, j)
    ensures Adjacent(meetings, m, step) == Ok(Some(k))
  {
    var here := meetings[m];
    var t := Time(AdjacentHour(here.timeStart.hour, s), here.timeStart.minute, 0);
    forall j | 0 <= j < |meetings| && j != k ensures !StartsAt(meetings, here, t, j) {
      assert !AtAdjacentHour(meetings, m, s, j);
    }
    MeetingsAtOnly(meetings, here, t, |meetings|, k);
  }

  /** ... and finds none when there is none at the adjacent hour. */
  lemma AdjacentFindsNone(meetings: seq<ClassMeeting>, m: MeetingId, step: int, s: int)
    requires m < |meetings| && step != 0 && s == (if step > 0 then 1 else -1)
    requires 0 <= AdjacentHour(meetings[m].timeStart.hour, s) < 24
    requires forall j | 0 <= j < |meetings| :: !AtAdjacentHour(meetings, m, s, j)
    ensures Adjacent(meetings, m, step) == Ok(None)
  {
    var here := meetings[m];
    var t := Time(AdjacentHour(here.timeStart.hour, s), here.timeStart.minute, 0);
    forall j | 0 <= j < |meetings| ensures !StartsAt(meetings, here, t, j) {
      assert !AtAdjacentHour(meetings, m, s, j);
    }
    MeetingsAtNone(meetings, here, t, |meetings|);
  }

  /** Stepping forward and then back returns to the same meeting, for a
      meeting on the full minute that is alone at its time, except at 12:00:
      the hour after 12:00 is 13:00, but the hour before 13:00 is 11:00. */
  lemma NextThenPrevious(meetings: seq<ClassMeeting>, m: MeetingId, j: MeetingId)
    requires Timed(meetings) && m < |meetings|
    requires meetings[m].timeStart.second == 0 && meetings[m].timeStart.hour != 12
    requires forall k | 0 <= k < |meetings| && k != m ::
      !(SameClass(meetings[k], meetings[m]) && meetings[k].timeStart == meetings[m].timeStart)
    requires Adjacent(meetings, m, 1) == Ok(Some(j))
    ensures Adjacent(meetings, j, -1) == Ok(Some(m))
  {
    var h := meetings[m].timeStart.hour;
    assert j < |meetings|;
    assert meetings[j].timeStart.hour == AdjacentHour(h, 1);
    assert AdjacentHour(AdjacentHour(h, 1), -1) == h;
    assert meetings[m].timeStart == Time(h, meetings[m].timeStart.minute, 0);
    assert AtAdjacentHour(meetings, j, -1, m);
    forall k | 0 <= k < |meetings| && k != m ensures !AtAdjacentHour(meetings, j, -1, k) {
      assert SameClass(meetings[k], meetings[j]) ==> SameClass(meetings[k], meetings[m]);
    }
    AdjacentFindsOnly(meetings, j, -1, -1, m);
  }

  /** The noon exception itself: 12:00 steps on to 13:00, 13:00 steps back to 11:00. */
  lemma NoonIsSkipped()
    ensures AdjacentHour(11, 1) == 13 && AdjacentHour(13, -1) == 11
    ensures AdjacentHour(12, 1) == 13 && AdjacentHour(12, -1) == 11
  {
  }

  /** A class guessed to end one hour after it starts ends after it starts. */
  lemma GuessedEndAfterStart(m: ClassMeeting)
    requires ValidTime(m.timeStart) && NeedsEndGuess(m) && EndTimeOf(m).Ok?
    ensures Combine(m.date, EndTimeOf(m).value) - DatetimeStart(m) == SecondsPerHour - m.timeStart.second
    ensures DatetimeStart(m) < Combine(m.date, EndTimeOf(m).value)
    ensures EndTimeOf(m.(timeEnd := Some(EndTimeOf(m).value))) == EndTimeOf(m)
  {
  }

  function ExampleMeetings(date: Day): seq<ClassMeeting> {
    [ClassMeeting(7, date, Time(8, 0, 0), None, "T", 0),
     ClassMeeting(7, date, Time(9, 0, 0), None, "T", 0),
     ClassMeeting(7, date, Time(13, 0, 0), None, "T", 0)]
  }

  /** In those meetings 8:00 and 9:00 are adjacent hours and 13:00 has no neighbour. */
  lemma ExampleAdjacent(date: Day)
    ensures var ms := ExampleMeetings(date);
      && Adjacent(ms, 0, -1) == Ok(None) && Adjacent(ms, 0, 1) == Ok(Some(1))
      && Adjacent(ms, 1, -1) == Ok(Some(0)) && Adjacent(ms, 1, 1) == Ok(None)
      && Adjacent(ms, 2, -1) == Ok(None) && Adjacent(ms, 2, 1) == Ok(None)
  {
    var ms := ExampleMeetings(date);
    AdjacentFindsNone(ms, 0, -1, -1);
    AdjacentFindsOnly(ms, 0, 1, 1, 1);
    AdjacentFindsOnly(ms, 1, -1, -1, 0);
    AdjacentFindsNone(ms, 1, 1, 1);
    AdjacentFindsNone(ms, 2, -1, -1);
    AdjacentFindsNone(ms, 2, 1, 1);
  }

  /** The examples of number_of_hours: meetings of one class at 8:00, 9:00
      and 13:00 form a two-hour class and a separate one-hour class. */
  lemma NumberOfHoursExample(date: Day)
    ensures var ms := ExampleMeetings(date);
      NumberOfHoursOf(ms, 0) == Ok(2) && NumberOfHoursOf(ms, 1) == Ok(2) && NumberOfHoursOf(ms, 2) == Ok(1)
  {
    var ms := ExampleMeetings(date);
    ExampleAdjacent(date);
    assert FirstHourOf(ms, 0) == Ok(0);
    assert FirstHourOf(ms, 1) == Ok(0);
    assert FirstHourOf(ms, 2) == Ok(2);
    assert ChainLength(ms, 1) == Ok(1);
    assert ChainLength(ms, 0) == Ok(2);
    assert ChainLength(ms, 2) == Ok(1);
  }

  /** Removing repeats from a name-sorted list keeps it sorted. */
  lemma {:induction false} DedupSorted(people: seq<Person>, s: seq<PersonId>)
    requires AllIds(people, s) && SortedByName(people, s)
    ensures AllIds(people, Dedup(s)) && SortedByName(people, Dedup(s))
  {
    if s != [] {
      var p := s[..|s| - 1];
      var x := s[|s| - 1];
      DedupSorted(people, p);
      var d := Dedup(p);
      forall i | 0 <= i < |d| ensures PersonCmp(people[d[i]], people[x]) <= 0 {
        assert d[i] in p;
        var k :| 0 <= k < |p| && p[k] == d[i];
        assert s[k] == d[i];
      }
      if x !in d {
        var r := d + [x];
        forall i, j | 0 <= i < j < |r| ensures PersonCmp(people[r[i]], people[r[j]]) <= 0 {
          if j < |d| {
            assert r[i] == d[i] && r[j] == d[j];
          }
        }
      }
    }
  }

  /** The first of a sorted list is not greater than any element of a sublist of the rest. */
  lemma HeadFirst(people: seq<Person>, s: seq<PersonId>, a: seq<PersonId>)
    requires AllIds(people, s) && SortedByName(people, s) && s != []
    requires forall x :: x in a ==> x in s[1..]
    ensures AllIds(people, a)
    ensures forall k | 0 <= k < |a| :: PersonCmp(people[s[0]], people[a[k]]) <= 0
  {
    forall k | 0 <= k < |a| ensures a[k] < |people| && PersonCmp(people[s[0]], people[a[k]]) <= 0 {
      assert a[k] in s[1..];
      var m :| 0 <= m < |s| - 1 && s[1..][m] == a[k];
      assert s[m + 1] == a[k];
    }
  }

  /** Dropping the present from a name-sorted list keeps it sorted. */
  lemma {:induction false} AbsentSorted(people: seq<Person>, expected: seq<PersonId>, present: seq<PersonId>)
    requires AllIds(people, expected) && SortedByName(people, expected)
    ensures AllIds(people, Absent(expected, present)) && SortedByName(people, Absent(expected, present))
  {
    if expected != [] {
      var rest := expected[1..];
      SortedTail(people, expected);
      AbsentSorted(people, rest, present);
      var a := Absent(rest, present);
      HeadFirst(people, expected, a);
      if expected[0] !in present {
        assert Absent(expected, present) == [expected[0]] + a;
        SortedCons(people, expected[0], a);
      } else {
        assert Absent(expected, present) == a;
      }
    }
  }



  /** The `present` list of attendance: each person who scanned into
      meeting `m` once, sorted by name. */
  lemma PresentList(people: seq<Person>, scans: seq<Scan>, m: MeetingId)
    requires forall j | 0 <= j < |scans| :: scans[j].person < |people|
    ensures var scanned := ScannedPersons(scans, m);
      AllIds(people, scanned) &&
      var present := Dedup(SortByName(people, scanned));
      && AllIds(people, present) && SortedByName(people, present)
      && (forall i, j | 0 <= i < j < |present| :: present[i] != present[j])
      && (forall x :: x in present <==> x in scanned)
  {
    var scanned := ScannedPersons(scans, m);
    forall k | 0 <= k < |scanned| ensures scanned[k] < |people| {
      var j :| 0 <= j < |scans| && scanned[k] == scans[j].person;
    }
    var sorted := SortByName(people, scanned);
    forall x ensures x in sorted <==> x in scanned {
      assert x in sorted <==> x in multiset(sorted);
      assert x in scanned <==> x in multiset(scanned);
    }
    DedupSorted(people, sorted);
  }

  /** ClassMeeting.attendance: `present` lists each person who scanned into
      the meeting once, sorted by name; `absent` lists, sorted by name, the
      students enrolled in the meeting's section that day who did not scan in. */
  lemma AttendanceLists(people: seq<Person>, meetings: seq<ClassMeeting>, scans: seq<Scan>, m: MeetingId)
    requires m < |meetings| && forall j | 0 <= j < |scans| :: scans[j].person < |people|
    requires AttendanceOf(people, meetings, scans, m).Ok?
    ensures var (present, absent) := AttendanceOf(people, meetings, scans, m).value;
      && AllIds(people, present) && AllIds(people, absent)
      && SortedByName(people, present) && SortedByName(people, absent)
      && (forall i, j | 0 <= i < j < |present| :: present[i] != present[j])
      && (forall x :: x in present <==> exists j | 0 <= j < |scans| ::
            scans[j].classmeeting == Some(m) && scans[j].person == x)
      && (forall x | 0 <= x < |people| :: x in absent <==>
            x !in present && EnrolledOn(people[x], meetings[m].date, false) &&
            Section(people[x], meetings[m].date) == Ok(Some(meetings[m].section)))
  {
    PresentList(people, scans, m);
    var present := Dedup(SortByName(people, ScannedPersons(scans, m)));
    var expected := SectionMembers(people, meetings[m].section, meetings[m].date, false).value;
    AbsentSorted(people, expected, present);
  }

  /** Saving twice fills in nothing more: the defaults of a saved record are the record. */
  lemma PersonDefaultsIdempotent(p: Person)
    requires PersonDefaults(p).Ok?
    ensures PersonDefaults(PersonDefaults(p).value) == PersonDefaults(p)
  {
    var q := PersonDefaults(p).value;
    assert q.preferredFirstname != "" || q.firstname == "";
  }

  /** A saved student can be asked is_enrolled on any day, and is enrolled
      exactly until a week after the end of the cohort's fourth phase when
      the expiry was filled in. */
  lemma SavedStudentEnrolment(p: Person, date: Day)
    requires IsStudent(p) && PersonDefaults(p).Ok?
    ensures IsEnrolled(PersonDefaults(p).value, date).Ok?
    ensures p.idExpiry.None? ==>
      (IsEnrolled(PersonDefaults(p).value, date) == Ok(true) <==> date < PhaseEndDates(p.cohort).value[3] + 7)
  {
  }

  /** PersonManager.enrolled and Person.is_enrolled agree wherever the latter does not raise. */
  lemma EnrolledAgrees(people: seq<Person>, date: Day, j: PersonId)
    requires j < |people| && IsEnrolled(people[j], date).Ok?
    ensures j in Enrolled(people, date, false) <==> IsEnrolled(people[j], date) == Ok(true)
  {
  }

  /** The inclusive enrolment rule adds only the expiry day itself: on that
      day a student is enrolled when it is included and not otherwise. */
  lemma InclusiveAddsExpiryDay(p: Person, date: Day)
    ensures EnrolledOn(p, date, false) ==> EnrolledOn(p, date, true)
    ensures EnrolledOn(p, date, true) && !EnrolledOn(p, date, false) <==> IsStudent(p) && p.idExpiry == Some(date)
  {
  }

  /** A student with an ID expiry is active exactly on the days is_enrolled holds. */
  lemma ActiveWhileEnrolled(p: Person, today: Day)
    requires IsStudent(p) && p.idExpiry.Some?
    ensures IsActive(p, today) <==> IsEnrolled(p, today) == Ok(true)
  {
  }

  /** The examples of Person: without an expiry a person is active, with an
      expiry yesterday not, with one tomorrow again; the leave from 1 to 10
      January 2001 includes both its ends and not the 11th, and without both
      ends there is no leave. */
  lemma PersonExamples(p: Person, today: Day)
    requires p.idExpiry.None? && p.loaStart.None?
    ensures IsActive(p, today)
    ensures !IsActive(p.(idExpiry := Some(today - 1)), today)
    ensures IsActive(p.(idExpiry := Some(today + 1)), today)
    ensures !IsOnLeave(p, today) && !IsOnLeave(p.(loaEnd := Some(today)), today)
    ensures var q := p.(loaStart := Some(Ordinal(2001, 1, 1)), loaEnd := Some(Ordinal(2001, 1, 10)));
      && IsOnLeave(q, Ordinal(2001, 1, 1)) && IsOnLeave(q, Ordinal(2001, 1, 2))
      && IsOnLeave(q, Ordinal(2001, 1, 10)) && !IsOnLeave(q, Ordinal(2001, 1, 11))
  {
  }

  /** The three kinds of people: faculty are employees, and a person of one
      of the three kinds is a student exactly when not an employee. */
  lemma KindsOfPeople(p: Person)
    ensures IsFaculty(p) ==> IsEmployee(p)
    ensures IsStudent(p) ==> !IsEmployee(p)
    ensures 0 <= p.kind <= 2 ==> (IsStudent(p) <==> !IsEmployee(p))
  {
  }
}
