/** Barcode-scanner attendance reporting: scan windows written as
    "H:MM[:SS]-H:MM[:SS]", the scan-in and scan-out windows of a scheduled
    class, the present / absent breakdown of a block of time, and the blocks
    a staff member marks by scanning at the start and at the end of each. */
module AttendanceScanned {
  import opened Results
  import opened Calendar
  import Infobase

  /** scan_window_length: thirty minutes, in seconds. */
  const ScanWindowLength := 30 * SecondsPerMinute

  /** A scanning window; both ends belong to it. */
  datatype Timespan = Timespan(begin: Datetime, end: Datetime)

  /** The exceptions raised while building spans and blocks. */
  datatype Error =
    | NotOneDash(timeRange: string)                    // ValueError: split("-") does not give two parts
    | BadClock(side: string)                           // ValueError: not three integer fields
    | OutOfRange(hour: int, minute: int, second: int)  // ValueError from datetime.datetime / datetime.time
    | NoTimes                                          // both sides empty: the span never gets a begin or an end
    | NoMeeting(course: nat, date: Day)                // IndexError: filter(...)[0] with no meeting
    | OddMarks(count: nat)                             // ValueError: the last marker scan has no partner
    | InfobaseError(error: Infobase.Error)             // raised by a ClassMeeting or Person rule

  // ---------------------------------------------------------------------------
  // Digits and fields

  predicate IsDigit(c: char) {
    '0' <= c <= '9'
  }

  predicate AllDigits(s: string) {
    forall i | 0 <= i < |s| :: IsDigit(s[i])
  }

  function DigitChar(n: nat): (c: char)
    requires n < 10
    ensures IsDigit(c)
  {
    ('0' as int + n) as char
  }

  /** The value of a string of decimal digits. */
  function DigitsValue(s: string): nat
    requires AllDigits(s)
  {
    if s == [] then 0 else DigitsValue(s[..|s| - 1]) * 10 + (s[|s| - 1] as int - '0' as int)
  }

  /** The ASCII whitespace int() skips around a number: space, tab, line
      feed, vertical tab, form feed and carriage return. */
  predicate IsSpace(c: char) {
    c == ' ' || '\t' <= c <= '\r'
  }

  function TrimStart(s: string): string
  {
    if s != [] && IsSpace(s[0]) then TrimStart(s[1..]) else s
  }

  function TrimEnd(s: string): string
  {
    if s != [] && IsSpace(s[|s| - 1]) then TrimEnd(s[..|s| - 1]) else s
  }

  /** int() of a field: surrounding whitespace and one leading '+' are
      skipped, and so is whitespace after the '+' (Python 2 skips blanks
      both before and after the sign); what is left must be a non-empty run
      of digits; None where
      int() raises ValueError. A field never holds '-', since the range was
      split at its only dash. */
  function ParseInt(s: string): (r: Option<nat>)
    ensures s != [] && AllDigits(s) ==> r == Some(DigitsValue(s))
    ensures s == [] ==> r.None?
  {
    if s != [] && AllDigits(s) then Some(DigitsValue(s)) else ParsePadded(s)
  }

  /** int() of a field that is not a plain run of digits. */
  function ParsePadded(s: string): Option<nat> {
    var t := TrimEnd(TrimStart(s));
    var d := if t != [] && t[0] == '+' then TrimStart(t[1..]) else t;
    if d != [] && AllDigits(d) then Some(DigitsValue(d)) else None
  }

  /** str.count(c): the number of times `c` occurs in `s`. */
  function Count(s: string, c: char): nat {
    if s == [] then 0 else (if s[0] == c then 1 else 0) + Count(s[1..], c)
  }

  /** `s` split at its first `c`: the parts before and after it. */
  function SplitAt(s: string, c: char): (parts: (string, string))
    requires Count(s, c) > 0
    ensures Count(parts.0, c) == 0 && Count(parts.1, c) == Count(s, c) - 1
  {
    if s[0] == c then ([], s[1..])
    else
      var (a, b) := SplitAt(s[1..], c);
      assert ([s[0]] + a)[1..] == a;
      ([s[0]] + a, b)
  }

  /** The two parts around the first `c` join back into `s`. */
  lemma {:induction false} SplitAtRejoins(s: string, c: char)
    requires Count(s, c) > 0
    ensures SplitAt(s, c).0 + [c] + SplitAt(s, c).1 == s
  {
    if s[0] != c {
      SplitAtRejoins(s[1..], c);
      assert s == [s[0]] + s[1..];
    }
  }

  // ---------------------------------------------------------------------------
  // Timespan

  /** Seconds may be left out: a side with a single colon gets ":00". */
  function WithSeconds(side: string): string {
    if Count(side, ':') == 1 then side + ":00" else side
  }

  /** A clock time from its three fields, or the ValueError: a field that is
      not a number, or a value datetime.datetime refuses. */
  function ClockOfFields(side: string, h: string, m: string, s: string): (r: Result<Time, Error>)
    ensures r.Ok? ==> ValidTime(r.value)
    ensures r.Ok? <==> ParseInt(h).Some? && ParseInt(m).Some? && ParseInt(s).Some? &&
                       ValidTime(Time(ParseInt(h).value, ParseInt(m).value, ParseInt(s).value))
    ensures r.Ok? ==> r.value == Time(ParseInt(h).value, ParseInt(m).value, ParseInt(s).value)
  {
    match (ParseInt(h), ParseInt(m), ParseInt(s))
    case (Some(hour), Some(minute), Some(second)) =>
      var t := Time(hour, minute, second);
      if ValidTime(t) then Ok(t) else Err(OutOfRange(hour, minute, second))
    case _ => Err(BadClock(side))
  }

  /** `hour, min, sec = map(int, side.split(":"))` followed by the range
      check of datetime.datetime. */
  function ParseClock(side: string): (r: Result<Time, Error>)
    ensures r.Ok? ==> ValidTime(r.value)
    ensures Count(side, ':') != 2 ==> r == Err(BadClock(side))
  {
    if Count(side, ':') != 2 then Err(BadClock(side))
    else
      var (h, rest) := SplitAt(side, ':');
      var (m, s) := SplitAt(rest, ':');
      ClockOfFields(side, h, m, s)
  }

  /** A span given by its end alone: it opens one window length earlier. */
  function SpanEndingAt(day: Day, end: string): Result<Timespan, Error> {
    match ParseClock(end)
    case Err(e) => Err(e)
    case Ok(t) => Ok(Timespan(Combine(day, t) - ScanWindowLength, Combine(day, t)))
  }

  /** A span given by its start alone: it closes one window length later. */
  function SpanStartingAt(day: Day, start: string): Result<Timespan, Error> {
    match ParseClock(start)
    case Err(e) => Err(e)
    case Ok(b) => Ok(Timespan(Combine(day, b), Combine(day, b) + ScanWindowLength))
  }

  /** A span given by both ends; the start is read first. */
  function SpanBetween(day: Day, start: string, end: string): Result<Timespan, Error> {
    match ParseClock(start)
    case Err(e) => Err(e)
    case Ok(b) =>
      match ParseClock(end)
      case Err(e) => Err(e)
      case Ok(t) => Ok(Timespan(Combine(day, b), Combine(day, t)))
  }

  /** The span two padded sides name on `day`; an empty side is the other
      side moved by the scan window length. */
  function SpanOfSides(day: Day, start: string, end: string): Result<Timespan, Error> {
    if |start| == 0 && |end| == 0 then Err(NoTimes)
    else if |start| == 0 then SpanEndingAt(day, end)
    else if |end| == 0 then SpanStartingAt(day, start)
    else SpanBetween(day, start, end)
  }

  /** Timespan(day, time_range). */
  function TimespanOf(day: Day, timeRange: string): (r: Result<Timespan, Error>)
    ensures Count(timeRange, '-') != 1 ==> r == Err(NotOneDash(timeRange))
  {
    if Count(timeRange, '-') != 1 then Err(NotOneDash(timeRange))
    else
      var (rawStart, rawEnd) := SplitAt(timeRange, '-');
      SpanOfSides(day, WithSeconds(rawStart), WithSeconds(rawEnd))
  }

  /** Timespan.__init__, step by step: pad the seconds, then set begin and
      end from the sides that are present. */
  method NewTimespan(day: Day, timeRange: string) returns (r: Result<Timespan, Error>)
    ensures r == TimespanOf(day, timeRange)
  {
    if Count(timeRange, '-') != 1 {
      return Err(NotOneDash(timeRange));
    }
    var (rawStart, rawEnd) := SplitAt(timeRange, '-');
    var start, end := rawStart, rawEnd;
    if Count(start, ':') == 1 {
      start := start + ":00";
    }
    if Count(end, ':') == 1 {
      end := end + ":00";
    }
    assert TimespanOf(day, timeRange) == SpanOfSides(day, start, end);
    r := SetBounds(day, start, end);
  }

  /** The second half of Timespan.__init__: begin from a non-empty start,
      end from a non-empty end, and a missing one from the other. */
  method SetBounds(day: Day, start: string, end: string) returns (r: Result<Timespan, Error>)
    ensures r == SpanOfSides(day, start, end)
  {
    var begin: Option<Datetime> := None;
    var finish: Option<Datetime> := None;
    if |start| != 0 {
      var b := ParseClock(start);
      if b.Err? {
        return Err(b.error);
      }
      begin := Some(Combine(day, b.value));
      if |end| == 0 {
        finish := Some(begin.value + ScanWindowLength);
      }
    }
    if |end| != 0 {
      var e := ParseClock(end);
      if e.Err? {
        return Err(e.error);
      }
      finish := Some(Combine(day, e.value));
      if |start| == 0 {
        begin := Some(finish.value - ScanWindowLength);
      }
    }
    if begin.None? || finish.None? {
      return Err(NoTimes);
    }
    r := Ok(Timespan(begin.value, finish.value));
  }

  /** Python's cmp on integers. */
  function Cmp(a: int, b: int): (c: int)
    ensures c == 0 <==> a == b
    ensures c < 0 <==> a < b
    ensures -1 <= c <= 1
  {
    if a < b then -1 else if a == b then 0 else 1
  }

  /** Timespan.__cmp__: by begin, then by end. */
  function CompareSpans(s: Timespan, t: Timespan): (c: int)
    ensures c == 0 <==> s == t
    ensures c < 0 <==> s.begin < t.begin || (s.begin == t.begin && s.end < t.end)
  {
    if s.begin != t.begin then Cmp(s.begin, t.begin) else Cmp(s.end, t.end)
  }

  // ---------------------------------------------------------------------------
  // Writing times

  /** Two decimal digits. */
  function Pad2(n: nat): string
    requires n < 100
  {
    [DigitChar(n / 10), DigitChar(n % 10)]
  }

  /** str(t) of a datetime.time without microseconds: "HH:MM:SS". */
  function FormatTime(t: Time): string
    requires ValidTime(t)
  {
    Pad2(t.hour) + ":" + Pad2(t.minute) + ":" + Pad2(t.second)
  }

  /** A time written by hand without seconds and without a leading zero on
      the hour, as in "7:30". */
  function ShortTime(t: Time): string
    requires ValidTime(t)
  {
    (if t.hour < 10 then [DigitChar(t.hour)] else Pad2(t.hour)) + ":" + Pad2(t.minute)
  }

  // ---------------------------------------------------------------------------
  // Blocks

  /** A block of time with a scan-in and a scan-out window and the length of
      the class, in hours. */
  datatype Block = Block(course: nat, date: Day, startspan: Timespan, endspan: Timespan, length: nat)

  /** The first meeting, in id order, of `course` on `date` at or after `i`. */
  function MeetingOfCourseFrom(meetings: seq<Infobase.ClassMeeting>, course: nat, date: Day, i: nat): (r: Option<Infobase.MeetingId>)
    requires i <= |meetings|
    ensures r.Some? ==> i <= r.value < |meetings| && meetings[r.value].course == course && meetings[r.value].date == date
    ensures r.Some? ==> forall j | i <= j < r.value :: !(meetings[j].course == course && meetings[j].date == date)
    ensures r.None? <==> forall j | i <= j < |meetings| :: !(meetings[j].course == course && meetings[j].date == date)
    decreases |meetings| - i
  {
    if i == |meetings| then None
    else if meetings[i].course == course && meetings[i].date == date then Some(i)
    else MeetingOfCourseFrom(meetings, course, date, i + 1)
  }

  /** ClassMeeting.objects.filter(date=date, course=course)[0], in id order. */
  function MeetingOfCourse(meetings: seq<Infobase.ClassMeeting>, course: nat, date: Day): Option<Infobase.MeetingId> {
    MeetingOfCourseFrom(meetings, course, date, 0)
  }

  function FromInfobase<T>(r: Result<T, Infobase.Error>): Result<T, Error> {
    match r
    case Ok(v) => Ok(v)
    case Err(e) => Err(InfobaseError(e))
  }

  /** The length Block.__init__ computes, as written: the number of hours of
      the first meeting of the course that day. With no meeting, indexing
      the empty query set raises IndexError, which the `except
      ClassMeeting.DoesNotExist` clause does not catch. */
  function BlockLengthAsWritten(meetings: seq<Infobase.ClassMeeting>, course: nat, date: Day): (r: Result<nat, Error>)
    requires Infobase.Timed(meetings)
    ensures MeetingOfCourse(meetings, course, date).None? ==> r == Err(NoMeeting(course, date))
  {
    match MeetingOfCourse(meetings, course, date)
    case None => Err(NoMeeting(course, date))
    case Some(k) => FromInfobase(Infobase.NumberOfHoursOf(meetings, k))
  }

  /** The length Block.__init__ evidently intends: 0 when the course does not
      meet that day. */
  function BlockLength(meetings: seq<Infobase.ClassMeeting>, course: nat, date: Day): Result<nat, Error>
    requires Infobase.Timed(meetings)
  {
    match MeetingOfCourse(meetings, course, date)
    case None => Ok(0)
    case Some(k) => FromInfobase(Infobase.NumberOfHoursOf(meetings, k))
  }

  /** The length is 0 exactly when the course does not meet that day, at
      most 8 otherwise, and an error only when its first meeting's chain of
      hours is broken. */
  lemma BlockLengthMeaning(meetings: seq<Infobase.ClassMeeting>, course: nat, date: Day)
    requires Infobase.Timed(meetings)
    ensures var r := BlockLength(meetings, course, date);
      && (r == Ok(0) <==> forall j | 0 <= j < |meetings| :: !(meetings[j].course == course && meetings[j].date == date))
      && (r.Ok? ==> r.value <= 8)
      && (r.Err? ==> (MeetingOfCourse(meetings, course, date).Some? &&
           r == FromInfobase(Infobase.NumberOfHoursOf(meetings, MeetingOfCourse(meetings, course, date).value))))
  {
    match MeetingOfCourse(meetings, course, date)
    case None =>
    case Some(k) =>
      assert FromInfobase(Infobase.NumberOfHoursOf(meetings, k)) != Ok(0);
  }

  /** Block(course, date, startspan, endspan). */
  function BlockOf(meetings: seq<Infobase.ClassMeeting>, course: nat, date: Day, startRange: string, endRange: string)
    : (r: Result<Block, Error>)
    requires Infobase.Timed(meetings)
    ensures r.Ok? ==> TimespanOf(date, startRange).Ok? && TimespanOf(date, endRange).Ok? && BlockLength(meetings, course, date).Ok?
    ensures r.Ok? ==> r.value == Block(course, date, TimespanOf(date, startRange).value,
                                       TimespanOf(date, endRange).value, BlockLength(meetings, course, date).value)
  {
    match TimespanOf(date, startRange)
    case Err(e) => Err(e)
    case Ok(startspan) =>
      match TimespanOf(date, endRange)
      case Err(e) => Err(e)
      case Ok(endspan) =>
        match BlockLength(meetings, course, date)
        case Err(e) => Err(e)
        case Ok(length) => Ok(Block(course, date, startspan, endspan, length))
  }

  /** datetime.time(hour, minute), or its ValueError. */
  function MakeTime(hour: int, minute: int): (r: Result<Time, Error>)
    ensures r.Ok? <==> ValidTime(Time(hour, minute, 0))
    ensures r.Ok? ==> r.value == Time(hour, minute, 0)
  {
    if ValidTime(Time(hour, minute, 0)) then Ok(Time(hour, minute, 0)) else Err(OutOfRange(hour, minute, 0))
  }

  /** ClassBlock(classmeeting): scan in from half past the hour before the
      class up to its start; scan out from a quarter to the last hour's end
      up to a quarter past it. The start hour 0 and classes reaching midnight
      raise ValueError; the errors of number_of_hours pass through. The code
      writes each window as "%s-%s" and parses it back with Timespan; the
      windows are built here directly, and FormattedSpan shows the text round
      trip gives the same spans. */
  function ClassBlockOf(meetings: seq<Infobase.ClassMeeting>, m: Infobase.MeetingId): (r: Result<Block, Error>)
    requires m < |meetings| && Infobase.Timed(meetings)
    ensures Infobase.NumberOfHoursOf(meetings, m).Err? ==>
      r == Err(InfobaseError(Infobase.NumberOfHoursOf(meetings, m).error))
    ensures Infobase.NumberOfHoursOf(meetings, m).Ok? ==>
      var cm := meetings[m];
      var length := Infobase.NumberOfHoursOf(meetings, m).value;
      var h := cm.timeStart.hour;
      && (r.Ok? <==> 1 <= h && h + length < 24)
      && (r.Ok? ==>
            r.value ==
              Block(cm.course, cm.date,
                    Timespan(Combine(cm.date, Time(h - 1, 30, 0)), Combine(cm.date, cm.timeStart)),
                    Timespan(Combine(cm.date, Time(h + length - 1, 45, 0)), Combine(cm.date, Time(h + length, 15, 0))),
                    length))
  {
    match FromInfobase(Infobase.NumberOfHoursOf(meetings, m))
    case Err(e) => Err(e)
    case Ok(length) => BlockOfMeeting(meetings[m], length)
  }

  /** The rest of ClassBlock once the class's number of hours is known:
      the three window times must be valid times of day. */
  function BlockOfMeeting(cm: Infobase.ClassMeeting, length: nat): (r: Result<Block, Error>)
    requires ValidTime(cm.timeStart)
    ensures var h := cm.timeStart.hour;
      r.Ok? <==> 1 <= h && h + length < 24
    ensures var h := cm.timeStart.hour;
      r.Ok? ==>
        r.value == Block(cm.course, cm.date,
                         Timespan(Combine(cm.date, Time(h - 1, 30, 0)), Combine(cm.date, cm.timeStart)),
                         Timespan(Combine(cm.date, Time(h + length - 1, 45, 0)), Combine(cm.date, Time(h + length, 15, 0))),
                         length)
  {
    var h := cm.timeStart.hour;
    match MakeTime(h - 1, 30)
    case Err(e) => Err(e)
    case Ok(scaninBegin) =>
      match MakeTime(h + length - 1, 45)
      case Err(e) => Err(e)
      case Ok(scanoutBegin) =>
        match MakeTime(h + length, 15)
        case Err(e) => Err(e)
        case Ok(scanoutEnd) =>
          var startspan := Timespan(Combine(cm.date, scaninBegin), Combine(cm.date, cm.timeStart));
          var endspan := Timespan(Combine(cm.date, scanoutBegin), Combine(cm.date, scanoutEnd));
          Ok(Block(cm.course, cm.date, startspan, endspan, length))
  }

  // ---------------------------------------------------------------------------
  // The present / absent breakdown of a block

  /** A scan Scan.barcode_scans_for_date(date) returns: a student's scan on
      `date` that is not a signout and is not tied to a class meeting. */
  predicate IsBarcodeScan(people: seq<Infobase.Person>, s: Infobase.Scan, date: Day) {
    s.person < |people| && Infobase.IsStudent(people[s.person]) &&
    DayOf(s.timestamp) == date && !s.isSignout && s.classmeeting.None?
  }

  /** The people with a barcode scan on `date` inside `span`, both ends included. */
  function ScannedWithin(people: seq<Infobase.Person>, scans: seq<Infobase.Scan>, date: Day, span: Timespan): set<Infobase.PersonId> {
    set j | 0 <= j < |scans| && IsBarcodeScan(people, scans[j], date) &&
            span.begin <= scans[j].timestamp <= span.end :: scans[j].person
  }

  /** present_people_pks: the people scanned in during the start span and
      out during the end span. */
  function PresentIds(people: seq<Infobase.Person>, scans: seq<Infobase.Scan>, block: Block, date: Day): set<Infobase.PersonId> {
    ScannedWithin(people, scans, date, block.startspan) * ScannedWithin(people, scans, date, block.endspan)
  }

  /** `s.section() in options.sections`: the student's section today is a
      substring of the requested letters. */
  predicate InSections(p: Infobase.Person, sections: string, today: Day) {
    var sec := Infobase.Section(p, today);
    sec.Ok? && sec.value.Some? && Infobase.IndexOf(sections, sec.value.value).Some?
  }

  /** The students of `ids` in the requested sections, in the order of
      `ids`; the first section lookup that raises stops the filter. */
  function ChosenStudents(people: seq<Infobase.Person>, ids: seq<Infobase.PersonId>, sections: string, today: Day)
    : (r: Result<seq<Infobase.PersonId>, Error>)
    requires Infobase.AllIds(people, ids)
    ensures r.Ok? ==> Infobase.AllIds(people, r.value)
    ensures r.Ok? ==> forall j | 0 <= j < |people| :: j in r.value <==> j in ids && InSections(people[j], sections, today)
    ensures r.Ok? <==> forall k | 0 <= k < |ids| :: Infobase.Section(people[ids[k]], today).Ok?
    decreases |ids|
  {
    if ids == [] then Ok([])
    else
      var last := ids[|ids| - 1];
      assert ids == ids[..|ids| - 1] + [last];
      match ChosenStudents(people, ids[..|ids| - 1], sections, today)
      case Err(e) => Err(e)
      case Ok(before) =>
        match Infobase.Section(people[last], today)
        case Err(e) => Err(InfobaseError(e))
        case Ok(sec) => Ok(if InSections(people[last], sections, today) then before + [last] else before)
  }

  /** The students scan_breakdown reports on: enrolled on `date`, expiry day
      included, and in the requested sections when there are any. */
  function ReportStudents(people: seq<Infobase.Person>, date: Day, today: Day, sections: string)
    : (r: Result<seq<Infobase.PersonId>, Error>)
    ensures r.Ok? ==> Infobase.AllIds(people, r.value)
    ensures r.Ok? ==> forall j | 0 <= j < |people| :: j in r.value <==>
      Infobase.EnrolledOn(people[j], date, true) && (sections == "" || InSections(people[j], sections, today))
  {
    var enrolled := Infobase.Enrolled(people, date, true);
    if sections == "" then Ok(enrolled) else ChosenStudents(people, enrolled, sections, today)
  }

  /** One line of the report: the student, the section on the block's day
      and the attendance status. */
  datatype Row = Row(person: Infobase.PersonId, section: Option<string>, present: bool)

  /** The report lines of students `ids`; the first section lookup that
      raises ends the report with its exception. */
  function RowsOf(people: seq<Infobase.Person>, ids: seq<Infobase.PersonId>, present: set<Infobase.PersonId>, day: Day)
    : (r: Result<seq<Row>, Error>)
    requires Infobase.AllIds(people, ids)
    ensures r.Ok? <==> forall k | 0 <= k < |ids| :: Infobase.Section(people[ids[k]], day).Ok?
    ensures r.Ok? ==> |r.value| == |ids|
    ensures r.Ok? ==> forall k | 0 <= k < |ids| ::
      r.value[k] == Row(ids[k], Infobase.Section(people[ids[k]], day).value, ids[k] in present)
    decreases |ids|
  {
    if ids == [] then Ok([])
    else
      var last := ids[|ids| - 1];
      var front := ids[..|ids| - 1];
      assert forall k | 0 <= k < |front| :: front[k] == ids[k];
      match RowsOf(people, front, present, day)
      case Err(e) => Err(e)
      case Ok(before) =>
        match Infobase.Section(people[last], day)
        case Err(e) => Err(InfobaseError(e))
        case Ok(sec) => Ok(before + [Row(last, sec, last in present)])
  }

  /** The lines of one more student: that student's line is added, or the
      lookup of the section fails the report. */
  lemma RowsStep(people: seq<Infobase.Person>, ids: seq<Infobase.PersonId>, present: set<Infobase.PersonId>, day: Day, i: nat)
    requires Infobase.AllIds(people, ids) && i < |ids|
    requires RowsOf(people, ids[..i], present, day).Ok?
    ensures var sec := Infobase.Section(people[ids[i]], day);
      RowsOf(people, ids[..i + 1], present, day) ==
        if sec.Err? then Err(InfobaseError(sec.error))
        else Ok(RowsOf(people, ids[..i], present, day).value + [Row(ids[i], sec.value, ids[i] in present)])
  {
    assert ids[..i + 1][..i] == ids[..i];
  }

  /** Once the lines of a prefix fail, the whole report fails the same way. */
  lemma {:induction false} RowsStop(people: seq<Infobase.Person>, ids: seq<Infobase.PersonId>, present: set<Infobase.PersonId>, day: Day, n: nat)
    requires Infobase.AllIds(people, ids) && n <= |ids|
    requires RowsOf(people, ids[..n], present, day).Err?
    ensures RowsOf(people, ids, present, day) == RowsOf(people, ids[..n], present, day)
    decreases |ids| - n
  {
    if n < |ids| {
      assert ids[..n + 1][..n] == ids[..n];
      RowsStop(people, ids, present, day, n + 1);
    } else {
      assert ids[..n] == ids;
    }
  }

  /** scan_breakdown(block): one line per reported student, present when
      the student scanned in during the start span and out during the end span. */
  method ScanBreakdown(people: seq<Infobase.Person>, scans: seq<Infobase.Scan>, block: Block, date: Day, today: Day, sections: string)
    returns (r: Result<seq<Row>, Error>)
    ensures ReportStudents(people, date, today, sections).Err? ==> r == Err(ReportStudents(people, date, today, sections).error)
    ensures ReportStudents(people, date, today, sections).Ok? ==>
      r == RowsOf(people, ReportStudents(people, date, today, sections).value, PresentIds(people, scans, block, date), block.date)
  {
    var chosen := ReportStudents(people, date, today, sections);
    if chosen.Err? {
      return Err(chosen.error);
    }
    var students := chosen.value;
    var present := PresentIds(people, scans, block, date);
    var rows: seq<Row> := [];
    for i := 0 to |students|
      invariant RowsOf(people, students[..i], present, block.date) == Ok(rows)
    {
      var s := students[i];
      var sec := Infobase.Section(people[s], block.date);
      RowsStep(people, students, present, block.date, i);
      if sec.Err? {
        RowsStop(people, students, present, block.date, i + 1);
        return Err(InfobaseError(sec.error));
      }
      rows := rows + [Row(s, sec.value, s in present)];
    }
    assert students[..|students|] == students;
    r := Ok(rows);
  }

  // ---------------------------------------------------------------------------
  // Blocks marked by a staff member's scans

  predicate Ascending(s: seq<Datetime>) {
    forall i, j | 0 <= i < j < |s| :: s[i] <= s[j]
  }

  function InsertTime(x: Datetime, s: seq<Datetime>): (r: seq<Datetime>)
    requires Ascending(s)
    ensures Ascending(r) && multiset(r) == multiset(s) + multiset{x}
  {
    if s == [] || x <= s[0] then
      assert forall i | 0 <= i < |s| :: x <= s[i] by {
        if s != [] {
          assert forall i | 0 <= i < |s| :: s[0] <= s[i];
        }
      }
      AscendingCons(x, s);
      [x] + s
    else
      var rest := InsertTime(x, s[1..]);
      LowerBoundKept(rest, s[1..], x, s[0]);
      AscendingCons(s[0], rest);
      assert s == [s[0]] + s[1..];
      assert multiset([s[0]] + rest) == multiset{s[0]} + multiset(rest);
      assert multiset(s) == multiset{s[0]} + multiset(s[1..]);
      [s[0]] + rest
  }

  lemma AscendingCons(y: Datetime, t: seq<Datetime>)
    requires Ascending(t) && forall i | 0 <= i < |t| :: y <= t[i]
    ensures Ascending([y] + t)
  {
    var u := [y] + t;
    forall i, j | 0 <= i < j < |u| ensures u[i] <= u[j] {
      assert u[j] == t[j - 1];
      if i > 0 {
        assert u[i] == t[i - 1];
      }
    }
  }

  /** A bound below every element of `b` and below `x` is below every
      element of a rearrangement of `b` with `x` added. */
  lemma LowerBoundKept(a: seq<Datetime>, b: seq<Datetime>, x: Datetime, lo: Datetime)
    requires multiset(a) == multiset(b) + multiset{x}
    requires lo <= x && forall i | 0 <= i < |b| :: lo <= b[i]
    ensures forall i | 0 <= i < |a| :: lo <= a[i]
  {
    forall i | 0 <= i < |a| ensures lo <= a[i] {
      assert a[i] in multiset(a);
      if a[i] != x {
        assert a[i] in multiset(b);
        var j :| 0 <= j < |b| && b[j] == a[i];
      }
    }
  }

  /** order_by("timestamp"). */
  function SortTimes(s: seq<Datetime>): (r: seq<Datetime>)
    ensures Ascending(r) && multiset(r) == multiset(s)
  {
    if s == [] then []
    else
      assert s == [s[0]] + s[1..];
      InsertTime(s[0], SortTimes(s[1..]))
  }

  /** A scan of the marker on `date` (the default manager leaves out signouts). */
  predicate IsMark(s: Infobase.Scan, marker: Infobase.PersonId, date: Day) {
    s.person == marker && DayOf(s.timestamp) == date && !s.isSignout
  }

  /** The times of the marks among the first `n` scans, in scan order. */
  function MarkStampsBelow(scans: seq<Infobase.Scan>, marker: Infobase.PersonId, date: Day, n: nat): (ts: seq<Datetime>)
    requires n <= |scans|
    ensures forall t :: t in ts <==> exists j | 0 <= j < n :: IsMark(scans[j], marker, date) && scans[j].timestamp == t
  {
    if n == 0 then []
    else MarkStampsBelow(scans, marker, date, n - 1) + (if IsMark(scans[n - 1], marker, date) then [scans[n - 1].timestamp] else [])
  }

  /** The times of the marker's scans on `date`, in timestamp order. */
  function MarkerTimes(scans: seq<Infobase.Scan>, marker: Infobase.PersonId, date: Day): (ts: seq<Datetime>)
    ensures Ascending(ts)
    ensures forall t :: t in ts <==> exists j | 0 <= j < |scans| :: IsMark(scans[j], marker, date) && scans[j].timestamp == t
    ensures forall k | 0 <= k < |ts| :: DayOf(ts[k]) == date
  {
    var stamps := MarkStampsBelow(scans, marker, date, |scans|);
    var ts := SortTimes(stamps);
    assert forall t :: t in ts <==> t in stamps by {
      forall t ensures t in ts <==> t in stamps {
        assert t in ts <==> t in multiset(ts);
        assert t in stamps <==> t in multiset(stamps);
      }
    }
    assert forall k | 0 <= k < |ts| :: ts[k] in ts;
    ts
  }

  // ---------------------------------------------------------------------------
  // What Timespan reads back

  lemma {:induction false} CountConcat(a: string, b: string, c: char)
    ensures Count(a + b, c) == Count(a, c) + Count(b, c)
  {
    if a != [] {
      assert (a + b)[1..] == a[1..] + b;
      CountConcat(a[1..], b, c);
    } else {
      assert a + b == b;
    }
  }

  lemma {:induction false} DigitsCount(s: string, c: char)
    requires AllDigits(s) && !IsDigit(c)
    ensures Count(s, c) == 0
  {
    if s != [] {
      DigitsCount(s[1..], c);
    }
  }

  /** Splitting at the separator that joins two parts gives them back when
      the first part has none. */
  lemma {:induction false} SplitAtJoin(a: string, b: string, c: char)
    requires Count(a, c) == 0
    ensures Count(a + [c] + b, c) > 0 && SplitAt(a + [c] + b, c) == (a, b)
  {
    var s := a + [c] + b;
    CountConcat(a, [c] + b, c);
    assert s == a + ([c] + b);
    if a == [] {
      assert s == [c] + b;
      assert s[1..] == b;
    } else {
      assert s[1..] == a[1..] + [c] + b;
      SplitAtJoin(a[1..], b, c);
      assert [a[0]] + a[1..] == a;
    }
  }

  lemma Pad2Reads(n: nat)
    requires n < 100
    ensures AllDigits(Pad2(n)) && ParseInt(Pad2(n)) == Some(n)
  {
    var p := Pad2(n);
    assert p[..1] == [DigitChar(n / 10)];
    assert DigitsValue([DigitChar(n / 10)]) == n / 10;
  }

  /** Three fields without a colon, joined by colons, are split back into
      those fields. */
  lemma ClockFieldsSplit(x: string, y: string, z: string)
    requires Count(x, ':') == 0 && Count(y, ':') == 0 && Count(z, ':') == 0
    ensures Count(x + ":" + y + ":" + z, ':') == 2
    ensures ParseClock(x + ":" + y + ":" + z) == ClockOfFields(x + ":" + y + ":" + z, x, y, z)
  {
    var side := x + ":" + y + ":" + z;
    var rest := y + ":" + z;
    assert side == x + [':'] + rest;
    SplitAtJoin(x, rest, ':');
    SplitAtJoin(y, z, ':');
  }

  /** Three digit fields joined by colons read back as those fields. */
  lemma {:induction false} ClockFieldsRead(x: string, y: string, z: string)
    requires AllDigits(x) && AllDigits(y) && AllDigits(z)
    ensures Count(x + ":" + y + ":" + z, ':') == 2
    ensures Count(x + ":" + y + ":" + z, '-') == 0
    ensures ParseClock(x + ":" + y + ":" + z) == ClockOfFields(x + ":" + y + ":" + z, x, y, z)
  {
    DigitsCount(x, ':');
    DigitsCount(y, ':');
    DigitsCount(z, ':');
    ClockFieldsSplit(x, y, z);
    DigitsCount(x, '-');
    DigitsCount(y, '-');
    DigitsCount(z, '-');
    DashFree(x, y, z);
  }

  /** Joining dash-free fields with colons adds no dash. */
  lemma DashFree(x: string, y: string, z: string)
    requires Count(x, '-') == 0 && Count(y, '-') == 0 && Count(z, '-') == 0
    ensures Count(x + ":" + y + ":" + z, '-') == 0
  {
    var rest := y + ":" + z;
    assert x + ":" + y + ":" + z == x + [':'] + rest;
    CountConcat(x + [':'], rest, '-');
    CountConcat(x, [':'], '-');
    CountConcat(y + [':'], z, '-');
    CountConcat(y, [':'], '-');
  }

  /** Side `x` of a range names time `t`: it has no dash, is not empty, and
      reads as `t` once its seconds are filled in. */
  predicate Names(x: string, t: Time) {
    Count(x, '-') == 0 && |x| != 0 && ParseClock(WithSeconds(x)) == Ok(t)
  }

  /** str(t) names `t`. */
  lemma FormattedNames(t: Time)
    requires ValidTime(t)
    ensures Names(FormatTime(t), t)
  {
    Pad2Reads(t.hour);
    Pad2Reads(t.minute);
    Pad2Reads(t.second);
    ClockFieldsRead(Pad2(t.hour), Pad2(t.minute), Pad2(t.second));
  }

  /** "H:MM", without seconds and without a leading zero, names the time on the minute. */
  lemma ShortNames(t: Time)
    requires ValidTime(t) && t.second == 0
    ensures Names(ShortTime(t), t)
  {
    var h := if t.hour < 10 then [DigitChar(t.hour)] else Pad2(t.hour);
    Pad2Reads(t.hour);
    Pad2Reads(t.minute);
    Pad2Reads(0);
    assert ParseInt(h) == Some(t.hour) by {
      if t.hour < 10 {
        assert DigitsValue(h) == DigitsValue([]) * 10 + t.hour;
      }
    }
    DigitsCount(h, ':');
    DigitsCount(h, '-');
    DigitsCount(Pad2(t.minute), ':');
    DigitsCount(Pad2(t.minute), '-');
    CountConcat(h + ":", Pad2(t.minute), ':');
    CountConcat(h, ":", ':');
    CountConcat(h + ":", Pad2(t.minute), '-');
    CountConcat(h, ":", '-');
    assert ShortTime(t) + ":00" == h + ":" + Pad2(t.minute) + ":" + Pad2(0);
    ClockFieldsRead(h, Pad2(t.minute), Pad2(0));
  }

  /** Splitting a range at its one dash. */
  lemma RangeSides(day: Day, x: string, y: string)
    requires Count(x, '-') == 0 && Count(y, '-') == 0
    ensures TimespanOf(day, x + "-" + y) == SpanOfSides(day, WithSeconds(x), WithSeconds(y))
  {
    SplitAtJoin(x, y, '-');
  }

  lemma WithSecondsKeepsEmpty(x: string)
    ensures |WithSeconds(x)| == 0 <==> |x| == 0
  {
  }

  /** Both sides given: the span runs from the first time to the second on that day. */
  lemma SpanBoth(day: Day, x: string, y: string, b: Time, e: Time)
    requires Names(x, b) && Names(y, e)
    ensures TimespanOf(day, x + "-" + y) == Ok(Timespan(Combine(day, b), Combine(day, e)))
  {
    RangeSides(day, x, y);
  }

  /** The start left out: the span opens one window length before the end. */
  lemma SpanNoStart(day: Day, y: string, e: Time)
    requires Names(y, e)
    ensures TimespanOf(day, "-" + y) == Ok(Timespan(Combine(day, e) - ScanWindowLength, Combine(day, e)))
  {
    assert "-" + y == "" + "-" + y;
    RangeSides(day, "", y);
    assert WithSeconds("") == "";
    WithSecondsKeepsEmpty(y);
    assert SpanOfSides(day, "", WithSeconds(y)) == SpanEndingAt(day, WithSeconds(y));
    assert SpanEndingAt(day, WithSeconds(y)) == Ok(Timespan(Combine(day, e) - ScanWindowLength, Combine(day, e)));
  }

  /** The end left out: the span closes one window length after the start. */
  lemma SpanNoEnd(day: Day, x: string, b: Time)
    requires Names(x, b)
    ensures TimespanOf(day, x + "-") == Ok(Timespan(Combine(day, b), Combine(day, b) + ScanWindowLength))
  {
    assert x + "-" == x + "-" + "";
    RangeSides(day, x, "");
    assert WithSeconds("") == "";
    WithSecondsKeepsEmpty(x);
    StartOnlySides(day, WithSeconds(x), b);
  }

  lemma StartOnlySides(day: Day, start: string, b: Time)
    requires |start| != 0 && ParseClock(start) == Ok(b)
    ensures SpanOfSides(day, start, "") == Ok(Timespan(Combine(day, b), Combine(day, b) + ScanWindowLength))
  {
  }

  /** Leaving out the seconds and the hour's leading zero names the same span. */
  lemma SecondsOptional(day: Day, b: Time, e: Time)
    requires ValidTime(b) && ValidTime(e) && b.second == 0 && e.second == 0
    ensures TimespanOf(day, ShortTime(b) + "-" + ShortTime(e)) == TimespanOf(day, FormatTime(b) + "-" + FormatTime(e))
    ensures TimespanOf(day, FormatTime(b) + "-" + FormatTime(e)) == Ok(Timespan(Combine(day, b), Combine(day, e)))
  {
    ShortNames(b);
    ShortNames(e);
    FormattedNames(b);
    FormattedNames(e);
    SpanBoth(day, ShortTime(b), ShortTime(e), b, e);
    SpanBoth(day, FormatTime(b), FormatTime(e), b, e);
  }

  /** The hand-written times of the Timespan documentation's examples. */
  lemma ExampleTimesWritten()
    ensures ShortTime(Time(7, 30, 0)) == "7:30" && ShortTime(Time(8, 0, 0)) == "8:00"
    ensures ShortTime(Time(9, 0, 0)) == "9:00" && ShortTime(Time(16, 50, 0)) == "16:50"
  {
  }

  /** The example of the Timespan documentation: "7:30-8:00", the seconds
      and the leading zero left out, is 7:30 to 8:00. */
  lemma TimespanExampleShort(day: Day)
    ensures var a, b := Time(7, 30, 0), Time(8, 0, 0);
      TimespanOf(day, ShortTime(a) + "-" + ShortTime(b)) == Ok(Timespan(Combine(day, a), Combine(day, b)))
  {
    var a, b := Time(7, 30, 0), Time(8, 0, 0);
    ShortNames(a);
    ShortNames(b);
    SpanBoth(day, ShortTime(a), ShortTime(b), a, b);
  }

  /** int() of a field skips the whitespace around it, one plus sign and the
      whitespace after that sign. */
  lemma ParseIntExamples()
    ensures ParseInt(" 8") == Some(8) && ParseInt("30 ") == Some(30) && ParseInt("+5") == Some(5)
    ensures ParseInt("\t07\n") == Some(7) && ParseInt("+ 30") == Some(30)
  {
    assert TrimEnd(TrimStart(" 8")) == "8";
    assert TrimEnd(TrimStart("30 ")) == "30";
    assert TrimEnd(TrimStart("\t07\n")) == "07";
    assert TrimEnd(TrimStart("+ 30")) == "+ 30";
    assert TrimStart(" 30") == "30";
  }

  /** What int() refuses: nothing but blanks, a lone or doubled sign, and
      anything left between the digits. */
  lemma ParseIntRefusals()
    ensures ParseInt("").None? && ParseInt(" ").None? && ParseInt("+").None?
    ensures ParseInt("++5").None? && ParseInt("7 7").None? && ParseInt("7a").None?
    ensures ParseInt("+ ").None? && ParseInt("+ +5").None?
  {
    assert TrimEnd(TrimStart(" ")) == "";
    assert TrimEnd(TrimStart("+ ")) == "+";
    assert TrimEnd(TrimStart("+ +5")) == "+ +5";
    assert TrimStart(" +5") == "+5";
    assert TrimEnd(TrimStart("7 7")) == "7 7";
  }

  /** Spaces around the dash are allowed: "7:30 - 8:00" is 7:30 to 8:00,
      since int() skips the space left on each time's outer field. */
  lemma TimespanExampleSpaced(day: Day)
    ensures TimespanOf(day, "7:30 - 8:00") == Ok(Timespan(Combine(day, Time(7, 30, 0)), Combine(day, Time(8, 0, 0))))
  {
    SpacedSides();
    RangeSides(day, "7:30 ", " 8:00");
    SpacedClocks();
  }

  lemma SpacedSides()
    ensures "7:30 - 8:00" == "7:30 " + "-" + " 8:00"
    ensures Count("7:30 ", '-') == 0 && Count(" 8:00", '-') == 0
    ensures WithSeconds("7:30 ") == "7:30 :00" && WithSeconds(" 8:00") == " 8:00:00"
  {
  }

  lemma SpacedClocks()
    ensures ParseClock("7:30 :00") == Ok(Time(7, 30, 0)) && ParseClock(" 8:00:00") == Ok(Time(8, 0, 0))
  {
    assert "7:30 :00" == "7" + ":" + "30 " + ":" + "00";
    assert " 8:00:00" == " 8" + ":" + "00" + ":" + "00";
    SpacedFields();
    ClockFieldsSplit("7", "30 ", "00");
    ClockFieldsSplit(" 8", "00", "00");
  }

  lemma SpacedFields()
    ensures ParseInt("7") == Some(7) && ParseInt("30 ") == Some(30)
    ensures ParseInt(" 8") == Some(8) && ParseInt("00") == Some(0)
  {
    assert TrimEnd(TrimStart("30 ")) == "30" && TrimEnd(TrimStart(" 8")) == "8";
  }

  /** "-9:00" is the half hour before nine. */
  lemma TimespanExampleNoStart(day: Day)
    ensures var nine := Time(9, 0, 0);
      TimespanOf(day, "-" + ShortTime(nine)) == Ok(Timespan(Combine(day, Time(8, 30, 0)), Combine(day, nine)))
  {
    var nine := Time(9, 0, 0);
    assert Combine(day, Time(8, 30, 0)) == Combine(day, nine) - ScanWindowLength;
    ShortNames(nine);
    SpanNoStart(day, ShortTime(nine), nine);
  }

  /** "16:50-" is the half hour after 16:50. */
  lemma TimespanExampleNoEnd(day: Day)
    ensures var late := Time(16, 50, 0);
      TimespanOf(day, ShortTime(late) + "-") == Ok(Timespan(Combine(day, late), Combine(day, Time(17, 20, 0))))
  {
    var late := Time(16, 50, 0);
    assert Combine(day, Time(17, 20, 0)) == Combine(day, late) + ScanWindowLength;
    ShortNames(late);
    SpanNoEnd(day, ShortTime(late), late);
  }

  /** Neither side given, or not exactly one dash: no span. */
  lemma SpanErrors(day: Day, timeRange: string)
    ensures TimespanOf(day, "-") == Err(NoTimes)
    ensures Count(timeRange, '-') != 1 ==> TimespanOf(day, timeRange) == Err(NotOneDash(timeRange))
  {
    assert "-" == "" + "-" + "";
    RangeSides(day, "", "");
  }

  /** Timespan.__cmp__ is antisymmetric and transitive. */
  lemma CompareSpansOrder(s: Timespan, t: Timespan, u: Timespan)
    ensures CompareSpans(s, t) == -CompareSpans(t, s)
    ensures CompareSpans(s, t) < 0 && CompareSpans(t, u) < 0 ==> CompareSpans(s, u) < 0
    ensures CompareSpans(s, t) <= 0 && CompareSpans(t, s) <= 0 ==> s == t
  {
  }

  // ---------------------------------------------------------------------------
  // What blocks are built from

  /** ClassBlock writes each window as "%s-%s" of two times and parses it
      back with Timespan; for valid times that gives exactly the span between
      them, which is how ClassBlockOf builds the windows. */
  lemma FormattedSpan(day: Day, b: Time, e: Time)
    requires ValidTime(b) && ValidTime(e)
    ensures TimespanOf(day, FormatTime(b) + "-" + FormatTime(e)) == Ok(Timespan(Combine(day, b), Combine(day, e)))
  {
    FormattedNames(b);
    FormattedNames(e);
    SpanBoth(day, FormatTime(b), FormatTime(e), b, e);
  }

  /** For a class on the hour, each window is one scan window long, the
      scan-in window closes at the start and the scan-out window is centred
      on the end of the class's last hour. */
  lemma ClassBlockOnTheHour(meetings: seq<Infobase.ClassMeeting>, m: Infobase.MeetingId)
    requires m < |meetings| && Infobase.Timed(meetings)
    requires meetings[m].timeStart.minute == 0 && meetings[m].timeStart.second == 0
    requires ClassBlockOf(meetings, m).Ok?
    ensures var b := ClassBlockOf(meetings, m).value;
      && b.startspan.end == Infobase.DatetimeStart(meetings[m])
      && b.startspan.end - b.startspan.begin == ScanWindowLength
      && b.endspan.end - b.endspan.begin == ScanWindowLength
      && b.endspan.begin + ScanWindowLength / 2 == Infobase.DatetimeStart(meetings[m]) + b.length * SecondsPerHour
  {
  }

  /** No meeting of the course that day: Block.__init__ as written raises
      IndexError, where the length 0 of its `except` clause was meant. */
  lemma BlockLengthWithoutMeeting(meetings: seq<Infobase.ClassMeeting>, course: nat, date: Day)
    requires Infobase.Timed(meetings)
    requires forall j | 0 <= j < |meetings| :: !(meetings[j].course == course && meetings[j].date == date)
    ensures BlockLengthAsWritten(meetings, course, date) == Err(NoMeeting(course, date))
    ensures BlockLength(meetings, course, date) == Ok(0)
  {
  }

  /** The input that shows it: with no class meetings at all, every block raises. */
  lemma BlockLengthAsWrittenRaises(date: Day)
    ensures BlockLengthAsWritten([], 1, date) == Err(NoMeeting(1, date))
    ensures BlockLength([], 1, date) == Ok(0)
  {
  }

  /** Where the course does meet, the two lengths agree. */
  lemma BlockLengthWithMeeting(meetings: seq<Infobase.ClassMeeting>, course: nat, date: Day, j: Infobase.MeetingId)
    requires Infobase.Timed(meetings) && j < |meetings| && meetings[j].course == course && meetings[j].date == date
    ensures BlockLengthAsWritten(meetings, course, date) == BlockLength(meetings, course, date)
  {
  }

  /** A start mark at `t` closes the scan-in window. */
  lemma MarkStartSpan(date: Day, t: Datetime)
    requires DayOf(t) == date
    ensures TimespanOf(date, "-" + FormatTime(TimeOf(t))) == Ok(Timespan(t - ScanWindowLength, t))
  {
    SplitCombines(t);
    StartMarkAt(date, TimeOf(t), t);
  }

  lemma StartMarkAt(date: Day, e: Time, t: Datetime)
    requires ValidTime(e) && Combine(date, e) == t
    ensures TimespanOf(date, "-" + FormatTime(e)) == Ok(Timespan(t - ScanWindowLength, t))
  {
    assert Timespan(Combine(date, e) - ScanWindowLength, Combine(date, e)) == Timespan(t - ScanWindowLength, t);
    FormattedNoStart(date, e);
  }

  /** An end mark at `t` opens the scan-out window. */
  lemma MarkEndSpan(date: Day, t: Datetime)
    requires DayOf(t) == date
    ensures TimespanOf(date, FormatTime(TimeOf(t)) + "-") == Ok(Timespan(t, t + ScanWindowLength))
  {
    SplitCombines(t);
    EndMarkAt(date, TimeOf(t), t);
  }

  lemma EndMarkAt(date: Day, b: Time, t: Datetime)
    requires ValidTime(b) && Combine(date, b) == t
    ensures TimespanOf(date, FormatTime(b) + "-") == Ok(Timespan(t, t + ScanWindowLength))
  {
    assert Timespan(Combine(date, b), Combine(date, b) + ScanWindowLength) == Timespan(t, t + ScanWindowLength);
    FormattedNoEnd(date, b);
  }

  /** str(e) with the start left out names the scan window closing at `e`. */
  lemma FormattedNoStart(day: Day, e: Time)
    requires ValidTime(e)
    ensures TimespanOf(day, "-" + FormatTime(e)) == Ok(Timespan(Combine(day, e) - ScanWindowLength, Combine(day, e)))
  {
    FormattedNames(e);
    SpanNoStart(day, FormatTime(e), e);
  }

  /** str(b) with the end left out names the scan window opening at `b`. */
  lemma FormattedNoEnd(day: Day, b: Time)
    requires ValidTime(b)
    ensures TimespanOf(day, FormatTime(b) + "-") == Ok(Timespan(Combine(day, b), Combine(day, b) + ScanWindowLength))
  {
    FormattedNames(b);
    SpanNoEnd(day, FormatTime(b), b);
  }

  /** The block the `k`-th pair of marks delimits. */
  function PairBlock(times: seq<Datetime>, k: nat, course: nat, date: Day, length: nat): Block
    requires 2 * k + 1 < |times|
  {
    Block(course, date, Timespan(times[2 * k] - ScanWindowLength, times[2 * k]),
          Timespan(times[2 * k + 1], times[2 * k + 1] + ScanWindowLength), length)
  }

  /** Block(course, date, "-" + str(start.time()), str(end.time()) + "-")
      for a pair of marks at `t1` and `t2`. */
  method NewMarkedBlock(meetings: seq<Infobase.ClassMeeting>, course: nat, date: Day, t1: Datetime, t2: Datetime)
    returns (b: Result<Block, Error>)
    requires Infobase.Timed(meetings) && DayOf(t1) == date && DayOf(t2) == date
    ensures var length := BlockLength(meetings, course, date);
      && (b.Err? <==> length.Err?)
      && (b.Err? ==> b.error == length.error)
      && (b.Ok? ==> b.value == Block(course, date, Timespan(t1 - ScanWindowLength, t1), Timespan(t2, t2 + ScanWindowLength), length.value))
  {
    MarkStartSpan(date, t1);
    MarkEndSpan(date, t2);
    b := BlockOf(meetings, course, date, "-" + FormatTime(TimeOf(t1)), FormatTime(TimeOf(t2)) + "-");
  }

  /** The loop of marked_blocks over the marks `times` of one day, taken
      two by two; an unpaired last mark raises ValueError. */
  method BlocksOfMarks(meetings: seq<Infobase.ClassMeeting>, course: nat, date: Day, times: seq<Datetime>)
    returns (r: Result<seq<Block>, Error>)
    requires Infobase.Timed(meetings) && forall k | 0 <= k < |times| :: DayOf(times[k]) == date
    ensures var length := BlockLength(meetings, course, date);
      r.Ok? <==> |times| % 2 == 0 && (|times| == 0 || length.Ok?)
    ensures var length := BlockLength(meetings, course, date);
      r.Err? ==> r.error == if |times| >= 2 && length.Err? then length.error else OddMarks(|times|)
    ensures r.Ok? ==> |r.value| == |times| / 2
    ensures r.Ok? ==> forall k | 0 <= k < |r.value| ::
      r.value[k] == PairBlock(times, k, course, date, BlockLength(meetings, course, date).value)
  {
    ghost var length := BlockLength(meetings, course, date);
    var blocks: seq<Block> := [];
    var k := 0;
    while 2 * k < |times|
      invariant 2 * k <= |times| && |blocks| == k
      invariant k > 0 ==> length.Ok?
      invariant forall q | 0 <= q < k :: blocks[q] == PairBlock(times, q, course, date, length.value)
    {
      if 2 * k + 1 == |times| {
        DivModOf(|times|, 2, k, 1);
        return Err(OddMarks(|times|));
      }
      var b := NewMarkedBlock(meetings, course, date, times[2 * k], times[2 * k + 1]);
      if b.Err? {
        assert |times| >= 2 && length.Err?;
        return Err(b.error);
      }
      assert b.value == PairBlock(times, k, course, date, length.value);
      var next := blocks + [b.value];
      assert forall q | 0 <= q < k :: next[q] == blocks[q];
      blocks := next;
      k := k + 1;
    }
    DivModOf(|times|, 2, k, 0);
    r := Ok(blocks);
  }

  /** marked_blocks: the marker's scans of the day, in time order, taken two
      by two; each pair delimits one block, its start span ending at the
      first scan and its end span beginning at the second. */
  method MarkedBlocks(meetings: seq<Infobase.ClassMeeting>, scans: seq<Infobase.Scan>, marker: Infobase.PersonId, course: nat, date: Day)
    returns (r: Result<seq<Block>, Error>)
    requires Infobase.Timed(meetings)
    ensures var times := MarkerTimes(scans, marker, date);
      var length := BlockLength(meetings, course, date);
      r.Ok? <==> |times| % 2 == 0 && (|times| == 0 || length.Ok?)
    ensures var times := MarkerTimes(scans, marker, date);
      var length := BlockLength(meetings, course, date);
      r.Err? ==> r.error == if |times| >= 2 && length.Err? then length.error else OddMarks(|times|)
    ensures r.Ok? ==> |r.value| == |MarkerTimes(scans, marker, date)| / 2
    ensures r.Ok? ==> forall k | 0 <= k < |r.value| ::
      r.value[k] == PairBlock(MarkerTimes(scans, marker, date), k, course, date, BlockLength(meetings, course, date).value)
  {
    var times := MarkerTimes(scans, marker, date);
    r := BlocksOfMarks(meetings, course, date, times);
  }

  // ---------------------------------------------------------------------------
  // What the breakdown says

  /** absent_people: the reported students who are not present are exactly
      the students outside present_people_pks. */
  lemma AbsentAreTheRest(people: seq<Infobase.Person>, ids: seq<Infobase.PersonId>, present: set<Infobase.PersonId>, day: Day)
    requires Infobase.AllIds(people, ids) && RowsOf(people, ids, present, day).Ok?
    ensures var rows := RowsOf(people, ids, present, day).value;
      (set k | 0 <= k < |rows| && !rows[k].present :: rows[k].person) == (set k | 0 <= k < |ids| :: ids[k]) - present
  {
    var rows := RowsOf(people, ids, present, day).value;
    var absent := set k | 0 <= k < |rows| && !rows[k].present :: rows[k].person;
    forall x | x in absent ensures x in (set k | 0 <= k < |ids| :: ids[k]) - present {
      var k :| 0 <= k < |rows| && !rows[k].present && rows[k].person == x;
      assert rows[k] == Row(ids[k], Infobase.Section(people[ids[k]], day).value, ids[k] in present);
    }
    forall x | x in (set k | 0 <= k < |ids| :: ids[k]) - present ensures x in absent {
      var k :| 0 <= k < |ids| && ids[k] == x;
      assert rows[k] == Row(ids[k], Infobase.Section(people[ids[k]], day).value, ids[k] in present);
    }
  }

  /** Present means a barcode scan in each window. */
  lemma PresentMeansBothWindows(people: seq<Infobase.Person>, scans: seq<Infobase.Scan>, block: Block, date: Day, x: Infobase.PersonId)
    ensures x in PresentIds(people, scans, block, date) <==>
      (exists j | 0 <= j < |scans| :: IsBarcodeScan(people, scans[j], date) && scans[j].person == x &&
         block.startspan.begin <= scans[j].timestamp <= block.startspan.end) &&
      (exists j | 0 <= j < |scans| :: IsBarcodeScan(people, scans[j], date) && scans[j].person == x &&
         block.endspan.begin <= scans[j].timestamp <= block.endspan.end)
  {
  }

  /** More scans never make a present student absent. */
  lemma PresentGrows(people: seq<Infobase.Person>, scans: seq<Infobase.Scan>, more: seq<Infobase.Scan>, block: Block, date: Day)
    ensures PresentIds(people, scans, block, date) <= PresentIds(people, scans + more, block, date)
  {
    var all := scans + more;
    forall span: Timespan ensures ScannedWithin(people, scans, date, span) <= ScannedWithin(people, all, date, span) {
      forall x | x in ScannedWithin(people, scans, date, span) ensures x in ScannedWithin(people, all, date, span) {
        var j :| 0 <= j < |scans| && IsBarcodeScan(people, scans[j], date) &&
                 span.begin <= scans[j].timestamp <= span.end && scans[j].person == x;
        assert all[j] == scans[j];
      }
    }
  }
}
