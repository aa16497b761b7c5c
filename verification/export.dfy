/**
 * Turning selected courses into calendar events: the device calendar
 * export, the two Google Calendar exports, the classification of their
 * outcomes, and the choice of a default Google calendar.
 *
 * Permission prompts, HTTP replies and URL parsing are outside the model:
 * they arrive as parameters. Times are instants in minutes as in
 * `Occurrence`; alarm offsets are seconds relative to the start, as the
 * calendar store takes them.
 */
module Export {
  import opened Base
  import opened Text
  import opened Numbers
  import opened Models
  import opened Occurrence

  /** One exported event. `location` and `description` are absent where
      the exporter leaves the field out. */
  datatype Event = Event(
    title: string,
    location: Option<string>,
    description: Option<string>,
    start: int,
    end: int,
    alarmOffsets: seq<int>,
    recurrence: seq<string>)

  /** What an export reports to the screen: a success flag and a message. */
  datatype Outcome = Outcome(ok: bool, message: string)

  /** Every exporter gives an event fifty minutes per listed period. */
  const SESSION_MINUTES: nat := 50

  /** Weekly repetitions of the device calendar export and of the simple
      Google export, and the default of the advanced one. */
  const SEMESTER_WEEKS: nat := 16

  /** The end of an event that starts at `start` and covers `periods`. */
  function SessionEnd(start: int, periods: seq<int>): int {
    start + SESSION_MINUTES * |periods|
  }

  // ----- Recurrence rules ---------------------------------------------------

  const RRULE_PREFIX: string := "RRULE:FREQ=WEEKLY;COUNT="

  /** A weekly recurrence rule with `count` occurrences, in the text form
      of RFC 5545 section 3.3.10 that the Google exporters send. The device
      calendar export builds the same rule as a recurrence object. */
  function WeeklyRule(count: int): string {
    RRULE_PREFIX + DecimalString(count)
  }

  /** The occurrence count of a weekly rule, if `rule` is one. */
  function RuleCount(rule: string): Option<int> {
    if |rule| >= |RRULE_PREFIX| && rule[..|RRULE_PREFIX|] == RRULE_PREFIX
    then ParseInt(rule[|RRULE_PREFIX|..])
    else None
  }

  /** Every count a Swift `Int` can hold is read back from its rule. */
  lemma WeeklyRuleRoundTrip(count: int)
    requires InInt64(count)
    ensures RuleCount(WeeklyRule(count)) == Some(count)
  {
    var r := WeeklyRule(count);
    assert r[..|RRULE_PREFIX|] == RRULE_PREFIX;
    assert r[|RRULE_PREFIX|..] == DecimalString(count);
    DecimalRoundTrip(count);
  }

  // ----- Device calendar ----------------------------------------------------

  const TEACHER_LABEL: string := "授課老師："

  /** The line naming the teacher, which every exporter's text starts with. */
  function TeacherLine(teacher: string): string {
    TEACHER_LABEL + teacher
  }

  /** `createEvent(for:)`: the course's name and location, the teacher as
      the notes, the first class as the start, an alarm `notify` minutes
      before only when `notify` is positive, and sixteen weekly
      occurrences. */
  function DeviceEvent(c: Course, startDay: int, notify: int): (e: Event)
    ensures e.title == c.name && e.location == Some(c.location)
    ensures e.description == Some(TeacherLine(c.teacher))
    ensures e.start == CalculateDate(startDay, c.weekday, c.periods)
    ensures e.end - e.start == SESSION_MINUTES * |c.periods|
    ensures e.alarmOffsets == [] <==> notify <= 0
    ensures notify > 0 ==> e.alarmOffsets == [-notify * 60]
    ensures forall i :: 0 <= i < |e.alarmOffsets| ==> e.alarmOffsets[i] < 0
    ensures |e.recurrence| == 1 && RuleCount(e.recurrence[0]) == Some(SEMESTER_WEEKS)
  {
    WeeklyRuleRoundTrip(SEMESTER_WEEKS);
    var start := CalculateDate(startDay, c.weekday, c.periods);
    Event(c.name, Some(c.location), Some(TeacherLine(c.teacher)),
          start, SessionEnd(start, c.periods),
          if notify > 0 then [-notify * 60] else [],
          [WeeklyRule(SEMESTER_WEEKS)])
  }

  /** The result of `exportToCalendar(completion:)`: the reported outcome
      and the events saved, in course order. */
  datatype DeviceExport = DeviceExport(outcome: Outcome, saved: seq<Event>)

  /** `exportToCalendar(completion:)` and `saveEventsToCalendar()`: with
      access granted and no error, one event per selected course is saved
      and success is reported; otherwise nothing is saved. A failed save
      is not reported. */
  function ExportToDevice(granted: bool, failed: bool, courses: seq<Course>,
                          startDay: int, notify: int): (r: DeviceExport)
    ensures r.outcome.ok <==> granted && !failed
    ensures !r.outcome.ok ==> r.saved == []
    ensures r.outcome.ok ==> |r.saved| == |Selected(courses)|
  {
    if granted && !failed then
      var sel := Selected(courses);
      DeviceExport(Outcome(true, "成功匯入"),
                   seq(|sel|, i requires 0 <= i < |sel| => DeviceEvent(sel[i], startDay, notify)))
    else
      DeviceExport(Outcome(false, "沒有行事曆權限"), [])
  }

  /** Each saved event belongs to a selected course, in list order, and
      repeats weekly sixteen times from that course's first class. */
  lemma DeviceExportEvents(granted: bool, failed: bool, courses: seq<Course>,
                           startDay: int, notify: int, i: int)
    requires granted && !failed
    requires 0 <= i < |Selected(courses)|
    ensures var e := ExportToDevice(granted, failed, courses, startDay, notify).saved[i];
      var c := Selected(courses)[i];
      && c in courses && c.isSelected
      && e == DeviceEvent(c, startDay, notify)
      && e.title == c.name
      && e.start / MINUTES_PER_DAY == FirstClassDay(startDay, c.weekday)
      && |e.recurrence| == 1 && RuleCount(e.recurrence[0]) == Some(16)
  {
    WeeklyRuleRoundTrip(SEMESTER_WEEKS);
  }

  /** A single-period event ends exactly when the timetable says the
      period ends. */
  lemma SinglePeriodEndsOnTime(c: Course, startDay: int, notify: int)
    requires |c.periods| == 1 && 0 <= c.periods[0] <= 14
    ensures DeviceEvent(c, startDay, notify).end % MINUTES_PER_DAY == EndMinutes(c.periods[0])
  {
    var p := c.periods[0];
    var d := FirstClassDay(startDay, c.weekday);
    PeriodLasts50(p);
    assert DeviceEvent(c, startDay, notify).end == d * MINUTES_PER_DAY + EndMinutes(p);
    InstantOfDay(d, EndMinutes(p));
  }

  /** Over two periods the flat length ignores the break between them: a
      class in periods 1 and 2 (08:10 to 10:00 by the timetable) is
      exported as ending at 09:50. */
  lemma TwoPeriodsEndBeforeTimetable(c: Course, startDay: int, notify: int)
    requires c.periods == [1, 2]
    ensures DeviceEvent(c, startDay, notify).end % MINUTES_PER_DAY == 9 * 60 + 50
    ensures EndMinutes(2) == 10 * 60
  {
    var d := FirstClassDay(startDay, c.weekday);
    assert DeviceEvent(c, startDay, notify).end == d * MINUTES_PER_DAY + 9 * 60 + 50;
    InstantOfDay(d, 9 * 60 + 50);
  }

  // ----- Outcome of a Google export -----------------------------------------

  const GOOGLE_EXPORT_FAILED: string := "匯出到 Google 行事曆失敗"

  /** The message of the simple Google export once every request has been
      answered: full success, partial success, or failure. */
  function ClassifyOutcome(success: nat, fail: nat): (o: Outcome)
    ensures o.ok <==> success > 0
  {
    if success > 0 && fail == 0 then
      Outcome(true, "成功匯出 " + DecimalString(success) + " 堂課到 Google 行事曆")
    else if success > 0 then
      Outcome(true, "成功匯出 " + DecimalString(success) + " 堂課，有 " + DecimalString(fail) + " 堂失敗")
    else
      Outcome(false, GOOGLE_EXPORT_FAILED)
  }

  const SUCCESS_PREFIX: string := "成功匯出 "

  /** A success message shows the number of exported courses right after
      its prefix, and a partial success is worded differently from a full
      one. */
  lemma {:induction false} OutcomeShowsCount(success: nat, fail: nat)
    requires 0 < success && InInt64(success)
    ensures var m := ClassifyOutcome(success, fail).message;
      var k := |DecimalString(success)|;
      && |m| > |SUCCESS_PREFIX| + k + 3
      && m[..|SUCCESS_PREFIX|] == SUCCESS_PREFIX
      && ParseInt(m[|SUCCESS_PREFIX|..|SUCCESS_PREFIX| + k]) == Some(success)
      && (m[|SUCCESS_PREFIX| + k + 3] == '到' <==> fail == 0)
  {
    var m := ClassifyOutcome(success, fail).message;
    var d := DecimalString(success);
    var p := |SUCCESS_PREFIX|;
    var rest: string := if fail == 0 then " 堂課到 Google 行事曆"
                        else " 堂課，有 " + DecimalString(fail) + " 堂失敗";
    assert rest[3] == (if fail == 0 then '到' else '，');
    assert m == SUCCESS_PREFIX + d + rest;
    assert m[..p] == SUCCESS_PREFIX;
    assert m[p..p + |d|] == d;
    assert m[p + |d| + 3] == rest[3];
    DecimalRoundTrip(success);
  }

  // ----- Simple Google export ----------------------------------------------

  /** The Google sign-in state: no user, or a user with an access token
      (possibly empty). */
  datatype Account = SignedOut | SignedIn(token: string)

  /** One event insertion sent to the Calendar API. */
  datatype Request = Request(calendarId: string, authorization: string, event: Event)

  /** The result of a Google export: the reported outcome and the requests
      sent, in course order. */
  datatype GoogleExport = GoogleExport(outcome: Outcome, sent: seq<Request>)

  /** The simple export's description: the teacher line, then the notes
      after a blank line when there are any. */
  function SimpleDescription(teacher: string, notes: string): string {
    Join([TeacherLine(teacher)] + (if notes == "" then [] else [notes]), "\n\n")
  }

  /** The simple export's event: the course's name, no location when the
      course has none, the simple description, the first class as the
      start, no alarm and sixteen weekly occurrences. */
  function GoogleEvent(c: Course, startDay: int): (e: Event)
    ensures e.title == c.name
    ensures e.location == None <==> c.location == ""
    ensures e.location.Some? ==> e.location.value == c.location
    ensures e.description == Some(SimpleDescription(c.teacher, c.notes))
    ensures e.start == CalculateDate(startDay, c.weekday, c.periods)
    ensures e.end - e.start == SESSION_MINUTES * |c.periods|
    ensures e.alarmOffsets == []
    ensures |e.recurrence| == 1 && RuleCount(e.recurrence[0]) == Some(SEMESTER_WEEKS)
  {
    WeeklyRuleRoundTrip(SEMESTER_WEEKS);
    var start := CalculateDate(startDay, c.weekday, c.periods);
    var d := SimpleDescription(c.teacher, c.notes);
    assert d[..|TEACHER_LABEL|] == TEACHER_LABEL;
    Event(c.name,
          if c.location == "" then None else Some(c.location),
          if d == "" then None else Some(d),
          start, SessionEnd(start, c.periods), [],
          [WeeklyRule(SEMESTER_WEEKS)])
  }

  /** The description splits back into the teacher line, then a blank
      line and the lines of the notes when there are notes. */
  lemma SimpleDescriptionLines(teacher: string, notes: string)
    requires NoneIn(teacher, Newline)
    ensures Split(SimpleDescription(teacher, notes), Newline)
         == [TeacherLine(teacher)] + (if notes == "" then [] else [""] + Split(notes, Newline))
  {
    var t := TeacherLine(teacher);
    assert NoneIn(t, Newline);
    SplitNoSeparator(t, Newline);
    if notes != "" {
      var parts := [t] + [notes];
      assert parts[1..] == [notes];
      assert Join(parts[1..], "\n\n") == notes;
      assert SimpleDescription(teacher, notes) == Join(parts, "\n\n");
      assert SimpleDescription(teacher, notes) == t + "\n\n" + notes;
      assert t + "\n\n" + notes == t + ['\n'] + ("" + ['\n'] + notes);
      SplitAtSeparator(t, '\n', "" + ['\n'] + notes, Newline);
      SplitAtSeparator("", '\n', notes, Newline);
      assert "" + ['\n'] + notes == [] + ['\n'] + notes;
    }
  }

  /** The number of the first `n` requests that were answered with a 2xx
      status; `answers[i]` is the fate of request `i`, and a request with
      no answer counts as failed. */
  function Delivered(answers: seq<bool>, n: nat): (k: nat)
    ensures k <= n
    ensures k == |Accepted(answers, n)|
    ensures k > 0 <==> exists i :: 0 <= i < n && i < |answers| && answers[i]
  {
    if n == 0 then
      assert Accepted(answers, n) == {};
      0
    else
      var k := Delivered(answers, n - 1) + (if n - 1 < |answers| && answers[n - 1] then 1 else 0);
      AcceptedStep(answers, n);
      k
  }

  /** The positions among the first `n` whose request was answered with a
      2xx status. */
  function Accepted(answers: seq<bool>, n: nat): set<nat> {
    set i: nat | i < n && i < |answers| && answers[i]
  }

  lemma AcceptedStep(answers: seq<bool>, n: nat)
    requires n > 0
    ensures |Accepted(answers, n)| ==
            |Accepted(answers, n - 1)| + (if n - 1 < |answers| && answers[n - 1] then 1 else 0)
  {
    if n - 1 < |answers| && answers[n - 1] {
      assert Accepted(answers, n) == Accepted(answers, n - 1) + {n - 1};
    } else {
      assert Accepted(answers, n) == Accepted(answers, n - 1);
    }
  }

  /** The calendar the simple export writes to: the selected one, or the
      primary calendar when none is selected. */
  function TargetCalendar(selectedCalendarId: string): (id: string)
    ensures id != ""
    ensures selectedCalendarId == "" ==> id == "primary"
    ensures selectedCalendarId != "" ==> id == selectedCalendarId
  {
    if selectedCalendarId == "" then "primary" else selectedCalendarId
  }

  /** The first of the failure messages that applies, in the order the
      simple export checks them, or None when it goes ahead. */
  function SimplePrecheck(account: Account, courses: seq<Course>, urlOk: bool): Option<string> {
    if account.SignedOut? then Some("請先在「設定」頁登入 Google 帳號")
    else if account.token == "" then Some("找不到 Google 存取權杖")
    else if Selected(courses) == [] then Some("沒有勾選要匯出的課程")
    else if !urlOk then Some("Google Calendar API URL 錯誤")
    else None
  }

  /** `exportToGoogleCalendar(using:)`: after the checks, one insertion
      per selected course; the outcome counts the answers. `urlOk` says
      whether the events URL for the target calendar parses. */
  function ExportToGoogle(account: Account, selectedCalendarId: string, urlOk: bool,
                          courses: seq<Course>, startDay: int, answers: seq<bool>): (r: GoogleExport)
    ensures SimplePrecheck(account, courses, urlOk).Some? ==>
              r == GoogleExport(Outcome(false, SimplePrecheck(account, courses, urlOk).value), [])
    ensures SimplePrecheck(account, courses, urlOk).None? ==> |r.sent| == |Selected(courses)|
  {
    match SimplePrecheck(account, courses, urlOk)
    case Some(msg) => GoogleExport(Outcome(false, msg), [])
    case None =>
      var sel := Selected(courses);
      var sent := seq(|sel|, i requires 0 <= i < |sel| =>
        Request(TargetCalendar(selectedCalendarId), "Bearer " + account.token, GoogleEvent(sel[i], startDay)));
      var success := Delivered(answers, |sent|);
      GoogleExport(ClassifyOutcome(success, |sent| - success), sent)
  }

  /** The simple export reports success exactly when the user is signed in
      with a token, some course is selected, the URL parses and at least
      one insertion was accepted. */
  lemma GoogleExportSucceeds(account: Account, selectedCalendarId: string, urlOk: bool,
                             courses: seq<Course>, startDay: int, answers: seq<bool>)
    ensures ExportToGoogle(account, selectedCalendarId, urlOk, courses, startDay, answers).outcome.ok
        <==> && account.SignedIn? && account.token != "" && Selected(courses) != [] && urlOk
             && exists i :: 0 <= i < |Selected(courses)| && i < |answers| && answers[i]
  {
  }

  /** Once the checks pass, the message counts the insertions answered
      with a 2xx status as exported and the rest as failed. */
  lemma GoogleExportCounts(account: Account, selectedCalendarId: string, urlOk: bool,
                           courses: seq<Course>, startDay: int, answers: seq<bool>)
    requires SimplePrecheck(account, courses, urlOk).None?
    ensures var n := |Selected(courses)|;
      var ok := |Accepted(answers, n)|;
      ExportToGoogle(account, selectedCalendarId, urlOk, courses, startDay, answers).outcome
        == ClassifyOutcome(ok, n - ok)
  {
  }

  /** Every insertion goes to the target calendar with the user's token
      and carries the event of the selected course at the same position. */
  lemma GoogleExportRequests(account: Account, selectedCalendarId: string, urlOk: bool,
                             courses: seq<Course>, startDay: int, answers: seq<bool>, i: int)
    requires SimplePrecheck(account, courses, urlOk).None?
    requires 0 <= i < |Selected(courses)|
    ensures var q := ExportToGoogle(account, selectedCalendarId, urlOk, courses, startDay, answers).sent[i];
      && q.calendarId == TargetCalendar(selectedCalendarId)
      && (selectedCalendarId == "" ==> q.calendarId == "primary")
      && (selectedCalendarId != "" ==> q.calendarId == selectedCalendarId)
      && q.authorization == "Bearer " + account.token
      && q.event == GoogleEvent(Selected(courses)[i], startDay)
      && q.event.title == Selected(courses)[i].name
  {
  }

  // ----- Advanced Google export --------------------------------------------

  /** The advanced export's description: teacher, class time as typed, a
      blank line, then the notes. */
  function AdvancedDescription(c: Course): string {
    TeacherLine(c.teacher) + "\n" + "上課時間：" + c.rawTime + "\n\n" + c.notes
  }

  /** The description splits back into the teacher line, the time line, a
      blank line and the lines of the notes. */
  lemma AdvancedDescriptionLines(c: Course)
    requires NoneIn(c.teacher, Newline) && NoneIn(c.rawTime, Newline)
    ensures Split(AdvancedDescription(c), Newline)
         == [TeacherLine(c.teacher), "上課時間：" + c.rawTime, ""] + Split(c.notes, Newline)
  {
    var t := TeacherLine(c.teacher);
    var u := "上課時間：" + c.rawTime;
    assert NoneIn(t, Newline) && NoneIn(u, Newline);
    SplitNoSeparator(t, Newline);
    SplitNoSeparator(u, Newline);
    var tail := "" + ['\n'] + c.notes;
    assert AdvancedDescription(c) == t + ['\n'] + (u + ['\n'] + tail);
    SplitAtSeparator(t, '\n', u + ['\n'] + tail, Newline);
    SplitAtSeparator(u, '\n', tail, Newline);
    SplitAtSeparator("", '\n', c.notes, Newline);
  }

  /** The advanced export's event: the course's name, the location always
      present, the advanced description, the first class as the start, no
      alarm, and `weeks` weekly occurrences when `weeks` is positive,
      otherwise a single event. */
  function AdvancedEvent(c: Course, startDay: int, weeks: int): (e: Event)
    ensures e.title == c.name && e.location == Some(c.location)
    ensures e.description == Some(AdvancedDescription(c))
    ensures e.start == CalculateDate(startDay, c.weekday, c.periods)
    ensures e.end - e.start == SESSION_MINUTES * |c.periods|
    ensures e.alarmOffsets == []
    ensures e.recurrence == [] <==> weeks <= 0
  {
    var start := CalculateDate(startDay, c.weekday, c.periods);
    Event(c.name, Some(c.location), Some(AdvancedDescription(c)),
          start, SessionEnd(start, c.periods), [],
          if weeks > 0 then [WeeklyRule(weeks)] else [])
  }

  /** The advanced export's recurrence repeats the event exactly `weeks`
      times. */
  lemma AdvancedRecurrence(c: Course, startDay: int, weeks: int)
    requires 0 < weeks && InInt64(weeks)
    ensures var e := AdvancedEvent(c, startDay, weeks);
      |e.recurrence| == 1 && RuleCount(e.recurrence[0]) == Some(weeks)
  {
    WeeklyRuleRoundTrip(weeks);
  }

  /** `exportToGoogleCalendar(using:calendarID:weeks:)`: without a token or
      without a selected course nothing is sent; otherwise one insertion
      per selected course, all skipped when the events URL does not parse,
      and success is reported whatever the answers. */
  function ExportAdvanced(token: Option<string>, calendarId: string, urlOk: bool,
                          courses: seq<Course>, startDay: int, weeks: int): (r: GoogleExport)
    ensures r.outcome.ok <==> token.Some? && Selected(courses) != []
    ensures !r.outcome.ok ==> r.sent == []
    ensures r.outcome.ok && urlOk ==> |r.sent| == |Selected(courses)|
    ensures !urlOk ==> r.sent == []
  {
    if token.None? then GoogleExport(Outcome(false, "請先在設定頁登入 Google 帳號"), [])
    else
      var sel := Selected(courses);
      if sel == [] then GoogleExport(Outcome(false, "目前沒有選取要匯出的課程"), [])
      else if !urlOk then GoogleExport(Outcome(true, "已匯出課程到 Google 行事曆"), [])
      else
        GoogleExport(Outcome(true, "已匯出課程到 Google 行事曆"),
          seq(|sel|, i requires 0 <= i < |sel| =>
            Request(calendarId, "Bearer " + token.value, AdvancedEvent(sel[i], startDay, weeks))))
  }

  /** Each insertion of the advanced export goes to the given calendar,
      unchanged, with the user's token and the advanced event of the
      selected course at the same position. */
  lemma AdvancedExportRequests(token: Option<string>, calendarId: string, urlOk: bool,
                               courses: seq<Course>, startDay: int, weeks: int, i: int)
    requires token.Some? && urlOk
    requires 0 <= i < |Selected(courses)|
    ensures var q := ExportAdvanced(token, calendarId, urlOk, courses, startDay, weeks).sent[i];
      && q.calendarId == calendarId
      && q.authorization == "Bearer " + token.value
      && q.event == AdvancedEvent(Selected(courses)[i], startDay, weeks)
      && q.event.title == Selected(courses)[i].name
      && q.event.location == Some(Selected(courses)[i].location)
  {
  }

  // ----- Calendar list -----------------------------------------------------

  /** An entry of the user's calendar list. */
  datatype CalendarInfo = CalendarInfo(id: string, summary: string, primary: Option<bool>)

  /** The position of the first calendar marked primary. */
  function FirstPrimary(items: seq<CalendarInfo>): (r: Option<nat>)
    ensures r.Some? ==> r.value < |items| && items[r.value].primary == Some(true)
    ensures r.Some? ==> forall j :: 0 <= j < r.value ==> items[j].primary != Some(true)
    ensures r.None? ==> forall j :: 0 <= j < |items| ==> items[j].primary != Some(true)
    decreases |items|
  {
    if items == [] then None
    else if items[0].primary == Some(true) then Some(0)
    else match FirstPrimary(items[1..])
      case Some(k) => Some(k + 1)
      case None => None
  }

  /** The calendar chosen after loading the list: the first primary one,
      else the first one, else the "primary" alias. */
  function DefaultCalendarId(items: seq<CalendarInfo>): string {
    match FirstPrimary(items)
    case Some(k) => items[k].id
    case None => if items != [] then items[0].id else "primary"
  }

  /** The chosen identifier belongs to a listed calendar unless the list is
      empty, and it is a primary calendar's whenever one is listed. */
  lemma DefaultCalendarChoice(items: seq<CalendarInfo>)
    ensures items == [] ==> DefaultCalendarId(items) == "primary"
    ensures items != [] ==> exists i :: 0 <= i < |items| && items[i].id == DefaultCalendarId(items)
    ensures (exists i :: 0 <= i < |items| && items[i].primary == Some(true)) ==>
              exists i :: 0 <= i < |items| && items[i].primary == Some(true) && items[i].id == DefaultCalendarId(items)
  {
    if FirstPrimary(items).None? && items != [] {
      assert items[0].id == DefaultCalendarId(items);
    }
  }

  /** The reply to the calendar list request: a transport error, or an HTTP
      status (absent for a non-HTTP response) with the decoded list (absent
      when the body does not decode). */
  datatype ListReply = TransportError | Reply(status: Option<int>, items: Option<seq<CalendarInfo>>)

  /** The result of `loadGoogleCalendars(using:)`: the outcome, and the new
      calendar list and selected calendar when they change. */
  datatype LoadResult = LoadResult(outcome: Outcome, calendars: Option<seq<CalendarInfo>>, selectedId: Option<string>)

  /** `loadGoogleCalendars(using:)`. */
  function LoadCalendars(account: Account, reply: ListReply): (r: LoadResult)
    ensures r.outcome.ok <==> r.calendars.Some?
    ensures r.calendars.Some? <==> r.selectedId.Some?
    ensures r.outcome.ok ==> account.SignedIn? && account.token != ""
  {
    if account.SignedOut? then LoadResult(Outcome(false, "請先在設定頁登入 Google 帳號"), None, None)
    else if account.token == "" then LoadResult(Outcome(false, "找不到 Google 存取權杖"), None, None)
    else match reply
      case TransportError => LoadResult(Outcome(false, "讀取日曆列表發生錯誤"), None, None)
      case Reply(status, items) =>
        if status.None? || !(200 <= status.value < 300) then
          LoadResult(Outcome(false, "讀取日曆列表失敗（" + DecimalString(status.GetOr(-1)) + "）"), None, None)
        else if items.None? then
          LoadResult(Outcome(false, "讀取日曆列表發生錯誤"), None, None)
        else
          LoadResult(Outcome(true, "已載入 " + DecimalString(|items.value|) + " 個日曆"),
                     Some(items.value), Some(DefaultCalendarId(items.value)))
  }

  /** A successful load keeps the list as received and selects its default
      calendar; it succeeds exactly on a 2xx reply whose body decodes. */
  lemma LoadCalendarsSucceeds(account: Account, reply: ListReply)
    requires account.SignedIn? && account.token != ""
    ensures LoadCalendars(account, reply).outcome.ok
        <==> reply.Reply? && reply.status.Some? && 200 <= reply.status.value < 300 && reply.items.Some?
    ensures LoadCalendars(account, reply).outcome.ok ==>
              && LoadCalendars(account, reply).calendars == reply.items
              && LoadCalendars(account, reply).selectedId == Some(DefaultCalendarId(reply.items.value))
  {
  }
}
