# NTU Course2Cal — a Dafny model of the course parser, the calendar exports and the course screens

NTU Course2Cal is an iOS app. A student copies the list of selected courses
from National Taiwan University's course system and pastes it into the app.
The app turns the text into course records and shows them in two places:

- a list of course cards, one per course;
- a weekly timetable.

The app then exports the selected courses as weekly repeating events, to
either of two places:

- the device calendar;
- Google Calendar, through a simple exporter or an advanced one.

This project models that core with pure functions over immutable data, and
proves what the app promises about it. The modules follow the app's files.

- `Models` (`Models.swift`): the `Course` record and the period timetable
  (`getStartTime`, `getEndTime`).
- `TimeSegment`, `CourseBlock` (`CourseViewModel.swift`, `parseText` and
  `parseTime`). What they cover:
  - the per-match body of the parser: name, teacher, time, location, credits
    and notes;
  - how a time field such as "一 A,B,C,D / 三 5,6" splits into one record per
    weekly session.
- `Periods` (`MyCoursesView.swift`): `parsePeriods` and `displayPeriod`.
- `Occurrence` (`calculateDate`): the first class instant, on the first day
  on or after the semester start that falls on the course's weekday.
- `Export` (`CourseViewModel.swift`). What it covers:
  - the events built by the device export and by both Google exports;
  - their messages and outcome classification;
  - the choice of the default Google calendar after loading the calendar list.
- `Grouping`, `TimeLines` (`MyCoursesView.swift`). What they cover:
  - the grouping of records into cards, sorted by name;
  - the card toggle's getter and setter;
  - the card's "上課時間" lines (`timeLines`, `formatTimeSegment`).
- `Weekly` (`WeeklyScheduleView.swift`). What it covers:
  - the grid;
  - the course shown in a cell;
  - the card a tapped cell opens, and that card's toggle.
- `Base`, `Text`, `Numbers`: Swift library behaviour the core relies on:
  - `Optional`;
  - `components(separatedBy:)`, `trimmingCharacters(in:)`, `joined`;
  - `Int(String)`, `"\(n)"`, `Character.isNumber`.

Conventions:

- A date is a day number counted from 1970-01-01, which was a Thursday.
- An instant is minutes since day 0 in one fixed time zone.
- `UUID()` is a caller-supplied consecutive number.
- Permission answers, HTTP replies and whether a URL parses are parameters.

Two behaviours of the code are easy to misread, and the model follows the
code in both:

- The first class starts at the time of the first period listed, not the
  earliest one. `OpeningPeriodExamples` shows this for [7, 3].
- "3.0 學分" gives 30 credits, not 3, because every number character of the
  line is run together before it is read (`CreditsRunDigitsTogether`).

Where the code and its own comments disagree, the model follows the code:

- The example above `timeLines` (MyCoursesView.swift:229-231) shows lines
  without "週", and gives "12:20 ~ 13:50" for "三 5,6". The code writes "週"
  in front of the day word, and ends a range at the end of its last period,
  so that segment gives "週三 5 ~ 6 節（12:20 ~ 14:10）". `FormatMondayExample`
  and `FormatSinglePeriodExample` state lines as the code writes them.

## Model

| member | source | states |
|---|---|---|
| Models.NewCourse | NTU-Course2Cal/Models.swift:12-23 | A new record is selected, has no credits and empty notes, and keeps every field it was given. |
| Models.Selected | NTU-Course2Cal/CourseViewModel.swift:287 | The `isSelected` filter keeps selected members of the list, every selected course, and is empty exactly when no course is selected. |
| Models.SelectedConcat | NTU-Course2Cal/CourseViewModel.swift:287 | The filter keeps list order and repetitions: what it keeps of `a + b` is what it keeps of `a` followed by what it keeps of `b`, and one course is kept exactly when it is selected. |
| Models.StartTime | NTU-Course2Cal/Models.swift:27-46 | Every period 0..14 starts at an "HH:mm" time from 07:10 and before 22:00; any other number reads "00:00". |
| Models.EndTime | NTU-Course2Cal/Models.swift:48-67 | Every period 0..14 ends at an "HH:mm" time after 07:10 and by 22:00; any other number reads "00:00". |
| Models.PeriodLasts50 | NTU-Course2Cal/Models.swift:27-67 | Each period of the timetable lasts exactly 50 minutes. |
| Models.NoOverlap | NTU-Course2Cal/Models.swift:27-67 | A period ends no later than the next one starts. |
| Models.StartsIncrease | NTU-Course2Cal/Models.swift:27-46 | Later periods start strictly later. |
| Models.SlotsDisjoint | NTU-Course2Cal/Models.swift:27-67 | Any earlier period ends no later than any later one starts, so the timetable slots never overlap. |
| Text.Split | NTU-Course2Cal/CourseViewModel.swift:121 | `components(separatedBy:)` gives one more part than there are separators, and no part holds a separator. |
| Text.SplitJoin | NTU-Course2Cal/CourseViewModel.swift:114-118 | Cutting a text joined with a separator at that separator gives back the parts, when no part holds one. |
| Text.TrimInfix | NTU-Course2Cal/CourseViewModel.swift:124-125 | Trimming removes a run of trimmed characters from each end and nothing else: the result is an infix `s[i..j]` with only trimmed characters outside it. |
| Text.TrimShape | NTU-Course2Cal/CourseViewModel.swift:124-125 | Trimming gives empty text exactly when the text is all blanks; otherwise the result neither starts nor ends with a blank. Text without blanks is left unchanged. |
| Numbers.ParseInt | NTU-Course2Cal/CourseViewModel.swift:176 | `Int(String)` accepts exactly an optional sign followed by ASCII digits whose value a 64-bit `Int` holds, and gives that value, leading zeros and a `+` included; anything else is nil. |
| Numbers.ParseIntExamples | NTU-Course2Cal/CourseViewModel.swift:176 | "+7" and "007" read as 7, and a lone "-" is not a number. |
| Numbers.DecimalRoundTrip | NTU-Course2Cal/MyCoursesView.swift:301 | `Int("\(n)")` is `n` for every 64-bit integer. |
| Numbers.NumberCharsShape | NTU-Course2Cal/CourseViewModel.swift:101 | Filtering with `isNumber` keeps only number characters and keeps every one of them; an all-digit text is unchanged. |
| Numbers.NumberCharsConcat | NTU-Course2Cal/CourseViewModel.swift:101 | The filter keeps order and repetitions: what it keeps of `a + b` is what it keeps of `a` followed by what it keeps of `b`, and one character is kept exactly when it is a number. |
| Periods.LetterPeriod | NTU-Course2Cal/MyCoursesView.swift:280-284 | Only a single letter is read as a letter period, and its value is 11..14. |
| Periods.PieceValue | NTU-Course2Cal/MyCoursesView.swift:274-286 | A piece that is read yields a value a 64-bit `Int` holds. |
| Periods.CleanPieceValue | NTU-Course2Cal/MyCoursesView.swift:275-286 | A piece without spaces is read as an integer if `Int` accepts it, and otherwise as a letter A..D. |
| Periods.LetterPiece | NTU-Course2Cal/MyCoursesView.swift:280-284 | "A", "B", "C" and "D" are read as 11, 12, 13 and 14. |
| Periods.PeriodsComeFromPieces | NTU-Course2Cal/MyCoursesView.swift:270-290 | Every period read comes from some comma-separated piece. |
| Periods.PeriodsOfConcat | NTU-Course2Cal/MyCoursesView.swift:274-287 | Pieces are read independently: the periods of two runs of pieces are those of the first followed by those of the second. |
| Periods.DropUnreadablePiece | NTU-Course2Cal/MyCoursesView.swift:285-286 | A piece with no value is dropped without changing what its neighbours give. |
| Periods.DisplayRoundTrip | NTU-Course2Cal/MyCoursesView.swift:270-302 | `parsePeriods(displayPeriod(p))` is `[p]` for every 64-bit integer. |
| Periods.DisplayInjective | NTU-Course2Cal/MyCoursesView.swift:294-302 | Distinct periods are displayed differently. |
| TimeSegment.DetectWeekday | NTU-Course2Cal/CourseViewModel.swift:160-169 | The weekday is that of the first symbol, in the order 日一二三四五六, found anywhere in the segment. Monday (2) is the default when none occurs. |
| TimeSegment.ParseTime | NTU-Course2Cal/CourseViewModel.swift:159-190 | The weekday read is the one `DetectWeekday` picks, so one of 1..7 with 日 checked first and Monday as the default. |
| TimeSegment.AppendPiecesReadsPieces | NTU-Course2Cal/CourseViewModel.swift:173-187 | The period loop appends the values of the pieces that have one, in piece order, after what it started with. |
| TimeSegment.ParseTimeAgreesWithParsePeriods | NTU-Course2Cal/CourseViewModel.swift:171-188 | `parseTime` reads from the last word of a segment exactly the periods `parsePeriods` reads from it. |
| TimeSegment.ParseTimePeriodCount | NTU-Course2Cal/CourseViewModel.swift:171-188 | There are at most as many periods as the last word has comma-separated pieces. |
| TimeSegment.ParseTimeMondayExample | NTU-Course2Cal/CourseViewModel.swift:159-190 | "一 1,2" is Monday (2) with periods [1, 2]. |
| CourseBlock.CourseNameShape | NTU-Course2Cal/CourseViewModel.swift:67-71 | The name is one trimmed line; a one-line name field is just trimmed. |
| CourseBlock.CourseNameIsLastLine | NTU-Course2Cal/CourseViewModel.swift:67-71 | The name is the last line of the name field, trimmed: whatever precedes the last line break is ignored. |
| CourseBlock.DetailLines | NTU-Course2Cal/CourseViewModel.swift:89-92 | There are never more detail lines than line breaks plus one. |
| CourseBlock.DetailLinesShape | NTU-Course2Cal/CourseViewModel.swift:89-92 | Every detail line is non-empty, trimmed of spaces and free of line breaks. At every line break the lines are those of the text before it followed by those after it, and a text without breaks gives itself trimmed unless it is blank. |
| CourseBlock.DetailLinesAtBreak | NTU-Course2Cal/CourseViewModel.swift:89-92 | The details are read line by line: `a`, a line break, then `b` give the lines of `a` followed by those of `b`; one line is kept, trimmed, exactly when it is not blank. |
| CourseBlock.CreditsIsFirstOffer | NTU-Course2Cal/CourseViewModel.swift:95-105 | Credits are absent exactly when no line offers a value; otherwise they are the value of the first line that does. |
| CourseBlock.CreditsRunDigitsTogether | NTU-Course2Cal/CourseViewModel.swift:100-104 | The line "3.0 學分" gives 30 credits. |
| CourseBlock.CreditsSkipUnreadableLine | NTU-Course2Cal/CourseViewModel.swift:100-104 | A "學分" line without a number leaves the credits unset, and a later "2 學分" line sets them to 2. |
| CourseBlock.HeadCountExamples | NTU-Course2Cal/CourseViewModel.swift:108-111 | "138 人" and "5人" are head-count lines and "約 30 人" is not. |
| CourseBlock.LastPeopleIndexIsLast | NTU-Course2Cal/CourseViewModel.swift:96-112 | The index kept is that of a head-count line with no head-count line after it. It is absent exactly when no line is a head count. |
| CourseBlock.NotesAfterLastHeadCount | NTU-Course2Cal/CourseViewModel.swift:114-118 | Notes are empty exactly when there is no head count or it is the last line. Otherwise cutting the notes at line breaks gives back exactly the lines after the last head count. |
| CourseBlock.NotesOfCleanLines | NTU-Course2Cal/CourseViewModel.swift:114-118 | The same as `NotesAfterLastHeadCount`, for any list of trimmed, non-empty detail lines. |
| CourseBlock.SegmentSlot | NTU-Course2Cal/CourseViewModel.swift:124-129 | A segment gives a session exactly when it is not blank after trimming and `parseTime` reads a period from it; the session is what `parseTime` reads from the trimmed segment. |
| CourseBlock.Sessions | NTU-Course2Cal/CourseViewModel.swift:121-129 | A time field gives at most one session per "/"-separated segment, each on a weekday 1..7 with at least one period. |
| CourseBlock.SessionsAtSlash | NTU-Course2Cal/CourseViewModel.swift:121-125 | The sessions of `a/b` are those of `a` followed by those of `b`. |
| CourseBlock.SessionsOfSegment | NTU-Course2Cal/CourseViewModel.swift:124-129 | A segment without "/" gives exactly its own session when it has one, and nothing otherwise. |
| CourseBlock.SessionsOfSegments | NTU-Course2Cal/CourseViewModel.swift:121-129 | Segments joined with "/" give one session per usable segment, in the order written, and nothing for the others. |
| CourseBlock.EmitSessionsShape | NTU-Course2Cal/CourseViewModel.swift:129-142 | The i-th record carries the block's shared fields, is selected and takes the i-th session's weekday and periods. |
| CourseBlock.ExpandAllShape | NTU-Course2Cal/CourseViewModel.swift:65-145 | The records are numbered consecutively, and each is a selected session on a weekday 1..7 with at least one period. |
| CourseBlock.ParseBlocksShape | NTU-Course2Cal/CourseViewModel.swift:65-145 | The same as `ExpandAllShape`, for the records of any list of block matches. |
| CourseBlock.ParseText | NTU-Course2Cal/CourseViewModel.swift:150-153 | The completion reports success exactly when at least one record came out. |
| CourseBlock.ParseTextNothingMatched | NTU-Course2Cal/CourseViewModel.swift:59-60 | Text with no block match gives an empty list and reports failure. |
| CourseBlock.ExpandAllConcat | NTU-Course2Cal/CourseViewModel.swift:65-145 | Blocks are expanded independently: two runs give the first run's records followed by the second's, numbered on from where the first stopped. |
| CourseBlock.PlanBlocksConcat | NTU-Course2Cal/CourseViewModel.swift:65-118 | Each block's fields and sessions depend on that block alone. |
| CourseBlock.ParseSingleBlock | NTU-Course2Cal/CourseViewModel.swift:121-144 | One block gives exactly one record per session of its time field. |
| CourseBlock.SingleBlockSiblings | NTU-Course2Cal/CourseViewModel.swift:130-141 | The records of one block differ only in identity, weekday and periods. |
| CourseBlock.ParseTextRepeatable | NTU-Course2Cal/CourseViewModel.swift:32-156 | Parsing the same text twice gives the same outcome and the same records, up to their fresh identities. |
| Occurrence.DayWeekday | NTU-Course2Cal/CourseViewModel.swift:251 | A day's weekday number is 1..7. |
| Occurrence.EpochWeekdays | NTU-Course2Cal/CourseViewModel.swift:251 | 1970-01-01 is a Thursday (5), and 1970-01-04 is a Sunday (1). |
| Occurrence.WeekdayNext | NTU-Course2Cal/CourseViewModel.swift:251 | The weekday advances by one each day and wraps from Saturday to Sunday. |
| Occurrence.DayDelta | NTU-Course2Cal/CourseViewModel.swift:252-253 | The day offset is the weekday difference, plus seven when it is negative, so it is 0..6 for valid weekdays. |
| Occurrence.CalculateDate | NTU-Course2Cal/CourseViewModel.swift:249-263 | The instant falls on the first class day, at the start time of the first listed period, or of period 1 when none is listed. |
| Occurrence.FirstClassDayIsFirstMatch | NTU-Course2Cal/CourseViewModel.swift:249-255 | The first class day is within a week from the start, falls on the course's weekday, and no earlier day from the start does. |
| Occurrence.SameWeekdayStartsAtOnce | NTU-Course2Cal/CourseViewModel.swift:252-255 | A course on the start date's own weekday starts on the start date. |
| Occurrence.TuesdayStartExample | NTU-Course2Cal/CourseViewModel.swift:252-255 | From a Tuesday start, Monday courses begin six days later and Wednesday courses the next day. |
| Occurrence.OpeningPeriodExamples | NTU-Course2Cal/CourseViewModel.swift:257 | No periods gives 08:10, and periods [7, 3] give 14:20, the start of the first listed period. |
| Export.WeeklyRuleRoundTrip | NTU-Course2Cal/CourseViewModel.swift:530-533 | The occurrence count is read back from the "RRULE:FREQ=WEEKLY;COUNT=" text for every 64-bit count. |
| Export.DeviceEvent | NTU-Course2Cal/CourseViewModel.swift:224-240 | The event has the course's name and location, the teacher line as its notes and the first class as its start. It lasts 50 minutes per listed period, has the single alarm `-minutes*60` exactly when the reminder setting is positive and none otherwise, and repeats weekly 16 times. |
| Export.ExportToDevice | NTU-Course2Cal/CourseViewModel.swift:198-222 | Success is reported exactly when access is granted without error. Only then are events saved, one per selected course. |
| Export.DeviceExportEvents | NTU-Course2Cal/CourseViewModel.swift:218-240 | Each saved event is the device event of the selected course at the same position: titled with its name, starting on its first class day and repeating weekly 16 times. |
| Export.SinglePeriodEndsOnTime | NTU-Course2Cal/CourseViewModel.swift:232 | A single-period event ends when the timetable says the period ends. |
| Export.TwoPeriodsEndBeforeTimetable | NTU-Course2Cal/CourseViewModel.swift:232 | An event in periods 1 and 2 ends at 09:50, although period 2 ends at 10:00. |
| Export.ClassifyOutcome | NTU-Course2Cal/CourseViewModel.swift:359-365 | The simple Google export reports success exactly when at least one course was exported. |
| Export.OutcomeShowsCount | NTU-Course2Cal/CourseViewModel.swift:359-362 | A success message shows the exported count right after "成功匯出 ", and it reads back as that count. The message is worded differently exactly when some course failed. |
| Export.GoogleEvent | NTU-Course2Cal/CourseViewModel.swift:310-334 | The simple export's event has the course's name, the simple description and the first class as its start. It lasts 50 minutes per period, has no alarm, and repeats weekly 16 times. Its location is the course's, left out exactly when the course has none. |
| Export.SimpleDescriptionLines | NTU-Course2Cal/CourseViewModel.swift:314-319 | The description is the teacher line, then a blank line and the notes' lines when there are notes. |
| Export.Delivered | NTU-Course2Cal/CourseViewModel.swift:345-356 | The success count is the number of requests answered with a 2xx status, so it never exceeds the requests sent and is positive exactly when some request was accepted. |
| Export.TargetCalendar | NTU-Course2Cal/CourseViewModel.swift:292 | The target is the selected calendar, or "primary" when none is selected, and never empty. |
| Export.ExportToGoogle | NTU-Course2Cal/CourseViewModel.swift:274-366 | A failed check (no user, no token, nothing selected, bad URL) sends nothing and reports its message. Otherwise one request is sent per selected course. |
| Export.GoogleExportSucceeds | NTU-Course2Cal/CourseViewModel.swift:274-366 | The simple export succeeds exactly when signed in with a token, a course is selected, the URL parses and some request is accepted. |
| Export.GoogleExportCounts | NTU-Course2Cal/CourseViewModel.swift:345-365 | Once the checks pass, the message is classified from the number of accepted requests and the number of the others. |
| Export.GoogleExportRequests | NTU-Course2Cal/CourseViewModel.swift:292-343 | Each request goes to the target calendar: the selected one, or "primary" when none is selected. It carries the user's bearer token and the simple event of the selected course at the same position. |
| Export.AdvancedDescriptionLines | NTU-Course2Cal/CourseViewModel.swift:535-540 | The advanced description is the teacher line, the time line, a blank line, then the notes' lines. |
| Export.AdvancedEvent | NTU-Course2Cal/CourseViewModel.swift:524-555 | The advanced export's event has the course's name and location, the advanced description and the first class as its start. It lasts 50 minutes per period, has no alarm, and has no recurrence exactly when the week count is not positive. |
| Export.AdvancedRecurrence | NTU-Course2Cal/CourseViewModel.swift:530-533 | For a positive week count the event repeats weekly exactly that many times. |
| Export.ExportAdvanced | NTU-Course2Cal/CourseViewModel.swift:501-581 | The advanced export reports success exactly when there is a token and a selected course, whatever the answers. Nothing is sent on failure or when the URL does not parse; otherwise one request per selected course. |
| Export.AdvancedExportRequests | NTU-Course2Cal/CourseViewModel.swift:519-565 | Each request goes to the given calendar, unchanged, with the user's bearer token and the advanced event of the selected course at the same position: its title, location, description, first-class start and end, and the `COUNT=weeks` rule. |
| Export.FirstPrimary | NTU-Course2Cal/CourseViewModel.swift:405 | `first(where:)` finds the earliest calendar marked primary, or nothing when none is. |
| Export.DefaultCalendarChoice | NTU-Course2Cal/CourseViewModel.swift:404-411 | The chosen calendar is "primary" for an empty list and otherwise a listed one. It is a primary calendar whenever one is listed. |
| Export.LoadCalendars | NTU-Course2Cal/CourseViewModel.swift:369-418 | Loading succeeds only for a signed-in user with a token. The list and the selection change exactly when it succeeds. |
| Export.LoadCalendarsSucceeds | NTU-Course2Cal/CourseViewModel.swift:387-413 | Loading succeeds exactly on a 2xx reply that decodes. It then keeps the list as received and selects its default calendar. |
| Grouping.KeyPositions | NTU-Course2Cal/WeeklyScheduleView.swift:287-290 | The positions listed hold records with the key, in ascending order. |
| Grouping.KeyPositionsComplete | NTU-Course2Cal/WeeklyScheduleView.swift:287-290 | Every record with the key is listed. |
| Grouping.Keys | NTU-Course2Cal/MyCoursesView.swift:28-30 | Each key appears once. |
| Grouping.KeysAreRecordKeys | NTU-Course2Cal/MyCoursesView.swift:28-30 | The keys are exactly the keys of the records. |
| Grouping.FirstIndex | NTU-Course2Cal/MyCoursesView.swift:47-49 | `firstIndex(of:)` finds the earliest equal record, and nothing exactly when none is equal. |
| Grouping.GroupOf | NTU-Course2Cal/MyCoursesView.swift:32-61 | A card's identity is its key. |
| Grouping.GroupOfUnique | NTU-Course2Cal/MyCoursesView.swift:32-61 | With no duplicate records, a card lists exactly the positions of its key. It shows the fields of its first record. |
| Grouping.StrLtTransitive | NTU-Course2Cal/MyCoursesView.swift:62 | The name order is transitive. |
| Grouping.StrLtTotal | NTU-Course2Cal/MyCoursesView.swift:62 | Any two different names are ordered. |
| Grouping.Insert | NTU-Course2Cal/MyCoursesView.swift:62 | Inserting a card adds exactly that card. |
| Grouping.InsertSorted | NTU-Course2Cal/MyCoursesView.swift:62 | Inserting into a name-sorted list keeps it sorted. |
| Grouping.SortByName | NTU-Course2Cal/MyCoursesView.swift:62 | Sorting is a permutation. |
| Grouping.SortByNameSorted | NTU-Course2Cal/MyCoursesView.swift:62 | The sorted list is ordered by name. |
| Grouping.GroupedCoursesSorted | NTU-Course2Cal/MyCoursesView.swift:27-63 | The cards are sorted by name, and are a permutation of the cards with one per distinct key. |
| Grouping.GroupedAreKeyGroups | NTU-Course2Cal/MyCoursesView.swift:27-63 | Every card shown is the card of one of the records' keys. |
| Grouping.KeyGroupIsGrouped | NTU-Course2Cal/MyCoursesView.swift:27-63 | Every record's key has its card shown. |
| Grouping.GroupedCoursesIndices | NTU-Course2Cal/MyCoursesView.swift:27-63 | With no duplicate records, every card lists exactly the positions of its key, and at least one. |
| Grouping.GroupedCoursesPartition | NTU-Course2Cal/MyCoursesView.swift:27-63 | With no duplicate records, every record is on exactly one card, the one with its key. |
| Grouping.DuplicateRecordsShareIndex | NTU-Course2Cal/MyCoursesView.swift:47-49 | Two equal records are both listed at the first one's position, [0, 0]. |
| Grouping.BarJoinInjective | NTU-Course2Cal/MyCoursesView.swift:29 | Joining with "|" is injective when the left parts hold no "|". |
| Grouping.KeyDeterminesFields | NTU-Course2Cal/MyCoursesView.swift:29 | When name, teacher and location hold no "|", equal keys mean equal name, teacher, location and time text. |
| Grouping.BarInFieldMergesCourses | NTU-Course2Cal/MyCoursesView.swift:29 | A course "A|B" taught by "C" and a course "A" taught by "B|C" get the same key, and so share one card. |
| Grouping.InRange | NTU-Course2Cal/MyCoursesView.swift:92 | The in-range positions are exactly the listed positions below the list's length. |
| Grouping.SetAtEffect | NTU-Course2Cal/MyCoursesView.swift:100-102 | Setting positions changes the flag of exactly those records. |
| Grouping.SetGroupSelectedEffect | NTU-Course2Cal/MyCoursesView.swift:98-103 | The card setter changes the flag of exactly the listed in-range records and leaves everything else alone. |
| Grouping.GroupToggleRoundTrip | NTU-Course2Cal/MyCoursesView.swift:89-103 | Reading the card toggle after setting it gives the value set, except that it reads off when no listed position is in range. |
| TimeLines.SeqMin | NTU-Course2Cal/MyCoursesView.swift:252-253 | The first period after sorting is a period read and no larger than any. |
| TimeLines.SeqMax | NTU-Course2Cal/MyCoursesView.swift:252-254 | The last period after sorting is a period read and no smaller than any. |
| TimeLines.SegmentSpan | NTU-Course2Cal/MyCoursesView.swift:242-254 | A formatted range never starts after it ends. |
| TimeLines.SpanOfPeriods | NTU-Course2Cal/MyCoursesView.swift:242-254 | A line is written exactly for segments of at least two words whose last word gives a period. The range runs from the lowest period read to the highest. |
| TimeLines.SpanOfParsedPeriods | NTU-Course2Cal/MyCoursesView.swift:242-254 | The same, stated with the periods `parseTime` reads from the segment. |
| TimeLines.SpanCoversPeriods | NTU-Course2Cal/MyCoursesView.swift:255-256 | For timetable periods, the time shown starts no later and ends no earlier than each period read. |
| TimeLines.FormattedLineParts | NTU-Course2Cal/MyCoursesView.swift:255-265 | A line starts with "週", the segment's first word and a space. It ends with the start time of the lowest period and the end time of the highest, in full-width brackets. |
| TimeLines.FormatMondayExample | NTU-Course2Cal/MyCoursesView.swift:242-266 | "一 1,2" becomes "週一 1 ~ 2 節（08:10 ~ 10:00）". |
| TimeLines.FormatSinglePeriodExample | NTU-Course2Cal/MyCoursesView.swift:242-266 | "三 6" becomes "週三 6 節（13:20 ~ 14:10）", without a range. |
| TimeLines.NoDayNoLine | NTU-Course2Cal/MyCoursesView.swift:242-244 | "1,2" gets no line, although `parseTime` reads periods [1, 2] from it. |
| TimeLines.TimeLinesWithinSessions | NTU-Course2Cal/MyCoursesView.swift:232-239 | A card never shows more time lines than the sessions the parser made from the same text, or than its "/"-separated segments. |
| TimeLines.TimeLinesAtSlash | NTU-Course2Cal/MyCoursesView.swift:232-239 | The lines of `a/b` are those of `a` followed by those of `b`. |
| TimeLines.TimeLinesOfSegment | NTU-Course2Cal/MyCoursesView.swift:232-239 | A segment with no "/" gives exactly one line, the formatted text of the trimmed segment, when it is non-empty and formats; otherwise it gives no line. |
| TimeLines.TimeLinesOfSegments | NTU-Course2Cal/MyCoursesView.swift:232-239 | Segments joined with "/" give, in the order written, the line of each segment that is non-empty after trimming and formats; the other segments give nothing. |
| Weekly.GridLayout | NTU-Course2Cal/WeeklyScheduleView.swift:28-29 | Each column header reads back under `parseTime` as its column's weekday, Monday to Saturday. Sunday has no column, and the rows are exactly periods 1..14. |
| Weekly.LabelIsDisplayPeriod | NTU-Course2Cal/WeeklyScheduleView.swift:233-241 | A row label is the period as the course cards display it, and reads back as that period. |
| Weekly.FirstMatch | NTU-Course2Cal/WeeklyScheduleView.swift:246 | `first(where:)` finds the earliest course meeting in the cell, and nothing exactly when no course does. |
| Weekly.CellFor | NTU-Course2Cal/WeeklyScheduleView.swift:245-275 | A cell is filled exactly when some course meets in it, and shows at most 15 characters. |
| Weekly.CellShowsFirstCourse | NTU-Course2Cal/WeeklyScheduleView.swift:246-250 | A filled cell shows the first matching course's name cut to its first 15 characters: a prefix of the name, of length 15 or the whole name when that is shorter. |
| Weekly.CourseCellsFilled | NTU-Course2Cal/WeeklyScheduleView.swift:246 | Every course fills the cells of its weekday and periods, showing it or an earlier course. |
| Weekly.GroupForCell | NTU-Course2Cal/WeeklyScheduleView.swift:278-283 | A tapped cell opens a card exactly when the cell is filled. |
| Weekly.GroupForCellIndices | NTU-Course2Cal/WeeklyScheduleView.swift:278-302 | The card lists, in ascending order, exactly the positions sharing the first matching course's key, that course included. |
| Weekly.GroupForCellMatchesList | NTU-Course2Cal/WeeklyScheduleView.swift:277-302 | For unique records without "|" in their fields, the cell's card has the positions, name, teacher, location and time text of the list screen's card for that key, and that card is shown there. |
| Weekly.CellCardCreditsMayDiffer | NTU-Course2Cal/WeeklyScheduleView.swift:279-299 | The cell's card can show other credits than the list's card for the same key: it takes credits and notes from the first course in the cell, the list from the key's first record. |
| Weekly.SheetAndListGetters | NTU-Course2Cal/WeeklyScheduleView.swift:188-193 | The sheet's getter agrees with the list's on a non-empty list of in-range positions. The sheet's reads on for an empty list, where the list's reads off, and off for any position out of range. |
| Weekly.SheetToggleRoundTrip | NTU-Course2Cal/WeeklyScheduleView.swift:188-198 | Reading the sheet toggle after setting it gives the value set when every position is in range, and on for an empty list. |

## Left out

- The block regular expression of `parseText` (CourseViewModel.swift:43-57) is not modelled. The parser takes the captured five-field matches as its input.
- The background queue, the main-queue hand-off and the completion callbacks are not modelled. Neither are the `async` functions; each is one pure function.
- EventKit is left out: the permission prompt, the `iOS 17` branch, the default calendar and the save call. Granting and errors are parameters. A failed save is not reported by the app either.
- URLSession, JSON encoding and decoding, HTTP headers other than authorization, and Google Sign-In are left out. HTTP answers and the decoded calendar list are parameters, and whether a URL parses is a boolean parameter. The calendar list URL is a fixed literal that always parses, so its check is not modelled.
- Dates are day numbers, and instants are minutes in one fixed time zone. Daylight saving time, `DateFormatter`, RFC 3339 text and time zone identifiers are not modelled.
- Occurrence.CalculateDate: always gives an instant. In the app, `calculateDate` (CourseViewModel.swift:249-263) returns nil when its `DateFormatter` cannot read back the text it built, for example under a 12-hour clock override or in a daylight-saving gap. The device export then skips the course, the simple Google export counts it as failed (CourseViewModel.swift:304-307), and the advanced export skips it. These nil paths are not modelled, because the model has no time zone or clock format.
- `fetchGoogleCalendars` and `createGoogleCalendar` (CourseViewModel.swift:426-498) are not modelled. They are network wrappers that the export screens call, with no logic of their own.
- `@AppStorage`, `@Published` and the SwiftUI views are not modelled, including which card is expanded, alerts and sheet presentation. The start date, the reminder minutes, the selected calendar and the course list are plain inputs.
- Swift strings are sequences of grapheme clusters; here they are sequences of Unicode scalars. This affects `prefix(15)` and the name sort. The sort compares code points, without the Unicode normalisation Swift applies.
- `Character.isNumber` and the `\d` of the head-count pattern are approximated by explicit character sets. These sets hold ASCII, full-width and Arabic-Indic digits, and for `isNumber` some CJK numerals, superscripts and fractions.
- The order of `Dictionary(grouping:)` is unspecified. The model lists groups in order of first appearance before the stable sort by name, so cards with equal names appear in that order.
- `UUID()` is a counter supplied by the caller.
- Export.DeviceEvent: does not model the overflow of `-notifyMinutesBefore * 60` for reminder values near the 64-bit limit, because integers here are unbounded.
- CourseBlock.Sessions: its own contract bounds the number of sessions. That each usable segment gives exactly its own session, in order, is stated by `SessionsOfSegment`, `SessionsOfSegments` and `SessionsAtSlash`.
- CourseBlock.DetailLines: its own contract is a count bound. The line-by-line reading is stated by `DetailLinesShape` and `DetailLinesAtBreak`.
- TimeLines.FormatTimeSegment: carries no contract of its own. Its behaviour is stated by `SpanOfPeriods`, `SpanCoversPeriods` and the two example lemmas.
- TimeLines.TimeLines: carries no contract of its own. Its value is stated by `TimeLinesOfSegment`, `TimeLinesOfSegments` and `TimeLinesAtSlash`, and its bound by `TimeLinesWithinSessions`.
- Grouping.GroupOf: its own contract states only the card's identity. The listed positions and fields are stated by `GroupOfUnique` for lists without duplicate records, and by `DuplicateRecordsShareIndex` for the duplicate case.
