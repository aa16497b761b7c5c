/**
 * The expanded course card's "上課時間" lines: each "/"-separated segment
 * of the time text, such as "一 1,2", becomes a line such as
 * "週一 1 ~ 2 節（08:10 ~ 10:00）".
 */
module TimeLines {
  import opened Base
  import opened Text
  import opened Numbers
  import opened Models
  import opened Periods
  import opened TimeSegment
  import opened CourseBlock

  function SeqMin(s: seq<int>): (m: int)
    requires s != []
    ensures m in s && forall j :: 0 <= j < |s| ==> m <= s[j]
    decreases |s|
  {
    if |s| == 1 then s[0]
    else
      var rest := SeqMin(s[1..]);
      assert rest in s;
      if s[0] <= rest then s[0] else rest
  }

  function SeqMax(s: seq<int>): (m: int)
    requires s != []
    ensures m in s && forall j :: 0 <= j < |s| ==> s[j] <= m
    decreases |s|
  {
    if |s| == 1 then s[0]
    else
      var rest := SeqMax(s[1..]);
      assert rest in s;
      if s[0] >= rest then s[0] else rest
  }

  /** What a line is made of: the day word as written, and the lowest and
      highest period (the first and last after sorting). */
  datatype Span = Span(day: string, low: int, high: int)

  /** The checks of `formatTimeSegment(_:)`: at least two
      whitespace-separated words, and at least one period read from the
      last of them. */
  function SegmentSpan(segment: string): (r: Option<Span>)
    ensures r.Some? ==> r.value.low <= r.value.high
  {
    var parts := Split(segment, Whitespace);
    if |parts| < 2 then None
    else
      var periods := ParsePeriods(PeriodWord(segment));
      if periods == [] then None
      else Some(Span(parts[0], SeqMin(periods), SeqMax(periods)))
  }

  /** The period range: one period as "p 節", several as "a ~ b 節". */
  function RangeText(low: int, high: int): string {
    if low == high then DisplayPeriod(low) + " 節"
    else DisplayPeriod(low) + " ~ " + DisplayPeriod(high) + " 節"
  }

  /** The times of a line, in full-width brackets. */
  function TimeBracket(start: string, end: string): string {
    "（" + start + " ~ " + end + "）"
  }

  function SpanLine(s: Span): string {
    "週" + s.day + " " + RangeText(s.low, s.high) + TimeBracket(StartTime(s.low), EndTime(s.high))
  }

  /** `formatTimeSegment(_:)`. */
  function FormatTimeSegment(segment: string): Option<string> {
    match SegmentSpan(segment)
    case None => None
    case Some(s) => Some(SpanLine(s))
  }

  /** A line is written exactly for the segments that name a day before
      at least one readable period; its range runs from the lowest to the
      highest period read. */
  lemma SpanOfPeriods(segment: string)
    ensures SegmentSpan(segment).Some? <==>
              |Split(segment, Whitespace)| >= 2 && ParsePeriods(PeriodWord(segment)) != []
    ensures SegmentSpan(segment).Some? ==>
      var s := SegmentSpan(segment).value;
      var ps := ParsePeriods(PeriodWord(segment));
      && s.low in ps && s.high in ps
      && forall j :: 0 <= j < |ps| ==> s.low <= ps[j] <= s.high
  {
  }

  /** The periods behind a line are exactly those `parseTime` reads from
      the same segment. */
  lemma SpanOfParsedPeriods(segment: string)
    ensures SegmentSpan(segment).Some? <==>
              |Split(segment, Whitespace)| >= 2 && ParseTime(segment).periods != []
    ensures SegmentSpan(segment).Some? ==>
      var s := SegmentSpan(segment).value;
      && s.low in ParseTime(segment).periods && s.high in ParseTime(segment).periods
      && forall j :: 0 <= j < |ParseTime(segment).periods| ==>
           s.low <= ParseTime(segment).periods[j] <= s.high
  {
    ParseTimeAgreesWithParsePeriods(segment);
    SpanOfPeriods(segment);
  }

  /** When the periods lie in the timetable, the time shown covers every
      one of them: it starts no later and ends no earlier than each. */
  lemma {:induction false} SpanCoversPeriods(segment: string, p: int)
    requires SegmentSpan(segment).Some?
    requires p in ParsePeriods(PeriodWord(segment))
    requires forall j :: 0 <= j < |ParsePeriods(PeriodWord(segment))| ==>
               0 <= ParsePeriods(PeriodWord(segment))[j] <= 14
    ensures StartMinutes(SegmentSpan(segment).value.low) <= StartMinutes(p)
    ensures EndMinutes(p) <= EndMinutes(SegmentSpan(segment).value.high)
  {
    var s := SegmentSpan(segment).value;
    SpanOfPeriods(segment);
    SpanBounds(s.low, p, s.high);
  }

  lemma {:induction false} SpanBounds(low: int, p: int, high: int)
    requires 0 <= low <= p <= high <= 14
    ensures StartMinutes(low) <= StartMinutes(p)
    ensures EndMinutes(p) <= EndMinutes(high)
  {
    if low < p {
      StartsIncrease(low, p);
    }
    if p < high {
      StartsIncrease(p, high);
      PeriodLasts50(p);
      PeriodLasts50(high);
    }
  }

  /** A line starts with "週" and the segment's first word, and ends with
      the start of its lowest period and the end of its highest. */
  lemma FormattedLineParts(segment: string)
    requires SegmentSpan(segment).Some?
    ensures var line := FormatTimeSegment(segment).value;
      var s := SegmentSpan(segment).value;
      && s.day == Split(segment, Whitespace)[0]
      && line[..|s.day| + 2] == "週" + s.day + " "
      && line[|line| - 15..] == TimeBracket(StartTime(s.low), EndTime(s.high))
  {
    SpanLineParts(SegmentSpan(segment).value);
  }

  lemma SpanLineParts(s: Span)
    ensures var line := SpanLine(s);
      && line[..|s.day| + 2] == "週" + s.day + " "
      && line[|line| - 15..] == TimeBracket(StartTime(s.low), EndTime(s.high))
  {
    ClockBracketLength(StartTime(s.low), EndTime(s.high));
    FrontAndTail("週" + s.day + " ", RangeText(s.low, s.high), TimeBracket(StartTime(s.low), EndTime(s.high)));
  }

  lemma ClockBracketLength(a: string, b: string)
    requires IsClockText(a) && IsClockText(b)
    ensures |TimeBracket(a, b)| == 15
  {
  }

  lemma FrontAndTail(front: string, mid: string, tail: string)
    ensures (front + mid + tail)[..|front|] == front
    ensures (front + mid + tail)[|front + mid + tail| - |tail|..] == tail
  {
  }

  /** The card's line for "一 1,2". */
  lemma FormatMondayExample()
    ensures FormatTimeSegment("一 1,2") == Some("週一 1 ~ 2 節（08:10 ~ 10:00）")
  {
    MondaySpan();
    MondayLine();
  }

  /** Supports `FormatMondayExample`: "一 1,2" reads as Monday, periods 1 to 2. */
  lemma MondaySpan()
    ensures SegmentSpan("一 1,2") == Some(Span("一", 1, 2))
  {
    MondayWords();
    ParsePeriodsOneTwo();
  }

  /** Supports `FormatMondayExample`: the line text for Monday, periods 1 to 2. */
  lemma MondayLine()
    ensures SpanLine(Span("一", 1, 2)) == "週一 1 ~ 2 節（08:10 ~ 10:00）"
  {
    MondayRange();
    assert StartTime(1) == "08:10" && EndTime(2) == "10:00";
    assert TimeBracket("08:10", "10:00") == "（08:10 ~ 10:00）";
    assert SpanLine(Span("一", 1, 2)) == "週" + "一" + " " + "1 ~ 2 節" + "（08:10 ~ 10:00）";
  }

  /** Supports `MondayLine`: the period range "1 ~ 2 節". */
  lemma MondayRange()
    ensures RangeText(1, 2) == "1 ~ 2 節"
  {
    OneAndTwo();
    assert RangeText(1, 2) == DisplayPeriod(1) + " ~ " + DisplayPeriod(2) + " 節";
  }

  /** The card's line for a single period, "三 6". */
  lemma FormatSinglePeriodExample()
    ensures FormatTimeSegment("三 6") == Some("週三 6 節（13:20 ~ 14:10）")
  {
    WednesdaySpan();
    WednesdayLine();
  }

  /** Supports `FormatSinglePeriodExample`: "三 6" reads as Wednesday, period 6 only. */
  lemma WednesdaySpan()
    ensures SegmentSpan("三 6") == Some(Span("三", 6, 6))
  {
    TwoWords("三", "6");
    assert "三 6" == "三" + " " + "6";
    SixIsSix();
  }

  /** Supports `WednesdaySpan` and `WednesdayRange`: period 6 is shown
      as "6" and "6" reads as period 6. */
  lemma SixIsSix()
    ensures DisplayPeriod(6) == "6" && ParsePeriods("6") == [6]
  {
    SingleDigitPeriod(6);
  }

  /** Supports `FormatSinglePeriodExample`: the line text for Wednesday, period 6. */
  lemma WednesdayLine()
    ensures SpanLine(Span("三", 6, 6)) == "週三 6 節（13:20 ~ 14:10）"
  {
    WednesdayRange();
    assert StartTime(6) == "13:20" && EndTime(6) == "14:10";
    assert TimeBracket("13:20", "14:10") == "（13:20 ~ 14:10）";
    assert SpanLine(Span("三", 6, 6)) == "週" + "三" + " " + "6 節" + "（13:20 ~ 14:10）";
  }

  /** Supports `WednesdayLine`: a one-period range is "6 節", with no "~". */
  lemma WednesdayRange()
    ensures RangeText(6, 6) == "6 節"
  {
    SixIsSix();
  }

  /** A segment without a day word gets no line, although `parseTime`
      reads its periods (and files them under Monday). */
  lemma NoDayNoLine()
    ensures FormatTimeSegment("1,2") == None
    ensures ParseTime("1,2").periods == [1, 2]
  {
    assert NoneIn("1,2", Whitespace);
    SplitNoSeparator("1,2", Whitespace);
    ParsePeriodsOneTwo();
    ParseTimeAgreesWithParsePeriods("1,2");
  }

  /** One "/"-separated segment: trimmed of spaces, skipped when empty,
      otherwise formatted. */
  function LineOf(part: string): Option<string> {
    var clean := Trim(part, Whitespace);
    if clean == [] then None else FormatTimeSegment(clean)
  }

  function LinesOf(parts: seq<string>): (r: seq<Option<string>>)
    ensures |r| == |parts|
    ensures forall i :: 0 <= i < |parts| ==> r[i] == LineOf(parts[i])
  {
    seq(|parts|, i requires 0 <= i < |parts| => LineOf(parts[i]))
  }

  /** `timeLines(for:)`: the formatted segments, in the order written. */
  function TimeLines(rawTime: string): seq<string> {
    Somes(LinesOf(Split(rawTime, Slash)))
  }

  /** A segment without "/" gives its own line if it formats, and no
      line otherwise. */
  lemma TimeLinesOfSegment(s: string)
    requires NoneIn(s, Slash)
    ensures TimeLines(s) == (if LineOf(s).Some? then [LineOf(s).value] else [])
  {
    SplitNoSeparator(s, Slash);
    assert LinesOf([s]) == [LineOf(s)];
  }

  /** Segments joined with "/" give the lines of the segments that
      format, in the order written. */
  lemma TimeLinesOfSegments(segments: seq<string>)
    requires |segments| >= 1
    requires forall i :: 0 <= i < |segments| ==> NoneIn(segments[i], Slash)
    ensures TimeLines(Join(segments, "/")) == Somes(LinesOf(segments))
  {
    SplitJoin(segments, '/', Slash);
    assert "/" == ['/'];
  }

  /** The card never shows more time lines than the sessions the parser
      made from the same time text. */
  lemma TimeLinesWithinSessions(rawTime: string)
    ensures |TimeLines(rawTime)| <= |Sessions(rawTime)|
    ensures |TimeLines(rawTime)| <= CountIn(rawTime, Slash) + 1
  {
    var parts := Split(rawTime, Slash);
    var xs := LinesOf(parts);
    var ys := SegmentSlots(parts);
    forall i | 0 <= i < |xs| && xs[i].Some? ensures ys[i].Some? {
      var clean := Trim(parts[i], Whitespace);
      ParseTimeAgreesWithParsePeriods(clean);
    }
    SomesFewer(xs, ys);
  }

  /** Lines are read segment by segment: the lines of `a/b` are those of
      `a` followed by those of `b`. */
  lemma TimeLinesAtSlash(a: string, b: string)
    ensures TimeLines(a + "/" + b) == TimeLines(a) + TimeLines(b)
  {
    SplitAtSeparator(a, '/', b, Slash);
    assert a + "/" + b == a + ['/'] + b;
    var x := Split(a, Slash);
    var y := Split(b, Slash);
    LinesOfConcat(x, y);
    SomesConcat(LinesOf(x), LinesOf(y));
  }

  lemma LinesOfConcat(x: seq<string>, y: seq<string>)
    ensures LinesOf(x + y) == LinesOf(x) + LinesOf(y)
  {
  }
}
