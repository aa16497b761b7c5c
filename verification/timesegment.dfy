/**
 * `parseTime`: one time segment such as "一 1,2" or "五 A,B,C,D" read
 * into a weekday and its list of periods.
 */
module TimeSegment {
  import opened Base
  import opened Text
  import opened Numbers
  import opened Periods

  /** The weekday symbols in the order they are looked for; the symbol at
      index i stands for weekday i + 1 (1 = Sunday). */
  const WEEKDAY_SYMBOLS: string := "日一二三四五六"

  /** The weekday read from a segment and the periods read from its last
      word, in the order written. */
  datatype TimeSlot = TimeSlot(weekday: int, periods: seq<int>)

  /** The weekday of a segment: the first symbol in checking order that
      occurs anywhere in it wins, whatever its position; Monday when none
      occurs. */
  function DetectWeekday(raw: string): (w: int)
    ensures 1 <= w <= 7
    ensures || (WEEKDAY_SYMBOLS[w - 1] in raw && forall j :: 0 <= j < w - 1 ==> WEEKDAY_SYMBOLS[j] !in raw)
            || (w == 2 && forall j :: 0 <= j < 7 ==> WEEKDAY_SYMBOLS[j] !in raw)
  {
    if '日' in raw then 1
    else if '一' in raw then 2
    else if '二' in raw then 3
    else if '三' in raw then 4
    else if '四' in raw then 5
    else if '五' in raw then 6
    else if '六' in raw then 7
    else 2
  }

  /** The period loop of `parseTime`: each piece's value, if any, is
      appended to the list built so far. */
  function AppendPieces(acc: seq<int>, pieces: seq<string>): seq<int>
    decreases |pieces|
  {
    if pieces == [] then acc
    else
      match PieceValue(pieces[0])
      case Some(v) => AppendPieces(acc + [v], pieces[1..])
      case None => AppendPieces(acc, pieces[1..])
  }

  /** The word that holds the periods: the last whitespace-separated one. */
  function PeriodWord(raw: string): string {
    LastPart(raw, Whitespace)
  }

  /** `parseTime(_:)`: the weekday by `DetectWeekday`'s rule, and the
      periods of the last word (`ParseTimeAgreesWithParsePeriods`). */
  function ParseTime(raw: string): (r: TimeSlot)
    ensures 1 <= r.weekday <= 7
    ensures r.weekday == DetectWeekday(raw)
  {
    TimeSlot(DetectWeekday(raw), AppendPieces([], Split(PeriodWord(raw), Comma)))
  }

  lemma PeriodsOfCons(pieces: seq<string>)
    requires pieces != []
    ensures PeriodsOf(pieces) == PieceList(pieces[0]) + PeriodsOf(pieces[1..])
  {
    assert pieces == [pieces[0]] + pieces[1..];
    PeriodsOfConcat([pieces[0]], pieces[1..]);
    PeriodsOfOne(pieces[0]);
  }

  /** The accumulating loop computes the list of piece values after what
      it started with. */
  lemma {:induction false} AppendPiecesReadsPieces(acc: seq<int>, pieces: seq<string>)
    ensures AppendPieces(acc, pieces) == acc + PeriodsOf(pieces)
    decreases |pieces|
  {
    if pieces == [] {
      assert PeriodsOf(pieces) == [];
    } else {
      var head := PieceList(pieces[0]);
      PeriodsOfCons(pieces);
      AppendPiecesReadsPieces(acc + head, pieces[1..]);
      match PieceValue(pieces[0]) {
        case Some(v) =>
          assert head == [v];
          assert AppendPieces(acc, pieces) == AppendPieces(acc + [v], pieces[1..]);
        case None =>
          assert head == [];
          assert acc + head == acc;
      }
      assert (acc + head) + PeriodsOf(pieces[1..]) == acc + (head + PeriodsOf(pieces[1..]));
    }
  }

  /** `parseTime` and MyCoursesView's `parsePeriods` read the same periods
      from the last word of a segment. */
  lemma ParseTimeAgreesWithParsePeriods(raw: string)
    ensures ParseTime(raw).periods == ParsePeriods(PeriodWord(raw))
  {
    AppendPiecesReadsPieces([], Split(PeriodWord(raw), Comma));
  }

  /** The periods come only from the last word, and there are at most as
      many as it has comma-separated pieces. */
  lemma ParseTimePeriodCount(raw: string)
    ensures |ParseTime(raw).periods| <= |Split(PeriodWord(raw), Comma)|
  {
    ParseTimeAgreesWithParsePeriods(raw);
  }

  /** "一 1,2" is Monday, periods 1 and 2. */
  lemma ParseTimeMondayExample()
    ensures ParseTime("一 1,2") == TimeSlot(2, [1, 2])
  {
    MondayWords();
    assert PeriodWord("一 1,2") == "1,2";
    ParsePeriodsOneTwo();
    ParseTimeAgreesWithParsePeriods("一 1,2");
    assert '日' !in "一 1,2" && '一' in "一 1,2";
  }

  /** Supports `ParseTimeMondayExample` and `FormatMondayExample`: "一 1,2"
      splits into the day word and the period text. */
  lemma MondayWords()
    ensures Split("一 1,2", Whitespace) == ["一", "1,2"]
  {
    TwoWords("一", "1,2");
    assert "一 1,2" == "一" + " " + "1,2";
  }

  /** Supports `OneAndTwo` and `SixIsSix`: a period 0 to 9 is shown as its
      digit, and the digit reads back as that period. */
  lemma SingleDigitPeriod(p: int)
    requires 0 <= p <= 9
    ensures DisplayPeriod(p) == [DigitChar(p)] && ParsePeriods([DigitChar(p)]) == [p]
  {
    DisplayRoundTrip(p);
  }

  /** Supports `MondayWords` and `WednesdaySpan`: two words
      with one space between them split into those two words. */
  lemma TwoWords(a: string, b: string)
    requires NoneIn(a, Whitespace) && NoneIn(b, Whitespace)
    ensures Split(a + " " + b, Whitespace) == [a, b]
  {
    SplitAtSeparator(a, ' ', b, Whitespace);
    assert a + " " + b == a + [' '] + b;
    SplitNoSeparator(a, Whitespace);
    SplitNoSeparator(b, Whitespace);
  }

  /** Supports `ParseTimeMondayExample`, `FormatMondayExample` and
      `NoDayNoLine`: "1,2" reads as periods 1 and 2. */
  lemma ParsePeriodsOneTwo()
    ensures ParsePeriods("1,2") == [1, 2]
  {
    OneAndTwo();
    SplitAtSeparator("1", ',', "2", Comma);
    assert "1,2" == "1" + [','] + "2";
    PeriodsOfConcat(Split("1", Comma), Split("2", Comma));
  }

  /** Supports `ParsePeriodsOneTwo` and `FormatMondayExample`: periods 1
      and 2 are shown as "1" and "2" and read back. */
  lemma OneAndTwo()
    ensures DisplayPeriod(1) == "1" && DisplayPeriod(2) == "2"
    ensures ParsePeriods("1") == [1] && ParsePeriods("2") == [2]
  {
    SingleDigitPeriod(1);
    SingleDigitPeriod(2);
  }
}
