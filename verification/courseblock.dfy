/**
 * The per-block body of `parseText`: the five captured fields of each
 * block match become zero or more course records, one per usable time
 * segment.
 */
module CourseBlock {
  import opened Base
  import opened Text
  import opened Numbers
  import opened Models
  import opened TimeSegment

  /** The five groups captured for one block: name, teacher, time,
      location, and the details up to the next "已選上" line. */
  datatype BlockMatch = BlockMatch(name: string, teacher: string, time: string, location: string, details: string)

  /** What one parse leaves behind: the new course list, which replaces
      the old one, and the flag handed to the completion. */
  datatype ParseOutcome = ParseOutcome(courses: seq<Course>, success: bool)

  // ---------------------------------------------------------------------
  // Name

  /** The course name: the last line of the name field, trimmed. Earlier
      lines are text that bled in from above the block. */
  function CourseName(rawName: string): string {
    Trim(LastPart(rawName, Newline), WhitespaceOrNewline)
  }

  /** The name is a single trimmed line; a one-line name field is simply
      trimmed. */
  lemma CourseNameShape(rawName: string)
    ensures NoneIn(CourseName(rawName), Newline)
    ensures var name := CourseName(rawName);
      name == [] || (!InClass(WhitespaceOrNewline, name[0]) && !InClass(WhitespaceOrNewline, name[|name| - 1]))
    ensures NoneIn(rawName, Newline) ==> CourseName(rawName) == Trim(rawName, WhitespaceOrNewline)
  {
    var last := LastPart(rawName, Newline);
    TrimShape(last, WhitespaceOrNewline);
    if NoneIn(rawName, Newline) {
      SplitNoSeparator(rawName, Newline);
    }
    TrimKeepsAbsence(last, WhitespaceOrNewline, Newline);
  }

  /** It is the last line that is taken: whatever comes before the last
      line break is ignored. */
  lemma CourseNameIsLastLine(a: string, c: char, b: string)
    requires IsNewline(c) && NoneIn(b, Newline)
    ensures CourseName(a + [c] + b) == Trim(b, WhitespaceOrNewline)
  {
    SplitAtSeparator(a, c, b, Newline);
    SplitNoSeparator(b, Newline);
  }

  // ---------------------------------------------------------------------
  // Detail lines

  /** Each line trimmed of spaces, empty lines dropped. */
  function CleanLines(parts: seq<string>): (lines: seq<string>)
    ensures |lines| <= |parts|
    decreases |parts|
  {
    if parts == [] then []
    else
      var line := Trim(parts[0], Whitespace);
      (if line == [] then [] else [line]) + CleanLines(parts[1..])
  }

  /** A detail line is non-empty, holds no line break and starts and ends
      with something other than a space. */
  predicate IsDetailLine(line: string) {
    && line != []
    && NoneIn(line, Newline)
    && !IsWhitespace(line[0]) && !IsWhitespace(line[|line| - 1])
  }

  lemma {:induction false} CleanLinesShape(parts: seq<string>)
    requires forall i :: 0 <= i < |parts| ==> NoneIn(parts[i], Newline)
    ensures forall i :: 0 <= i < |CleanLines(parts)| ==> IsDetailLine(CleanLines(parts)[i])
    decreases |parts|
  {
    if parts != [] {
      var line := Trim(parts[0], Whitespace);
      CleanLinesShape(parts[1..]);
      TrimKeepsAbsence(parts[0], Whitespace, Newline);
      TrimShape(parts[0], Whitespace);
    }
  }

  /** The details field cut into lines, trimmed, blank lines removed. */
  function DetailLines(details: string): (lines: seq<string>)
    ensures |lines| <= CountIn(details, Newline) + 1
  {
    CleanLines(Split(details, Newline))
  }

  /** Every detail line is non-empty, trimmed and free of line breaks;
      the details are read line by line, every line break cutting them
      into two runs read independently, and a text without line breaks
      gives itself trimmed, unless it is blank. */
  lemma DetailLinesShape(details: string)
    ensures forall i :: 0 <= i < |DetailLines(details)| ==> IsDetailLine(DetailLines(details)[i])
    ensures forall k :: 0 <= k < |details| && IsNewline(details[k]) ==>
      DetailLines(details) == DetailLines(details[..k]) + DetailLines(details[k + 1..])
    ensures NoneIn(details, Newline) ==>
      DetailLines(details) == (if Trim(details, Whitespace) == [] then [] else [Trim(details, Whitespace)])
  {
    CleanLinesShape(Split(details, Newline));
    forall k | 0 <= k < |details| && IsNewline(details[k])
      ensures DetailLines(details) == DetailLines(details[..k]) + DetailLines(details[k + 1..])
    {
      assert details == details[..k] + [details[k]] + details[k + 1..];
      DetailLinesAtBreak(details[..k], details[k], details[k + 1..]);
    }
    DetailLinesAtBreak(details, '\n', "");
  }

  lemma {:induction false} CleanLinesConcat(x: seq<string>, y: seq<string>)
    ensures CleanLines(x + y) == CleanLines(x) + CleanLines(y)
    decreases |x|
  {
    if x == [] {
      assert x + y == y;
    } else {
      assert (x + y)[0] == x[0];
      assert (x + y)[1..] == x[1..] + y;
      CleanLinesConcat(x[1..], y);
    }
  }

  /** The details are read line by line: the lines of `a`, a line break,
      then `b` are the detail lines of `a` followed by those of `b`; and a
      single line is kept, trimmed, exactly when it is not blank. */
  lemma DetailLinesAtBreak(a: string, c: char, b: string)
    requires IsNewline(c)
    ensures DetailLines(a + [c] + b) == DetailLines(a) + DetailLines(b)
    ensures NoneIn(a, Newline) ==>
      DetailLines(a) == (if Trim(a, Whitespace) == [] then [] else [Trim(a, Whitespace)])
  {
    SplitAtSeparator(a, c, b, Newline);
    CleanLinesConcat(Split(a, Newline), Split(b, Newline));
    if NoneIn(a, Newline) {
      SplitNoSeparator(a, Newline);
    }
  }

  // ---------------------------------------------------------------------
  // Credits

  /** The credits a single line offers: it must mention "學分", and its
      number characters, run together, must be an `Int`. */
  function CreditValue(line: string): Option<int> {
    if ContainsText(line, "學分") then ParseInt(NumberChars(line)) else None
  }

  /** `credits` after the detail loop: the first line that offers a value
      sets it, and it is not changed afterwards. */
  function Credits(lines: seq<string>): Option<int>
    decreases |lines|
  {
    if lines == [] then None
    else if CreditValue(lines[0]).Some? then CreditValue(lines[0])
    else Credits(lines[1..])
  }

  /** Credits are absent exactly when no line offers a value, and are
      otherwise the value of the first line that does. A line that mentions
      "學分" but whose digits do not parse leaves the search open. */
  lemma {:induction false} CreditsIsFirstOffer(lines: seq<string>)
    ensures Credits(lines).None? <==> forall i :: 0 <= i < |lines| ==> CreditValue(lines[i]).None?
    ensures Credits(lines).Some? ==>
      exists i :: && 0 <= i < |lines| && CreditValue(lines[i]) == Credits(lines)
                  && forall j :: 0 <= j < i ==> CreditValue(lines[j]).None?
    decreases |lines|
  {
    if lines != [] && CreditValue(lines[0]).None? {
      var r := Credits(lines[1..]);
      CreditsIsFirstOffer(lines[1..]);
      if r.Some? {
        var i :| && 0 <= i < |lines[1..]| && CreditValue(lines[1..][i]) == r
                 && forall j :: 0 <= j < i ==> CreditValue(lines[1..][j]).None?;
        forall j | 0 <= j < i + 1 ensures CreditValue(lines[j]).None? {
          if j > 0 { assert lines[j] == lines[1..][j - 1]; }
        }
        assert CreditValue(lines[i + 1]) == r;
      } else {
        forall i | 0 <= i < |lines| ensures CreditValue(lines[i]).None? {
          if i > 0 { assert lines[i] == lines[1..][i - 1]; }
        }
      }
    }
  }

  /** Supports `CreditsRunDigitsTogether` and `CreditsSkipUnreadableLine`:
      no number character in the word "學分". */
  lemma CreditWordHasNoNumber()
    ensures NumberChars("學分") == ""
  {
    assert !IsNumber('分');
    assert NumberChars("分") == "";
    assert !IsNumber('學');
    assert "學分"[1..] == "分";
  }

  /** Supports `CreditsRunDigitsTogether`: the number characters of
      "3.0 學分" are "30". */
  lemma NumberCharsOfThreeCredits()
    ensures NumberChars("3.0 學分") == "30"
  {
    var line := "3.0 學分";
    CreditWordHasNoNumber();
    assert line[4..] == "學分" && line[3..] == " 學分" && line[2..] == "0 學分" && line[1..] == ".0 學分";
    assert NumberChars(line[3..]) == "";
    assert NumberChars(line[2..]) == "0";
    assert NumberChars(line[1..]) == "0";
  }

  /** Supports `CreditsRunDigitsTogether`: "30" reads as 30. */
  lemma ReadThirty()
    ensures ParseInt("30") == Some(30)
  {
    assert DecimalString(30) == "30";
    DecimalRoundTrip(30);
  }

  /** "3.0 學分" gives 30, not 3: the number characters of the line are
      run together before they are read. */
  lemma CreditsRunDigitsTogether()
    ensures CreditValue("3.0 學分") == Some(30)
  {
    assert ContainsText("3.0 學分"[4..], "學分");
    NumberCharsOfThreeCredits();
    ReadThirty();
  }

  /** Supports `CreditsSkipUnreadableLine`: "2 學分" keeps "2", which
      reads as 2. */
  lemma ReadTwoCredits()
    ensures NumberChars("2 學分") == "2"
    ensures ParseInt("2") == Some(2)
  {
    var line := "2 學分";
    CreditWordHasNoNumber();
    assert line[2..] == "學分" && line[1..] == " 學分";
    assert NumberChars(line[1..]) == "";
    assert DecimalString(2) == "2";
    DecimalRoundTrip(2);
  }

  /** A line that mentions credits without a number leaves them unset, and
      the search goes on to the next line. */
  lemma CreditsSkipUnreadableLine()
    ensures CreditValue("學分") == None
    ensures Credits(["學分", "2 學分"]) == Some(2)
  {
    CreditWordHasNoNumber();
    assert ContainsText("2 學分"[2..], "學分");
    ReadTwoCredits();
  }

  // ---------------------------------------------------------------------
  // Notes

  predicate AllDecimalDigits(s: string) {
    forall i :: 0 <= i < |s| ==> IsDecimalDigit(s[i])
  }

  /** A head-count line, `^\d+\s*人$`: one or more decimal digits, optional
      spaces, then "人" as the last character. */
  predicate IsPeopleLine(line: string) {
    && |line| >= 2 && line[|line| - 1] == '人'
    && exists n :: 1 <= n < |line| && AllDecimalDigits(line[..n]) && AllIn(line[n..|line| - 1], Whitespace)
  }

  /** "138 人" and "5人" are head counts; a line that does not start with
      a digit is not. */
  lemma HeadCountExamples()
    ensures IsPeopleLine("138 人")
    ensures IsPeopleLine("5人")
    ensures !IsPeopleLine("約 30 人")
  {
    assert AllDecimalDigits("138 人"[..3]) && AllIn("138 人"[3..4], Whitespace);
    assert AllDecimalDigits("5人"[..1]) && AllIn("5人"[1..1], Whitespace);
    var line := "約 30 人";
    forall n | 1 <= n < |line| ensures !AllDecimalDigits(line[..n]) {
      assert line[..n][0] == '約';
    }
  }

  /** `lastPeopleIndex` after the detail loop: every head-count line
      overwrites it, so the last one is kept. */
  function LastPeopleIndex(lines: seq<string>): (r: Option<nat>)
    ensures r.Some? ==> r.value < |lines|
    decreases |lines|
  {
    if lines == [] then None
    else if IsPeopleLine(lines[|lines| - 1]) then Some(|lines| - 1)
    else LastPeopleIndex(lines[..|lines| - 1])
  }

  /** The index kept is that of a head-count line with none after it, and
      there is none exactly when no line is a head count. */
  lemma {:induction false} LastPeopleIndexIsLast(lines: seq<string>)
    ensures LastPeopleIndex(lines).None? <==> forall j :: 0 <= j < |lines| ==> !IsPeopleLine(lines[j])
    ensures LastPeopleIndex(lines).Some? ==>
      var i := LastPeopleIndex(lines).value;
      IsPeopleLine(lines[i]) && forall j :: i < j < |lines| ==> !IsPeopleLine(lines[j])
    decreases |lines|
  {
    if lines != [] && !IsPeopleLine(lines[|lines| - 1]) {
      var init := lines[..|lines| - 1];
      LastPeopleIndexIsLast(init);
      assert forall j :: 0 <= j < |init| ==> init[j] == lines[j];
    }
  }

  /** The notes: the lines after the last head-count line, joined with
      line breaks; empty when there is no such line or it is the last. */
  function Notes(lines: seq<string>): string {
    match LastPeopleIndex(lines)
    case Some(i) => if i + 1 < |lines| then Join(lines[i + 1..], "\n") else ""
    case None => ""
  }

  lemma {:induction false} JoinNonEmpty(parts: seq<string>, sep: string)
    requires |parts| >= 1 && parts[0] != []
    ensures Join(parts, sep) != []
  {
  }

  /** Notes are empty exactly when there is no head-count line or it is
      the last line; otherwise cutting the notes at line breaks gives back
      exactly the lines after the last head count, none of which is a head
      count itself. */
  lemma NotesAfterLastHeadCount(details: string)
    ensures var lines := DetailLines(details);
      Notes(lines) == [] <==> (LastPeopleIndex(lines).None? || LastPeopleIndex(lines).value == |lines| - 1)
    ensures var lines := DetailLines(details);
      Notes(lines) != [] ==>
        && Split(Notes(lines), Newline) == lines[LastPeopleIndex(lines).value + 1..]
        && forall j :: 0 <= j < |Split(Notes(lines), Newline)| ==> !IsPeopleLine(Split(Notes(lines), Newline)[j])
  {
    DetailLinesShape(details);
    NotesOfCleanLines(DetailLines(details));
  }

  /** `NotesAfterLastHeadCount` for any list of detail lines. */
  lemma NotesOfCleanLines(lines: seq<string>)
    requires forall i :: 0 <= i < |lines| ==> IsDetailLine(lines[i])
    ensures Notes(lines) == [] <==> (LastPeopleIndex(lines).None? || LastPeopleIndex(lines).value == |lines| - 1)
    ensures Notes(lines) != [] ==>
      && Split(Notes(lines), Newline) == lines[LastPeopleIndex(lines).value + 1..]
      && forall j :: 0 <= j < |Split(Notes(lines), Newline)| ==> !IsPeopleLine(Split(Notes(lines), Newline)[j])
  {
    match LastPeopleIndex(lines) {
      case None =>
      case Some(i) =>
        if i + 1 < |lines| {
          var tail := lines[i + 1..];
          NotesTail(lines, i);
          assert Notes(lines) == Join(tail, "\n");
          LastPeopleIndexIsLast(lines);
          forall j | 0 <= j < |tail| ensures !IsPeopleLine(tail[j]) {
            assert tail[j] == lines[i + 1 + j];
          }
        }
    }
  }

  lemma NotesTail(lines: seq<string>, i: nat)
    requires forall i :: 0 <= i < |lines| ==> IsDetailLine(lines[i])
    requires i + 1 < |lines|
    ensures Join(lines[i + 1..], "\n") != []
    ensures Split(Join(lines[i + 1..], "\n"), Newline) == lines[i + 1..]
  {
    var tail := lines[i + 1..];
    assert IsDetailLine(tail[0]);
    JoinNonEmpty(tail, "\n");
    assert forall j :: 0 <= j < |tail| ==> IsDetailLine(tail[j]);
    SplitJoin(tail, '\n', Newline);
  }

  // ---------------------------------------------------------------------
  // Time segments

  /** One "/"-separated segment: trimmed of spaces, skipped when empty,
      read by `parseTime`, kept only when it names some period. */
  function SegmentSlot(segment: string): (r: Option<TimeSlot>)
    ensures r.Some? ==> 1 <= r.value.weekday <= 7 && r.value.periods != []
    ensures r.Some? <==> Trim(segment, Whitespace) != [] && ParseTime(Trim(segment, Whitespace)).periods != []
    ensures r.Some? ==> r.value == ParseTime(Trim(segment, Whitespace))
  {
    var clean := Trim(segment, Whitespace);
    if clean == [] then None
    else
      var slot := ParseTime(clean);
      if slot.periods == [] then None else Some(slot)
  }

  function SegmentSlots(segments: seq<string>): (r: seq<Option<TimeSlot>>)
    ensures |r| == |segments|
    ensures forall i :: 0 <= i < |r| ==> r[i] == SegmentSlot(segments[i])
  {
    seq(|segments|, i requires 0 <= i < |segments| => SegmentSlot(segments[i]))
  }

  /** The weekly sessions a time field describes, in the order written:
      at most one per "/"-separated segment, each on a weekday 1..7 with
      at least one period. */
  function Sessions(timeRaw: string): (r: seq<TimeSlot>)
    ensures |r| <= CountIn(timeRaw, Slash) + 1
    ensures forall i :: 0 <= i < |r| ==> 1 <= r[i].weekday <= 7 && r[i].periods != []
  {
    var slots := SegmentSlots(Split(timeRaw, Slash));
    var r := Somes(slots);
    forall i | 0 <= i < |r| ensures 1 <= r[i].weekday <= 7 && r[i].periods != [] {
      SomesMembers(slots, r[i]);
    }
    r
  }

  lemma SegmentSlotsConcat(x: seq<string>, y: seq<string>)
    ensures SegmentSlots(x + y) == SegmentSlots(x) + SegmentSlots(y)
  {
    var l := SegmentSlots(x + y);
    var r := SegmentSlots(x) + SegmentSlots(y);
    forall i | 0 <= i < |l| ensures l[i] == r[i] {
      if i < |x| { assert (x + y)[i] == x[i]; } else { assert (x + y)[i] == y[i - |x|]; }
    }
  }

  /** A time field reads segment by segment: the sessions of `a/b` are
      those of `a` followed by those of `b`. */
  lemma SessionsAtSlash(a: string, b: string)
    ensures Sessions(a + "/" + b) == Sessions(a) + Sessions(b)
  {
    SplitAtSeparator(a, '/', b, Slash);
    assert a + "/" + b == a + ['/'] + b;
    SegmentSlotsConcat(Split(a, Slash), Split(b, Slash));
    SomesConcat(SegmentSlots(Split(a, Slash)), SegmentSlots(Split(b, Slash)));
  }

  /** A segment without "/" gives exactly its own session, if it has one. */
  lemma SessionsOfSegment(s: string)
    requires NoneIn(s, Slash)
    ensures Sessions(s) == (if SegmentSlot(s).Some? then [SegmentSlot(s).value] else [])
  {
    SplitNoSeparator(s, Slash);
    assert SegmentSlots([s]) == [SegmentSlot(s)];
  }

  /** A time field written as "/"-separated segments gives one session per
      usable segment, in the order written, and nothing for the others. */
  lemma SessionsOfSegments(segments: seq<string>)
    requires |segments| >= 1
    requires forall i :: 0 <= i < |segments| ==> NoneIn(segments[i], Slash)
    ensures Sessions(Join(segments, "/")) == Somes(SegmentSlots(segments))
  {
    SplitJoin(segments, '/', Slash);
  }

  // ---------------------------------------------------------------------
  // Records

  /** Two records describe the same course: equal in everything except
      their identity and their own weekday and periods. */
  predicate Siblings(a: Course, b: Course) {
    && a.name == b.name && a.teacher == b.teacher && a.location == b.location
    && a.rawTime == b.rawTime && a.isSelected == b.isSelected
    && a.credits == b.credits && a.notes == b.notes
  }

  /** The fields a block's records share. */
  datatype BlockFields = BlockFields(
    name: string, teacher: string, location: string, rawTime: string,
    credits: Option<int>, notes: string)

  /** The shared fields of a block: the name's last line and the other
      single-line fields trimmed of spaces and line breaks; credits and
      notes from the detail lines. The time field is kept whole. */
  function ExtractFields(m: BlockMatch): BlockFields {
    var lines := DetailLines(m.details);
    BlockFields(
      CourseName(m.name),
      Trim(m.teacher, WhitespaceOrNewline),
      Trim(m.location, WhitespaceOrNewline),
      Trim(m.time, WhitespaceOrNewline),
      Credits(lines),
      Notes(lines))
  }

  /** One record per session, in session order. */
  function EmitSessions(f: BlockFields, slots: seq<TimeSlot>, nextId: nat): (r: seq<Course>)
    ensures |r| == |slots|
  {
    seq(|slots|, i requires 0 <= i < |slots| =>
      NewCourse(nextId + i, f.name, f.teacher, f.location, f.rawTime, slots[i].weekday, slots[i].periods)
        .(credits := f.credits, notes := f.notes))
  }

  /** The i-th record is numbered `nextId + i`, carries the shared fields,
      is selected, and takes the i-th session's weekday and periods. */
  lemma EmitSessionsShape(f: BlockFields, slots: seq<TimeSlot>, nextId: nat)
    ensures forall i :: 0 <= i < |slots| ==>
      var c := EmitSessions(f, slots, nextId)[i];
      && c.id == nextId + i
      && c.name == f.name && c.teacher == f.teacher && c.location == f.location
      && c.rawTime == f.rawTime && c.credits == f.credits && c.notes == f.notes
      && c.isSelected
      && c.weekday == slots[i].weekday && c.periods == slots[i].periods
  {
  }

  /** What a block contributes: its shared fields and its sessions. */
  datatype BlockPlan = BlockPlan(fields: BlockFields, slots: seq<TimeSlot>)

  /** Every session is on a weekday 1..7 and names at least one period. */
  predicate UsableSlots(slots: seq<TimeSlot>) {
    forall i :: 0 <= i < |slots| ==> 1 <= slots[i].weekday <= 7 && slots[i].periods != []
  }

  /** The plan of one block: its shared fields, and the sessions of its
      trimmed time field. */
  function PlanBlock(m: BlockMatch): (p: BlockPlan)
    ensures UsableSlots(p.slots)
  {
    var f := ExtractFields(m);
    BlockPlan(f, Sessions(f.rawTime))
  }

  function PlanBlocks(blocks: seq<BlockMatch>): (ps: seq<BlockPlan>)
    ensures |ps| == |blocks|
    decreases |blocks|
  {
    if blocks == [] then [] else [PlanBlock(blocks[0])] + PlanBlocks(blocks[1..])
  }

  lemma {:induction false} PlanBlocksUsable(blocks: seq<BlockMatch>)
    ensures forall i :: 0 <= i < |PlanBlocks(blocks)| ==> UsableSlots(PlanBlocks(blocks)[i].slots)
    decreases |blocks|
  {
    if blocks != [] {
      PlanBlocksUsable(blocks[1..]);
      var ps := PlanBlocks(blocks);
      forall i | 0 <= i < |ps| ensures UsableSlots(ps[i].slots) {
        if i > 0 { assert ps[i] == PlanBlocks(blocks[1..])[i - 1]; }
      }
    }
  }

  /** The records of all planned blocks, in block order: each block's
      sessions in the order written, numbered on from `nextId`. */
  function ExpandAll(ps: seq<BlockPlan>, nextId: nat): seq<Course>
    decreases |ps|
  {
    if ps == [] then []
    else EmitSessions(ps[0].fields, ps[0].slots, nextId) + ExpandAll(ps[1..], nextId + |ps[0].slots|)
  }

  /** The records of all blocks, in block order, numbered from `nextId`. */
  function ParseBlocks(blocks: seq<BlockMatch>, nextId: nat): seq<Course> {
    ExpandAll(PlanBlocks(blocks), nextId)
  }

  /** A selected record on a weekday 1..7 with at least one period. */
  predicate SelectedSession(c: Course) {
    1 <= c.weekday <= 7 && c.periods != [] && c.isSelected
  }

  /** The records are numbered consecutively from `nextId`, and each is a
      selected session on a weekday 1..7 with at least one period. */
  lemma {:induction false} ExpandAllShape(ps: seq<BlockPlan>, nextId: nat)
    requires forall i :: 0 <= i < |ps| ==> UsableSlots(ps[i].slots)
    ensures forall i :: 0 <= i < |ExpandAll(ps, nextId)| ==> ExpandAll(ps, nextId)[i].id == nextId + i
    ensures forall i :: 0 <= i < |ExpandAll(ps, nextId)| ==> SelectedSession(ExpandAll(ps, nextId)[i])
    decreases |ps|
  {
    if ps != [] {
      var first := EmitSessions(ps[0].fields, ps[0].slots, nextId);
      EmitSessionsShape(ps[0].fields, ps[0].slots, nextId);
      var rest := ExpandAll(ps[1..], nextId + |ps[0].slots|);
      ExpandAllShape(ps[1..], nextId + |ps[0].slots|);
      var r := first + rest;
      assert r == ExpandAll(ps, nextId);
      assert UsableSlots(ps[0].slots);
      forall i | 0 <= i < |r|
        ensures r[i].id == nextId + i
        ensures SelectedSession(r[i])
      {
        if i < |first| {
          assert r[i] == first[i];
        } else {
          assert r[i] == rest[i - |first|];
        }
      }
    }
  }

  lemma ParseBlocksShape(blocks: seq<BlockMatch>, nextId: nat)
    ensures forall i :: 0 <= i < |ParseBlocks(blocks, nextId)| ==> ParseBlocks(blocks, nextId)[i].id == nextId + i
    ensures forall i :: 0 <= i < |ParseBlocks(blocks, nextId)| ==> SelectedSession(ParseBlocks(blocks, nextId)[i])
  {
    PlanBlocksUsable(blocks);
    ExpandAllShape(PlanBlocks(blocks), nextId);
  }

  /** `parseText`'s result: the records of every block, replacing the old
      list, and success exactly when at least one record came out. */
  function ParseText(blocks: seq<BlockMatch>, nextId: nat): (out: ParseOutcome)
    ensures out.success <==> out.courses != []
    ensures out.courses == ParseBlocks(blocks, nextId)
  {
    var courses := ParseBlocks(blocks, nextId);
    ParseOutcome(courses, |courses| > 0)
  }

  /** Input with no block match yields no records and reports failure. */
  lemma ParseTextNothingMatched(nextId: nat)
    ensures ParseText([], nextId) == ParseOutcome([], false)
  {
  }

  /** Blocks are expanded independently: the records of two runs of
      planned blocks are the records of the first run followed by those of
      the second, numbered on from where the first stopped. */
  lemma {:induction false} ExpandAllConcat(ps: seq<BlockPlan>, qs: seq<BlockPlan>, nextId: nat)
    ensures ExpandAll(ps + qs, nextId) == ExpandAll(ps, nextId) + ExpandAll(qs, nextId + |ExpandAll(ps, nextId)|)
    decreases |ps|
  {
    if ps == [] {
      assert ps + qs == qs;
    } else {
      ExpandAllConcat(ps[1..], qs, nextId + |ps[0].slots|);
      assert (ps + qs)[1..] == ps[1..] + qs;
    }
  }

  lemma ParseBlocksPlanned(blocks: seq<BlockMatch>, nextId: nat)
    ensures ParseBlocks(blocks, nextId) == ExpandAll(PlanBlocks(blocks), nextId)
  {
  }

  lemma PlanBlocksCons(a: seq<BlockMatch>, b: seq<BlockMatch>)
    requires a != []
    ensures PlanBlocks(a + b) == [PlanBlock(a[0])] + PlanBlocks(a[1..] + b)
  {
    assert (a + b)[1..] == a[1..] + b;
  }

  /** Each block is planned on its own, whatever surrounds it. */
  lemma {:induction false} PlanBlocksConcat(a: seq<BlockMatch>, b: seq<BlockMatch>)
    ensures PlanBlocks(a + b) == PlanBlocks(a) + PlanBlocks(b)
    decreases |a|
  {
    if a == [] {
      assert a + b == b;
    } else {
      PlanBlocksCons(a, b);
      PlanBlocksConcat(a[1..], b);
      SeqAssoc([PlanBlock(a[0])], PlanBlocks(a[1..]), PlanBlocks(b));
    }
  }

  /** A single block yields one record per session of its trimmed time
      field, each carrying the block's shared fields. */
  lemma ParseSingleBlock(m: BlockMatch, nextId: nat)
    ensures ParseBlocks([m], nextId) == EmitSessions(PlanBlock(m).fields, PlanBlock(m).slots, nextId)
  {
    PlanBlocksSingle(m);
    ExpandAllSingle(PlanBlock(m), nextId);
    ParseBlocksPlanned([m], nextId);
  }

  lemma PlanBlocksSingle(m: BlockMatch)
    ensures PlanBlocks([m]) == [PlanBlock(m)]
  {
    assert [m][1..] == [];
  }

  lemma ExpandAllSingle(p: BlockPlan, nextId: nat)
    ensures ExpandAll([p], nextId) == EmitSessions(p.fields, p.slots, nextId)
  {
    assert [p][1..] == [];
    assert EmitSessions(p.fields, p.slots, nextId) + [] == EmitSessions(p.fields, p.slots, nextId);
  }

  /** The records of one block are siblings: they differ only in identity,
      weekday and periods. */
  lemma SingleBlockSiblings(m: BlockMatch, nextId: nat)
    ensures forall i, j :: 0 <= i < |ParseBlocks([m], nextId)| && 0 <= j < |ParseBlocks([m], nextId)| ==>
      Siblings(ParseBlocks([m], nextId)[i], ParseBlocks([m], nextId)[j])
  {
    ParseSingleBlock(m, nextId);
    EmitSessionsShape(PlanBlock(m).fields, PlanBlock(m).slots, nextId);
  }

  /** The records with their identities blanked out, for comparing two
      parses that drew different ids. */
  function WithoutIds(cs: seq<Course>): (r: seq<Course>)
    ensures |r| == |cs|
  {
    seq(|cs|, i requires 0 <= i < |cs| => cs[i].(id := 0))
  }

  lemma WithoutIdsConcat(a: seq<Course>, b: seq<Course>)
    ensures WithoutIds(a + b) == WithoutIds(a) + WithoutIds(b)
  {
    var l := WithoutIds(a + b);
    var r := WithoutIds(a) + WithoutIds(b);
    forall i | 0 <= i < |l| ensures l[i] == r[i] {
      if i < |a| { assert (a + b)[i] == a[i]; } else { assert (a + b)[i] == b[i - |a|]; }
    }
  }

  lemma EmitSessionsWithoutIds(f: BlockFields, slots: seq<TimeSlot>, n1: nat, n2: nat)
    ensures WithoutIds(EmitSessions(f, slots, n1)) == WithoutIds(EmitSessions(f, slots, n2))
  {
  }

  /** Parsing is repeatable: the same blocks numbered from two different
      starting ids give the same records apart from their ids. */
  lemma {:induction false} ExpandAllRepeatable(ps: seq<BlockPlan>, n1: nat, n2: nat)
    ensures WithoutIds(ExpandAll(ps, n1)) == WithoutIds(ExpandAll(ps, n2))
    decreases |ps|
  {
    if ps != [] {
      var k := |ps[0].slots|;
      ExpandAllRepeatable(ps[1..], n1 + k, n2 + k);
      WithoutIdsConcat(EmitSessions(ps[0].fields, ps[0].slots, n1), ExpandAll(ps[1..], n1 + k));
      WithoutIdsConcat(EmitSessions(ps[0].fields, ps[0].slots, n2), ExpandAll(ps[1..], n2 + k));
      EmitSessionsWithoutIds(ps[0].fields, ps[0].slots, n1, n2);
    }
  }

  /** Parsing the same text twice gives the same outcome, up to the fresh
      identities of the records. */
  lemma ParseTextRepeatable(blocks: seq<BlockMatch>, n1: nat, n2: nat)
    ensures ParseText(blocks, n1).success == ParseText(blocks, n2).success
    ensures WithoutIds(ParseText(blocks, n1).courses) == WithoutIds(ParseText(blocks, n2).courses)
  {
    ExpandAllRepeatable(PlanBlocks(blocks), n1, n2);
  }
}
