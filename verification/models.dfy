/**
 * The course record and the NTU period timetable.
 */
module Models {
  import opened Base
  import opened Numbers

  /** One weekly session of a course. `weekday` counts from 1 = Sunday,
      2 = Monday, ..., 7 = Saturday. `id` stands for the record's UUID:
      records are compared field by field, including `id`. */
  datatype Course = Course(
    id: nat,
    name: string,
    teacher: string,
    location: string,
    rawTime: string,
    weekday: int,
    periods: seq<int>,
    isSelected: bool,
    credits: Option<int>,
    notes: string)

  /** The memberwise initializer with its default arguments: a fresh
      record is selected, has no credits and empty notes. */
  function NewCourse(id: nat, name: string, teacher: string, location: string,
                     rawTime: string, weekday: int, periods: seq<int>): (c: Course)
    ensures c.isSelected && c.credits == None && c.notes == ""
    ensures c.id == id && c.name == name && c.teacher == teacher && c.location == location
    ensures c.rawTime == rawTime && c.weekday == weekday && c.periods == periods
  {
    Course(id, name, teacher, location, rawTime, weekday, periods, true, None, "")
  }

  /** The `isSelected` filter, course by course. */
  function KeepSelected(cs: seq<Course>): seq<Course>
    decreases |cs|
  {
    if cs == [] then []
    else (if cs[0].isSelected then [cs[0]] else []) + KeepSelected(cs[1..])
  }

  lemma {:induction false} KeepSelectedShape(cs: seq<Course>)
    ensures |KeepSelected(cs)| <= |cs|
    ensures forall i :: 0 <= i < |KeepSelected(cs)| ==> KeepSelected(cs)[i].isSelected && KeepSelected(cs)[i] in cs
    ensures forall c :: c in cs && c.isSelected ==> c in KeepSelected(cs)
    ensures KeepSelected(cs) == [] <==> forall i :: 0 <= i < |cs| ==> !cs[i].isSelected
    decreases |cs|
  {
    if cs != [] {
      KeepSelectedShape(cs[1..]);
      assert cs == [cs[0]] + cs[1..];
    }
  }

  lemma {:induction false} KeepSelectedConcat(a: seq<Course>, b: seq<Course>)
    ensures KeepSelected(a + b) == KeepSelected(a) + KeepSelected(b)
    decreases |a|
  {
    if a == [] {
      assert a + b == b;
    } else {
      assert (a + b)[1..] == a[1..] + b;
      KeepSelectedConcat(a[1..], b);
    }
  }

  /** `courses.filter { $0.isSelected }`: the selected courses of the list,
      every one of them, and nothing else. */
  function Selected(cs: seq<Course>): (r: seq<Course>)
    ensures |r| <= |cs|
    ensures forall i :: 0 <= i < |r| ==> r[i].isSelected && r[i] in cs
    ensures forall c :: c in cs && c.isSelected ==> c in r
    ensures r == [] <==> forall i :: 0 <= i < |cs| ==> !cs[i].isSelected
  {
    KeepSelectedShape(cs);
    KeepSelected(cs)
  }

  /** The filter keeps list order and repetitions: what it keeps of
      `a + b` is what it keeps of `a` followed by what it keeps of `b`,
      and a single course is kept exactly when it is selected. */
  lemma SelectedConcat(a: seq<Course>, b: seq<Course>)
    ensures Selected(a + b) == Selected(a) + Selected(b)
    ensures |a| == 1 ==> Selected(a) == (if a[0].isSelected then a else [])
  {
    KeepSelectedConcat(a, b);
    if |a| == 1 {
      assert a[1..] == [];
    }
  }

  /** A wall-clock time written "HH:mm". */
  predicate IsClockText(s: string) {
    && |s| == 5
    && IsAsciiDigit(s[0]) && IsAsciiDigit(s[1]) && s[2] == ':'
    && IsAsciiDigit(s[3]) && IsAsciiDigit(s[4])
  }

  /** Minutes after midnight of an "HH:mm" text, as a "HH:mm" date
      formatter reads it. */
  function ClockMinutes(s: string): nat
    requires IsClockText(s)
  {
    (DigitValue(s[0]) * 10 + DigitValue(s[1])) * 60 + DigitValue(s[3]) * 10 + DigitValue(s[4])
  }

  const FIRST_START: nat := 7 * 60 + 10
  const LAST_END: nat := 22 * 60

  /** `getStartTime(for:)`: the start of a period, "00:00" outside 0..14. */
  function StartTime(p: int): (r: string)
    ensures IsClockText(r)
    ensures !(0 <= p <= 14) ==> r == "00:00"
    ensures 0 <= p <= 14 ==> FIRST_START <= ClockMinutes(r) < LAST_END
  {
    match p
    case 0 => "07:10"
    case 1 => "08:10"
    case 2 => "09:10"
    case 3 => "10:20"
    case 4 => "11:20"
    case 5 => "12:20"
    case 6 => "13:20"
    case 7 => "14:20"
    case 8 => "15:30"
    case 9 => "16:30"
    case 10 => "17:30"
    case 11 => "18:25"
    case 12 => "19:20"
    case 13 => "20:15"
    case 14 => "21:10"
    case _ => "00:00"
  }

  /** `getEndTime(for:)`: the end of a period, "00:00" outside 0..14. */
  function EndTime(p: int): (r: string)
    ensures IsClockText(r)
    ensures !(0 <= p <= 14) ==> r == "00:00"
    ensures 0 <= p <= 14 ==> FIRST_START < ClockMinutes(r) <= LAST_END
  {
    match p
    case 0 => "08:00"
    case 1 => "09:00"
    case 2 => "10:00"
    case 3 => "11:10"
    case 4 => "12:10"
    case 5 => "13:10"
    case 6 => "14:10"
    case 7 => "15:10"
    case 8 => "16:20"
    case 9 => "17:20"
    case 10 => "18:20"
    case 11 => "19:15"
    case 12 => "20:10"
    case 13 => "21:05"
    case 14 => "22:00"
    case _ => "00:00"
  }

  function StartMinutes(p: int): nat {
    ClockMinutes(StartTime(p))
  }

  function EndMinutes(p: int): nat {
    ClockMinutes(EndTime(p))
  }

  /** Every period lasts exactly 50 minutes, the flat per-period length the
      exporters use. */
  lemma PeriodLasts50(p: int)
    requires 0 <= p <= 14
    ensures EndMinutes(p) - StartMinutes(p) == 50
  {
    match p
    case 0 => case 1 => case 2 => case 3 => case 4 => case 5 => case 6 => case 7 =>
    case 8 => case 9 => case 10 => case 11 => case 12 => case 13 => case 14 =>
  }

  /** A period ends no later than the next one starts. */
  lemma NoOverlap(p: int)
    requires 0 <= p < 14
    ensures EndMinutes(p) <= StartMinutes(p + 1)
  {
  }

  /** Start times strictly increase with the period number. */
  lemma {:induction false} StartsIncrease(p: int, q: int)
    requires 0 <= p < q <= 14
    ensures StartMinutes(p) < StartMinutes(q)
    decreases q - p
  {
    PeriodLasts50(q - 1);
    NoOverlap(q - 1);
    if p < q - 1 {
      StartsIncrease(p, q - 1);
    }
  }

  /** Sessions in two different periods of the table never overlap. */
  lemma {:induction false} SlotsDisjoint(p: int, q: int)
    requires 0 <= p < q <= 14
    ensures EndMinutes(p) <= StartMinutes(q)
  {
    NoOverlap(p);
    if p + 1 < q {
      StartsIncrease(p + 1, q);
    }
  }
}
