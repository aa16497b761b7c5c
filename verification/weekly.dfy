/**
 * The weekly timetable screen: a grid of weekday columns and period rows,
 * the course shown in each cell, the card a tapped cell opens, and that
 * card's selection toggle.
 */
module Weekly {
  import opened Base
  import opened Numbers
  import opened Models
  import opened Periods
  import opened TimeSegment
  import opened Grouping

  // ----- The grid ---------------------------------------------------------------

  /** The column headers, Monday to Saturday. */
  const DAY_HEADERS: seq<string> := ["一", "二", "三", "四", "五", "六"]

  /** The weekday of each column (2 = Monday ... 7 = Saturday). */
  const GRID_WEEKDAYS: seq<int> := [2, 3, 4, 5, 6, 7]

  /** The period of each row, 1 to 14. */
  const GRID_PERIODS: seq<int> := seq(14, i => i + 1)

  /** The grid has a header for every column and each header is the
      symbol `parseTime` reads as that column's weekday; Sunday and period
      0 have no place in it. */
  lemma GridLayout()
    ensures |DAY_HEADERS| == |GRID_WEEKDAYS|
    ensures forall j :: 0 <= j < |GRID_WEEKDAYS| ==>
              DetectWeekday(DAY_HEADERS[j]) == GRID_WEEKDAYS[j] && 2 <= GRID_WEEKDAYS[j] <= 7
    ensures 1 !in GRID_WEEKDAYS
    ensures forall p :: p in GRID_PERIODS <==> 1 <= p <= 14
  {
    forall p | 1 <= p <= 14 ensures p in GRID_PERIODS {
      assert GRID_PERIODS[p - 1] == p;
    }
  }

  /** `labelForPeriod(_:)`: the row label. */
  function LabelForPeriod(p: int): string {
    match p
    case 11 => "A"
    case 12 => "B"
    case 13 => "C"
    case 14 => "D"
    case _ => DecimalString(p)
  }

  /** The row label is the period as the course cards display it, and
      reads back as that period. */
  lemma LabelIsDisplayPeriod(p: int)
    ensures LabelForPeriod(p) == DisplayPeriod(p)
    ensures InInt64(p) ==> ParsePeriods(LabelForPeriod(p)) == [p]
  {
    if InInt64(p) {
      DisplayRoundTrip(p);
    }
  }

  // ----- Cells ------------------------------------------------------------------

  /** A course occupies cell (weekday, period) when it meets on that
      weekday in that period. */
  predicate Occupies(c: Course, weekday: int, period: int) {
    c.weekday == weekday && period in c.periods
  }

  /** The position of the first course occupying the cell:
      `first(where:)`. */
  function FirstMatch(cs: seq<Course>, weekday: int, period: int): (r: Option<nat>)
    ensures r.Some? ==> r.value < |cs| && Occupies(cs[r.value], weekday, period)
    ensures r.Some? ==> forall j :: 0 <= j < r.value ==> !Occupies(cs[j], weekday, period)
    ensures r.None? <==> forall j :: 0 <= j < |cs| ==> !Occupies(cs[j], weekday, period)
    decreases |cs|
  {
    if cs == [] then None
    else if Occupies(cs[0], weekday, period) then Some(0)
    else match FirstMatch(cs[1..], weekday, period)
      case Some(k) => Some(k + 1)
      case None => None
  }

  /** What a cell shows: nothing, or the first fifteen characters of a
      course name. */
  datatype Cell = Blank | Filled(text: string)

  const CELL_NAME_LIMIT: nat := 15

  /** `cellFor(weekday:period:)`. */
  function CellFor(cs: seq<Course>, weekday: int, period: int): (r: Cell)
    ensures r.Filled? <==> exists j :: 0 <= j < |cs| && Occupies(cs[j], weekday, period)
    ensures r.Filled? ==> |r.text| <= CELL_NAME_LIMIT
  {
    match FirstMatch(cs, weekday, period)
    case None => Blank
    case Some(k) =>
      var name := cs[k].name;
      Filled(if |name| <= CELL_NAME_LIMIT then name else name[..CELL_NAME_LIMIT])
  }

  /** A filled cell shows the start of the name of the first occupying
      course, the whole name when it is short enough. */
  lemma CellShowsFirstCourse(cs: seq<Course>, weekday: int, period: int)
    requires CellFor(cs, weekday, period).Filled?
    ensures var k := FirstMatch(cs, weekday, period).value;
      var text := CellFor(cs, weekday, period).text;
      && text <= cs[k].name
      && |text| == (if |cs[k].name| <= CELL_NAME_LIMIT then |cs[k].name| else CELL_NAME_LIMIT)
      && (|cs[k].name| <= CELL_NAME_LIMIT <==> text == cs[k].name)
  {
  }

  /** Every course appears in the grid cells of its own weekday and
      periods, unless an earlier course already occupies them. */
  lemma CourseCellsFilled(cs: seq<Course>, i: int, period: int)
    requires 0 <= i < |cs| && period in cs[i].periods
    ensures CellFor(cs, cs[i].weekday, period).Filled?
    ensures FirstMatch(cs, cs[i].weekday, period).value <= i
  {
    assert Occupies(cs[i], cs[i].weekday, period);
  }

  // ----- The tapped cell's card -------------------------------------------------

  /** `groupForCell(weekday:period:)`: the card of the cell's first
      course, listing every position with that course's key. */
  function GroupForCell(cs: seq<Course>, weekday: int, period: int): (r: Option<CourseGroup>)
    ensures r.None? <==> FirstMatch(cs, weekday, period).None?
  {
    match FirstMatch(cs, weekday, period)
    case None => None
    case Some(k) =>
      var base := cs[k];
      Some(CourseGroup(GroupKey(base), base.name, base.teacher, base.location, base.rawTime,
                       base.credits, base.notes, KeyPositions(cs, GroupKey(base))))
  }

  /** The card lists, in ascending order, exactly the positions that share
      the key of the cell's first course, including that course itself. */
  lemma GroupForCellIndices(cs: seq<Course>, weekday: int, period: int)
    requires FirstMatch(cs, weekday, period).Some?
    ensures var k := FirstMatch(cs, weekday, period).value;
      var g := GroupForCell(cs, weekday, period).value;
      && g.id == GroupKey(cs[k])
      && k in g.indices
      && (forall j :: 0 <= j < |g.indices| ==> g.indices[j] < |cs| && GroupKey(cs[g.indices[j]]) == g.id)
      && (forall j, l :: 0 <= j < l < |g.indices| ==> g.indices[j] < g.indices[l])
      && (forall i :: 0 <= i < |cs| && GroupKey(cs[i]) == g.id ==> i in g.indices)
  {
    var k := FirstMatch(cs, weekday, period).value;
    KeyPositionsComplete(cs, GroupKey(cs[k]), k);
    forall i | 0 <= i < |cs| && GroupKey(cs[i]) == GroupKey(cs[k])
      ensures i in KeyPositions(cs, GroupKey(cs[k]))
    {
      KeyPositionsComplete(cs, GroupKey(cs[k]), i);
    }
  }

  /** With unique records whose name, teacher and location hold no "|",
      the tapped cell opens the same card as the
      course list shows for that key: same positions and the same name,
      teacher, location and time text. */
  lemma GroupForCellMatchesList(cs: seq<Course>, weekday: int, period: int)
    requires UniqueRecords(cs)
    requires forall i :: 0 <= i < |cs| ==> BarFree(cs[i])
    requires FirstMatch(cs, weekday, period).Some?
    ensures var g := GroupForCell(cs, weekday, period).value;
      var h := GroupOf(cs, g.id);
      && g.indices == h.indices
      && g.name == h.name && g.teacher == h.teacher
      && g.location == h.location && g.rawTime == h.rawTime
      && h in GroupedCourses(cs)
  {
    var k := FirstMatch(cs, weekday, period).value;
    var key := GroupKey(cs[k]);
    GroupOfUnique(cs, key);
    KeyPositionsComplete(cs, key, k);
    KeyGroupIsGrouped(cs, k);
    var ps := KeyPositions(cs, key);
    KeyDeterminesFields(cs[k], cs[ps[0]]);
  }

  /** The two cards agree on positions and text fields but not always on
      credits and notes: the cell's card takes them from the first course
      in the cell, the list's card from the key's first record. */
  lemma CellCardCreditsMayDiffer()
    ensures var cs := [Course(0, "n", "t", "l", "r", 2, [1], true, Some(2), ""),
                       Course(1, "n", "t", "l", "r", 3, [2], true, Some(3), "")];
      && UniqueRecords(cs) && (forall i :: 0 <= i < |cs| ==> BarFree(cs[i]))
      && GroupForCell(cs, 3, 2).Some?
      && GroupForCell(cs, 3, 2).value.credits == Some(3)
      && GroupOf(cs, GroupForCell(cs, 3, 2).value.id).credits == Some(2)
  {
    var cs := [Course(0, "n", "t", "l", "r", 2, [1], true, Some(2), ""),
               Course(1, "n", "t", "l", "r", 3, [2], true, Some(3), "")];
    assert FirstMatch(cs, 3, 2) == Some(1);
    assert GroupKey(cs[1]) == GroupKey(cs[0]);
    assert FirstIndex(cs, cs[0]) == Some(0);
  }

  // ----- The card's toggle in the sheet -----------------------------------------

  /** The sheet toggle's getter: every listed position is in range and
      selected; on for an empty list. */
  function SheetIsSelected(cs: seq<Course>, indices: seq<nat>): bool {
    forall j :: 0 <= j < |indices| ==> indices[j] < |cs| && cs[indices[j]].isSelected
  }

  /** The sheet's getter and the course list's getter agree on a non-empty
      list of in-range positions, and differ otherwise: the sheet reads on
      for an empty list and off for any position out of range. */
  lemma SheetAndListGetters(cs: seq<Course>, indices: seq<nat>)
    ensures indices == [] ==> SheetIsSelected(cs, indices) && !GroupIsSelected(cs, indices)
    ensures (exists j :: 0 <= j < |indices| && indices[j] >= |cs|) ==> !SheetIsSelected(cs, indices)
    ensures indices != [] && (forall j :: 0 <= j < |indices| ==> indices[j] < |cs|) ==>
              SheetIsSelected(cs, indices) == GroupIsSelected(cs, indices)
  {
    if indices != [] && forall j :: 0 <= j < |indices| ==> indices[j] < |cs| {
      var valid := InRange(indices, |cs|);
      assert indices[0] in valid;
      if GroupIsSelected(cs, indices) {
        forall j | 0 <= j < |indices| ensures cs[indices[j]].isSelected {
          assert indices[j] in valid;
          var l :| 0 <= l < |valid| && valid[l] == indices[j];
        }
      }
      if SheetIsSelected(cs, indices) {
        forall l | 0 <= l < |valid| ensures cs[valid[l]].isSelected {
          assert valid[l] in indices;
        }
      }
    }
  }

  /** The sheet's setter is the course list's setter (only in-range
      positions change). Reading the sheet toggle after setting it gives
      the value set when every position is in range, and on for an empty
      list. */
  lemma SheetToggleRoundTrip(cs: seq<Course>, indices: seq<nat>, b: bool)
    ensures SheetIsSelected(SetGroupSelected(cs, indices, b), indices)
        == ((forall j :: 0 <= j < |indices| ==> indices[j] < |cs|) && (b || indices == []))
  {
    var cs' := SetGroupSelected(cs, indices, b);
    SetGroupSelectedEffect(cs, indices, b);
    if indices != [] && !b && indices[0] < |cs| {
      assert !cs'[indices[0]].isSelected;
    }
  }
}
