/**
 * The course list screen's grouping: records that share name, teacher,
 * location and time text form one card, and the card's toggle selects or
 * deselects all of them at once.
 */
module Grouping {
  import opened Base
  import opened Models

  /** The grouping key `name|teacher|location|rawTime`. */
  function GroupKey(c: Course): string {
    c.name + "|" + c.teacher + "|" + c.location + "|" + c.rawTime
  }

  /** One card: the key as its identity, the fields shown, and the
      positions in the course list of the records it stands for. */
  datatype CourseGroup = CourseGroup(
    id: string,
    name: string,
    teacher: string,
    location: string,
    rawTime: string,
    credits: Option<int>,
    notes: string,
    indices: seq<nat>)

  // ----- Positions and keys ---------------------------------------------------

  /** The positions of the records with key `key`, in ascending order. */
  function KeyPositions(cs: seq<Course>, key: string): (r: seq<nat>)
    ensures forall j :: 0 <= j < |r| ==> r[j] < |cs| && GroupKey(cs[r[j]]) == key
    ensures forall j, k :: 0 <= j < k < |r| ==> r[j] < r[k]
    decreases |cs|
  {
    if cs == [] then []
    else
      var n := |cs| - 1;
      KeyPositions(cs[..n], key) + (if GroupKey(cs[n]) == key then [n] else [])
  }

  /** Every record with key `key` is listed among its positions. */
  lemma {:induction false} KeyPositionsComplete(cs: seq<Course>, key: string, i: int)
    requires 0 <= i < |cs| && GroupKey(cs[i]) == key
    ensures i in KeyPositions(cs, key)
    decreases |cs|
  {
    var n := |cs| - 1;
    if i < n {
      KeyPositionsComplete(cs[..n], key, i);
    }
  }

  /** The distinct keys of the list, in order of first appearance. */
  function Keys(cs: seq<Course>): (r: seq<string>)
    ensures forall j, k :: 0 <= j < k < |r| ==> r[j] != r[k]
    decreases |cs|
  {
    if cs == [] then []
    else
      var n := |cs| - 1;
      var earlier := Keys(cs[..n]);
      if GroupKey(cs[n]) in earlier then earlier else earlier + [GroupKey(cs[n])]
  }

  /** A key is listed exactly when some record has it. */
  lemma {:induction false} KeysAreRecordKeys(cs: seq<Course>, key: string)
    ensures key in Keys(cs) <==> exists i :: 0 <= i < |cs| && GroupKey(cs[i]) == key
    decreases |cs|
  {
    if cs != [] {
      var n := |cs| - 1;
      KeysAreRecordKeys(cs[..n], key);
      if key in Keys(cs[..n]) {
        var i :| 0 <= i < n && GroupKey(cs[..n][i]) == key;
        assert GroupKey(cs[i]) == key;
      }
      if exists i :: 0 <= i < |cs| && GroupKey(cs[i]) == key {
        var i :| 0 <= i < |cs| && GroupKey(cs[i]) == key;
        if i < n {
          assert GroupKey(cs[..n][i]) == key;
        }
      }
    }
  }

  /** The position of the first record equal to `c`, field for field:
      `firstIndex(of:)`. */
  function FirstIndex(cs: seq<Course>, c: Course): (r: Option<nat>)
    ensures r.Some? ==> r.value < |cs| && cs[r.value] == c
    ensures r.Some? ==> forall j :: 0 <= j < r.value ==> cs[j] != c
    ensures r.None? <==> c !in cs
    decreases |cs|
  {
    if cs == [] then None
    else if cs[0] == c then Some(0)
    else match FirstIndex(cs[1..], c)
      case Some(k) => Some(k + 1)
      case None => None
  }

  // ----- Groups ---------------------------------------------------------------

  /** The card for one key: the fields of its first record and, for each of
      its records in list order, the position `firstIndex(of:)` finds. */
  function GroupOf(cs: seq<Course>, key: string): (g: CourseGroup)
    ensures g.id == key
  {
    var ps := KeyPositions(cs, key);
    if ps == [] then CourseGroup(key, "", "", "", "", None, "", [])
    else
      var first := cs[ps[0]];
      CourseGroup(key, first.name, first.teacher, first.location, first.rawTime,
                  first.credits, first.notes,
                  Somes(seq(|ps|, j requires 0 <= j < |ps| => FirstIndex(cs, cs[ps[j]]))))
  }

  /** One card per distinct key, in order of first appearance. The
      dictionary the app groups into has no defined order; this order
      is the model's choice and the name sort below is what the screen
      relies on. */
  function UnsortedGroups(cs: seq<Course>): (r: seq<CourseGroup>)
    ensures |r| == |Keys(cs)|
    ensures forall j :: 0 <= j < |r| ==> r[j] == GroupOf(cs, Keys(cs)[j])
  {
    var ks := Keys(cs);
    seq(|ks|, j requires 0 <= j < |ks| => GroupOf(cs, ks[j]))
  }

  /** String order by code points, shorter prefix first. */
  predicate StrLt(a: string, b: string)
    decreases |a|
  {
    if a == [] then b != []
    else if b == [] then false
    else if a[0] != b[0] then a[0] < b[0]
    else StrLt(a[1..], b[1..])
  }

  lemma {:induction false} StrLtIrreflexive(a: string)
    ensures !StrLt(a, a)
    decreases |a|
  {
    if a != [] {
      StrLtIrreflexive(a[1..]);
    }
  }

  lemma {:induction false} StrLtTransitive(a: string, b: string, c: string)
    requires StrLt(a, b) && StrLt(b, c)
    ensures StrLt(a, c)
    decreases |a|
  {
    if a != [] && a[0] == b[0] && b[0] == c[0] {
      StrLtTransitive(a[1..], b[1..], c[1..]);
    }
  }

  lemma {:induction false} StrLtTotal(a: string, b: string)
    requires a != b
    ensures StrLt(a, b) || StrLt(b, a)
    decreases |a|
  {
    if a != [] && b != [] && a[0] == b[0] {
      assert a == [a[0]] + a[1..] && b == [b[0]] + b[1..];
      StrLtTotal(a[1..], b[1..]);
    }
  }

  /** "Not less than" chains: if `b` is not below `a` and `c` is not below
      `b`, then `c` is not below `a`. */
  lemma NotBelowTransitive(a: string, b: string, c: string)
    requires !StrLt(b, a) && !StrLt(c, b)
    ensures !StrLt(c, a)
  {
    if StrLt(c, a) {
      if a == b {
        assert false;
      } else {
        StrLtTotal(a, b);
        StrLtTransitive(c, a, b);
        assert false;
      }
    }
  }

  /** Names never decrease along the list. */
  predicate SortedByName(gs: seq<CourseGroup>) {
    forall i, j :: 0 <= i < j < |gs| ==> !StrLt(gs[j].name, gs[i].name)
  }

  /** Places `g` before the first card whose name is not below its own. */
  function Insert(g: CourseGroup, gs: seq<CourseGroup>): (r: seq<CourseGroup>)
    ensures |r| == |gs| + 1
    ensures multiset(r) == multiset(gs) + multiset{g}
    decreases |gs|
  {
    if gs == [] || !StrLt(gs[0].name, g.name) then [g] + gs
    else
      assert gs == [gs[0]] + gs[1..];
      [gs[0]] + Insert(g, gs[1..])
  }

  lemma {:induction false} InsertSorted(g: CourseGroup, gs: seq<CourseGroup>)
    requires SortedByName(gs)
    ensures SortedByName(Insert(g, gs))
    decreases |gs|
  {
    if gs == [] {
    } else if !StrLt(gs[0].name, g.name) {
      forall j | 0 <= j < |gs| ensures !StrLt(gs[j].name, g.name) {
        if j > 0 {
          NotBelowTransitive(g.name, gs[0].name, gs[j].name);
        }
      }
    } else {
      InsertSorted(g, gs[1..]);
      var rest := Insert(g, gs[1..]);
      forall y | y in rest ensures !StrLt(y.name, gs[0].name) {
        assert y in multiset(rest);
        if y == g {
          if StrLt(g.name, gs[0].name) {
            StrLtTransitive(g.name, gs[0].name, g.name);
            StrLtIrreflexive(g.name);
          }
        } else {
          assert y in gs[1..];
        }
      }
      assert forall j :: 0 < j < |rest| + 1 ==> ([gs[0]] + rest)[j] == rest[j - 1];
    }
  }

  /** A stable insertion sort by name. */
  function SortByName(gs: seq<CourseGroup>): (r: seq<CourseGroup>)
    ensures |r| == |gs|
    ensures multiset(r) == multiset(gs)
    decreases |gs|
  {
    if gs == [] then []
    else
      assert gs == [gs[0]] + gs[1..];
      Insert(gs[0], SortByName(gs[1..]))
  }

  lemma {:induction false} SortByNameSorted(gs: seq<CourseGroup>)
    ensures SortedByName(SortByName(gs))
    decreases |gs|
  {
    if gs != [] {
      SortByNameSorted(gs[1..]);
      InsertSorted(gs[0], SortByName(gs[1..]));
    }
  }

  /** `groupedCourses`: the cards sorted by course name. */
  function GroupedCourses(cs: seq<Course>): seq<CourseGroup> {
    SortByName(UnsortedGroups(cs))
  }

  /** The cards are in name order and are exactly the cards of the
      distinct keys, each once. */
  lemma GroupedCoursesSorted(cs: seq<Course>)
    ensures SortedByName(GroupedCourses(cs))
    ensures multiset(GroupedCourses(cs)) == multiset(UnsortedGroups(cs))
    ensures |GroupedCourses(cs)| == |Keys(cs)|
  {
    SortByNameSorted(UnsortedGroups(cs));
  }

  // ----- Partition ------------------------------------------------------------

  /** No two records are equal field for field, as holds when every record
      has its own identifier. */
  predicate UniqueRecords(cs: seq<Course>) {
    forall i, j :: 0 <= i < j < |cs| ==> cs[i] != cs[j]
  }

  /** With unique records, a card lists exactly the positions of its key,
      ascending, and shows the fields of the first of them. */
  lemma GroupOfUnique(cs: seq<Course>, key: string)
    requires UniqueRecords(cs)
    ensures GroupOf(cs, key).indices == KeyPositions(cs, key)
    ensures GroupOf(cs, key).id == key
    ensures KeyPositions(cs, key) != [] ==>
      var first := cs[KeyPositions(cs, key)[0]];
      var g := GroupOf(cs, key);
      && g.name == first.name && g.teacher == first.teacher && g.location == first.location
      && g.rawTime == first.rawTime && g.credits == first.credits && g.notes == first.notes
  {
    var ps := KeyPositions(cs, key);
    if ps != [] {
      var xs := seq(|ps|, j requires 0 <= j < |ps| => FirstIndex(cs, cs[ps[j]]));
      forall j | 0 <= j < |ps| ensures xs[j] == Some(ps[j]) {
        var k := FirstIndex(cs, cs[ps[j]]);
        assert k.Some? && cs[k.value] == cs[ps[j]];
      }
      SomesAllPresent(xs, ps);
    }
  }

  /** Every card in the list is the card of one of the keys. */
  lemma GroupedAreKeyGroups(cs: seq<Course>, g: CourseGroup)
    requires g in GroupedCourses(cs)
    ensures g.id in Keys(cs) && g == GroupOf(cs, g.id)
  {
    var us := UnsortedGroups(cs);
    GroupedCoursesSorted(cs);
    assert g in multiset(us);
    var j :| 0 <= j < |us| && us[j] == g;
  }

  /** Every card of the key of some record is in the list. */
  lemma KeyGroupIsGrouped(cs: seq<Course>, i: int)
    requires 0 <= i < |cs|
    ensures GroupOf(cs, GroupKey(cs[i])) in GroupedCourses(cs)
  {
    var key := GroupKey(cs[i]);
    var us := UnsortedGroups(cs);
    KeysAreRecordKeys(cs, key);
    var j :| 0 <= j < |Keys(cs)| && Keys(cs)[j] == key;
    assert us[j] == GroupOf(cs, key);
    GroupedCoursesSorted(cs);
    assert GroupOf(cs, key) in multiset(GroupedCourses(cs));
  }

  /** With unique records, every card lists exactly the positions of its
      key, ascending and non-empty. */
  lemma GroupedCoursesIndices(cs: seq<Course>, g: CourseGroup)
    requires UniqueRecords(cs)
    requires g in GroupedCourses(cs)
    ensures g.indices == KeyPositions(cs, g.id) && g.indices != []
  {
    GroupedAreKeyGroups(cs, g);
    GroupOfUnique(cs, g.id);
    KeysAreRecordKeys(cs, g.id);
    var i :| 0 <= i < |cs| && GroupKey(cs[i]) == g.id;
    KeyPositionsComplete(cs, g.id, i);
  }

  /** With unique records, every position of the course list belongs to
      exactly one card, the card of its key. */
  lemma GroupedCoursesPartition(cs: seq<Course>, i: int)
    requires UniqueRecords(cs)
    requires 0 <= i < |cs|
    ensures exists g :: g in GroupedCourses(cs) && g.id == GroupKey(cs[i]) && i in g.indices
    ensures forall g, h :: (g in GroupedCourses(cs) && h in GroupedCourses(cs)
              && i in g.indices && i in h.indices) ==> g == h
  {
    var key := GroupKey(cs[i]);
    KeyGroupIsGrouped(cs, i);
    GroupOfUnique(cs, key);
    KeyPositionsComplete(cs, key, i);
    forall g, h | g in GroupedCourses(cs) && h in GroupedCourses(cs) && i in g.indices && i in h.indices
      ensures g == h
    {
      GroupedAreKeyGroups(cs, g);
      GroupedAreKeyGroups(cs, h);
      GroupedCoursesIndices(cs, g);
      GroupedCoursesIndices(cs, h);
    }
  }

  /** Two equal records (no unique identifier) are both reported at the
      position of the first: the card for `[c, c]` lists position 0 twice. */
  lemma DuplicateRecordsShareIndex(c: Course)
    ensures GroupOf([c, c], GroupKey(c)).indices == [0, 0]
  {
    var cs := [c, c];
    assert cs[..1] == [c];
    assert [c][..0] == [];
    assert KeyPositions([c], GroupKey(c)) == [0];
    assert KeyPositions(cs, GroupKey(c)) == [0, 1];
    var xs := seq(2, j requires 0 <= j < 2 => FirstIndex(cs, cs[[0, 1][j]]));
    assert xs == [Some(0), Some(0)];
    SomesAllPresent(xs, [0, 0]);
  }

  // ----- Keys and fields -------------------------------------------------------

  /** The fields joined into the key hold no "|" (the time text may). */
  predicate BarFree(c: Course) {
    '|' !in c.name && '|' !in c.teacher && '|' !in c.location
  }

  /** Joining at a "|" that the left part does not contain can be undone. */
  lemma {:induction false} BarJoinInjective(a1: string, b1: string, a2: string, b2: string)
    requires '|' !in a1 && '|' !in a2
    requires a1 + "|" + b1 == a2 + "|" + b2
    ensures a1 == a2 && b1 == b2
  {
    var s := a1 + "|" + b1;
    BarPosition(a1, b1);
    BarPosition(a2, b2);
    assert |a1| == |a2|;
    assert a1 == s[..|a1|] == a2;
    assert b1 == s[|a1| + 1..] == b2;
  }

  /** The first "|" of `a + "|" + b` is the one after `a` when `a` has
      none. */
  lemma BarPosition(a: string, b: string)
    requires '|' !in a
    ensures forall i :: 0 <= i < |a| ==> (a + "|" + b)[i] != '|'
    ensures (a + "|" + b)[|a|] == '|'
  {
    forall i | 0 <= i < |a| ensures (a + "|" + b)[i] != '|' {
      assert (a + "|" + b)[i] == a[i];
    }
  }

  /** For records free of "|" in the joined fields, equal keys mean equal
      name, teacher, location and time text. */
  lemma KeyDeterminesFields(a: Course, b: Course)
    requires BarFree(a) && BarFree(b)
    requires GroupKey(a) == GroupKey(b)
    ensures a.name == b.name && a.teacher == b.teacher
    ensures a.location == b.location && a.rawTime == b.rawTime
  {
    assert GroupKey(a) == a.name + "|" + (a.teacher + "|" + a.location + "|" + a.rawTime);
    assert GroupKey(b) == b.name + "|" + (b.teacher + "|" + b.location + "|" + b.rawTime);
    BarJoinInjective(a.name, a.teacher + "|" + a.location + "|" + a.rawTime,
                     b.name, b.teacher + "|" + b.location + "|" + b.rawTime);
    assert a.teacher + "|" + a.location + "|" + a.rawTime == a.teacher + "|" + (a.location + "|" + a.rawTime);
    assert b.teacher + "|" + b.location + "|" + b.rawTime == b.teacher + "|" + (b.location + "|" + b.rawTime);
    BarJoinInjective(a.teacher, a.location + "|" + a.rawTime, b.teacher, b.location + "|" + b.rawTime);
    BarJoinInjective(a.location, a.rawTime, b.location, b.rawTime);
  }

  /** A "|" inside a field lets two different courses share a key, and so
      a card: name "A|B" with teacher "C", and name "A" with teacher "B|C". */
  lemma BarInFieldMergesCourses(x: Course, y: Course)
    requires x.name == "A|B" && x.teacher == "C"
    requires y.name == "A" && y.teacher == "B|C"
    requires x.location == y.location && x.rawTime == y.rawTime
    ensures GroupKey(x) == GroupKey(y) && x.name != y.name
  {
    assert x.name + "|" + x.teacher == "A|B|C" == y.name + "|" + y.teacher;
  }

  // ----- The card's toggle ----------------------------------------------------

  /** The positions that lie inside a list of `n` records. */
  function InRange(indices: seq<nat>, n: nat): (r: seq<nat>)
    ensures forall j :: 0 <= j < |r| ==> r[j] < n
    ensures forall i :: i in r <==> i in indices && i < n
    decreases |indices|
  {
    if indices == [] then []
    else (if indices[0] < n then [indices[0]] else []) + InRange(indices[1..], n)
  }

  /** The card toggle's getter: on when some listed position is in range
      and every in-range one is selected. */
  function GroupIsSelected(cs: seq<Course>, indices: seq<nat>): bool {
    var valid := InRange(indices, |cs|);
    valid != [] && forall j :: 0 <= j < |valid| ==> cs[valid[j]].isSelected
  }

  /** Sets `isSelected` at each listed position in turn. */
  function SetAt(cs: seq<Course>, idxs: seq<nat>, b: bool): (r: seq<Course>)
    requires forall j :: 0 <= j < |idxs| ==> idxs[j] < |cs|
    ensures |r| == |cs|
    decreases |idxs|
  {
    if idxs == [] then cs
    else SetAt(cs[idxs[0] := cs[idxs[0]].(isSelected := b)], idxs[1..], b)
  }

  /** After the loop each listed record has the new flag and nothing else
      differs. */
  lemma {:induction false} SetAtEffect(cs: seq<Course>, idxs: seq<nat>, b: bool, i: int)
    requires forall j :: 0 <= j < |idxs| ==> idxs[j] < |cs|
    requires 0 <= i < |cs|
    ensures SetAt(cs, idxs, b)[i] == if i in idxs then cs[i].(isSelected := b) else cs[i]
    decreases |idxs|
  {
    if idxs != [] {
      var cs' := cs[idxs[0] := cs[idxs[0]].(isSelected := b)];
      SetAtEffect(cs', idxs[1..], b, i);
    }
  }

  /** The card toggle's setter: every in-range listed record takes the new
      value. */
  function SetGroupSelected(cs: seq<Course>, indices: seq<nat>, b: bool): (r: seq<Course>)
    ensures |r| == |cs|
  {
    SetAt(cs, InRange(indices, |cs|), b)
  }

  /** The setter touches exactly the listed records, and only their flag. */
  lemma SetGroupSelectedEffect(cs: seq<Course>, indices: seq<nat>, b: bool)
    ensures forall i :: 0 <= i < |cs| ==>
      SetGroupSelected(cs, indices, b)[i] == if i in indices then cs[i].(isSelected := b) else cs[i]
  {
    forall i | 0 <= i < |cs|
      ensures SetGroupSelected(cs, indices, b)[i] == if i in indices then cs[i].(isSelected := b) else cs[i]
    {
      SetAtEffect(cs, InRange(indices, |cs|), b, i);
    }
  }

  /** Reading the toggle after setting it gives the value set, unless no
      listed position is in range, in which case it reads off. */
  lemma GroupToggleRoundTrip(cs: seq<Course>, indices: seq<nat>, b: bool)
    ensures GroupIsSelected(SetGroupSelected(cs, indices, b), indices)
        == (b && InRange(indices, |cs|) != [])
  {
    var cs' := SetGroupSelected(cs, indices, b);
    var valid := InRange(indices, |cs|);
    SetGroupSelectedEffect(cs, indices, b);
    if b && valid != [] {
      forall j | 0 <= j < |valid| ensures cs'[valid[j]].isSelected {
        assert valid[j] in indices;
      }
    }
    if !b && valid != [] {
      assert valid[0] in indices;
      assert !cs'[valid[0]].isSelected;
    }
  }
}
