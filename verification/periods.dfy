/**
 * Period tokens such as "1,2" or "A,B,C,D": reading them into period
 * numbers (`parsePeriods`) and writing one period back (`displayPeriod`).
 */
module Periods {
  import opened Base
  import opened Text
  import opened Numbers

  /** The evening periods A..D are numbers 11..14. */
  function LetterPeriod(s: string): (r: Option<int>)
    ensures r.Some? ==> 11 <= r.value <= 14 && |s| == 1
  {
    if s == "A" then Some(11)
    else if s == "B" then Some(12)
    else if s == "C" then Some(13)
    else if s == "D" then Some(14)
    else None
  }

  /** What one comma-separated piece contributes: trimmed of spaces, an
      integer if `Int(_)` accepts it, otherwise a letter A..D, otherwise
      nothing. */
  function PieceValue(piece: string): (r: Option<int>)
    ensures r.Some? ==> InInt64(r.value)
  {
    var clean := Trim(piece, Whitespace);
    match ParseInt(clean)
    case Some(v) => Some(v)
    case None => LetterPeriod(clean)
  }

  /** Each piece's value, piece by piece. */
  function PieceValues(pieces: seq<string>): (r: seq<Option<int>>)
    ensures |r| == |pieces|
    ensures forall i :: 0 <= i < |pieces| ==> r[i] == PieceValue(pieces[i])
  {
    seq(|pieces|, i requires 0 <= i < |pieces| => PieceValue(pieces[i]))
  }

  /** The values of the pieces that have one, in piece order. */
  function PeriodsOf(pieces: seq<string>): (r: seq<int>)
    ensures |r| <= |pieces|
  {
    Somes(PieceValues(pieces))
  }

  /** `parsePeriods(from:)` of MyCoursesView. */
  function ParsePeriods(token: string): seq<int> {
    PeriodsOf(Split(token, Comma))
  }

  /** Every period read comes from some piece. */
  lemma PeriodsComeFromPieces(pieces: seq<string>, v: int)
    requires v in PeriodsOf(pieces)
    ensures exists i :: 0 <= i < |pieces| && PieceValue(pieces[i]) == Some(v)
  {
    SomesMembers(PieceValues(pieces), v);
  }

  /** The pieces are read independently: the periods of a list of pieces
      are those of its first part followed by those of the rest. */
  lemma PeriodsOfConcat(a: seq<string>, b: seq<string>)
    ensures PeriodsOf(a + b) == PeriodsOf(a) + PeriodsOf(b)
  {
    assert PieceValues(a + b) == PieceValues(a) + PieceValues(b);
    SomesConcat(PieceValues(a), PieceValues(b));
  }

  /** One piece as a list of zero or one period. */
  function PieceList(piece: string): seq<int> {
    match PieceValue(piece)
    case Some(v) => [v]
    case None => []
  }

  /** A single piece gives its value, or nothing. */
  lemma PeriodsOfOne(x: string)
    ensures PeriodsOf([x]) == PieceList(x)
  {
    assert PieceValues([x]) == [PieceValue(x)];
  }

  /** An unreadable piece is dropped without affecting its siblings. */
  lemma DropUnreadablePiece(a: seq<string>, x: string, b: seq<string>)
    requires PieceValue(x).None?
    ensures PeriodsOf(a + [x] + b) == PeriodsOf(a + b)
  {
    PeriodsOfConcat(a + [x], b);
    PeriodsOfConcat(a, [x]);
    PeriodsOfConcat(a, b);
    PeriodsOfOne(x);
  }

  /** `displayPeriod(_:)`: 11..14 as the letters A..D, every other number
      in decimal. */
  function DisplayPeriod(p: int): (r: string)
    ensures |r| >= 1
  {
    match p
    case 11 => "A"
    case 12 => "B"
    case 13 => "C"
    case 14 => "D"
    case _ => DecimalString(p)
  }

  /** A piece without spaces is read as is. */
  lemma CleanPieceValue(s: string)
    requires NoneIn(s, Whitespace)
    ensures PieceValue(s) == (match ParseInt(s) case Some(v) => Some(v) case None => LetterPeriod(s))
  {
    assert Trim(s, Whitespace) == s;
  }

  lemma LetterPieceValue(p: int)
    requires 11 <= p <= 14
    ensures PieceValue(DisplayPeriod(p)) == Some(p)
  {
    var s := DisplayPeriod(p);
    assert s == ["ABCD"[p - 11]];
    LetterPiece(s);
  }

  /** A lone letter A..D is read as its evening period. */
  lemma LetterPiece(s: string)
    requires |s| == 1 && 'A' <= s[0] <= 'D'
    ensures PieceValue(s) == Some(s[0] as int - 'A' as int + 11)
  {
    LetterPieceIsLetter(s);
    assert LetterPeriod(s) == Some(s[0] as int - 'A' as int + 11);
  }

  lemma LetterPieceIsLetter(s: string)
    requires |s| == 1 && 'A' <= s[0] <= 'D'
    ensures PieceValue(s) == LetterPeriod(s)
  {
    NoIntInLetter(s);
    CleanPieceValue(s);
  }

  /** A single character that is neither a digit nor a sign is not an integer. */
  lemma NoIntInLetter(s: string)
    requires |s| == 1 && !IsAsciiDigit(s[0]) && !IsSign(s[0])
    ensures ParseInt(s) == None
  {
  }

  lemma DecimalPieceValue(p: int)
    requires InInt64(p) && !(11 <= p <= 14)
    ensures PieceValue(DisplayPeriod(p)) == Some(p)
  {
    var s := DisplayPeriod(p);
    assert s == DecimalString(p);
    CleanPieceValue(s);
    DecimalRoundTrip(p);
  }

  /** A displayed period is a single piece whose value is that period. */
  lemma DisplayPieceValue(p: int)
    requires InInt64(p)
    ensures PieceValue(DisplayPeriod(p)) == Some(p)
  {
    if 11 <= p <= 14 {
      LetterPieceValue(p);
    } else {
      DecimalPieceValue(p);
    }
  }

  /** Reading a displayed period gives back exactly that period, for every
      64-bit integer (in particular for every period 0..14). */
  lemma DisplayRoundTrip(p: int)
    requires InInt64(p)
    ensures ParsePeriods(DisplayPeriod(p)) == [p]
  {
    var s := DisplayPeriod(p);
    assert NoneIn(s, Comma);
    SplitNoSeparator(s, Comma);
    PeriodsOfOne(s);
    DisplayPieceValue(p);
  }

  /** Distinct periods are displayed differently. */
  lemma DisplayInjective(p: int, q: int)
    requires InInt64(p) && InInt64(q)
    requires DisplayPeriod(p) == DisplayPeriod(q)
    ensures p == q
  {
    DisplayRoundTrip(p);
    DisplayRoundTrip(q);
  }
}
