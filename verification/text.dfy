/**
 * Strings as sequences of Unicode scalars, with the Foundation operations
 * the app relies on: `components(separatedBy:)`, `trimmingCharacters(in:)`,
 * `joined(separator:)` and `contains(_:)`.
 */
module Text {

  /** The separators and trim sets used by the app: the literal strings
      "/" and ",", and the character sets `.whitespaces`, `.newlines` and
      `.whitespacesAndNewlines`. */
  datatype CharClass = Slash | Comma | Whitespace | Newline | WhitespaceOrNewline

  /** `CharacterSet.whitespaces`: horizontal tab and the Unicode space
      separators (general category Zs). */
  predicate IsWhitespace(c: char) {
    || c == '\t' || c == ' ' || c == '\U{A0}' || c == '\U{1680}'
    || ('\U{2000}' <= c <= '\U{200A}')
    || c == '\U{202F}' || c == '\U{205F}' || c == '\U{3000}'
  }

  /** `CharacterSet.newlines`: U+000A through U+000D, U+0085, U+2028, U+2029. */
  predicate IsNewline(c: char) {
    ('\n' <= c <= '\r') || c == '\U{85}' || c == '\U{2028}' || c == '\U{2029}'
  }

  predicate InClass(k: CharClass, c: char) {
    match k
    case Slash => c == '/'
    case Comma => c == ','
    case Whitespace => IsWhitespace(c)
    case Newline => IsNewline(c)
    case WhitespaceOrNewline => IsWhitespace(c) || IsNewline(c)
  }

  predicate NoneIn(s: string, k: CharClass) {
    forall i :: 0 <= i < |s| ==> !InClass(k, s[i])
  }

  predicate AllIn(s: string, k: CharClass) {
    forall i :: 0 <= i < |s| ==> InClass(k, s[i])
  }

  /** Number of separator characters of class `k` in `s`. */
  function CountIn(s: string, k: CharClass): nat
    decreases |s|
  {
    if s == [] then 0
    else (if InClass(k, s[0]) then 1 else 0) + CountIn(s[1..], k)
  }

  /** `s.components(separatedBy: k)`: cut at every character of class `k`;
      adjacent separators give empty pieces, and there is always one piece
      more than there are separators. */
  function Split(s: string, k: CharClass): (parts: seq<string>)
    ensures |parts| == CountIn(s, k) + 1
    ensures forall i :: 0 <= i < |parts| ==> NoneIn(parts[i], k)
    decreases |s|
  {
    if s == [] then [""]
    else if InClass(k, s[0]) then [""] + Split(s[1..], k)
    else
      var rest := Split(s[1..], k);
      [[s[0]] + rest[0]] + rest[1..]
  }

  /** The last piece of a split; `components(...).last` is never nil. */
  function LastPart(s: string, k: CharClass): (r: string)
    ensures NoneIn(r, k)
  {
    var parts := Split(s, k);
    parts[|parts| - 1]
  }

  /** `parts.joined(separator: sep)`. */
  function Join(parts: seq<string>, sep: string): string
    decreases |parts|
  {
    if |parts| == 0 then ""
    else if |parts| == 1 then parts[0]
    else parts[0] + sep + Join(parts[1..], sep)
  }

  /** `s.trimmingCharacters(in: k)`: characters of class `k` removed from
      both ends. */
  function Trim(s: string, k: CharClass): string
    decreases |s|
  {
    if s != [] && InClass(k, s[0]) then Trim(s[1..], k)
    else if s != [] && InClass(k, s[|s| - 1]) then Trim(s[..|s| - 1], k)
    else s
  }

  /** Trimming removes a run of trimmed characters from each end and
      nothing else: the result is the infix `s[i..j]`. */
  lemma {:induction false} TrimInfix(s: string, k: CharClass)
    ensures exists i, j :: 0 <= i <= j <= |s| && Trim(s, k) == s[i..j] && AllIn(s[..i], k) && AllIn(s[j..], k)
    decreases |s|
  {
    if s != [] && InClass(k, s[0]) {
      var t := s[1..];
      TrimInfix(t, k);
      var i, j :| 0 <= i <= j <= |t| && Trim(t, k) == t[i..j] && AllIn(t[..i], k) && AllIn(t[j..], k);
      InfixOfTail(s, i, j, k);
    } else if s != [] && InClass(k, s[|s| - 1]) {
      var t := s[..|s| - 1];
      TrimInfix(t, k);
      var i, j :| 0 <= i <= j <= |t| && Trim(t, k) == t[i..j] && AllIn(t[..i], k) && AllIn(t[j..], k);
      InfixOfInit(s, i, j, k);
    } else {
      assert Trim(s, k) == s[0..|s|];
      assert AllIn(s[..0], k) && AllIn(s[|s|..], k);
    }
  }

  lemma InfixOfTail(s: string, i: int, j: int, k: CharClass)
    requires s != [] && InClass(k, s[0]) && 0 <= i <= j <= |s| - 1
    requires AllIn(s[1..][..i], k) && AllIn(s[1..][j..], k)
    ensures s[1..][i..j] == s[i + 1..j + 1]
    ensures AllIn(s[..i + 1], k) && AllIn(s[j + 1..], k)
  {
    assert s[..i + 1] == [s[0]] + s[1..][..i];
    assert s[j + 1..] == s[1..][j..];
  }

  lemma InfixOfInit(s: string, i: int, j: int, k: CharClass)
    requires s != [] && InClass(k, s[|s| - 1]) && 0 <= i <= j <= |s| - 1
    requires AllIn(s[..|s| - 1][..i], k) && AllIn(s[..|s| - 1][j..], k)
    ensures s[..|s| - 1][i..j] == s[i..j]
    ensures AllIn(s[..i], k) && AllIn(s[j..], k)
  {
    assert s[..i] == s[..|s| - 1][..i];
    assert s[j..] == s[..|s| - 1][j..] + [s[|s| - 1]];
  }

  /** The trimmed string is empty exactly when every character is in the
      trim set, keeps only characters of `s`, neither starts nor ends with
      a trimmed character, and an already clean string is left alone;
      `TrimInfix` says which characters it keeps. */
  lemma {:induction false} TrimShape(s: string, k: CharClass)
    ensures Trim(s, k) == [] <==> AllIn(s, k)
    ensures var r := Trim(s, k); r == [] || (!InClass(k, r[0]) && !InClass(k, r[|r| - 1]))
    ensures forall c :: c in Trim(s, k) ==> c in s
    ensures NoneIn(s, k) ==> Trim(s, k) == s
    decreases |s|
  {
    if s != [] && InClass(k, s[0]) {
      TrimShape(s[1..], k);
    } else if s != [] && InClass(k, s[|s| - 1]) {
      TrimShape(s[..|s| - 1], k);
    }
  }

  /** Trimming never introduces a character of another class. */
  lemma TrimKeepsAbsence(s: string, k: CharClass, other: CharClass)
    requires NoneIn(s, other)
    ensures NoneIn(Trim(s, k), other)
  {
    var r := Trim(s, k);
    TrimShape(s, k);
    forall i | 0 <= i < |r| ensures !InClass(other, r[i]) {
      assert r[i] in s;
      var j :| 0 <= j < |s| && s[j] == r[i];
    }
  }

  /** `s.contains(t)` for a string argument: `t` occurs contiguously in `s`. */
  predicate ContainsText(s: string, t: string)
    decreases |s|
  {
    t <= s || (s != [] && ContainsText(s[1..], t))
  }

  /** A string with no separator of class `k` splits into itself alone. */
  lemma {:induction false} SplitNoSeparator(s: string, k: CharClass)
    requires NoneIn(s, k)
    ensures Split(s, k) == [s]
    decreases |s|
  {
    if s != [] {
      SplitNoSeparator(s[1..], k);
      assert [s[0]] + s[1..] == s;
    }
  }

  /** Splitting distributes over a separator: the pieces of `a`, then the
      pieces of `b`. */
  lemma {:induction false} SplitAtSeparator(a: string, c: char, b: string, k: CharClass)
    requires InClass(k, c)
    ensures Split(a + [c] + b, k) == Split(a, k) + Split(b, k)
    decreases |a|
  {
    if a == [] {
      assert a + [c] + b == [c] + b;
      SplitCons(c, b, k);
    } else {
      var t := a[1..] + [c] + b;
      assert a + [c] + b == [a[0]] + t;
      assert a == [a[0]] + a[1..];
      SplitAtSeparator(a[1..], c, b, k);
      SplitCons(a[0], t, k);
      SplitCons(a[0], a[1..], k);
    }
  }

  /** Splitting a string one character longer: a separator in front adds
      an empty first piece; any other character joins the first piece. */
  lemma SplitCons(x: char, t: string, k: CharClass)
    ensures InClass(k, x) ==> Split([x] + t, k) == [""] + Split(t, k)
    ensures !InClass(k, x) ==> Split([x] + t, k) == [[x] + Split(t, k)[0]] + Split(t, k)[1..]
  {
    assert ([x] + t)[0] == x && ([x] + t)[1..] == t;
  }

  /** Joining pieces that hold no separator with a one-character separator
      and splitting again gives back the pieces. */
  lemma {:induction false} SplitJoin(parts: seq<string>, c: char, k: CharClass)
    requires |parts| >= 1
    requires InClass(k, c)
    requires forall i :: 0 <= i < |parts| ==> NoneIn(parts[i], k)
    ensures Split(Join(parts, [c]), k) == parts
    decreases |parts|
  {
    if |parts| == 1 {
      SplitNoSeparator(parts[0], k);
    } else {
      SplitJoin(parts[1..], c, k);
      SplitNoSeparator(parts[0], k);
      SplitAtSeparator(parts[0], c, Join(parts[1..], [c]), k);
      assert [parts[0]] + parts[1..] == parts;
    }
  }
}
