/** String operations of the two runtimes the system is written in: Python's
    str.strip / str.lower / `in` / str.split and JavaScript's trim /
    toLowerCase / includes / split / join, plus decimal formatting and
    parsing of integers. */
module Text {
  import opened Wrappers

  /** Characters for which Python's str.isspace() holds, the set str.strip()
      removes when given no argument. */
  predicate IsPySpace(c: char) {
    var n := c as int;
    (0x09 <= n <= 0x0D) || (0x1C <= n <= 0x20) || n == 0x85 || n == 0xA0 || n == 0x1680
    || (0x2000 <= n <= 0x200A) || n == 0x2028 || n == 0x2029 || n == 0x202F
    || n == 0x205F || n == 0x3000
  }

  /** JavaScript WhiteSpace and LineTerminator characters: what String.prototype.trim
      removes and what the regular-expression class \s matches. */
  predicate IsJsSpace(c: char) {
    var n := c as int;
    (0x09 <= n <= 0x0D) || n == 0x20 || n == 0xA0 || n == 0x1680
    || (0x2000 <= n <= 0x200A) || n == 0x2028 || n == 0x2029 || n == 0x202F
    || n == 0x205F || n == 0x3000 || n == 0xFEFF
  }

  /** The characters a JavaScript `.` in a regular expression does not match. */
  predicate IsLineTerminator(c: char) {
    c == '\n' || c == '\r' || c as int == 0x2028 || c as int == 0x2029
  }

  predicate IsDigit(c: char) { '0' <= c <= '9' }

  /** s with its leading `space` characters removed. */
  function DropLeading(s: string, space: char -> bool): string {
    if s != [] && space(s[0]) then DropLeading(s[1..], space) else s
  }

  /** s with its trailing `space` characters removed. */
  function DropTrailing(s: string, space: char -> bool): string {
    if s != [] && space(s[|s| - 1]) then DropTrailing(s[..|s| - 1], space) else s
  }

  /** What DropLeading removes is a prefix of spaces, and what it keeps
      does not start with one. */
  lemma {:induction false} DropLeadingShape(s: string, space: char -> bool)
    ensures var r := DropLeading(s, space);
      |r| <= |s| && r == s[|s| - |r|..]
      && (r != [] ==> !space(r[0]))
      && (forall i :: 0 <= i < |s| - |r| ==> space(s[i]))
    decreases |s|
  {
    if s != [] && space(s[0]) {
      DropLeadingShape(s[1..], space);
    }
  }

  /** What DropTrailing removes is a suffix of spaces, and what it keeps
      does not end with one. */
  lemma {:induction false} DropTrailingShape(s: string, space: char -> bool)
    ensures var r := DropTrailing(s, space);
      |r| <= |s| && r == s[..|r|]
      && (r != [] ==> !space(r[|r| - 1]))
      && (forall i :: |r| <= i < |s| ==> space(s[i]))
    decreases |s|
  {
    if s != [] && space(s[|s| - 1]) {
      DropTrailingShape(s[..|s| - 1], space);
    }
  }

  function Trim(s: string, space: char -> bool): string {
    DropTrailing(DropLeading(s, space), space)
  }

  /** Python's str.strip() with no argument. */
  function PyStrip(s: string): string { Trim(s, IsPySpace) }

  /** JavaScript's String.prototype.trim(). */
  function JsTrim(s: string): string { Trim(s, IsJsSpace) }

  /** A trimmed string is a contiguous piece of the original with no space at
      either end, and it is empty exactly when the original is all space. */
  lemma TrimShape(s: string, space: char -> bool)
    ensures var r, k := Trim(s, space), |s| - |DropLeading(s, space)|;
      0 <= k && k + |r| <= |s| && r == s[k..k + |r|]
      && (r != [] ==> !space(r[0]) && !space(r[|r| - 1]))
      && (r == [] <==> forall i :: 0 <= i < |s| ==> space(s[i]))
  {
    var l := DropLeading(s, space);
    var r := DropTrailing(l, space);
    DropLeadingShape(s, space);
    DropTrailingShape(l, space);
    assert r == s[|s| - |l|..|s| - |l| + |r|];
  }

  /** Trimming a string that already starts and ends with a non-space
      character changes nothing. */
  lemma TrimOfTrimmed(s: string, space: char -> bool)
    requires s != [] ==> !space(s[0]) && !space(s[|s| - 1])
    ensures Trim(s, space) == s
  {
  }

  /** Trimming twice is trimming once. */
  lemma TrimIdempotent(s: string, space: char -> bool)
    ensures Trim(Trim(s, space), space) == Trim(s, space)
  {
    TrimShape(s, space);
    TrimOfTrimmed(Trim(s, space), space);
  }

  /** The lower-case form of an ASCII letter; every other character is kept. */
  function LowerChar(c: char): char {
    if 'A' <= c <= 'Z' then (c as int + 32) as char else c
  }

  /** Python's str.lower() and JavaScript's toLowerCase(), on ASCII letters. */
  function Lower(s: string): (r: string)
    ensures |r| == |s|
  {
    seq(|s|, i requires 0 <= i < |s| => LowerChar(s[i]))
  }

  lemma LowerIdempotent(s: string)
    ensures Lower(Lower(s)) == Lower(s)
  {
  }

  /** t occurs in s starting at position i. */
  predicate OccursAt(s: string, t: string, i: int) {
    0 <= i && i + |t| <= |s| && s[i..i + |t|] == t
  }

  /** `t in s` in Python, `s.includes(t)` in JavaScript. */
  predicate Contains(s: string, t: string) {
    exists i | 0 <= i <= |s| - |t| :: OccursAt(s, t, i)
  }

  /** The first position at or after k where t occurs in s. */
  function IndexFrom(s: string, t: string, k: nat): (r: Option<nat>)
    requires k <= |s|
    ensures r.Some? ==> k <= r.value && OccursAt(s, t, r.value)
    ensures r.Some? ==> forall j :: k <= j < r.value ==> !OccursAt(s, t, j)
    ensures r.None? ==> forall j :: k <= j ==> !OccursAt(s, t, j)
    decreases |s| - k
  {
    if k + |t| > |s| then None
    else if s[k..k + |t|] == t then Some(k)
    else if k == |s| then None
    else IndexFrom(s, t, k + 1)
  }

  function IndexOf(s: string, t: string): (r: Option<nat>)
    ensures r.None? <==> !Contains(s, t)
    ensures r.Some? ==> OccursAt(s, t, r.value)
    ensures r.Some? ==> forall j :: 0 <= j < r.value ==> !OccursAt(s, t, j)
  {
    IndexFrom(s, t, 0)
  }

  /** JavaScript's s.split(sep) (and Python's s.split(sep)) for a non-empty
      separator: the pieces between the non-overlapping occurrences of sep,
      scanning left to right. */
  function Split(s: string, sep: string): (r: seq<string>)
    requires |sep| > 0
    ensures |r| >= 1
    decreases |s|
  {
    match IndexOf(s, sep)
    case None => [s]
    case Some(i) => [s[..i]] + Split(s[i + |sep|..], sep)
  }

  /** JavaScript's parts.join(sep) and Python's sep.join(parts). */
  function Join(parts: seq<string>, sep: string): string
    decreases |parts|
  {
    if |parts| == 0 then ""
    else if |parts| == 1 then parts[0]
    else parts[0] + sep + Join(parts[1..], sep)
  }

  /** Splitting and joining again gives back the original string. */
  lemma {:induction false} JoinSplit(s: string, sep: string)
    requires |sep| > 0
    ensures Join(Split(s, sep), sep) == s
    decreases |s|
  {
    var r := IndexOf(s, sep);
    if r.Some? {
      var i := r.value;
      var rest := s[i + |sep|..];
      var tail := Split(rest, sep);
      JoinSplit(rest, sep);
      assert Split(s, sep) == [s[..i]] + tail;
      assert s[i..i + |sep|] == sep;
      assert s == s[..i] + sep + rest;
    }
  }

  /** No piece of a split contains the separator. */
  lemma {:induction false} SplitPiecesLackSeparator(s: string, sep: string)
    requires |sep| > 0
    ensures forall p :: p in Split(s, sep) ==> !Contains(p, sep)
    decreases |s|
  {
    match IndexOf(s, sep)
    case None =>
    case Some(i) =>
      SplitPiecesLackSeparator(s[i + |sep|..], sep);
      NoEarlierOccurrence(s, sep, i);
  }

  lemma NoEarlierOccurrence(s: string, sep: string, i: nat)
    requires |sep| > 0
    requires IndexOf(s, sep) == Some(i)
    ensures !Contains(s[..i], sep)
  {
    assert OccursAt(s, sep, i);
    if Contains(s[..i], sep) {
      var j :| 0 <= j <= i - |sep| && OccursAt(s[..i], sep, j);
      assert s[..i][j..j + |sep|] == s[j..j + |sep|];
      assert OccursAt(s, sep, j);
    }
  }

  /** A string without the separator splits into itself alone. */
  lemma SplitAbsent(s: string, sep: string)
    requires |sep| > 0 && !Contains(s, sep)
    ensures Split(s, sep) == [s]
  {
  }

  /** Pieces in which the separator's first character never occurs come
      back unchanged from joining and splitting again. */
  lemma {:induction false} SplitJoin(parts: seq<string>, sep: string)
    requires |parts| >= 1 && |sep| > 0
    requires forall k, i :: 0 <= k < |parts| && 0 <= i < |parts[k]| ==> parts[k][i] != sep[0]
    ensures Split(Join(parts, sep), sep) == parts
    decreases |parts|
  {
    var s := Join(parts, sep);
    if |parts| == 1 {
      assert s == parts[0];
      forall j | 0 <= j ensures !OccursAt(s, sep, j) {
        if j < |s| {
          assert s[j] != sep[0];
        }
      }
      assert !Contains(s, sep);
    } else {
      var p := parts[0];
      var rest := Join(parts[1..], sep);
      assert s == p + sep + rest;
      assert OccursAt(s, sep, |p|) by {
        assert s[|p|..|p| + |sep|] == sep;
      }
      forall j | 0 <= j < |p| ensures !OccursAt(s, sep, j) {
        assert s[j] == p[j];
        assert p[j] != sep[0] by { assert parts[0][j] != sep[0]; }
      }
      var r := IndexOf(s, sep);
      assert r == Some(|p|);
      assert s[..|p|] == p;
      assert s[|p| + |sep|..] == rest;
      SplitJoin(parts[1..], sep);
      assert parts == [p] + parts[1..];
    }
  }

  function DigitChar(d: nat): (c: char)
    requires d < 10
    ensures IsDigit(c)
  {
    ('0' as int + d) as char
  }

  /** Decimal digits of n, most significant first, without leading zeros. */
  function NatToString(n: nat): (r: string)
    ensures |r| >= 1
    ensures forall i :: 0 <= i < |r| ==> IsDigit(r[i])
    ensures |r| > 1 ==> r[0] != '0'
    decreases n
  {
    if n < 10 then [DigitChar(n)] else NatToString(n / 10) + [DigitChar(n % 10)]
  }

  /** Python's str(i) and JavaScript's String(i) for an integer. */
  function IntToString(i: int): string {
    if i < 0 then "-" + NatToString(-i) else NatToString(i)
  }

  predicate AllDigits(s: string) {
    forall i :: 0 <= i < |s| ==> IsDigit(s[i])
  }

  /** The value of a string of decimal digits. */
  function DigitValue(c: char): (d: nat)
    requires IsDigit(c)
    ensures d < 10
  {
    c as int - '0' as int
  }

  function DigitsValue(s: string): nat
    requires forall i :: 0 <= i < |s| ==> IsDigit(s[i])
    decreases |s|
  {
    if s == [] then 0
    else 10 * DigitsValue(s[..|s| - 1]) + DigitValue(s[|s| - 1])
  }

  /** Reading back the digits written by NatToString gives the number. */
  lemma {:induction false} NatToStringValue(n: nat)
    ensures DigitsValue(NatToString(n)) == n
    decreases n
  {
    if n >= 10 {
      NatToStringValue(n / 10);
      var r := NatToString(n);
      assert r[..|r| - 1] == NatToString(n / 10);
    }
  }
}
