/**
 The string primitives the quality checker relies on, written out as the
 Python built-ins they stand for: `str.isspace`/`\s`, `str.strip`, ASCII
 `str.lower`, the `in` operator on strings, `str.count`, `str.split` on one
 character and the decimal rendering of an `int` in an f-string.
 */
module Text {

  datatype Option<T> = None | Some(value: T)

  /** One code point of Python's `str.isspace`, which is also the class `\s`
      matches in a `str` pattern and the set `str.strip()` removes. */
  predicate IsSpace(c: char) {
    var n := c as int;
    || n == 0x20
    || 0x09 <= n <= 0x0D
    || 0x1C <= n <= 0x1F
    || n == 0x85
    || n == 0xA0
    || n == 0x1680
    || 0x2000 <= n <= 0x200A
    || n == 0x2028
    || n == 0x2029
    || n == 0x202F
    || n == 0x205F
    || n == 0x3000
  }

  /** `\d`, restricted to ASCII digits. */
  predicate IsDigit(c: char) {
    '0' <= c <= '9'
  }

  /** `\w`, restricted to ASCII letters, digits and the underscore. */
  predicate IsWordChar(c: char) {
    'a' <= c <= 'z' || 'A' <= c <= 'Z' || IsDigit(c) || c == '_'
  }

  predicate IsUpper(c: char) {
    'A' <= c <= 'Z'
  }

  /** `str.lower` on one character, restricted to ASCII. */
  function LowerChar(c: char): (r: char)
    ensures IsUpper(c) ==> r as int == c as int + 32
    ensures !IsUpper(c) ==> r == c
  {
    if IsUpper(c) then (c as int + 32) as char else c
  }

  function Lower(s: string): (r: string)
    ensures |r| == |s|
    ensures forall i :: 0 <= i < |s| ==> r[i] == LowerChar(s[i])
  {
    seq(|s|, i requires 0 <= i < |s| => LowerChar(s[i]))
  }

  /** A string equals its own lower-case form exactly when it has no
      upper-case letter; lowering is therefore idempotent. */
  lemma LowerFixedPoint(s: string)
    ensures Lower(s) == s <==> forall i :: 0 <= i < |s| ==> !IsUpper(s[i])
    ensures Lower(Lower(s)) == Lower(s)
  {
    if Lower(s) == s {
      forall i | 0 <= i < |s|
        ensures !IsUpper(s[i])
      {
        assert Lower(s)[i] == s[i];
      }
    }
  }

  // ---------------------------------------------------------------------
  // Substrings

  /** `pat` occurs in `s` starting at index `i`. */
  predicate MatchesAt(s: string, pat: string, i: int) {
    0 <= i && i + |pat| <= |s| && s[i..i + |pat|] == pat
  }

  /** Python's `pat in s`. */
  predicate Contains(s: string, pat: string) {
    exists i | 0 <= i <= |s| - |pat| :: MatchesAt(s, pat, i)
  }

  /** Python's `c in s` for a single character. */
  lemma ContainsChar(s: string, c: char)
    ensures Contains(s, [c]) <==> c in s
  {
    if c in s {
      var i :| 0 <= i < |s| && s[i] == c;
      assert MatchesAt(s, [c], i);
    }
    if Contains(s, [c]) {
      var i :| 0 <= i <= |s| - 1 && MatchesAt(s, [c], i);
      assert s[i..i + 1][0] == s[i];
    }
  }

  /** `str.count(pat)`: non-overlapping occurrences scanned from the left;
      the empty pattern occurs `|s| + 1` times. */
  function Count(s: string, pat: string): nat {
    if |pat| == 0 then |s| + 1 else CountFrom(s, pat, 0)
  }

  function CountFrom(s: string, pat: string, i: nat): nat
    requires |pat| > 0 && i <= |s|
    decreases |s| - i
  {
    if i + |pat| > |s| then 0
    else if MatchesAt(s, pat, i) then 1 + CountFrom(s, pat, i + |pat|)
    else CountFrom(s, pat, i + 1)
  }

  lemma {:induction false} CountFromPositive(s: string, pat: string, i: nat)
    requires |pat| > 0 && i <= |s|
    ensures CountFrom(s, pat, i) > 0 <==> exists j | i <= j <= |s| - |pat| :: MatchesAt(s, pat, j)
    decreases |s| - i
  {
    if i + |pat| > |s| {
    } else if MatchesAt(s, pat, i) {
    } else {
      CountFromPositive(s, pat, i + 1);
      if exists j | i <= j <= |s| - |pat| :: MatchesAt(s, pat, j) {
        var j :| i <= j <= |s| - |pat| && MatchesAt(s, pat, j);
        assert j != i;
      }
    }
  }

  /** A count is positive exactly when the pattern occurs at all, which is
      how `count(...) > 0` is used as a membership test. */
  lemma CountPositiveIffContains(s: string, pat: string)
    ensures Count(s, pat) > 0 <==> Contains(s, pat)
  {
    if |pat| == 0 {
      assert MatchesAt(s, pat, 0);
    } else {
      CountFromPositive(s, pat, 0);
    }
  }

  lemma {:induction false} CountFromChar(s: string, c: char, i: nat)
    requires i <= |s|
    ensures CountFrom(s, [c], i) == multiset(s[i..])[c]
    decreases |s| - i
  {
    if i < |s| {
      CountFromChar(s, c, i + 1);
      assert s[i..] == [s[i]] + s[i + 1..];
      assert MatchesAt(s, [c], i) <==> s[i] == c;
    }
  }

  /** Counting a one-character pattern counts every occurrence of that
      character: `content.count('\n')` is the number of newlines. */
  lemma CountCharIsMultiplicity(s: string, c: char)
    ensures Count(s, [c]) == multiset(s)[c]
  {
    CountFromChar(s, c, 0);
    assert s[0..] == s;
  }

  // ---------------------------------------------------------------------
  // Splitting

  /** Index of the first occurrence of `c`, as used by `split(c, 1)`. */
  function IndexOf(s: string, c: char): (r: Option<nat>)
    ensures r.None? <==> c !in s
    ensures r.Some? ==> r.value < |s| && s[r.value] == c && c !in s[..r.value]
  {
    if |s| == 0 then None
    else if s[0] == c then Some(0)
    else
      match IndexOf(s[1..], c)
      case None => None
      case Some(k) =>
        assert s[1..][..k] == s[1..k + 1];
        Some(k + 1)
  }

  /** `s.split(sep)` for a one-character separator. */
  function Split(s: string, sep: char): (parts: seq<string>)
    ensures |parts| >= 1
    decreases |s|
  {
    match IndexOf(s, sep)
    case None => [s]
    case Some(k) => [s[..k]] + Split(s[k + 1..], sep)
  }

  /** `sep.join(parts)`, the inverse of `Split`. */
  function Join(parts: seq<string>, sep: char): string
    requires |parts| >= 1
  {
    if |parts| == 1 then parts[0] else parts[0] + [sep] + Join(parts[1..], sep)
  }

  /** Splitting loses nothing, and no piece contains the separator. */
  lemma {:induction false} SplitJoin(s: string, sep: char)
    ensures Join(Split(s, sep), sep) == s
    ensures forall p :: p in Split(s, sep) ==> sep !in p
    decreases |s|
  {
    match IndexOf(s, sep)
    case None =>
    case Some(k) =>
      SplitJoin(s[k + 1..], sep);
      var rest := Split(s[k + 1..], sep);
      assert Split(s, sep) == [s[..k]] + rest;
      assert ([s[..k]] + rest)[1..] == rest;
      assert s == s[..k] + [sep] + s[k + 1..];
  }

  // ---------------------------------------------------------------------
  // Trimming

  /** `str.lstrip()`. */
  function TrimStart(s: string): string {
    if |s| > 0 && IsSpace(s[0]) then TrimStart(s[1..]) else s
  }

  /** `str.rstrip()`. */
  function TrimEnd(s: string): string {
    if |s| > 0 && IsSpace(s[|s| - 1]) then TrimEnd(s[..|s| - 1]) else s
  }

  /** `lstrip()` keeps the longest suffix that does not start with white
      space, and what it drops is all white space. */
  lemma {:induction false} TrimStartSpec(s: string)
    ensures var r := TrimStart(s);
      && |r| <= |s| && r == s[|s| - |r|..]
      && (forall j :: 0 <= j < |s| - |r| ==> IsSpace(s[j]))
      && (|r| == 0 || !IsSpace(r[0]))
  {
    if |s| > 0 && IsSpace(s[0]) {
      TrimStartSpec(s[1..]);
    }
  }

  /** `rstrip()` keeps the longest prefix that does not end with white
      space, and what it drops is all white space. */
  lemma {:induction false} TrimEndSpec(s: string)
    ensures var r := TrimEnd(s);
      && |r| <= |s| && r == s[..|r|]
      && (forall j :: |r| <= j < |s| ==> IsSpace(s[j]))
      && (|r| == 0 || !IsSpace(r[|r| - 1]))
  {
    if |s| > 0 && IsSpace(s[|s| - 1]) {
      TrimEndSpec(s[..|s| - 1]);
    }
  }

  /** `str.strip()`. */
  function Strip(s: string): string {
    TrimEnd(TrimStart(s))
  }

  /** `r` is the window of `s` starting at `a`, and everything of `s` outside
      that window is white space. */
  predicate TrimmedWindow(s: string, r: string, a: int) {
    && 0 <= a <= |s| - |r|
    && r == s[a..a + |r|]
    && (forall j :: 0 <= j < a ==> IsSpace(s[j]))
    && (forall j :: a + |r| <= j < |s| ==> IsSpace(s[j]))
  }

  /** `strip()` removes only white space, and only from the two ends, and
      leaves neither end on white space. */
  lemma StripSpec(s: string)
    ensures exists a :: TrimmedWindow(s, Strip(s), a)
    ensures var r := Strip(s); |r| == 0 || (!IsSpace(r[0]) && !IsSpace(r[|r| - 1]))
  {
    var t := TrimStart(s);
    var r := TrimEnd(t);
    var a := |s| - |t|;
    TrimStartSpec(s);
    TrimEndSpec(t);
    assert r == s[a..a + |r|];
    forall j | a + |r| <= j < |s|
      ensures IsSpace(s[j])
    {
      assert s[j] == t[j - a];
    }
    assert |r| > 0 ==> r[0] == t[0];
    assert TrimmedWindow(s, r, a);
    assert Strip(s) == r;
  }

  /** Stripping twice changes nothing. */
  lemma StripIdempotent(s: string)
    ensures Strip(Strip(s)) == Strip(s)
  {
    StripSpec(s);
    var r := Strip(s);
    assert TrimStart(r) == r;
    assert TrimEnd(r) == r;
  }

  // ---------------------------------------------------------------------
  // Decimal rendering

  function DigitChar(d: nat): (c: char)
    requires d < 10
    ensures IsDigit(c) && c as int - '0' as int == d
  {
    ('0' as int + d) as char
  }

  /** `str(n)` for a non-negative integer: decimal digits, no leading zero. */
  function NatToString(n: nat): (r: string)
    ensures |r| >= 1
    ensures forall i :: 0 <= i < |r| ==> IsDigit(r[i])
    ensures |r| > 1 ==> r[0] != '0'
  {
    if n < 10 then [DigitChar(n)] else NatToString(n / 10) + [DigitChar(n % 10)]
  }

  /** The value a string of decimal digits denotes. */
  function DecimalValue(s: string): nat
    requires forall i :: 0 <= i < |s| ==> IsDigit(s[i])
  {
    if |s| == 0 then 0
    else
      assert IsDigit(s[|s| - 1]);
      10 * DecimalValue(s[..|s| - 1]) + (s[|s| - 1] as int - '0' as int)
  }

  /** The number printed into an issue message reads back as that number. */
  lemma {:induction false} NatToStringRoundTrip(n: nat)
    ensures DecimalValue(NatToString(n)) == n
  {
    if n >= 10 {
      NatToStringRoundTrip(n / 10);
      var r := NatToString(n);
      assert r[..|r| - 1] == NatToString(n / 10);
    }
  }
}
