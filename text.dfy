/**
 * The few Python string operations the report-card code relies on
 * (`strip`, `split`, `in`, `replace`, `upper`, `str(int)` and `int(str)`),
 * written over `seq<char>`.
 */
module Text {
  import opened Wrappers

  // ---------------------------------------------------------------------
  // Whitespace and strip
  // ---------------------------------------------------------------------

  /**
   * Python's `str.isspace()` for one character: the characters `str.strip()`,
   * `float()` and `int()` remove around their argument. Besides the ASCII
   * blanks and the separators U+001C to U+001F, these include the no-break
   * spaces U+00A0 and U+202F and the Unicode space and line separators.
   */
  predicate IsSpace(c: char) {
    var n := c as int;
    9 <= n <= 0x0D || 0x1C <= n <= 0x20 || n == 0x85 || n == 0xA0 || n == 0x1680 || 0x2000 <= n <= 0x200A
    || n == 0x2028 || n == 0x2029 || n == 0x202F || n == 0x205F || n == 0x3000
  }

  /** Python's `s.strip()`: leading and trailing whitespace removed. */
  function Strip(s: string): (r: string)
    ensures |r| <= |s|
    ensures |r| > 0 ==> !IsSpace(r[0]) && !IsSpace(r[|r| - 1])
    decreases |s|
  {
    if |s| > 0 && IsSpace(s[0]) then Strip(s[1..])
    else if |s| > 0 && IsSpace(s[|s| - 1]) then Strip(s[..|s| - 1])
    else s
  }

  /** Every character of `s[lo..hi]` is whitespace. */
  predicate SpaceRun(s: string, lo: int, hi: int)
    requires 0 <= lo <= hi <= |s|
  {
    forall k :: lo <= k < hi ==> IsSpace(s[k])
  }

  /**
   * The strip is the input with a run of whitespace cut from each end: a slice
   * `s[i..j]` with only whitespace before `i` and from `j` on. With the ends of
   * the result being no whitespace, this fixes the result.
   */
  lemma {:induction false} StripSlice(s: string)
    ensures exists i, j :: 0 <= i <= j <= |s| && Strip(s) == s[i..j] && SpaceRun(s, 0, i) && SpaceRun(s, j, |s|)
    decreases |s|
  {
    if |s| > 0 && IsSpace(s[0]) {
      var t := s[1..];
      assert Strip(s) == Strip(t);
      StripSlice(t);
      var i, j :| 0 <= i <= j <= |t| && Strip(t) == t[i..j] && SpaceRun(t, 0, i) && SpaceRun(t, j, |t|);
      ShiftRuns(s, i, j);
    } else if |s| > 0 && IsSpace(s[|s| - 1]) {
      var t := s[..|s| - 1];
      assert Strip(s) == Strip(t);
      StripSlice(t);
      var i, j :| 0 <= i <= j <= |t| && Strip(t) == t[i..j] && SpaceRun(t, 0, i) && SpaceRun(t, j, |t|);
      TrimRuns(s, i, j);
    } else {
      assert Strip(s) == s[0..|s|];
    }
  }

  lemma {:induction false} ShiftRuns(s: string, i: nat, j: nat)
    requires 0 < |s| && IsSpace(s[0]) && i <= j <= |s| - 1
    requires SpaceRun(s[1..], 0, i) && SpaceRun(s[1..], j, |s| - 1)
    ensures s[1..][i..j] == s[i + 1..j + 1] && SpaceRun(s, 0, i + 1) && SpaceRun(s, j + 1, |s|)
  {
    var t := s[1..];
    assert forall k :: 1 <= k < |s| ==> s[k] == t[k - 1];
  }

  lemma {:induction false} TrimRuns(s: string, i: nat, j: nat)
    requires 0 < |s| && IsSpace(s[|s| - 1]) && i <= j <= |s| - 1
    requires SpaceRun(s[..|s| - 1], 0, i) && SpaceRun(s[..|s| - 1], j, |s| - 1)
    ensures s[..|s| - 1][i..j] == s[i..j] && SpaceRun(s, 0, i) && SpaceRun(s, j, |s|)
  {
    var t := s[..|s| - 1];
    assert forall k :: 0 <= k < |t| ==> s[k] == t[k];
  }

  /** A string that neither starts nor ends with whitespace is its own strip. */
  lemma {:induction false} StripIdentity(s: string)
    requires |s| > 0 ==> !IsSpace(s[0]) && !IsSpace(s[|s| - 1])
    ensures Strip(s) == s
  {
  }

  /** Text that starts with a non-space character does not strip to nothing. */
  lemma {:induction false} StripNonBlank(s: string)
    requires |s| > 0 && !IsSpace(s[0])
    ensures Strip(s) != ""
    decreases |s|
  {
    if IsSpace(s[|s| - 1]) {
      StripNonBlank(s[..|s| - 1]);
    }
  }

  // ---------------------------------------------------------------------
  // Substrings, split and replace
  // ---------------------------------------------------------------------

  /** Python's `sub in s`. */
  predicate Contains(s: string, sub: string)
    decreases |s|
  {
    |sub| <= |s| && (s[..|sub|] == sub || Contains(s[1..], sub))
  }

  /** The first index at or after `i` holding `c` (`|s|` if none). */
  function FindFrom(s: string, c: char, i: nat): (k: nat)
    requires i <= |s|
    ensures i <= k <= |s|
    ensures k < |s| ==> s[k] == c
    ensures forall j :: i <= j < k ==> s[j] != c
    decreases |s| - i
  {
    if i == |s| || s[i] == c then i else FindFrom(s, c, i + 1)
  }

  /** The position of the first `c` in `s`, or `|s|` when `c` does not occur (`s.find(c)`). */
  function Find(s: string, c: char): (k: nat)
    ensures k <= |s|
    ensures k < |s| ==> s[k] == c
    ensures forall j :: 0 <= j < k ==> s[j] != c
  {
    FindFrom(s, c, 0)
  }

  /** `Find` is `|s|` exactly when `c in s` is false. */
  lemma {:induction false} FindAbsent(s: string, c: char)
    ensures Find(s, c) == |s| <==> c !in s
  {
  }

  /** Python's `c in s` for a single character. */
  predicate Occurs(c: char, s: string) {
    Find(s, c) < |s|
  }

  /** Python's `s.split(c)` for a one-character separator: never empty, two pieces or more once `c` occurs. */
  function Split(s: string, c: char): (r: seq<string>)
    ensures |r| >= 1
    ensures Occurs(c, s) ==> |r| >= 2
    decreases |s|
  {
    var k := Find(s, c);
    if k < |s| then [s[..k]] + Split(s[k + 1..], c) else [s]
  }

  /** Python's `c.join(ps)`. */
  function Join(ps: seq<string>, c: char): string
    decreases |ps|
  {
    if |ps| == 0 then "" else if |ps| == 1 then ps[0] else ps[0] + [c] + Join(ps[1..], c)
  }

  /** The pieces of a split hold no separator, and joining them with it gives the text back. */
  lemma {:induction false} SplitJoin(s: string, c: char)
    ensures forall p :: p in Split(s, c) ==> c !in p
    ensures Join(Split(s, c), c) == s
    decreases |s|
  {
    var k := Find(s, c);
    if k < |s| {
      var rest := s[k + 1..];
      SplitJoin(rest, c);
      assert Split(s, c) == [s[..k]] + Split(rest, c);
      assert c !in s[..k];
      assert Join(Split(s, c), c) == s[..k] + [c] + Join(Split(rest, c), c);
      assert s == s[..k] + [c] + rest;
    } else {
      FindAbsent(s, c);
    }
  }

  /** Python's `s.replace(a, b)` for one-character arguments. */
  function ReplaceChar(s: string, a: char, b: char): (r: string)
    ensures |r| == |s|
    ensures forall i :: 0 <= i < |s| ==> r[i] == if s[i] == a then b else s[i]
  {
    if s == [] then [] else [if s[0] == a then b else s[0]] + ReplaceChar(s[1..], a, b)
  }

  /** Python's `s.replace(a, "")`. */
  function RemoveChar(s: string, a: char): (r: string)
    ensures a !in r
    ensures |r| <= |s|
  {
    if s == [] then [] else (if s[0] == a then [] else [s[0]]) + RemoveChar(s[1..], a)
  }

  /** Python's `s.replace(pat, rep)`: non-overlapping occurrences, left to right. */
  function ReplaceAll(s: string, pat: string, rep: string): string
    requires |pat| > 0
    decreases |s|
  {
    if |s| < |pat| then s
    else if s[..|pat|] == pat then rep + ReplaceAll(s[|pat|..], pat, rep)
    else [s[0]] + ReplaceAll(s[1..], pat, rep)
  }

  /** A string without any occurrence of `pat` is left as it is. */
  lemma {:induction false} ReplaceAllAbsent(s: string, pat: string, rep: string)
    requires |pat| > 0 && !Contains(s, pat)
    ensures ReplaceAll(s, pat, rep) == s
    decreases |s|
  {
    if |s| >= |pat| {
      ReplaceAllAbsent(s[1..], pat, rep);
      assert [s[0]] + s[1..] == s;
    }
  }

  /** `[e for e in required if e not in data]` for a dictionary `data`. */
  function Missing(required: seq<string>, data: map<string, string>): (r: seq<string>)
    ensures forall x :: x in r <==> x in required && x !in data
    ensures |r| <= |required|
  {
    if required == [] then []
    else
      var rest := Missing(required[1..], data);
      assert forall x :: x in required <==> x == required[0] || x in required[1..];
      if required[0] in data then rest else [required[0]] + rest
  }

  /** Python's `str(xs)` for a list of strings without quotes or backslashes: `['a', 'b']`. */
  function ListRepr(xs: seq<string>): string {
    "[" + Quoted(xs) + "]"
  }

  function Quoted(xs: seq<string>): string
    decreases |xs|
  {
    if xs == [] then ""
    else if |xs| == 1 then "'" + xs[0] + "'"
    else "'" + xs[0] + "', " + Quoted(xs[1..])
  }

  /** `s.replace(a, "")` of a text without `a` is that text. */
  lemma {:induction false} RemoveCharAbsent(s: string, a: char)
    requires a !in s
    ensures RemoveChar(s, a) == s
    decreases |s|
  {
    if s != [] {
      RemoveCharAbsent(s[1..], a);
      assert [s[0]] + s[1..] == s;
    }
  }

  /** `replace(a, "")` works piece by piece: every other character is kept, in order. */
  lemma {:induction false} RemoveCharAppend(s: string, t: string, a: char)
    ensures RemoveChar(s + t, a) == RemoveChar(s, a) + RemoveChar(t, a)
    decreases |s|
  {
    if s == [] {
      assert s + t == t;
    } else {
      var u, h := s + t, if s[0] == a then [] else [s[0]];
      assert u[0] == s[0] && u[1..] == s[1..] + t;
      assert RemoveChar(u, a) == h + RemoveChar(s[1..] + t, a);
      assert RemoveChar(s, a) == h + RemoveChar(s[1..], a);
      RemoveCharAppend(s[1..], t, a);
    }
  }

  /** Python's `upper()` on one character, for the ASCII letters. */
  function UpperChar(c: char): char {
    if 'a' <= c <= 'z' then (c as int - 32) as char else c
  }

  /** Python's `s.upper()` on the ASCII letters. */
  function Upper(s: string): (r: string)
    ensures |r| == |s|
  {
    if s == [] then []
    else [UpperChar(s[0])] + Upper(s[1..])
  }

  /** `upper` maps each character on its own, in place. */
  lemma {:induction false} UpperEach(s: string)
    ensures forall i :: 0 <= i < |s| ==> Upper(s)[i] == UpperChar(s[i])
    decreases |s|
  {
    if s != [] {
      UpperEach(s[1..]);
      assert forall i :: 1 <= i < |s| ==> Upper(s)[i] == Upper(s[1..])[i - 1];
    }
  }

  // ---------------------------------------------------------------------
  // Decimal digits: str(n) and int(s)
  // ---------------------------------------------------------------------

  predicate IsDigit(c: char) {
    '0' <= c <= '9'
  }

  /** Every character is a decimal digit (checked from the last one back, as `DigitsValue` reads them). */
  predicate AllDigits(s: string)
    decreases |s|
  {
    |s| == 0 || (IsDigit(s[|s| - 1]) && AllDigits(s[..|s| - 1]))
  }

  /** `AllDigits` holds exactly when each character is a digit. */
  lemma {:induction false} AllDigitsEach(s: string)
    ensures AllDigits(s) <==> forall i :: 0 <= i < |s| ==> IsDigit(s[i])
    decreases |s|
  {
    if |s| > 0 {
      var p := s[..|s| - 1];
      AllDigitsEach(p);
      assert forall i :: 0 <= i < |p| ==> p[i] == s[i];
    }
  }

  function DigitChar(d: nat): (c: char)
    requires d < 10
    ensures IsDigit(c)
  {
    ('0' as int + d) as char
  }

  function DigitValue(c: char): (d: nat)
    requires IsDigit(c)
    ensures d < 10 && DigitChar(d) == c
  {
    c as int - '0' as int
  }

  /** The number a string of decimal digits denotes (0 for the empty string). */
  function DigitsValue(s: string): nat
    requires AllDigits(s)
  {
    if s == [] then 0 else 10 * DigitsValue(s[..|s| - 1]) + DigitValue(s[|s| - 1])
  }

  /** Python's `str(n)` for a non-negative integer: its decimal digits, no leading zero. */
  function NatToString(n: nat): (s: string)
    ensures 1 <= |s| && AllDigits(s)
    ensures |s| > 1 ==> s[0] != '0'
  {
    if n < 10 then [DigitChar(n)] else NatToString(n / 10) + [DigitChar(n % 10)]
  }

  /** Python's `str(i)` for any integer. */
  function IntToString(i: int): (s: string)
    ensures |s| >= 1
  {
    if i < 0 then "-" + NatToString(-i) else NatToString(i)
  }

  /** Reading back the digits recovers the number. */
  lemma {:induction false} NatToStringRoundTrip(n: nat)
    ensures DigitsValue(NatToString(n)) == n
  {
    if n >= 10 {
      NatToStringRoundTrip(n / 10);
      var s := NatToString(n);
      assert s[..|s| - 1] == NatToString(n / 10);
    }
  }

  /** Distinct numbers print differently. */
  lemma {:induction false} NatToStringInjective(m: nat, n: nat)
    requires NatToString(m) == NatToString(n)
    ensures m == n
  {
    NatToStringRoundTrip(m);
    NatToStringRoundTrip(n);
  }

  /** A numbered name such as `f"ECTS{i}"`: the prefix followed by the digits of `i`. */
  function Numbered(prefix: string, i: nat): string {
    prefix + NatToString(i)
  }

  /** Two numbered names with the same prefix are equal only for the same number. */
  lemma {:induction false} NumberedInjective(prefix: string, i: nat, j: nat)
    requires Numbered(prefix, i) == Numbered(prefix, j)
    ensures i == j
  {
    assert Numbered(prefix, i)[|prefix|..] == NatToString(i);
    assert Numbered(prefix, j)[|prefix|..] == NatToString(j);
    NatToStringInjective(i, j);
  }

  lemma {:induction false} NumberedInjectiveAll(prefix: string)
    ensures forall i: nat, j: nat :: Numbered(prefix, i) == Numbered(prefix, j) ==> i == j
  {
    forall i: nat, j: nat | Numbered(prefix, i) == Numbered(prefix, j) ensures i == j {
      NumberedInjective(prefix, i, j);
    }
  }

  /** Python's `int(s)` on a string: optional whitespace, optional sign, decimal digits. */
  function ParseInt(s: string): Option<int> {
    var t := Strip(s);
    if |t| > 1 && t[0] == '-' && AllDigits(t[1..]) then Some(-(DigitsValue(t[1..]) as int))
    else if |t| > 1 && t[0] == '+' && AllDigits(t[1..]) then Some(DigitsValue(t[1..]))
    else if |t| > 0 && AllDigits(t) then Some(DigitsValue(t))
    else None
  }

  /** Digits, with or without a '-' in front, read back as their value. */
  lemma {:induction false} ParseIntDigits(t: string, n: nat)
    requires |t| > 0 && AllDigits(t) && DigitsValue(t) == n
    ensures ParseInt(t) == Some(n)
    ensures ParseInt("-" + t) == Some(-(n as int))
  {
    AllDigitsEach(t);
    assert IsDigit(t[0]) && IsDigit(t[|t| - 1]);
    StripIdentity(t);
    var s := "-" + t;
    assert s[1..] == t;
    StripIdentity(s);
  }

  /** `int(str(i)) == i`. */
  lemma {:induction false} ParseIntRoundTrip(i: int)
    ensures ParseInt(IntToString(i)) == Some(i)
  {
    if i < 0 {
      NatToStringRoundTrip(-i);
      ParseIntDigits(NatToString(-i), -i);
    } else {
      NatToStringRoundTrip(i);
      ParseIntDigits(NatToString(i), i);
    }
  }
}
