/**
 * The few System.String and System.Int32 operations the core relies on, over
 * strings as sequences of UTF-16 code units (`char`). Comparisons are ordinal.
 */
module Strings {
  import opened Wrappers
  import opened Numeric

  /** Environment.NewLine on the Windows targets of the library. */
  const NewLine: string := "\r\n"

  /** Char.IsWhiteSpace: the Unicode space separators, U+0009..U+000D, U+0085, U+2028 and U+2029. */
  predicate IsWhiteSpace(c: char) {
    var u := c as int;
    u == 0x20 || (0x09 <= u <= 0x0D) || u == 0x85 || u == 0xA0 || u == 0x1680
    || (0x2000 <= u <= 0x200A) || u == 0x2028 || u == 0x2029 || u == 0x202F
    || u == 0x205F || u == 0x3000
  }

  /** String.TrimStart(): drops every leading white-space character. */
  function TrimStart(s: string): (r: string)
    ensures |r| <= |s| && r == s[|s| - |r|..]
    ensures forall i :: 0 <= i < |s| - |r| ==> IsWhiteSpace(s[i])
    ensures r == [] || !IsWhiteSpace(r[0])
    decreases |s|
  {
    if |s| > 0 && IsWhiteSpace(s[0]) then
      var r := TrimStart(s[1..]);
      assert s[1..][|s| - 1 - |r|..] == s[|s| - |r|..];
      assert forall i :: 1 <= i < |s| - |r| ==> s[i] == s[1..][i - 1];
      r
    else s
  }

  /** String.TrimEnd(): drops every trailing white-space character. */
  function TrimEnd(s: string): (r: string)
    ensures |r| <= |s| && r == s[..|r|]
    ensures forall i :: |r| <= i < |s| ==> IsWhiteSpace(s[i])
    ensures r == [] || !IsWhiteSpace(r[|r| - 1])
    decreases |s|
  {
    if |s| > 0 && IsWhiteSpace(s[|s| - 1]) then
      var r := TrimEnd(s[..|s| - 1]);
      assert s[..|s| - 1][..|r|] == s[..|r|];
      assert forall i :: |r| <= i < |s| - 1 ==> s[i] == s[..|s| - 1][i];
      r
    else s
  }

  /** String.Trim(). */
  function Trim(s: string): (r: string)
    ensures |r| <= |s|
    ensures r == [] || (!IsWhiteSpace(r[0]) && !IsWhiteSpace(r[|r| - 1]))
  {
    TrimEnd(TrimStart(s))
  }

  /** No white space at either end: Trim leaves the string alone. */
  predicate IsTrimmed(s: string) {
    s == [] || (!IsWhiteSpace(s[0]) && !IsWhiteSpace(s[|s| - 1]))
  }

  /** String.IsNullOrEmpty, with null as None. */
  predicate IsNullOrEmpty(s: Option<string>) {
    s.None? || s.value == []
  }

  /** String.IsNullOrWhiteSpace, with null as None. */
  predicate IsNullOrWhiteSpace(s: Option<string>) {
    s.None? || forall i :: 0 <= i < |s.value| ==> IsWhiteSpace(s.value[i])
  }

  /** Char.ToLowerInvariant restricted to the ASCII letters. */
  function LowerChar(c: char): char {
    if 'A' <= c <= 'Z' then (c as int + 32) as char else c
  }

  function ToLower(s: string): (r: string)
    ensures |r| == |s|
    ensures forall i :: 0 <= i < |s| ==> r[i] == LowerChar(s[i])
  {
    if s == [] then [] else [LowerChar(s[0])] + ToLower(s[1..])
  }

  /** `sub` occurs in `s` at index `j`. */
  predicate MatchAt(s: string, sub: string, j: int) {
    0 <= j && j + |sub| <= |s| && s[j..j + |sub|] == sub
  }

  lemma MatchAtChar(s: string, sub: string, j: int, k: int)
    requires MatchAt(s, sub, j) && 0 <= k < |sub|
    ensures s[j + k] == sub[k]
  {
    assert s[j..j + |sub|][k] == sub[k];
  }

  /** String.Contains (ordinal). */
  predicate Contains(s: string, sub: string) {
    exists j :: 0 <= j <= |s| - |sub| && MatchAt(s, sub, j)
  }

  /** String.Split(c): every piece between occurrences of `c`, empty pieces included. */
  function Split(s: string, c: char): (parts: seq<string>)
    ensures |parts| >= 1
    ensures forall k :: 0 <= k < |parts| ==> c !in parts[k]
    decreases |s|
  {
    if s == [] then [""]
    else
      var rest := Split(s[1..], c);
      if s[0] == c then [""] + rest else [[s[0]] + rest[0]] + rest[1..]
  }

  /** String.Join(c, parts), the inverse of Split. */
  function Join(parts: seq<string>, c: char): string
    requires |parts| >= 1
    decreases |parts|
  {
    if |parts| == 1 then parts[0] else parts[0] + [c] + Join(parts[1..], c)
  }

  /** Joining the pieces gives back the split string. */
  lemma {:induction false} JoinSplit(s: string, c: char)
    ensures Join(Split(s, c), c) == s
    decreases |s|
  {
    if s != [] {
      JoinSplit(s[1..], c);
      var rest := Split(s[1..], c);
      if s[0] != c {
        if |rest| > 1 {
          assert Split(s, c)[1..] == rest[1..];
        }
      }
    }
  }

  /** Splitting a separator-free string gives that string alone. */
  lemma {:induction false} SplitWithoutSeparator(s: string, c: char)
    requires c !in s
    ensures Split(s, c) == [s]
    decreases |s|
  {
    if s != [] {
      assert c !in s[1..];
      SplitWithoutSeparator(s[1..], c);
      assert [s[0]] + s[1..] == s;
    }
  }

  /** Splitting `a + [c] + b` where only the middle character is `c`. */
  lemma {:induction false} SplitAtOnlySeparator(a: string, b: string, c: char)
    requires c !in a && c !in b
    ensures Split(a + [c] + b, c) == [a, b]
    decreases |a|
  {
    if a == [] {
      assert a + [c] + b == [c] + b;
      assert ([c] + b)[1..] == b;
      SplitWithoutSeparator(b, c);
    } else {
      assert (a + [c] + b)[1..] == a[1..] + [c] + b;
      SplitAtOnlySeparator(a[1..], b, c);
      assert [a[0]] + a[1..] == a;
    }
  }

  /** String.Split(new[] { sep }, StringSplitOptions.None): leftmost, non-overlapping matches. */
  function SplitOn(s: string, sep: string): (parts: seq<string>)
    requires |sep| > 0
    ensures |parts| >= 1
    decreases |s|
  {
    if s == [] then [""]
    else if MatchAt(s, sep, 0) then [""] + SplitOn(s[|sep|..], sep)
    else
      var rest := SplitOn(s[1..], sep);
      [[s[0]] + rest[0]] + rest[1..]
  }

  /** StringSplitOptions.RemoveEmptyEntries. */
  function RemoveEmpty(parts: seq<string>): (r: seq<string>)
    ensures forall k :: 0 <= k < |r| ==> r[k] != []
    ensures |r| <= |parts|
  {
    if parts == [] then []
    else if parts[0] == [] then RemoveEmpty(parts[1..])
    else [parts[0]] + RemoveEmpty(parts[1..])
  }

  /** A string in which `sep` never occurs is one piece. */
  lemma {:induction false} SplitOnWithoutMatch(s: string, sep: string)
    requires |sep| > 0
    requires forall j :: 0 <= j < |s| ==> !MatchAt(s, sep, j)
    ensures SplitOn(s, sep) == [s]
    decreases |s|
  {
    if s != [] {
      assert !MatchAt(s, sep, 0);
      forall j | 0 <= j < |s| - 1 ensures !MatchAt(s[1..], sep, j) {
        assert !MatchAt(s, sep, j + 1);
      }
      SplitOnWithoutMatch(s[1..], sep);
      assert [s[0]] + s[1..] == s;
    }
  }

  /** A string with exactly one occurrence of `sep`, not overlapping anything before it, splits into the two sides. */
  lemma {:induction false} SplitOnOnce(a: string, sep: string, b: string)
    requires |sep| > 0
    requires forall j :: 0 <= j < |a| ==> !MatchAt(a + sep + b, sep, j)
    requires forall j :: 0 <= j < |b| ==> !MatchAt(b, sep, j)
    ensures SplitOn(a + sep + b, sep) == [a, b]
    decreases |a|
  {
    var s := a + sep + b;
    if a == [] {
      assert s == sep + b && MatchAt(s, sep, 0);
      assert s[|sep|..] == b;
      SplitOnWithoutMatch(b, sep);
    } else {
      assert !MatchAt(s, sep, 0);
      assert s[1..] == a[1..] + sep + b;
      forall j | 0 <= j < |a[1..]|
        ensures !MatchAt(a[1..] + sep + b, sep, j)
      {
        assert !MatchAt(s, sep, j + 1);
        assert s[j + 1..j + 1 + |sep|] == (a[1..] + sep + b)[j..j + |sep|];
      }
      SplitOnOnce(a[1..], sep, b);
      assert [a[0]] + a[1..] == a;
    }
  }

  /** Trim leaves a string with no white space at either end as it is. */
  lemma TrimOfTrimmed(s: string)
    requires IsTrimmed(s)
    ensures Trim(s) == s
  {
  }

  predicate IsDigit(c: char) { '0' <= c <= '9' }

  predicate AllDigits(s: string) { forall i :: 0 <= i < |s| ==> IsDigit(s[i]) }

  function DigitChar(d: int): (c: char)
    requires 0 <= d < 10
    ensures IsDigit(c) && c as int - '0' as int == d
  {
    ('0' as int + d) as char
  }

  /** The decimal digits of a natural number, most significant first, without leading zeros. */
  function NatToString(n: nat): (r: string)
    ensures |r| >= 1 && AllDigits(r)
    decreases n
  {
    if n < 10 then [DigitChar(n)] else NatToString(n / 10) + [DigitChar(n % 10)]
  }

  /** Int32.ToString() in the invariant culture. */
  function IntToString(n: int): (r: string)
    ensures |r| >= 1
    ensures n >= 0 ==> AllDigits(r)
    ensures n < 0 ==> r[0] == '-' && AllDigits(r[1..])
  {
    if n < 0 then "-" + NatToString(-n) else NatToString(n)
  }

  /** The value of a string of decimal digits. */
  function DigitsValue(s: string): nat
    requires AllDigits(s)
    decreases |s|
  {
    if s == [] then 0 else DigitsValue(s[..|s| - 1]) * 10 + (s[|s| - 1] as int - '0' as int)
  }

  lemma {:induction false} DigitsValueOfNatToString(n: nat)
    ensures DigitsValue(NatToString(n)) == n
    decreases n
  {
    if n >= 10 {
      DigitsValueOfNatToString(n / 10);
      var s := NatToString(n);
      assert s[..|s| - 1] == NatToString(n / 10);
    }
  }

  datatype NumberError = FormatError | OverflowError

  /**
   * Convert.ToInt32(string) on a string that Trim has already cleared of
   * white space: an optional sign, then one or more decimal digits, within
   * the Int32 range.
   */
  function ParseInt32(s: string): (r: Result<int, NumberError>)
    ensures r.Success? ==> IsInt32(r.value)
    ensures s == [] ==> r == Failure(FormatError)
  {
    var negative := |s| > 0 && s[0] == '-';
    var digits := if |s| > 0 && (s[0] == '-' || s[0] == '+') then s[1..] else s;
    if digits == [] || !AllDigits(digits) then Failure(FormatError)
    else
      var magnitude: int := DigitsValue(digits);
      var v := if negative then -magnitude else magnitude;
      if IsInt32(v) then Success(v) else Failure(OverflowError)
  }

  /** Unsigned digits parse to their value, or overflow. */
  lemma ParseDigits(s: string)
    requires s != [] && AllDigits(s)
    ensures ParseInt32(s) == if IsInt32(DigitsValue(s)) then Success(DigitsValue(s)) else Failure(OverflowError)
  {
    assert IsDigit(s[0]);
  }

  /** A minus sign and digits parse to the negated value, or overflow. */
  lemma ParseNegative(s: string)
    requires s != [] && AllDigits(s)
    ensures var v := -(DigitsValue(s) as int); ParseInt32("-" + s) == if IsInt32(v) then Success(v) else Failure(OverflowError)
  {
    assert ("-" + s)[0] == '-' && ("-" + s)[1..] == s;
  }

  lemma RoundTripNegative(n: int)
    requires IsInt32(n) && n < 0
    ensures ParseInt32(IntToString(n)) == Success(n)
  {
    var digits := NatToString(-n);
    DigitsValueOfNatToString(-n);
    ParseNegative(digits);
    assert IntToString(n) == "-" + digits;
  }

  lemma RoundTripNonNegative(n: int)
    requires IsInt32(n) && n >= 0
    ensures ParseInt32(IntToString(n)) == Success(n)
  {
    var digits := NatToString(n);
    DigitsValueOfNatToString(n);
    ParseDigits(digits);
    assert IntToString(n) == digits;
  }

  /** Formatting then parsing an Int32 gives the number back. */
  lemma IntToStringRoundTrip(n: int)
    requires IsInt32(n)
    ensures ParseInt32(IntToString(n)) == Success(n)
  {
    if n < 0 {
      RoundTripNegative(n);
    } else {
      RoundTripNonNegative(n);
    }
  }
}
