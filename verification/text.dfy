/** Small string utilities used by the path and contract logic: Python's
    `str.split`, `str.endswith`, ASCII `str.lower` and integer formatting. */
module Text {

  predicate StartsWith(s: string, prefix: string) {
    |prefix| <= |s| && s[..|prefix|] == prefix
  }

  predicate EndsWith(s: string, suffix: string) {
    |suffix| <= |s| && s[|s| - |suffix|..] == suffix
  }

  predicate IsDigit(c: char) {
    '0' <= c <= '9'
  }

  predicate AllDigits(s: string) {
    forall i :: 0 <= i < |s| ==> IsDigit(s[i])
  }

  predicate IsUpper(c: char) {
    'A' <= c <= 'Z'
  }

  function LowerChar(c: char): char {
    if IsUpper(c) then (c as int + 32) as char else c
  }

  /** `str.lower` restricted to ASCII letters. */
  function Lower(s: string): (r: string)
    ensures |r| == |s|
    ensures forall i :: 0 <= i < |r| ==> !IsUpper(r[i])
    ensures forall i :: 0 <= i < |s| && !IsUpper(s[i]) ==> r[i] == s[i]
    ensures forall i :: 0 <= i < |s| && IsUpper(s[i]) ==> r[i] as int == s[i] as int + 32
  {
    seq(|s|, i requires 0 <= i < |s| => LowerChar(s[i]))
  }

  /** Lower-casing twice is lower-casing once. */
  lemma LowerIdempotent(s: string)
    ensures Lower(Lower(s)) == Lower(s)
  {
  }

  /** The position of the first `c` in `s`. */
  function IndexOf(s: string, c: char): (i: nat)
    requires c in s
    ensures i < |s| && s[i] == c && c !in s[..i]
  {
    if s[0] == c then 0 else 1 + IndexOf(s[1..], c)
  }

  /** Joins non-empty list of parts with `sep` between consecutive parts. */
  function Join(parts: seq<string>, sep: char): string
    requires |parts| >= 1
    decreases |parts|
  {
    if |parts| == 1 then parts[0] else parts[0] + [sep] + Join(parts[1..], sep)
  }

  /** Python's `s.split(sep)` for a one-character separator: the maximal
      separator-free pieces, always at least one (`"".split("-") == [""]`). */
  function Split(s: string, sep: char): (parts: seq<string>)
    ensures |parts| >= 1
    ensures forall k :: 0 <= k < |parts| ==> sep !in parts[k]
    ensures Join(parts, sep) == s
    ensures |parts| >= 2 <==> sep in s
    decreases |s|
  {
    if sep !in s then [s]
    else
      var i := IndexOf(s, sep);
      var rest := Split(s[i + 1..], sep);
      assert s == s[..i] + [sep] + s[i + 1..];
      [s[..i]] + rest
  }

  /** Splitting a join of separator-free parts gives the parts back. */
  lemma {:induction false} SplitJoin(parts: seq<string>, sep: char)
    requires |parts| >= 1
    requires forall k :: 0 <= k < |parts| ==> sep !in parts[k]
    ensures Split(Join(parts, sep), sep) == parts
    decreases |parts|
  {
    if |parts| == 1 {
    } else {
      var s := Join(parts, sep);
      var tail := Join(parts[1..], sep);
      assert s == parts[0] + [sep] + tail;
      assert sep in s by { assert s[|parts[0]|] == sep; }
      var i := IndexOf(s, sep);
      assert s[..|parts[0]|] == parts[0];
      assert i == |parts[0]|;
      assert s[..i] == parts[0];
      assert s[i + 1..] == tail;
      SplitJoin(parts[1..], sep);
      assert Split(s, sep) == [parts[0]] + Split(tail, sep);
    }
  }

  /** `s.split(sep)[-1]`: the text after the last separator. */
  function LastSegment(s: string, sep: char): (r: string)
    ensures sep !in r
    ensures EndsWith(s, r)
    ensures sep in s ==> |r| < |s| && s[|s| - |r| - 1] == sep
    ensures sep !in s ==> r == s
  {
    var parts := Split(s, sep);
    LastPartIsSuffix(parts, sep);
    parts[|parts| - 1]
  }

  lemma {:induction false} LastPartIsSuffix(parts: seq<string>, sep: char)
    requires |parts| >= 1
    ensures EndsWith(Join(parts, sep), parts[|parts| - 1])
    ensures |parts| >= 2 ==>
      |parts[|parts| - 1]| < |Join(parts, sep)|
      && Join(parts, sep)[|Join(parts, sep)| - |parts[|parts| - 1]| - 1] == sep
    decreases |parts|
  {
    if |parts| >= 2 {
      var tail := Join(parts[1..], sep);
      var last := parts[|parts| - 1];
      LastPartIsSuffix(parts[1..], sep);
      assert parts[1..][|parts[1..]| - 1] == last;
      var s := Join(parts, sep);
      assert s == parts[0] + [sep] + tail;
      assert s[|s| - |last|..] == tail[|tail| - |last|..];
      if |parts| == 2 {
        assert tail == last;
        assert s[|s| - |last| - 1] == sep;
      } else {
        assert s[|s| - |last| - 1] == tail[|tail| - |last| - 1];
      }
    }
  }

  function DigitValue(c: char): nat
    requires IsDigit(c)
  {
    (c as int - '0' as int) as nat
  }

  function DigitChar(d: nat): (c: char)
    requires d < 10
    ensures IsDigit(c) && DigitValue(c) == d
  {
    ('0' as int + d) as char
  }

  /** The number a string of decimal digits spells. */
  function DigitsValue(s: string): nat
    requires AllDigits(s)
    decreases |s|
  {
    if |s| == 0 then 0 else DigitsValue(s[..|s| - 1]) * 10 + DigitValue(s[|s| - 1])
  }

  /** Python's `str(n)` / `f"{n}"` for a natural number: decimal digits
      without leading zeros. */
  function NatToString(n: nat): (r: string)
    ensures |r| >= 1 && AllDigits(r)
    ensures |r| > 1 ==> r[0] != '0'
    ensures DigitsValue(r) == n
    decreases n
  {
    if n < 10 then [DigitChar(n)]
    else
      var r := NatToString(n / 10) + [DigitChar(n % 10)];
      assert r[..|r| - 1] == NatToString(n / 10);
      r
  }

  /** Formatting the value of a digit string without leading zero gives the
      string back. */
  lemma {:induction false} NatToStringOfDigits(s: string)
    requires |s| >= 1 && AllDigits(s) && (|s| > 1 ==> s[0] != '0')
    ensures NatToString(DigitsValue(s)) == s
    decreases |s|
  {
    if |s| == 1 {
    } else {
      var init := s[..|s| - 1];
      assert init[0] == s[0];
      NatToStringOfDigits(init);
      LeadingDigitBound(init);
      var n := DigitsValue(s);
      assert n / 10 == DigitsValue(init);
      assert n % 10 == DigitValue(s[|s| - 1]);
    }
  }

  /** A digit string of length >= 2 without leading zero spells at least 10. */
  lemma {:induction false} LeadingDigitBound(s: string)
    requires |s| >= 1 && AllDigits(s) && s[0] != '0'
    ensures DigitsValue(s) >= 1
    decreases |s|
  {
    if |s| > 1 {
      assert s[..|s| - 1][0] == s[0];
      LeadingDigitBound(s[..|s| - 1]);
    }
  }

  /** `f"{n:02d}"` for 0 <= n < 100. */
  function Pad2(n: nat): (r: string)
    requires n < 100
    ensures |r| == 2 && AllDigits(r) && DigitsValue(r) == n
  {
    var r := [DigitChar(n / 10), DigitChar(n % 10)];
    assert r[..1] == [DigitChar(n / 10)];
    assert r[..1][..0] == [];
    assert DigitsValue(r[..1]) == n / 10;
    assert DigitsValue(r) == (n / 10) * 10 + n % 10;
    r
  }

  /** The value of a two-digit string, digit by digit. */
  lemma TwoDigitsValue(t: string)
    requires |t| == 2 && AllDigits(t)
    ensures DigitsValue(t) == DigitValue(t[0]) * 10 + DigitValue(t[1])
  {
    var t0 := t[..1];
    assert t[..|t| - 1] == t0;
    assert t0[..|t0| - 1] == [];
    assert DigitsValue(t0) == DigitValue(t[0]);
  }

  /** Four-digit zero-padded form of 0 <= n < 10000. */
  function Pad4(n: nat): (r: string)
    requires n < 10000
    ensures |r| == 4 && AllDigits(r) && DigitsValue(r) == n
    ensures n >= 1000 ==> r[0] != '0'
  {
    var hi := Pad2(n / 100);
    var lo := Pad2(n % 100);
    var r := hi + lo;
    DigitsAppend(hi, lo);
    r
  }

  /** The value of a concatenation of a string and a two-digit string. */
  lemma DigitsAppend(a: string, b: string)
    requires AllDigits(a) && AllDigits(b) && |b| == 2
    ensures AllDigits(a + b)
    ensures DigitsValue(a + b) == DigitsValue(a) * 100 + DigitsValue(b)
  {
    var ab := a + b;
    var a0 := a + [b[0]];
    assert ab[..|ab| - 1] == a0;
    assert a0[..|a0| - 1] == a;
    assert DigitsValue(a0) == DigitsValue(a) * 10 + DigitValue(b[0]);
    assert DigitsValue(ab) == DigitsValue(a0) * 10 + DigitValue(b[1]);
    var b0 := b[..1];
    assert b[..|b| - 1] == b0;
    assert b0[..|b0| - 1] == [];
    assert DigitsValue(b0) == DigitValue(b[0]);
    assert DigitsValue(b) == DigitValue(b[0]) * 10 + DigitValue(b[1]);
  }

  /** A separator-free tail after the last separator is the last segment. */
  lemma LastSegmentOfJoin(a: string, b: string, sep: char)
    requires sep !in b
    ensures LastSegment(a + [sep] + b, sep) == b
  {
    var s := a + [sep] + b;
    assert s[|a|] == sep;
    var r := LastSegment(s, sep);
    assert |r| == |b|;
    assert r == s[|s| - |r|..];
    assert s[|s| - |b|..] == b;
  }
}
