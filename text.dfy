/**
 * The few pieces of Python's text handling the core relies on: `str(n)` for integers,
 * `int(s)` for decimal strings, and `s.split(sep)` with a one-character separator.
 */
module Text {
  import opened Wrappers

  predicate IsDigit(c: char) { '0' <= c <= '9' }

  /** ASCII whitespace as stripped by Python's `int()` */
  predicate IsSpace(c: char) { c == ' ' || c == '\t' || c == '\n' || c == '\r' || c as int == 11 || c as int == 12 }

  function DigitChar(d: nat): (c: char)
    requires d < 10
    ensures IsDigit(c) && DigitValue(c) == d
  {
    ['0', '1', '2', '3', '4', '5', '6', '7', '8', '9'][d]
  }

  function DigitValue(c: char): nat
    requires IsDigit(c)
  {
    (c as int - '0' as int) as nat
  }

  /** Python's `str(n)` for a non-negative integer: decimal digits, no leading zero. */
  function NatToString(n: nat): (s: string)
    decreases n
  {
    if n < 10 then [DigitChar(n)] else NatToString(n / 10) + [DigitChar(n % 10)]
  }

  /** Python's `str(i)` for any integer. */
  function IntToString(i: int): string
  {
    if i < 0 then "-" + NatToString(-i) else NatToString(i)
  }

  predicate AllDigits(s: string) { forall k :: 0 <= k < |s| ==> IsDigit(s[k]) }

  /** The value of a string of decimal digits, most significant first. */
  function DigitsValue(s: string): nat
    requires AllDigits(s)
  {
    if s == [] then 0 else DigitsValue(s[..|s| - 1]) * 10 + DigitValue(s[|s| - 1])
  }

  lemma {:induction false} NatToStringDigits(n: nat)
    ensures |NatToString(n)| > 0 && AllDigits(NatToString(n))
    ensures DigitsValue(NatToString(n)) == n
    decreases n
  {
    if n >= 10 {
      NatToStringDigits(n / 10);
      var s := NatToString(n);
      assert s[..|s| - 1] == NatToString(n / 10);
    }
  }

  lemma {:induction false} NatToStringFirstDigit(n: nat)
    ensures IsDigit(NatToString(n)[0])
  {
    NatToStringDigits(n);
  }

  /** Removing the surrounding whitespace, as `int()` does before it reads digits. */
  function TrimLeft(s: string): (t: string)
    ensures |t| <= |s| && t == s[|s| - |t|..]
    ensures t != [] ==> !IsSpace(t[0])
  {
    if s != [] && IsSpace(s[0]) then TrimLeft(s[1..]) else s
  }

  function TrimRight(s: string): (t: string)
    ensures |t| <= |s| && t == s[..|t|]
    ensures t != [] ==> !IsSpace(t[|t| - 1])
  {
    if s != [] && IsSpace(s[|s| - 1]) then TrimRight(s[..|s| - 1]) else s
  }

  function Strip(s: string): string { TrimRight(TrimLeft(s)) }

  /**
   * The digit part of a Python integer literal: digits, where a single underscore may stand
   * between two digits (`int("1_000") == 1000`).
   */
  predicate DigitGroups(t: string)
  {
    && |t| > 0
    && IsDigit(t[0])
    && forall k :: 0 <= k < |t| ==>
         IsDigit(t[k]) || (t[k] == '_' && 0 < k < |t| - 1 && IsDigit(t[k + 1]))
  }

  predicate DigitsOrUnderscores(t: string) { forall k :: 0 <= k < |t| ==> IsDigit(t[k]) || t[k] == '_' }

  lemma DigitGroupsChars(t: string)
    requires DigitGroups(t)
    ensures DigitsOrUnderscores(t)
  {
    forall k | 0 <= k < |t| ensures IsDigit(t[k]) || t[k] == '_' {
      assert IsDigit(t[k]) || (t[k] == '_' && 0 < k < |t| - 1 && IsDigit(t[k + 1]));
    }
  }

  function RemoveUnderscores(t: string): (u: string)
    ensures DigitsOrUnderscores(t) ==> AllDigits(u)
    ensures '_' !in t ==> u == t
  {
    if t == [] then [] else (if t[0] == '_' then [] else [t[0]]) + RemoveUnderscores(t[1..])
  }

  /** The value of a valid digit part: its digits with the underscores dropped. */
  function UnsignedValue(body: string): (r: Option<nat>)
    ensures r.Some? <==> DigitGroups(body)
  {
    if !DigitGroups(body) then None
    else
      DigitGroupsChars(body);
      Some(DigitsValue(RemoveUnderscores(body)))
  }

  /** `int()` after the whitespace is stripped: an optional sign, then a valid digit part. */
  function SignedValue(t: string): (r: Option<int>)
  {
    if t == [] then None
    else
      var body := if t[0] == '-' || t[0] == '+' then t[1..] else t;
      match UnsignedValue(body)
      case None => None
      case Some(v) =>
        var n: int := v;
        Some(if t[0] == '-' then -n else n)
  }

  /** Python's `int(s)` in base 10: `Some(value)`, or `None` where Python raises ValueError. */
  function ParseInt(s: string): (r: Option<int>)
  {
    SignedValue(Strip(s))
  }

  /** A nonempty run of plain digits is a valid digit part with nothing to remove. */
  lemma PlainDigits(d: string)
    requires |d| > 0 && AllDigits(d)
    ensures UnsignedValue(d) == Some(DigitsValue(d))
  {
    assert '_' !in d by {
      forall k | 0 <= k < |d| ensures d[k] != '_' { assert IsDigit(d[k]); }
    }
    assert DigitGroups(d);
  }

  /** Text with no surrounding whitespace is left alone by stripping. */
  lemma StripUnspaced(s: string)
    requires |s| > 0 && !IsSpace(s[0]) && !IsSpace(s[|s| - 1])
    ensures Strip(s) == s
  {
    assert TrimLeft(s) == s;
    assert TrimRight(s) == s;
  }

  /** A nonempty run of plain digits is read by `int()` as its decimal value. */
  lemma ParseIntOfDigits(s: string)
    requires |s| > 0 && AllDigits(s)
    ensures ParseInt(s) == Some(DigitsValue(s))
  {
    assert IsDigit(s[0]) && IsDigit(s[|s| - 1]);
    StripUnspaced(s);
    PlainDigits(s);
  }

  lemma ParseIntOfNatToString(n: nat)
    ensures ParseInt(NatToString(n)) == Some(n)
  {
    NatToStringDigits(n);
    ParseIntOfDigits(NatToString(n));
  }

  /** A minus sign before a nonempty run of digits negates its value. */
  lemma ParseIntOfNegated(t: string)
    requires |t| > 1 && t[0] == '-' && AllDigits(t[1..])
    ensures ParseInt(t) == Some(-(DigitsValue(t[1..]) as int))
  {
    var d := t[1..];
    assert t[|t| - 1] == d[|d| - 1] && IsDigit(d[|d| - 1]);
    StripUnspaced(t);
    PlainDigits(d);
    NegativeSign(t, DigitsValue(d));
    assert ParseInt(t) == SignedValue(t);
  }

  lemma NegativeSign(t: string, v: nat)
    requires |t| > 0 && t[0] == '-' && UnsignedValue(t[1..]) == Some(v)
    ensures SignedValue(t) == Some(-(v as int))
  {
  }

  /** `int(str(i)) == i` for every integer. */
  lemma ParseIntOfIntToString(i: int)
    ensures ParseInt(IntToString(i)) == Some(i)
  {
    if i >= 0 {
      ParseIntOfNatToString(i);
    } else {
      NatToStringDigits(-i);
      var t := IntToString(i);
      assert t[1..] == NatToString(-i);
      ParseIntOfNegated(t);
    }
  }

  /** The first position of `c` in `s`. */
  function IndexOf(s: string, c: char): (i: nat)
    requires c in s
    ensures i < |s| && s[i] == c && c !in s[..i]
  {
    if s[0] == c then 0 else 1 + IndexOf(s[1..], c)
  }

  /** Python's `s.split(sep)` for a one-character separator: the pieces between separators. */
  function Split(s: string, sep: char): (parts: seq<string>)
    ensures |parts| >= 1
    decreases |s|
  {
    if sep !in s then [s]
    else
      var i := IndexOf(s, sep);
      [s[..i]] + Split(s[i + 1..], sep)
  }

  /** The first occurrence is the only position before which the character does not occur. */
  lemma {:induction false} IndexOfUnique(s: string, c: char, j: nat)
    requires j < |s| && s[j] == c && c !in s[..j]
    ensures IndexOf(s, c) == j
  {
    if j > 0 {
      assert s[..j][0] == s[0];
      assert s[1..][..j - 1] == s[1..j];
      assert s[1..j] == s[..j][1..];
      IndexOfUnique(s[1..], c, j - 1);
    }
  }

  /** Splitting on a separator that occurs exactly once gives the two sides. */
  lemma SplitOnce(a: string, sep: char, b: string)
    requires sep !in a && sep !in b
    ensures Split(a + [sep] + b, sep) == [a, b]
  {
    var s := a + [sep] + b;
    assert s[..|a|] == a;
    IndexOfUnique(s, sep, |a|);
    assert s[|a| + 1..] == b;
  }

  /** Conversely, exactly two pieces means exactly one separator, with the pieces on either side. */
  lemma SplitTwoPieces(s: string, sep: char)
    requires |Split(s, sep)| == 2
    ensures sep !in Split(s, sep)[0] && sep !in Split(s, sep)[1]
    ensures s == Split(s, sep)[0] + [sep] + Split(s, sep)[1]
  {
    var i := IndexOf(s, sep);
    var rest := s[i + 1..];
    assert Split(s, sep) == [s[..i]] + Split(rest, sep);
    assert sep !in rest;
    assert s == s[..i] + [sep] + rest;
  }
}
