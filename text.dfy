/** The character classes, trimming and decimal conversions of the ECMAScript library that the
    contact-number scanner relies on: `\s`, `\d`, `String.prototype.trim`, `parseInt` and
    `Number.prototype.toString`, on unbounded naturals. */
module Text {

  /** `\s` in an ECMAScript regular expression: the WhiteSpace and LineTerminator code points.
      `String.prototype.trim` strips exactly the same set. */
  predicate IsSpace(c: char)
  {
    c == '\t' || c == '\n' || c == '\U{000B}' || c == '\U{000C}' || c == '\r' || c == ' '
    || c == '\U{00A0}' || c == '\U{1680}' || ('\U{2000}' <= c <= '\U{200A}')
    || c == '\U{2028}' || c == '\U{2029}' || c == '\U{202F}' || c == '\U{205F}'
    || c == '\U{3000}' || c == '\U{FEFF}'
  }

  /** `\d` in a regular expression without the `u` flag: the ASCII digits only. */
  predicate IsDigit(c: char)
  {
    '0' <= c <= '9'
  }

  predicate AllDigits(s: string)
  {
    forall i :: 0 <= i < |s| ==> IsDigit(s[i])
  }

  function DigitValue(c: char): (d: nat)
    requires IsDigit(c)
    ensures d < 10
  {
    (c as int) - ('0' as int)
  }

  function DigitChar(d: nat): (c: char)
    requires d < 10
    ensures IsDigit(c) && DigitValue(c) == d
  {
    (('0' as int) + d) as char
  }

  /** Drops the leading whitespace. */
  function TrimStart(s: string): (r: string)
    ensures |r| <= |s| && r == s[|s| - |r|..]
    ensures forall i :: 0 <= i < |s| - |r| ==> IsSpace(s[i])
    ensures r == [] || !IsSpace(r[0])
  {
    if s != [] && IsSpace(s[0]) then TrimStart(s[1..]) else s
  }

  /** Drops the trailing whitespace. */
  function TrimEnd(s: string): (r: string)
    ensures |r| <= |s| && r == s[..|r|]
    ensures forall i :: |r| <= i < |s| ==> IsSpace(s[i])
    ensures r == [] || !IsSpace(r[|r| - 1])
  {
    if s != [] && IsSpace(s[|s| - 1]) then TrimEnd(s[..|s| - 1]) else s
  }

  /** `String.prototype.trim`: whitespace removed from both ends. */
  function Trim(s: string): (r: string)
  {
    TrimEnd(TrimStart(s))
  }

  /** The end of the longest run of digits that starts at `i`: greedy `\d*` from `i`. */
  function DigitRunEnd(s: string, i: nat): (e: nat)
    requires i <= |s|
    ensures i <= e <= |s|
    ensures forall k :: i <= k < e ==> IsDigit(s[k])
    ensures e == |s| || !IsDigit(s[e])
    decreases |s| - i
  {
    if i < |s| && IsDigit(s[i]) then DigitRunEnd(s, i + 1) else i
  }

  /** The decimal value of a string of digits (leading zeros allowed). */
  function DigitsValue(s: string): nat
    requires AllDigits(s)
  {
    if s == [] then 0 else DigitsValue(s[..|s| - 1]) * 10 + DigitValue(s[|s| - 1])
  }

  /** `parseInt` with no radix, on its decimal branch: the value of the leading run of digits. */
  function ParseInt(s: string): nat
  {
    DigitsValue(s[..DigitRunEnd(s, 0)])
  }

  /** `Number.prototype.toString()` of a non-negative integer: its shortest decimal numeral. */
  function NatToString(n: nat): (s: string)
    ensures s != [] && AllDigits(s)
    ensures s[0] == '0' <==> n == 0
    decreases n
  {
    if n < 10 then [DigitChar(n)] else NatToString(n / 10) + [DigitChar(n % 10)]
  }

  lemma DigitIsNotSpace(c: char)
    requires IsDigit(c)
    ensures !IsSpace(c)
  {
  }

  /** Trimming one whitespace character followed by digits leaves exactly the digits. */
  lemma TrimSpaceThenDigits(c: char, ds: string)
    requires IsSpace(c) && AllDigits(ds)
    ensures Trim([c] + ds) == ds
  {
    assert ([c] + ds)[1..] == ds;
    assert TrimStart([c] + ds) == TrimStart(ds);
    assert TrimStart(ds) == ds by {
      if ds != [] { DigitIsNotSpace(ds[0]); }
    }
    if ds != [] { DigitIsNotSpace(ds[|ds| - 1]); }
  }

  /** On a string made of digits only, `parseInt` reads every digit. */
  lemma {:induction false} ParseIntOfDigits(s: string)
    requires AllDigits(s)
    ensures ParseInt(s) == DigitsValue(s)
  {
    var e := DigitRunEnd(s, 0);
    assert s[..e] == s;
  }

  /** `parseInt` inverts `toString`: the numeral of `n` reads back as `n`. */
  lemma {:induction false} ParseIntOfNatToString(n: nat)
    ensures ParseInt(NatToString(n)) == n
    decreases n
  {
    var s := NatToString(n);
    ParseIntOfDigits(s);
    if n >= 10 {
      assert s[..|s| - 1] == NatToString(n / 10);
      ParseIntOfNatToString(n / 10);
      ParseIntOfDigits(NatToString(n / 10));
    }
  }

  /** The numeral of `n` has value `n`. */
  lemma DigitsValueOfNatToString(n: nat)
    ensures DigitsValue(NatToString(n)) == n
  {
    ParseIntOfNatToString(n);
    ParseIntOfDigits(NatToString(n));
  }

  /** `toString` inverts `parseInt` on canonical numerals: a non-empty digit string without a
      superfluous leading zero is the numeral of its own value. */
  lemma {:induction false} NatToStringOfDigits(s: string)
    requires s != [] && AllDigits(s)
    requires s[0] == '0' ==> |s| == 1
    ensures NatToString(DigitsValue(s)) == s
    decreases |s|
  {
    var p := s[..|s| - 1];
    var d := DigitValue(s[|s| - 1]);
    if p == [] {
      assert s == [s[0]];
    } else {
      NatToStringOfDigits(p);
      DigitsValuePositive(p);
      assert DigitsValue(s) / 10 == DigitsValue(p);
      assert DigitsValue(s) % 10 == d;
      assert s == p + [s[|s| - 1]];
    }
  }

  lemma {:induction false} DigitsValuePositive(s: string)
    requires s != [] && AllDigits(s) && s[0] != '0'
    ensures DigitsValue(s) >= 1
    decreases |s|
  {
    if |s| > 1 {
      DigitsValuePositive(s[..|s| - 1]);
    }
  }
}
