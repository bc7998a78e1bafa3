/**
 * The string operations the dashboard relies on: toLowerCase, includes,
 * substring(0, 100), parseInt and the conversion of a number back to text.
 */
module Text {
  import opened Options

  /** toLowerCase, on the ASCII letters. */
  function LowerChar(c: char): (l: char)
    ensures !('A' <= l <= 'Z')
    ensures 'A' <= c <= 'Z' ==> 'a' <= l <= 'z' && l as int - 'a' as int == c as int - 'A' as int
    ensures !('A' <= c <= 'Z') ==> l == c
  {
    if 'A' <= c <= 'Z' then (c as int - 'A' as int + 'a' as int) as char else c
  }

  function Lower(s: string): (r: string)
    ensures |r| == |s|
    ensures forall i :: 0 <= i < |s| ==> r[i] == LowerChar(s[i])
  {
    seq(|s|, i requires 0 <= i < |s| => LowerChar(s[i]))
  }

  /** Lower-casing twice is lower-casing once. */
  lemma LowerIdempotent(s: string)
    ensures Lower(Lower(s)) == Lower(s)
  {
  }

  /** `q` occurs in `s` starting at position `i`. */
  ghost predicate OccursAt(s: string, q: string, i: int) {
    0 <= i && i + |q| <= |s| && s[i..i + |q|] == q
  }

  /** String.prototype.includes: does `q` occur somewhere in `s`? */
  function Contains(s: string, q: string): (r: bool)
    ensures r <==> exists i :: OccursAt(s, q, i)
    decreases |s|
  {
    if |q| > |s| then
      false
    else if s[..|q|] == q then
      assert OccursAt(s, q, 0);
      true
    else
      OccursPastFront(s, q);
      Contains(s[1..], q)
  }

  /** When `q` does not start `s`, it occurs in `s` exactly when it occurs in `s` without its first character. */
  lemma OccursPastFront(s: string, q: string)
    requires |q| <= |s| && s[..|q|] != q
    ensures |s| > 0
    ensures (exists i :: OccursAt(s, q, i)) <==> exists i :: OccursAt(s[1..], q, i)
  {
    var t := s[1..];
    forall i | OccursAt(t, q, i) ensures OccursAt(s, q, i + 1) {
      assert s[i + 1..i + 1 + |q|] == t[i..i + |q|];
    }
    forall i | OccursAt(s, q, i) ensures OccursAt(t, q, i - 1) {
      assert i != 0;
      assert t[i - 1..i - 1 + |q|] == s[i..i + |q|];
    }
  }

  /** Every string includes the empty string. */
  lemma ContainsEmpty(s: string)
    ensures Contains(s, [])
  {
  }

  /** A string includes each of its middle parts. */
  lemma ContainsInfix(a: string, b: string, c: string)
    ensures Contains(a + b + c, b)
  {
    var s := a + b + c;
    assert s[|a|..|a| + |b|] == b;
    assert OccursAt(s, b, |a|);
  }

  /** Whatever a middle part includes, the whole string includes too. */
  lemma ContainsWithin(a: string, b: string, c: string, q: string)
    requires Contains(b, q)
    ensures Contains(a + b + c, q)
  {
    var i :| OccursAt(b, q, i);
    var s := a + b + c;
    assert s[|a| + i..|a| + i + |q|] == b[i..i + |q|];
    assert OccursAt(s, q, |a| + i);
  }

  const ExcerptLength: nat := 100

  /** message.substring(0, 100). */
  function Excerpt(s: string): (r: string)
    ensures r <= s
    ensures |r| == if |s| <= ExcerptLength then |s| else ExcerptLength
  {
    if |s| <= ExcerptLength then s else s[..ExcerptLength]
  }

  predicate IsDigit(c: char) {
    '0' <= c <= '9'
  }

  predicate AllDigits(s: string) {
    forall i :: 0 <= i < |s| ==> IsDigit(s[i])
  }

  function DigitValue(c: char): (d: nat)
    requires IsDigit(c)
    ensures d < 10
  {
    c as int - '0' as int
  }

  function DigitChar(d: nat): (c: char)
    requires d < 10
    ensures IsDigit(c) && DigitValue(c) == d
  {
    ('0' as int + d) as char
  }

  /** The white space parseInt skips before the number (JavaScript's StrWhiteSpaceChar). */
  predicate IsSpace(c: char) {
    c == '\t' || c == '\n' || c == '\U{0B}' || c == '\U{0C}' || c == '\r' || c == ' '
    || c == '\U{A0}' || c == '\U{1680}' || ('\U{2000}' <= c <= '\U{200A}')
    || c == '\U{2028}' || c == '\U{2029}' || c == '\U{202F}' || c == '\U{205F}'
    || c == '\U{3000}' || c == '\U{FEFF}'
  }

  function TrimStart(s: string): (r: string)
    ensures r == [] || !IsSpace(r[0])
    ensures |r| <= |s| && r == s[|s| - |r|..]
    ensures forall i :: 0 <= i < |s| - |r| ==> IsSpace(s[i])
  {
    if s != [] && IsSpace(s[0]) then TrimStart(s[1..]) else s
  }

  /** The longest prefix of `s` made of decimal digits. */
  function DigitPrefix(s: string): (d: string)
    ensures d <= s && AllDigits(d)
    ensures |d| < |s| ==> !IsDigit(s[|d|])
  {
    if s == [] || !IsDigit(s[0]) then [] else [s[0]] + DigitPrefix(s[1..])
  }

  /** The number a string of decimal digits denotes, most significant first. */
  function DigitsValue(d: string): nat
    requires AllDigits(d)
    decreases |d|
  {
    if d == [] then 0 else DigitsValue(d[..|d| - 1]) * 10 + DigitValue(d[|d| - 1])
  }

  /**
   * parseInt(s) without a radix: skip leading white space, read an optional
   * sign and then as many decimal digits as there are; no digit means NaN (None).
   */
  function ParseInt(s: string): (r: Option<int>)
    ensures (forall i :: 0 <= i < |s| ==> !IsDigit(s[i])) ==> r.None?
    ensures s != [] && AllDigits(s) ==> r == Some(DigitsValue(s))
  {
    DigitsReadWhole(s);
    NoDigitsNoPrefix(s);
    var t := TrimStart(s);
    var signed := |t| > 0 && (t[0] == '-' || t[0] == '+');
    var d := DigitPrefix(if signed then t[1..] else t);
    if d == [] then None
    else if signed && t[0] == '-' then Some(-(DigitsValue(d) as int))
    else Some(DigitsValue(d))
  }

  /** parseInt reads a run of digits whole. */
  lemma DigitsReadWhole(s: string)
    ensures s != [] && AllDigits(s) ==> TrimStart(s) == s && DigitPrefix(s) == s
  {
    if s != [] && AllDigits(s) {
      assert IsDigit(s[0]);
      assert !IsSpace(s[0]);
      DigitPrefixOfDigits(s);
    }
  }

  /** In a string without digits, the trimmed text has no digit prefix, with or without its first character. */
  lemma NoDigitsNoPrefix(s: string)
    ensures (forall i :: 0 <= i < |s| ==> !IsDigit(s[i])) ==>
      DigitPrefix(TrimStart(s)) == [] && (|TrimStart(s)| > 0 ==> DigitPrefix(TrimStart(s)[1..]) == [])
  {
    var t := TrimStart(s);
    if (forall i :: 0 <= i < |s| ==> !IsDigit(s[i])) && |t| > 0 {
      assert t[0] == s[|s| - |t|];
      if |t| > 1 {
        assert t[1..][0] == s[|s| - |t| + 1];
      }
    }
  }

  /** The decimal digits of a natural number, without leading zeros. */
  function Digits(n: nat): (s: string)
    ensures |s| > 0 && AllDigits(s)
    ensures |s| == 1 || s[0] != '0'
    decreases n
  {
    if n < 10 then [DigitChar(n)] else Digits(n / 10) + [DigitChar(n % 10)]
  }

  /** The text a JavaScript integer becomes when assigned to textContent. */
  function DecimalString(n: int): (r: string)
    ensures |r| > 0
    ensures n >= 0 <==> AllDigits(r)
    ensures n < 0 ==> r[0] == '-' && AllDigits(r[1..])
    ensures n >= 0 ==> |r| == 1 || r[0] != '0'
    ensures n < 0 ==> |r| >= 2 && r[1] != '0'
  {
    if n < 0 then
      var r := "-" + Digits(-n);
      assert r[0] == '-' && r[1..] == Digits(-n);
      r
    else Digits(n)
  }

  lemma {:induction false} DigitsValueOfDigits(n: nat)
    ensures DigitsValue(Digits(n)) == n
    decreases n
  {
    if n >= 10 {
      var s := Digits(n);
      assert s[..|s| - 1] == Digits(n / 10);
      DigitsValueOfDigits(n / 10);
    }
  }

  lemma DigitPrefixOfDigits(s: string)
    requires AllDigits(s)
    ensures DigitPrefix(s) == s
    decreases |s|
  {
  }

  /** Reading back the text of any integer gives that integer. */
  lemma ParseDecimal(n: int)
    ensures ParseInt(DecimalString(n)) == Some(n)
  {
    var m: nat := if n < 0 then -n else n;
    var d := Digits(m);
    DigitPrefixOfDigits(d);
    DigitsValueOfDigits(m);
    var s := DecimalString(n);
    assert !IsSpace(s[0]);
    assert TrimStart(s) == s;
    if n < 0 {
      assert s[0] == '-' && s[1..] == d;
    } else {
      assert s == d && IsDigit(s[0]);
    }
  }
}
