/** The part of JavaScript's number semantics the service relies on: integers, NaN,
    `String(n)` (used by template literals) and `parseInt(s, 10)`. */
module JsNumbers {

  /** A JavaScript number, restricted to the integers and NaN (no fractions, no infinities). */
  datatype JsNum = Num(value: int) | NaN

  predicate IsDigit(c: char) { '0' <= c <= '9' }

  predicate AllDigits(s: string) { forall i :: 0 <= i < |s| ==> IsDigit(s[i]) }

  function DigitChar(d: nat): (c: char)
    requires d < 10
    ensures IsDigit(c)
  {
    ('0' as int + d) as char
  }

  function DigitValue(c: char): (d: nat)
    requires IsDigit(c)
    ensures d < 10 && DigitChar(d) == c
  {
    c as int - '0' as int
  }

  /** The decimal digits of `n`, most significant first, without leading zeros. */
  function Digits(n: nat): (s: string)
    ensures |s| > 0 && AllDigits(s)
    decreases n
  {
    if n < 10 then [DigitChar(n)] else Digits(n / 10) + [DigitChar(n % 10)]
  }

  /** `String(n)` for an integer. */
  function FormatInt(n: int): string {
    if n < 0 then "-" + Digits(-n) else Digits(n)
  }

  /** `String(x)`, as a template literal `${x}` renders it. */
  function Format(x: JsNum): string {
    match x
    case Num(n) => FormatInt(n)
    case NaN => "NaN"
  }

  /** The value of a string of decimal digits. */
  function DecimalValue(s: string): nat
    requires AllDigits(s)
  {
    if s == [] then 0 else 10 * DecimalValue(s[..|s| - 1]) + DigitValue(s[|s| - 1])
  }

  /** The length of the longest prefix of `s` made of decimal digits. */
  function DigitRun(s: string): (n: nat)
    ensures n <= |s| && AllDigits(s[..n])
    ensures n < |s| ==> !IsDigit(s[n])
  {
    if s == [] || !IsDigit(s[0]) then 0
    else
      var k := DigitRun(s[1..]);
      assert s[..k + 1] == [s[0]] + s[1..][..k];
      k + 1
  }

  /** The white space `parseInt` skips before the number (the ASCII and the two most common
      Unicode space characters). */
  predicate IsJsSpace(c: char) {
    c == ' ' || c == '\t' || c == '\n' || c == '\r' || c == '\U{B}' || c == '\U{C}'
    || c == '\U{A0}' || c == '\U{FEFF}'
  }

  function TrimStart(s: string): (t: string)
    ensures |t| <= |s| && t == s[|s| - |t|..]
    ensures t == [] || !IsJsSpace(t[0])
  {
    if s != [] && IsJsSpace(s[0]) then TrimStart(s[1..]) else s
  }

  /** `parseInt(s, 10)`: skip leading white space, read an optional sign, then the longest
      run of decimal digits; NaN when that run is empty. The rest of the string is ignored. */
  function ParseInt(s: string): JsNum {
    var t := TrimStart(s);
    var negative := t != [] && t[0] == '-';
    var u := if t != [] && (t[0] == '-' || t[0] == '+') then t[1..] else t;
    var k := DigitRun(u);
    if k == 0 then NaN
    else
      var v: int := DecimalValue(u[..k]);
      Num(if negative then -v else v)
  }

  lemma {:induction false} DecimalValueOfDigits(n: nat)
    ensures DecimalValue(Digits(n)) == n
    decreases n
  {
    if n >= 10 {
      var s := Digits(n);
      assert s[..|s| - 1] == Digits(n / 10);
      DecimalValueOfDigits(n / 10);
    }
  }

  lemma {:induction false} DigitRunStopsAt(ds: string, rest: string)
    requires AllDigits(ds)
    requires rest == [] || !IsDigit(rest[0])
    ensures DigitRun(ds + rest) == |ds|
    decreases |ds|
  {
    if ds != [] {
      assert (ds + rest)[1..] == ds[1..] + rest;
      DigitRunStopsAt(ds[1..], rest);
    } else {
      assert ds + rest == rest;
    }
  }

  /** `parseInt` reads back a rendered integer even when other text follows it,
      as long as that text does not start with a digit. */
  lemma ParseFormattedInt(n: int, rest: string)
    requires rest == [] || !IsDigit(rest[0])
    ensures ParseInt(FormatInt(n) + rest) == Num(n)
  {
    var m := if n < 0 then -n else n;
    var ds := Digits(m);
    var s := FormatInt(n) + rest;
    assert TrimStart(s) == s;
    var u := ds + rest;
    if n < 0 {
      assert s == ['-'] + u;
      assert s[1..] == u;
    } else {
      assert s == u;
    }
    DigitRunStopsAt(ds, rest);
    assert u[..|ds|] == ds;
    DecimalValueOfDigits(m);
  }

  /** `parseInt` of a text that starts with anything but white space, a sign or a digit is NaN. */
  lemma ParseIntOfWord(s: string)
    requires s != [] && !IsJsSpace(s[0]) && !IsDigit(s[0]) && s[0] != '-' && s[0] != '+'
    ensures ParseInt(s).NaN?
  {
    assert TrimStart(s) == s && DigitRun(s) == 0;
  }

  /** Round trip: `parseInt(String(x), 10)` gives back `x`, NaN included. */
  lemma ParseFormat(x: JsNum)
    ensures ParseInt(Format(x)) == x
  {
    if x.Num? {
      assert FormatInt(x.value) + "" == FormatInt(x.value);
      ParseFormattedInt(x.value, "");
    } else {
      ParseIntOfWord("NaN");
    }
  }
}
