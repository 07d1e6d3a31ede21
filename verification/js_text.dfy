/**
  The few pieces of JavaScript string and number semantics that the
  storefront's handlers lean on: the `\s` / `trim()` white-space set,
  `trim()` itself, and `Number(text)` restricted to integer syntax.
 */
module JsText {

  /** JavaScript WhiteSpace and LineTerminator code points (the `\s` class
      and the characters `String.prototype.trim` removes). */
  predicate IsSpace(c: char) {
    var u := c as int;
    || (0x09 <= u <= 0x0D) || u == 0x20 || u == 0xA0 || u == 0x1680
    || (0x2000 <= u <= 0x200A) || u == 0x2028 || u == 0x2029
    || u == 0x202F || u == 0x205F || u == 0x3000 || u == 0xFEFF
  }

  predicate IsDigit(c: char) {
    '0' <= c <= '9'
  }

  predicate IsAsciiLetter(c: char) {
    ('a' <= c <= 'z') || ('A' <= c <= 'Z')
  }

  predicate NoSpace(s: string) {
    forall i :: 0 <= i < |s| ==> !IsSpace(s[i])
  }

  /** `s` neither starts nor ends with white space. */
  predicate Trimmed(s: string) {
    |s| == 0 || (!IsSpace(s[0]) && !IsSpace(s[|s| - 1]))
  }

  /** How many white-space characters `s` starts with. */
  function LeadingSpaces(s: string): (n: nat)
    ensures n <= |s|
    ensures forall i :: 0 <= i < n ==> IsSpace(s[i])
    ensures n == |s| || !IsSpace(s[n])
  {
    if |s| == 0 || !IsSpace(s[0]) then 0 else 1 + LeadingSpaces(s[1..])
  }

  /** How many white-space characters `s` ends with. */
  function TrailingSpaces(s: string): (n: nat)
    ensures n <= |s|
    ensures forall i :: |s| - n <= i < |s| ==> IsSpace(s[i])
    ensures n == |s| || !IsSpace(s[|s| - n - 1])
  {
    if |s| == 0 || !IsSpace(s[|s| - 1]) then 0 else 1 + TrailingSpaces(s[..|s| - 1])
  }

  /** `String.prototype.trim`: `s` with its leading and trailing white space
      removed, and nothing else. */
  function Trim(s: string): (r: string)
    ensures Trimmed(r)
    ensures var a := LeadingSpaces(s);
      && a + |r| <= |s| && r == s[a..a + |r|]
      && (forall i :: 0 <= i < a ==> IsSpace(s[i]))
      && (forall i :: a + |r| <= i < |s| ==> IsSpace(s[i]))
  {
    var a := LeadingSpaces(s);
    var b := |s| - TrailingSpaces(s[a..]);
    TrimBounds(s, a, b);
    s[a..b]
  }

  /** The cut `trim` makes: after the leading white space, and before the
      white space that ends what is left. */
  lemma TrimBounds(s: string, a: nat, b: int)
    requires a == LeadingSpaces(s) && b == |s| - TrailingSpaces(s[a..])
    ensures a <= b <= |s| && Trimmed(s[a..b])
    ensures forall i :: b <= i < |s| ==> IsSpace(s[i])
  {
    TrimTail(s, a, b);
    TrimEnds(s, a, b);
  }

  lemma TrimTail(s: string, a: nat, b: int)
    requires a == LeadingSpaces(s) && b == |s| - TrailingSpaces(s[a..])
    ensures forall i :: b <= i < |s| ==> IsSpace(s[i])
  {
    var t := s[a..];
    var n := TrailingSpaces(t);
    forall i | b <= i < |s| ensures IsSpace(s[i]) {
      var j := i - a;
      assert |t| - n <= j < |t|;
      assert IsSpace(t[j]);
    }
  }

  lemma TrimEnds(s: string, a: nat, b: int)
    requires a == LeadingSpaces(s) && b == |s| - TrailingSpaces(s[a..])
    ensures a <= b <= |s| && Trimmed(s[a..b])
  {
    var t := s[a..];
    var n := TrailingSpaces(t);
    if a < b {
      var r, k := s[a..b], b - a - 1;
      assert k == |t| - n - 1 && n < |t| && |r| - 1 == k;
      var first, last := s[a], t[|t| - n - 1];
      assert !IsSpace(first);
      assert !IsSpace(last);
      assert r[0] == first;
      assert r[k] == s[a + k] == last;
      EndsTrimmed(r, first, last);
    }
  }

  lemma EndsTrimmed(r: string, first: char, last: char)
    requires |r| > 0 && r[0] == first && r[|r| - 1] == last
    requires !IsSpace(first) && !IsSpace(last)
    ensures Trimmed(r)
  {
  }

  /** Trimming a string that is already trimmed changes nothing. */
  lemma TrimOfTrimmed(s: string)
    requires Trimmed(s)
    ensures Trim(s) == s
  {
  }

  /** The result of JavaScript's `Number(...)` restricted to integers. */
  datatype NumberValue = Num(n: int) | NaN {
    /** JavaScript truthiness of the number: zero and NaN are falsy. */
    predicate Truthy() {
      Num? && n != 0
    }
  }

  /** A non-empty run of ASCII digits. */
  predicate IsDigits(s: string) {
    |s| > 0 && forall i :: 0 <= i < |s| ==> IsDigit(s[i])
  }

  function DigitValue(c: char): (d: nat)
    requires IsDigit(c)
    ensures d < 10
  {
    c as int - '0' as int
  }

  /** The value of a run of decimal digits, most significant first. */
  function DigitsValue(s: string): (v: nat)
    requires forall i :: 0 <= i < |s| ==> IsDigit(s[i])
  {
    if |s| == 0 then 0 else DigitsValue(s[..|s| - 1]) * 10 + DigitValue(s[|s| - 1])
  }

  /** `Number(text)`: surrounding white space is ignored, the empty string is 0,
      an optionally signed run of digits is its value, anything else is NaN. */
  function ToNumber(text: string): (r: NumberValue)
    ensures Trim(text) == [] ==> r == Num(0)
    ensures Trim(text) != [] ==>
      (r.Num? <==> IsDigits(Trim(text)) || (|Trim(text)| > 1 && Trim(text)[0] in "+-" && IsDigits(Trim(text)[1..])))
  {
    var t := Trim(text);
    if |t| == 0 then Num(0)
    else if IsDigits(t) then Num(DigitsValue(t))
    else if t[0] == '+' && IsDigits(t[1..]) then Num(DigitsValue(t[1..]))
    else if t[0] == '-' && IsDigits(t[1..]) then var v: int := DigitsValue(t[1..]); Num(-v)
    else NaN
  }

  /** Text made only of ASCII letters is not a number. */
  lemma LettersAreNaN(s: string)
    requires |s| > 0 && forall i :: 0 <= i < |s| ==> IsAsciiLetter(s[i])
    ensures ToNumber(s) == NaN
  {
    assert !IsSpace(s[0]) && !IsSpace(s[|s| - 1]);
    TrimOfTrimmed(s);
    assert !IsDigit(s[0]);
  }

  /** Decimal digits of a natural number, as `String(n)` writes them. */
  function NatDigits(n: nat): (s: string)
    ensures IsDigits(s)
    decreases n
  {
    if n < 10 then [('0' as int + n) as char]
    else NatDigits(n / 10) + [('0' as int + n % 10) as char]
  }

  /** `String(n)` for an integer: a minus sign for negative values. */
  function IntToText(n: int): string {
    if n < 0 then "-" + NatDigits(-n) else NatDigits(n)
  }

  lemma {:induction false} DigitsValueOfNatDigits(n: nat)
    ensures DigitsValue(NatDigits(n)) == n
    decreases n
  {
    if n >= 10 {
      var s := NatDigits(n);
      var p := NatDigits(n / 10);
      assert s[..|s| - 1] == p;
      DigitsValueOfNatDigits(n / 10);
    }
  }

  lemma NatDigitsTrimmed(n: nat)
    ensures Trimmed(NatDigits(n)) && Trim(NatDigits(n)) == NatDigits(n)
  {
    var s := NatDigits(n);
    assert IsDigit(s[0]) && IsDigit(s[|s| - 1]);
    TrimOfTrimmed(s);
  }

  /** Whatever a number input serialises, `Number` reads back unchanged. */
  lemma {:induction false} ToNumberOfIntToText(n: int)
    ensures ToNumber(IntToText(n)) == Num(n)
  {
    var s := IntToText(n);
    if n < 0 {
      var d := NatDigits(-n);
      DigitsValueOfNatDigits(-n);
      NatDigitsTrimmed(-n);
      assert s == "-" + d && s[1..] == d;
      assert IsDigit(d[|d| - 1]) && s[|s| - 1] == d[|d| - 1];
      TrimOfTrimmed(s);
      assert !IsDigits(s) by { assert !IsDigit(s[0]); }
    } else {
      DigitsValueOfNatDigits(n);
      NatDigitsTrimmed(n);
    }
  }

  /** The JSON values a stored or posted field may hold (numbers are
      integers in this model). */
  datatype JsValue = Undefined | Null | Bool(b: bool) | Number(n: int) | Str(s: string)

  /** `Number(v)` for any such value. */
  function NumberOf(v: JsValue): (r: NumberValue)
    ensures v.Number? ==> r == Num(v.n)
    ensures v.Undefined? ==> r == NaN
    ensures v.Null? ==> r == Num(0)
    ensures v.Bool? ==> r == Num(if v.b then 1 else 0)
    ensures v.Str? ==> r == ToNumber(v.s)
  {
    match v
    case Undefined => NaN
    case Null => Num(0)
    case Bool(b) => Num(if b then 1 else 0)
    case Number(n) => Num(n)
    case Str(s) => ToNumber(s)
  }
}
