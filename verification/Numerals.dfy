/** Integers and strings as text: `fmtint` and `fmtstr` of kernel/snprintf.cc (conversions as in section
    7.19.6.1 of ISO C99). */
module Numerals {

  const TWO32 := 0x1_0000_0000

  datatype Flags = Flags(minus: bool, plus: bool, space: bool, num: bool, zero: bool, up: bool, unsigned: bool)

  predicate Base(b: int) {
    b == 8 || b == 10 || b == 16
  }

  /** A `long`, which has 32 bits. */
  predicate Long(v: int) {
    -0x8000_0000 <= v < 0x8000_0000
  }

  function Unsigned(v: int): (u: int)
    ensures 0 <= u < TWO32
  {
    v % TWO32
  }

  function Max(a: int, b: int): int {
    if a >= b then a else b
  }

  // ---- digits ----

  const LOWER: string := "0123456789abcdef"
  const UPPER: string := "0123456789ABCDEF"

  function Digit(d: int, up: bool): char
    requires 0 <= d < 16
  {
    if up then UPPER[d] else LOWER[d]
  }

  function DigitValue(c: char): int {
    if '0' <= c <= '9' then c as int - '0' as int
    else if 'a' <= c <= 'f' then c as int - 'a' as int + 10
    else if 'A' <= c <= 'F' then c as int - 'A' as int + 10
    else -1
  }

  lemma DigitIs(d: int, up: bool)
    requires 0 <= d < 16
    ensures DigitValue(Digit(d, up)) == d && Digit(d, up) != ' ' && Digit(d, up) != '-' && Digit(d, up) != '+'
  {
    assert LOWER == ['0', '1', '2', '3', '4', '5', '6', '7', '8', '9', 'a', 'b', 'c', 'd', 'e', 'f'];
    assert UPPER == ['0', '1', '2', '3', '4', '5', '6', '7', '8', '9', 'A', 'B', 'C', 'D', 'E', 'F'];
  }

  /** The numeral of u, most significant digit first. */
  function Digits(u: int, b: int, up: bool): (s: string)
    requires 0 <= u && Base(b)
    ensures s != []
  {
    if u < b then [Digit(u, up)] else Digits(u / b, b, up) + [Digit(u % b, up)]
  }

  function Value(s: string, b: int): int {
    if s == [] then 0 else Value(s[..|s| - 1], b) * b + DigitValue(s[|s| - 1])
  }

  lemma {:induction false} DigitsValue(u: int, b: int, up: bool)
    requires 0 <= u && Base(b)
    ensures Value(Digits(u, b, up), b) == u
    decreases u
  {
    if u < b {
      DigitIs(u, up);
      assert Value([], b) == 0;
    } else {
      DigitsValue(u / b, b, up);
      DigitIs(u % b, up);
      var s := Digits(u, b, up);
      assert s[..|s| - 1] == Digits(u / b, b, up);
    }
  }

  /** Base to the power n. */
  function Power(b: int, n: nat): int {
    if n == 0 then 1 else b * Power(b, n - 1)
  }

  lemma {:induction false} DigitsLength(u: int, b: int, up: bool, n: nat)
    requires 0 <= u < Power(b, n) && Base(b) && n > 0
    ensures |Digits(u, b, up)| <= n
    decreases n
  {
    if u >= b {
      assert Power(b, n) == b * Power(b, n - 1);
      assert n > 1;
      assert u / b < Power(b, n - 1) by {
        Quotient(u, b, Power(b, n - 1));
      }
      DigitsLength(u / b, b, up, n - 1);
    }
  }

  lemma Quotient(u: int, b: int, p: int)
    requires Base(b) && u < b * p
    ensures u / b < p
  {
  }

  /** No 32-bit number has more than eleven digits, so the twenty places of `convert` are never used up. */
  lemma AtMostElevenDigits(u: int, b: int, up: bool)
    requires 0 <= u < TWO32 && Base(b)
    ensures |Digits(u, b, up)| <= 11
  {
    EightToTheEleventh();
    MorePower(b, 11);
    DigitsLength(u, b, up, 11);
  }

  lemma EightToTheEleventh()
    ensures Power(8, 11) == 0x2_0000_0000
  {
    assert Power(8, 3) == 512;
    assert Power(8, 6) == 512 * Power(8, 3);
    assert Power(8, 9) == 512 * Power(8, 6);
  }

  lemma {:induction false} MorePower(b: int, n: nat)
    requires Base(b)
    ensures Power(b, n) >= Power(8, n) > 0
  {
    if n > 0 {
      MorePower(b, n - 1);
    }
  }

  function Repeat(c: char, n: int): (s: string)
    ensures |s| == if n < 0 then 0 else n
  {
    seq(if n < 0 then 0 else n, _ => c)
  }

  // ---- the text of an integer ----

  function Sign(value: int, f: Flags): string {
    if f.unsigned then "" else if value < 0 then "-" else if f.plus then "+" else if f.space then " " else ""
  }

  function Magnitude(value: int, f: Flags): (u: int)
    ensures 0 <= u < TWO32
  {
    if !f.unsigned && value < 0 then Unsigned(-value) else Unsigned(value)
  }

  /** Leading zeros and spaces before and behind, as the flags, the width `min` and the precision `max`
      have them. */
  function Zeros(places: int, sign: int, min: int, max: int, f: Flags): int {
    var z, s := Max(max - places, 0), Max(min - Max(max, places) - sign, 0);
    if f.zero then Max(z, s) else z
  }

  function Spaces(places: int, sign: int, min: int, max: int, f: Flags): int {
    if f.zero then 0 else Max(min - Max(max, places) - sign, 0)
  }

  function IntText(value: int, b: int, min: int, max: int, f: Flags): string
    requires Base(b)
  {
    var digits, sign, p := Digits(Magnitude(value, f), b, f.up), Sign(value, f), Max(max, 0);
    var zeros, spaces := Zeros(|digits|, |sign|, min, p, f), Spaces(|digits|, |sign|, min, p, f);
    Joined(Repeat(' ', if f.minus then 0 else spaces), sign, Repeat('0', zeros), digits,
           Repeat(' ', if f.minus then spaces else 0))
  }

  function Joined(a: string, b: string, c: string, d: string, e: string): string {
    a + b + c + d + e
  }

  lemma OneByOne(s: string, a: string, b: string, c: string, d: string, e: string)
    ensures s + a + b + c + d + e == s + Joined(a, b, c, d, e)
  {
  }

  /** `fmtint` */
  method FmtInt(buffer: string, value: int, b: int, min: int, max: int, f: Flags) returns (out: string)
    requires Base(b) && Long(value)
    ensures out == buffer + IntText(value, b, min, max, f)
  {
    hide Digits, Unsigned, Digit, Repeat, Joined, Zeros, Spaces, Sign, Magnitude;
    var precision := if max < 0 then 0 else max;
    var sign := Sign(value, f);
    var uvalue := Magnitude(value, f);
    var convert := new char[20];
    var place := Convert(uvalue, b, f.up, convert);
    var zpad, spad := Padding(place, |sign|, min, precision, f);
    NoRepeat(' ', spad);
    NoRepeat(' ', -spad);
    out := Pad(buffer, ' ', spad);
    out := out + sign;
    out := Pad(out, '0', zpad);
    out := PutDigits(out, convert, place, Digits(uvalue, b, f.up));
    out := Pad(out, ' ', -spad);
    OneByOne(buffer, Repeat(' ', spad), sign, Repeat('0', zpad), Digits(uvalue, b, f.up), Repeat(' ', -spad));
  }

  /** How many zeros, and how many spaces, below zero for those behind. */
  method Padding(place: int, sign: int, min: int, max: int, f: Flags) returns (zpad: int, spad: int)
    ensures zpad == Zeros(place, sign, min, max, f)
    ensures spad == if f.minus then -Spaces(place, sign, min, max, f) else Spaces(place, sign, min, max, f)
    ensures 0 <= Spaces(place, sign, min, max, f)
  {
    zpad := max - place;
    spad := min - Max(max, place) - sign;
    if zpad < 0 {
      zpad := 0;
    }
    if spad < 0 {
      spad := 0;
    }
    if f.zero {
      zpad := Max(zpad, spad);
      spad := 0;
    }
    if f.minus {
      spad := -spad;
    }
  }

  lemma NoRepeat(c: char, n: int)
    ensures n <= 0 ==> Repeat(c, n) == Repeat(c, 0)
  {
  }

  method PutDigits(buffer: string, convert: array<char>, places: int, ghost digits: string) returns (out: string)
    requires places == |digits| <= convert.Length
    requires forall k | 0 <= k < places :: convert[k] == digits[places - 1 - k]
    ensures out == buffer + digits
  {
    out := buffer;
    var place := places;
    while place > 0
      invariant 0 <= place <= places && out == buffer + digits[..places - place]
    {
      place := place - 1;
      out := out + [convert[place]];
    }
  }

  method Pad(buffer: string, c: char, n: int) returns (out: string)
    ensures out == buffer + Repeat(c, n)
  {
    out := buffer;
    var k := 0;
    while k < n
      invariant 0 <= k && (k <= n || k == 0) && out == buffer + Repeat(c, k)
    {
      out := out + [c];
      k := k + 1;
    }
  }

  lemma DigitsStep(u: int, b: int, up: bool)
    requires 0 <= u && Base(b)
    ensures 0 <= u % b < 16 && 0 <= u / b && (u > 0 ==> u / b < u)
    ensures Digits(u, b, up) == (if u / b == 0 then "" else Digits(u / b, b, up)) + [Digit(u % b, up)]
  {
    hide Digit;
    if u < b {
      assert u / b == 0 && u % b == u;
    }
  }

  /** The digits come least significant first. */
  method Convert(value: int, b: int, up: bool, convert: array<char>) returns (place: int)
    requires 0 <= value < TWO32 && Base(b) && convert.Length == 20
    modifies convert
    ensures place == |Digits(value, b, up)| <= 11
    ensures forall k | 0 <= k < place :: convert[k] == Digits(value, b, up)[place - 1 - k]
  {
    hide Digits, Digit;
    AtMostElevenDigits(value, b, up);
    ghost var digits := Digits(value, b, up);
    var uvalue := value;
    place := 0;
    ghost var rest := digits;
    while true
      invariant 0 <= uvalue && 0 <= place && place + |rest| == |digits| && rest == Digits(uvalue, b, up)
      invariant rest == digits[..|rest|]
      invariant forall k | 0 <= k < place :: convert[k] == digits[|digits| - 1 - k]
      decreases uvalue
    {
      DigitsStep(uvalue, b, up);
      convert[place] := Digit(uvalue % b, up);
      place := place + 1;
      if uvalue / b == 0 || place >= 20 {
        break;
      }
      rest := Digits(uvalue / b, b, up);
      uvalue := uvalue / b;
    }
    if place == 20 {
      place := place - 1;
    }
  }

  // ---- what the text means ----

  /** The text is as wide as the width, or as the sign and the digits or zeros that the precision asks for
      need; but with the zero flag the precision's zeros are not counted towards the width. */
  lemma Width(value: int, b: int, min: int, max: int, f: Flags)
    requires Base(b)
    ensures var places, sign, p := |Digits(Magnitude(value, f), b, f.up)|, |Sign(value, f)|, Max(max, 0);
      |IntText(value, b, min, max, f)| == Max(min, sign + Max(p, places)) <==>
      !(f.zero && p > places && min > p + sign)
  {
    hide Digits, Unsigned, Digit, Repeat, Sign, Magnitude;
  }

  function WithoutSpaces(s: string): string {
    if s != "" && s[0] == ' ' then WithoutSpaces(s[1..])
    else if s != "" && s[|s| - 1] == ' ' then WithoutSpaces(s[..|s| - 1])
    else s
  }

  /** A numeral read back, with spaces around it and a sign. */
  function Parsed(s: string, b: int): int {
    var t := WithoutSpaces(s);
    if t != "" && t[0] == '-' then -Value(t[1..], b)
    else if t != "" && t[0] == '+' then Value(t[1..], b)
    else Value(t, b)
  }

  lemma {:induction false} SpacesGo(left: int, t: string, right: int)
    requires 0 <= left && 0 <= right && t != "" && t[0] != ' ' && t[|t| - 1] != ' '
    ensures WithoutSpaces(Repeat(' ', left) + t + Repeat(' ', right)) == t
    decreases left + right
  {
    var s := Repeat(' ', left) + t + Repeat(' ', right);
    if left > 0 {
      assert s[1..] == Repeat(' ', left - 1) + t + Repeat(' ', right);
      SpacesGo(left - 1, t, right);
    } else if right > 0 {
      assert s[..|s| - 1] == Repeat(' ', left) + t + Repeat(' ', right - 1);
      SpacesGo(left, t, right - 1);
    } else {
      assert s == t;
    }
  }

  lemma {:induction false} ZerosCountNothing(n: int, s: string, b: int)
    requires 0 <= n
    ensures Value(Repeat('0', n) + s, b) == Value(s, b)
    decreases |s| + n
  {
    var t := Repeat('0', n) + s;
    if s != "" {
      assert t[..|t| - 1] == Repeat('0', n) + s[..|s| - 1];
      ZerosCountNothing(n, s[..|s| - 1], b);
    } else if n > 0 {
      assert t[..n - 1] == Repeat('0', n - 1) + s;
      ZerosCountNothing(n - 1, s, b);
      assert Value(t, b) == Value(t[..n - 1], b) * b + DigitValue('0');
    } else {
      assert t == s;
    }
  }

  lemma {:induction false} DigitsPlain(u: int, b: int, up: bool)
    requires 0 <= u && Base(b)
    ensures var s := Digits(u, b, up);
      s[0] !in {' ', '-', '+'} && s[|s| - 1] !in {' ', '-', '+'}
    decreases u
  {
    if u < b {
      DigitIs(u, up);
    } else {
      DigitsPlain(u / b, b, up);
      DigitIs(u % b, up);
    }
  }

  lemma Reads(left: int, sign: string, number: string, right: int, b: int)
    requires 0 <= left && 0 <= right && sign in {"", "-", "+", " "} && number != ""
    requires number[0] !in {' ', '-', '+'} && number[|number| - 1] != ' '
    ensures Parsed(Repeat(' ', left) + sign + number + Repeat(' ', right), b)
         == if sign == "-" then -Value(number, b) else Value(number, b)
  {
    hide Value, WithoutSpaces;
    var s := Repeat(' ', left) + sign + number + Repeat(' ', right);
    if sign == " " {
      assert s == Repeat(' ', left + 1) + number + Repeat(' ', right);
      SpacesGo(left + 1, number, right);
    } else {
      var t := sign + number;
      assert s == Repeat(' ', left) + t + Repeat(' ', right);
      assert t[|t| - 1] == number[|number| - 1];
      SpacesGo(left, t, right);
      assert sign == "" ==> t == number;
      assert sign != "" ==> t[1..] == number && t[0] == sign[0];
    }
  }

  lemma SignAndMagnitude(value: int, f: Flags)
    requires Long(value)
    ensures Sign(value, f) in {"", "-", "+", " "}
    ensures (if Sign(value, f) == "-" then -Magnitude(value, f) else Magnitude(value, f))
         == if f.unsigned then Unsigned(value) else value
  {
  }

  /** Reading the text back gives the value, whatever the flags, the width and the precision. */
  lemma RoundTrip(value: int, b: int, min: int, max: int, f: Flags)
    requires Base(b) && Long(value)
    ensures Parsed(IntText(value, b, min, max, f), b) == if f.unsigned then Unsigned(value) else value
  {
    hide Digits, Digit, Zeros, Spaces, Value, WithoutSpaces, Parsed, Sign, Magnitude, Unsigned;
    var u := Magnitude(value, f);
    var digits, sign, p := Digits(u, b, f.up), Sign(value, f), Max(max, 0);
    var zeros, spaces := Zeros(|digits|, |sign|, min, p, f), Spaces(|digits|, |sign|, min, p, f);
    PaddingNotNegative(|digits|, |sign|, min, p, f);
    SignAndMagnitude(value, f);
    DigitsPlain(u, b, f.up);
    DigitsValue(u, b, f.up);
    ZerosCountNothing(zeros, digits, b);
    var number := Repeat('0', zeros) + digits;
    assert number[0] == if zeros > 0 then '0' else digits[0];
    var left, right := if f.minus then 0 else spaces, if f.minus then spaces else 0;
    Reads(left, sign, number, right, b);
    assert IntText(value, b, min, max, f) == Repeat(' ', left) + sign + number + Repeat(' ', right);
  }

  lemma PaddingNotNegative(places: int, sign: int, min: int, max: int, f: Flags)
    ensures 0 <= Zeros(places, sign, min, max, f) && 0 <= Spaces(places, sign, min, max, f)
  {
  }

  /** A digit below the base, in capitals exactly if these are asked for. */
  predicate DigitOf(c: char, b: int, up: bool) {
    0 <= DigitValue(c) < b && (if up then !('a' <= c <= 'f') else !('A' <= c <= 'F'))
  }

  /** s is the numeral of u: digits of the right kind with the right value, and no zero in front. */
  ghost predicate Numeral(s: string, u: int, b: int, up: bool) {
    && s != "" && (u > 0 ==> s[0] != '0') && (u == 0 ==> |s| == 1)
    && (forall i | 0 <= i < |s| :: DigitOf(s[i], b, up)) && Value(s, b) == u
  }

  lemma {:induction false} DigitsLook(u: int, b: int, up: bool)
    requires 0 <= u && Base(b)
    ensures Numeral(Digits(u, b, up), u, b, up)
    decreases u
  {
    hide Value, Digit, DigitOf;
    DigitsValue(u, b, up);
    if u < b {
      DigitLooks(u, b, up);
    } else {
      DigitsLook(u / b, b, up);
      DigitLooks(u % b, b, up);
      var rest, c := Digits(u / b, b, up), Digit(u % b, up);
      assert Digits(u, b, up) == rest + [c];
      assert u / b > 0 by {
        OneDigitMore(u, b);
      }
    }
  }

  lemma OneDigitMore(u: int, b: int)
    requires u >= b > 0
    ensures u / b > 0
  {
  }

  lemma DigitLooks(d: int, b: int, up: bool)
    requires 0 <= d < b <= 16
    ensures DigitOf(Digit(d, up), b, up) && (d > 0 ==> Digit(d, up) != '0')
  {
    DigitIs(d, up);
    assert LOWER == ['0', '1', '2', '3', '4', '5', '6', '7', '8', '9', 'a', 'b', 'c', 'd', 'e', 'f'];
    assert UPPER == ['0', '1', '2', '3', '4', '5', '6', '7', '8', '9', 'A', 'B', 'C', 'D', 'E', 'F'];
  }

  /** What the text of a number looks like: spaces on one side at most, behind it exactly with the minus flag; a
      sign where there is one to show; zeros up to the precision, or up to the width with the zero flag, which
      allows no spaces; and the numeral. */
  lemma TextLooks(value: int, b: int, min: int, max: int, f: Flags)
    returns (left: int, sign: string, zeros: int, digits: string, right: int)
    requires Base(b) && Long(value)
    ensures 0 <= left && 0 <= zeros && 0 <= right
    ensures IntText(value, b, min, max, f) == Repeat(' ', left) + sign + Repeat('0', zeros) + digits + Repeat(' ', right)
    ensures Numeral(digits, if f.unsigned then Unsigned(value) else if value < 0 then -value else value, b, f.up)
    ensures sign == "-" <==> !f.unsigned && value < 0
    ensures sign == "+" <==> !f.unsigned && value >= 0 && f.plus
    ensures sign == " " <==> !f.unsigned && value >= 0 && !f.plus && f.space
    ensures sign == "" || |sign| == 1
    ensures (f.minus || f.zero ==> left == 0) && (!f.minus || f.zero ==> right == 0)
    ensures var width := |sign| + zeros + |digits|;
      if f.zero then
        zeros > 0 ==> |digits| + zeros == Max(max, 0) || |digits| + zeros + |sign| + Max(Max(max, 0) - |digits|, 0) == min
      else zeros == Max(Max(max, 0) - |digits|, 0) && left + width + right == Max(min, width)
    ensures f.zero ==> |digits| + zeros >= max && |sign| + zeros + |digits| + Max(max - |digits|, 0) >= min
  {
    hide Digits, Digit, Value;
    var u := Magnitude(value, f);
    digits, sign := Digits(u, b, f.up), Sign(value, f);
    var p := Max(max, 0);
    zeros := Zeros(|digits|, |sign|, min, p, f);
    var spaces := Spaces(|digits|, |sign|, min, p, f);
    left, right := if f.minus then 0 else spaces, if f.minus then spaces else 0;
    DigitsLook(u, b, f.up);
  }

  // ---- strings ----

  /** A string in its width, cut off at the precision. */
  function StrText(value: string, min: int, max: int, minus: bool): string {
    var pad := Repeat(' ', min - |value|);
    var whole := if minus then value + pad else pad + value;
    Room(whole, 0, max)
  }

  /** Character i of a string of which no more than max are put out in a field of width min: the string is at
      its left end with the minus flag and else at its right end. */
  predicate InField(text: string, value: string, min: int, minus: bool, i: int)
    requires 0 <= i < |text|
  {
    var at := if minus then i else i - Max(min - |value|, 0);
    text[i] == if 0 <= at < |value| then value[at] else ' '
  }

  lemma FieldLooks(value: string, min: int, max: int, minus: bool)
    ensures var text, width := StrText(value, min, max, minus), Max(min, |value|);
      && |text| == (if max < 0 then 0 else if max < width then max else width)
      && forall i {:trigger InField(text, value, min, minus, i)} | 0 <= i < |text| :: InField(text, value, min, minus, i)
  {
  }

  /** `fmtstr` of a string that is not null. */
  method FmtStr(buffer: string, value: string, min: int, max: int, minus: bool) returns (out: string)
    ensures out == buffer + StrText(value, min, max, minus)
  {
    var padlen := min - |value|;
    if padlen < 0 {
      padlen := 0;
    }
    ghost var pad := Repeat(' ', min - |value|);
    assert pad == Repeat(' ', padlen);
    RoomTwice(pad, value, max);
    RoomTwice(value, pad, max);
    var cnt := 0;
    out := buffer;
    if !minus {
      out, cnt := PutSpaces(out, cnt, padlen, max);
    }
    out, cnt := PutChars(out, cnt, value, max);
    if minus {
      out, cnt := PutSpaces(out, cnt, padlen, max);
    }
  }

  /** What of s is still put out when cnt characters of max are. */
  function Room(s: string, cnt: int, max: int): string {
    if max - cnt <= 0 then "" else if |s| <= max - cnt then s else s[..max - cnt]
  }

  lemma RoomTwice(s: string, t: string, max: int)
    ensures Room(s, 0, max) + Room(t, |Room(s, 0, max)|, max) == Room(s + t, 0, max)
  {
  }

  method PutSpaces(buffer: string, from: int, n: int, max: int) returns (out: string, cnt: int)
    requires 0 <= from && 0 <= n
    ensures out == buffer + Room(Repeat(' ', n), from, max) && cnt == from + |Room(Repeat(' ', n), from, max)|
  {
    out, cnt := buffer, from;
    var padlen := n;
    while padlen > 0 && cnt < max
      invariant 0 <= padlen <= n && cnt == from + (n - padlen) && (cnt <= max || padlen == n)
      invariant out == buffer + Repeat(' ', n - padlen)
    {
      out := out + [' '];
      padlen := padlen - 1;
      cnt := cnt + 1;
    }
    assert Room(Repeat(' ', n), from, max) == Repeat(' ', n - padlen);
  }

  method PutChars(buffer: string, from: int, value: string, max: int) returns (out: string, cnt: int)
    requires 0 <= from
    ensures out == buffer + Room(value, from, max) && cnt == from + |Room(value, from, max)|
  {
    out, cnt := buffer, from;
    var k := 0;
    while k < |value| && cnt < max
      invariant 0 <= k <= |value| && cnt == from + k && (cnt <= max || k == 0) && out == buffer + value[..k]
    {
      out := out + [value[k]];
      k := k + 1;
      cnt := cnt + 1;
    }
  }
}
