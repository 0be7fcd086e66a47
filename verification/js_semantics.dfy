/** The pieces of JavaScript's built-in behaviour that the donor application's
    own code relies on: truthiness, the `\s` character class, `String.prototype.trim`
    and the global `parseInt` with no radix argument. Strings are sequences of
    characters; see the README for how that differs from JavaScript's UTF-16 units. */
module JsSemantics {

  /** A JavaScript number as far as the modelled code can observe it. */
  datatype JsNumber = NaN | Num(value: real)

  /** A value that can arrive in a parsed JSON request body, or be missing from it. */
  datatype JsValue =
    | Undefined
    | Null
    | Bool(b: bool)
    | Number(n: JsNumber)
    | Str(s: string)
    | Object   // arrays and objects: always truthy, whatever they hold

  /** ECMAScript ToBoolean: the values `if (v)` accepts. */
  predicate Truthy(v: JsValue)
  {
    match v
    case Undefined => false
    case Null => false
    case Bool(b) => b
    case Number(n) => n.Num? && n.value != 0.0
    case Str(s) => s != ""
    case Object => true
  }

  // ---------------------------------------------------------------------------
  // Relational comparison of a number with a constant: every comparison with
  // NaN is false.

  predicate LessThan(n: JsNumber, bound: real)      { n.Num? && n.value < bound }
  predicate GreaterThan(n: JsNumber, bound: real)   { n.Num? && n.value > bound }
  predicate AtLeast(n: JsNumber, bound: real)       { n.Num? && n.value >= bound }
  predicate AtMost(n: JsNumber, bound: real)        { n.Num? && n.value <= bound }

  /** ECMAScript LineTerminator: the characters the regular-expression `.` refuses. */
  predicate IsLineTerminator(c: char)
  {
    c == '\n' || c == '\r' || c == '\U{2028}' || c == '\U{2029}'
  }

  /** ECMAScript WhiteSpace and LineTerminator: the class `\s`, and what `trim` removes. */
  predicate IsWhiteSpace(c: char)
  {
    || c == '\t' || c == '\U{000B}' || c == '\U{000C}' || c == ' '
    || c == '\U{00A0}' || c == '\U{1680}' || ('\U{2000}' <= c <= '\U{200A}')
    || c == '\U{202F}' || c == '\U{205F}' || c == '\U{3000}' || c == '\U{FEFF}'
    || IsLineTerminator(c)
  }

  predicate AllWhiteSpace(s: string)
  {
    forall i | 0 <= i < |s| :: IsWhiteSpace(s[i])
  }

  predicate IsAsciiDigit(c: char)
  {
    '0' <= c <= '9'
  }

  predicate IsAsciiLetter(c: char)
  {
    ('a' <= c <= 'z') || ('A' <= c <= 'Z')
  }

  // ---------------------------------------------------------------------------
  // String.prototype.trim

  /** Drops the longest all-white-space prefix. */
  function TrimStart(s: string): (r: string)
    ensures |r| <= |s| && r == s[|s| - |r|..]
    ensures forall i | 0 <= i < |s| - |r| :: IsWhiteSpace(s[i])
    ensures r == [] || !IsWhiteSpace(r[0])
  {
    if s != [] && IsWhiteSpace(s[0]) then TrimStart(s[1..]) else s
  }

  /** Drops the longest all-white-space suffix. */
  function TrimEnd(s: string): (r: string)
    ensures |r| <= |s| && r == s[..|r|]
    ensures forall i | |r| <= i < |s| :: IsWhiteSpace(s[i])
    ensures r == [] || !IsWhiteSpace(r[|r| - 1])
  {
    if s != [] && IsWhiteSpace(s[|s| - 1]) then TrimEnd(s[..|s| - 1]) else s
  }

  /** `s.trim()`: the middle of `s` once white space is cut from both ends. */
  function Trim(s: string): (r: string)
    ensures |r| <= |s|
    ensures r == [] || (!IsWhiteSpace(r[0]) && !IsWhiteSpace(r[|r| - 1]))
  {
    TrimEnd(TrimStart(s))
  }

  /** What `trim` removes is white space, and what it keeps is a contiguous part
      of the input; with the ends clause of Trim this determines the result. */
  lemma TrimIsInfix(s: string)
    ensures exists i, j | 0 <= i <= j <= |s| ::
              Trim(s) == s[i..j] && AllWhiteSpace(s[..i]) && AllWhiteSpace(s[j..])
  {
    var t := TrimStart(s);
    var r := TrimEnd(t);
    var i := |s| - |t|;
    var j := i + |r|;
    assert AllWhiteSpace(s[..i]);
    assert AllWhiteSpace(t[|r|..]);
    assert s[j..] == t[|r|..];
    assert r == s[i..j];
    assert Trim(s) == s[i..j] && AllWhiteSpace(s[..i]) && AllWhiteSpace(s[j..]);
  }

  lemma TrimStartKeeps(s: string)
    requires s != [] && !IsWhiteSpace(s[0])
    ensures TrimStart(s) == s
  {
  }

  /** Trimming what is already trimmed changes nothing. */
  lemma TrimIdempotent(s: string)
    ensures Trim(Trim(s)) == Trim(s)
  {
    var r := Trim(s);
    if r != [] {
      TrimStartKeeps(r);
      assert TrimEnd(r) == r;
    }
  }

  lemma {:induction false} TrimStartAppend(s: string, t: string)
    ensures TrimStart(s + t) == if TrimStart(s) == [] then TrimStart(t) else TrimStart(s) + t
  {
    if s == [] {
      assert s + t == t;
    } else if IsWhiteSpace(s[0]) {
      assert (s + t)[1..] == s[1..] + t;
      TrimStartAppend(s[1..], t);
    }
  }

  lemma {:induction false} TrimEndPadding(s: string, w: string)
    requires AllWhiteSpace(w)
    ensures TrimEnd(s + w) == TrimEnd(s)
  {
    if w != [] {
      assert (s + w)[..|s + w| - 1] == s + w[..|w| - 1];
      TrimEndPadding(s, w[..|w| - 1]);
    } else {
      assert s + w == s;
    }
  }

  /** White space around a value never reaches the code that reads `value.trim()`. */
  lemma TrimIgnoresPadding(before: string, s: string, after: string)
    requires AllWhiteSpace(before) && AllWhiteSpace(after)
    ensures Trim(before + s + after) == Trim(s)
  {
    assert before + s + after == before + (s + after);
    TrimStartAppend(before, s + after);
    TrimStartAppend(s, after);
    if TrimStart(s) != [] {
      TrimEndPadding(TrimStart(s), after);
    }
  }

  // ---------------------------------------------------------------------------
  // parseInt(string), radix left undefined

  /** A digit of radix 10, or of radix 16 when `hex` holds. */
  predicate IsRadixDigit(c: char, hex: bool)
  {
    IsAsciiDigit(c) || (hex && (('a' <= c <= 'f') || ('A' <= c <= 'F')))
  }

  function DigitValue(c: char): (d: nat)
    requires IsRadixDigit(c, true)
    ensures d < 16
    ensures IsAsciiDigit(c) <==> d < 10
  {
    if IsAsciiDigit(c) then c as int - '0' as int
    else if 'a' <= c <= 'f' then c as int - 'a' as int + 10
    else c as int - 'A' as int + 10
  }

  /** Length of the longest prefix of `s` made of digits of the radix. */
  function DigitRunLength(s: string, hex: bool): (k: nat)
    ensures k <= |s|
    ensures forall i | 0 <= i < k :: IsRadixDigit(s[i], hex)
    ensures k < |s| ==> !IsRadixDigit(s[k], hex)
  {
    if s != [] && IsRadixDigit(s[0], hex) then 1 + DigitRunLength(s[1..], hex) else 0
  }

  /** The number a string of digits denotes, most significant digit first. */
  function DigitsValue(ds: string, hex: bool): nat
    requires forall i | 0 <= i < |ds| :: IsRadixDigit(ds[i], hex)
  {
    if ds == [] then 0
    else
      var last := ds[|ds| - 1];
      assert IsRadixDigit(last, hex);
      var high := DigitsValue(ds[..|ds| - 1], hex);
      (if hex then high * 16 else high * 10) + DigitValue(last)
  }

  /** `parseInt(s)`: skip leading white space, take an optional sign, switch to
      radix 16 after a `0x`/`0X` prefix, read the longest run of digits and ignore
      the rest; no digits at all gives NaN. A negative zero is read as zero. */
  function ParseInt(s: string): (n: JsNumber)
    ensures AllWhiteSpace(s) ==> n == NaN
  {
    var t := TrimStart(s);
    var negative := t != [] && t[0] == '-';
    var u := if t != [] && (t[0] == '-' || t[0] == '+') then t[1..] else t;
    ParseUnsigned(u, negative)
  }

  /** What `parseInt` does once white space and sign are consumed. */
  function ParseUnsigned(u: string, negative: bool): (n: JsNumber)
    ensures u == [] ==> n == NaN
  {
    var hex := |u| >= 2 && u[0] == '0' && (u[1] == 'x' || u[1] == 'X');
    var digits := if hex then u[2..] else u;
    var k := DigitRunLength(digits, hex);
    if k == 0 then NaN
    else
      var magnitude: int := DigitsValue(digits[..k], hex);
      Num((if negative then -magnitude else magnitude) as real)
  }

  /** The decimal rendering of a natural number, as a `type="number"` field holds it. */
  function DecimalString(n: nat): (s: string)
    ensures s != []
    ensures forall i | 0 <= i < |s| :: IsAsciiDigit(s[i])
    ensures s[0] == '0' ==> n == 0
  {
    if n < 10 then ['0' + n as char]
    else DecimalString(n / 10) + ['0' + (n % 10) as char]
  }

  lemma {:induction false} DecimalStringValue(n: nat)
    ensures DigitsValue(DecimalString(n), false) == n
  {
    if n >= 10 {
      var s := DecimalString(n);
      assert s[..|s| - 1] == DecimalString(n / 10);
      DecimalStringValue(n / 10);
    }
  }

  lemma {:induction false} DigitRunStopsAt(ds: string, rest: string, hex: bool)
    requires forall i | 0 <= i < |ds| :: IsRadixDigit(ds[i], hex)
    requires rest == [] || !IsRadixDigit(rest[0], hex)
    ensures DigitRunLength(ds + rest, hex) == |ds|
  {
    if ds == [] {
      assert ds + rest == rest;
    } else {
      assert (ds + rest)[1..] == ds[1..] + rest;
      DigitRunStopsAt(ds[1..], rest, hex);
    }
  }

  /** Text that ends the digit run of the rendering of `m`: empty, or starting
      with a non-digit that, after a lone `0`, is not the `x`/`X` of a radix-16
      prefix. */
  predicate EndsDecimal(m: nat, rest: string)
  {
    rest == [] || (!IsAsciiDigit(rest[0]) && (m == 0 ==> rest[0] != 'x' && rest[0] != 'X'))
  }

  lemma ParseUnsignedDecimal(m: nat, rest: string, negative: bool)
    requires EndsDecimal(m, rest)
    ensures ParseUnsigned(DecimalString(m) + rest, negative) == Num((if negative then -(m as int) else m) as real)
  {
    var d := DecimalString(m);
    var u := d + rest;
    if |u| >= 2 && u[0] == '0' {
      assert m == 0 && |d| == 1 && u[1] == rest[0];
    }
    DigitRunStopsAt(d, rest, false);
    assert u[..|d|] == d;
    DecimalStringValue(m);
  }

  lemma ParseIntOfDigits(d: string)
    requires d != [] && IsAsciiDigit(d[0])
    ensures ParseInt(d) == ParseUnsigned(d, false)
  {
    TrimStartKeeps(d);
  }

  lemma ParseIntOfSignedDigits(d: string)
    requires d != [] && IsAsciiDigit(d[0])
    ensures ParseInt("-" + d) == ParseUnsigned(d, true)
  {
    var s := "-" + d;
    assert s[0] == '-' && s[1..] == d;
    TrimStartKeeps(s);
  }

  /** A minus sign in front of the rendering of a positive number reads back as
      the negative number, whatever non-digit text follows it. */
  lemma ParseIntReadsNegative(m: nat, rest: string)
    requires m > 0
    requires rest == [] || !IsAsciiDigit(rest[0])
    ensures ParseInt("-" + (DecimalString(m) + rest)) == Num(-(m as real))
  {
    assert EndsDecimal(m, rest);
    var ds := DecimalString(m);
    var d := ds + rest;
    assert d[0] == ds[0];
    ParseUnsignedDecimal(m, rest, true);
    assert (-(m as int)) as real == -(m as real);
    ParseIntOfSignedDigits(d);
  }

  /** Reading back a whole number the way a number field renders it gives that
      number, whatever text ends its digits (a fraction, an exponent); only
      after a lone `0` does an `x` or `X` start a radix-16 number instead. */
  lemma ParseIntReadsNatural(m: nat, rest: string)
    requires EndsDecimal(m, rest)
    ensures ParseInt(DecimalString(m) + rest) == Num(m as real)
  {
    var ds := DecimalString(m);
    var d := ds + rest;
    assert d[0] == ds[0];
    ParseUnsignedDecimal(m, rest, false);
    ParseIntOfDigits(d);
  }

}
