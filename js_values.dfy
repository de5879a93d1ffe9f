/** The few JavaScript semantics the middlewares and the model rely on:
    values as they arrive in a parsed JSON body or in route parameters,
    truthiness, `String(v)`, `String.prototype.trim` and `parseInt`. */
module JsValues {

  datatype Option<+T> = None | Some(value: T)

  /** A JavaScript value. Numbers are integers: fractional numbers, NaN and
      the infinities are not part of this model. */
  datatype JsValue =
    | Undefined
    | Null
    | Bool(b: bool)
    | Num(n: int)
    | Str(s: string)
    | Arr(elems: seq<JsValue>)
    | Obj

  /** `!!v`: the falsy values are undefined, null, false, 0 and "". */
  predicate Truthy(v: JsValue): (b: bool)
    ensures !b <==> v == Undefined || v == Null || v == Bool(false) || v == Num(0) || v == Str("")
  {
    match v
    case Undefined => false
    case Null => false
    case Bool(b) => b
    case Num(n) => n != 0
    case Str(s) => s != ""
    case Arr(_) => true
    case Obj => true
  }

  // ---------------------------------------------------------------------
  // Decimal rendering of integers (what `String(n)` does for an integer)

  function DigitChar(d: int): (c: char)
    requires 0 <= d < 10
    ensures IsDigit(c, 10) && DigitValue(c) == d
  {
    "0123456789"[d]
  }

  function NatToDecimal(n: nat): (s: string)
    ensures |s| >= 1
    ensures forall i :: 0 <= i < |s| ==> IsDigit(s[i], 10)
    ensures s[0] == '0' ==> n == 0 && |s| == 1
    ensures DecimalValue(s) == n
    decreases n
  {
    if n < 10 then [DigitChar(n)]
    else
      var prefix := NatToDecimal(n / 10);
      var s := prefix + [DigitChar(n % 10)];
      assert s[..|s| - 1] == prefix;
      s
  }

  function IntToDecimal(n: int): string {
    if n < 0 then "-" + NatToDecimal(-n) else NatToDecimal(n)
  }

  // ---------------------------------------------------------------------
  // String(v)

  /** `String(v)`; an array is rendered as its elements joined by ",",
      with undefined and null elements rendered as "". */
  function ToStr(v: JsValue): (r: string)
    ensures v.Num? ==> ParseInt(r) == Some(v.n)
    ensures v.Str? ==> r == v.s
    ensures r == "" ==> v == Str("") || v.Arr?
    decreases v, 1
  {
    match v
    case Undefined => "undefined"
    case Null => "null"
    case Bool(b) => if b then "true" else "false"
    case Num(n) => ParseIntDecimal(n); IntToDecimal(n)
    case Str(s) => s
    case Arr(es) => JoinElems(v, es)
    case Obj => "[object Object]"
  }

  function JoinElems(ghost parent: JsValue, es: seq<JsValue>): string
    requires parent.Arr? && es <= parent.elems
    decreases parent, 0, |es|
  {
    if es == [] then ""
    else
      var e := es[|es| - 1];
      assert e in parent.elems;
      var last := if e.Undefined? || e.Null? then "" else ToStr(e);
      if |es| == 1 then last else JoinElems(parent, es[..|es| - 1]) + "," + last
  }

  // ---------------------------------------------------------------------
  // White space and trim

  /** ECMAScript WhiteSpace and LineTerminator code points, the set that
      `trim` removes and `parseInt` skips. */
  predicate IsWhiteSpace(c: char) {
    || c == '\t' || c == '\n' || c == '\U{B}' || c == '\U{C}' || c == '\r'
    || c == ' ' || c == '\U{A0}' || c == '\U{1680}'
    || ('\U{2000}' <= c <= '\U{200A}')
    || c == '\U{2028}' || c == '\U{2029}' || c == '\U{202F}' || c == '\U{205F}'
    || c == '\U{3000}' || c == '\U{FEFF}'
  }

  /** Drops the longest all-white-space prefix. */
  function TrimStart(s: string): (r: string)
    ensures |r| <= |s| && r == s[|s| - |r|..]
    ensures forall i :: 0 <= i < |s| - |r| ==> IsWhiteSpace(s[i])
    ensures r == [] || !IsWhiteSpace(r[0])
  {
    if s != [] && IsWhiteSpace(s[0]) then TrimStart(s[1..]) else s
  }

  /** Drops the longest all-white-space suffix. */
  function TrimEnd(s: string): (r: string)
    ensures |r| <= |s| && r == s[..|r|]
    ensures forall i :: |r| <= i < |s| ==> IsWhiteSpace(s[i])
    ensures r == [] || !IsWhiteSpace(r[|r| - 1])
  {
    if s != [] && IsWhiteSpace(s[|s| - 1]) then TrimEnd(s[..|s| - 1]) else s
  }

  /** `r` is the slice of `s` from `k` on, and everything of `s` around
      it is white space. */
  predicate TrimmedAt(s: string, r: string, k: int) {
    && 0 <= k <= |s| - |r| && r == s[k..k + |r|]
    && (forall i :: 0 <= i < k ==> IsWhiteSpace(s[i]))
    && (forall i :: k + |r| <= i < |s| ==> IsWhiteSpace(s[i]))
  }

  /** `s.trim()`: the part of `s` between its longest white-space prefix
      and its longest white-space suffix (TrimIsSliceWithinWhiteSpace). */
  function Trim(s: string): (r: string)
    ensures |r| <= |s|
    ensures r == [] || (!IsWhiteSpace(r[0]) && !IsWhiteSpace(r[|r| - 1]))
  {
    TrimEndKeepsStart(TrimStart(s));
    TrimEnd(TrimStart(s))
  }

  /** The trimmed string is a slice of the original with only white space
      before and after it. */
  lemma TrimIsSliceWithinWhiteSpace(s: string)
    ensures exists k :: TrimmedAt(s, Trim(s), k)
  {
    var t := TrimStart(s);
    assert TrimmedAt(s, Trim(s), |s| - |t|);
  }

  lemma TrimEndKeepsStart(s: string)
    requires s == [] || !IsWhiteSpace(s[0])
    ensures var r := TrimEnd(s); r == [] || !IsWhiteSpace(r[0])
  {
  }

  /** Trimming twice is trimming once. */
  lemma {:induction false} TrimIdempotent(s: string)
    ensures Trim(Trim(s)) == Trim(s)
  {
    var t := TrimStart(s);
    var r := TrimEnd(t);
    TrimEndKeepsStart(t);
    assert TrimStart(r) == r;
    assert TrimEnd(r) == r;
  }

  /** The trimmed string is empty exactly when every character is white space. */
  lemma {:induction false} TrimEmptyIffAllWhiteSpace(s: string)
    ensures Trim(s) == "" <==> forall i :: 0 <= i < |s| ==> IsWhiteSpace(s[i])
  {
    var t := TrimStart(s);
    if Trim(s) == "" {
      assert t == [];
    } else {
      assert t != [];
      assert s[|s| - |t|] == t[0];
    }
  }

  /** JavaScript's `length`: the number of UTF-16 code units. */
  function Utf16Length(s: string): (n: nat)
    ensures |s| <= n <= 2 * |s|
    ensures (forall i :: 0 <= i < |s| ==> s[i] as int <= 0xFFFF) ==> n == |s|
  {
    if s == [] then 0
    else (if s[0] as int > 0xFFFF then 2 else 1) + Utf16Length(s[1..])
  }

  /** A character of the Basic Multilingual Plane is one code unit; any
      other is a surrogate pair, two code units. */
  lemma Utf16LengthOfChar(c: char)
    ensures Utf16Length([c]) == if c as int <= 0xFFFF then 1 else 2
  {
    assert [c][1..] == [];
  }

  /** The length of a concatenation is the sum of the lengths. */
  lemma {:induction false} Utf16LengthAppend(a: string, b: string)
    ensures Utf16Length(a + b) == Utf16Length(a) + Utf16Length(b)
  {
    if a == [] {
      assert a + b == b;
    } else {
      assert (a + b)[1..] == a[1..] + b;
      Utf16LengthAppend(a[1..], b);
    }
  }

  // ---------------------------------------------------------------------
  // parseInt

  predicate IsDigit(c: char, radix: int) {
    if radix == 16 then
      ('0' <= c <= '9') || ('a' <= c <= 'f') || ('A' <= c <= 'F')
    else
      '0' <= c <= '9'
  }

  function DigitValue(c: char): int {
    if '0' <= c <= '9' then c as int - '0' as int
    else if 'a' <= c <= 'f' then c as int - 'a' as int + 10
    else if 'A' <= c <= 'F' then c as int - 'A' as int + 10
    else 0
  }

  /** The longest prefix of `s` made of radix-`radix` digits. */
  function LeadingDigits(s: string, radix: int): (p: string)
    ensures p <= s
    ensures forall i :: 0 <= i < |p| ==> IsDigit(p[i], radix)
    ensures |p| < |s| ==> !IsDigit(s[|p|], radix)
  {
    if s != [] && IsDigit(s[0], radix) then [s[0]] + LeadingDigits(s[1..], radix) else []
  }

  /** The number a string of decimal digits denotes. */
  function DecimalValue(digits: string): nat {
    if digits == [] then 0
    else
      var d := DigitValue(digits[|digits| - 1]);
      DecimalValue(digits[..|digits| - 1]) * 10 + (if d < 0 then 0 else d)
  }

  /** The number a string of hexadecimal digits denotes. */
  function HexValue(digits: string): nat {
    if digits == [] then 0
    else
      var d := DigitValue(digits[|digits| - 1]);
      HexValue(digits[..|digits| - 1]) * 16 + (if d < 0 then 0 else d)
  }

  /** The text after an optional leading sign. */
  function DropSign(t: string): string {
    if t != [] && (t[0] == '-' || t[0] == '+') then t[1..] else t
  }

  predicate HexPrefixed(u: string) {
    |u| >= 2 && u[0] == '0' && (u[1] == 'x' || u[1] == 'X')
  }

  /** `parseInt(s)` with no radix argument: skip leading white space, take an
      optional sign, then read the magnitude, negated after a minus sign.
      `None` stands for NaN. */
  function ParseInt(s: string): Option<int>
  {
    var t := TrimStart(s);
    if t != [] && t[0] == '-' then
      match ParseMagnitude(t[1..])
      case None => None
      case Some(m) => Some(-m)
    else if t != [] && t[0] == '+' then ParseMagnitude(t[1..])
    else ParseMagnitude(t)
  }

  /** Hexadecimal digits after a "0x" or "0X" prefix, decimal digits
      otherwise, up to the first non-digit; NaN when there is no digit. */
  function ParseMagnitude(u: string): Option<int> {
    if HexPrefixed(u) then ParseDigits(u[2..], 16)
    else ParseDigits(u, 10)
  }

  function ParseDigits(u: string, radix: nat): Option<int> {
    var digits := LeadingDigits(u, radix);
    if digits == [] then None
    else if radix == 16 then Some(HexValue(digits))
    else Some(DecimalValue(digits))
  }

  /** `parseInt(v)` on any value, which converts `v` with `String` first.
      Stated case by case: the renderings of undefined, null, the booleans
      and plain objects start with a letter or "[" and so give NaN, and an
      integer reads back as itself (ParseValueIsParseIntOfString). */
  function ParseValue(v: JsValue): (r: Option<int>)
    ensures r.Some? ==> v.Num? || v.Str? || v.Arr?
  {
    match v
    case Undefined => None
    case Null => None
    case Bool(_) => None
    case Num(n) => Some(n)
    case Str(s) => ParseInt(s)
    case Arr(_) => ParseInt(ToStr(v))
    case Obj => None
  }


  /** What `parseInt` reads: after the leading white space and an optional
      sign, the longest run of hexadecimal digits behind a "0x" or "0X"
      prefix, else the longest run of decimal digits. No digit there gives
      NaN; otherwise the result is the digits' value, negated after a minus
      sign. */
  lemma ParseIntReadsSignedDigits(s: string)
    ensures var t := TrimStart(s); var u := DropSign(t);
      var digits := if HexPrefixed(u) then LeadingDigits(u[2..], 16) else LeadingDigits(u, 10);
      && (ParseInt(s).None? <==> digits == [])
      && (ParseInt(s).Some? ==>
            var m := if HexPrefixed(u) then HexValue(digits) else DecimalValue(digits);
            ParseInt(s).value == if t != [] && t[0] == '-' then -m else m)
  {
    var t := TrimStart(s);
    var u := DropSign(t);
    var signed := t != [] && (t[0] == '-' || t[0] == '+');
    assert u == if signed then t[1..] else t;
    var m := ParseMagnitude(u);
    assert m.None? <==> (if HexPrefixed(u) then LeadingDigits(u[2..], 16) else LeadingDigits(u, 10)) == [];
    if t != [] && t[0] == '-' {
      assert ParseInt(s) == if m.None? then None else Some(-m.value);
    } else {
      assert ParseInt(s) == m;
    }
  }

  lemma {:induction false} LeadingDigitsOfDigits(s: string, radix: int)
    requires forall i :: 0 <= i < |s| ==> IsDigit(s[i], radix)
    ensures LeadingDigits(s, radix) == s
  {
    if s != [] {
      assert IsDigit(s[0], radix);
      LeadingDigitsOfDigits(s[1..], radix);
    }
  }

  lemma TrimStartNoLeadingSpace(s: string)
    requires s == [] || !IsWhiteSpace(s[0])
    ensures TrimStart(s) == s
  {
  }

  /** Decimal digits with no leading zero are read as their value. */
  lemma ParseMagnitudeOfDigits(digits: string)
    requires |digits| >= 1 && (digits[0] == '0' ==> |digits| == 1)
    requires forall i :: 0 <= i < |digits| ==> IsDigit(digits[i], 10)
    ensures ParseMagnitude(digits) == Some(DecimalValue(digits))
  {
    LeadingDigitsOfDigits(digits, 10);
  }

  lemma ParseUnsignedDigits(digits: string)
    requires |digits| >= 1 && (digits[0] == '0' ==> |digits| == 1)
    requires forall i :: 0 <= i < |digits| ==> IsDigit(digits[i], 10)
    ensures ParseInt(digits) == Some(DecimalValue(digits))
  {
    assert !IsWhiteSpace(digits[0]) by {
      assert '0' <= digits[0] <= '9';
    }
    TrimStartNoLeadingSpace(digits);
    ParseMagnitudeOfDigits(digits);
  }

  lemma ParseMinus(s: string)
    requires s != [] && s[0] == '-'
    ensures ParseInt(s) == match ParseMagnitude(s[1..]) case None => None case Some(m) => Some(-m)
  {
    assert !IsWhiteSpace(s[0]);
    TrimStartNoLeadingSpace(s);
  }

  lemma ParseNegativeDigits(s: string)
    requires |s| >= 2 && s[0] == '-' && (s[1] == '0' ==> |s| == 2)
    requires forall i :: 1 <= i < |s| ==> IsDigit(s[i], 10)
    ensures var v: int := DecimalValue(s[1..]); ParseInt(s) == Some(-v)
  {
    ParseMinus(s);
    ParseMagnitudeOfDigits(s[1..]);
  }

  /** `parseInt` reads back the decimal rendering of every integer. */
  lemma ParseIntDecimal(n: int)
    ensures ParseInt(IntToDecimal(n)) == Some(n)
  {
    if n < 0 {
      var s := IntToDecimal(n);
      assert s[1..] == NatToDecimal(-n);
      ParseNegativeDigits(s);
    } else {
      ParseUnsignedDigits(NatToDecimal(n));
    }
  }

  lemma {:induction false} LeadingDigitsOfDigitsThen(d: string, rest: string)
    requires forall i :: 0 <= i < |d| ==> IsDigit(d[i], 10)
    requires rest == [] || !IsDigit(rest[0], 10)
    ensures LeadingDigits(d + rest, 10) == d
  {
    if d == [] {
      assert d + rest == rest;
    } else {
      assert (d + rest)[1..] == d[1..] + rest;
      LeadingDigitsOfDigitsThen(d[1..], rest);
    }
  }

  /** `parseInt` reads a numeral back even when text follows it, as long
      as that text does not start with a digit or an "x". */
  lemma ParseNumeralThen(n: nat, rest: string)
    requires rest == [] || (!('0' <= rest[0] <= '9') && rest[0] != 'x' && rest[0] != 'X')
    ensures ParseInt(NatToDecimal(n) + rest) == Some(n)
  {
    var d := NatToDecimal(n);
    var s := d + rest;
    assert s[0] == d[0];
    assert !IsWhiteSpace(s[0]) by {
      assert '0' <= d[0] <= '9';
    }
    TrimStartNoLeadingSpace(s);
    assert s[0] != '-' && s[0] != '+';
    assert ParseInt(s) == ParseMagnitude(s);
    assert !HexPrefixed(s) by {
      if |s| >= 2 && s[0] == '0' {
        assert |d| == 1 && s[1] == rest[0];
      }
    }
    LeadingDigitsOfDigitsThen(d, rest);
    assert ParseMagnitude(s) == ParseDigits(s, 10) == Some(DecimalValue(d));
  }

  /** A string whose first character is neither white space, a sign nor a
      digit gives NaN. */
  lemma ParseIntNoDigit(s: string)
    requires s != [] && !IsWhiteSpace(s[0]) && s[0] != '-' && s[0] != '+' && !('0' <= s[0] <= '9')
    ensures ParseInt(s) == None
  {
    TrimStartNoLeadingSpace(s);
    assert !(|s| >= 2 && s[0] == '0');
    assert LeadingDigits(s, 10) == [];
  }

  /** The case-by-case `ParseValue` is `parseInt(String(v))`. */
  lemma ParseValueIsParseIntOfString(v: JsValue)
    ensures ParseValue(v) == ParseInt(ToStr(v))
  {
    match v
    case Undefined => ParseIntNoDigit("undefined");
    case Null => ParseIntNoDigit("null");
    case Bool(b) => ParseIntNoDigit(if b then "true" else "false");
    case Num(n) => ParseIntDecimal(n);
    case Str(_) =>
    case Arr(_) =>
    case Obj => ParseIntNoDigit("[object Object]");
  }
}
