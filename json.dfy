/** JSON values as the application exchanges them, and the JavaScript
    conversions applied to them. A client record is a JSON object, modelled
    as a map from field name to value; the order of an object's keys is not
    modelled. Numbers are exact rationals (`real`), not binary doubles. */
module Json {
  import opened JsText

  datatype Option<+T> = None | Some(value: T)

  /** A JavaScript value that may be `undefined`, `null`, or something. */
  datatype JsOptional<+T> = Undefined | Null | Defined(value: T)

  datatype Json =
    | JNull
    | JBool(b: bool)
    | JNum(n: real)
    | JStr(s: string)
    | JArr(items: seq<Json>)
    | JObj(fields: map<string, Json>)

  /** One client record: a JSON object. */
  type Record = map<string, Json>

  /** The result of JavaScript's `Number(v)` where the model can say it:
      a finite number or `NaN`. */
  datatype JsNumber = Finite(x: real) | NaN

  /** Whether a string is a non-empty run of ASCII digits. */
  predicate IsDigits(s: string) {
    s != [] && AllDigits(s)
  }

  /** The position of the first `a` or `b` in `s`, or `|s|` when there is none. */
  function IndexOfEither(s: string, a: char, b: char): (k: nat)
    ensures k <= |s|
    ensures forall j :: 0 <= j < k ==> s[j] != a && s[j] != b
    ensures k < |s| ==> s[k] == a || s[k] == b
  {
    if s == [] || s[0] == a || s[0] == b then 0 else 1 + IndexOfEither(s[1..], a, b)
  }

  /** The value of the digits after a point: `0.d1d2...`. */
  function FractionValue(fraction: string): (r: real)
    requires AllDigits(fraction)
    ensures 0.0 <= r < 1.0
  {
    if fraction == [] then 0.0
    else ((fraction[0] as int - '0' as int) as real + FractionValue(fraction[1..])) / 10.0
  }

  /** The value of `whole.fraction`, both parts decimal digits. */
  function PointValue(whole: string, fraction: string): (r: real)
    requires AllDigits(whole) && AllDigits(fraction)
    ensures DigitsValue(whole) as real <= r < DigitsValue(whole) as real + 1.0
  {
    DigitsValue(whole) as real + FractionValue(fraction)
  }

  /** `digits [. digits]` with at least one digit on some side of the point. */
  function MantissaValue(m: string): (r: Option<real>)
  {
    var p := IndexOfEither(m, '.', '.');
    var whole := m[..p];
    var fraction := if p < |m| then m[p + 1..] else "";
    if AllDigits(whole) && AllDigits(fraction) && (whole != [] || fraction != []) then
      Some(PointValue(whole, fraction))
    else None
  }

  /** The exponent after `e`: an optional sign and at least one digit. */
  function ExponentValue(e: string): Option<int> {
    var signed := e != [] && (e[0] == '+' || e[0] == '-');
    var digits := if signed then e[1..] else e;
    if IsDigits(digits) then
      var d: int := DigitsValue(digits);
      Some(if signed && e[0] == '-' then -d else d)
    else None
  }

  /** `x` times ten to the power `k`. */
  function Scale(x: real, k: int): real
    decreases if k >= 0 then k else -k
  {
    if k == 0 then x
    else if k > 0 then Scale(x, k - 1) * 10.0
    else Scale(x, k + 1) / 10.0
  }

  /** A decimal literal without sign: a mantissa and an optional exponent. */
  function UnsignedValue(s: string): Option<real> {
    var e := IndexOfEither(s, 'e', 'E');
    var m := MantissaValue(s[..e]);
    if m.None? then None
    else if e == |s| then m
    else match ExponentValue(s[e + 1..])
      case None => None
      case Some(k) => Some(Scale(m.value, k))
  }

  /** The StrDecimalLiteral grammar of `Number(text)`: an optional sign, then
      an unsigned decimal literal. */
  function DecimalValue(t: string): Option<real> {
    var signed := t != [] && (t[0] == '-' || t[0] == '+');
    var u := UnsignedValue(if signed then t[1..] else t);
    if u.None? then None else Some(if signed && t[0] == '-' then -u.value else u.value)
  }

  /** `Number(v)` for the values a record field can hold: `undefined` (a
      missing field) is `NaN`, `null` and a blank string are 0, a string
      holding a decimal literal (surrounding whitespace allowed) is its
      value, `true` and `false` are 1 and 0; any other string and any
      container is `NaN`. */
  function ToNumber(v: Option<Json>): (r: JsNumber)
    ensures v == None ==> r == NaN
    ensures v == Some(JNull) ==> r == Finite(0.0)
    ensures forall x :: v == Some(JNum(x)) ==> r == Finite(x)
    ensures forall s :: v == Some(JStr(s)) && IsBlank(s) ==> r == Finite(0.0)
  {
    match v
    case None => NaN
    case Some(JNull) => Finite(0.0)
    case Some(JBool(b)) => Finite(if b then 1.0 else 0.0)
    case Some(JNum(x)) => Finite(x)
    case Some(JStr(s)) =>
      var t := Trim(s);
      if t == "" then Finite(0.0)
      else
        var x := DecimalValue(t);
        if x.Some? then Finite(x.value) else NaN
    case Some(_) => NaN
  }

  /** A `-` in front of an unsigned literal negates its value. */
  lemma MinusValue(body: string)
    requires body != [] && body[0] != '-' && body[0] != '+'
    ensures var u := UnsignedValue(body);
            DecimalValue("-" + body) == if u.None? then None else Some(-u.value)
  {
    assert ("-" + body)[1..] == body;
  }

  /** A `+` in front of an unsigned literal leaves its value. */
  lemma PlusValue(body: string)
    requires body != [] && body[0] != '-' && body[0] != '+'
    ensures DecimalValue("+" + body) == UnsignedValue(body)
  {
    assert ("+" + body)[1..] == body;
  }

  /** The text a decimal literal gives, from the trimmed text on. */
  lemma LiteralNumber(s: string)
    requires s != [] && !IsWhitespace(s[0]) && !IsWhitespace(s[|s| - 1])
    requires DecimalValue(s).Some?
    ensures ToNumber(Some(JStr(s))) == Finite(DecimalValue(s).value)
  {
    assert Trim(s) == s;
  }

  /** An unsigned literal with no blanks around it converts to its value. */
  lemma BareLiteral(body: string, x: real)
    requires body != [] && body[0] != '-' && body[0] != '+'
    requires !IsWhitespace(body[0]) && !IsWhitespace(body[|body| - 1])
    requires UnsignedValue(body) == Some(x)
    ensures ToNumber(Some(JStr(body))) == Finite(x)
  {
    LiteralNumber(body);
  }

  /** After a `-`, it converts to its value negated. */
  lemma MinusLiteral(body: string, x: real)
    requires body != [] && body[0] != '-' && body[0] != '+'
    requires !IsWhitespace(body[|body| - 1])
    requires UnsignedValue(body) == Some(x)
    ensures ToNumber(Some(JStr("-" + body))) == Finite(-x)
  {
    MinusDecimal(body, x);
    SignedEnds("-", body);
    LiteralNumber("-" + body);
  }

  lemma MinusDecimal(body: string, x: real)
    requires body != [] && body[0] != '-' && body[0] != '+'
    requires UnsignedValue(body) == Some(x)
    ensures DecimalValue("-" + body) == Some(-x)
  {
    MinusValue(body);
  }

  /** A sign in front of text that ends in a non-blank keeps both ends non-blank. */
  lemma SignedEnds(sign: string, body: string)
    requires sign == "-" || sign == "+"
    requires body != [] && !IsWhitespace(body[|body| - 1])
    ensures sign + body != [] && !IsWhitespace((sign + body)[0])
    ensures !IsWhitespace((sign + body)[|sign + body| - 1])
  {
    assert (sign + body)[0] == sign[0];
    assert (sign + body)[|sign + body| - 1] == body[|body| - 1];
  }

  /** After a `+`, it converts to its value. */
  lemma PlusLiteral(body: string, x: real)
    requires body != [] && body[0] != '-' && body[0] != '+'
    requires !IsWhitespace(body[|body| - 1])
    requires UnsignedValue(body) == Some(x)
    ensures ToNumber(Some(JStr("+" + body))) == Finite(x)
  {
    PlusValue(body);
    SignedEnds("+", body);
    LiteralNumber("+" + body);
  }

  lemma UnsignedInteger(digits: string)
    requires IsDigits(digits)
    ensures UnsignedValue(digits) == Some(DigitsValue(digits) as real)
  {
    NoExponent(digits);
    MantissaInteger(digits);
  }

  lemma MantissaInteger(digits: string)
    requires IsDigits(digits)
    ensures MantissaValue(digits) == Some(DigitsValue(digits) as real)
  {
    IndexOfAbsent(digits, '.', '.');
    assert digits[..|digits|] == digits;
    assert PointValue(digits, "") == DigitsValue(digits) as real;
  }

  lemma IndexOfAbsent(s: string, a: char, b: char)
    requires forall j :: 0 <= j < |s| ==> s[j] != a && s[j] != b
    ensures IndexOfEither(s, a, b) == |s|
  {
  }

  lemma IndexOfFirst(s: string, a: char, p: nat)
    requires p < |s| && s[p] == a
    requires forall j :: 0 <= j < p ==> s[j] != a
    ensures IndexOfEither(s, a, a) == p
  {
  }

  lemma PointParts(whole: string, fraction: string, body: string)
    requires AllDigits(whole) && AllDigits(fraction)
    requires body == whole + "." + fraction
    ensures forall j :: 0 <= j < |body| ==> body[j] != 'e' && body[j] != 'E'
    ensures IndexOfEither(body, '.', '.') == |whole|
    ensures body[..|whole|] == whole && body[|whole| + 1..] == fraction
  {
    forall j | 0 <= j < |body|
      ensures body[j] != 'e' && body[j] != 'E'
    {
      if j < |whole| {
        assert body[j] == whole[j];
      } else if j > |whole| {
        assert body[j] == fraction[j - |whole| - 1];
      }
    }
    IndexOfFirst(body, '.', |whole|);
  }

  lemma NoExponent(s: string)
    requires forall j :: 0 <= j < |s| ==> s[j] != 'e' && s[j] != 'E'
    ensures UnsignedValue(s) == MantissaValue(s)
  {
    IndexOfAbsent(s, 'e', 'E');
    assert s[..|s|] == s;
  }

  lemma MantissaPoint(whole: string, fraction: string, body: string)
    requires AllDigits(whole) && AllDigits(fraction) && (whole != [] || fraction != [])
    requires IndexOfEither(body, '.', '.') == |whole|
    requires |body| == |whole| + 1 + |fraction|
    requires body[..|whole|] == whole && body[|whole| + 1..] == fraction
    ensures MantissaValue(body) == Some(PointValue(whole, fraction))
  {
  }

  lemma UnsignedPoint(whole: string, fraction: string)
    requires AllDigits(whole) && AllDigits(fraction) && (whole != [] || fraction != [])
    ensures UnsignedValue(whole + "." + fraction) == Some(PointValue(whole, fraction))
  {
    var body := whole + "." + fraction;
    PointParts(whole, fraction, body);
    NoExponent(body);
    MantissaPoint(whole, fraction, body);
  }

  lemma PointEnds(whole: string, fraction: string, body: string)
    requires AllDigits(whole) && AllDigits(fraction)
    requires body == whole + "." + fraction
    ensures body != [] && body[0] != '-' && body[0] != '+'
    ensures !IsWhitespace(body[0]) && !IsWhitespace(body[|body| - 1])
  {
    if whole == [] {
      assert body[0] == '.';
    } else {
      assert body[0] == whole[0];
    }
    if fraction == [] {
      assert body[|body| - 1] == '.';
    } else {
      assert body[|body| - 1] == fraction[|fraction| - 1];
    }
  }

  /** A run of digits starts with no sign and has no blank at either end. */
  lemma DigitsEnds(digits: string)
    requires IsDigits(digits)
    ensures digits != [] && digits[0] != '-' && digits[0] != '+'
    ensures !IsWhitespace(digits[0]) && !IsWhitespace(digits[|digits| - 1])
  {
    assert '0' <= digits[0] <= '9' && '0' <= digits[|digits| - 1] <= '9';
  }

  /** The text of a whole number converts to that number. */
  lemma IntegerText(digits: string)
    requires IsDigits(digits)
    ensures ToNumber(Some(JStr(digits))) == Finite(DigitsValue(digits) as real)
  {
    DigitsEnds(digits);
    UnsignedInteger(digits);
    BareLiteral(digits, DigitsValue(digits) as real);
  }

  /** After a `-`, the text of a whole number converts to the number negated. */
  lemma {:induction false} NegativeIntegerText(digits: string)
    requires IsDigits(digits)
    ensures ToNumber(Some(JStr("-" + digits))) == Finite(-(DigitsValue(digits) as real))
  {
    var n := DigitsValue(digits);
    assert UnsignedValue(digits) == Some(n as real) by {
      UnsignedInteger(digits);
    }
    NegativeWhole(digits, n);
  }

  lemma {:induction false} NegativeWhole(digits: string, n: nat)
    requires IsDigits(digits) && UnsignedValue(digits) == Some(n as real)
    ensures ToNumber(Some(JStr("-" + digits))) == Finite(-(n as real))
  {
    DigitsEnds(digits);
    MinusLiteral(digits, n as real);
  }

  /** After a `+`, the text of a whole number converts to the number. */
  lemma PlusIntegerText(digits: string)
    requires IsDigits(digits)
    ensures ToNumber(Some(JStr("+" + digits))) == Finite(DigitsValue(digits) as real)
  {
    DigitsEnds(digits);
    UnsignedInteger(digits);
    PlusLiteral(digits, DigitsValue(digits) as real);
  }

  /** The text of a decimal with a point converts to its value. */
  lemma DecimalText(whole: string, fraction: string)
    requires AllDigits(whole) && AllDigits(fraction) && (whole != [] || fraction != [])
    ensures ToNumber(Some(JStr(whole + "." + fraction))) == Finite(PointValue(whole, fraction))
  {
    var body := whole + "." + fraction;
    UnsignedPoint(whole, fraction);
    PointEnds(whole, fraction, body);
    BareLiteral(body, PointValue(whole, fraction));
  }

  lemma ExponentParts(m: string, k: string, body: string)
    requires IsDigits(m) && IsDigits(k)
    requires body == m + "e" + k
    ensures IndexOfEither(body, 'e', 'E') == |m|
    ensures body[..|m|] == m && body[|m| + 1..] == k
  {
    forall j | 0 <= j < |m|
      ensures body[j] != 'e' && body[j] != 'E'
    {
      assert body[j] == m[j];
    }
    assert body[|m|] == 'e';
  }

  lemma ExponentDigits(k: string)
    requires IsDigits(k)
    ensures ExponentValue(k) == Some(DigitsValue(k) as int)
  {
    assert '0' <= k[0] <= '9';
  }

  /** Digits, an `e` and digits denote the mantissa scaled by ten to the exponent. */
  lemma UnsignedExponent(m: string, k: string)
    requires IsDigits(m) && IsDigits(k)
    ensures UnsignedValue(m + "e" + k) == Some(Scale(DigitsValue(m) as real, DigitsValue(k)))
  {
    var body := m + "e" + k;
    ExponentParts(m, k, body);
    MantissaInteger(m);
    ExponentDigits(k);
  }

  /** The text of a whole number with an exponent converts to its value. */
  lemma ExponentText(m: string, k: string)
    requires IsDigits(m) && IsDigits(k)
    ensures ToNumber(Some(JStr(m + "e" + k))) == Finite(Scale(DigitsValue(m) as real, DigitsValue(k)))
  {
    var body := m + "e" + k;
    DigitsEnds(m);
    DigitsEnds(k);
    assert body[0] == m[0] && body[|body| - 1] == k[|k| - 1];
    UnsignedExponent(m, k);
    BareLiteral(body, Scale(DigitsValue(m) as real, DigitsValue(k)));
  }

  /** JavaScript's `<` and `>` against a number: false whenever `NaN` is involved. */
  predicate LessThan(a: JsNumber, bound: real) {
    a.Finite? && a.x < bound
  }

  predicate GreaterThan(a: JsNumber, bound: real) {
    a.Finite? && a.x > bound
  }

  /** A value read from a record: `record[key]`, `undefined` when absent. */
  function Get(r: Record, key: string): (v: Option<Json>)
    ensures v.Some? <==> key in r
    ensures key in r ==> v.value == r[key]
  {
    if key in r then Some(r[key]) else None
  }
}
