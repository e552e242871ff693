/** The slice of JavaScript semantics the backend and the front end rely on: the values a
    JSON request or reply body can hold, truthiness, optional property access, `||` and `??`,
    the String() and Number() coercions, String.prototype.toUpperCase and trim,
    Array.prototype.join and find, and JSON.stringify of primitive values.

    What depends on IEEE-754 formatting or on Unicode tables is not spelled out: it is a field
    of `Runtime`, an explicit parameter standing for the JavaScript engine. */
module Js {
  import opened Wrappers

  /** A JavaScript number. `Finite` holds the exact (double-representable) value; -0 is not
      distinguished from 0. */
  datatype JsNumber = NaN | PosInfinity | NegInfinity | Finite(value: real)

  /** A JavaScript value as it arrives in a parsed JSON body (plus `undefined`). Objects are
      plain: the only properties are their own keys. */
  datatype JsValue =
    | Undefined
    | Null
    | Bool(b: bool)
    | Num(n: JsNumber)
    | Str(s: string)
    | Arr(items: seq<JsValue>)
    | Obj(fields: map<string, JsValue>)

  /** The engine-dependent parts of the coercions, as opaque functions. */
  datatype Runtime = Runtime(
    // Number::toString of a finite value that is not an integer below 10^21
    formatNumber: real -> string,
    // StringToNumber of trimmed, non-empty text that is not a run of at most 2^53 decimal digits
    parseNumber: string -> JsNumber,
    // JSON.stringify of an array or an object
    stringifyComposite: JsValue -> string,
    // toUpperCase of one non-ASCII code point (full Unicode case mapping; may grow, as for 'ß')
    upperCase: char -> string,
    // the engine's message for a TypeError raised by the named operation
    typeErrorMessage: string -> string)

  /** What the modelled code can throw. */
  datatype Thrown =
    // a method called on a value that lacks it, or a destructuring of null
    | TypeError(operation: string)
    // the Error the backend builds for a non-2xx reply (an Error whose status and detail
    // properties are set before it is thrown)
    | RequestFailed(path: string, status: int, detail: JsValue)
    // the HTTP client's rejection when no response arrived (connection refused, timeout)
    | NetworkError(message: string)

  // ---------------------------------------------------------------------------------------
  // Truthiness, property access, || and ??

  predicate Truthy(v: JsValue) {
    match v
    case Undefined => false
    case Null => false
    case Bool(b) => b
    case Num(n) => n != NaN && n != Finite(0.0)
    case Str(s) => s != ""
    case Arr(_) => true
    case Obj(_) => true
  }

  predicate Nullish(v: JsValue) {
    v.Undefined? || v.Null?
  }

  /** `v?.key`: a missing key, and any key of a non-object, reads as undefined. */
  function Get(v: JsValue, key: string): JsValue {
    if v.Obj? && key in v.fields then v.fields[key] else Undefined
  }

  /** `a || b` */
  function Or(a: JsValue, b: JsValue): (r: JsValue)
    ensures Truthy(b) ==> Truthy(r)
  {
    if Truthy(a) then a else b
  }

  /** `a ?? b` */
  function Coalesce(a: JsValue, b: JsValue): (r: JsValue)
    ensures !Nullish(b) ==> !Nullish(r)
  {
    if Nullish(a) then b else a
  }

  /** Number.isInteger */
  predicate IsInteger(v: JsValue) {
    v.Num? && v.n.Finite? && v.n.value.Floor as real == v.n.value
  }

  // ---------------------------------------------------------------------------------------
  // Decimal digits

  predicate IsDigit(c: char) {
    '0' <= c <= '9'
  }

  predicate AllDigits(s: string) {
    forall i :: 0 <= i < |s| ==> IsDigit(s[i])
  }

  function DigitChar(d: nat): (c: char)
    requires d < 10
    ensures IsDigit(c) && c as int - '0' as int == d
  {
    ('0' as int + d) as char
  }

  /** The shortest decimal numeral of n. */
  function NatToDecimal(n: nat): (s: string)
    ensures |s| > 0 && AllDigits(s)
    ensures |s| > 1 ==> s[0] != '0'
  {
    if n < 10 then [DigitChar(n)] else NatToDecimal(n / 10) + [DigitChar(n % 10)]
  }

  /** The value of a numeral. */
  function DecimalValue(s: string): nat
    requires AllDigits(s)
  {
    if s == [] then 0 else DecimalValue(s[..|s| - 1]) * 10 + (s[|s| - 1] as int - '0' as int)
  }

  lemma {:induction false} DecimalRoundTrip(n: nat)
    ensures DecimalValue(NatToDecimal(n)) == n
  {
    if n >= 10 {
      var s := NatToDecimal(n);
      assert s[..|s| - 1] == NatToDecimal(n / 10);
      DecimalRoundTrip(n / 10);
    }
  }

  function IntToDecimal(i: int): string {
    if i < 0 then "-" + NatToDecimal(-i) else NatToDecimal(i)
  }

  // ---------------------------------------------------------------------------------------
  // String() and Number()

  const MaxPlainInteger: real := 1000000000000000000000.0  // 10^21
  const MaxExactInteger: nat := 9007199254740992            // 2^53

  /** Number::toString: integers below 10^21 print as plain numerals. */
  function NumberToString(rt: Runtime, n: JsNumber): string {
    match n
    case NaN => "NaN"
    case PosInfinity => "Infinity"
    case NegInfinity => "-Infinity"
    case Finite(r) =>
      if r.Floor as real == r && -MaxPlainInteger < r < MaxPlainInteger then IntToDecimal(r.Floor)
      else rt.formatNumber(r)
  }

  /** An object of a parsed JSON body whose own `toString` property shadows the inherited
      method. The property is never callable, so converting the object to a primitive finds no
      method that gives one (its `valueOf` gives the object itself) and throws a TypeError. */
  predicate HasOwnToString(v: JsValue) {
    v.Obj? && "toString" in v.fields
  }

  /** `String(v)`; an array prints as its elements joined by commas, with null and
      undefined elements printing as nothing. Only an object with its own `toString`, or an
      array holding one at any depth, throws. */
  function ToText(rt: Runtime, v: JsValue): (r: Result<string, Thrown>)
    ensures !v.Arr? ==> (r.Failure? <==> HasOwnToString(v))
    decreases v, 1, 0
  {
    match v
    case Undefined => Success("undefined")
    case Null => Success("null")
    case Bool(b) => Success(if b then "true" else "false")
    case Num(n) => Success(NumberToString(rt, n))
    case Str(s) => Success(s)
    case Arr(items) => ElementsText(rt, v, |items|)
    case Obj(fields) => if "toString" in fields then Failure(TypeError("toPrimitive")) else Success("[object Object]")
  }

  /** The first n elements of an array, as Array.prototype.toString prints them, left to
      right; the first element that throws stops it. */
  function ElementsText(rt: Runtime, whole: JsValue, n: nat): Result<string, Thrown>
    requires whole.Arr? && n <= |whole.items|
    decreases whole, 0, n
  {
    if n == 0 then Success("")
    else
      match ElementsText(rt, whole, n - 1)
      case Failure(err) => Failure(err)
      case Success(front) =>
        var e := whole.items[n - 1];
        match ElementText(rt, e)
        case Failure(err) => Failure(err)
        case Success(t) => Success(if n == 1 then t else front + "," + t)
  }

  /** How one element of an array prints inside its String() form. */
  function ElementText(rt: Runtime, e: JsValue): Result<string, Thrown>
    decreases e, 2
  {
    if Nullish(e) then Success("") else ToText(rt, e)
  }

  /** The element texts of an array, in order; the first element that throws stops it. */
  function ElementTexts(rt: Runtime, items: seq<JsValue>): (r: Result<seq<string>, Thrown>)
    ensures r.Failure? <==> exists i :: 0 <= i < |items| && ElementText(rt, items[i]).Failure?
    ensures r.Success? ==> |r.value| == |items|
    ensures r.Success? ==> forall i :: 0 <= i < |items| ==> ElementText(rt, items[i]) == Success(r.value[i])
  {
    if items == [] then Success([])
    else
      var front := items[..|items| - 1];
      assert forall i :: 0 <= i < |front| ==> front[i] == items[i];
      match ElementTexts(rt, front)
      case Failure(err) => Failure(err)
      case Success(texts) =>
        match ElementText(rt, items[|items| - 1])
        case Failure(err) => Failure(err)
        case Success(t) => Success(texts + [t])
  }

  /** String() of any array: it throws exactly when one of its elements does, and otherwise
      it is the element texts joined by commas. */
  lemma ArrayTextIsJoin(rt: Runtime, items: seq<JsValue>)
    ensures ToText(rt, Arr(items)).Failure? <==> ElementTexts(rt, items).Failure?
    ensures ElementTexts(rt, items).Success? ==>
              ToText(rt, Arr(items)) == Success(Join(ElementTexts(rt, items).value, ","))
  {
    assert items[..|items|] == items;
    PrefixTextIsJoin(rt, Arr(items), |items|);
  }

  lemma {:induction false} PrefixTextIsJoin(rt: Runtime, whole: JsValue, n: nat)
    requires whole.Arr? && n <= |whole.items|
    ensures ElementsText(rt, whole, n).Failure? <==> ElementTexts(rt, whole.items[..n]).Failure?
    ensures ElementTexts(rt, whole.items[..n]).Success? ==>
              ElementsText(rt, whole, n) == Success(Join(ElementTexts(rt, whole.items[..n]).value, ","))
    decreases n
  {
    if n > 0 {
      var items := whole.items[..n];
      assert items[..n - 1] == whole.items[..n - 1];
      assert items[n - 1] == whole.items[n - 1];
      PrefixTextIsJoin(rt, whole, n - 1);
      if ElementTexts(rt, whole.items[..n]).Success? && n > 1 {
        JoinSnoc(ElementTexts(rt, whole.items[..n - 1]).value, ElementText(rt, whole.items[n - 1]).value, ",");
      }
    }
  }

  /** StringToNumber: surrounding white space is ignored, empty text is 0, and a run of
      decimal digits that a double holds exactly is its value. */
  function StringToNumber(rt: Runtime, s: string): JsNumber {
    var t := Trim(s);
    if t == "" then Finite(0.0)
    else if AllDigits(t) && DecimalValue(t) <= MaxExactInteger then Finite(DecimalValue(t) as real)
    else rt.parseNumber(t)
  }

  function TextToNumber(rt: Runtime, text: Result<string, Thrown>): Result<JsNumber, Thrown> {
    match text
    case Failure(err) => Failure(err)
    case Success(t) => Success(StringToNumber(rt, t))
  }

  /** `Number(v)`; an array or an object is converted through its String() form, and throws
      when that does. */
  function ToNumber(rt: Runtime, v: JsValue): (r: Result<JsNumber, Thrown>)
    ensures r.Failure? <==> ToText(rt, v).Failure?
    ensures v.Str? ==> r == Success(StringToNumber(rt, v.s))
    ensures (v.Arr? || v.Obj?) && r.Success? ==> r.value == StringToNumber(rt, ToText(rt, v).value)
  {
    match v
    case Undefined => Success(NaN)
    case Null => Success(Finite(0.0))
    case Bool(b) => Success(Finite(if b then 1.0 else 0.0))
    case Num(n) => Success(n)
    case Str(s) => Success(StringToNumber(rt, s))
    case Arr(_) => TextToNumber(rt, ToText(rt, v))
    case Obj(_) => TextToNumber(rt, ToText(rt, v))
  }

  /** String(['a', null, 'b', undefined]) is "a,,b," */
  lemma ArrayText(rt: Runtime)
    ensures ToText(rt, Arr([Str("a"), Null, Str("b"), Undefined])) == Success("a,,b,")
  {
    var v := Arr([Str("a"), Null, Str("b"), Undefined]);
    assert ElementsText(rt, v, 1) == Success("a");
    assert "a" + "," + "" == "a,";
    assert ElementsText(rt, v, 2) == Success("a,");
    assert "a," + "," + "b" == "a,,b";
    assert ElementsText(rt, v, 3) == Success("a,,b");
    assert "a,,b" + "," + "" == "a,,b,";
  }

  /** Number([7]) is 7 and Number([]) is 0. */
  lemma ArrayNumber(rt: Runtime)
    ensures ToNumber(rt, Arr([Num(Finite(7.0))])) == Success(Finite(7.0))
    ensures ToNumber(rt, Arr([])) == Success(Finite(0.0))
  {
    var v := Arr([Num(Finite(7.0))]);
    assert NatToDecimal(7) == "7";
    assert ToText(rt, v) == Success("7");
    NumberOfNumeral(rt, 7);
  }

  /** A card number sent as `{"toString": …}`, or inside an array, cannot be converted. */
  lemma ShadowedToStringThrows(rt: Runtime, x: JsValue)
    ensures ToNumber(rt, Obj(map["toString" := x])).Failure?
    ensures ToNumber(rt, Arr([Obj(map["toString" := x])])).Failure?
  {
    var v := Arr([Obj(map["toString" := x])]);
    assert ElementsText(rt, v, 1).Failure?;
  }

  /** Number(String(n)) gives n back for every natural a double holds exactly. */
  lemma NumberOfNumeral(rt: Runtime, n: nat)
    requires n <= MaxExactInteger
    ensures ToNumber(rt, Str(NatToDecimal(n))) == Success(Finite(n as real))
  {
    var s := NatToDecimal(n);
    TrimOfNonBlank(s);
    DecimalRoundTrip(n);
  }

  /** String(i) of an integral number strictly between -10^21 and 10^21 is its plain
      numeral, with a minus sign when it is negative. */
  lemma TextOfInteger(rt: Runtime, i: int)
    requires -MaxPlainInteger < i as real < MaxPlainInteger
    ensures ToText(rt, Num(Finite(i as real))) == Success(IntToDecimal(i))
    ensures i < 0 ==> ToText(rt, Num(Finite(i as real))) == Success("-" + NatToDecimal(-i))
  {
    assert (i as real).Floor == i;
  }

  // ---------------------------------------------------------------------------------------
  // String.prototype.trim

  /** WhiteSpace and LineTerminator code points of ECMAScript. */
  predicate IsWhiteSpace(c: char) {
    var k := c as int;
    k == 0x09 || k == 0x0A || k == 0x0B || k == 0x0C || k == 0x0D || k == 0x20 || k == 0xA0 ||
    k == 0x1680 || (0x2000 <= k <= 0x200A) || k == 0x2028 || k == 0x2029 || k == 0x202F ||
    k == 0x205F || k == 0x3000 || k == 0xFEFF
  }

  function TrimStart(s: string): (r: string)
    ensures |r| <= |s| && r == s[|s| - |r|..]
    ensures forall i :: 0 <= i < |s| - |r| ==> IsWhiteSpace(s[i])
    ensures r == [] || !IsWhiteSpace(r[0])
  {
    if s != [] && IsWhiteSpace(s[0]) then
      var r := TrimStart(s[1..]);
      assert s[1..][|s| - 1 - |r|..] == s[|s| - |r|..];
      assert forall i :: 1 <= i < |s| - |r| ==> s[i] == s[1..][i - 1];
      r
    else s
  }

  function TrimEnd(s: string): (r: string)
    ensures |r| <= |s| && r == s[..|r|]
    ensures forall i :: |r| <= i < |s| ==> IsWhiteSpace(s[i])
    ensures r == [] || !IsWhiteSpace(r[|r| - 1])
  {
    if s != [] && IsWhiteSpace(s[|s| - 1]) then
      var r := TrimEnd(s[..|s| - 1]);
      assert s[..|s| - 1][..|r|] == s[..|r|];
      assert forall i :: |r| <= i < |s| - 1 ==> s[i] == s[..|s| - 1][i];
      r
    else s
  }

  /** r sits in s at offset k with only white space around it. */
  predicate InfixAmongSpace(s: string, r: string, k: nat) {
    k + |r| <= |s| && s[k..k + |r|] == r &&
    (forall i :: 0 <= i < k ==> IsWhiteSpace(s[i])) &&
    (forall i :: k + |r| <= i < |s| ==> IsWhiteSpace(s[i]))
  }

  /** `s.trim()`: the infix of s left after removing white space at both ends. */
  function Trim(s: string): (r: string)
    ensures r == [] || (!IsWhiteSpace(r[0]) && !IsWhiteSpace(r[|r| - 1]))
    ensures exists k: nat :: InfixAmongSpace(s, r, k)
  {
    var t := TrimStart(s);
    var r := TrimEnd(t);
    TrimInfix(s, t, r);
    r
  }

  lemma TrimInfix(s: string, t: string, r: string)
    requires |t| <= |s| && t == s[|s| - |t|..]
    requires forall i :: 0 <= i < |s| - |t| ==> IsWhiteSpace(s[i])
    requires |r| <= |t| && r == t[..|r|]
    requires forall i :: |r| <= i < |t| ==> IsWhiteSpace(t[i])
    ensures InfixAmongSpace(s, r, |s| - |t|)
  {
    var k := |s| - |t|;
    assert s[k..k + |r|] == r;
    forall i | k + |r| <= i < |s| ensures IsWhiteSpace(s[i]) {
      assert s[i] == t[i - k];
    }
  }

  /** Text with no white space at either end is left as it is. */
  lemma TrimOfNonBlank(s: string)
    requires s == [] || (!IsWhiteSpace(s[0]) && !IsWhiteSpace(s[|s| - 1]))
    ensures Trim(s) == s
  {
  }

  lemma TrimIdempotent(s: string)
    ensures Trim(Trim(s)) == Trim(s)
  {
    TrimOfNonBlank(Trim(s));
  }

  // ---------------------------------------------------------------------------------------
  // String.prototype.toUpperCase

  function UpperChar(rt: Runtime, c: char): string {
    if 'a' <= c <= 'z' then [(c as int - 32) as char]
    else if c as int < 128 then [c]
    else rt.upperCase(c)
  }

  /** `s.toUpperCase()`, code point by code point (the mapping is context-free). */
  function ToUpperCase(rt: Runtime, s: string): string {
    if s == [] then [] else UpperChar(rt, s[0]) + ToUpperCase(rt, s[1..])
  }

  predicate IsAscii(s: string) {
    forall i :: 0 <= i < |s| ==> s[i] as int < 128
  }

  function AsciiUpper(c: char): char {
    if 'a' <= c <= 'z' then (c as int - 32) as char else c
  }

  /** On ASCII text toUpperCase maps each letter a-z to A-Z and leaves the rest. */
  lemma {:induction false} UpperCaseAscii(rt: Runtime, s: string)
    requires IsAscii(s)
    ensures |ToUpperCase(rt, s)| == |s|
    ensures forall i :: 0 <= i < |s| ==> ToUpperCase(rt, s)[i] == AsciiUpper(s[i])
  {
    if s != [] {
      assert IsAscii(s[1..]) by {
        forall i | 0 <= i < |s[1..]| ensures s[1..][i] as int < 128 {
          assert s[1..][i] == s[i + 1];
        }
      }
      UpperCaseAscii(rt, s[1..]);
    }
  }

  // ---------------------------------------------------------------------------------------
  // Array.prototype.join, and the same parts each followed by the separator

  function Join(parts: seq<string>, sep: string): string {
    if |parts| == 0 then ""
    else if |parts| == 1 then parts[0]
    else parts[0] + sep + Join(parts[1..], sep)
  }

  /** Every part followed by the separator. */
  function Terminated(parts: seq<string>, sep: string): string {
    if |parts| == 0 then "" else parts[0] + sep + Terminated(parts[1..], sep)
  }

  /** Joining a non-empty list and appending one more separator puts the separator after
      every part. */
  lemma {:induction false} JoinThenSeparator(parts: seq<string>, sep: string)
    requires |parts| > 0
    ensures Join(parts, sep) + sep == Terminated(parts, sep)
  {
    if |parts| > 1 {
      JoinThenSeparator(parts[1..], sep);
    }
  }

  lemma {:induction false} TerminatedAppend(a: seq<string>, b: seq<string>, sep: string)
    ensures Terminated(a + b, sep) == Terminated(a, sep) + Terminated(b, sep)
  {
    if a == [] {
      assert a + b == b;
    } else {
      assert (a + b)[1..] == a[1..] + b;
      TerminatedAppend(a[1..], b, sep);
    }
  }

  /** Joining a list whose last part is `last`: all other parts each followed by the separator,
      then `last`. */
  lemma {:induction false} JoinLast(parts: seq<string>, last: string, sep: string)
    ensures Join(parts + [last], sep) == Terminated(parts, sep) + last
  {
    if parts == [] {
      assert parts + [last] == [last];
    } else {
      assert (parts + [last])[1..] == parts[1..] + [last];
      JoinLast(parts[1..], last, sep);
    }
  }

  /** Joining one more part after a non-empty list adds the separator and the part. */
  lemma JoinSnoc(parts: seq<string>, last: string, sep: string)
    requires |parts| > 0
    ensures Join(parts + [last], sep) == Join(parts, sep) + sep + last
  {
    JoinLast(parts, last, sep);
    JoinThenSeparator(parts, sep);
  }

  // ---------------------------------------------------------------------------------------
  // Array.prototype.find

  /** The index of the first element satisfying p. */
  function FindIndex<T>(s: seq<T>, p: T -> bool): (r: Option<nat>)
    ensures r.None? <==> forall i :: 0 <= i < |s| ==> !p(s[i])
    ensures r.Some? ==> r.value < |s| && p(s[r.value]) && forall j :: 0 <= j < r.value ==> !p(s[j])
  {
    if |s| == 0 then None
    else if p(s[0]) then Some(0)
    else
      match FindIndex(s[1..], p)
      case None => None
      case Some(i) => Some(i + 1)
  }

  /** `s.find(p)`: the first element satisfying p, or undefined. */
  function Find<T>(s: seq<T>, p: T -> bool): (r: Option<T>)
    ensures r.None? <==> forall i :: 0 <= i < |s| ==> !p(s[i])
    ensures r.Some? ==> exists i :: 0 <= i < |s| && s[i] == r.value && p(s[i]) &&
                                   forall j :: 0 <= j < i ==> !p(s[j])
  {
    match FindIndex(s, p)
    case None => None
    case Some(i) => Some(s[i])
  }

  // ---------------------------------------------------------------------------------------
  // JSON.stringify

  function HexDigit(d: nat): char
    requires d < 16
  {
    if d < 10 then DigitChar(d) else ('a' as int + d - 10) as char
  }

  /** One code point of a JSON string literal, as QuoteJSONString escapes it. */
  function QuoteChar(c: char): string {
    var k := c as int;
    if k == 0x08 then "\\b"
    else if k == 0x09 then "\\t"
    else if k == 0x0A then "\\n"
    else if k == 0x0C then "\\f"
    else if k == 0x0D then "\\r"
    else if c == '"' then "\\\""
    else if c == '\\' then "\\\\"
    else if k < 0x20 then "\\u00" + [HexDigit(k / 16), HexDigit(k % 16)]
    else [c]
  }

  function QuoteBody(s: string): string {
    if s == [] then "" else QuoteChar(s[0]) + QuoteBody(s[1..])
  }

  /** Text without quotes, backslashes or control characters: JSON needs no escape in it. */
  predicate PlainText(s: string) {
    forall i :: 0 <= i < |s| ==> s[i] as int >= 0x20 && s[i] != '"' && s[i] != '\\'
  }

  lemma {:induction false} QuoteBodyOfPlainText(s: string)
    requires PlainText(s)
    ensures QuoteBody(s) == s
  {
    if s != [] {
      assert QuoteChar(s[0]) == [s[0]];
      assert PlainText(s[1..]) by {
        forall i | 0 <= i < |s[1..]| ensures s[1..][i] as int >= 0x20 && s[1..][i] != '"' && s[1..][i] != '\\' {
          assert s[1..][i] == s[i + 1];
        }
      }
      QuoteBodyOfPlainText(s[1..]);
      assert s == [s[0]] + s[1..];
    }
  }

  /** `JSON.stringify(v)`, as the text a template literal makes of it: undefined has no
      JSON form, so it prints as "undefined". */
  function Stringify(rt: Runtime, v: JsValue): string {
    match v
    case Undefined => "undefined"
    case Null => "null"
    case Bool(b) => if b then "true" else "false"
    case Num(n) => if n.Finite? then NumberToString(rt, n) else "null"
    case Str(s) => "\"" + QuoteBody(s) + "\""
    case Arr(_) => rt.stringifyComposite(v)
    case Obj(_) => rt.stringifyComposite(v)
  }

  /** A plain string is stringified as itself between double quotes. */
  lemma StringifyOfPlainText(rt: Runtime, s: string)
    requires PlainText(s)
    ensures Stringify(rt, Str(s)) == "\"" + s + "\""
  {
    QuoteBodyOfPlainText(s);
  }
}
