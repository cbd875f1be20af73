/** An abstract JSON tree with the accessors the bridge uses on it
    (`jsonObject`, `jsonArray`, `jsonPrimitive.content`, `intOrNull`,
    `longOrNull`), and the decimal rendering and parsing of integers. */
module Json {
  import opened Wrappers

  /** A JSON element. As in the serialization library, a primitive keeps its
      literal text in `content`, and `isString` tells a quoted string from a
      number or boolean literal. Object member order is not modelled. */
  datatype Json =
    | JNull
    | JPrim(content: string, isString: bool)
    | JArr(items: seq<Json>)
    | JObj(fields: map<string, Json>)

  /** A string value. */
  function Str(s: string): Json {
    JPrim(s, true)
  }

  /** A number literal for an integer. */
  function Num(n: int): Json {
    JPrim(IntToString(n), false)
  }

  /** A boolean literal. */
  function Bool(b: bool): Json {
    JPrim(if b then "true" else "false", false)
  }

  /** A nullable string: JSON null when absent. */
  function OptStr(s: Option<string>): Json {
    match s
    case Some(v) => Str(v)
    case None => JNull
  }

  /** A nullable integer: JSON null when absent. */
  function OptNum(n: Option<int>): Json {
    match n
    case Some(v) => Num(v)
    case None => JNull
  }

  /** A JSON array of strings. */
  function StrArray(ss: seq<string>): (r: Json)
    ensures r.JArr? && |r.items| == |ss|
    ensures forall i :: 0 <= i < |ss| ==> r.items[i] == Str(ss[i])
  {
    JArr(seq(|ss|, i requires 0 <= i < |ss| => Str(ss[i])))
  }

  // ---------------------------------------------------------------------
  // Casts. Each fails, like the library, with an IllegalArgumentException
  // naming the runtime class of the element.

  function KindName(j: Json): string {
    match j
    case JNull => "JsonNull"
    case JPrim(_, _) => "JsonLiteral"
    case JArr(_) => "JsonArray"
    case JObj(_) => "JsonObject"
  }

  function CastMessage(j: Json, expected: string): string {
    "Element class kotlinx.serialization.json." + KindName(j) + " is not a " + expected
  }

  /** `j.jsonObject` */
  function AsObject(j: Json): (r: Result<map<string, Json>>)
    ensures r.Success? <==> j.JObj?
    ensures r.Success? ==> r.value == j.fields
  {
    if j.JObj? then Success(j.fields) else Fail(CastMessage(j, "JsonObject"))
  }

  /** `j.jsonArray` */
  function AsArray(j: Json): (r: Result<seq<Json>>)
    ensures r.Success? <==> j.JArr?
    ensures r.Success? ==> r.value == j.items
  {
    if j.JArr? then Success(j.items) else Fail(CastMessage(j, "JsonArray"))
  }

  /** `j.jsonPrimitive.content`: JSON null is a primitive whose content is
      the text "null". */
  function Content(j: Json): (r: Result<string>)
    ensures r.Success? <==> (j.JNull? || j.JPrim?)
    ensures j.JPrim? ==> r == Success(j.content)
    ensures j.JNull? ==> r == Success("null")
  {
    match j
    case JNull => Success("null")
    case JPrim(c, _) => Success(c)
    case _ => Fail(CastMessage(j, "JsonPrimitive"))
  }

  /** `m[key]` */
  function Get(m: map<string, Json>, key: string): Option<Json> {
    if key in m then Some(m[key]) else None
  }

  /** `m[key]?.jsonPrimitive?.content` */
  function OptContent(m: map<string, Json>, key: string): (r: Result<Option<string>>)
    ensures key !in m ==> r == Success(None)
    ensures key in m && m[key].JPrim? ==> r == Success(Some(m[key].content))
    ensures r.Failure? <==> key in m && (m[key].JArr? || m[key].JObj?)
  {
    match Get(m, key)
    case None => Success(None)
    case Some(j) =>
      var c :- Content(j);
      Success(Some(c))
  }

  /** `m[key]?.jsonPrimitive?.intOrNull` (lo, hi: the range of the target type) */
  function OptIntIn(m: map<string, Json>, key: string, lo: int, hi: int): (r: Result<Option<int>>)
    ensures r.Failure? <==> key in m && (m[key].JArr? || m[key].JObj?)
    ensures r.Success? && r.value.Some? ==> lo <= r.value.value <= hi
  {
    var c :- OptContent(m, key);
    match c
    case None => Success(None)
    case Some(text) => Success(ParseInt(text, lo, hi))
  }

  /** `m[key]?.jsonPrimitive?.intOrNull` */
  function OptInt(m: map<string, Json>, key: string): Result<Option<int>> {
    OptIntIn(m, key, IntMin, IntMax)
  }

  /** `m[key]?.jsonPrimitive?.longOrNull` */
  function OptLong(m: map<string, Json>, key: string): Result<Option<int>> {
    OptIntIn(m, key, LongMin, LongMax)
  }

  /** `m[key]?.jsonObject` */
  function OptObject(m: map<string, Json>, key: string): (r: Result<Option<map<string, Json>>>)
    ensures key !in m ==> r == Success(None)
    ensures r.Failure? <==> key in m && !m[key].JObj?
  {
    match Get(m, key)
    case None => Success(None)
    case Some(j) =>
      var o :- AsObject(j);
      Success(Some(o))
  }

  /** `m[key]?.jsonArray` */
  function OptArray(m: map<string, Json>, key: string): (r: Result<Option<seq<Json>>>)
    ensures key !in m ==> r == Success(None)
    ensures r.Failure? <==> key in m && !m[key].JArr?
  {
    match Get(m, key)
    case None => Success(None)
    case Some(j) =>
      var a :- AsArray(j);
      Success(Some(a))
  }

  /** `items.map { it.jsonPrimitive.content }`: fails at the first element
      that is an array or an object. */
  function Contents(items: seq<Json>): (r: Result<seq<string>>)
    ensures r.Success? <==> forall i :: 0 <= i < |items| ==> !items[i].JArr? && !items[i].JObj?
    ensures r.Success? ==> |r.value| == |items|
    ensures r.Success? ==> forall i :: 0 <= i < |items| ==> Content(items[i]) == Success(r.value[i])
  {
    if items == [] then Success([])
    else
      var c :- Content(items[0]);
      var rest :- Contents(items[1..]);
      assert forall i :: 1 <= i < |items| ==> items[i] == items[1..][i - 1];
      Success([c] + rest)
  }

  // ---------------------------------------------------------------------
  // Decimal integers.

  const IntMin: int := -0x8000_0000
  const IntMax: int := 0x7fff_ffff
  const LongMin: int := -0x8000_0000_0000_0000
  const LongMax: int := 0x7fff_ffff_ffff_ffff

  /** Kotlin's `Int` and `Long`. */
  type Int32 = x: int | IntMin <= x <= IntMax
  type Int64 = x: int | LongMin <= x <= LongMax

  predicate IsDigit(c: char) {
    '0' <= c <= '9'
  }

  predicate AllDigits(s: string) {
    forall i :: 0 <= i < |s| ==> IsDigit(s[i])
  }

  function DigitValue(c: char): (d: nat)
    requires IsDigit(c)
    ensures d < 10
  {
    (c as int) - ('0' as int)
  }

  function DigitChar(d: nat): (c: char)
    requires d < 10
    ensures IsDigit(c) && DigitValue(c) == d
  {
    (('0' as int) + d) as char
  }

  /** The number a string of decimal digits denotes. */
  function DigitsValue(s: string): nat
    requires AllDigits(s)
  {
    if s == [] then 0 else DigitsValue(s[..|s| - 1]) * 10 + DigitValue(s[|s| - 1])
  }

  /** The decimal text of a natural number, without leading zeros. */
  function NatToString(n: nat): (s: string)
    ensures |s| > 0 && AllDigits(s)
    ensures n < 10 <==> |s| == 1
  {
    if n < 10 then [DigitChar(n)] else NatToString(n / 10) + [DigitChar(n % 10)]
  }

  /** Kotlin's `toString()` of an integer. */
  function IntToString(n: int): (s: string)
    ensures |s| > 0
    ensures n < 0 <==> s[0] == '-'
  {
    if n < 0 then "-" + NatToString(-n) else NatToString(n)
  }

  /** The library's integer reading of a primitive's text (Kotlin's
      `toIntOrNull` / `toLongOrNull`): an optional sign then decimal digits,
      within [lo, hi]; otherwise null. */
  function ParseInt(s: string, lo: int, hi: int): (r: Option<int>)
    ensures r.Some? ==> lo <= r.value <= hi
    ensures s == [] ==> r == None
  {
    if |s| > 1 && (s[0] == '-' || s[0] == '+') && AllDigits(s[1..]) then
      var m := DigitsValue(s[1..]) as int;
      var v := if s[0] == '-' then -m else m;
      if lo <= v <= hi then Some(v) else None
    else if |s| > 0 && AllDigits(s) then
      var v := DigitsValue(s);
      if lo <= v <= hi then Some(v) else None
    else None
  }

  lemma {:induction false} NatToStringValue(n: nat)
    ensures DigitsValue(NatToString(n)) == n
  {
    if n >= 10 {
      var s := NatToString(n);
      assert s[..|s| - 1] == NatToString(n / 10);
      NatToStringValue(n / 10);
    }
  }

  lemma ParseNatString(n: nat, lo: int, hi: int)
    requires lo <= n <= hi
    ensures ParseInt(NatToString(n), lo, hi) == Some(n)
  {
    var s := NatToString(n);
    assert IsDigit(s[0]);
    NatToStringValue(n);
  }

  lemma ParseNegativeString(n: int, lo: int, hi: int)
    requires n < 0 && lo <= n <= hi
    ensures ParseInt("-" + NatToString(-n), lo, hi) == Some(n)
  {
    var s := "-" + NatToString(-n);
    assert s[1..] == NatToString(-n);
    NatToStringValue(-n);
    assert |s| > 1 && s[0] == '-' && AllDigits(s[1..]);
    assert -(DigitsValue(s[1..]) as int) == n;
  }

  /** Reading back the text of an in-range integer gives the integer. */
  lemma ParseIntToString(n: int, lo: int, hi: int)
    requires lo <= n <= hi
    ensures ParseInt(IntToString(n), lo, hi) == Some(n)
  {
    if n < 0 {
      ParseNegativeString(n, lo, hi);
    } else {
      ParseNatString(n, lo, hi);
    }
  }

  /** The same, for the literal a number element carries. */
  lemma NumContentRoundTrip(n: int)
    requires IntMin <= n <= IntMax
    ensures ParseInt(Num(n).content, IntMin, IntMax) == Some(n)
  {
    ParseIntToString(n, IntMin, IntMax);
  }
}
