/** JSON values as the page sees them after `res.json()`, with the parts of
    JavaScript's semantics the page relies on: optional chaining (`?.`),
    truthiness, and the string conversion a template literal applies. */
module Json {

  datatype Option<+T> = None | Some(value: T)

  /** A parsed JSON value. Numbers are modelled as integers. */
  datatype Json =
    | Null
    | Bool(b: bool)
    | Num(n: int)
    | Str(s: string)
    | Arr(items: seq<Json>)
    | Obj(fields: map<string, Json>)

  /** `v?.key`, where `None` stands for `undefined`. Only objects have the
      member names this program reads; on every other value, and on
      `undefined`, the result is `undefined`. */
  function Member(v: Option<Json>, key: string): Option<Json>
  {
    if v.Some? && v.value.Obj? && key in v.value.fields then Some(v.value.fields[key]) else None
  }

  /** JavaScript truthiness: `undefined`, `null`, `false`, `0` and `""` are falsy. */
  predicate Truthy(v: Option<Json>)
  {
    match v
    case None => false
    case Some(j) =>
      match j
      case Null => false
      case Bool(b) => b
      case Num(n) => n != 0
      case Str(s) => s != ""
      case Arr(_) => true
      case Obj(_) => true
  }

  lemma {:induction false} FalsyValues(v: Option<Json>)
    ensures !Truthy(v) <==>
      v in {None, Some(Null), Some(Bool(false)), Some(Num(0)), Some(Str(""))}
  {
  }

  predicate IsDigit(c: char) { '0' <= c <= '9' }

  function DigitChar(d: nat): (c: char)
    requires d < 10
    ensures IsDigit(c) && c as int - '0' as int == d
  {
    ('0' as int + d) as char
  }

  predicate AllDigits(s: string)
  {
    forall i :: 0 <= i < |s| ==> IsDigit(s[i])
  }

  /** The decimal numeral of `n`, as `${n}` writes a non-negative integer. */
  function Decimal(n: nat): (r: string)
    ensures |r| >= 1 && AllDigits(r)
    ensures r[0] == '0' ==> n == 0
    decreases n
  {
    if n < 10 then [DigitChar(n)] else Decimal(n / 10) + [DigitChar(n % 10)]
  }

  /** The value of a string of decimal digits (the inverse of `Decimal`). */
  function ParseDecimal(s: string): nat
    requires AllDigits(s)
  {
    if s == [] then 0
    else 10 * ParseDecimal(s[..|s| - 1]) + (s[|s| - 1] as int - '0' as int)
  }

  lemma {:induction false} ParseDecimalOfDecimal(n: nat)
    ensures ParseDecimal(Decimal(n)) == n
    decreases n
  {
    if n >= 10 {
      var d := Decimal(n);
      assert d[..|d| - 1] == Decimal(n / 10);
      ParseDecimalOfDecimal(n / 10);
    }
  }

  /** The number of digits a string starts with. */
  function LeadingDigitCount(t: string): nat
  {
    if t == [] || !IsDigit(t[0]) then 0 else 1 + LeadingDigitCount(t[1..])
  }

  lemma {:induction false} LeadingDigits(d: string, c: char, x: string)
    requires AllDigits(d) && !IsDigit(c)
    ensures LeadingDigitCount(d + [c] + x) == |d|
  {
    if d != [] {
      assert (d + [c] + x)[1..] == d[1..] + [c] + x;
      LeadingDigits(d[1..], c, x);
    }
  }

  /** A numeral followed by a non-digit delimiter can be read back
      unambiguously: equal texts name equal numbers. */
  lemma {:induction false} DecimalDelimited(m: nat, n: nat, c: char, x: string, y: string)
    requires !IsDigit(c)
    requires Decimal(m) + [c] + x == Decimal(n) + [c] + y
    ensures m == n && x == y
  {
    var dm, dn := Decimal(m), Decimal(n);
    var t := dm + [c] + x;
    LeadingDigits(dm, c, x);
    LeadingDigits(dn, c, y);
    assert dm == t[..|dm|] == dn;
    assert x == t[|dm| + 1..] == y;
    ParseDecimalOfDecimal(m);
    ParseDecimalOfDecimal(n);
  }

  /** The string a template literal `${v}` makes of a JSON value, or `None`
      where that conversion throws a TypeError. It throws for an object with
      its own `toString` member: JSON cannot make that member callable, so
      the conversion falls back to `valueOf`, which returns the object
      itself. An array converts by joining its elements, so one such element
      at any depth makes the array throw too. */
  function JsString(v: Json): Option<string>
    decreases v, 1, 0
  {
    match v
    case Null => Some("null")
    case Bool(b) => Some(if b then "true" else "false")
    case Num(n) => Some(if n < 0 then "-" + Decimal(-n) else Decimal(n))
    case Str(s) => Some(s)
    case Arr(_) => JoinFrom(v, 0)
    case Obj(fields) => if "toString" in fields then None else Some("[object Object]")
  }

  /** `Array.prototype.join(",")` of the elements from index `i` on, where a
      `null` element contributes the empty string. */
  function JoinFrom(v: Json, i: nat): Option<string>
    requires v.Arr? && i <= |v.items|
    decreases v, 0, |v.items| - i
  {
    if i == |v.items| then Some("")
    else
      var head := if v.items[i].Null? then Some("") else JsString(v.items[i]);
      var rest := JoinFrom(v, i + 1);
      if head.None? || rest.None? then None
      else Some((if i == 0 then "" else ",") + head.value + rest.value)
  }

  /** The values whose string conversion throws: an object with its own
      `toString` member, or an array holding such a value at any depth. */
  ghost predicate ToStringThrows(v: Json)
    decreases v
  {
    match v
    case Obj(fields) => "toString" in fields
    case Arr(items) => exists i :: 0 <= i < |items| && ToStringThrows(items[i])
    case _ => false
  }

  /** `JsString` fails exactly on the values whose conversion throws. */
  lemma {:induction false} JsStringThrowsExactly(v: Json)
    ensures JsString(v).None? <==> ToStringThrows(v)
    decreases v, 1
  {
    if v.Arr? {
      JoinFromThrows(v, 0);
    }
  }

  lemma {:induction false} JoinFromThrows(v: Json, i: nat)
    requires v.Arr? && i <= |v.items|
    ensures JoinFrom(v, i).None? <==> exists j :: i <= j < |v.items| && ToStringThrows(v.items[j])
    decreases v, 0, |v.items| - i
  {
    if i < |v.items| {
      JsStringThrowsExactly(v.items[i]);
      JoinFromThrows(v, i + 1);
    }
  }

  /** A number never throws; a non-negative one renders as its numeral,
      which reads back as the number, and a negative one starts with `-`. */
  lemma {:induction false} JsStringOfNumber(n: int)
    ensures JsString(Num(n)).Some?
    ensures n >= 0 ==> AllDigits(JsString(Num(n)).value) && ParseDecimal(JsString(Num(n)).value) == n
    ensures n < 0 ==> JsString(Num(n)).value[0] == '-'
  {
    if n >= 0 {
      ParseDecimalOfDecimal(n);
    }
  }
}
