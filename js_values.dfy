/**
 * The slice of JavaScript value semantics the logger relies on: `typeof v === 'object'`,
 * truthiness, `String(v)` on primitives, and the host functions (`JSON.stringify`,
 * `JSON.parse`, date rendering) that the model keeps uninterpreted.
 */
module JsValues {
  import opened Wrappers
  import Text

  /** A JavaScript value. Numbers are modelled as integers; an object is its own
      enumerable properties in key order. */
  datatype JsValue =
    | Undefined
    | Null
    | Bool(b: bool)
    | Num(n: int)
    | Str(s: string)
    | Arr(items: seq<JsValue>)
    | Obj(fields: seq<(string, JsValue)>)

  /** `typeof v === 'object'`: true of null, arrays and plain objects. */
  predicate IsObject(v: JsValue) {
    v.Null? || v.Arr? || v.Obj?
  }

  /** JavaScript truthiness. */
  predicate Truthy(v: JsValue) {
    match v
    case Undefined => false
    case Null => false
    case Bool(b) => b
    case Num(n) => n != 0
    case Str(s) => s != ""
    case Arr(_) => true
    case Obj(_) => true
  }

  /** The largest integer a JavaScript number holds exactly (`Number.MAX_SAFE_INTEGER`). */
  const MaxSafeInteger := 0x1F_FFFF_FFFF_FFFF

  /** A property key made of decimal digits only. JavaScript enumerates integer-like keys
      first, in numeric order, whatever order they were written in; excluding every all-digit
      key keeps the written order the enumeration order. */
  predicate DigitKey(k: string) {
    k != [] && forall i | 0 <= i < |k| :: '0' <= k[i] <= '9'
  }

  /** A value `JSON.parse(JSON.stringify(v))` gives back unchanged: no `undefined` inside,
      numbers that a double holds exactly, and objects whose keys are distinct and none
      integer-like, so the parsed object has the same keys in the same order. */
  predicate JsonSafe(v: JsValue)
    decreases v
  {
    match v
    case Undefined => false
    case Num(n) => -MaxSafeInteger <= n <= MaxSafeInteger
    case Arr(items) => forall i | 0 <= i < |items| :: JsonSafe(items[i])
    case Obj(fields) =>
      (forall i | 0 <= i < |fields| :: !DigitKey(fields[i].0) && JsonSafe(fields[i].1)) &&
      (forall i, j | 0 <= i < j < |fields| :: fields[i].0 != fields[j].0)
    case _ => true
  }

  /** A repeated key, an integer-like key or an unsafe integer puts a value outside the
      round-trip hypothesis. */
  lemma JsonSafeExcludes()
    ensures !JsonSafe(Obj([("a", Null), ("a", Null)]))
    ensures !JsonSafe(Obj([("b", Null), ("1", Null)]))
    ensures !JsonSafe(Arr([Num(MaxSafeInteger + 1)]))
    ensures JsonSafe(Obj([("b", Null), ("a", Arr([Num(1), Str("x")]))]))
  {
    var a, b := "a", "b";
    assert a[0] == 'a' && b[0] == 'b';
    var d := [("a", Null), ("a", Null)];
    assert d[0].0 == d[1].0;
    var f := [("b", Null), ("1", Null)];
    assert DigitKey(f[1].0);
    var big := [Num(MaxSafeInteger + 1)];
    assert !JsonSafe(big[0]);
    var g := [("b", Null), ("a", Arr([Num(1), Str("x")]))];
    assert JsonSafe(g[1].1) by {
      var items := [Num(1), Str("x")];
      assert JsonSafe(items[0]) && JsonSafe(items[1]);
    }
  }

  /** Decimal text of an integer, as `String(n)` writes it. */
  function IntToString(n: int): (r: string)
    ensures r != []
    ensures (r[0] == '-') <==> n < 0
    decreases if n < 0 then 1 - n else n
  {
    if n < 0 then "-" + IntToString(-n)
    else if n < 10 then [Digit(n)]
    else IntToString(n / 10) + [Digit(n % 10)]
  }

  function Digit(d: int): (c: char)
    requires 0 <= d < 10
    ensures '0' <= c <= '9'
  {
    "0123456789"[d]
  }

  /** `String(v)`. An array is its elements joined by commas, with undefined and null
      elements written as nothing. */
  function ToJsString(v: JsValue): string
    decreases v
  {
    match v
    case Undefined => "undefined"
    case Null => "null"
    case Bool(b) => if b then "true" else "false"
    case Num(n) => IntToString(n)
    case Str(s) => s
    case Arr(items) =>
      Text.Join(seq(|items|, i requires 0 <= i < |items| =>
        if items[i].Undefined? || items[i].Null? then "" else ToJsString(items[i])), ',')
    case Obj(_) => "[object Object]"
  }

  /**
   * The host functions the logger calls but whose internals are not modelled:
   * `JSON.stringify(v)`, `JSON.parse(s)` (None when it throws), `JSON.stringify(v, null, 2)`,
   * and the locale and ISO-8601 renderings of an epoch-millisecond instant.
   */
  datatype Runtime = Runtime(
    stringify: JsValue -> string,
    parse: string -> Option<JsValue>,
    prettyJson: JsValue -> string,
    localeTime: int -> string,
    isoTime: int -> string)

  /** The JSON round-trip law, assumed of the host only for JSON-safe object-typed values:
      their text is never empty and parses back to a structurally equal value. `JSON.parse`
      meets it: it never yields repeated keys, and with no integer-like keys its key order
      is the order the text lists them in. */
  ghost predicate JsonLaws(rt: Runtime) {
    forall v :: IsObject(v) && JsonSafe(v) ==>
      rt.stringify(v) != "" && rt.parse(rt.stringify(v)) == Some(v)
  }
}
