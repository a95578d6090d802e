/**
 * The JavaScript values that the controllers receive in request bodies and
 * queries, and the handful of language operations they apply to them:
 * truthiness, strict equality, property access, `String(v)`, `Number(v)`,
 * `trim()` and `toLowerCase()`.  A stored document is a map from field names
 * to such values.
 */
module JsValues {

  datatype Option<+T> = None | Some(value: T)

  /** A JSON-like JavaScript value.  `Num` covers the integral numbers only. */
  datatype Value =
    | Undefined
    | Null
    | Bool(b: bool)
    | Num(n: int)
    | NaN
    | Str(s: string)
    | Arr(items: seq<Value>)
    | Obj(fields: map<string, Value>)

  /** A document or a plain object: field name to value, no `undefined` distinction. */
  type Doc = map<string, Value>

  /** JavaScript truthiness (`!!v`). */
  predicate Truthy(v: Value)
  {
    match v
    case Undefined => false
    case Null => false
    case Bool(b) => b
    case Num(n) => n != 0
    case NaN => false
    case Str(s) => s != ""
    case Arr(_) => true
    case Obj(_) => true
  }

  /** `a ?? b`: the first operand unless it is `null` or `undefined`. */
  function Coalesce(a: Value, b: Value): Value
  {
    if a.Undefined? || a.Null? then b else a
  }

  /** `v === null || v === undefined` */
  predicate Nullish(v: Value)
  {
    v.Undefined? || v.Null?
  }

  /** `a || b`: the first operand when it is truthy, the second otherwise. */
  function Or(a: Value, b: Value): Value
  {
    if Truthy(a) then a else b
  }

  /**
   * `a === b`.  Arrays and objects are compared by reference; the values
   * reaching the controllers come from distinct parses, so two of them are
   * never the same reference.  `NaN` is not equal to itself.
   */
  predicate StrictEquals(a: Value, b: Value)
  {
    !a.Arr? && !a.Obj? && !a.NaN? && a == b
  }

  /** The field `key` of a document, `undefined` when it is missing. */
  function Get(d: Doc, key: string): Value
  {
    if key in d then d[key] else Undefined
  }

  /** Property access `v.key`; only objects carry named properties here. */
  function Prop(v: Value, key: string): Value
  {
    if v.Obj? then Get(v.fields, key) else Undefined
  }

  /** `Object.fromEntries(Object.entries(d).filter(([, v]) => v !== undefined))` */
  function DropUndefined(d: Doc): (r: Doc)
    ensures forall k :: k in r <==> k in d && d[k] != Undefined
    ensures forall k | k in r :: r[k] == d[k]
  {
    map k | k in d && d[k] != Undefined :: d[k]
  }

  /** `{ k1: v.k1, k2: v.k2, … }` for the keys given. */
  function Copy(v: Value, keys: set<string>): (d: Doc)
    ensures d.Keys == keys
    ensures forall k | k in keys :: d[k] == Prop(v, k)
  {
    map k | k in keys :: Prop(v, k)
  }

  /** The toJSON transform shared by every schema: `ret.id = ret._id; delete ret._id`. */
  function RenameId(d: Doc): (r: Doc)
    ensures "_id" !in r
    ensures Get(r, "id") == Get(d, "_id")
    ensures forall k | k in d && k != "_id" && k != "id" :: k in r && r[k] == d[k]
    ensures forall k | k in r && k != "id" :: k in d && k != "_id"
  {
    (d - {"_id"})["id" := Get(d, "_id")]
  }

  // ---------------------------------------------------------------- strings

  /** The white-space characters `String.prototype.trim` removes (the common ones). */
  predicate IsSpace(c: char)
  {
    c == ' ' || c == '\t' || c == '\n' || c == '\r' || c == '\U{000B}' || c == '\U{000C}'
    || c == '\U{00A0}' || c == '\U{FEFF}' || c == '\U{2028}' || c == '\U{2029}'
  }

  function TrimStart(s: string): (r: string)
    ensures |r| <= |s| && r == s[|s| - |r|..]
    ensures r == [] || !IsSpace(r[0])
    ensures s != [] && !IsSpace(s[0]) ==> r == s
  {
    if s != [] && IsSpace(s[0]) then TrimStart(s[1..]) else s
  }

  function TrimEnd(s: string): (r: string)
    ensures |r| <= |s| && r == s[..|r|]
    ensures r == [] || !IsSpace(r[|r| - 1])
    ensures s != [] && !IsSpace(s[|s| - 1]) ==> r == s
  {
    if s != [] && IsSpace(s[|s| - 1]) then TrimEnd(s[..|s| - 1]) else s
  }

  /** `s.trim()` */
  function Trim(s: string): (r: string)
    ensures r == [] || (!IsSpace(r[0]) && !IsSpace(r[|r| - 1]))
  {
    TrimEnd(TrimStart(s))
  }

  /** A string that starts and ends with a non-space character is its own trim. */
  lemma TrimOfTrimmed(s: string)
    requires s != [] && !IsSpace(s[0]) && !IsSpace(s[|s| - 1])
    ensures Trim(s) == s
  {
  }

  /** `toLowerCase` on the ASCII letters; every other character is kept. */
  function LowerChar(c: char): char
  {
    if 'A' <= c <= 'Z' then (c as int - 'A' as int + 'a' as int) as char else c
  }

  function Lower(s: string): (r: string)
    ensures |r| == |s|
  {
    seq(|s|, i requires 0 <= i < |s| => LowerChar(s[i]))
  }

  // ---------------------------------------------------------------- numbers

  predicate IsDigit(c: char)
  {
    '0' <= c <= '9'
  }

  function DigitChar(d: nat): (c: char)
    requires d < 10
    ensures IsDigit(c) && c as int - '0' as int == d
  {
    ('0' as int + d) as char
  }

  /** The decimal spelling of a natural number, as `String(n)` gives it. */
  function NatToString(n: nat): (r: string)
    ensures |r| > 0
    ensures forall i | 0 <= i < |r| :: IsDigit(r[i])
  {
    if n < 10 then [DigitChar(n)] else NatToString(n / 10) + [DigitChar(n % 10)]
  }

  function IntToString(i: int): string
  {
    if i < 0 then "-" + NatToString(-i) else NatToString(i)
  }

  /** The value of a non-empty string of decimal digits, `None` for anything else. */
  function ParseDigits(s: string): Option<nat>
  {
    if s == [] || !IsDigit(s[|s| - 1]) then None
    else
      var d := s[|s| - 1] as int - '0' as int;
      if |s| == 1 then Some(d)
      else match ParseDigits(s[..|s| - 1])
        case None => None
        case Some(p) => Some(10 * p + d)
  }

  /**
   * `Number(s)` on a string: surrounding white space is ignored, the empty
   * string is 0, an optional sign followed by decimal digits is that integer,
   * anything else is NaN (`None`).
   */
  function ParseNumeric(s: string): Option<int>
  {
    var t := Trim(s);
    if t == "" then Some(0)
    else if t[0] == '-' then
      match ParseDigits(t[1..])
      case None => None
      case Some(p) => Some(-(p as int))
    else if t[0] == '+' then
      match ParseDigits(t[1..])
      case None => None
      case Some(p) => Some(p)
    else
      match ParseDigits(t)
      case None => None
      case Some(p) => Some(p)
  }

  /** Comma-join, as `Array.prototype.join` does. */
  function Join(parts: seq<string>): string
  {
    if parts == [] then ""
    else if |parts| == 1 then parts[0]
    else Join(parts[..|parts| - 1]) + "," + parts[|parts| - 1]
  }

  /** `String(v)`, also what a template literal `${v}` produces. */
  function ToString(v: Value): string
  {
    match v
    case Undefined => "undefined"
    case Null => "null"
    case Bool(b) => if b then "true" else "false"
    case Num(n) => IntToString(n)
    case NaN => "NaN"
    case Str(s) => s
    case Arr(items) =>
      Join(seq(|items|, i requires 0 <= i < |items| =>
        if Nullish(items[i]) then "" else ToString(items[i])))
    case Obj(_) => "[object Object]"
  }

  /** `Number(v)`; `None` is NaN. */
  function ToNumber(v: Value): Option<int>
  {
    match v
    case Undefined => None
    case Null => Some(0)
    case Bool(b) => Some(if b then 1 else 0)
    case Num(n) => Some(n)
    case NaN => None
    case Str(s) => ParseNumeric(s)
    case Arr(_) => ParseNumeric(ToString(v))
    case Obj(_) => None
  }

  /** `Number(v)` as the value it evaluates to. */
  function NumberValue(v: Value): Value
  {
    match ToNumber(v)
    case None => NaN
    case Some(n) => Num(n)
  }

  // ---------------------------------------------------------------- lemmas

  /** Parsing the decimal spelling of `n` gives `n` back. */
  lemma {:induction false} ParseNatToString(n: nat)
    ensures ParseDigits(NatToString(n)) == Some(n)
  {
    var s := NatToString(n);
    if n >= 10 {
      ParseNatToString(n / 10);
      assert s[..|s| - 1] == NatToString(n / 10);
    }
  }

  /** Distinct numbers have distinct spellings. */
  lemma NatToStringInjective(m: nat, n: nat)
    requires NatToString(m) == NatToString(n)
    ensures m == n
  {
    ParseNatToString(m);
    ParseNatToString(n);
  }

  /** A string of decimal digits reads as the number it spells. */
  lemma ParseNumericOfDigits(s: string)
    requires s != [] && forall i | 0 <= i < |s| :: IsDigit(s[i])
    ensures ParseNumeric(s) == ParseDigits(s)
  {
    TrimOfTrimmed(s);
    assert s[0] != '-' && s[0] != '+';
    match ParseDigits(s) { case None => case Some(p) => }
  }

  /** An unsigned word that does not end in a digit is NaN. */
  lemma ParseNumericNotDigits(s: string)
    requires s != [] && !IsSpace(s[0]) && !IsSpace(s[|s| - 1])
    requires s[0] != '-' && s[0] != '+' && !IsDigit(s[|s| - 1])
    ensures ParseNumeric(s) == None
  {
    TrimOfTrimmed(s);
  }

  /** Lower-casing is idempotent, so comparing lower-cased strings ignores case. */
  lemma LowerIdempotent(s: string)
    ensures Lower(Lower(s)) == Lower(s)
  {
  }

  /** Lower-casing a trimmed text leaves nothing more to trim: the e-mail setters are idempotent. */
  lemma TrimLowerIdempotent(s: string)
    ensures Lower(Trim(Lower(Trim(s)))) == Lower(Trim(s))
  {
    var t := Trim(s);
    var l := Lower(t);
    LowerKeepsTrimmed(t);
    assert Trim(l) == l;
    LowerIdempotent(t);
  }

  /** Lower-casing changes no white space, so a trimmed text stays trimmed. */
  lemma LowerKeepsTrimmed(t: string)
    requires t == [] || (!IsSpace(t[0]) && !IsSpace(t[|t| - 1]))
    ensures Trim(Lower(t)) == Lower(t)
  {
    var l := Lower(t);
    if l != [] {
      LowerCharNotSpace(t[0]);
      LowerCharNotSpace(t[|t| - 1]);
      assert l[0] == LowerChar(t[0]) && l[|l| - 1] == LowerChar(t[|t| - 1]);
      TrimOfTrimmed(l);
    }
  }

  lemma LowerCharNotSpace(c: char)
    requires !IsSpace(c)
    ensures !IsSpace(LowerChar(c))
  {
  }
}
