/** JSON values as JSON.parse returns them, and how JavaScript code looks at them. */
module JsonValue {
  import opened Options

  /** A number JSON.parse can return: finite, or infinite when the literal overflows. */
  datatype Num = Finite(n: real) | Infinite(positive: bool)

  datatype Value =
    | Null
    | Bool(b: bool)
    | Number(num: Num)
    | Str(s: string)
    | List(items: seq<Value>)
    | Obj(fields: seq<Field>)

  /** A property; the list of an object's properties is in JavaScript's enumeration order. */
  datatype Field = Field(key: string, value: Value)

  function Count(n: int): Value {
    Number(Finite(n as real))
  }

  /** value.key; None for undefined. Reading a property of null throws, so callers look first. */
  function Get(v: Value, key: string): Option<Value> {
    if v.Obj? then Lookup(v.fields, key) else None
  }

  function Lookup(fields: seq<Field>, key: string): Option<Value> {
    if fields == [] then None
    else if fields[0].key == key then Some(fields[0].value)
    else Lookup(fields[1..], key)
  }

  predicate IsFalsy(v: Value) {
    v == Null || v == Bool(false) || v == Number(Finite(0.0)) || v == Str("")
  }

  /** Value by value, as section 7.1.2 of ECMAScript 2024 has it; what JSON.parse returns is never
      undefined or NaN. */
  lemma {:induction false} FalsyMeans(v: Value)
    ensures IsFalsy(v) <==>
      match v
      case Null => true
      case Bool(b) => !b
      case Number(Finite(n)) => n == 0.0
      case Number(Infinite(_)) => false
      case Str(s) => |s| == 0
      case List(_) => false
      case Obj(_) => false
  {
  }

  /** a || b, where a may be undefined. */
  function Or(a: Option<Value>, b: Option<Value>): Option<Value> {
    if a.Some? && !IsFalsy(a.value) then a else b
  }

  /** a ?? b, where either may be undefined. */
  function Coalesce(a: Option<Value>, b: Option<Value>): Option<Value> {
    if a.Some? && a.value != Null then a else b
  }

  predicate IsText(v: Option<Value>, s: string) {
    v == Some(Str(s))
  }
}
