/**
 * Parsed JSON as JavaScript sees it, and the handful of operations the
 * modelled code performs on such values: property reads (plain and
 * optional-chained), truthiness, `a || b`, `Array.isArray`, `String(v)` as
 * used by template literals, and the numeric coercion in `new Date(x * 1000)`.
 */
module JsValue {
  import opened Outcomes
  import opened JsText

  /** A JSON value after `JSON.parse`, plus `undefined`. Numbers are integral in this model. */
  datatype Value =
    | Undefined
    | Null
    | Bool(b: bool)
    | Num(n: int)
    | Str(s: string)
    | Arr(items: seq<Value>)
    | Obj(fields: map<string, Value>)

  /** A property name (`x.name`, `x['@type']`) or an index (`x[0]`). */
  datatype Key = Name(name: string) | At(index: nat)

  /** One link of a property chain: `.key` when `optional` is false, `?.key` when it is true. */
  datatype Step = Step(key: Key, optional: bool)

  predicate Nullish(v: Value) { v.Undefined? || v.Null? }

  /** JavaScript truthiness: `undefined`, `null`, `false`, `0` and `""` are falsy. */
  predicate Truthy(v: Value) {
    match v
    case Undefined => false
    case Null => false
    case Bool(b) => b
    case Num(n) => n != 0
    case Str(s) => s != ""
    case Arr(_) => true
    case Obj(_) => true
  }

  /** `a || b`: the first operand when it is truthy, else the second. */
  function Or(a: Value, b: Value): (r: Value)
    ensures Truthy(a) ==> r == a
    ensures !Truthy(a) ==> r == b
  {
    if Truthy(a) then a else b
  }

  /** The property name an object key denotes: an index reads the property named by its numeral. */
  function KeyName(k: Key): string {
    match k
    case Name(n) => n
    case At(i) => NatToString(i)
  }

  /**
   * Reading a property of a value that is not `null` or `undefined`. Objects
   * look the name up; arrays and strings answer indices in range and
   * `length`; every other read gives `undefined`.
   */
  function Get(v: Value, k: Key): (r: Value)
    requires !Nullish(v)
    ensures v.Obj? ==> r == (if KeyName(k) in v.fields then v.fields[KeyName(k)] else Undefined)
    ensures v.Arr? && k.At? ==> r == (if k.index < |v.items| then v.items[k.index] else Undefined)
    ensures (v.Arr? || v.Str?) && k == Name("length") ==> r.Num? && r.n >= 0
    ensures (v.Bool? || v.Num?) ==> r == Undefined
  {
    match v
    case Obj(f) => if KeyName(k) in f then f[KeyName(k)] else Undefined
    case Arr(items) =>
      (match k
       case At(i) => if i < |items| then items[i] else Undefined
       case Name(n) => if n == "length" then Num(|items|) else Undefined)
    case Str(s) =>
      (match k
       case At(i) => if i < |s| then Str([s[i]]) else Undefined
       case Name(n) => if n == "length" then Num(|s|) else Undefined)
    case _ => Undefined
  }

  /**
   * Evaluating a property chain such as `a?.b.c[0]?.d` on a starting value.
   * A plain step on `null`/`undefined` throws a `TypeError`; an optional step
   * there ends the whole chain with `undefined`.
   */
  function Chain(v: Value, steps: seq<Step>): (r: Result<Value>)
    decreases |steps|
  {
    if steps == [] then Ok(v)
    else if Nullish(v) then (if steps[0].optional then Ok(Undefined) else Err(TypeError))
    else Chain(Get(v, steps[0].key), steps[1..])
  }

  /** A chain made of `?.` steps only. */
  predicate AllOptional(steps: seq<Step>) {
    forall i :: 0 <= i < |steps| ==> steps[i].optional
  }

  /** A chain of optional steps never throws. */
  lemma {:induction false} OptionalChainTotal(v: Value, steps: seq<Step>)
    requires AllOptional(steps)
    ensures Chain(v, steps).Ok?
    decreases |steps|
  {
    if steps != [] && !Nullish(v) {
      assert AllOptional(steps[1..]) by {
        forall i | 0 <= i < |steps[1..]|
          ensures steps[1..][i].optional
        {
          assert steps[1..][i] == steps[i + 1];
        }
      }
      OptionalChainTotal(Get(v, steps[0].key), steps[1..]);
    }
  }

  /** `x?.a?.b…` : a chain of optional steps by name. */
  function OptPath(names: seq<string>): (steps: seq<Step>)
    ensures |steps| == |names| && AllOptional(steps)
    ensures forall i :: 0 <= i < |names| ==> steps[i].key == Name(names[i])
  {
    seq(|names|, i requires 0 <= i < |names| => Step(Name(names[i]), true))
  }

  /** `String(v)`, as a template literal renders `${v}` (integral numbers only). */
  function TextOf(v: Value): (r: string)
    ensures v.Str? ==> r == v.s
    ensures v.Num? ==> r == IntToString(v.n)
    decreases v
  {
    match v
    case Undefined => "undefined"
    case Null => "null"
    case Bool(b) => if b then "true" else "false"
    case Num(n) => IntToString(n)
    case Str(s) => s
    case Arr(items) =>
      // `Array.prototype.join(",")`, which renders null and undefined as ""
      Join(seq(|items|, i requires 0 <= i < |items| => if Nullish(items[i]) then "" else TextOf(items[i])), ",")
    case Obj(_) => "[object Object]"
  }

  /**
   * The time value of `new Date(x * 1000)` in milliseconds, `None` for NaN.
   * `null` counts as 0 and booleans as 0 or 1; objects and `undefined` give
   * NaN. Strings and arrays are converted by `Number`, which this model does
   * not evaluate: they are taken to give NaN.
   */
  function EpochMsOfSeconds(x: Value): (r: Option<int>)
    ensures x.Num? ==> r == Some(x.n * 1000)
    ensures x.Undefined? || x.Obj? ==> r.None?
  {
    match x
    case Num(n) => Some(n * 1000)
    case Null => Some(0)
    case Bool(b) => Some(if b then 1000 else 0)
    case _ => None
  }

  /** The largest magnitude, in milliseconds from the epoch, of a valid `Date`. */
  const MaxTimeMs: int := 8_640_000_000_000_000

  predicate ValidTime(ms: int) { -MaxTimeMs <= ms <= MaxTimeMs }
}
