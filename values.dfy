/**
 * The JavaScript values the builder stores in its record and emits.
 * Numbers are modelled as `real`: NaN and the infinities are not values here.
 */
module Values {
  datatype Value =
    | Undefined
    | Null
    | Bool(b: bool)
    | Num(x: real)
    | Str(s: string)
    | Arr(items: seq<Value>)
    | Obj(fields: map<string, Value>)

  /**
   * The falsy values of JavaScript that a `Value` can be. NaN, -0 and 0n
   * are falsy too, but a `Value` cannot be any of them.
   */
  const Falsy: set<Value> := {Undefined, Null, Bool(false), Num(0.0), Str("")}

  /** JavaScript truthiness, as tested by `if (value)` and by `a || b`. */
  predicate Truthy(v: Value)
    ensures Truthy(v) <==> v !in Falsy
  {
    match v
    case Undefined => false
    case Null => false
    case Bool(b) => b
    case Num(x) => x != 0.0
    case Str(s) => s != ""
    case Arr(_) => true
    case Obj(_) => true
  }

  /** `a || b` on strings; "" also stands for an absent (undefined) string. */
  function OrElse(a: string, b: string): (r: string)
    ensures r == "" <==> a == "" && b == ""
    ensures a != "" ==> r == a
    ensures a == "" ==> r == b
  {
    if a != "" then a else b
  }

  /** `a || b` on arbitrary values. */
  function OrElseValue(a: Value, b: Value): (r: Value)
    ensures Truthy(r) <==> Truthy(a) || Truthy(b)
    ensures Truthy(a) ==> r == a
    ensures !Truthy(a) ==> r == b
  {
    if Truthy(a) then a else b
  }

  /**
   * The one key an assignment `o[key] = value` on a plain object does not
   * store as a field: it reaches the `__proto__` accessor inherited from
   * `Object.prototype`, which ignores a primitive value and otherwise
   * replaces the prototype. Either way the object gets no own field, and
   * only own fields are spread, listed by `Object.entries` or written by
   * `JSON.stringify`.
   */
  const ProtoKey := "__proto__"

  /** The own fields of a plain object after `o[key] = value`. */
  function AssignField(fields: map<string, Value>, key: string, value: Value): (r: map<string, Value>)
    ensures key != ProtoKey ==> r.Keys == fields.Keys + {key} && r[key] == value
    ensures key == ProtoKey ==> r == fields
    ensures forall k :: k in fields && k != key ==> k in r && r[k] == fields[k]
  {
    if key == ProtoKey then fields else fields[key := value]
  }

  /** The empty object literal `{}`. */
  const EmptyObject: Value := Obj(map[])
}
