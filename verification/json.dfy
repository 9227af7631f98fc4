/** JavaScript values as the telemetry code handles them: parsed JSON, request
    bodies and object literals.  `undefined` is never a value here: a property
    that is `undefined` is a key missing from the object's map, and an
    expression that may yield `undefined` has type `Option<Value>`. */
module Json {

  datatype Option<+T> = None | Some(value: T) {
    function GetOr(default: T): T {
      match this
      case Some(v) => v
      case None => default
    }
  }

  /** The outcome of calling a JavaScript function that may throw. */
  datatype Attempt<+T> = Returned(value: T) | Threw

  /** A JSON value.  Numbers are integers: no part of the model needs a
      fractional number. */
  datatype Value =
    | Null
    | Bool(b: bool)
    | Num(n: int)
    | Str(s: string)
    | Arr(items: seq<Value>)
    | Obj(fields: map<string, Value>)

  /** JavaScript truthiness (NaN and -0 do not arise in the model). */
  predicate Truthy(v: Value) {
    match v
    case Null => false
    case Bool(b) => b
    case Num(n) => n != 0
    case Str(s) => s != ""
    case Arr(_) => true
    case Obj(_) => true
  }

  /** Not SQL `NULL` (nor `undefined`, which a database stores as `NULL`). */
  predicate NotNull(v: Value) {
    v != Null
  }

  /** `a || d`, where an absent `a` stands for `undefined`. */
  function Or(a: Option<Value>, d: Value): Value {
    if a.Some? && Truthy(a.value) then a.value else d
  }

  /** `m.k` on an object given by its property map. */
  function Field(m: map<string, Value>, k: string): Option<Value> {
    if k in m then Some(m[k]) else None
  }

  /** `v?.k`: a property of an object; `undefined` for any other value. */
  function Get(v: Option<Value>, k: string): Option<Value> {
    if v.Some? && v.value.Obj? then Field(v.value.fields, k) else None
  }

  /** The own properties an object spread `{...v}` contributes: those of an
      object, none for `undefined` and `null`. */
  function Spread(v: Option<Value>): map<string, Value> {
    if v.Some? && v.value.Obj? then v.value.fields else map[]
  }

  /** The entry `k: v` of an object literal as it survives `JSON.stringify`
      or a database insert: present when `v` is defined, dropped when it is
      `undefined`. */
  function Defined(k: string, v: Option<Value>): map<string, Value> {
    if v.Some? then map[k := v.value] else map[]
  }

  /** `target[k] = v` as `JSON.stringify` later sees the result: an object
      gains or replaces the key; on `null` the assignment throws; a named
      property of an array is not serialised, and an assignment to a
      primitive is ignored (the code is not in strict mode). */
  function SetField(target: Value, k: string, v: Value): Attempt<Value> {
    match target
    case Obj(fields) => Returned(Obj(fields[k := v]))
    case Null => Threw
    case _ => Returned(target)
  }

  /** `target[k] = v` on a target known not to be `null`. */
  function Assign(target: Value, k: string, v: Value): (r: Value)
    requires target != Null
    ensures SetField(target, k, v) == Returned(r)
    ensures target.Obj? ==> r.Obj? && r.fields == target.fields[k := v]
    ensures !target.Obj? ==> r == target
  {
    SetField(target, k, v).value
  }

  /** A spread `{...a, ...b}` keeps every key of either side and takes the
      right-hand value on a clash; spreading the same right-hand side again
      changes nothing. */
  lemma SpreadRightWins(a: map<string, Value>, b: map<string, Value>)
    ensures (a + b).Keys == a.Keys + b.Keys
    ensures forall k :: k in b ==> (a + b)[k] == b[k]
    ensures forall k :: k in a && k !in b ==> (a + b)[k] == a[k]
    ensures (a + b) + b == a + b
  {
  }
}
