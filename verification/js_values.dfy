/** The slice of JavaScript value semantics the front-end formatters rely
    on: JSON values as parsed from the back end's reply, truthiness, `||`,
    property access (which throws on `null`/`undefined`), and the string a
    template literal or `Array.prototype.join` makes of a value. */
module JsValues {
  import opened Text

  /** A parsed JSON value, plus `undefined` for a missing property. Numbers
      are integers here: every number the formatters print is an id. */
  datatype Json =
    | JUndefined
    | JNull
    | JBool(b: bool)
    | JNum(n: int)
    | JStr(s: string)
    | JArr(items: seq<Json>)
    | JObj(fields: seq<Field>)

  datatype Field = Field(key: string, value: Json)

  /** The outcome of evaluating JavaScript: a value, or a thrown `TypeError`. */
  datatype Js<+T> = Done(value: T) | TypeError

  predicate Nullish(v: Json) {
    v.JUndefined? || v.JNull?
  }

  /** JavaScript truthiness (`NaN` and `-0` do not arise with integer numbers). */
  predicate Truthy(v: Json) {
    match v
    case JUndefined => false
    case JNull => false
    case JBool(b) => b
    case JNum(n) => n != 0
    case JStr(s) => s != ""
    case JArr(_) => true
    case JObj(_) => true
  }

  /** `a || b`: the first operand when it is truthy, else the second. */
  function Or(a: Json, b: Json): Json {
    if Truthy(a) then a else b
  }

  /** The value stored under `key`, or `undefined` when the object has none. */
  function Lookup(fields: seq<Field>, key: string): Json
    decreases |fields|
  {
    if |fields| == 0 then JUndefined
    else if fields[0].key == key then fields[0].value
    else Lookup(fields[1..], key)
  }

  /** A key no field carries reads as `undefined`. */
  lemma {:induction false} LookupMissing(fields: seq<Field>, key: string)
    requires forall i :: 0 <= i < |fields| ==> fields[i].key != key
    ensures Lookup(fields, key) == JUndefined
    decreases |fields|
  {
    if |fields| > 0 {
      assert fields[0].key != key;
      LookupMissing(fields[1..], key);
    }
  }

  /** Fields without `key` in front do not change what `key` finds. */
  lemma {:induction false} LookupSkip(front: seq<Field>, back: seq<Field>, key: string)
    requires forall i :: 0 <= i < |front| ==> front[i].key != key
    ensures Lookup(front + back, key) == Lookup(back, key)
    decreases |front|
  {
    if |front| > 0 {
      var whole := front + back;
      assert whole[0] == front[0];
      assert whole[1..] == front[1..] + back;
      assert Lookup(whole, key) == Lookup(whole[1..], key);
      LookupSkip(front[1..], back, key);
    } else {
      assert front + back == back;
    }
  }

  /** `v.key` on a value that is neither `null` nor `undefined`: an object's
      own property, and `undefined` for the other kinds of value (the
      formatters read no property of strings, numbers or arrays). */
  function Get(v: Json, key: string): Json
    requires !Nullish(v)
  {
    if v.JObj? then Lookup(v.fields, key) else JUndefined
  }

  /** The first field named `key` is the one `v.key` reads. */
  lemma GetAt(v: Json, k: nat, key: string)
    requires v.JObj? && k < |v.fields| && v.fields[k].key == key
    requires forall j :: 0 <= j < k ==> v.fields[j].key != key
    ensures Get(v, key) == v.fields[k].value
  {
    assert v.fields == v.fields[..k] + v.fields[k..];
    LookupSkip(v.fields[..k], v.fields[k..], key);
  }

  /** `v.key`: throws on `null` and `undefined`. */
  function Prop(v: Json, key: string): (r: Js<Json>)
    ensures r.TypeError? <==> Nullish(v)
  {
    if Nullish(v) then TypeError else Done(Get(v, key))
  }

  /** The string a template literal `${v}` makes of a value. */
  function ToStr(v: Json): string
    decreases v
  {
    match v
    case JUndefined => "undefined"
    case JNull => "null"
    case JBool(b) => if b then "true" else "false"
    case JNum(n) => IntToString(n)
    case JStr(s) => s
    case JArr(items) =>
      Join(seq(|items|, i requires 0 <= i < |items| => if Nullish(items[i]) then "" else ToStr(items[i])), ",")
    case JObj(_) => "[object Object]"
  }

  /** How `Array.prototype.join` renders one element: `null` and
      `undefined` become the empty string. */
  function ElemStr(v: Json): string {
    if Nullish(v) then "" else ToStr(v)
  }

  /** `items.join(sep)`. */
  function JoinJs(items: seq<Json>, sep: string): string {
    Join(seq(|items|, i requires 0 <= i < |items| => ElemStr(items[i])), sep)
  }

  /** A joined list is empty exactly when it has no parts, or one empty part
      (for a non-empty separator). */
  lemma {:induction false} JoinEmpty(parts: seq<string>, sep: string)
    requires sep != ""
    ensures Join(parts, sep) == "" <==> |parts| == 0 || (|parts| == 1 && parts[0] == "")
  {
    if |parts| > 1 {
      assert |Join(parts, sep)| >= |sep|;
    }
  }
}
