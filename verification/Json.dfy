/** JSON values as far as the engine looks at them, and the printer and parser it
    is given. */
module Json {
  import opened Text

  datatype Value =
    | Null
    | Bool(b: bool)
    | Num(literal: string) // the decimal JavaScript prints for it
    | Str(s: string)
    | Arr(items: seq<Value>)
    | Obj(fields: map<string, Value>)

  /** `JSON.parse`, `JSON.stringify(v, null, 2)` and `String(dotPath(v, path) ?? '')`, and
      which decimals are the ones JavaScript prints for finite numbers. */
  datatype Codec = Codec(
    parse: string -> Option<Value>,
    show: Value -> string,
    path: (Value, string) -> string,
    number: string -> bool)

  /** A value the parser can give: all its numbers are proper decimals. */
  predicate Proper(c: Codec, v: Value) {
    match v
    case Num(literal) => c.number(literal)
    case Arr(items) => forall i | 0 <= i < |items| :: Proper(c, items[i])
    case Obj(fields) => forall k | k in fields :: Proper(c, fields[k])
    case _ => true
  }

  /** What is parsed is proper, and a proper value printed is parsed back, also with the
      newline the engine writes after it. */
  ghost predicate Lawful(c: Codec) {
    && (forall v | Proper(c, v) :: c.show(v) != "" && c.parse(c.show(v) + "\n") == Some(v))
    && (forall s | c.parse(s).Some? :: Proper(c, c.parse(s).value))
    && c.parse("[]") == Some(Arr([]))
  }

  lemma ProperPushed(c: Codec, items: seq<Value>, obj: Value)
    requires Proper(c, Arr(items)) && Proper(c, obj)
    ensures Proper(c, Arr(items + [obj]))
  {
    var pushed := items + [obj];
    forall i | 0 <= i < |pushed| ensures Proper(c, pushed[i]) {
      if i < |items| { assert pushed[i] == items[i]; }
    }
  }

  /** `typeof v === 'object' && v !== null` */
  predicate IsObjectLike(v: Value) {
    v.Arr? || v.Obj?
  }

  /** `v[key]`; None is undefined. */
  function Member(v: Value, key: string): Option<Value> {
    if v.Obj? && key in v.fields then Some(v.fields[key]) else None
  }

  /** Two separately parsed values are `===` when both are undefined or both are the
      same primitive: objects and arrays are compared by identity. */
  predicate StrictlyEqual(a: Option<Value>, b: Option<Value>) {
    match (a, b)
    case (None, None) => true
    case (Some(x), Some(y)) => x == y && !IsObjectLike(x)
    case _ => false
  }

  /** The value can be `===` to another parsed value at all. */
  predicate Comparable(v: Option<Value>) {
    v.None? || !IsObjectLike(v.value)
  }

  predicate Matches(el: Value, key: string, value: Option<Value>) {
    IsObjectLike(el) && StrictlyEqual(Member(el, key), value)
  }

  /** `arr.findIndex(el => el[key] === value)` */
  function FindMatch(items: seq<Value>, key: string, value: Option<Value>): (r: int)
    ensures -1 <= r < |items|
    ensures r >= 0 ==> Matches(items[r], key, value)
    ensures r == -1 <==> forall i | 0 <= i < |items| :: !Matches(items[i], key, value)
  {
    if items == [] then -1
    else if Matches(items[0], key, value) then 0
    else
      var r := FindMatch(items[1..], key, value);
      assert forall i | 1 <= i < |items| :: items[i] == items[1..][i - 1];
      if r == -1 then -1 else r + 1
  }

  lemma {:induction false} FindMatchInPushed(items: seq<Value>, key: string, value: Option<Value>, obj: Value)
    requires FindMatch(items, key, value) == -1 && Matches(obj, key, value)
    ensures FindMatch(items + [obj], key, value) == |items|
  {
    if items == [] {
      assert items + [obj] == [obj];
    } else {
      assert (items + [obj])[1..] == items[1..] + [obj];
      FindMatchInPushed(items[1..], key, value, obj);
    }
  }
}
