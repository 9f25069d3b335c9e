/**
 JavaScript values as the React Native screens receive them (route
 parameters, parsed JSON), with the few operations the screens apply:
 truthiness, `a || b`, property reads, and `Object.keys` / `Object.entries`.
 */
module Js {
  import opened Wrappers
  import Dict
  import PropertyOrder

  /** A JavaScript value. An object lists its properties in creation order;
      the lemmas that need its keys to be distinct say so. Numbers are those
      JSON can carry. */
  datatype Value =
    | Undefined
    | Null
    | Bool(b: bool)
    | Num(n: real)
    | Str(s: string)
    | Arr(items: seq<Value>)
    | Obj(fields: Dict.Dict<Value>)

  /** `{}`. */
  const EmptyObject: Value := Obj([])

  predicate IsNullish(v: Value) {
    v.Undefined? || v.Null?
  }

  /** JavaScript truthiness: `undefined`, `null`, `false`, `0` and `''` are
      falsy; every array and every object, even an empty one, is truthy. */
  predicate Truthy(v: Value) {
    match v
    case Undefined => false
    case Null => false
    case Bool(b) => b
    case Num(n) => n != 0.0
    case Str(s) => s != []
    case Arr(_) => true
    case Obj(_) => true
  }

  /** `a || b`. */
  function Or(a: Value, b: Value): (r: Value)
    ensures Truthy(a) ==> r == a
    ensures !Truthy(a) ==> r == b
  {
    if Truthy(a) then a else b
  }

  /** `v.key` for a value that is not `null` or `undefined`: an object's own
      property, `undefined` when it has none; the screens read no property
      of primitives or arrays other than those modelled separately. */
  function Get(v: Value, key: string): (r: Value)
    requires !IsNullish(v)
    ensures v.Obj? && key in Dict.Keys(v.fields) ==> r == Dict.Get(v.fields, key).value
    ensures !(v.Obj? && key in Dict.Keys(v.fields)) ==> r == Undefined
  {
    if v.Obj? then Dict.Get(v.fields, key).GetOr(Undefined) else Undefined
  }

  /** `Object.entries(v)` for a value that is not `null` or `undefined`:
      an object's properties in enumeration order, the indexed elements of
      an array or the characters of a string, and nothing for a number or
      a boolean. */
  function Entries(v: Value): (es: seq<(string, Value)>)
    requires !IsNullish(v)
    ensures v.Obj? ==> multiset(es) == multiset(v.fields) && |es| == |v.fields|
    ensures v.Arr? ==> |es| == |v.items|
    ensures v.Arr? ==> forall i :: 0 <= i < |es| ==> es[i] == (PropertyOrder.Decimal(i), v.items[i])
    ensures v.Str? ==> |es| == |v.s|
    ensures v.Str? ==> forall i :: 0 <= i < |es| ==> es[i] == (PropertyOrder.Decimal(i), Str([v.s[i]]))
    ensures v.Num? || v.Bool? ==> es == []
  {
    match v
    case Obj(fields) => PropertyOrder.Ordered(fields)
    case Arr(items) => Indexed(items)
    case Str(s) => Indexed(Characters(s))
    case _ => []
  }

  /** The characters of a string, each as a one-character string. */
  function Characters(s: string): (cs: seq<Value>)
    ensures |cs| == |s|
    ensures forall i :: 0 <= i < |s| ==> cs[i] == Str([s[i]])
  {
    seq(|s|, i requires 0 <= i < |s| => Str([s[i]]))
  }

  /** Elements paired with their indices as property keys: `"0"`, `"1"`, ... */
  function Indexed(items: seq<Value>): (es: seq<(string, Value)>)
    ensures |es| == |items|
    ensures forall i :: 0 <= i < |items| ==> es[i] == (PropertyOrder.Decimal(i), items[i])
  {
    seq(|items|, i requires 0 <= i < |items| => (PropertyOrder.Decimal(i), items[i]))
  }

  /** A value React can render as a child: anything but a plain object,
      and an array only when every element is renderable. Rendering a plain
      object throws "Objects are not valid as a React child". */
  predicate Renderable(v: Value) {
    match v
    case Obj(_) => false
    case Arr(items) => forall i :: 0 <= i < |items| ==> Renderable(items[i])
    case _ => true
  }

  /** `Object.keys(v).length`. */
  function KeyCount(v: Value): nat
    requires !IsNullish(v)
  {
    |Entries(v)|
  }

  /** `Object.keys(x || {}).length === 0`: nothing to enumerate, either
      because `x` is falsy or because it has no own keys. */
  predicate NoKeys(x: Value) {
    KeyCount(Or(x, EmptyObject)) == 0
  }

  /** `NoKeys` holds of an object exactly when it is `{}`, of an array or a
      string exactly when it is empty, and of every falsy value. */
  lemma NoKeysCases(x: Value)
    ensures x.Obj? ==> (NoKeys(x) <==> x.fields == [])
    ensures x.Arr? ==> (NoKeys(x) <==> x.items == [])
    ensures x.Str? ==> (NoKeys(x) <==> x.s == [])
    ensures !Truthy(x) ==> NoKeys(x)
  {
  }
}
