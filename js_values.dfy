/** The JavaScript values the logger handles: primitives, references into a
    heap of objects (dates, arrays, plain and error-shaped objects), and the
    few operations on them the core relies on (`== null`, `typeof`,
    property lookup through the prototype, `isError`). */
module JsValues {
  import opened Wrappers
  import opened CallSites

  type Id = nat

  /** A value. Functions are told apart from objects because `typeof` does
      so; `Ref` points into a `Heap`. Numbers are integers. */
  datatype Value =
    | Undefined
    | Null
    | Bool(b: bool)
    | Num(n: int)
    | Str(s: string)
    | Fn(fid: nat)
    | Ref(id: Id)

  /** `v == null`. */
  predicate IsNullish(v: Value) {
    v.Undefined? || v.Null?
  }

  /** `typeof v === "object"` (true of `null` as well). */
  predicate IsObjectType(v: Value) {
    v.Null? || v.Ref?
  }

  /** JavaScript truthiness. */
  predicate Truthy(v: Value) {
    match v
    case Undefined => false
    case Null => false
    case Bool(b) => b
    case Num(n) => n != 0
    case Str(s) => s != ""
    case Fn(_) => true
    case Ref(_) => true
  }

  /** An own property; an object lists them in own-key order. */
  datatype Prop = Prop(key: string, value: Value, enumerable: bool)

  /** A heap object. `PlainObj.proto` lists the properties it inherits, the
      nearest prototype first; `errorProto` is `instanceof Error`,
      `nativeError` is `types.isNativeError`, and `capturedStack` is what the
      runtime's stack introspection yields for the object (`None` when it
      yields no array). */
  datatype JsObject =
    | DateObj(time: int)
    | ArrayObj(elems: seq<Value>)
    | PlainObj(
        props: seq<Prop>,
        proto: seq<Prop>,
        errorProto: bool,
        nativeError: bool,
        capturedStack: Option<seq<CallSite>>)

  /** The objects, an object's `Id` being its index. */
  type Heap = seq<JsObject>

  /** The values an object holds: an array's elements, a plain object's own
      property values. */
  function Children(o: JsObject): seq<Value> {
    match o
    case DateObj(_) => []
    case ArrayObj(elems) => elems
    case PlainObj(props, _, _, _, _) => seq(|props|, i requires 0 <= i < |props| => props[i].value)
  }

  /** Every reference `o` holds is below `n`. */
  predicate PointsBelow(o: JsObject, n: nat) {
    forall i :: 0 <= i < |Children(o)| ==> Children(o)[i].Ref? ==> Children(o)[i].id < n
  }

  /** No reference in the heap dangles. */
  predicate Closed(heap: Heap) {
    forall k :: 0 <= k < |heap| ==> PointsBelow(heap[k], |heap|)
  }

  /** A value that is a primitive or refers to an object of the heap. */
  predicate InHeap(v: Value, heap: Heap) {
    v.Ref? ==> v.id < |heap|
  }

  /** The value of the first property named `key`, if any. */
  function Lookup(props: seq<Prop>, key: string): (r: Option<Value>)
    ensures r.Some? <==> exists i :: 0 <= i < |props| && props[i].key == key
    ensures r.Some? ==> exists i :: 0 <= i < |props| && props[i].key == key && props[i].value == r.value
  {
    if props == [] then None
    else if props[0].key == key then Some(props[0].value)
    else
      var r := Lookup(props[1..], key);
      assert forall i :: 1 <= i < |props| ==> props[i] == props[1..][i - 1];
      r
  }

  /** `o[key]`: own properties first, then the prototype chain; a miss is
      `undefined`. Dates and arrays are not asked for named properties. */
  function Get(o: JsObject, key: string): Value {
    if o.PlainObj? then
      match Lookup(o.props, key)
      case Some(v) => v
      case None => Lookup(o.proto, key).GetOr(Undefined)
    else Undefined
  }

  /** `Object.getOwnPropertyNames(o)` of a plain object, in order. */
  function OwnKeys(props: seq<Prop>): (r: seq<string>)
    ensures |r| == |props|
    ensures forall i :: 0 <= i < |props| ==> r[i] == props[i].key
  {
    seq(|props|, i requires 0 <= i < |props| => props[i].key)
  }

  /** `LoggerHelper.isError`: `types.isNativeError(e)` when the runtime has it
      (`hasIsNativeError`), `e instanceof Error` otherwise. */
  predicate IsError(o: JsObject, hasIsNativeError: bool) {
    o.PlainObj? && (if hasIsNativeError then o.nativeError else o.errorProto)
  }

  /** Own properties shadow inherited ones; an inherited property is found
      when no own property has its name. */
  lemma GetShadowing(o: JsObject, key: string, i: nat)
    requires o.PlainObj? && i < |o.props| && o.props[i].key == key
    requires forall j :: 0 <= j < i ==> o.props[j].key != key
    ensures Get(o, key) == o.props[i].value
  {
    LookupFirst(o.props, key, i);
  }

  lemma {:induction false} LookupFirst(props: seq<Prop>, key: string, i: nat)
    requires i < |props| && props[i].key == key
    requires forall j :: 0 <= j < i ==> props[j].key != key
    ensures Lookup(props, key) == Some(props[i].value)
  {
    if i > 0 {
      LookupFirst(props[1..], key, i - 1);
    }
  }
}
