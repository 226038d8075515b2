/** Key masking by deep clone (`cloneObjectRecursively` and
    `logObjectMaskValuesOfKeys` of `LoggerHelper`). Cloning allocates new
    objects in a heap and appends every object it visits to a `done` list
    that the whole traversal shares. */
module Masking {
  import opened Wrappers
  import opened JsText
  import opened JsValues

  /** `keys.map(key => typeof key === "string" ? key.toLowerCase() : key)`. */
  function LowerCased(keys: seq<Value>): (r: seq<Value>)
    ensures |r| == |keys|
  {
    seq(|keys|, i requires 0 <= i < |keys| => if keys[i].Str? then Str(ToLower(keys[i].s)) else keys[i])
  }

  /** The mask function's test: the lower-cased key is among the lower-cased
      keys. */
  predicate KeyMasked(keys: seq<Value>, key: string) {
    Str(ToLower(key)) in LowerCased(keys)
  }

  /** `maskValuesFn(key, value)`. */
  function MaskValue(keys: seq<Value>, placeholder: Value, key: string, value: Value): Value {
    if KeyMasked(keys, key) then placeholder else value
  }

  /** A key is masked exactly when some string among the keys equals it up to
      ASCII case; keys that are not strings never match. */
  lemma KeyMaskedIff(keys: seq<Value>, key: string)
    ensures KeyMasked(keys, key) <==>
      exists i :: 0 <= i < |keys| && keys[i].Str? && ToLower(keys[i].s) == ToLower(key)
  {
    var low := LowerCased(keys);
    if KeyMasked(keys, key) {
      var i :| 0 <= i < |low| && low[i] == Str(ToLower(key));
      assert keys[i].Str? && ToLower(keys[i].s) == ToLower(key);
    }
    if exists i :: 0 <= i < |keys| && keys[i].Str? && ToLower(keys[i].s) == ToLower(key) {
      var i :| 0 <= i < |keys| && keys[i].Str? && ToLower(keys[i].s) == ToLower(key);
      assert low[i] == Str(ToLower(key));
    }
  }

  /** Lower-casing is idempotent, so masking ignores the case of both the
      configured keys and the property names. */
  lemma {:induction false} ToLowerIdempotent(s: string)
    ensures ToLower(ToLower(s)) == ToLower(s)
  {
    var t := ToLower(s);
    assert |ToLower(t)| == |t|;
    forall i | 0 <= i < |s| ensures ToLower(t)[i] == t[i] {
      assert t[i] == LowerChar(s[i]);
    }
  }

  lemma KeyMaskedIgnoresCase(keys: seq<Value>, key: string)
    ensures KeyMasked(keys, key) == KeyMasked(keys, ToLower(key))
    ensures KeyMasked(LowerCased(keys), key) == KeyMasked(keys, key)
  {
    ToLowerIdempotent(key);
    var low := LowerCased(keys);
    var low2 := LowerCased(low);
    forall i | 0 <= i < |keys| ensures low2[i] == low[i] {
      if keys[i].Str? {
        ToLowerIdempotent(keys[i].s);
      }
    }
    assert low2 == low;
  }

  /** How one element of an array is copied: a primitive as it is, an object
      as a new clone (an object allocated at or after `base`). */
  predicate ElementCloned(v: Value, w: Value, base: nat) {
    if v.Ref? then w.Ref? && w.id >= base else w == v
  }

  /** How one own property of a plain object is copied into the clone `self`:
      a reference to an object already visited (`seen`) becomes a reference to
      `self`; any other reference becomes a reference to `self` (when a
      sibling visited that object first) or to a new clone; `null` and
      `undefined` are copied; other primitives go through the mask function.
      The copy is an ordinary, enumerable property. */
  predicate PropCloned(p: Prop, q: Prop, self: Id, seen: seq<Id>, base: nat, keys: seq<Value>, placeholder: Value) {
    && q.key == p.key
    && q.enumerable
    && (if p.value.Ref? then
          if p.value.id in seen then q.value == Ref(self)
          else q.value == Ref(self) || (q.value.Ref? && q.value.id >= base && q.value.id != self)
        else if IsNullish(p.value) then q.value == p.value
        else q.value == MaskValue(keys, placeholder, p.key, p.value))
  }

  /** `dst` is a clone of `src`: a date by value; an array element-wise; a
      plain object key by key, in order, with the same prototype, no longer a
      native error and with no captured stack of its own. */
  predicate ClonedFrom(src: JsObject, dst: JsObject, self: Id, seen: seq<Id>, base: nat, keys: seq<Value>, placeholder: Value) {
    match src
    case DateObj(t) => dst == DateObj(t)
    case ArrayObj(es) =>
      && dst.ArrayObj?
      && |dst.elems| == |es|
      && forall i :: 0 <= i < |es| ==> ElementCloned(es[i], dst.elems[i], base)
    case PlainObj(ps, proto, ep, _, _) =>
      && dst.PlainObj?
      && dst.proto == proto && dst.errorProto == ep && !dst.nativeError && dst.capturedStack.None?
      && |dst.props| == |ps|
      && forall i :: 0 <= i < |ps| ==> PropCloned(ps[i], dst.props[i], self, seen, base, keys, placeholder)
  }

  /** A plain object all of whose object-valued properties are among `seen`:
      cloning it calls nothing recursively. */
  predicate FlatOver(o: JsObject, seen: seq<Id>) {
    o.PlainObj? && forall i :: 0 <= i < |o.props| ==> o.props[i].value.Ref? ==> o.props[i].value.id in seen
  }

  // ---------------------------------------------------------------------
  // Clones traced to their originals, at every depth

  /** `o2` keeps every entry of `o1`. */
  predicate Extends(o1: map<Id, Id>, o2: map<Id, Id>) {
    forall k :: k in o1 ==> k in o2 && o2[k] == o1[k]
  }

  /** `w` refers to a clone whose original is the object `v` refers to. */
  predicate RefTraced(v: Value, w: Value, origin: map<Id, Id>) {
    v.Ref? && w.Ref? && w.id in origin && origin[w.id] == v.id
  }

  predicate ElementTraced(v: Value, w: Value, origin: map<Id, Id>) {
    if v.Ref? then RefTraced(v, w, origin) else w == v
  }

  /** The deep counterpart of `PropCloned`: a reference becomes `self` or a
      clone of the object it refers to. */
  predicate PropTraced(p: Prop, q: Prop, self: Id, origin: map<Id, Id>, keys: seq<Value>, placeholder: Value) {
    && q.key == p.key
    && q.enumerable
    && (if p.value.Ref? then q.value == Ref(self) || RefTraced(p.value, q.value, origin)
        else if IsNullish(p.value) then q.value == p.value
        else q.value == MaskValue(keys, placeholder, p.key, p.value))
  }

  /** The deep counterpart of `ClonedFrom`, with the references of `dst`
      traced through `origin`. */
  predicate Traced(src: JsObject, dst: JsObject, self: Id, origin: map<Id, Id>, keys: seq<Value>, placeholder: Value) {
    match src
    case DateObj(t) => dst == DateObj(t)
    case ArrayObj(es) =>
      && dst.ArrayObj?
      && |dst.elems| == |es|
      && forall i :: 0 <= i < |es| ==> ElementTraced(es[i], dst.elems[i], origin)
    case PlainObj(ps, proto, ep, _, _) =>
      && dst.PlainObj?
      && dst.proto == proto && dst.errorProto == ep && !dst.nativeError && dst.capturedStack.None?
      && |dst.props| == |ps|
      && forall i :: 0 <= i < |ps| ==> PropTraced(ps[i], dst.props[i], self, origin, keys, placeholder)
  }

  /** Every object `origin` names is a clone, allocated at or after `base`, of
      the original below `base` it maps to, and its references lead to clones
      of the original's references: the mask function applies at every depth. */
  predicate Faithful(heap: Heap, origin: map<Id, Id>, base: nat, keys: seq<Value>, placeholder: Value) {
    forall n :: n in origin ==>
      && base <= n < |heap|
      && origin[n] < base
      && Traced(heap[origin[n]], heap[n], n, origin, keys, placeholder)
  }

  /** `origin` extends `o0`, and only by objects allocated at or after `n0`. */
  predicate Grows(o0: map<Id, Id>, n0: nat, origin: map<Id, Id>) {
    && Extends(o0, origin)
    && forall n :: n in origin ==> n in o0 || n0 <= n
  }

  lemma GrowsTrans(o0: map<Id, Id>, n0: nat, o1: map<Id, Id>, n1: nat, o2: map<Id, Id>)
    requires Grows(o0, n0, o1) && Grows(o1, n1, o2) && n0 <= n1
    ensures Grows(o0, n0, o2)
  {
  }

  lemma GrowsAdd(o0: map<Id, Id>, n0: nat, origin: map<Id, Id>, c: Id, src: Id)
    requires Grows(o0, n0, origin) && c !in origin && n0 <= c
    ensures Grows(o0, n0, origin[c := src])
  {
  }

  /** The first `|out|` elements of the array `es` cloned (the loop invariant of
      the array branch): copied or cloned afresh, traced to the original
      element, and not dangling in a heap of `n` objects. */
  predicate ElementsCloned(es: seq<Value>, out: seq<Value>, base: nat, origin: map<Id, Id>, n: nat) {
    && |out| <= |es|
    && forall j :: 0 <= j < |out| ==>
      ElementCloned(es[j], out[j], base) && ElementTraced(es[j], out[j], origin) && (out[j].Ref? ==> out[j].id < n)
  }

  lemma ElementsClonedSnoc(es: seq<Value>, out: seq<Value>, base: nat, origin: map<Id, Id>, n: nat, w: Value)
    requires ElementsCloned(es, out, base, origin, n) && |out| < |es|
    requires ElementCloned(es[|out|], w, base) && ElementTraced(es[|out|], w, origin) && (w.Ref? ==> w.id < n)
    ensures ElementsCloned(es, out + [w], base, origin, n)
  {
    forall j | 0 <= j < |out| + 1
      ensures ElementCloned(es[j], (out + [w])[j], base) && ElementTraced(es[j], (out + [w])[j], origin)
    {
      if j < |out| {
        assert (out + [w])[j] == out[j];
      }
    }
  }

  lemma ElementsClonedMono(es: seq<Value>, out: seq<Value>, base: nat, o1: map<Id, Id>, n1: nat, o2: map<Id, Id>, n2: nat)
    requires ElementsCloned(es, out, base, o1, n1) && Extends(o1, o2) && n1 <= n2
    ensures ElementsCloned(es, out, base, o2, n2)
  {
    forall j | 0 <= j < |out| ensures ElementTraced(es[j], out[j], o2) {
      assert ElementTraced(es[j], out[j], o1);
    }
  }

  /** The first `|out|` properties of `ps` copied into the clone `self` (the
      loop invariant of the plain-object branch). */
  predicate PropsCloned(ps: seq<Prop>, out: seq<Prop>, self: Id, seen: seq<Id>, base: nat, origin: map<Id, Id>, n: nat, keys: seq<Value>, placeholder: Value) {
    && |out| <= |ps|
    && forall j :: 0 <= j < |out| ==>
      && PropCloned(ps[j], out[j], self, seen, base, keys, placeholder)
      && PropTraced(ps[j], out[j], self, origin, keys, placeholder)
      && (out[j].value.Ref? ==> out[j].value.id < n)
  }

  lemma PropsClonedSnoc(ps: seq<Prop>, out: seq<Prop>, self: Id, seen: seq<Id>, base: nat, origin: map<Id, Id>, n: nat, keys: seq<Value>, placeholder: Value, q: Prop)
    requires PropsCloned(ps, out, self, seen, base, origin, n, keys, placeholder) && |out| < |ps|
    requires PropCloned(ps[|out|], q, self, seen, base, keys, placeholder)
    requires PropTraced(ps[|out|], q, self, origin, keys, placeholder)
    requires q.value.Ref? ==> q.value.id < n
    ensures PropsCloned(ps, out + [q], self, seen, base, origin, n, keys, placeholder)
  {
    forall j | 0 <= j < |out| + 1
      ensures PropCloned(ps[j], (out + [q])[j], self, seen, base, keys, placeholder)
      ensures PropTraced(ps[j], (out + [q])[j], self, origin, keys, placeholder)
    {
      if j < |out| {
        assert (out + [q])[j] == out[j];
      }
    }
  }

  lemma PropsClonedMono(ps: seq<Prop>, out: seq<Prop>, self: Id, seen: seq<Id>, base: nat, o1: map<Id, Id>, n1: nat, o2: map<Id, Id>, n2: nat, keys: seq<Value>, placeholder: Value)
    requires PropsCloned(ps, out, self, seen, base, o1, n1, keys, placeholder) && Extends(o1, o2) && n1 <= n2
    ensures PropsCloned(ps, out, self, seen, base, o2, n2, keys, placeholder)
  {
    forall j | 0 <= j < |out| ensures PropTraced(ps[j], out[j], self, o2, keys, placeholder) {
      assert PropTraced(ps[j], out[j], self, o1, keys, placeholder);
    }
  }

  lemma TracedMono(src: JsObject, dst: JsObject, self: Id, o1: map<Id, Id>, o2: map<Id, Id>, keys: seq<Value>, placeholder: Value)
    requires Traced(src, dst, self, o1, keys, placeholder) && Extends(o1, o2)
    ensures Traced(src, dst, self, o2, keys, placeholder)
  {
    match src
    case DateObj(_) =>
    case ArrayObj(es) =>
      forall j | 0 <= j < |es| ensures ElementTraced(es[j], dst.elems[j], o2) {
        assert ElementTraced(es[j], dst.elems[j], o1);
      }
    case PlainObj(ps, _, _, _, _) =>
      forall j | 0 <= j < |ps| ensures PropTraced(ps[j], dst.props[j], self, o2, keys, placeholder) {
        assert PropTraced(ps[j], dst.props[j], self, o1, keys, placeholder);
      }
  }

  /** Appending an object keeps every clone and its original where they were. */
  lemma FaithfulAppend(heap: Heap, origin: map<Id, Id>, base: nat, keys: seq<Value>, placeholder: Value, o: JsObject)
    requires Faithful(heap, origin, base, keys, placeholder)
    ensures Faithful(heap + [o], origin, base, keys, placeholder)
  {
    forall n | n in origin ensures (heap + [o])[n] == heap[n] && (heap + [o])[origin[n]] == heap[origin[n]] {
    }
  }

  /** Filling in an object that is not yet a traced clone, at or after `base`,
      leaves the traced clones and the originals alone. */
  lemma FaithfulUpdate(heap: Heap, origin: map<Id, Id>, base: nat, keys: seq<Value>, placeholder: Value, self: Id, o: JsObject)
    requires Faithful(heap, origin, base, keys, placeholder)
    requires base <= self < |heap| && self !in origin
    ensures Faithful(heap[self := o], origin, base, keys, placeholder)
  {
    forall n | n in origin ensures heap[self := o][n] == heap[n] && heap[self := o][origin[n]] == heap[origin[n]] {
    }
  }

  /** Recording a finished clone `n` of the original `src`. */
  lemma FaithfulAdd(heap: Heap, origin: map<Id, Id>, base: nat, keys: seq<Value>, placeholder: Value, n: Id, src: Id)
    requires Faithful(heap, origin, base, keys, placeholder)
    requires base <= n < |heap| && n !in origin && src < base
    requires Traced(heap[src], heap[n], n, origin, keys, placeholder)
    ensures Faithful(heap, origin[n := src], base, keys, placeholder)
  {
    var o2 := origin[n := src];
    assert Extends(origin, o2);
    forall m | m in o2 ensures Traced(heap[o2[m]], heap[m], m, o2, keys, placeholder) {
      if m == n {
        TracedMono(heap[src], heap[n], n, origin, o2, keys, placeholder);
      } else {
        TracedMono(heap[origin[m]], heap[m], m, origin, o2, keys, placeholder);
      }
    }
  }

  /** A property of a clone against the same property of its original: same
      key; a primitive under a masked key, other than `null` and `undefined`,
      replaced by the placeholder; every other primitive copied; an object
      replaced by a reference. */
  predicate PropMasked(p: Prop, q: Prop, keys: seq<Value>, placeholder: Value) {
    && q.key == p.key
    && (p.value.Ref? ==> q.value.Ref?)
    && (!p.value.Ref? ==> q.value == if KeyMasked(keys, p.key) && !IsNullish(p.value) then placeholder else p.value)
  }

  /** Masking at every depth: in every clone of a traversal, whatever its
      depth, the properties are the original's with the masked ones replaced,
      and no property under a masked key keeps a primitive other than the
      placeholder, `null` or `undefined`. */
  lemma MaskedAtEveryDepth(heap: Heap, origin: map<Id, Id>, base: nat, keys: seq<Value>, placeholder: Value, n: Id)
    requires Faithful(heap, origin, base, keys, placeholder) && n in origin && heap[n].PlainObj?
    ensures heap[origin[n]].PlainObj? && |heap[origin[n]].props| == |heap[n].props|
    ensures forall i :: 0 <= i < |heap[n].props| ==> PropMasked(heap[origin[n]].props[i], heap[n].props[i], keys, placeholder)
    ensures forall i :: 0 <= i < |heap[n].props| ==>
      KeyMasked(keys, heap[n].props[i].key) && !heap[n].props[i].value.Ref? && !IsNullish(heap[n].props[i].value) ==>
        heap[n].props[i].value == placeholder
  {
    var src := heap[origin[n]];
    assert Traced(src, heap[n], n, origin, keys, placeholder);
    forall i | 0 <= i < |heap[n].props| ensures PropMasked(src.props[i], heap[n].props[i], keys, placeholder) {
      assert PropTraced(src.props[i], heap[n].props[i], n, origin, keys, placeholder);
    }
  }

  /** With a placeholder that is not an object, every reference a clone holds
      leads to a clone. */
  lemma ClonesClosed(heap: Heap, origin: map<Id, Id>, base: nat, keys: seq<Value>, placeholder: Value, n: Id)
    requires Faithful(heap, origin, base, keys, placeholder) && !placeholder.Ref? && n in origin
    ensures forall i :: 0 <= i < |Children(heap[n])| ==> Children(heap[n])[i].Ref? ==> Children(heap[n])[i].id in origin
  {
    var src := heap[origin[n]];
    assert Traced(src, heap[n], n, origin, keys, placeholder);
    forall i | 0 <= i < |Children(heap[n])| && Children(heap[n])[i].Ref? ensures Children(heap[n])[i].id in origin {
      match src
      case DateObj(_) =>
      case ArrayObj(es) =>
        assert ElementTraced(es[i], heap[n].elems[i], origin);
      case PlainObj(ps, _, _, _, _) =>
        assert Children(heap[n])[i] == heap[n].props[i].value;
        assert PropTraced(ps[i], heap[n].props[i], n, origin, keys, placeholder);
    }
  }

  /** `path` is a chain of references from the object `from`: each object on
      it is referred to by the one before. */
  predicate Chain(heap: Heap, from: Id, path: seq<Id>)
    decreases |path|
  {
    path == [] || (from < |heap| && Ref(path[0]) in Children(heap[from]) && Chain(heap, path[0], path[1..]))
  }

  /** Everything reachable from a clone is a clone, so masking holds in the
      whole object graph a masked log argument leads to. */
  lemma {:induction false} ReachableClones(heap: Heap, origin: map<Id, Id>, base: nat, keys: seq<Value>, placeholder: Value, from: Id, path: seq<Id>)
    requires Faithful(heap, origin, base, keys, placeholder) && !placeholder.Ref?
    requires from in origin && Chain(heap, from, path)
    ensures forall k :: 0 <= k < |path| ==> path[k] in origin
    decreases |path|
  {
    if path != [] {
      ClonesClosed(heap, origin, base, keys, placeholder, from);
      var i :| 0 <= i < |Children(heap[from])| && Children(heap[from])[i] == Ref(path[0]);
      assert path[0] in origin;
      ReachableClones(heap, origin, base, keys, placeholder, path[0], path[1..]);
      forall k | 1 <= k < |path| ensures path[k] in origin {
        assert path[k] == path[1..][k - 1];
      }
    }
  }

  /** The values of `heap` that a cloner shares: the heap grows, the list of
      visited objects grows. The ghost `base` and `origin` describe the
      current traversal: the originals lie below `base`, and `origin` maps
      every clone finished so far to its original. */
  class Cloner {
    var heap: Heap
    var done: seq<Id>
    ghost var base: nat
    ghost var origin: map<Id, Id>

    ghost predicate Valid()
      reads this
    {
      && Closed(heap)
      && (forall i :: 0 <= i < |done| ==> done[i] < |heap|)
      && base <= |heap|
      && (forall k :: 0 <= k < base ==> PointsBelow(heap[k], base))
    }

    constructor(heap0: Heap)
      requires Closed(heap0)
      ensures Valid() && heap == heap0 && done == [] && origin == map[]
    {
      heap := heap0;
      done := [];
      base := |heap0|;
      origin := map[];
    }

    /** Appends `o` to the heap. */
    method Alloc(o: JsObject) returns (id: Id)
      requires Valid() && PointsBelow(o, |heap| + 1)
      modifies this
      ensures Valid()
      ensures id == |old(heap)| && heap == old(heap) + [o] && done == old(done)
      ensures base == old(base) && origin == old(origin)
    {
      id := |heap|;
      heap := heap + [o];
      PointsBelowGrows(old(heap), |heap|);
      assert forall k :: 0 <= k < base ==> heap[k] == old(heap)[k];
    }

    /** `cloneObjectRecursively(obj, maskValuesFn, done)` with the mask
        function of `keys` and `placeholder`. `fuel` bounds the depth of the
        recursion; `None` is the call stack running out, which the source
        reports as a `RangeError`. */
    method Clone(id: Id, keys: seq<Value>, placeholder: Value, fuel: nat) returns (r: Option<Id>)
      requires Valid() && id < base && InHeap(placeholder, heap)
      requires Faithful(heap, origin, base, keys, placeholder)
      modifies this
      decreases fuel, 3
      ensures Valid() && base == old(base)
      ensures Faithful(heap, origin, base, keys, placeholder)
      ensures old(heap) <= heap && old(done) <= done && Grows(old(origin), |old(heap)|, origin)
      ensures r.Some? ==>
        && |old(heap)| <= r.value < |heap|
        && r.value in origin && origin[r.value] == id
        && old(done) + [id] <= done
        && ClonedFrom(old(heap)[id], heap[r.value], r.value, old(done) + [id], |old(heap)|, keys, placeholder)
      ensures fuel > 0 && (old(heap)[id].DateObj? || FlatOver(old(heap)[id], old(done) + [id])) ==> r.Some?
      ensures old(heap)[id].ArrayObj? && Ref(id) in old(heap)[id].elems ==> r.None?
    {
      if fuel == 0 {
        return None;
      }
      done := done + [id];
      match heap[id]
      case DateObj(t) => {
        var c := Alloc(DateObj(t));
        FaithfulAppend(old(heap), origin, base, keys, placeholder, DateObj(t));
        assert c !in origin;
        assert heap[id] == DateObj(t);
        FaithfulAdd(heap, origin, base, keys, placeholder, c, id);
        GrowsAdd(origin, |old(heap)|, origin, c, id);
        origin := origin[c := id];
        return Some(c);
      }
      case ArrayObj(es) => {
        r := CloneArray(id, keys, placeholder, fuel);
      }
      case PlainObj(_, _, _, _, _) => {
        r := ClonePlain(id, keys, placeholder, fuel);
      }
    }

    /** The array branch: a new array of the cloned elements. */
    method CloneArray(id: Id, keys: seq<Value>, placeholder: Value, fuel: nat) returns (r: Option<Id>)
      requires Valid() && id < base && InHeap(placeholder, heap) && heap[id].ArrayObj?
      requires Faithful(heap, origin, base, keys, placeholder)
      requires fuel > 0
      modifies this
      decreases fuel, 2
      ensures Valid() && base == old(base)
      ensures Faithful(heap, origin, base, keys, placeholder)
      ensures old(heap) <= heap && old(done) <= done && Grows(old(origin), |old(heap)|, origin)
      ensures r.Some? ==>
        && |old(heap)| <= r.value < |heap|
        && r.value in origin && origin[r.value] == id
        && ClonedFrom(old(heap)[id], heap[r.value], r.value, old(done), |old(heap)|, keys, placeholder)
      ensures Ref(id) in old(heap)[id].elems ==> r.None?
    {
      var es := heap[id].elems;
      var out := CloneElements(id, keys, placeholder, fuel);
      if out.None? {
        return None;
      }
      assert PointsBelow(ArrayObj(out.value), |heap| + 1);
      ghost var h1 := heap;
      var c := Alloc(ArrayObj(out.value));
      FaithfulAppend(h1, origin, base, keys, placeholder, ArrayObj(out.value));
      assert c !in origin;
      assert heap[c] == ArrayObj(out.value);
      assert heap[id] == old(heap)[id] == ArrayObj(es);
      assert Traced(heap[id], heap[c], c, origin, keys, placeholder);
      FaithfulAdd(heap, origin, base, keys, placeholder, c, id);
      GrowsAdd(old(origin), |old(heap)|, origin, c, id);
      origin := origin[c := id];
      return Some(c);
    }

    /** `Object.entries(obj).map(...)` over the array `id`: every element
        cloned, in order, with no look at `done`; `None` when the recursion
        runs out of stack. */
    method CloneElements(id: Id, keys: seq<Value>, placeholder: Value, fuel: nat) returns (out: Option<seq<Value>>)
      requires Valid() && id < base && InHeap(placeholder, heap) && heap[id].ArrayObj?
      requires Faithful(heap, origin, base, keys, placeholder)
      requires fuel > 0
      modifies this
      decreases fuel, 1
      ensures Valid() && base == old(base)
      ensures Faithful(heap, origin, base, keys, placeholder)
      ensures old(heap) <= heap && old(done) <= done && Grows(old(origin), |old(heap)|, origin)
      ensures out.Some? ==>
        && |out.value| == |old(heap)[id].elems|
        && ElementsCloned(old(heap)[id].elems, out.value, |old(heap)|, origin, |heap|)
      ensures Ref(id) in old(heap)[id].elems ==> out.None?
    {
      var es := heap[id].elems;
      var acc: seq<Value> := [];
      var i := 0;
      while i < |es|
        invariant 0 <= i <= |es| && |acc| == i
        invariant Valid() && old(heap) <= heap && old(done) <= done && base == old(base)
        invariant Faithful(heap, origin, base, keys, placeholder) && Grows(old(origin), |old(heap)|, origin)
        invariant ElementsCloned(es, acc, |old(heap)|, origin, |heap|)
        invariant forall j :: 0 <= j < i ==> es[j] != Ref(id)
      {
        var v := es[i];
        assert heap[id] == old(heap)[id];
        assert v.Ref? ==> Children(heap[id])[i] == v;
        ghost var o1, n1 := origin, |heap|;
        var w := CloneElement(v, |old(heap)|, keys, placeholder, fuel);
        if w.None? {
          return None;
        }
        GrowsTrans(old(origin), |old(heap)|, o1, n1, origin);
        ElementsClonedMono(es, acc, |old(heap)|, o1, n1, origin, |heap|);
        ElementsClonedSnoc(es, acc, |old(heap)|, origin, |heap|, w.value);
        acc := acc + [w.value];
        i := i + 1;
      }
      return Some(acc);
    }

    /** The plain-object branch: the clone is allocated first with the same
        prototype, then filled key by key. */
    method ClonePlain(id: Id, keys: seq<Value>, placeholder: Value, fuel: nat) returns (r: Option<Id>)
      requires Valid() && id < base && InHeap(placeholder, heap) && heap[id].PlainObj?
      requires Faithful(heap, origin, base, keys, placeholder)
      requires fuel > 0
      modifies this
      decreases fuel, 2
      ensures Valid() && base == old(base)
      ensures Faithful(heap, origin, base, keys, placeholder)
      ensures old(heap) <= heap && old(done) <= done && Grows(old(origin), |old(heap)|, origin)
      ensures r.Some? ==>
        && |old(heap)| <= r.value < |heap|
        && r.value in origin && origin[r.value] == id
        && ClonedFrom(old(heap)[id], heap[r.value], r.value, old(done), |old(heap)|, keys, placeholder)
      ensures FlatOver(old(heap)[id], old(done)) ==> r.Some?
    {
      var ps := heap[id].props;
      var proto := heap[id].proto;
      var ep := heap[id].errorProto;
      FaithfulAppend(heap, origin, base, keys, placeholder, PlainObj([], proto, ep, false, None));
      var self := Alloc(PlainObj([], proto, ep, false, None));
      assert self !in origin;
      var out := CloneProps(id, self, keys, placeholder, fuel);
      if out.None? {
        return None;
      }
      Finish(id, self, out.value, old(done), old(origin), |old(heap)|, keys, placeholder);
      return Some(self);
    }

    /** `return clonedObject`: the clone `self` of the plain object `id` gets
        its properties `out` and is recorded as a finished clone. */
    method Finish(id: Id, self: Id, out: seq<Prop>, ghost seen: seq<Id>, ghost o0: map<Id, Id>, ghost n0: nat, keys: seq<Value>, placeholder: Value)
      requires Valid() && id < base && heap[id].PlainObj? && Faithful(heap, origin, base, keys, placeholder)
      requires base <= self < |heap| && self !in origin && |out| == |heap[id].props|
      requires PropsCloned(heap[id].props, out, self, seen, self, origin, |heap|, keys, placeholder)
      requires Grows(o0, n0, origin) && n0 <= self
      modifies this
      ensures Valid() && base == old(base) && done == old(done)
      ensures Faithful(heap, origin, base, keys, placeholder) && Grows(o0, n0, origin)
      ensures heap == old(heap)[self := PlainObj(out, old(heap)[id].proto, old(heap)[id].errorProto, false, None)]
      ensures self in origin && origin[self] == id
      ensures ClonedFrom(heap[id], heap[self], self, seen, self, keys, placeholder)
    {
      var clone := PlainObj(out, heap[id].proto, heap[id].errorProto, false, None);
      assert PointsBelow(clone, |heap|);
      FaithfulUpdate(heap, origin, base, keys, placeholder, self, clone);
      heap := heap[self := clone];
      assert heap[self] == clone;
      assert heap[id] == old(heap)[id];
      assert Traced(heap[id], heap[self], self, origin, keys, placeholder);
      FaithfulAdd(heap, origin, base, keys, placeholder, self, id);
      GrowsAdd(o0, n0, origin, self, id);
      origin := origin[self := id];
    }

    /** `Object.getOwnPropertyNames(obj).forEach(...)` over the plain object
        `id`, filling the clone `self` allocated just before: the values of
        its properties, in order, or `None` when the recursion runs out of
        stack. */
    method CloneProps(id: Id, self: Id, keys: seq<Value>, placeholder: Value, fuel: nat) returns (out: Option<seq<Prop>>)
      requires Valid() && id < base && InHeap(placeholder, heap) && heap[id].PlainObj?
      requires Faithful(heap, origin, base, keys, placeholder)
      requires base <= self < |heap| && self !in origin && fuel > 0
      modifies this
      decreases fuel, 1
      ensures Valid() && base == old(base)
      ensures Faithful(heap, origin, base, keys, placeholder) && self !in origin
      ensures old(heap) <= heap && old(done) <= done && Grows(old(origin), |old(heap)|, origin)
      ensures out.Some? ==>
        && |out.value| == |old(heap)[id].props|
        && PropsCloned(old(heap)[id].props, out.value, self, old(done), self, origin, |heap|, keys, placeholder)
      ensures FlatOver(old(heap)[id], old(done)) ==> out.Some? && done == old(done)
    {
      var ps := heap[id].props;
      var acc: seq<Prop> := [];
      var i := 0;
      while i < |ps|
        invariant 0 <= i <= |ps| && |acc| == i
        invariant Valid() && old(heap) <= heap && old(done) <= done && self < |heap|
        invariant base == old(base) && Faithful(heap, origin, base, keys, placeholder) && self !in origin
        invariant Grows(old(origin), |old(heap)|, origin)
        invariant PropsCloned(ps, acc, self, old(done), self, origin, |heap|, keys, placeholder)
        invariant FlatOver(old(heap)[id], old(done)) ==> done == old(done)
      {
        var p := ps[i];
        assert heap[id] == old(heap)[id];
        assert p.value.Ref? ==> Children(heap[id])[i] == p.value;
        ghost var o1, n1 := origin, |heap|;
        var value := CloneProp(self, p, old(done), self, keys, placeholder, fuel);
        if value.None? {
          return None;
        }
        GrowsTrans(old(origin), |old(heap)|, o1, n1, origin);
        PropsClonedMono(ps, acc, self, old(done), self, o1, n1, origin, |heap|, keys, placeholder);
        PropsClonedSnoc(ps, acc, self, old(done), self, origin, |heap|, keys, placeholder, Prop(p.key, value.value, true));
        acc := acc + [Prop(p.key, value.value, true)];
        i := i + 1;
      }
      return Some(acc);
    }

    /** The callback of `Object.entries(obj).map(...)`: a primitive or
        nullish element as it is, an object cloned (the result being `None`
        when the recursion runs out of stack). */
    method CloneElement(v: Value, ghost base0: nat, keys: seq<Value>, placeholder: Value, fuel: nat) returns (w: Option<Value>)
      requires Valid() && InHeap(placeholder, heap) && Faithful(heap, origin, base, keys, placeholder)
      requires (v.Ref? ==> v.id < base) && base0 <= |heap| && fuel > 0
      modifies this
      decreases fuel, 0
      ensures Valid() && base == old(base) && Faithful(heap, origin, base, keys, placeholder)
      ensures old(heap) <= heap && old(done) <= done && Grows(old(origin), |old(heap)|, origin)
      ensures !v.Ref? ==> w == Some(v) && heap == old(heap) && origin == old(origin)
      ensures v.Ref? && old(heap)[v.id].ArrayObj? && v in old(heap)[v.id].elems ==> w.None?
      ensures w.Some? ==>
        && ElementCloned(v, w.value, base0) && ElementTraced(v, w.value, origin)
        && (w.value.Ref? ==> w.value.id < |heap|)
    {
      if !v.Ref? {
        return Some(v);
      }
      var c := Clone(v.id, keys, placeholder, fuel - 1);
      if c.None? {
        return None;
      }
      return Some(Ref(c.value));
    }

    /** The callback of `Object.getOwnPropertyNames(obj).forEach(...)`: the
        value the clone `self` gets for the property `p` of the original
        (`None` when the recursion runs out of stack). All of `seen` were
        visited before the clone was started. */
    method CloneProp(self: Id, p: Prop, ghost seen: seq<Id>, ghost base0: nat, keys: seq<Value>, placeholder: Value, fuel: nat)
      returns (value: Option<Value>)
      requires Valid() && InHeap(placeholder, heap) && Faithful(heap, origin, base, keys, placeholder)
      requires (p.value.Ref? ==> p.value.id < base) && seen <= done && base0 <= self < |heap| && fuel > 0
      modifies this
      decreases fuel, 0
      ensures Valid() && base == old(base) && Faithful(heap, origin, base, keys, placeholder)
      ensures old(heap) <= heap && old(done) <= done && Grows(old(origin), |old(heap)|, origin)
      ensures !p.value.Ref? || p.value.id in seen ==> value.Some? && done == old(done)
      ensures value.Some? ==>
        && PropCloned(p, Prop(p.key, value.value, true), self, seen, base0, keys, placeholder)
        && PropTraced(p, Prop(p.key, value.value, true), self, origin, keys, placeholder)
        && (value.value.Ref? ==> value.value.id < |heap|)
    {
      if p.value.Ref? && p.value.id in done {
        return Some(Ref(self));
      } else if IsNullish(p.value) {
        return Some(p.value);
      } else if !p.value.Ref? {
        return Some(MaskValue(keys, placeholder, p.key, p.value));
      }
      var c := Clone(p.value.id, keys, placeholder, fuel - 1);
      if c.None? {
        return None;
      }
      return Some(Ref(c.value));
    }

    /** `logObjectMaskValuesOfKeys(obj, keys, maskPlaceholder)` for an object
        or nullish `obj`; `keys` is `None` when the setting is not an array.
        The input itself comes back when there is nothing to mask or nothing
        to clone; otherwise a new clone, traced to `obj` together with every
        clone beneath it, or `None` when cloning ran out of stack. */
    method MaskValuesOfKeys(obj: Value, keys: Option<seq<Value>>, placeholder: Value, fuel: nat)
      returns (r: Option<Value>)
      requires Valid() && InHeap(obj, heap) && InHeap(placeholder, heap)
      requires obj.Ref? || IsNullish(obj)
      modifies this
      ensures Valid()
      ensures old(heap) <= heap
      ensures keys.None? || keys.value == [] || IsNullish(obj) ==> r == Some(obj) && heap == old(heap)
      ensures keys.Some? && keys.value != [] && obj.Ref? && r.Some? ==>
        && r.value.Ref? && |old(heap)| <= r.value.id < |heap|
        && ClonedFrom(old(heap)[obj.id], heap[r.value.id], r.value.id, [obj.id], |old(heap)|, keys.value, placeholder)
        && base == |old(heap)| && Faithful(heap, origin, base, keys.value, placeholder)
        && r.value.id in origin && origin[r.value.id] == obj.id
      ensures (&& keys.Some? && keys.value != [] && obj.Ref? && fuel > 0
               && (old(heap)[obj.id].DateObj? || FlatOver(old(heap)[obj.id], [obj.id])))
        ==> r.Some? && r.value.Ref?
    {
      if keys.None? || keys.value == [] {
        return Some(obj);
      }
      if IsNullish(obj) {
        return Some(obj);
      }
      done := [];
      base := |heap|;
      origin := map[];
      var c := Clone(obj.id, keys.value, placeholder, fuel);
      if c.None? {
        return None;
      }
      return Some(Ref(c.value));
    }

    /** What `_inspectAndHideSensitive` hands to `inspect`: the masked clone,
        or the original object when masking threw. */
    method MaskedForInspection(obj: Value, keys: Option<seq<Value>>, placeholder: Value, fuel: nat)
      returns (v: Value)
      requires Valid() && InHeap(obj, heap) && InHeap(placeholder, heap)
      requires obj.Ref? || IsNullish(obj)
      modifies this
      ensures Valid()
      ensures old(heap) <= heap
      ensures keys.None? || keys.value == [] || IsNullish(obj) ==> v == obj
      ensures keys.Some? && keys.value != [] && obj.Ref? ==>
        || v == obj
        || (&& v.Ref? && |old(heap)| <= v.id < |heap|
            && ClonedFrom(old(heap)[obj.id], heap[v.id], v.id, [obj.id], |old(heap)|, keys.value, placeholder)
            && base == |old(heap)| && Faithful(heap, origin, base, keys.value, placeholder)
            && v.id in origin && origin[v.id] == obj.id)
      ensures (&& keys.Some? && keys.value != [] && obj.Ref? && fuel > 0
               && (old(heap)[obj.id].DateObj? || FlatOver(old(heap)[obj.id], [obj.id])))
        ==> v != obj
      ensures InHeap(v, heap)
    {
      var r := MaskValuesOfKeys(obj, keys, placeholder, fuel);
      v := r.GetOr(obj);
    }
  }

  /** Appending to the heap keeps every reference in the old part below the
      new length. */
  lemma PointsBelowGrows(heap: Heap, n: nat)
    requires Closed(heap) && |heap| <= n
    ensures forall k :: 0 <= k < |heap| ==> PointsBelow(heap[k], n)
  {
  }
}
