/**
 * The runtime values that schema inference inspects and that a compiled
 * cloner copies. Objects live in an arena (a sequence indexed by object id),
 * so identity is the index and cyclic object graphs are ordinary data.
 */
module JsHeap {

  type ObjId = nat

  /** The typed-array constructors, Buffer and ArrayBuffer. */
  datatype BinaryKind =
    | Buffer | Int8Array | Uint8Array | Uint8ClampedArray | Int16Array | Uint16Array
    | Int32Array | Uint32Array | Float32Array | Float64Array | BigInt64Array
    | BigUint64Array | ArrayBuffer

  /**
   * A JavaScript value. Primitives carry an abstract payload (numbers are
   * integers here); `Func` and `Sym` carry an identity. `Exotic` is a host
   * value whose `typeof` is none of the kinds tested by inference.
   */
  datatype Value =
    | Undefined
    | Null
    | Num(num: int)
    | Str(str: string)
    | Bool(truth: bool)
    | Func(fid: nat)
    | Sym(sid: nat)
    | Big(big: int)
    | Exotic
    | Ref(obj: ObjId)

  /** One key of a `for..in` enumeration: its value and whether it is an own property. */
  datatype Prop = Prop(name: string, value: Value, own: bool)

  datatype Entry = Entry(key: Value, val: Value)

  /**
   * A heap object. `ListObj` is an iterable with `length` and indexes that is
   * not an Array (an `arguments` object). `RecordObj` lists the keys `for..in`
   * visits, own keys and inherited enumerable keys alike, in that order.
   */
  datatype Obj =
    | DateObj(time: int)
    | BinaryObj(kind: BinaryKind, contents: seq<int>)
    | MapObj(entries: seq<Entry>)
    | SetObj(members: seq<Value>)
    | ArrayObj(elems: seq<Value>)
    | ListObj(elems: seq<Value>)
    | RecordObj(props: seq<Prop>)

  type Heap = seq<Obj>

  /** `v` refers to no object outside the first `n` objects. */
  predicate Below(v: Value, n: nat) {
    v.Ref? ==> v.obj < n
  }

  function PropValues(ps: seq<Prop>): (vs: seq<Value>)
    ensures |vs| == |ps|
    ensures forall i :: 0 <= i < |ps| ==> vs[i] == ps[i].value
  {
    if ps == [] then [] else [ps[0].value] + PropValues(ps[1..])
  }

  function EntryValues(es: seq<Entry>): (vs: seq<Value>)
    ensures |vs| == 2 * |es|
    ensures forall i :: 0 <= i < |es| ==> vs[2 * i] == es[i].key && vs[2 * i + 1] == es[i].val
  {
    if es == [] then [] else [es[0].key, es[0].val] + EntryValues(es[1..])
  }

  /** Every value an object holds directly. */
  function Contents(o: Obj): seq<Value> {
    match o
    case DateObj(_) => []
    case BinaryObj(_, _) => []
    case MapObj(es) => EntryValues(es)
    case SetObj(ms) => ms
    case ArrayObj(es) => es
    case ListObj(es) => es
    case RecordObj(ps) => PropValues(ps)
  }

  predicate ObjBelow(o: Obj, n: nat) {
    forall v <- Contents(o) :: Below(v, n)
  }

  /** A heap without dangling references. */
  predicate Valid(h: Heap) {
    forall i :: 0 <= i < |h| ==> ObjBelow(h[i], |h|)
  }

  lemma {:induction false} ElemBelow(h: Heap, o: ObjId, i: nat)
    requires Valid(h) && o < |h|
    requires (h[o].ArrayObj? || h[o].ListObj?) && i < |h[o].elems|
    ensures Below(h[o].elems[i], |h|)
  {
    assert h[o].elems[i] in Contents(h[o]);
  }

  lemma {:induction false} PropBelow(h: Heap, o: ObjId, p: Prop)
    requires Valid(h) && o < |h|
    requires h[o].RecordObj? && p in h[o].props
    ensures Below(p.value, |h|)
  {
    var i :| 0 <= i < |h[o].props| && h[o].props[i] == p;
    assert PropValues(h[o].props)[i] == p.value;
  }
}
