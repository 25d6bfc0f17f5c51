/**
 * The code `createClonerCode` emits, as a tree instead of JavaScript text.
 * Every fragment denotes a copy of one input value (the `inputName` the
 * source threads through as text), so field access and the rebinding of a
 * cycle helper's parameter are structural here.
 */
module Fragments {

  datatype FieldCode = FieldCode(name: string, code: Frag)

  datatype Frag =
    | Ident                               // the input expression itself
    | NewBigInt                           // new BigInt(input)
    | NewDate                             // new Date(input)
    | NullLit                             // null
    | UndefLit                            // undefined
    | Subarray                            // input.subarray()
    | NaiveMap                            // new Map, each value snapshotted through JSON
    | NaiveSet                            // new Set, each member snapshotted through JSON
    | MapWith(valueCode: Frag)            // new Map, each value copied by valueCode
    | SetWith(memberCode: Frag)           // new Set, each member copied by memberCode
    | ArrayLikeMap(itemCode: Frag)        // Array.prototype.map.call(input, ...)
    | EmptyArray                          // []
    | ArrayMap(itemCode: Frag)            // input.map(...)
    | CustomCall                          // a call of a registered custom function
    | Record(fields: seq<FieldCode>)      // an object literal, one copied key per field
    | CycleWrap(getter: nat, body: seq<FieldCode>)  // the self-recursive helper `cycle<getter>`
    | CycleCall(getter: nat)              // cycle<getter>(input)
    | Guarded(inner: Frag)                // cycleObjs.has(input) ? cycleObjs.get(input) : inner

  /** The keys a record copy writes, as an object literal or as a cycle helper's body. */
  function RecordBody(f: Frag): seq<FieldCode>
    requires f.Record? || f.CycleWrap?
  {
    if f.Record? then f.fields else f.body
  }

  /** Helper names called but not defined by an enclosing `CycleWrap`. */
  function FreeCalls(f: Frag): set<nat> {
    match f
    case MapWith(c) => FreeCalls(c)
    case SetWith(c) => FreeCalls(c)
    case ArrayLikeMap(c) => FreeCalls(c)
    case ArrayMap(c) => FreeCalls(c)
    case Record(fs) => FieldsFreeCalls(fs)
    case CycleWrap(k, fs) => FieldsFreeCalls(fs) - {k}
    case CycleCall(k) => {k}
    case Guarded(c) => FreeCalls(c)
    case _ => {}
  }

  function FieldsFreeCalls(fs: seq<FieldCode>): set<nat> {
    if fs == [] then {} else FreeCalls(fs[0].code) + FieldsFreeCalls(fs[1..])
  }

  /** A field's free calls are free calls of the field list. */
  lemma {:induction false} FieldFreeCalls(fs: seq<FieldCode>, i: nat)
    requires i < |fs|
    ensures FreeCalls(fs[i].code) <= FieldsFreeCalls(fs)
  {
    if i > 0 {
      FieldFreeCalls(fs[1..], i - 1);
      assert fs[1..][i - 1] == fs[i];
    }
  }

  /** Helper names a fragment mentions at all, defined or called. */
  function Helpers(f: Frag): set<nat> {
    match f
    case MapWith(c) => Helpers(c)
    case SetWith(c) => Helpers(c)
    case ArrayLikeMap(c) => Helpers(c)
    case ArrayMap(c) => Helpers(c)
    case Record(fs) => FieldsHelpers(fs)
    case CycleWrap(k, fs) => {k} + FieldsHelpers(fs)
    case CycleCall(k) => {k}
    case Guarded(c) => Helpers(c)
    case _ => {}
  }

  function FieldsHelpers(fs: seq<FieldCode>): set<nat> {
    if fs == [] then {} else Helpers(fs[0].code) + FieldsHelpers(fs[1..])
  }

  /** The keys of every object literal in a fragment, at any depth. */
  function FieldNames(f: Frag): set<string> {
    match f
    case MapWith(c) => FieldNames(c)
    case SetWith(c) => FieldNames(c)
    case ArrayLikeMap(c) => FieldNames(c)
    case ArrayMap(c) => FieldNames(c)
    case Record(fs) => FieldsNames(fs)
    case CycleWrap(_, fs) => FieldsNames(fs)
    case Guarded(c) => FieldNames(c)
    case _ => {}
  }

  function FieldsNames(fs: seq<FieldCode>): set<string> {
    if fs == [] then {} else {fs[0].name} + FieldNames(fs[0].code) + FieldsNames(fs[1..])
  }

  /** A field's key is a key of the field list. */
  lemma {:induction false} FieldNameIn(fs: seq<FieldCode>, i: nat)
    requires i < |fs|
    ensures fs[i].name in FieldsNames(fs)
  {
    if i > 0 {
      FieldNameIn(fs[1..], i - 1);
      assert fs[1..][i - 1] == fs[i];
    }
  }

  /** Fragments whose value is always a newly built object (or, guarded, an earlier copy). */
  predicate Allocating(f: Frag) {
    match f
    case NewDate => true
    case Subarray => true
    case MapWith(_) => true
    case SetWith(_) => true
    case ArrayLikeMap(_) => true
    case EmptyArray => true
    case ArrayMap(_) => true
    case Record(_) => true
    case CycleWrap(_, _) => true
    case Guarded(c) => Allocating(c)
    case _ => false
  }

  function Size(f: Frag): nat {
    match f
    case MapWith(c) => 1 + Size(c)
    case SetWith(c) => 1 + Size(c)
    case ArrayLikeMap(c) => 1 + Size(c)
    case ArrayMap(c) => 1 + Size(c)
    case Record(fs) => 1 + FieldsSize(fs)
    case CycleWrap(_, fs) => 1 + FieldsSize(fs)
    case Guarded(c) => 1 + Size(c)
    case _ => 1
  }

  function FieldsSize(fs: seq<FieldCode>): nat {
    if fs == [] then 0 else Size(fs[0].code) + FieldsSize(fs[1..])
  }
}
