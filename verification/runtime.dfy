/**
 * What the code `createCloner` compiles does when it is called: an
 * interpreter for fragments over the heap. A fragment denotes the copy of
 * one input value; `cycleObjs` maps each input a cycle helper has entered
 * to the object that stands for its copy. A cycle helper is a named
 * function expression, so its name is in scope only inside its own body:
 * `defs` holds the helpers enclosing the fragment being evaluated, and a
 * call of any other helper name is a `ReferenceError`. Scope is lexical:
 * a helper is a closure over the helpers in scope where it was defined,
 * and a call runs its body in that scope, not in the caller's. Only helper
 * calls consume `fuel`; running out of it stands for unbounded recursion.
 */
module Runtime {
  import opened Results
  import opened JsHeap
  import opened Fragments

  datatype RunError =
    | TypeError        // a property read of null or undefined
    | ReferenceError   // a call of a helper name that is not in scope
    | NotModelled      // host behaviour outside this model
    | OutOfFuel

  datatype RunState = RunState(heap: Heap, cycleObjs: map<Value, ObjId>)

  datatype Run = Run(value: Value, rs: RunState)

  datatype RunProps = RunProps(props: seq<Prop>, rs: RunState)

  datatype RunValues = RunValues(values: seq<Value>, rs: RunState)

  datatype RunEntries = RunEntries(entries: seq<Entry>, rs: RunState)

  /** A cycle helper: the fields its body copies, closed over the helpers in scope where it was defined. */
  datatype Helper = Helper(body: seq<FieldCode>, env: map<nat, Helper>)

  /** The cycle helpers in scope, by name. */
  type Defs = map<nat, Helper>

  /** The scope of the body of helper `k`: its defining scope and its own name. */
  function Enter(k: nat, c: Helper): (defs: Defs)
    ensures k in defs && defs[k] == c && defs.Keys == c.env.Keys + {k}
  {
    c.env[k := c]
  }

  /** Helper `c`, named `k`, calls only itself and helpers of its own scope, and so do they. */
  ghost predicate HelperOk(k: nat, c: Helper)
    decreases c
  {
    && FieldsFreeCalls(c.body) <= c.env.Keys + {k}
    && forall j :: j in c.env ==> HelperOk(j, c.env[j])
  }

  /** Every helper in scope calls only helpers in its own scope. */
  ghost predicate Scoped(defs: Defs) {
    forall k :: k in defs ==> HelperOk(k, defs[k])
  }

  /** No dangling reference in the heap or in `cycleObjs`. */
  predicate RunOk(rs: RunState) {
    && Valid(rs.heap)
    && forall v :: v in rs.cycleObjs ==> rs.cycleObjs[v] < |rs.heap|
  }

  /**
   * `rs2` followed from `rs`: objects were only added, never changed, and
   * `cycleObjs` only gained entries, each pointing at an added object.
   */
  ghost predicate Grew(rs: RunState, rs2: RunState) {
    && RunOk(rs2)
    && |rs.heap| <= |rs2.heap|
    && (forall i :: 0 <= i < |rs.heap| ==> rs2.heap[i] == rs.heap[i])
    && (forall v :: v in rs.cycleObjs ==> v in rs2.cycleObjs && rs2.cycleObjs[v] == rs.cycleObjs[v])
    && (forall v :: v in rs2.cycleObjs && v !in rs.cycleObjs ==> |rs.heap| <= rs2.cycleObjs[v])
  }

  /** `v` is an object added after `rs`, or the copy `cycleObjs` already held. */
  predicate NewOrCopy(rs: RunState, v: Value) {
    v.Ref? && (|rs.heap| <= v.obj || v.obj in rs.cycleObjs.Values)
  }

  /**
   * The values `vs` copied by fragment `c` from `es`, once `rs` was reached:
   * fresh objects or earlier copies when `c` allocates, `es` itself when
   * `c` is the input expression.
   */
  predicate ValuesCopied(rs: RunState, c: Frag, es: seq<Value>, vs: seq<Value>) {
    && (Allocating(c) ==> forall v <- vs :: NewOrCopy(rs, v))
    && (c == Ident ==> vs == es)
  }

  /**
   * The entries `out` of a map copy: the keys of `es`, each value a fresh
   * object or an earlier copy when `c` allocates, the entries of `es`
   * themselves when `c` is the input expression.
   */
  ghost predicate EntriesCopied(rs: RunState, c: Frag, es: seq<Entry>, out: seq<Entry>) {
    && Keys(out) == Keys(es)
    && (Allocating(c) ==> forall e <- out :: NewOrCopy(rs, e.val))
    && (c == Ident ==> forall e <- out :: e in es)
  }

  /**
   * The members `out` of a set copy: no more than in `ms`, each a fresh
   * object or an earlier copy when `c` allocates, exactly the members of
   * `ms` when `c` is the input expression.
   */
  ghost predicate MembersCopied(rs: RunState, c: Frag, ms: seq<Value>, out: seq<Value>) {
    && |out| <= |ms|
    && (Allocating(c) ==> forall v <- out :: NewOrCopy(rs, v))
    && (c == Ident ==> forall u :: u in out <==> u in ms)
  }

  /**
   * The keys `ps` copied by `fs` from input `x`: a key whose fragment
   * allocates holds a fresh object or an earlier copy, and a key copied by
   * the input expression holds the input's own value under that name.
   */
  predicate FieldsCopied(rs: RunState, x: Value, fs: seq<FieldCode>, ps: seq<Prop>) {
    forall i :: 0 <= i < |fs| && i < |ps| ==>
      && (Allocating(fs[i].code) ==> NewOrCopy(rs, ps[i].value))
      && (fs[i].code == Ident && x.Ref? && x.obj < |rs.heap| && rs.heap[x.obj].RecordObj? ==>
            ps[i].value == Lookup(rs.heap[x.obj].props, fs[i].name))
  }

  /** The value of the first key called `name`, or `undefined`. */
  function Lookup(ps: seq<Prop>, name: string): (v: Value)
    ensures v == Undefined || exists p <- ps :: p.value == v
    ensures forall i :: 0 <= i < |ps| && ps[i].name == name && (forall j :: 0 <= j < i ==> ps[j].name != name) ==>
      v == ps[i].value
    ensures (forall p <- ps :: p.name != name) ==> v == Undefined
  {
    if ps == [] then Undefined
    else if ps[0].name == name then ps[0].value
    else Lookup(ps[1..], name)
  }

  /** `x.name`: own and inherited keys of a plain object; null and undefined throw. */
  function Get(h: Heap, x: Value, name: string): (r: Result<Value, RunError>)
    requires Valid(h) && Below(x, |h|)
    ensures r.Ok? ==> Below(r.value, |h|)
    ensures r == Err(TypeError) <==> x == Undefined || x == Null
    ensures x.Ref? && h[x.obj].RecordObj? ==> r == Ok(Lookup(h[x.obj].props, name))
  {
    match x
    case Undefined => Err(TypeError)
    case Null => Err(TypeError)
    case Ref(o) =>
      if h[o].RecordObj? then
        LookupBelow(h, o, name);
        Ok(Lookup(h[o].props, name))
      else Err(NotModelled)
    case _ => Err(NotModelled)
  }

  function Alloc(rs: RunState, o: Obj): (r: Run)
    requires RunOk(rs) && ObjBelow(o, |rs.heap| + 1)
    ensures |r.rs.heap| == |rs.heap| + 1 && r.rs.heap[|rs.heap|] == o
    ensures Grew(rs, r.rs) && r.value == Ref(|rs.heap|) && r.rs.cycleObjs == rs.cycleObjs
  {
    var h := rs.heap + [o];
    forall i | 0 <= i < |h| ensures ObjBelow(h[i], |h|) {
      if i < |rs.heap| {
        assert ObjBelow(rs.heap[i], |rs.heap|);
      }
    }
    Run(Ref(|rs.heap|), rs.(heap := h))
  }

  /** The keys of a map's entries. */
  function Keys(es: seq<Entry>): set<Value> {
    set e | e in es :: e.key
  }

  /** `m.set(k, v)`: overwrite the entry for `k`, or append one. */
  function MapSet(es: seq<Entry>, k: Value, v: Value): (r: seq<Entry>)
    ensures Entry(k, v) in r && Keys(r) == Keys(es) + {k}
    ensures forall e <- r :: e == Entry(k, v) || e in es
  {
    if es == [] then [Entry(k, v)]
    else if es[0].key == k then
      assert Keys(es) == {k} + Keys(es[1..]);
      [Entry(k, v)] + es[1..]
    else
      var rest := MapSet(es[1..], k, v);
      assert Keys(es) == {es[0].key} + Keys(es[1..]);
      assert Keys([es[0]] + rest) == {es[0].key} + Keys(rest);
      [es[0]] + rest
  }

  /** `m.add(v)`: a member is kept once. */
  function SetAdd(ms: seq<Value>, v: Value): (r: seq<Value>)
    ensures forall u :: u in r <==> u in ms || u == v
    ensures |r| <= |ms| + 1
  {
    if v in ms then ms else ms + [v]
  }

  /** The copy of `x` that fragment `f` builds. */
  function Eval(defs: Defs, f: Frag, x: Value, rs: RunState, fuel: nat): (r: Result<Run, RunError>)
    requires RunOk(rs) && Below(x, |rs.heap|)
    ensures r.Ok? ==> Grew(rs, r.value.rs) && Below(r.value.value, |r.value.rs.heap|)
    ensures r.Ok? && Allocating(f) ==> NewOrCopy(rs, r.value.value)
    ensures f == Ident ==> r == Ok(Run(x, rs))
    ensures Scoped(defs) && FreeCalls(f) <= defs.Keys ==> r != Err(ReferenceError)
    decreases fuel, Size(f), 1, 0
  {
    match f
    case MapWith(_) => EvalNested(defs, f, x, rs, fuel)
    case SetWith(_) => EvalNested(defs, f, x, rs, fuel)
    case ArrayLikeMap(_) => EvalNested(defs, f, x, rs, fuel)
    case ArrayMap(_) => EvalNested(defs, f, x, rs, fuel)
    case Record(fs) => EvalRecord(defs, fs, x, rs, fuel)
    case CycleWrap(k, fs) => EvalWrap(defs, k, fs, x, rs, fuel)
    case CycleCall(k) => EvalCall(defs, k, x, rs, fuel)
    case Guarded(c) =>
      if x in rs.cycleObjs then Ok(Run(Ref(rs.cycleObjs[x]), rs))
      else Eval(defs, c, x, rs, fuel)
    case _ => EvalLeaf(f, x, rs)
  }

  /** The collections: a new collection, each entry, member or element copied by the nested code. */
  function EvalNested(defs: Defs, f: Frag, x: Value, rs: RunState, fuel: nat): (r: Result<Run, RunError>)
    requires RunOk(rs) && Below(x, |rs.heap|)
    requires f.MapWith? || f.SetWith? || f.ArrayLikeMap? || f.ArrayMap?
    ensures r.Ok? ==> Grew(rs, r.value.rs) && Below(r.value.value, |r.value.rs.heap|)
    ensures r.Ok? ==> NewOrCopy(rs, r.value.value)
    ensures Scoped(defs) && FreeCalls(f) <= defs.Keys ==> r != Err(ReferenceError)
    decreases fuel, Size(f), 0, 0
  {
    match f
    case MapWith(c) => EvalMap(defs, c, x, rs, fuel)
    case SetWith(c) => EvalSet(defs, c, x, rs, fuel)
    case ArrayLikeMap(c) => EvalArray(defs, c, x, true, rs, fuel)
    case ArrayMap(c) => EvalArray(defs, c, x, false, rs, fuel)
  }

  /**
   * A named function expression `cycle<k>`, applied at once: a closure over
   * the helpers in scope here, whose body also sees its own name.
   */
  function EvalWrap(defs: Defs, k: nat, fs: seq<FieldCode>, x: Value, rs: RunState, fuel: nat): (r: Result<Run, RunError>)
    requires RunOk(rs) && Below(x, |rs.heap|)
    ensures r.Ok? ==> Grew(rs, r.value.rs) && Below(r.value.value, |r.value.rs.heap|)
    ensures r.Ok? ==> NewOrCopy(rs, r.value.value)
    ensures Scoped(defs) && FieldsFreeCalls(fs) - {k} <= defs.Keys ==> r != Err(ReferenceError)
    decreases fuel, FieldsSize(fs), 4, 0
  {
    ScopedWrap(defs, k, fs);
    EvalHelper(Enter(k, Helper(fs, defs)), fs, x, rs, fuel)
  }

  /** Defining a helper whose body calls only itself and helpers in scope keeps its body's scope sound. */
  lemma {:induction false} ScopedWrap(defs: Defs, k: nat, fs: seq<FieldCode>)
    ensures Scoped(defs) && FieldsFreeCalls(fs) - {k} <= defs.Keys ==>
      var inner := Enter(k, Helper(fs, defs));
      Scoped(inner) && FieldsFreeCalls(fs) <= inner.Keys
  {
    if Scoped(defs) && FieldsFreeCalls(fs) - {k} <= defs.Keys {
      assert HelperOk(k, Helper(fs, defs));
    }
  }

  /** The body of a sound helper runs in a sound scope that binds every name it calls. */
  lemma {:induction false} ScopedCall(defs: Defs, k: nat)
    requires k in defs
    ensures Scoped(defs) ==>
      var inner := Enter(k, defs[k]);
      Scoped(inner) && FieldsFreeCalls(defs[k].body) <= inner.Keys
  {
    if Scoped(defs) {
      assert HelperOk(k, defs[k]);
    }
  }

  /**
   * `cycle<k>(input)`: a `ReferenceError` unless a helper `k` encloses the
   * call; the body then runs in the helper's own scope.
   */
  function EvalCall(defs: Defs, k: nat, x: Value, rs: RunState, fuel: nat): (r: Result<Run, RunError>)
    requires RunOk(rs) && Below(x, |rs.heap|)
    ensures r.Ok? ==> Grew(rs, r.value.rs) && Below(r.value.value, |r.value.rs.heap|)
    ensures k !in defs ==> r == Err(ReferenceError)
    ensures Scoped(defs) && k in defs ==> r != Err(ReferenceError)
    decreases fuel, 0, 4, 0
  {
    if k !in defs then Err(ReferenceError)
    else if fuel == 0 then Err(OutOfFuel)
    else
      ScopedCall(defs, k);
      EvalHelper(Enter(k, defs[k]), defs[k].body, x, rs, fuel - 1)
  }

  /**
   * The fragments without nested code. Host behaviour stays outside the
   * model: `new BigInt`, `subarray`, the JSON round trip of the naive
   * collections and user functions.
   */
  function EvalLeaf(f: Frag, x: Value, rs: RunState): (r: Result<Run, RunError>)
    requires RunOk(rs) && Below(x, |rs.heap|)
    ensures r.Ok? ==> Grew(rs, r.value.rs) && Below(r.value.value, |r.value.rs.heap|)
    ensures r.Ok? && Allocating(f) ==> NewOrCopy(rs, r.value.value)
    ensures r.Ok? && !Allocating(f) ==> r.value.rs == rs
    ensures r != Err(ReferenceError)
    ensures f == Ident ==> r == Ok(Run(x, rs))
  {
    match f
    case Ident => Ok(Run(x, rs))
    case NullLit => Ok(Run(Null, rs))
    case UndefLit => Ok(Run(Undefined, rs))
    case NewDate =>
      if x.Ref? && rs.heap[x.obj].DateObj? then Ok(Alloc(rs, DateObj(rs.heap[x.obj].time)))
      else Err(NotModelled)
    case EmptyArray => Ok(Alloc(rs, ArrayObj([])))
    case _ => Err(NotModelled)
  }

  /** `run` returned an object added after `rs`. */
  predicate Built(rs: RunState, run: Run) {
    run.value.Ref? && |rs.heap| <= run.value.obj < |run.rs.heap|
  }

  /** `new Map` filled by `forEach`: the same keys, each value copied by `c`. */
  function EvalMap(defs: Defs, c: Frag, x: Value, rs: RunState, fuel: nat): (r: Result<Run, RunError>)
    requires RunOk(rs) && Below(x, |rs.heap|)
    ensures x == Undefined || x == Null ==> r == Err(TypeError)
    ensures r.Ok? ==> Grew(rs, r.value.rs) && Built(rs, r.value)
    ensures r.Ok? ==>
      && x.Ref? && rs.heap[x.obj].MapObj?
      && r.value.rs.heap[r.value.value.obj].MapObj?
      && EntriesCopied(rs, c, rs.heap[x.obj].entries, r.value.rs.heap[r.value.value.obj].entries)
    ensures Scoped(defs) && FreeCalls(c) <= defs.Keys ==> r != Err(ReferenceError)
    decreases fuel, Size(c), 3, 0
  {
    if x == Undefined || x == Null then Err(TypeError)
    else if x.Ref? && rs.heap[x.obj].MapObj? then
      EntriesBelow(rs.heap, x.obj);
      var out :- EvalEntries(defs, c, rs.heap[x.obj].entries, [], rs, fuel);
      EntriesObjBelow(out.entries, |out.rs.heap|);
      EntriesFromEmpty(rs, c, rs.heap[x.obj].entries, out.entries);
      Ok(Alloc(out.rs, MapObj(out.entries)))
    else Err(NotModelled)
  }

  /** `new Set` filled by `forEach`: each member copied by `c`, added once. */
  function EvalSet(defs: Defs, c: Frag, x: Value, rs: RunState, fuel: nat): (r: Result<Run, RunError>)
    requires RunOk(rs) && Below(x, |rs.heap|)
    ensures x == Undefined || x == Null ==> r == Err(TypeError)
    ensures r.Ok? ==> Grew(rs, r.value.rs) && Built(rs, r.value)
    ensures r.Ok? ==>
      && x.Ref? && rs.heap[x.obj].SetObj?
      && r.value.rs.heap[r.value.value.obj].SetObj?
      && MembersCopied(rs, c, rs.heap[x.obj].members, r.value.rs.heap[r.value.value.obj].members)
    ensures Scoped(defs) && FreeCalls(c) <= defs.Keys ==> r != Err(ReferenceError)
    decreases fuel, Size(c), 3, 0
  {
    if x == Undefined || x == Null then Err(TypeError)
    else if x.Ref? && rs.heap[x.obj].SetObj? then
      MembersBelow(rs.heap, x.obj);
      var out :- EvalMembers(defs, c, rs.heap[x.obj].members, [], rs, fuel);
      MembersFromEmpty(rs, c, rs.heap[x.obj].members, out.values);
      Ok(Alloc(out.rs, SetObj(out.values)))
    else Err(NotModelled)
  }

  /**
   * `x.map(...)` on an array, or `Array.prototype.map.call(x, ...)` when
   * `arrayLike` (which also accepts an array-like object): a new array of
   * the same length, each element copied by `c`.
   */
  function EvalArray(defs: Defs, c: Frag, x: Value, arrayLike: bool, rs: RunState, fuel: nat)
    : (r: Result<Run, RunError>)
    requires RunOk(rs) && Below(x, |rs.heap|)
    ensures x == Undefined || x == Null ==> r == Err(TypeError)
    ensures r.Ok? ==> Grew(rs, r.value.rs) && Built(rs, r.value)
    ensures r.Ok? ==>
      && x.Ref? && (rs.heap[x.obj].ArrayObj? || (arrayLike && rs.heap[x.obj].ListObj?))
      && r.value.rs.heap[r.value.value.obj].ArrayObj?
      && |r.value.rs.heap[r.value.value.obj].elems| == |rs.heap[x.obj].elems|
      && ValuesCopied(rs, c, rs.heap[x.obj].elems, r.value.rs.heap[r.value.value.obj].elems)
    ensures Scoped(defs) && FreeCalls(c) <= defs.Keys ==> r != Err(ReferenceError)
    decreases fuel, Size(c), 3, 0
  {
    if x == Undefined || x == Null then Err(TypeError)
    else if x.Ref? && (rs.heap[x.obj].ArrayObj? || (arrayLike && rs.heap[x.obj].ListObj?)) then
      ElemsBelow(rs.heap, x.obj);
      var out :- EvalElems(defs, c, rs.heap[x.obj].elems, rs, fuel);
      Ok(Alloc(out.rs, ArrayObj(out.values)))
    else Err(NotModelled)
  }

  /** An object literal: a new object with one own key per field, in order. */
  function EvalRecord(defs: Defs, fs: seq<FieldCode>, x: Value, rs: RunState, fuel: nat): (r: Result<Run, RunError>)
    requires RunOk(rs) && Below(x, |rs.heap|)
    ensures r.Ok? ==> Grew(rs, r.value.rs) && Built(rs, r.value)
    ensures r.Ok? ==>
      && r.value.rs.heap[r.value.value.obj].RecordObj?
      && PropsOut(fs, r.value.rs.heap[r.value.value.obj].props, |r.value.rs.heap|)
      && FieldsCopied(rs, x, fs, r.value.rs.heap[r.value.value.obj].props)
    ensures Scoped(defs) && FieldsFreeCalls(fs) <= defs.Keys ==> r != Err(ReferenceError)
    decreases fuel, FieldsSize(fs), 3, 0
  {
    var out :- EvalFields(defs, fs, x, rs, fuel);
    PropsObjBelow(fs, out.props, |out.rs.heap|);
    Ok(Alloc(out.rs, RecordObj(out.props)))
  }

  /**
   * A call of a cycle helper whose body copies `fs`: an input entered
   * before yields its copy; otherwise an empty object is entered for it
   * first, then receives the copied fields (`Object.assign`).
   */
  function EvalHelper(defs: Defs, fs: seq<FieldCode>, x: Value, rs: RunState, fuel: nat): (r: Result<Run, RunError>)
    requires RunOk(rs) && Below(x, |rs.heap|)
    ensures r.Ok? ==> Grew(rs, r.value.rs) && Below(r.value.value, |r.value.rs.heap|)
    ensures r.Ok? ==> NewOrCopy(rs, r.value.value)
    ensures x in rs.cycleObjs ==> r == Ok(Run(Ref(rs.cycleObjs[x]), rs))
    ensures x !in rs.cycleObjs && r.Ok? ==>
      && r.value.value == Ref(|rs.heap|)
      && x in r.value.rs.cycleObjs && r.value.rs.cycleObjs[x] == |rs.heap|
      && r.value.rs.heap[|rs.heap|].RecordObj?
      && FieldsCopied(rs, x, fs, r.value.rs.heap[|rs.heap|].props)
    ensures Scoped(defs) && FieldsFreeCalls(fs) <= defs.Keys ==> r != Err(ReferenceError)
    decreases fuel, FieldsSize(fs), 3, 0
  {
    if x in rs.cycleObjs then Ok(Run(Ref(rs.cycleObjs[x]), rs))
    else
      var a := Alloc(rs, RecordObj([]));
      var rs1 := a.rs.(cycleObjs := rs.cycleObjs[x := |rs.heap|]);
      var out :- EvalFields(defs, fs, x, rs1, fuel);
      var rs2 := out.rs.(heap := out.rs.heap[|rs.heap| := RecordObj(out.props)]);
      HelperStep(rs, a.rs, rs1, out, rs2, x);
      FieldsCopiedGrew(rs, rs1, x, fs, out.props);
      Ok(Run(Ref(|rs.heap|), rs2))
  }

  /** An object literal's keys: each key read from the input and copied by its fragment. */
  function EvalFields(defs: Defs, fs: seq<FieldCode>, x: Value, rs: RunState, fuel: nat): (r: Result<RunProps, RunError>)
    requires RunOk(rs) && Below(x, |rs.heap|)
    ensures r.Ok? ==> Grew(rs, r.value.rs) && PropsOut(fs, r.value.props, |r.value.rs.heap|)
    ensures r.Ok? ==> FieldsCopied(rs, x, fs, r.value.props)
    ensures Scoped(defs) && FieldsFreeCalls(fs) <= defs.Keys ==> r != Err(ReferenceError)
    decreases fuel, FieldsSize(fs), 2, |fs|
  {
    if fs == [] then Ok(RunProps([], rs))
    else
      SizePositive(fs[0].code);
      var v :- Get(rs.heap, x, fs[0].name);
      var c :- Eval(defs, fs[0].code, v, rs, fuel);
      var rest :- EvalFields(defs, fs[1..], x, c.rs, fuel);
      FieldsOutStep(fs, rs, c, rest);
      FieldsCopiedStep(rs, x, fs, v, c, rest.props);
      Ok(RunProps([Prop(fs[0].name, c.value, true)] + rest.props, rest.rs))
  }

  /** The copied keys carry the fragments' names in order, as own keys, without dangling references. */
  predicate PropsOut(fs: seq<FieldCode>, ps: seq<Prop>, n: nat) {
    && |ps| == |fs|
    && forall i :: 0 <= i < |fs| ==> ps[i].name == fs[i].name && ps[i].own && Below(ps[i].value, n)
  }

  /** Each element copied by `c`, in order (`map` keeps the length and the order). */
  function EvalElems(defs: Defs, c: Frag, es: seq<Value>, rs: RunState, fuel: nat): (r: Result<RunValues, RunError>)
    requires RunOk(rs) && forall e <- es :: Below(e, |rs.heap|)
    ensures r.Ok? ==> Grew(rs, r.value.rs) && |r.value.values| == |es|
    ensures r.Ok? ==> forall v <- r.value.values :: Below(v, |r.value.rs.heap|)
    ensures r.Ok? ==> ValuesCopied(rs, c, es, r.value.values)
    ensures Scoped(defs) && FreeCalls(c) <= defs.Keys ==> r != Err(ReferenceError)
    decreases fuel, Size(c), 2, |es|
  {
    if es == [] then Ok(RunValues([], rs))
    else
      var v :- Eval(defs, c, es[0], rs, fuel);
      BelowGrew(rs, v.rs);
      var rest :- EvalElems(defs, c, es[1..], v.rs, fuel);
      ElemsStep(rs, v, rest);
      ValuesCopiedStep(rs, c, es, v, rest.values);
      Ok(RunValues([v.value] + rest.values, rest.rs))
  }

  /** `forEach` over a set, adding each copied member to `acc`. */
  function EvalMembers(defs: Defs, c: Frag, ms: seq<Value>, acc: seq<Value>, rs: RunState, fuel: nat)
    : (r: Result<RunValues, RunError>)
    requires RunOk(rs) && (forall e <- ms :: Below(e, |rs.heap|)) && (forall e <- acc :: Below(e, |rs.heap|))
    ensures r.Ok? ==> Grew(rs, r.value.rs) && forall v <- r.value.values :: Below(v, |r.value.rs.heap|)
    ensures r.Ok? ==> (forall v <- acc :: v in r.value.values) && |r.value.values| <= |acc| + |ms|
    ensures r.Ok? && Allocating(c) ==> forall v <- r.value.values :: v in acc || NewOrCopy(rs, v)
    ensures r.Ok? && c == Ident ==> forall u :: u in r.value.values <==> u in acc || u in ms
    ensures Scoped(defs) && FreeCalls(c) <= defs.Keys ==> r != Err(ReferenceError)
    decreases fuel, Size(c), 2, |ms|
  {
    if ms == [] then Ok(RunValues(acc, rs))
    else
      var v :- Eval(defs, c, ms[0], rs, fuel);
      BelowGrew(rs, v.rs);
      var rest :- EvalMembers(defs, c, ms[1..], SetAdd(acc, v.value), v.rs, fuel);
      GrewTrans(rs, v.rs, rest.rs);
      MembersStep(rs, c, ms, acc, v, rest.values);
      Ok(rest)
  }

  /** `forEach` over a map: each key kept, each value copied, set into `acc`. */
  function EvalEntries(defs: Defs, c: Frag, es: seq<Entry>, acc: seq<Entry>, rs: RunState, fuel: nat)
    : (r: Result<RunEntries, RunError>)
    requires RunOk(rs) && (forall e <- es :: Below(e.key, |rs.heap|) && Below(e.val, |rs.heap|))
    requires forall e <- acc :: Below(e.key, |rs.heap|) && Below(e.val, |rs.heap|)
    ensures r.Ok? ==> Grew(rs, r.value.rs)
    ensures r.Ok? ==> forall e <- r.value.entries :: Below(e.key, |r.value.rs.heap|) && Below(e.val, |r.value.rs.heap|)
    ensures r.Ok? ==> Keys(r.value.entries) == Keys(acc) + Keys(es)
    ensures r.Ok? && Allocating(c) ==> forall e <- r.value.entries :: e in acc || NewOrCopy(rs, e.val)
    ensures r.Ok? && c == Ident ==> forall e <- r.value.entries :: e in acc || e in es
    ensures Scoped(defs) && FreeCalls(c) <= defs.Keys ==> r != Err(ReferenceError)
    decreases fuel, Size(c), 2, |es|
  {
    if es == [] then Ok(RunEntries(acc, rs))
    else
      var v :- Eval(defs, c, es[0].val, rs, fuel);
      EntriesGrew(rs, v.rs, es, acc);
      var acc2 := MapSet(acc, es[0].key, v.value);
      var rest :- EvalEntries(defs, c, es[1..], acc2, v.rs, fuel);
      GrewTrans(rs, v.rs, rest.rs);
      EntriesStep(rs, c, es, acc, v, rest.entries);
      Ok(rest)
  }

  // ---------------------------------------------------------------------
  // Proof helpers
  // ---------------------------------------------------------------------

  lemma {:induction false} LookupBelow(h: Heap, o: ObjId, name: string)
    requires Valid(h) && o < |h| && h[o].RecordObj?
    ensures Below(Lookup(h[o].props, name), |h|)
  {
    var v := Lookup(h[o].props, name);
    if v != Undefined {
      var p :| p in h[o].props && p.value == v;
      PropBelow(h, o, p);
    }
  }

  lemma {:induction false} SizePositive(f: Frag)
    ensures Size(f) >= 1
  {
  }

  lemma {:induction false} ElemsBelow(h: Heap, o: ObjId)
    requires Valid(h) && o < |h| && (h[o].ArrayObj? || h[o].ListObj?)
    ensures forall e <- h[o].elems :: Below(e, |h|)
  {
    assert Contents(h[o]) == h[o].elems;
  }

  lemma {:induction false} MembersBelow(h: Heap, o: ObjId)
    requires Valid(h) && o < |h| && h[o].SetObj?
    ensures forall e <- h[o].members :: Below(e, |h|)
  {
    assert Contents(h[o]) == h[o].members;
  }

  lemma {:induction false} EntriesBelow(h: Heap, o: ObjId)
    requires Valid(h) && o < |h| && h[o].MapObj?
    ensures forall e <- h[o].entries :: Below(e.key, |h|) && Below(e.val, |h|)
  {
    var es := h[o].entries;
    forall e <- es ensures Below(e.key, |h|) && Below(e.val, |h|) {
      var i :| 0 <= i < |es| && es[i] == e;
      assert EntryValues(es)[2 * i] == e.key;
      assert EntryValues(es)[2 * i + 1] == e.val;
    }
  }

  lemma {:induction false} GrewTrans(rs: RunState, rs1: RunState, rs2: RunState)
    requires Grew(rs, rs1) && Grew(rs1, rs2)
    ensures Grew(rs, rs2)
  {
  }

  lemma {:induction false} BelowGrew(rs: RunState, rs2: RunState)
    requires Grew(rs, rs2)
    ensures forall v: Value {:trigger Below(v, |rs2.heap|)} :: Below(v, |rs.heap|) ==> Below(v, |rs2.heap|)
  {
  }

  lemma {:induction false} EntriesGrew(rs: RunState, rs2: RunState, es: seq<Entry>, acc: seq<Entry>)
    requires Grew(rs, rs2)
    requires forall e <- es :: Below(e.key, |rs.heap|) && Below(e.val, |rs.heap|)
    requires forall e <- acc :: Below(e.key, |rs.heap|) && Below(e.val, |rs.heap|)
    ensures forall e <- es :: Below(e.key, |rs2.heap|) && Below(e.val, |rs2.heap|)
    ensures forall e <- acc :: Below(e.key, |rs2.heap|) && Below(e.val, |rs2.heap|)
  {
  }

  lemma {:induction false} EntriesObjBelow(es: seq<Entry>, n: nat)
    requires forall e <- es :: Below(e.key, n) && Below(e.val, n)
    ensures ObjBelow(MapObj(es), n + 1)
  {
    if es != [] {
      EntriesObjBelow(es[1..], n);
      assert EntryValues(es) == [es[0].key, es[0].val] + EntryValues(es[1..]);
      assert es[0] in es;
    }
  }

  lemma {:induction false} PropsObjBelow(fs: seq<FieldCode>, ps: seq<Prop>, n: nat)
    requires PropsOut(fs, ps, n)
    ensures ObjBelow(RecordObj(ps), n + 1)
  {
    forall v <- PropValues(ps) ensures Below(v, n + 1) {
      var j :| 0 <= j < |ps| && PropValues(ps)[j] == v;
    }
  }

  lemma {:induction false} ElemsStep(rs: RunState, v: Run, rest: RunValues)
    requires Grew(rs, v.rs) && Below(v.value, |v.rs.heap|) && Grew(v.rs, rest.rs)
    ensures Grew(rs, rest.rs) && Below(v.value, |rest.rs.heap|)
  {
  }

  lemma {:induction false} FieldsOutStep(fs: seq<FieldCode>, rs: RunState, c: Run, rest: RunProps)
    requires fs != []
    requires Grew(rs, c.rs) && Below(c.value, |c.rs.heap|)
    requires Grew(c.rs, rest.rs) && PropsOut(fs[1..], rest.props, |rest.rs.heap|)
    ensures Grew(rs, rest.rs)
    ensures PropsOut(fs, [Prop(fs[0].name, c.value, true)] + rest.props, |rest.rs.heap|)
  {
  }

  /** The helper's object, filled last, keeps every earlier object and entry. */
  lemma {:induction false} HelperStep(rs: RunState, rs0: RunState, rs1: RunState, out: RunProps, rs2: RunState, x: Value)
    requires RunOk(rs) && x !in rs.cycleObjs
    requires Grew(rs, rs0) && |rs0.heap| == |rs.heap| + 1 && rs0.cycleObjs == rs.cycleObjs
    requires rs1 == rs0.(cycleObjs := rs.cycleObjs[x := |rs.heap|])
    requires Grew(rs1, out.rs)
    requires forall p <- out.props :: Below(p.value, |out.rs.heap|)
    requires rs2 == out.rs.(heap := out.rs.heap[|rs.heap| := RecordObj(out.props)])
    ensures Grew(rs, rs1)
    ensures Grew(rs, rs2) && rs2.cycleObjs[x] == |rs.heap| && rs2.heap[|rs.heap|].RecordObj?
  {
    assert RunOk(rs1);
    var h := rs2.heap;
    forall i | 0 <= i < |h| ensures ObjBelow(h[i], |h|) {
      if i == |rs.heap| {
        var ps := out.props;
        forall v <- Contents(h[i]) ensures Below(v, |h|) {
          var j :| 0 <= j < |ps| && PropValues(ps)[j] == v;
          assert ps[j] in ps;
        }
      } else {
        assert h[i] == out.rs.heap[i];
      }
    }
  }

  /** A fresh object or earlier copy seen from a later state was one from the earlier state too. */
  lemma {:induction false} NewOrCopyGrew(rs: RunState, rs2: RunState)
    requires Grew(rs, rs2)
    ensures forall v :: NewOrCopy(rs2, v) ==> NewOrCopy(rs, v)
  {
    forall v | NewOrCopy(rs2, v) ensures NewOrCopy(rs, v) {
      if v.obj < |rs.heap| {
        var u :| u in rs2.cycleObjs && rs2.cycleObjs[u] == v.obj;
        assert u in rs.cycleObjs;
      }
    }
  }

  lemma {:induction false} FieldsCopiedGrew(rs: RunState, rs2: RunState, x: Value, fs: seq<FieldCode>, ps: seq<Prop>)
    requires Grew(rs, rs2) && Below(x, |rs.heap|) && FieldsCopied(rs2, x, fs, ps)
    ensures FieldsCopied(rs, x, fs, ps)
  {
    NewOrCopyGrew(rs, rs2);
  }

  lemma {:induction false} FieldsCopiedStep(rs: RunState, x: Value, fs: seq<FieldCode>, v: Value, c: Run, rest: seq<Prop>)
    requires RunOk(rs) && Below(x, |rs.heap|) && fs != []
    requires Get(rs.heap, x, fs[0].name) == Ok(v) && Grew(rs, c.rs)
    requires Allocating(fs[0].code) ==> NewOrCopy(rs, c.value)
    requires fs[0].code == Ident ==> c.value == v
    requires FieldsCopied(c.rs, x, fs[1..], rest)
    ensures FieldsCopied(rs, x, fs, [Prop(fs[0].name, c.value, true)] + rest)
  {
    FieldsCopiedGrew(rs, c.rs, x, fs[1..], rest);
    var ps := [Prop(fs[0].name, c.value, true)] + rest;
    forall i | 1 <= i < |fs| && i < |ps|
      ensures Allocating(fs[i].code) ==> NewOrCopy(rs, ps[i].value)
    {
      assert fs[1..][i - 1] == fs[i] && rest[i - 1] == ps[i];
    }
  }

  lemma {:induction false} ValuesCopiedStep(rs: RunState, c: Frag, es: seq<Value>, v: Run, rest: seq<Value>)
    requires es != [] && Grew(rs, v.rs)
    requires Allocating(c) ==> NewOrCopy(rs, v.value)
    requires c == Ident ==> v.value == es[0]
    requires ValuesCopied(v.rs, c, es[1..], rest)
    ensures ValuesCopied(rs, c, es, [v.value] + rest)
  {
    NewOrCopyGrew(rs, v.rs);
    if c == Ident {
      assert es == [es[0]] + es[1..];
    }
  }

  lemma {:induction false} MembersStep(rs: RunState, c: Frag, ms: seq<Value>, acc: seq<Value>, v: Run, out: seq<Value>)
    requires ms != [] && Grew(rs, v.rs)
    requires Allocating(c) ==> NewOrCopy(rs, v.value)
    requires c == Ident ==> v.value == ms[0]
    requires Allocating(c) ==> forall u <- out :: u in SetAdd(acc, v.value) || NewOrCopy(v.rs, u)
    requires c == Ident ==> forall u :: u in out <==> u in SetAdd(acc, v.value) || u in ms[1..]
    ensures Allocating(c) ==> forall u <- out :: u in acc || NewOrCopy(rs, u)
    ensures c == Ident ==> forall u :: u in out <==> u in acc || u in ms
  {
    NewOrCopyGrew(rs, v.rs);
    assert ms == [ms[0]] + ms[1..];
  }

  lemma {:induction false} EntriesStep(rs: RunState, c: Frag, es: seq<Entry>, acc: seq<Entry>, v: Run, out: seq<Entry>)
    requires es != [] && Grew(rs, v.rs)
    requires Allocating(c) ==> NewOrCopy(rs, v.value)
    requires c == Ident ==> v.value == es[0].val
    requires Allocating(c) ==> forall e <- out :: e in MapSet(acc, es[0].key, v.value) || NewOrCopy(v.rs, e.val)
    requires c == Ident ==> forall e <- out :: e in MapSet(acc, es[0].key, v.value) || e in es[1..]
    requires Keys(out) == Keys(MapSet(acc, es[0].key, v.value)) + Keys(es[1..])
    ensures Allocating(c) ==> forall e <- out :: e in acc || NewOrCopy(rs, e.val)
    ensures c == Ident ==> forall e <- out :: e in acc || e in es
    ensures Keys(out) == Keys(acc) + Keys(es)
  {
    NewOrCopyGrew(rs, v.rs);
    assert es == [es[0]] + es[1..];
    assert Keys(es) == {es[0].key} + Keys(es[1..]);
  }

  lemma {:induction false} EntriesFromEmpty(rs: RunState, c: Frag, es: seq<Entry>, out: seq<Entry>)
    requires Keys(out) == Keys(es)
    requires Allocating(c) ==> forall e <- out :: NewOrCopy(rs, e.val)
    requires c == Ident ==> forall e <- out :: e in es
    ensures EntriesCopied(rs, c, es, out)
  {
  }

  lemma {:induction false} MembersFromEmpty(rs: RunState, c: Frag, ms: seq<Value>, out: seq<Value>)
    requires |out| <= |ms|
    requires Allocating(c) ==> forall v <- out :: NewOrCopy(rs, v)
    requires c == Ident ==> forall u :: u in out <==> u in ms
    ensures MembersCopied(rs, c, ms, out)
  {
  }
}
