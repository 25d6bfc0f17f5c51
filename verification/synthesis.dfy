/**
 * Clone-code synthesis (`createClonerCode`): a dispatch on the schema tag
 * that emits one fragment per node. The context threads two maps through
 * the walk: record node -> cycle resolver (which breaks schema cycles) and
 * custom function -> generated id. The random cycle id of the source is a
 * counter here.
 *
 * `CyclePolicy` selects how long a record stays in the cycle map.
 * `KeepExpanded` is the source as written: a record is never removed, so a
 * record reached a second time along a different, acyclic path is taken for
 * a cycle. `InProgressOnly` removes it once its fields are emitted, so only a
 * record that is still being expanded, a real schema cycle, reaches its
 * resolver.
 */
module Synthesis {
  import opened Results
  import opened Schema
  import opened Fragments

  datatype SynthError =
    | AlternativeItems      // "unsupported array schema with alternative items"
    | UnsupportedRoot       // "unsupported schema root"
    | DetectCyclesNotSet    // "opts.detectCycles not set"

  datatype Opts = Opts(detectCycles: bool)

  /** The state of one record's cycle resolver: not called yet, or the getter it returned. */
  datatype Resolver = Pending | Found(getter: nat)

  datatype Ctx = Ctx(cycles: map<NodeId, Resolver>, customObjs: map<nat, nat>, nextCycle: nat)

  datatype Emitted = Emitted(code: Frag, ctx: Ctx)

  datatype EmittedFields = EmittedFields(fields: seq<FieldCode>, ctx: Ctx)

  datatype CyclePolicy = KeepExpanded | InProgressOnly

  /** `createClonerCodeCtx()`. */
  const FreshCtx: Ctx := Ctx(map[], map[], 0)

  /** Getters handed out so far are below the counter and pairwise distinct; custom ids are 0..size-1. */
  predicate CtxOk(ctx: Ctx) {
    && (forall m :: m in ctx.cycles && ctx.cycles[m].Found? ==> ctx.cycles[m].getter < ctx.nextCycle)
    && (forall m1, m2 ::
          (m1 in ctx.cycles && m2 in ctx.cycles && m1 != m2 && ctx.cycles[m1].Found? && ctx.cycles[m2].Found?) ==>
          ctx.cycles[m1].getter != ctx.cycles[m2].getter)
    && (forall f :: f in ctx.customObjs ==> ctx.customObjs[f] < |ctx.customObjs|)
    && (forall f1, f2 :: f1 in ctx.customObjs && f2 in ctx.customObjs && f1 != f2 ==>
          ctx.customObjs[f1] != ctx.customObjs[f2])
  }

  /** The getters of the resolvers that have been called. */
  function Getters(ctx: Ctx): set<nat> {
    set m | m in ctx.cycles && ctx.cycles[m].Found? :: ctx.cycles[m].getter
  }

  /**
   * `ctx2` followed from `ctx`: no cycle entry disappeared (and, in progress
   * only, none was left behind), a called resolver keeps its getter, and no
   * custom id changed.
   */
  ghost predicate Evolved(policy: CyclePolicy, ctx: Ctx, ctx2: Ctx) {
    && CtxOk(ctx2)
    && ctx.cycles.Keys <= ctx2.cycles.Keys
    && (policy == InProgressOnly ==> ctx2.cycles.Keys == ctx.cycles.Keys)
    && (forall m :: m in ctx.cycles && ctx.cycles[m].Found? ==> ctx2.cycles[m] == ctx.cycles[m])
    && ctx.nextCycle <= ctx2.nextCycle
    && (forall f :: f in ctx.customObjs ==> f in ctx2.customObjs && ctx2.customObjs[f] == ctx.customObjs[f])
  }

  /** The record nodes not in the cycle map: the measure synthesis decreases. */
  function Unexpanded(g: Graph, ctx: Ctx): set<NodeId> {
    set k | 0 <= k < |g| && g[k].RecordOf? && k !in ctx.cycles
  }

  /** `opts.detectCycles` puts the `cycleObjs` check in front of an array or record copy. */
  function Guard(opts: Opts, code: Frag): (r: Frag)
    ensures Allocating(r) == Allocating(code)
    ensures FreeCalls(r) == FreeCalls(code) && Helpers(r) == Helpers(code)
    ensures FieldNames(r) == FieldNames(code)
  {
    if opts.detectCycles then Guarded(code) else code
  }

  /** The copy of a leaf schema. */
  function LeafCode(l: Leaf): (f: Frag)
    ensures Helpers(f) == {} && FreeCalls(f) == {} && FieldNames(f) == {}
  {
    match l
    case NumberL => Ident
    case StringL => Ident
    case BooleanL => Ident
    case FunctionL => Ident
    case SymbolL => Ident
    case BigIntL => NewBigInt
    case DateL => NewDate
    case NullL => NullLit
    case UndefinedL => UndefLit
    case BinaryL(_) => Subarray
    case MapL => NaiveMap
    case SetL => NaiveSet
  }

  /**
   * The cycle resolver of record `n`: it throws unless cycle detection is
   * on; on its first call it draws a fresh getter, later calls return the
   * same one.
   */
  function ResolveCycle(n: NodeId, opts: Opts, ctx: Ctx): (r: Result<Emitted, SynthError>)
    requires n in ctx.cycles && CtxOk(ctx)
    ensures r.Err? <==> !opts.detectCycles
    ensures r.Err? ==> r.error == DetectCyclesNotSet
    ensures r.Ok? ==> r.value.code.CycleCall? && r.value.ctx.cycles.Keys == ctx.cycles.Keys
    ensures r.Ok? ==> FieldNames(r.value.code) == {}
    ensures r.Ok? ==> r.value.ctx.cycles[n] == Found(r.value.code.getter)
    ensures r.Ok? ==> FreeCalls(r.value.code) <= Getters(r.value.ctx)
    ensures r.Ok? ==> forall policy :: Evolved(policy, ctx, r.value.ctx)
    ensures r.Ok? && ctx.cycles[n].Found? ==> r.value.ctx == ctx
  {
    if !opts.detectCycles then
      Err(DetectCyclesNotSet)
    else
      match ctx.cycles[n]
      case Found(k) => Ok(Emitted(CycleCall(k), ctx))
      case Pending =>
        var k := ctx.nextCycle;
        Ok(Emitted(CycleCall(k), ctx.(cycles := ctx.cycles[n := Found(k)], nextCycle := k + 1)))
  }

  /** A custom function gets id `customObj_<size>` unless it already has one. */
  function RegisterCustom(ctx: Ctx, fn: nat): (r: Ctx)
    requires CtxOk(ctx)
    ensures CtxOk(r) && fn in r.customObjs
    ensures r.cycles == ctx.cycles && r.nextCycle == ctx.nextCycle
    ensures fn in ctx.customObjs ==> r == ctx
    ensures fn !in ctx.customObjs ==>
      && r.customObjs[fn] == |ctx.customObjs|
      && r.customObjs.Keys == ctx.customObjs.Keys + {fn}
      && forall f :: f in ctx.customObjs ==> r.customObjs[f] != r.customObjs[fn]
    ensures forall policy :: Evolved(policy, ctx, r)
  {
    if fn in ctx.customObjs then ctx
    else
      var r := ctx.(customObjs := ctx.customObjs[fn := |ctx.customObjs|]);
      NewCustomOk(ctx, fn, r);
      r
  }

  lemma {:induction false} NewCustomOk(ctx: Ctx, fn: nat, r: Ctx)
    requires CtxOk(ctx) && fn !in ctx.customObjs
    requires r == ctx.(customObjs := ctx.customObjs[fn := |ctx.customObjs|])
    ensures CtxOk(r)
    ensures r.customObjs.Keys == ctx.customObjs.Keys + {fn}
    ensures forall f :: f in ctx.customObjs ==> r.customObjs[f] != r.customObjs[fn]
    ensures forall policy :: Evolved(policy, ctx, r)
  {
    assert |r.customObjs| == |ctx.customObjs| + 1;
    forall f | f in ctx.customObjs ensures r.customObjs[f] != r.customObjs[fn] {
      assert r.customObjs[f] == ctx.customObjs[f] < |ctx.customObjs|;
    }
    assert CtxOk(r);
    NewCustomEvolved(ctx, r);
  }

  lemma {:induction false} NewCustomEvolved(ctx: Ctx, r: Ctx)
    requires CtxOk(r) && r.cycles == ctx.cycles && r.nextCycle == ctx.nextCycle
    requires forall f :: f in ctx.customObjs ==> f in r.customObjs && r.customObjs[f] == ctx.customObjs[f]
    ensures forall policy :: Evolved(policy, ctx, r)
  {
  }

  /**
   * `createClonerCode(schema, inputName, opts, ctx)` for node `n`. The ghost
   * `rank` witnesses that every schema cycle passes through a record: the
   * source tracks only records, and on a cycle made of arrays, array-likes,
   * maps or sets alone it recurses without bound.
   */
  function Synth(policy: CyclePolicy, g: Graph, n: NodeId, opts: Opts, ctx: Ctx, ghost rank: seq<nat>)
    : (r: Result<Emitted, SynthError>)
    requires Closed(g) && n < |g| && RecordBroken(g, rank) && CtxOk(ctx)
    ensures r.Ok? ==> Evolved(policy, ctx, r.value.ctx)
    ensures r.Ok? && policy == InProgressOnly ==> FreeCalls(r.value.code) <= Getters(r.value.ctx)
    ensures r == Err(DetectCyclesNotSet) ==> !opts.detectCycles
    ensures r.Ok? && !opts.detectCycles && Getters(ctx) == {} ==> Getters(r.value.ctx) == {} && Helpers(r.value.code) == {}
    ensures r.Ok? ==> FieldNames(r.value.code) <= GraphNames(g)
    decreases Unexpanded(g, ctx), rank[n], 1
  {
    if n in ctx.cycles then
      ResolveCycle(n, opts, ctx)
    else if g[n].RecordOf? then
      SynthRecord(policy, g, n, opts, ctx, rank)
    else if g[n].LeafN? then
      Ok(Emitted(LeafCode(g[n].leaf), ctx))
    else if g[n].Custom? then
      Ok(Emitted(CustomCall, RegisterCustom(ctx, g[n].fn)))
    else if g[n].Other? then
      Err(UnsupportedRoot)
    else
      SynthNested(policy, g, n, opts, ctx, rank)
  }

  /**
   * The wrappers and arrays: one nested schema copied per entry, member or
   * element. An empty array schema copies to `[]`; one with more than one
   * alternative throws.
   */
  function SynthNested(policy: CyclePolicy, g: Graph, n: NodeId, opts: Opts, ctx: Ctx, ghost rank: seq<nat>)
    : (r: Result<Emitted, SynthError>)
    requires Closed(g) && n < |g| && RecordBroken(g, rank) && CtxOk(ctx)
    requires g[n].MapOf? || g[n].SetOf? || g[n].ListOf? || g[n].ArrayOf?
    ensures r.Ok? ==> Evolved(policy, ctx, r.value.ctx)
    ensures r.Ok? && policy == InProgressOnly ==> FreeCalls(r.value.code) <= Getters(r.value.ctx)
    ensures r == Err(DetectCyclesNotSet) ==> !opts.detectCycles
    ensures r.Ok? && !opts.detectCycles && Getters(ctx) == {} ==> Getters(r.value.ctx) == {} && Helpers(r.value.code) == {}
    ensures r.Ok? ==> FieldNames(r.value.code) <= GraphNames(g)
    decreases Unexpanded(g, ctx), rank[n], 0
  {
    if g[n].ArrayOf? && |g[n].alts| == 0 then
      Ok(Emitted(EmptyArray, ctx))
    else if g[n].ArrayOf? && |g[n].alts| > 1 then
      Err(AlternativeItems)
    else
      var c := Children(g[n])[0];
      assert c in Children(g[n]);
      var e :- Synth(policy, g, c, opts, ctx, rank);
      Ok(Emitted(Wrap(opts, g[n], e.code), e.ctx))
  }

  /** The fragment a wrapper or one-alternative array builds around its nested copy. */
  function Wrap(opts: Opts, node: Node, inner: Frag): (r: Frag)
    requires node.MapOf? || node.SetOf? || node.ListOf? || node.ArrayOf?
    ensures FreeCalls(r) == FreeCalls(inner) && Helpers(r) == Helpers(inner) && Allocating(r)
    ensures FieldNames(r) == FieldNames(inner)
  {
    match node
    case MapOf(_) => MapWith(inner)
    case SetOf(_) => SetWith(inner)
    case ListOf(_) => Guard(opts, ArrayLikeMap(inner))
    case ArrayOf(_) => Guard(opts, ArrayMap(inner))
  }

  /**
   * A record: register its resolver, emit its fields, then wrap them in a
   * cycle helper if the resolver was called while they were emitted.
   */
  function SynthRecord(policy: CyclePolicy, g: Graph, n: NodeId, opts: Opts, ctx: Ctx, ghost rank: seq<nat>)
    : (r: Result<Emitted, SynthError>)
    requires Closed(g) && n < |g| && g[n].RecordOf? && n !in ctx.cycles
    requires RecordBroken(g, rank) && CtxOk(ctx)
    ensures r.Ok? ==> Evolved(policy, ctx, r.value.ctx)
    ensures r.Ok? && policy == InProgressOnly ==> FreeCalls(r.value.code) <= Getters(r.value.ctx)
    ensures r == Err(DetectCyclesNotSet) ==> !opts.detectCycles
    ensures r.Ok? && !opts.detectCycles && Getters(ctx) == {} ==> Getters(r.value.ctx) == {} && Helpers(r.value.code) == {}
    ensures r.Ok? ==> FieldNames(r.value.code) <= GraphNames(g)
    decreases Unexpanded(g, ctx), rank[n], 0
  {
    var ctx1 := ctx.(cycles := ctx.cycles[n := Pending]);
    PendingShrinks(g, n, ctx);
    FieldsInGraph(g, n);
    RecordNames(g, n);
    var fs :- SynthFields(policy, g, g[n].fields, opts, ctx1, rank);
    Ok(CloseRecord(policy, n, opts, ctx, fs))
  }

  /**
   * The end of a record: its fields become a plain object literal, or the
   * body of a cycle helper when its resolver was called meanwhile; under
   * the corrected policy the record leaves the cycle map.
   */
  function CloseRecord(policy: CyclePolicy, n: NodeId, opts: Opts, ctx: Ctx, fs: EmittedFields): (r: Emitted)
    requires CtxOk(ctx) && n !in ctx.cycles
    requires Evolved(policy, ctx.(cycles := ctx.cycles[n := Pending]), fs.ctx)
    requires policy == InProgressOnly ==> FieldsFreeCalls(fs.fields) <= Getters(fs.ctx)
    ensures Evolved(policy, ctx, r.ctx)
    ensures policy == InProgressOnly ==> FreeCalls(r.code) <= Getters(r.ctx)
    ensures policy == InProgressOnly ==> r.ctx.cycles == fs.ctx.cycles - {n}
    ensures r.ctx.customObjs == fs.ctx.customObjs
    ensures r.code == Guard(opts, RecordFrag(fs.ctx.cycles[n], fs.fields))
    ensures Getters(fs.ctx) == {} && FieldsHelpers(fs.fields) == {} ==> Getters(r.ctx) == {} && Helpers(r.code) == {}
    ensures FieldNames(r.code) == FieldsNames(fs.fields)
  {
    var ctx1 := ctx.(cycles := ctx.cycles[n := Pending]);
    var code := RecordFrag(fs.ctx.cycles[n], fs.fields);
    var ctx2 := if policy == InProgressOnly then fs.ctx.(cycles := fs.ctx.cycles - {n}) else fs.ctx;
    RecordStep(policy, n, ctx, ctx1, fs, code, ctx2);
    NoGettersClose(fs, n, code, ctx2);
    Emitted(Guard(opts, code), ctx2)
  }

  /** A record's fields, wrapped in its cycle helper once its resolver has been called. */
  function RecordFrag(res: Resolver, fields: seq<FieldCode>): (f: Frag)
    ensures Allocating(f)
    ensures FreeCalls(f) == FieldsFreeCalls(fields) - (if res.Found? then {res.getter} else {})
    ensures Helpers(f) == FieldsHelpers(fields) + (if res.Found? then {res.getter} else {})
    ensures FieldNames(f) == FieldsNames(fields)
  {
    if res.Found? then CycleWrap(res.getter, fields) else Record(fields)
  }

  /** One emitted field per schema field, in the same order and under the same name. */
  predicate SameNames(fields: seq<Field>, codes: seq<FieldCode>) {
    |codes| == |fields| && forall i :: 0 <= i < |fields| ==> codes[i].name == fields[i].name
  }

  /** The fields of a record, in order, threading the context. */
  function SynthFields(policy: CyclePolicy, g: Graph, fields: seq<Field>, opts: Opts, ctx: Ctx, ghost rank: seq<nat>)
    : (r: Result<EmittedFields, SynthError>)
    requires Closed(g) && RecordBroken(g, rank) && CtxOk(ctx)
    requires forall f <- fields :: f.node < |g|
    ensures r.Ok? ==> Evolved(policy, ctx, r.value.ctx) && SameNames(fields, r.value.fields)
    ensures r.Ok? && policy == InProgressOnly ==> FieldsFreeCalls(r.value.fields) <= Getters(r.value.ctx)
    ensures r == Err(DetectCyclesNotSet) ==> !opts.detectCycles
    ensures r.Ok? && !opts.detectCycles && Getters(ctx) == {} ==> Getters(r.value.ctx) == {} && FieldsHelpers(r.value.fields) == {}
    ensures r.Ok? ==> FieldsNames(r.value.fields) <= GraphNames(g) + Names(fields)
    decreases Unexpanded(g, ctx), |g|, |fields|
  {
    if fields == [] then
      Ok(EmittedFields([], ctx))
    else
      var e :- Synth(policy, g, fields[0].node, opts, ctx, rank);
      assert Unexpanded(g, e.ctx) <= Unexpanded(g, ctx);
      var rest :- SynthFields(policy, g, fields[1..], opts, e.ctx, rank);
      FieldsStep(policy, ctx, e, rest);
      NamesStep(g, fields, FieldCode(fields[0].name, e.code), rest.fields);
      ConsNames(fields, FieldCode(fields[0].name, e.code), rest.fields);
      Ok(EmittedFields([FieldCode(fields[0].name, e.code)] + rest.fields, rest.ctx))
  }

  /**
   * `createClonerCode(schema, "input", opts)` with a fresh context, as
   * `createCloner` calls it; the context it ends with carries the custom
   * function ids.
   */
  function CloneCode(g: Graph, n: NodeId, opts: Opts, ghost rank: seq<nat>): (r: Result<Emitted, SynthError>)
    requires Closed(g) && n < |g| && RecordBroken(g, rank)
    ensures r.Ok? ==> FreeCalls(r.value.code) == {}
    ensures r.Ok? ==> CtxOk(r.value.ctx) && r.value.ctx.cycles == map[]
    ensures r == Err(DetectCyclesNotSet) ==> !opts.detectCycles
    ensures r.Ok? && !opts.detectCycles ==> Helpers(r.value.code) == {}
  {
    NoGettersFresh();
    Synth(InProgressOnly, g, n, opts, FreshCtx, rank)
  }

  /** The same call, with the cycle map kept as the source keeps it. */
  function CloneCodeAsWritten(g: Graph, n: NodeId, opts: Opts, ghost rank: seq<nat>): (r: Result<Emitted, SynthError>)
    requires Closed(g) && n < |g| && RecordBroken(g, rank)
    ensures r.Ok? ==> CtxOk(r.value.ctx)
    ensures r == Err(DetectCyclesNotSet) ==> !opts.detectCycles
    ensures r.Ok? && !opts.detectCycles ==> Helpers(r.value.code) == {}
  {
    NoGettersFresh();
    Synth(KeepExpanded, g, n, opts, FreshCtx, rank)
  }

  // ---------------------------------------------------------------------
  // Proof helpers
  // ---------------------------------------------------------------------

  /** Registering a record's resolver takes it off the unexpanded records. */
  lemma {:induction false} PendingShrinks(g: Graph, n: NodeId, ctx: Ctx)
    requires n < |g| && g[n].RecordOf? && n !in ctx.cycles
    ensures Unexpanded(g, ctx.(cycles := ctx.cycles[n := Pending])) < Unexpanded(g, ctx)
  {
    assert n in Unexpanded(g, ctx) && n !in Unexpanded(g, ctx.(cycles := ctx.cycles[n := Pending]));
  }

  lemma {:induction false} FieldsInGraph(g: Graph, n: NodeId)
    requires Closed(g) && n < |g| && g[n].RecordOf?
    ensures forall f <- g[n].fields :: f.node < |g|
  {
    forall f <- g[n].fields ensures f.node < |g| {
      var i :| 0 <= i < |g[n].fields| && g[n].fields[i] == f;
      FieldBelow(g, n, i);
    }
  }

  lemma {:induction false} ConsNames(fields: seq<Field>, head: FieldCode, rest: seq<FieldCode>)
    requires fields != [] && head.name == fields[0].name && SameNames(fields[1..], rest)
    ensures SameNames(fields, [head] + rest)
  {
    var codes := [head] + rest;
    forall i | 0 < i < |fields| ensures codes[i].name == fields[i].name {
      assert codes[i] == rest[i - 1] && fields[i] == fields[1..][i - 1];
    }
  }

  lemma {:induction false} GettersGrow(policy: CyclePolicy, ctx: Ctx, ctx2: Ctx)
    requires Evolved(policy, ctx, ctx2)
    ensures Getters(ctx) <= Getters(ctx2)
  {
    forall k | k in Getters(ctx) ensures k in Getters(ctx2) {
      var m :| m in ctx.cycles && ctx.cycles[m].Found? && ctx.cycles[m].getter == k;
      assert ctx2.cycles[m] == ctx.cycles[m];
    }
  }

  lemma {:induction false} FieldsStep(policy: CyclePolicy, ctx: Ctx, e: Emitted, rest: EmittedFields)
    requires CtxOk(ctx) && Evolved(policy, ctx, e.ctx) && Evolved(policy, e.ctx, rest.ctx)
    requires policy == InProgressOnly ==> FreeCalls(e.code) <= Getters(e.ctx)
    requires policy == InProgressOnly ==> FieldsFreeCalls(rest.fields) <= Getters(rest.ctx)
    ensures Evolved(policy, ctx, rest.ctx)
    ensures policy == InProgressOnly ==>
      FreeCalls(e.code) + FieldsFreeCalls(rest.fields) <= Getters(rest.ctx)
  {
    GettersGrow(policy, e.ctx, rest.ctx);
  }

  /** Removing a record's entry drops exactly its getter: getters are distinct. */
  lemma {:induction false} RemoveGetter(ctx: Ctx, n: NodeId)
    requires CtxOk(ctx) && n in ctx.cycles
    ensures var ctx2 := ctx.(cycles := ctx.cycles - {n});
      Getters(ctx2) == Getters(ctx) - (if ctx.cycles[n].Found? then {ctx.cycles[n].getter} else {})
  {
    var ctx2 := ctx.(cycles := ctx.cycles - {n});
    forall k | k in Getters(ctx) && !(ctx.cycles[n].Found? && k == ctx.cycles[n].getter)
      ensures k in Getters(ctx2)
    {
      var m :| m in ctx.cycles && ctx.cycles[m].Found? && ctx.cycles[m].getter == k;
      assert m != n;
      assert m in ctx2.cycles;
    }
  }

  lemma {:induction false} RecordStep(policy: CyclePolicy, n: NodeId, ctx: Ctx, ctx1: Ctx, fs: EmittedFields, code: Frag, ctx2: Ctx)
    requires CtxOk(ctx) && n !in ctx.cycles && ctx1 == ctx.(cycles := ctx.cycles[n := Pending])
    requires Evolved(policy, ctx1, fs.ctx)
    requires policy == InProgressOnly ==> FieldsFreeCalls(fs.fields) <= Getters(fs.ctx)
    requires code == RecordFrag(fs.ctx.cycles[n], fs.fields)
    requires ctx2 == if policy == InProgressOnly then fs.ctx.(cycles := fs.ctx.cycles - {n}) else fs.ctx
    ensures Evolved(policy, ctx, ctx2)
    ensures policy == InProgressOnly ==> FreeCalls(code) <= Getters(ctx2)
  {
    EvolvedFromPending(policy, n, ctx, ctx1);
    if policy == InProgressOnly {
      RecordCalls(n, fs, code, ctx2);
      RemoveKeepsOk(fs.ctx, n);
      EvolvedRemoved(n, ctx, fs.ctx, ctx2);
    } else {
      EvolvedTrans(policy, ctx, ctx1, fs.ctx);
    }
  }

  lemma {:induction false} RecordCalls(n: NodeId, fs: EmittedFields, code: Frag, ctx2: Ctx)
    requires CtxOk(fs.ctx) && n in fs.ctx.cycles
    requires FieldsFreeCalls(fs.fields) <= Getters(fs.ctx)
    requires code == RecordFrag(fs.ctx.cycles[n], fs.fields)
    requires ctx2 == fs.ctx.(cycles := fs.ctx.cycles - {n})
    ensures FreeCalls(code) <= Getters(ctx2)
  {
    RemoveGetter(fs.ctx, n);
  }

  lemma {:induction false} EvolvedFromPending(policy: CyclePolicy, n: NodeId, ctx: Ctx, ctx1: Ctx)
    requires CtxOk(ctx) && n !in ctx.cycles && ctx1 == ctx.(cycles := ctx.cycles[n := Pending])
    ensures Evolved(KeepExpanded, ctx, ctx1) && CtxOk(ctx1)
  {
  }

  lemma {:induction false} EvolvedTrans(policy: CyclePolicy, ctx: Ctx, ctx1: Ctx, ctx2: Ctx)
    requires Evolved(KeepExpanded, ctx, ctx1) && Evolved(policy, ctx1, ctx2)
    ensures Evolved(KeepExpanded, ctx, ctx2)
  {
  }

  lemma {:induction false} RemoveKeepsOk(ctx: Ctx, n: NodeId)
    requires CtxOk(ctx)
    ensures CtxOk(ctx.(cycles := ctx.cycles - {n}))
  {
  }

  lemma {:induction false} EvolvedRemoved(n: NodeId, ctx: Ctx, ctx3: Ctx, ctx2: Ctx)
    requires CtxOk(ctx) && n !in ctx.cycles
    requires Evolved(InProgressOnly, ctx.(cycles := ctx.cycles[n := Pending]), ctx3)
    requires ctx2 == ctx3.(cycles := ctx3.cycles - {n}) && CtxOk(ctx2)
    ensures Evolved(InProgressOnly, ctx, ctx2)
  {
    var ctx1 := ctx.(cycles := ctx.cycles[n := Pending]);
    assert ctx3.cycles.Keys == ctx.cycles.Keys + {n};
    assert ctx2.cycles.Keys == ctx.cycles.Keys;
    forall m | m in ctx.cycles && ctx.cycles[m].Found? ensures ctx2.cycles[m] == ctx.cycles[m] {
      assert ctx1.cycles[m] == ctx.cycles[m];
    }
  }

  lemma {:induction false} NoGettersFresh()
    ensures Getters(FreshCtx) == {}
  {
  }

  /** Without a called resolver a record closes as a plain object literal, and removing it calls none. */
  lemma {:induction false} NoGettersClose(fs: EmittedFields, n: NodeId, code: Frag, ctx2: Ctx)
    requires n in fs.ctx.cycles && code == RecordFrag(fs.ctx.cycles[n], fs.fields)
    requires ctx2 == fs.ctx || ctx2 == fs.ctx.(cycles := fs.ctx.cycles - {n})
    ensures Getters(fs.ctx) == {} && FieldsHelpers(fs.fields) == {} ==> Getters(ctx2) == {} && Helpers(code) == {}
  {
    assert fs.ctx.cycles[n].Found? ==> fs.ctx.cycles[n].getter in Getters(fs.ctx);
  }

  lemma {:induction false} NamesStep(g: Graph, fields: seq<Field>, head: FieldCode, rest: seq<FieldCode>)
    requires fields != [] && head.name == fields[0].name
    requires FieldNames(head.code) <= GraphNames(g)
    requires FieldsNames(rest) <= GraphNames(g) + Names(fields[1..])
    ensures FieldsNames([head] + rest) <= GraphNames(g) + Names(fields)
  {
    NamesCons(fields);
    assert ([head] + rest)[1..] == rest;
  }
}
