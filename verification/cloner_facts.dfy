/**
 * `createCloner` end to end: the code synthesised for a schema, run on a
 * value. The corrected synthesis never calls a helper it does not define,
 * and a record schema with a key that refers back to the record itself,
 * compiled with `detectCycles`, copies such an object so that the key of
 * the copy refers to the copy.
 */
module ClonerFacts {
  import opened Results
  import opened JsHeap
  import opened Schema
  import opened Fragments
  import opened Synthesis
  import opened Runtime
  import opened RuntimeFacts
  import SynthesisFacts

  /**
   * The fields of a record emitted while the record `n` is in the cycle
   * map: a field whose schema is `n` becomes a call of `n`'s helper, and the
   * resolver of `n` stays on that helper.
   */
  lemma {:induction false} FieldCallsOwner(policy: CyclePolicy, g: Graph, fields: seq<Field>, opts: Opts, ctx: Ctx, rank: seq<nat>, n: NodeId, i: nat)
    requires Closed(g) && RecordBroken(g, rank) && CtxOk(ctx)
    requires forall f <- fields :: f.node < |g|
    requires n in ctx.cycles && i < |fields| && fields[i].node == n
    ensures var r := SynthFields(policy, g, fields, opts, ctx, rank);
      r.Ok? ==>
        && opts.detectCycles
        && i < |r.value.fields|
        && r.value.fields[i].code.CycleCall?
        && n in r.value.ctx.cycles
        && r.value.ctx.cycles[n] == Found(r.value.fields[i].code.getter)
    decreases |fields|
  {
    if i == 0 {
      OwnerCallFirst(policy, g, fields, opts, ctx, rank, n);
    } else {
      var r := SynthFields(policy, g, fields, opts, ctx, rank);
      if r.Ok? {
        var ctx2 := FieldsTail(policy, g, fields, opts, ctx, rank);
        assert fields[1..][i - 1] == fields[i];
        TailBelow(fields, |g|);
        FieldCallsOwner(policy, g, fields[1..], opts, ctx2, rank, n, i - 1);
      }
    }
  }

  /** A successful field list: the first field, then the rest from the context it left. */
  lemma {:induction false} FieldsTail(policy: CyclePolicy, g: Graph, fields: seq<Field>, opts: Opts, ctx: Ctx, rank: seq<nat>) returns (ctx2: Ctx)
    requires Closed(g) && RecordBroken(g, rank) && CtxOk(ctx)
    requires forall f <- fields :: f.node < |g|
    requires fields != [] && SynthFields(policy, g, fields, opts, ctx, rank).Ok?
    ensures CtxOk(ctx2) && ctx.cycles.Keys <= ctx2.cycles.Keys
    ensures policy == InProgressOnly ==> ctx2.cycles.Keys == ctx.cycles.Keys
    ensures var r := SynthFields(policy, g, fields, opts, ctx, rank).value;
      var rest := SynthFields(policy, g, fields[1..], opts, ctx2, rank);
      rest.Ok? && r.fields[1..] == rest.value.fields && r.ctx == rest.value.ctx
  {
    SynthesisFacts.FieldsCons(policy, g, fields, opts, ctx, rank);
    var e := Synth(policy, g, fields[0].node, opts, ctx, rank).value;
    ctx2 := e.ctx;
    var rest := SynthFields(policy, g, fields[1..], opts, e.ctx, rank).value;
    var r := SynthFields(policy, g, fields, opts, ctx, rank).value;
    assert r.fields == [FieldCode(fields[0].name, e.code)] + rest.fields;
  }

  /** The first field, when its schema is the record in progress. */
  lemma {:induction false} OwnerCallFirst(policy: CyclePolicy, g: Graph, fields: seq<Field>, opts: Opts, ctx: Ctx, rank: seq<nat>, n: NodeId)
    requires Closed(g) && RecordBroken(g, rank) && CtxOk(ctx)
    requires forall f <- fields :: f.node < |g|
    requires n in ctx.cycles && fields != [] && fields[0].node == n
    ensures var r := SynthFields(policy, g, fields, opts, ctx, rank);
      r.Ok? ==>
        && opts.detectCycles
        && r.value.fields[0].code.CycleCall?
        && n in r.value.ctx.cycles
        && r.value.ctx.cycles[n] == Found(r.value.fields[0].code.getter)
  {
    var r := SynthFields(policy, g, fields, opts, ctx, rank);
    SynthesisFacts.FieldsCons(policy, g, fields, opts, ctx, rank);
    assert Synth(policy, g, n, opts, ctx, rank) == ResolveCycle(n, opts, ctx);
    if r.Ok? {
      var e := ResolveCycle(n, opts, ctx).value;
      var rest := SynthFields(policy, g, fields[1..], opts, e.ctx, rank).value;
      assert r.value == EmittedFields([FieldCode(fields[0].name, e.code)] + rest.fields, rest.ctx);
      assert e.ctx.cycles[n].Found?;
    }
  }

  /**
   * The code for a record schema `n` whose key `i` has schema `n` again,
   * under either cycle policy: a guarded cycle helper whose key `i` calls
   * the helper itself.
   */
  lemma {:induction false} SelfFieldCode(policy: CyclePolicy, g: Graph, n: NodeId, opts: Opts, rank: seq<nat>, i: nat)
    requires Closed(g) && n < |g| && RecordBroken(g, rank) && g[n].RecordOf?
    requires i < |g[n].fields| && g[n].fields[i].node == n
    ensures var r := Synth(policy, g, n, opts, FreshCtx, rank);
      r.Ok? ==>
        && opts.detectCycles && r.value.code.Guarded? && r.value.code.inner.CycleWrap?
        && var w := r.value.code.inner;
        && i < |w.body|
        && w.body[i] == FieldCode(g[n].fields[i].name, CycleCall(w.getter))
        && (policy == InProgressOnly ==> KeysCopied(g, n, w.body, {n}))
  {
    var ctx1 := FreshCtx.(cycles := FreshCtx.cycles[n := Pending]);
    EvolvedFromPending(policy, n, FreshCtx, ctx1);
    FieldsInGraph(g, n);
    if policy == InProgressOnly {
      NestedKeys(g, n, opts, FreshCtx, rank);
    }
    SynthesisFacts.RecordResult(policy, g, n, opts, FreshCtx, rank);
    var sf := SynthFields(policy, g, g[n].fields, opts, ctx1, rank);
    FieldCallsOwner(policy, g, g[n].fields, opts, ctx1, rank, n, i);
    if sf.Ok? {
      OwnerClose(policy, n, opts, FreshCtx, sf.value, sf.value.fields[i].code.getter);
    }
  }

  /**
   * What the code for each leaf schema returns: primitives and functions
   * are returned as they are, `null` and `undefined` as themselves, and a
   * Date as a new Date with the same time.
   */
  lemma {:induction false} LeafCopies(l: Leaf, h: Heap, x: Value, fuel: nat)
    requires Valid(h) && Below(x, |h|)
    ensures var r := RunCloner(LeafCode(l), h, x, fuel);
      && (l == NumberL || l == StringL || l == BooleanL || l == FunctionL || l == SymbolL ==>
            r == Ok(Run(x, RunState(h, map[]))))
      && (l == NullL ==> r.Ok? && r.value.value == Null)
      && (l == UndefinedL ==> r.Ok? && r.value.value == Undefined)
      && (l == DateL && x.Ref? && h[x.obj].DateObj? ==>
            && r.Ok? && r.value.value == Ref(|h|)
            && r.value.rs.heap == h + [DateObj(h[x.obj].time)])
  {
  }

  /** Schemas whose copy is built afresh: records, collections and arrays. */
  predicate Composite(n: Node) {
    n.RecordOf? || n.MapOf? || n.SetOf? || n.ListOf? || n.ArrayOf?
  }

  /**
   * The code for a key whose schema `k` is not in the cycle map: a leaf's
   * own code, or, for a composite schema, code that builds a new object.
   */
  predicate KeyCodeOk(g: Graph, k: NodeId, c: Frag)
    requires k < |g|
  {
    && (g[k].LeafN? ==> c == LeafCode(g[k].leaf))
    && (Composite(g[k]) ==> Allocating(c))
  }

  /** A schema outside the cycle map is copied by a leaf's code or by allocating code. */
  lemma {:induction false} KeyCode(policy: CyclePolicy, g: Graph, k: NodeId, opts: Opts, ctx: Ctx, rank: seq<nat>)
    requires Closed(g) && k < |g| && RecordBroken(g, rank) && CtxOk(ctx) && k !in ctx.cycles
    ensures var r := Synth(policy, g, k, opts, ctx, rank);
      r.Ok? ==> KeyCodeOk(g, k, r.value.code)
  {
    SynthesisFacts.SynthDispatch(policy, g, k, opts, ctx, rank);
    if g[k].RecordOf? {
      SynthesisFacts.RecordExpands(policy, g, k, opts, ctx, rank);
      SynthesisFacts.RecordUnfold(policy, g, k, opts, ctx, rank);
    } else if Composite(g[k]) {
      SynthesisFacts.NestedExpands(policy, g, k, opts, ctx, rank);
    }
  }

  /**
   * Under the corrected policy, a key whose schema is not in the cycle map
   * is copied as `KeyCode` says, wherever it sits in the record.
   */
  lemma {:induction false} KeyFieldCode(g: Graph, fields: seq<Field>, opts: Opts, ctx: Ctx, rank: seq<nat>, l: nat)
    requires Closed(g) && RecordBroken(g, rank) && CtxOk(ctx)
    requires forall f <- fields :: f.node < |g|
    requires l < |fields| && fields[l].node !in ctx.cycles
    ensures var r := SynthFields(InProgressOnly, g, fields, opts, ctx, rank);
      r.Ok? ==> KeyCodeOk(g, fields[l].node, r.value.fields[l].code)
    decreases |fields|, 1
  {
    var r := SynthFields(InProgressOnly, g, fields, opts, ctx, rank);
    if r.Ok? {
      if l == 0 {
        KeyFirst(g, fields, opts, ctx, rank);
      } else {
        var ctx2 := FieldsTail(InProgressOnly, g, fields, opts, ctx, rank);
        assert fields[1..][l - 1] == fields[l];
        TailBelow(fields, |g|);
        KeyLater(g, fields[1..], opts, rank, l, ctx2, r.value.fields);
      }
    }
  }

  /** A later field: its code is the code of the tail's field before it. */
  lemma {:induction false} KeyLater(g: Graph, tail: seq<Field>, opts: Opts, rank: seq<nat>, l: nat, ctx2: Ctx, a: seq<FieldCode>)
    requires Closed(g) && RecordBroken(g, rank) && CtxOk(ctx2)
    requires forall f <- tail :: f.node < |g|
    requires 0 < l <= |tail| && tail[l - 1].node !in ctx2.cycles
    requires var rest := SynthFields(InProgressOnly, g, tail, opts, ctx2, rank);
      rest.Ok? && 0 < |a| && a[1..] == rest.value.fields
    ensures l < |a| && KeyCodeOk(g, tail[l - 1].node, a[l].code)
    decreases |tail| + 1, 0
  {
    KeyFieldCode(g, tail, opts, ctx2, rank, l - 1);
    TailAt(a, SynthFields(InProgressOnly, g, tail, opts, ctx2, rank).value.fields, l);
  }

  lemma {:induction false} TailAt(a: seq<FieldCode>, b: seq<FieldCode>, l: nat)
    requires 0 < |a| && a[1..] == b && 0 < l <= |b|
    ensures a[l] == b[l - 1]
  {
  }

  lemma {:induction false} KeyFirst(g: Graph, fields: seq<Field>, opts: Opts, ctx: Ctx, rank: seq<nat>)
    requires Closed(g) && RecordBroken(g, rank) && CtxOk(ctx)
    requires forall f <- fields :: f.node < |g|
    requires fields != [] && fields[0].node !in ctx.cycles
    ensures var r := SynthFields(InProgressOnly, g, fields, opts, ctx, rank);
      r.Ok? ==> KeyCodeOk(g, fields[0].node, r.value.fields[0].code)
  {
    var r := SynthFields(InProgressOnly, g, fields, opts, ctx, rank);
    SynthesisFacts.FieldsCons(InProgressOnly, g, fields, opts, ctx, rank);
    KeyCode(InProgressOnly, g, fields[0].node, opts, ctx, rank);
    if r.Ok? {
      var e := Synth(InProgressOnly, g, fields[0].node, opts, ctx, rank).value;
      var rest := SynthFields(InProgressOnly, g, fields[1..], opts, e.ctx, rank).value;
      assert r.value.fields == [FieldCode(fields[0].name, e.code)] + rest.fields;
    }
  }

  /**
   * A record `m` reached while record `n` is still in the cycle map, with
   * a key `j` whose schema is `n`: a guarded record copy whose key `j`
   * calls `n`'s helper, and `n`'s resolver stays on that helper.
   */
  lemma {:induction false} NestedRecordCode(policy: CyclePolicy, g: Graph, m: NodeId, opts: Opts, ctx: Ctx, rank: seq<nat>, n: NodeId, j: nat)
    requires Closed(g) && RecordBroken(g, rank) && CtxOk(ctx)
    requires m < |g| && g[m].RecordOf? && m !in ctx.cycles && n in ctx.cycles
    requires j < |g[m].fields| && g[m].fields[j].node == n
    ensures var r := Synth(policy, g, m, opts, ctx, rank);
      r.Ok? ==>
        var c := r.value.code;
        && opts.detectCycles && c.Guarded? && (c.inner.Record? || c.inner.CycleWrap?)
        && |RecordBody(c.inner)| == |g[m].fields|
        && RecordBody(c.inner)[j].name == g[m].fields[j].name
        && RecordBody(c.inner)[j].code.CycleCall?
        && n in r.value.ctx.cycles
        && r.value.ctx.cycles[n] == Found(RecordBody(c.inner)[j].code.getter)
        && (policy == InProgressOnly ==> KeysCopied(g, m, RecordBody(c.inner), ctx.cycles.Keys + {m}))
  {
    SynthesisFacts.RecordResult(policy, g, m, opts, ctx, rank);
    var ctx1 := ctx.(cycles := ctx.cycles[m := Pending]);
    EvolvedFromPending(policy, m, ctx, ctx1);
    FieldsInGraph(g, m);
    if policy == InProgressOnly {
      NestedKeys(g, m, opts, ctx, rank);
    }
    FieldCallsOwner(policy, g, g[m].fields, opts, ctx1, rank, n, j);
    var sf := SynthFields(policy, g, g[m].fields, opts, ctx1, rank);
    if sf.Ok? {
      NestedClose(policy, m, opts, ctx, sf.value, n, j);
    }
  }

  /** Closing the nested record keeps the resolver of the enclosing one. */
  lemma {:induction false} NestedClose(policy: CyclePolicy, m: NodeId, opts: Opts, ctx: Ctx, fs: EmittedFields, n: NodeId, j: nat)
    requires CtxOk(ctx) && m !in ctx.cycles && n != m
    requires Evolved(policy, ctx.(cycles := ctx.cycles[m := Pending]), fs.ctx)
    requires policy == InProgressOnly ==> FieldsFreeCalls(fs.fields) <= Getters(fs.ctx)
    requires opts.detectCycles && j < |fs.fields| && fs.fields[j].code.CycleCall?
    requires n in fs.ctx.cycles && fs.ctx.cycles[n] == Found(fs.fields[j].code.getter)
    ensures var r := CloseRecord(policy, m, opts, ctx, fs);
      && r.code.Guarded? && (r.code.inner.Record? || r.code.inner.CycleWrap?)
      && RecordBody(r.code.inner) == fs.fields
      && n in r.ctx.cycles && r.ctx.cycles[n] == fs.ctx.cycles[n]
  {
  }

  /**
   * `body` writes the keys of record `m` in order, and copies each key
   * whose schema is not in `cyc` as `KeyCodeOk` says.
   */
  ghost predicate KeysCopied(g: Graph, m: NodeId, body: seq<FieldCode>, cyc: set<NodeId>)
    requires m < |g| && g[m].RecordOf?
  {
    && SameNames(g[m].fields, body)
    && forall l :: 0 <= l < |body| && l < |g[m].fields| && g[m].fields[l].node < |g| && g[m].fields[l].node !in cyc ==>
      KeyCodeOk(g, g[m].fields[l].node, body[l].code)
  }

  /** Under the corrected policy, the keys of a record outside the cycle map keep their code. */
  lemma {:induction false} NestedKeys(g: Graph, m: NodeId, opts: Opts, ctx: Ctx, rank: seq<nat>)
    requires Closed(g) && RecordBroken(g, rank) && CtxOk(ctx)
    requires m < |g| && g[m].RecordOf? && m !in ctx.cycles && forall f <- g[m].fields :: f.node < |g|
    ensures var ctx1 := ctx.(cycles := ctx.cycles[m := Pending]);
      var sf := SynthFields(InProgressOnly, g, g[m].fields, opts, ctx1, rank);
      sf.Ok? ==> KeysCopied(g, m, sf.value.fields, ctx1.cycles.Keys)
  {
    var ctx1 := ctx.(cycles := ctx.cycles[m := Pending]);
    EvolvedFromPending(InProgressOnly, m, ctx, ctx1);
    var sf := SynthFields(InProgressOnly, g, g[m].fields, opts, ctx1, rank);
    if sf.Ok? {
      forall l | 0 <= l < |sf.value.fields| && l < |g[m].fields| && g[m].fields[l].node < |g| && g[m].fields[l].node !in ctx1.cycles.Keys
        ensures KeyCodeOk(g, g[m].fields[l].node, sf.value.fields[l].code)
      {
        KeyFieldCode(g, g[m].fields, opts, ctx1, rank, l);
      }
    }
  }

  /**
   * The fields of a record `n` whose first key has a record schema `m`
   * whose key `j` has schema `n` again: the first key's code is a guarded
   * record copy whose key `j` calls `n`'s helper.
   */
  lemma {:induction false} DeepFields(policy: CyclePolicy, g: Graph, n: NodeId, opts: Opts, ctx1: Ctx, rank: seq<nat>, j: nat)
    requires Closed(g) && RecordBroken(g, rank) && CtxOk(ctx1) && n < |g| && g[n].RecordOf? && n in ctx1.cycles
    requires forall k :: k in ctx1.cycles ==> k < |g| && g[k].RecordOf?
    requires forall f <- g[n].fields :: f.node < |g|
    requires g[n].fields != [] && g[n].fields[0].node !in ctx1.cycles
    requires var m := g[n].fields[0].node; g[m].RecordOf? && j < |g[m].fields| && g[m].fields[j].node == n
    ensures var m := g[n].fields[0].node;
      var sf := SynthFields(policy, g, g[n].fields, opts, ctx1, rank);
      sf.Ok? ==>
        && 0 < |sf.value.fields| && sf.value.fields[0].name == g[n].fields[0].name
        && var c := sf.value.fields[0].code;
        && opts.detectCycles && c.Guarded? && (c.inner.Record? || c.inner.CycleWrap?)
        && |RecordBody(c.inner)| == |g[m].fields|
        && RecordBody(c.inner)[j].name == g[m].fields[j].name
        && RecordBody(c.inner)[j].code.CycleCall?
        && n in sf.value.ctx.cycles
        && sf.value.ctx.cycles[n] == Found(RecordBody(c.inner)[j].code.getter)
        && (policy == InProgressOnly ==> KeysCopied(g, m, RecordBody(c.inner), ctx1.cycles.Keys + {m}))
  {
    var fields := g[n].fields;
    var m := fields[0].node;
    SynthesisFacts.FieldsCons(policy, g, fields, opts, ctx1, rank);
    NestedRecordCode(policy, g, m, opts, ctx1, rank, n, j);
    var sf := SynthFields(policy, g, fields, opts, ctx1, rank);
    var e := Synth(policy, g, m, opts, ctx1, rank);
    if sf.Ok? {
      var rest := SynthFields(policy, g, fields[1..], opts, e.value.ctx, rank).value;
      assert sf.value.fields[0] == FieldCode(fields[0].name, e.value.code);
      assert sf.value.ctx == rest.ctx;
    }
  }

  /** The cycle map while the fields of the root record `n` are emitted. */
  lemma {:induction false} DeepStart(g: Graph, n: NodeId, ctx1: Ctx)
    requires Closed(g) && n < |g| && g[n].RecordOf? && ctx1 == FreshCtx.(cycles := FreshCtx.cycles[n := Pending])
    ensures CtxOk(ctx1) && n in ctx1.cycles && ctx1.cycles.Keys == {n}
    ensures forall k :: k in ctx1.cycles ==> k < |g| && g[k].RecordOf?
    ensures forall f <- g[n].fields :: f.node < |g|
  {
    FieldsInGraph(g, n);
  }

  /** Closing a record whose resolver was called: its guarded helper. */
  lemma {:induction false} OwnerClose(policy: CyclePolicy, n: NodeId, opts: Opts, ctx: Ctx, fs: EmittedFields, k: nat)
    requires CtxOk(ctx) && n !in ctx.cycles
    requires Evolved(policy, ctx.(cycles := ctx.cycles[n := Pending]), fs.ctx)
    requires policy == InProgressOnly ==> FieldsFreeCalls(fs.fields) <= Getters(fs.ctx)
    requires opts.detectCycles && n in fs.ctx.cycles && fs.ctx.cycles[n] == Found(k)
    ensures CloseRecord(policy, n, opts, ctx, fs).code == Guarded(CycleWrap(k, fs.fields))
  {
  }

  /**
   * `o.nest.circular = o`: the code for a record schema `n` whose first
   * key has a record schema `m` with a key `j` whose schema is `n` again,
   * under either cycle policy. It is `n`'s guarded helper; the first key is
   * copied by a guarded record copy whose key `j` calls that helper; under
   * the corrected policy the leaf keys of `m` are copied by their leaf code.
   */
  lemma {:induction false} DeepFieldCode(policy: CyclePolicy, g: Graph, n: NodeId, opts: Opts, rank: seq<nat>, j: nat)
    requires Closed(g) && n < |g| && RecordBroken(g, rank) && g[n].RecordOf? && g[n].fields != []
    requires var m := g[n].fields[0].node;
      m < |g| && m != n && g[m].RecordOf? && j < |g[m].fields| && g[m].fields[j].node == n
    ensures var m := g[n].fields[0].node;
      var r := Synth(policy, g, n, opts, FreshCtx, rank);
      r.Ok? ==>
        && opts.detectCycles && r.value.code.Guarded? && r.value.code.inner.CycleWrap?
        && var w := r.value.code.inner;
        && 0 < |w.body| && w.body[0].name == g[n].fields[0].name
        && var c := w.body[0].code;
        && c.Guarded? && (c.inner.Record? || c.inner.CycleWrap?)
        && |RecordBody(c.inner)| == |g[m].fields|
        && RecordBody(c.inner)[j] == FieldCode(g[m].fields[j].name, CycleCall(w.getter))
        && (policy == InProgressOnly ==> KeysCopied(g, m, RecordBody(c.inner), {n, m}))
  {
    var ctx1 := FreshCtx.(cycles := FreshCtx.cycles[n := Pending]);
    DeepStart(g, n, ctx1);
    DeepFields(policy, g, n, opts, ctx1, rank, j);
    SynthesisFacts.RecordResult(policy, g, n, opts, FreshCtx, rank);
    var sf := SynthFields(policy, g, g[n].fields, opts, ctx1, rank);
    if sf.Ok? {
      var c := sf.value.fields[0].code;
      OwnerClose(policy, n, opts, FreshCtx, sf.value, RecordBody(c.inner)[j].code.getter);
    }
  }

  /**
   * `o.circular = o; c = createCloner(o, {detectCycles: true})(o)`, for
   * any schema whose key `i` refers back to the record: the copy is a new
   * object, and its key `i` refers to the copy, not to `o`. No run of the
   * corrected code throws a `ReferenceError`.
   */
  lemma {:induction false} CircularCopy(g: Graph, n: NodeId, opts: Opts, rank: seq<nat>, i: nat, h: Heap, o: ObjId, fuel: nat)
    requires Closed(g) && n < |g| && RecordBroken(g, rank) && g[n].RecordOf?
    requires i < |g[n].fields| && g[n].fields[i].node == n
    requires Valid(h) && o < |h| && h[o].RecordObj?
    requires Lookup(h[o].props, g[n].fields[i].name) == Ref(o) && fuel > 0
    ensures var code := CloneCode(g, n, opts, rank);
      code.Ok? ==>
        var r := RunCloner(code.value.code, h, Ref(o), fuel);
        && r != Err(ReferenceError) && SelfCopy(r, h, o, i)
        && (r.Ok? ==> ValuesKept(g, n, h, Ref(o), r.value.rs.heap[r.value.value.obj], {n}))
    ensures var code := CloneCodeAsWritten(g, n, opts, rank);
      code.Ok? ==> SelfCopy(RunCloner(code.value.code, h, Ref(o), fuel), h, o, i)
  {
    SelfRun(InProgressOnly, g, n, opts, rank, i, h, o, fuel);
    SelfRun(KeepExpanded, g, n, opts, rank, i, h, o, fuel);
  }

  /** A successful copy is a new record whose key `i` holds the copy itself. */
  ghost predicate SelfCopy(r: Result<Run, RunError>, h: Heap, o: ObjId, i: nat) {
    r.Ok? ==>
      var c := r.value.value;
      && c.Ref? && |h| <= c.obj < |r.value.rs.heap|
      && r.value.rs.heap[c.obj].RecordObj?
      && i < |r.value.rs.heap[c.obj].props|
      && r.value.rs.heap[c.obj].props[i].value == c
  }

  lemma {:induction false} SelfRun(policy: CyclePolicy, g: Graph, n: NodeId, opts: Opts, rank: seq<nat>, i: nat, h: Heap, o: ObjId, fuel: nat)
    requires Closed(g) && n < |g| && RecordBroken(g, rank) && g[n].RecordOf?
    requires i < |g[n].fields| && g[n].fields[i].node == n
    requires Valid(h) && o < |h| && h[o].RecordObj?
    requires Lookup(h[o].props, g[n].fields[i].name) == Ref(o) && fuel > 0
    ensures var code := Synth(policy, g, n, opts, FreshCtx, rank);
      code.Ok? ==>
        var r := RunCloner(code.value.code, h, Ref(o), fuel);
        && SelfCopy(r, h, o, i)
        && (policy == InProgressOnly && r.Ok? ==> ValuesKept(g, n, h, Ref(o), r.value.rs.heap[r.value.value.obj], {n}))
  {
    var code := Synth(policy, g, n, opts, FreshCtx, rank);
    SelfFieldCode(policy, g, n, opts, rank, i);
    if code.Ok? {
      var w := code.value.code.inner;
      var rs := RunState(h, map[]);
      GuardFirst(map[], w, Ref(o), rs, fuel);
      HelperSelfRef(map[], w.getter, w.body, Ref(o), rs, fuel, i);
      var r := RunCloner(code.value.code, h, Ref(o), fuel);
      if policy == InProgressOnly && r.Ok? {
        KeptValues(g, n, h, Ref(o), w.body, r.value.rs.heap[r.value.value.obj], {n});
      }
    }
  }


  /**
   * The copy `r` of `o`, where `o`'s first key holds `p` and `p`'s key `j`
   * holds `o`: a new object `c`, not `o`, whose first key holds a new object,
   * neither `c` nor `p`, whose key `j` refers to `c`.
   */
  ghost predicate DeepCopy(r: Result<Run, RunError>, h: Heap, o: ObjId, p: Value, j: nat) {
    r.Ok? ==>
      var c := r.value.value;
      var h2 := r.value.rs.heap;
      && c.Ref? && c != Ref(o) && c.obj < |h2| && h2[c.obj].RecordObj? && 0 < |h2[c.obj].props|
      && var d := h2[c.obj].props[0].value;
      && d.Ref? && d != c && d != p && |h| <= d.obj < |h2|
      && h2[d.obj].RecordObj? && j < |h2[d.obj].props| && h2[d.obj].props[j].value == c
  }

  /**
   * Object `q`, the copy of record `p` with schema `m`, for the keys whose
   * schema is not in `cyc`: a key whose schema is a leaf copied by the
   * input expression (a number, a string, a boolean, a function, a symbol)
   * holds `p`'s own value, and a key with a composite schema holds a new
   * object, none of the original heap `h`.
   */
  ghost predicate ValuesKept(g: Graph, m: NodeId, h: Heap, p: Value, q: Obj, cyc: set<NodeId>)
    requires m < |g| && g[m].RecordOf? && p.Ref? && p.obj < |h| && h[p.obj].RecordObj? && q.RecordObj?
  {
    forall l :: 0 <= l < |g[m].fields| && l < |q.props| && g[m].fields[l].node < |g| && g[m].fields[l].node !in cyc ==>
      var k := g[m].fields[l].node;
      && (g[k].LeafN? && LeafCode(g[k].leaf) == Ident ==> q.props[l].value == Lookup(h[p.obj].props, g[m].fields[l].name))
      && (Composite(g[k]) ==> q.props[l].value.Ref? && |h| <= q.props[l].value.obj)
  }

  /**
   * Running the code of `o.nest.circular = o` on such an object: the
   * outer helper, entered for `o`, copies the first key by a nested record
   * copy whose key `j` calls the outer helper back.
   */
  lemma {:induction false} DeepRun(code: Frag, h: Heap, o: ObjId, fuel: nat, j: nat)
    requires Valid(h) && o < |h| && h[o].RecordObj? && fuel > 0
    requires code.Guarded? && code.inner.CycleWrap? && 0 < |code.inner.body|
    requires var c := code.inner.body[0].code;
      && c.Guarded? && (c.inner.Record? || c.inner.CycleWrap?)
      && j < |RecordBody(c.inner)| && RecordBody(c.inner)[j].code == CycleCall(code.inner.getter)
    requires var p := Lookup(h[o].props, code.inner.body[0].name);
      && p.Ref? && p != Ref(o) && p.obj < |h| && h[p.obj].RecordObj?
      && Lookup(h[p.obj].props, RecordBody(code.inner.body[0].code.inner)[j].name) == Ref(o)
    ensures var p := Lookup(h[o].props, code.inner.body[0].name);
      var r := RunCloner(code, h, Ref(o), fuel);
      && DeepCopy(r, h, o, p, j)
      && (r.Ok? ==>
            NewCopyWith(RunState(h, map[]), Ok(Run(r.value.rs.heap[r.value.value.obj].props[0].value, r.value.rs)),
                        p, RecordBody(code.inner.body[0].code.inner), j, r.value.value))
  {
    var w := code.inner;
    var rs := RunState(h, map[]);
    GuardFirst(map[], w, Ref(o), rs, fuel);
    HelperNestedRef(map[], w.getter, w.body, Ref(o), rs, fuel, j);
  }

  /** A copy whose keys were emitted as `KeysCopied` says keeps the values `ValuesKept` names. */
  lemma {:induction false} KeptValues(g: Graph, m: NodeId, h: Heap, p: Value, body: seq<FieldCode>, q: Obj, cyc: set<NodeId>)
    requires m < |g| && g[m].RecordOf? && Valid(h) && p.Ref? && p.obj < |h| && h[p.obj].RecordObj? && q.RecordObj?
    requires KeysCopied(g, m, body, cyc) && FieldsCopied(RunState(h, map[]), p, body, q.props)
    ensures ValuesKept(g, m, h, p, q, cyc)
  {
  }

  /**
   * `o = {nest: {a: 1, b: 2}}; o.nest.circular = o; c = createCloner(o,
   * {detectCycles: true})(o)`, for any schema `n` whose first key has a
   * record schema `m` with a key `j` whose schema is `n`: the copy `c` is a
   * new object; `c.nest` is a new object, not `o.nest`; `c.nest`'s key `j`
   * refers to `c`, not to `o`. With the corrected cycle map, the keys of
   * `c.nest` whose schema is a number (or another leaf copied as is) hold
   * `o.nest`'s values, and no run throws a `ReferenceError`. The code as
   * written, which keeps finished records in the cycle map, builds the same
   * cycle.
   */
  lemma {:induction false} DeepCircularCopy(g: Graph, n: NodeId, opts: Opts, rank: seq<nat>, j: nat, h: Heap, o: ObjId, fuel: nat)
    requires Closed(g) && n < |g| && RecordBroken(g, rank) && g[n].RecordOf? && g[n].fields != []
    requires var m := g[n].fields[0].node;
      m < |g| && m != n && g[m].RecordOf? && j < |g[m].fields| && g[m].fields[j].node == n
    requires Valid(h) && o < |h| && h[o].RecordObj? && fuel > 0
    requires var p := Lookup(h[o].props, g[n].fields[0].name);
      && p.Ref? && p != Ref(o) && p.obj < |h| && h[p.obj].RecordObj?
      && Lookup(h[p.obj].props, g[g[n].fields[0].node].fields[j].name) == Ref(o)
    ensures var m := g[n].fields[0].node;
      var p := Lookup(h[o].props, g[n].fields[0].name);
      var code := CloneCode(g, n, opts, rank);
      code.Ok? ==>
        var r := RunCloner(code.value.code, h, Ref(o), fuel);
        && r != Err(ReferenceError)
        && DeepCopy(r, h, o, p, j)
        && (r.Ok? ==> ValuesKept(g, m, h, p, r.value.rs.heap[r.value.rs.heap[r.value.value.obj].props[0].value.obj], {n, m}))
    ensures var code := CloneCodeAsWritten(g, n, opts, rank);
      code.Ok? ==> DeepCopy(RunCloner(code.value.code, h, Ref(o), fuel), h, o, Lookup(h[o].props, g[n].fields[0].name), j)
  {
    var m := g[n].fields[0].node;
    var p := Lookup(h[o].props, g[n].fields[0].name);
    DeepFieldCode(InProgressOnly, g, n, opts, rank, j);
    DeepFieldCode(KeepExpanded, g, n, opts, rank, j);
    var code := CloneCode(g, n, opts, rank);
    if code.Ok? {
      var c := code.value.code.inner.body[0].code;
      DeepRun(code.value.code, h, o, fuel, j);
      var r := RunCloner(code.value.code, h, Ref(o), fuel);
      if r.Ok? {
        var q := r.value.rs.heap[r.value.rs.heap[r.value.value.obj].props[0].value.obj];
        KeptValues(g, m, h, p, RecordBody(c.inner), q, {n, m});
      }
    }
    var code2 := CloneCodeAsWritten(g, n, opts, rank);
    if code2.Ok? {
      DeepRun(code2.value.code, h, o, fuel, j);
    }
  }

  /**
   * `Object.create({a: 1})` again: a record schema with no keys copies to a
   * new empty object whatever the input, so no inherited key reaches the copy.
   */
  lemma {:induction false} EmptyRecordCopy(policy: CyclePolicy, g: Graph, n: NodeId, opts: Opts, rank: seq<nat>,
                                           h: Heap, x: Value, fuel: nat)
    requires Closed(g) && n < |g| && RecordBroken(g, rank) && g[n] == RecordOf([])
    requires Valid(h) && Below(x, |h|)
    ensures var code := Synth(policy, g, n, opts, FreshCtx, rank);
      && code.Ok?
      && var r := RunCloner(code.value.code, h, x, fuel);
      && r.Ok? && r.value.value == Ref(|h|) && r.value.rs.heap[|h|] == RecordObj([])
      && forall k :: Lookup(r.value.rs.heap[|h|].props, k) == Undefined
  {
    EmptyRecordCode(policy, g, n, opts, rank);
    EmptyLiteralRun(opts, h, x, fuel);
  }

  lemma {:induction false} EmptyRecordCode(policy: CyclePolicy, g: Graph, n: NodeId, opts: Opts, rank: seq<nat>)
    requires Closed(g) && n < |g| && RecordBroken(g, rank) && g[n] == RecordOf([])
    ensures Synth(policy, g, n, opts, FreshCtx, rank).Ok?
    ensures Synth(policy, g, n, opts, FreshCtx, rank).value.code == Guard(opts, Record([]))
  {
    var ctx1 := FreshCtx.(cycles := FreshCtx.cycles[n := Pending]);
    EvolvedFromPending(policy, n, FreshCtx, ctx1);
    SynthesisFacts.RecordResult(policy, g, n, opts, FreshCtx, rank);
    assert SynthFields(policy, g, g[n].fields, opts, ctx1, rank) == Ok(EmittedFields([], ctx1));
  }

  lemma {:induction false} EmptyLiteralRun(opts: Opts, h: Heap, x: Value, fuel: nat)
    requires Valid(h) && Below(x, |h|)
    ensures var r := RunCloner(Guard(opts, Record([])), h, x, fuel);
      r.Ok? && r.value.value == Ref(|h|) && r.value.rs.heap[|h|] == RecordObj([])
  {
    var rs := RunState(h, map[]);
    GuardFirst(map[], Record([]), x, rs, fuel);
    LiteralEval(map[], [], x, rs, fuel);
  }
}
