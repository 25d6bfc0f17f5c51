/**
 * Properties of clone-code synthesis that relate several calls or hold for
 * a whole class of schemas: a resolver hands out one getter, and on a schema
 * without cycles the corrected cycle map never reaches a resolver, so the
 * emitted code needs neither `detectCycles` nor a cycle helper.
 */
module SynthesisFacts {
  import opened Results
  import opened Schema
  import opened Fragments
  import opened Synthesis

  /** A second call of a record's resolver returns the getter of the first and changes nothing. */
  lemma {:induction false} ResolveTwice(n: NodeId, opts: Opts, ctx: Ctx)
    requires n in ctx.cycles && CtxOk(ctx)
    ensures var r1 := ResolveCycle(n, opts, ctx);
      r1.Ok? ==> ResolveCycle(n, opts, r1.value.ctx) == r1
  {
  }

  /** Every record still in the cycle map ranks above `bound`. */
  ghost predicate InProgressAbove(ctx: Ctx, rank: seq<nat>, bound: nat) {
    forall k :: k in ctx.cycles ==> k < |rank| && rank[k] > bound
  }

  /**
   * On an acyclic schema, under the corrected policy, every record found in
   * the cycle map is an ancestor and ranks above the node at hand: the cycle
   * check never fires, no resolver is called and no cycle helper appears.
   */
  lemma {:induction false} SynthAcyclic(g: Graph, n: NodeId, opts: Opts, ctx: Ctx, rank: seq<nat>)
    requires Closed(g) && n < |g| && Acyclic(g, rank) && CtxOk(ctx)
    requires InProgressAbove(ctx, rank, rank[n])
    ensures var r := Synth(InProgressOnly, g, n, opts, ctx, rank);
      && r != Err(DetectCyclesNotSet)
      && (r.Ok? ==> r.value.ctx.cycles == ctx.cycles && Helpers(r.value.code) == {})
    decreases Unexpanded(g, ctx), rank[n], 1
  {
    assert n !in ctx.cycles;
    if g[n].RecordOf? {
      RecordExpands(InProgressOnly, g, n, opts, ctx, rank);
      SynthRecordAcyclic(g, n, opts, ctx, rank);
    } else if g[n].MapOf? || g[n].SetOf? || g[n].ListOf? || g[n].ArrayOf? {
      NestedExpands(InProgressOnly, g, n, opts, ctx, rank);
      SynthNestedAcyclic(g, n, opts, ctx, rank);
    } else {
      SynthLeafAcyclic(g, n, opts, ctx, rank);
    }
  }

  /** A schema with nothing nested emits no helper and leaves the cycle map alone. */
  lemma {:induction false} SynthLeafAcyclic(g: Graph, n: NodeId, opts: Opts, ctx: Ctx, rank: seq<nat>)
    requires Closed(g) && n < |g| && RecordBroken(g, rank) && CtxOk(ctx) && n !in ctx.cycles
    requires g[n].LeafN? || g[n].Custom? || g[n].Other?
    ensures var r := Synth(InProgressOnly, g, n, opts, ctx, rank);
      && r != Err(DetectCyclesNotSet)
      && (r.Ok? ==> r.value.ctx.cycles == ctx.cycles && Helpers(r.value.code) == {})
  {
    if g[n].LeafN? {
      assert Synth(InProgressOnly, g, n, opts, ctx, rank) == Ok(Emitted(LeafCode(g[n].leaf), ctx));
    } else if g[n].Custom? {
      assert Synth(InProgressOnly, g, n, opts, ctx, rank) == Ok(Emitted(CustomCall, RegisterCustom(ctx, g[n].fn)));
    } else {
      assert Synth(InProgressOnly, g, n, opts, ctx, rank) == Err(UnsupportedRoot);
    }
  }

  /**
   * The schemas copied without recursion, and the two errors of the
   * dispatch: an array schema with several alternatives, and a schema no
   * branch accepts.
   */
  lemma {:induction false} SynthDispatch(policy: CyclePolicy, g: Graph, n: NodeId, opts: Opts, ctx: Ctx, rank: seq<nat>)
    requires Closed(g) && n < |g| && RecordBroken(g, rank) && CtxOk(ctx) && n !in ctx.cycles
    ensures var r := Synth(policy, g, n, opts, ctx, rank);
      && (g[n].LeafN? ==> r == Ok(Emitted(LeafCode(g[n].leaf), ctx)))
      && (g[n].Other? ==> r == Err(UnsupportedRoot))
      && (g[n].ArrayOf? && |g[n].alts| == 0 ==> r == Ok(Emitted(EmptyArray, ctx)))
      && (g[n].ArrayOf? && |g[n].alts| > 1 ==> r == Err(AlternativeItems))
  {
    if g[n].ArrayOf? {
      NestedExpands(policy, g, n, opts, ctx, rank);
    }
  }

  /** A wrapper or array schema not in the cycle map is synthesised by `SynthNested`. */
  lemma {:induction false} NestedExpands(policy: CyclePolicy, g: Graph, n: NodeId, opts: Opts, ctx: Ctx, rank: seq<nat>)
    requires Closed(g) && n < |g| && n !in ctx.cycles
    requires g[n].MapOf? || g[n].SetOf? || g[n].ListOf? || g[n].ArrayOf?
    requires RecordBroken(g, rank) && CtxOk(ctx)
    ensures Synth(policy, g, n, opts, ctx, rank) == SynthNested(policy, g, n, opts, ctx, rank)
  {
  }

  lemma {:induction false} SynthNestedAcyclic(g: Graph, n: NodeId, opts: Opts, ctx: Ctx, rank: seq<nat>)
    requires Closed(g) && n < |g| && Acyclic(g, rank) && CtxOk(ctx)
    requires g[n].MapOf? || g[n].SetOf? || g[n].ListOf? || g[n].ArrayOf?
    requires InProgressAbove(ctx, rank, rank[n])
    ensures var r := SynthNested(InProgressOnly, g, n, opts, ctx, rank);
      && r != Err(DetectCyclesNotSet)
      && (r.Ok? ==> r.value.ctx.cycles == ctx.cycles && Helpers(r.value.code) == {})
    decreases Unexpanded(g, ctx), rank[n], 0
  {
    if !(g[n].ArrayOf? && |g[n].alts| != 1) {
      var c := NestedUnfold(InProgressOnly, g, n, opts, ctx, rank);
      SynthAcyclic(g, c, opts, ctx, rank);
    }
  }

  /** A wrapper or one-item array schema: the wrapped copy of its one child. */
  lemma {:induction false} NestedUnfold(policy: CyclePolicy, g: Graph, n: NodeId, opts: Opts, ctx: Ctx, rank: seq<nat>)
    returns (c: NodeId)
    requires Closed(g) && n < |g| && RecordBroken(g, rank) && CtxOk(ctx)
    requires g[n].MapOf? || g[n].SetOf? || g[n].ListOf? || (g[n].ArrayOf? && |g[n].alts| == 1)
    ensures c == Children(g[n])[0] && c < |g| && c in Children(g[n])
    ensures var e := Synth(policy, g, c, opts, ctx, rank);
      SynthNested(policy, g, n, opts, ctx, rank) ==
        if e.Err? then Err(e.error) else Ok(Emitted(Wrap(opts, g[n], e.value.code), e.value.ctx))
  {
    c := Children(g[n])[0];
    assert c in Children(g[n]);
  }

  lemma {:induction false} SynthRecordAcyclic(g: Graph, n: NodeId, opts: Opts, ctx: Ctx, rank: seq<nat>)
    requires Closed(g) && n < |g| && g[n].RecordOf? && n !in ctx.cycles
    requires Acyclic(g, rank) && CtxOk(ctx)
    requires InProgressAbove(ctx, rank, rank[n])
    ensures var r := SynthRecord(InProgressOnly, g, n, opts, ctx, rank);
      && r != Err(DetectCyclesNotSet)
      && (r.Ok? ==> r.value.ctx.cycles == ctx.cycles && Helpers(r.value.code) == {})
    decreases Unexpanded(g, ctx), rank[n], 0
  {
    var ctx1 := ctx.(cycles := ctx.cycles[n := Pending]);
    PendingShrinks(g, n, ctx);
    FieldsInGraph(g, n);
    PendingAbove(g, n, ctx, rank);
    SynthFieldsAcyclic(g, g[n].fields, opts, ctx1, rank);
    RecordUnfold(InProgressOnly, g, n, opts, ctx, rank);
    var fs := SynthFields(InProgressOnly, g, g[n].fields, opts, ctx1, rank);
    if fs.Ok? {
      CloseAcyclic(n, opts, ctx, fs.value);
    }
  }

  /** A record whose fields left the cycle map as they found it closes without a cycle helper. */
  lemma {:induction false} CloseAcyclic(n: NodeId, opts: Opts, ctx: Ctx, fs: EmittedFields)
    requires CtxOk(ctx) && n !in ctx.cycles
    requires Evolved(InProgressOnly, ctx.(cycles := ctx.cycles[n := Pending]), fs.ctx)
    requires FieldsFreeCalls(fs.fields) <= Getters(fs.ctx)
    requires fs.ctx.cycles == ctx.cycles[n := Pending] && FieldsHelpers(fs.fields) == {}
    ensures var r := CloseRecord(InProgressOnly, n, opts, ctx, fs);
      r.ctx.cycles == ctx.cycles && Helpers(r.code) == {}
  {
    assert fs.ctx.cycles - {n} == ctx.cycles;
  }

  /** Registering a record keeps every entry above its fields. */
  lemma {:induction false} PendingAbove(g: Graph, n: NodeId, ctx: Ctx, rank: seq<nat>)
    requires Closed(g) && n < |g| && g[n].RecordOf? && Acyclic(g, rank)
    requires InProgressAbove(ctx, rank, rank[n])
    ensures var fields := g[n].fields;
      forall i :: 0 <= i < |fields| ==>
        InProgressAbove(ctx.(cycles := ctx.cycles[n := Pending]), rank, rank[fields[i].node])
  {
  }

  lemma {:induction false} SynthFieldsAcyclic(g: Graph, fields: seq<Field>, opts: Opts, ctx: Ctx, rank: seq<nat>)
    requires Closed(g) && Acyclic(g, rank) && CtxOk(ctx)
    requires forall f <- fields :: f.node < |g|
    requires forall i :: 0 <= i < |fields| ==> InProgressAbove(ctx, rank, rank[fields[i].node])
    ensures var r := SynthFields(InProgressOnly, g, fields, opts, ctx, rank);
      && r != Err(DetectCyclesNotSet)
      && (r.Ok? ==> r.value.ctx.cycles == ctx.cycles && FieldsHelpers(r.value.fields) == {})
    decreases Unexpanded(g, ctx), |g|, |fields|
  {
    if fields != [] {
      SynthAcyclic(g, fields[0].node, opts, ctx, rank);
      var e := Synth(InProgressOnly, g, fields[0].node, opts, ctx, rank);
      if e.Ok? {
        assert Unexpanded(g, e.value.ctx) == Unexpanded(g, ctx);
        var rest := fields[1..];
        forall i | 0 <= i < |rest| ensures InProgressAbove(e.value.ctx, rank, rank[rest[i].node]) {
          assert rest[i] == fields[i + 1];
        }
        SynthFieldsAcyclic(g, rest, opts, e.value.ctx, rank);
      }
    }
  }

  /** `createCloner` on an acyclic schema: no `detectCycles` error and no cycle helper, whatever the options. */
  lemma {:induction false} CloneCodeAcyclic(g: Graph, n: NodeId, opts: Opts, rank: seq<nat>)
    requires Closed(g) && n < |g| && Acyclic(g, rank)
    ensures var r := CloneCode(g, n, opts, rank);
      r != Err(DetectCyclesNotSet) && (r.Ok? ==> Helpers(r.value.code) == {} && FreeCalls(r.value.code) == {})
  {
    SynthAcyclic(g, n, opts, FreshCtx, rank);
  }

  // ---------------------------------------------------------------------
  // One record schema used twice: `{a: P, b: P}` with `P = {x: Number}`
  // ---------------------------------------------------------------------

  /** Node 0 is the outer record, node 1 the shared inner record, node 2 `Number`. */
  const SharedGraph: Graph := [
    RecordOf([Field("a", 1), Field("b", 1)]),
    RecordOf([Field("x", 2)]),
    LeafN(NumberL)]

  const SharedRank: seq<nat> := [2, 1, 0]

  lemma {:induction false} SharedAcyclic()
    ensures Closed(SharedGraph) && Acyclic(SharedGraph, SharedRank)
  {
    assert Children(SharedGraph[0]) == [1, 1];
    assert Children(SharedGraph[1]) == [2];
  }

  /** As written, a record that was synthesised once stays in the cycle map. */
  lemma {:induction false} RecordStaysAsWritten(g: Graph, n: NodeId, opts: Opts, ctx: Ctx, rank: seq<nat>)
    requires Closed(g) && n < |g| && g[n].RecordOf? && RecordBroken(g, rank) && CtxOk(ctx)
    ensures var r := Synth(KeepExpanded, g, n, opts, ctx, rank);
      r.Ok? ==> n in r.value.ctx.cycles
  {
  }

  /**
   * As written, synthesising the same record schema a second time, as a
   * later sibling field does, reaches its resolver although the first copy
   * is complete: without `detectCycles` it throws, with it it emits a
   * cycle-helper call.
   */
  lemma {:induction false} SecondUseAsWritten(g: Graph, n: NodeId, opts: Opts, ctx: Ctx, rank: seq<nat>)
    requires Closed(g) && n < |g| && g[n].RecordOf? && RecordBroken(g, rank) && CtxOk(ctx)
    ensures var r1 := Synth(KeepExpanded, g, n, opts, ctx, rank);
      r1.Ok? ==>
        var r2 := Synth(KeepExpanded, g, n, opts, r1.value.ctx, rank);
        && (!opts.detectCycles ==> r2 == Err(DetectCyclesNotSet))
        && (opts.detectCycles ==>
              r2.Ok? && r2.value.code.CycleCall? && n in r2.value.ctx.cycles
              && r2.value.ctx.cycles[n] == Found(r2.value.code.getter))
  {
    RecordStaysAsWritten(g, n, opts, ctx, rank);
  }

  /**
   * Under the corrected policy the second use of a record schema in an
   * acyclic graph is copied like the first: no error about `detectCycles`,
   * no cycle helper.
   */
  lemma {:induction false} SecondUseCorrected(g: Graph, n: NodeId, opts: Opts, ctx: Ctx, rank: seq<nat>)
    requires Closed(g) && n < |g| && Acyclic(g, rank) && CtxOk(ctx)
    requires InProgressAbove(ctx, rank, rank[n])
    ensures var r1 := Synth(InProgressOnly, g, n, opts, ctx, rank);
      r1.Ok? ==>
        var r2 := Synth(InProgressOnly, g, n, opts, r1.value.ctx, rank);
        r2 != Err(DetectCyclesNotSet) && (r2.Ok? ==> Helpers(r2.value.code) == {})
  {
    SynthAcyclic(g, n, opts, ctx, rank);
    var r1 := Synth(InProgressOnly, g, n, opts, ctx, rank);
    if r1.Ok? {
      SynthAcyclic(g, n, opts, r1.value.ctx, rank);
    }
  }

  /** The emitted fields of a one-field record. */
  lemma {:induction false} FieldsOne(policy: CyclePolicy, g: Graph, f: Field, opts: Opts, ctx: Ctx, rank: seq<nat>)
    requires Closed(g) && RecordBroken(g, rank) && CtxOk(ctx) && f.node < |g|
    requires Synth(policy, g, f.node, opts, ctx, rank).Ok?
    ensures var e := Synth(policy, g, f.node, opts, ctx, rank).value;
      SynthFields(policy, g, [f], opts, ctx, rank) == Ok(EmittedFields([FieldCode(f.name, e.code)], e.ctx))
  {
    var e := Synth(policy, g, f.node, opts, ctx, rank).value;
    assert [f][1..] == [];
    assert [FieldCode(f.name, e.code)] + [] == [FieldCode(f.name, e.code)];
  }

  /** The inner record of the shared schema, copied the first time. */
  lemma {:induction false} SharedInnerFirst(opts: Opts, ctx: Ctx)
    requires CtxOk(ctx) && ctx.cycles.Keys <= {0}
    ensures Closed(SharedGraph) && RecordBroken(SharedGraph, SharedRank)
    ensures var r := Synth(KeepExpanded, SharedGraph, 1, opts, ctx, SharedRank);
      && r.Ok? && r.value.code == Guard(opts, Record([FieldCode("x", Ident)]))
      && r.value.ctx == ctx.(cycles := ctx.cycles[1 := Pending])
  {
    SharedAcyclic();
    var g := SharedGraph;
    var ctx1 := ctx.(cycles := ctx.cycles[1 := Pending]);
    PendingShrinks(g, 1, ctx);
    assert CtxOk(ctx1);
    var x := Synth(KeepExpanded, g, 2, opts, ctx1, SharedRank);
    assert x == Ok(Emitted(Ident, ctx1));
    FieldsOne(KeepExpanded, g, Field("x", 2), opts, ctx1, SharedRank);
  }

  /**
   * As written, a record whose two fields use one record schema: without
   * `detectCycles` the second field throws; with it the record's code calls
   * a cycle helper that it does not define.
   */
  lemma {:induction false} SiblingsAsWritten(g: Graph, n: NodeId, opts: Opts, ctx: Ctx, rank: seq<nat>)
    requires Closed(g) && n < |g| && g[n].RecordOf? && n !in ctx.cycles
    requires RecordBroken(g, rank) && CtxOk(ctx)
    requires |g[n].fields| == 2 && g[n].fields[0].node == g[n].fields[1].node != n
    requires g[n].fields[0].node < |g| && g[g[n].fields[0].node].RecordOf?
    requires Synth(KeepExpanded, g, g[n].fields[0].node, opts, ctx.(cycles := ctx.cycles[n := Pending]), rank).Ok?
    ensures var r := Synth(KeepExpanded, g, n, opts, ctx, rank);
      && (!opts.detectCycles ==> r == Err(DetectCyclesNotSet))
      && (opts.detectCycles ==> r.Ok? && FreeCalls(r.value.code) != {})
  {
    if opts.detectCycles {
      SiblingsDetect(g, n, opts, ctx, rank);
    } else {
      SiblingsNoDetect(g, n, opts, ctx, rank);
    }
  }

  lemma {:induction false} SiblingsNoDetect(g: Graph, n: NodeId, opts: Opts, ctx: Ctx, rank: seq<nat>)
    requires Closed(g) && n < |g| && g[n].RecordOf? && n !in ctx.cycles
    requires RecordBroken(g, rank) && CtxOk(ctx) && !opts.detectCycles
    requires |g[n].fields| == 2 && g[n].fields[0].node == g[n].fields[1].node != n
    requires g[n].fields[0].node < |g| && g[g[n].fields[0].node].RecordOf?
    requires Synth(KeepExpanded, g, g[n].fields[0].node, opts, ctx.(cycles := ctx.cycles[n := Pending]), rank).Ok?
    ensures Synth(KeepExpanded, g, n, opts, ctx, rank) == Err(DetectCyclesNotSet)
  {
    var ctx1 := ctx.(cycles := ctx.cycles[n := Pending]);
    EvolvedFromPending(KeepExpanded, n, ctx, ctx1);
    SiblingFields(g, n, opts, ctx1, rank);
    assert SynthFields(KeepExpanded, g, g[n].fields, opts, ctx1, rank) == Err(DetectCyclesNotSet);
    RecordResult(KeepExpanded, g, n, opts, ctx, rank);
  }

  lemma {:induction false} SiblingsDetect(g: Graph, n: NodeId, opts: Opts, ctx: Ctx, rank: seq<nat>)
    requires Closed(g) && n < |g| && g[n].RecordOf? && n !in ctx.cycles
    requires RecordBroken(g, rank) && CtxOk(ctx) && opts.detectCycles
    requires |g[n].fields| == 2 && g[n].fields[0].node == g[n].fields[1].node != n
    requires g[n].fields[0].node < |g| && g[g[n].fields[0].node].RecordOf?
    requires Synth(KeepExpanded, g, g[n].fields[0].node, opts, ctx.(cycles := ctx.cycles[n := Pending]), rank).Ok?
    ensures var r := Synth(KeepExpanded, g, n, opts, ctx, rank);
      r.Ok? && FreeCalls(r.value.code) != {}
  {
    var ctx1 := ctx.(cycles := ctx.cycles[n := Pending]);
    EvolvedFromPending(KeepExpanded, n, ctx, ctx1);
    SiblingFields(g, n, opts, ctx1, rank);
    RecordResult(KeepExpanded, g, n, opts, ctx, rank);
    SiblingsClose(g, n, opts, ctx, rank);
  }

  lemma {:induction false} SiblingsClose(g: Graph, n: NodeId, opts: Opts, ctx: Ctx, rank: seq<nat>)
    requires Closed(g) && n < |g| && g[n].RecordOf? && n !in ctx.cycles
    requires RecordBroken(g, rank) && CtxOk(ctx) && forall f <- g[n].fields :: f.node < |g|
    requires |g[n].fields| == 2 && g[n].fields[0].node != n
    requires var sf := SynthFields(KeepExpanded, g, g[n].fields, opts, ctx.(cycles := ctx.cycles[n := Pending]), rank);
      && sf.Ok? && g[n].fields[0].node in sf.value.ctx.cycles
      && sf.value.ctx.cycles[g[n].fields[0].node].Found?
      && sf.value.ctx.cycles[g[n].fields[0].node].getter in FieldsFreeCalls(sf.value.fields)
    ensures var sf := SynthFields(KeepExpanded, g, g[n].fields, opts, ctx.(cycles := ctx.cycles[n := Pending]), rank);
      FreeCalls(CloseRecord(KeepExpanded, n, opts, ctx, sf.value).code) != {}
  {
    var fs := SynthFields(KeepExpanded, g, g[n].fields, opts, ctx.(cycles := ctx.cycles[n := Pending]), rank).value;
    CloseKeepsCall(n, opts, ctx, fs, g[n].fields[0].node);
  }

  /** A record not yet in the cycle map: the error of its fields, or its fields closed. */
  lemma {:induction false} RecordResult(policy: CyclePolicy, g: Graph, n: NodeId, opts: Opts, ctx: Ctx, rank: seq<nat>)
    requires Closed(g) && n < |g| && g[n].RecordOf? && n !in ctx.cycles
    requires RecordBroken(g, rank) && CtxOk(ctx)
    ensures forall f <- g[n].fields :: f.node < |g|
    ensures var ctx1 := ctx.(cycles := ctx.cycles[n := Pending]);
      var fs := SynthFields(policy, g, g[n].fields, opts, ctx1, rank);
      && (fs.Err? ==> Synth(policy, g, n, opts, ctx, rank) == Err(fs.error))
      && (fs.Ok? ==> Synth(policy, g, n, opts, ctx, rank) == Ok(CloseRecord(policy, n, opts, ctx, fs.value)))
  {
    RecordExpands(policy, g, n, opts, ctx, rank);
    RecordUnfold(policy, g, n, opts, ctx, rank);
  }

  /** The two fields of such a record, emitted as the source emits them. */
  lemma {:induction false} SiblingFields(g: Graph, n: NodeId, opts: Opts, ctx1: Ctx, rank: seq<nat>)
    requires Closed(g) && n < |g| && g[n].RecordOf? && n in ctx1.cycles
    requires RecordBroken(g, rank) && CtxOk(ctx1)
    requires |g[n].fields| == 2 && g[n].fields[0].node == g[n].fields[1].node != n
    requires g[n].fields[0].node < |g| && g[g[n].fields[0].node].RecordOf?
    requires Synth(KeepExpanded, g, g[n].fields[0].node, opts, ctx1, rank).Ok?
    ensures forall f <- g[n].fields :: f.node < |g|
    ensures var m := g[n].fields[0].node;
      var sf := SynthFields(KeepExpanded, g, g[n].fields, opts, ctx1, rank);
      && (!opts.detectCycles ==> sf == Err(DetectCyclesNotSet))
      && (opts.detectCycles ==>
            && sf.Ok? && m in sf.value.ctx.cycles && sf.value.ctx.cycles[m].Found?
            && sf.value.ctx.cycles[m].getter in FieldsFreeCalls(sf.value.fields))
  {
    FieldsInGraph(g, n);
    var fields := g[n].fields;
    var m := fields[0].node;
    var e1 := Synth(KeepExpanded, g, m, opts, ctx1, rank).value;
    SecondUseAsWritten(g, m, opts, ctx1, rank);
    FieldsCons(KeepExpanded, g, fields, opts, ctx1, rank);
    assert fields[1..] == [fields[1]];
    FieldsCons(KeepExpanded, g, fields[1..], opts, e1.ctx, rank);
    if opts.detectCycles {
      FieldsOne(KeepExpanded, g, fields[1], opts, e1.ctx, rank);
      var r2 := Synth(KeepExpanded, g, m, opts, e1.ctx, rank).value;
      var fs := SynthFields(KeepExpanded, g, fields, opts, ctx1, rank).value;
      assert fs.fields == [FieldCode(fields[0].name, e1.code), FieldCode(fields[1].name, r2.code)];
      SecondFieldCall(fs.fields, r2.code.getter);
    }
  }

  lemma {:induction false} SecondFieldCall(fs: seq<FieldCode>, k: nat)
    requires |fs| == 2 && fs[1].code == CycleCall(k)
    ensures k in FieldsFreeCalls(fs)
  {
    FieldFreeCalls(fs, 1);
  }

  /**
   * The shared schema as the source handles it: without `detectCycles` the
   * call throws; with it the emitted code calls a cycle helper that nothing
   * defines.
   */
  lemma {:induction false} SharedRecordAsWritten(opts: Opts)
    ensures Closed(SharedGraph) && RecordBroken(SharedGraph, SharedRank)
    ensures var r := CloneCodeAsWritten(SharedGraph, 0, opts, SharedRank);
      && (!opts.detectCycles ==> r == Err(DetectCyclesNotSet))
      && (opts.detectCycles ==> r.Ok? && FreeCalls(r.value.code) != {})
  {
    SharedAcyclic();
    SharedInnerFirst(opts, FreshCtx.(cycles := map[0 := Pending]));
    SiblingsAsWritten(SharedGraph, 0, opts, FreshCtx, SharedRank);
  }

  /** A record not yet in the cycle map is expanded. */
  lemma {:induction false} RecordExpands(policy: CyclePolicy, g: Graph, n: NodeId, opts: Opts, ctx: Ctx, rank: seq<nat>)
    requires Closed(g) && n < |g| && g[n].RecordOf? && n !in ctx.cycles
    requires RecordBroken(g, rank) && CtxOk(ctx)
    ensures Synth(policy, g, n, opts, ctx, rank) == SynthRecord(policy, g, n, opts, ctx, rank)
  {
  }

  /** A record not yet in the cycle map: its fields, then `CloseRecord`. */
  lemma {:induction false} RecordUnfold(policy: CyclePolicy, g: Graph, n: NodeId, opts: Opts, ctx: Ctx, rank: seq<nat>)
    requires Closed(g) && n < |g| && g[n].RecordOf? && n !in ctx.cycles
    requires RecordBroken(g, rank) && CtxOk(ctx)
    ensures forall f <- g[n].fields :: f.node < |g|
    ensures var ctx1 := ctx.(cycles := ctx.cycles[n := Pending]);
      var fs := SynthFields(policy, g, g[n].fields, opts, ctx1, rank);
      SynthRecord(policy, g, n, opts, ctx, rank) ==
        if fs.Err? then Err(fs.error) else Ok(CloseRecord(policy, n, opts, ctx, fs.value))
  {
    FieldsInGraph(g, n);
  }

  /** The emitted fields of a record, unfolded once. */
  lemma {:induction false} FieldsCons(policy: CyclePolicy, g: Graph, fields: seq<Field>, opts: Opts, ctx: Ctx, rank: seq<nat>)
    requires Closed(g) && RecordBroken(g, rank) && CtxOk(ctx)
    requires fields != [] && forall f <- fields :: f.node < |g|
    ensures var e := Synth(policy, g, fields[0].node, opts, ctx, rank);
      && (e.Err? ==> SynthFields(policy, g, fields, opts, ctx, rank) == Err(e.error))
      && (e.Ok? ==>
        var rest := SynthFields(policy, g, fields[1..], opts, e.value.ctx, rank);
        SynthFields(policy, g, fields, opts, ctx, rank) ==
          if rest.Err? then Err(rest.error)
          else Ok(EmittedFields([FieldCode(fields[0].name, e.value.code)] + rest.value.fields, rest.value.ctx)))
  {
  }

  /**
   * A helper call that one field makes to another record's getter is still
   * free in the closed record: the getters of two records differ.
   */
  lemma {:induction false} CloseKeepsCall(n: NodeId, opts: Opts, ctx: Ctx, fs: EmittedFields, m: NodeId)
    requires CtxOk(ctx) && n !in ctx.cycles
    requires Evolved(KeepExpanded, ctx.(cycles := ctx.cycles[n := Pending]), fs.ctx)
    requires m != n && m in fs.ctx.cycles && fs.ctx.cycles[m].Found?
    requires fs.ctx.cycles[m].getter in FieldsFreeCalls(fs.fields)
    ensures fs.ctx.cycles[m].getter in FreeCalls(CloseRecord(KeepExpanded, n, opts, ctx, fs).code)
  {
    assert CtxOk(fs.ctx) && n in fs.ctx.cycles;
    if fs.ctx.cycles[n].Found? {
      assert fs.ctx.cycles[n].getter != fs.ctx.cycles[m].getter;
    }
  }

  // ---------------------------------------------------------------------
  // Without cycle detection a schema cycle is an error
  // ---------------------------------------------------------------------

  /**
   * A schema whose copy (with `detectCycles` off) would have to pass a
   * record that is still being expanded cannot be synthesised: the
   * record's resolver throws. Both policies keep the records of the cycle
   * map in it while its fields are emitted.
   */
  lemma {:induction false} ReachErr(policy: CyclePolicy, g: Graph, a: NodeId, opts: Opts, ctx: Ctx, rank: seq<nat>, p: seq<NodeId>)
    requires Closed(g) && RecordBroken(g, rank) && CtxOk(ctx) && !opts.detectCycles
    requires Path(g, p) && p[0] == a && p[|p| - 1] in ctx.cycles
    ensures Synth(policy, g, a, opts, ctx, rank).Err?
    decreases |p|, 1, 0
  {
    if a !in ctx.cycles {
      PathTail(g, p);
      if g[a].RecordOf? {
        RecordExpands(policy, g, a, opts, ctx, rank);
        RecordReachErr(policy, g, a, opts, ctx, rank, p);
      } else if g[a].MapOf? || g[a].SetOf? || g[a].ListOf? || g[a].ArrayOf? {
        NestedReachErr(policy, g, a, opts, ctx, rank, p);
      }
    }
  }

  /** The record case: the key on the path fails. */
  lemma {:induction false} RecordReachErr(policy: CyclePolicy, g: Graph, a: NodeId, opts: Opts, ctx: Ctx, rank: seq<nat>, p: seq<NodeId>)
    requires Closed(g) && RecordBroken(g, rank) && CtxOk(ctx) && !opts.detectCycles
    requires Path(g, p) && p[0] == a && p[|p| - 1] in ctx.cycles
    requires a !in ctx.cycles && g[a].RecordOf?
    ensures SynthRecord(policy, g, a, opts, ctx, rank).Err?
    decreases |p|, 0, 0
  {
    var i := PathKey(g, p);
    RecordUnfold(policy, g, a, opts, ctx, rank);
    var ctx1 := ctx.(cycles := ctx.cycles[a := Pending]);
    EvolvedFromPending(policy, a, ctx, ctx1);
    FieldsReachErr(policy, g, g[a].fields, opts, ctx1, rank, i, p[1..]);
  }

  /** A path that leaves a record does so through one of its keys. */
  lemma {:induction false} PathKey(g: Graph, p: seq<NodeId>) returns (i: nat)
    requires Path(g, p) && |p| > 1 && g[p[0]].RecordOf?
    ensures i < |g[p[0]].fields| && Path(g, p[1..]) && p[1..][0] == g[p[0]].fields[i].node
    ensures p[1..][|p[1..]| - 1] == p[|p| - 1]
  {
    PathTail(g, p);
    i := FieldOf(g[p[0]].fields, p[1]);
  }

  /** The container case: the element (or the only alternative) fails. */
  lemma {:induction false} NestedReachErr(policy: CyclePolicy, g: Graph, a: NodeId, opts: Opts, ctx: Ctx, rank: seq<nat>, p: seq<NodeId>)
    requires Closed(g) && RecordBroken(g, rank) && CtxOk(ctx) && !opts.detectCycles
    requires Path(g, p) && p[0] == a && p[|p| - 1] in ctx.cycles
    requires a !in ctx.cycles && (g[a].MapOf? || g[a].SetOf? || g[a].ListOf? || g[a].ArrayOf?)
    ensures Synth(policy, g, a, opts, ctx, rank).Err?
    decreases |p|, 0, 0
  {
    PathTail(g, p);
    NestedExpands(policy, g, a, opts, ctx, rank);
    if !(g[a].ArrayOf? && |g[a].alts| > 1) {
      ReachErr(policy, g, p[1], opts, ctx, rank, p[1..]);
    }
  }

  /** Some field of a record leads to a record still in the cycle map: the fields fail. */
  lemma {:induction false} FieldsReachErr(policy: CyclePolicy, g: Graph, fields: seq<Field>, opts: Opts, ctx: Ctx,
                                          rank: seq<nat>, i: nat, p: seq<NodeId>)
    requires Closed(g) && RecordBroken(g, rank) && CtxOk(ctx) && !opts.detectCycles
    requires forall f <- fields :: f.node < |g|
    requires i < |fields| && Path(g, p) && p[0] == fields[i].node && p[|p| - 1] in ctx.cycles
    ensures SynthFields(policy, g, fields, opts, ctx, rank).Err?
    decreases |p|, 2, |fields|
  {
    FieldsCons(policy, g, fields, opts, ctx, rank);
    if i == 0 {
      ReachErr(policy, g, fields[0].node, opts, ctx, rank, p);
    } else {
      var e := Synth(policy, g, fields[0].node, opts, ctx, rank);
      if e.Ok? {
        assert fields[1..][i - 1] == fields[i];
        FieldsReachErr(policy, g, fields[1..], opts, e.value.ctx, rank, i - 1, p);
      }
    }
  }

  /** The position of a field whose schema is `c`. */
  lemma {:induction false} FieldOf(fields: seq<Field>, c: NodeId) returns (i: nat)
    requires c in FieldNodes(fields)
    ensures i < |fields| && fields[i].node == c
  {
    i :| 0 <= i < |FieldNodes(fields)| && FieldNodes(fields)[i] == c;
  }

  /**
   * A record schema that refers back to itself through its children (the
   * schema of any cyclic value): without `detectCycles` both the source's
   * synthesis and the corrected one throw instead of emitting code.
   */
  lemma {:induction false} SelfReachErr(g: Graph, n: NodeId, opts: Opts, rank: seq<nat>, p: seq<NodeId>)
    requires Closed(g) && n < |g| && RecordBroken(g, rank) && !opts.detectCycles
    requires g[n].RecordOf? && Path(g, p) && |p| > 1 && p[0] == n && p[|p| - 1] == n
    ensures CloneCode(g, n, opts, rank).Err? && CloneCodeAsWritten(g, n, opts, rank).Err?
  {
    SelfReachPolicy(InProgressOnly, g, n, opts, rank, p);
    SelfReachPolicy(KeepExpanded, g, n, opts, rank, p);
  }

  lemma {:induction false} SelfReachPolicy(policy: CyclePolicy, g: Graph, n: NodeId, opts: Opts, rank: seq<nat>, p: seq<NodeId>)
    requires Closed(g) && n < |g| && RecordBroken(g, rank) && !opts.detectCycles
    requires g[n].RecordOf? && Path(g, p) && |p| > 1 && p[0] == n && p[|p| - 1] == n
    ensures Synth(policy, g, n, opts, FreshCtx, rank).Err?
  {
    RecordExpands(policy, g, n, opts, FreshCtx, rank);
    SelfReachRecord(policy, g, n, opts, rank, p);
  }

  lemma {:induction false} SelfReachRecord(policy: CyclePolicy, g: Graph, n: NodeId, opts: Opts, rank: seq<nat>, p: seq<NodeId>)
    requires Closed(g) && n < |g| && RecordBroken(g, rank) && !opts.detectCycles
    requires g[n].RecordOf? && Path(g, p) && |p| > 1 && p[0] == n && p[|p| - 1] == n
    ensures SynthRecord(policy, g, n, opts, FreshCtx, rank).Err?
  {
    var i := PathKey(g, p);
    RecordUnfold(policy, g, n, opts, FreshCtx, rank);
    var ctx1 := FreshCtx.(cycles := FreshCtx.cycles[n := Pending]);
    EvolvedFromPending(policy, n, FreshCtx, ctx1);
    FieldsReachErr(policy, g, g[n].fields, opts, ctx1, rank, i, p[1..]);
  }

  // ---------------------------------------------------------------------
  // Which schemas have code
  // ---------------------------------------------------------------------

  /** A schema no branch of the dispatch accepts: a value of no known kind, or an array with several alternatives. */
  predicate Unsupported(node: Node) {
    node.Other? || (node.ArrayOf? && |node.alts| > 1)
  }

  /** `k` can be reached from `a` along child edges (in no step when `k == a`). */
  ghost predicate Reaches(g: Graph, a: NodeId, k: NodeId) {
    exists p :: Path(g, p) && p[0] == a && p[|p| - 1] == k
  }

  /** Every schema reachable from `n` is one the dispatch accepts. */
  ghost predicate AllSupported(g: Graph, n: NodeId) {
    forall k :: 0 <= k < |g| && Reaches(g, n, k) ==> !Unsupported(g[k])
  }

  /** No schema reachable from `n` is a `ClonerCustomFn`. */
  ghost predicate NoCustomReached(g: Graph, n: NodeId) {
    forall k :: 0 <= k < |g| && Reaches(g, n, k) ==> !g[k].Custom?
  }

  /** A set of schemas that holds the children of each of its schemas. */
  ghost predicate ChildClosed(g: Graph, s: set<NodeId>) {
    forall k <- s :: k < |g| && forall c <- Children(g[k]) :: c in s
  }

  /** A path that visits no schema twice. */
  predicate Simple(p: seq<NodeId>) {
    forall i, j :: 0 <= i < j < |p| ==> p[i] != p[j]
  }

  /**
   * With `detectCycles` on, or on a schema without cycles, the corrected
   * `createClonerCode` emits code exactly when every schema reachable from
   * the root is supported; with `detectCycles` on, so does the source's.
   */
  lemma {:induction false} SynthOk(g: Graph, n: NodeId, opts: Opts, rank: seq<nat>)
    requires Closed(g) && n < |g| && RecordBroken(g, rank)
    requires opts.detectCycles || Acyclic(g, rank)
    ensures CloneCode(g, n, opts, rank).Ok? <==> AllSupported(g, n)
    ensures opts.detectCycles ==> (CloneCodeAsWritten(g, n, opts, rank).Ok? <== AllSupported(g, n))
  {
    if AllSupported(g, n) {
      var s := ReachableSet(g, n);
      SynthWithin(InProgressOnly, g, n, opts, FreshCtx, rank, s);
      SynthWithin(KeepExpanded, g, n, opts, FreshCtx, rank, s);
      if !opts.detectCycles {
        CloneCodeAcyclic(g, n, opts, rank);
      }
    } else {
      var k :| 0 <= k < |g| && Reaches(g, n, k) && Unsupported(g[k]);
      UnsupportedErr(g, n, opts, rank, k);
    }
  }

  /** A reachable schema that no branch accepts: the corrected synthesis throws, whatever the options. */
  lemma {:induction false} UnsupportedErr(g: Graph, n: NodeId, opts: Opts, rank: seq<nat>, k: NodeId)
    requires Closed(g) && n < |g| && RecordBroken(g, rank)
    requires k < |g| && Reaches(g, n, k) && Unsupported(g[k])
    ensures CloneCode(g, n, opts, rank).Err?
  {
    var p: seq<NodeId> :| Path(g, p) && p[0] == n && p[|p| - 1] == k;
    var q := ShortPath(g, p);
    PathReached(g, n, opts, FreshCtx, rank, q);
  }

  /** A reachable custom function gets an id whenever the corrected synthesis succeeds. */
  lemma {:induction false} CustomRegistered(g: Graph, n: NodeId, opts: Opts, rank: seq<nat>, k: NodeId)
    requires Closed(g) && n < |g| && RecordBroken(g, rank)
    requires k < |g| && Reaches(g, n, k) && g[k].Custom?
    ensures var r := CloneCode(g, n, opts, rank);
      r.Ok? ==> g[k].fn in r.value.ctx.customObjs
  {
    var p: seq<NodeId> :| Path(g, p) && p[0] == n && p[|p| - 1] == k;
    var q := ShortPath(g, p);
    PathReached(g, n, opts, FreshCtx, rank, q);
  }

  /** With no custom function reachable, synthesis from a fresh context registers none, under either policy. */
  lemma {:induction false} NoCustomRegistered(policy: CyclePolicy, g: Graph, n: NodeId, opts: Opts, rank: seq<nat>)
    requires Closed(g) && n < |g| && RecordBroken(g, rank)
    ensures var r := Synth(policy, g, n, opts, FreshCtx, rank);
      NoCustomReached(g, n) && r.Ok? ==> r.value.ctx.customObjs == map[]
  {
    if NoCustomReached(g, n) {
      var s := ReachableSet(g, n);
      SynthWithin(policy, g, n, opts, FreshCtx, rank, s);
    }
  }

  /** The schemas reachable from `n` form a child-closed set. */
  lemma {:induction false} ReachableSet(g: Graph, n: NodeId) returns (s: set<NodeId>)
    requires Closed(g) && n < |g|
    ensures n in s && ChildClosed(g, s)
    ensures forall k <- s :: k < |g| && Reaches(g, n, k)
  {
    s := set k | 0 <= k < |g| && Reaches(g, n, k);
    assert Path(g, [n]);
    forall k <- s, c <- Children(g[k]) ensures c in s {
      ReachStep(g, n, k, c);
    }
  }

  lemma {:induction false} ReachStep(g: Graph, n: NodeId, k: NodeId, c: NodeId)
    requires Closed(g) && k < |g| && Reaches(g, n, k) && c in Children(g[k])
    ensures c < |g| && Reaches(g, n, c)
  {
    var p: seq<NodeId> :| Path(g, p) && p[0] == n && p[|p| - 1] == k;
    assert Path(g, p + [c]);
  }

  /** Every walk can be shortened to one that visits no schema twice. */
  lemma {:induction false} ShortPath(g: Graph, p: seq<NodeId>) returns (q: seq<NodeId>)
    requires Path(g, p)
    ensures Path(g, q) && Simple(q) && q[0] == p[0] && q[|q| - 1] == p[|p| - 1]
    decreases |p|
  {
    if Simple(p) {
      q := p;
    } else {
      var i, j :| 0 <= i < j < |p| && p[i] == p[j];
      var p1 := p[..i] + p[j..];
      forall k | 0 <= k < |p1| - 1 ensures p1[k + 1] in Children(g[p1[k]]) {
        if k + 1 < i {
          assert p1[k] == p[k] && p1[k + 1] == p[k + 1];
        } else if k + 1 == i {
          assert p1[k] == p[i - 1] && p1[k + 1] == p[i];
        } else {
          assert p1[k] == p[k - i + j] && p1[k + 1] == p[k + 1 - i + j];
        }
      }
      assert p1[0] == p[0];
      q := ShortPath(g, p1);
    }
  }

  /**
   * Synthesis inside a child-closed set of schemas, under either policy:
   * when the set holds no unsupported schema, the only possible error is
   * the missing `detectCycles`; when it holds no custom function, no custom
   * id is registered.
   */
  lemma {:induction false} SynthWithin(policy: CyclePolicy, g: Graph, a: NodeId, opts: Opts, ctx: Ctx,
                                       rank: seq<nat>, s: set<NodeId>)
    requires Closed(g) && a < |g| && RecordBroken(g, rank) && CtxOk(ctx)
    requires a in s && ChildClosed(g, s)
    ensures var r := Synth(policy, g, a, opts, ctx, rank);
      && ((forall k <- s :: !Unsupported(g[k])) && r.Err? ==> r.error == DetectCyclesNotSet)
      && ((forall k <- s :: !g[k].Custom?) && r.Ok? ==> r.value.ctx.customObjs == ctx.customObjs)
    decreases Unexpanded(g, ctx), rank[a], 1
  {
    if a !in ctx.cycles {
      if g[a].RecordOf? {
        RecordExpands(policy, g, a, opts, ctx, rank);
        RecordWithin(policy, g, a, opts, ctx, rank, s);
      } else if g[a].MapOf? || g[a].SetOf? || g[a].ListOf? || (g[a].ArrayOf? && |g[a].alts| == 1) {
        NestedExpands(policy, g, a, opts, ctx, rank);
        var c := NestedUnfold(policy, g, a, opts, ctx, rank);
        assert rank[c] < rank[a];
        SynthWithin(policy, g, c, opts, ctx, rank, s);
      } else {
        SynthDispatch(policy, g, a, opts, ctx, rank);
      }
    }
  }

  lemma {:induction false} RecordWithin(policy: CyclePolicy, g: Graph, a: NodeId, opts: Opts, ctx: Ctx,
                                        rank: seq<nat>, s: set<NodeId>)
    requires Closed(g) && a < |g| && g[a].RecordOf? && a !in ctx.cycles
    requires RecordBroken(g, rank) && CtxOk(ctx)
    requires a in s && ChildClosed(g, s)
    ensures var r := SynthRecord(policy, g, a, opts, ctx, rank);
      && ((forall k <- s :: !Unsupported(g[k])) && r.Err? ==> r.error == DetectCyclesNotSet)
      && ((forall k <- s :: !g[k].Custom?) && r.Ok? ==> r.value.ctx.customObjs == ctx.customObjs)
    decreases Unexpanded(g, ctx), rank[a], 0
  {
    RecordUnfold(policy, g, a, opts, ctx, rank);
    var ctx1 := ctx.(cycles := ctx.cycles[a := Pending]);
    EvolvedFromPending(policy, a, ctx, ctx1);
    PendingShrinks(g, a, ctx);
    FieldsInSet(g, a, s);
    FieldsWithin(policy, g, g[a].fields, opts, ctx1, rank, s);
  }

  /** The keys of a record in a child-closed set lead into the set. */
  lemma {:induction false} FieldsInSet(g: Graph, a: NodeId, s: set<NodeId>)
    requires Closed(g) && a < |g| && g[a].RecordOf? && a in s && ChildClosed(g, s)
    ensures forall f <- g[a].fields :: f.node < |g| && f.node in s
  {
    forall f <- g[a].fields ensures f.node < |g| && f.node in s {
      var i :| 0 <= i < |g[a].fields| && g[a].fields[i] == f;
      assert FieldNodes(g[a].fields)[i] in Children(g[a]);
    }
  }

  lemma {:induction false} FieldsWithin(policy: CyclePolicy, g: Graph, fields: seq<Field>, opts: Opts, ctx: Ctx,
                                        rank: seq<nat>, s: set<NodeId>)
    requires Closed(g) && RecordBroken(g, rank) && CtxOk(ctx)
    requires forall f <- fields :: f.node < |g| && f.node in s
    requires ChildClosed(g, s)
    ensures var r := SynthFields(policy, g, fields, opts, ctx, rank);
      && ((forall k <- s :: !Unsupported(g[k])) && r.Err? ==> r.error == DetectCyclesNotSet)
      && ((forall k <- s :: !g[k].Custom?) && r.Ok? ==> r.value.ctx.customObjs == ctx.customObjs)
    decreases Unexpanded(g, ctx), |g|, |fields|
  {
    if fields != [] {
      FieldsCons(policy, g, fields, opts, ctx, rank);
      SynthWithin(policy, g, fields[0].node, opts, ctx, rank, s);
      var e := Synth(policy, g, fields[0].node, opts, ctx, rank);
      if e.Ok? {
        assert Unexpanded(g, e.value.ctx) <= Unexpanded(g, ctx);
        FieldsWithin(policy, g, fields[1..], opts, e.value.ctx, rank, s);
      }
    }
  }

  /**
   * Under the corrected policy, synthesis passes along every simple path
   * that avoids the cycle map: an unsupported schema at its end makes it
   * throw, and a custom function at its end is registered whenever it
   * succeeds.
   */
  lemma {:induction false} PathReached(g: Graph, a: NodeId, opts: Opts, ctx: Ctx, rank: seq<nat>, p: seq<NodeId>)
    requires Closed(g) && RecordBroken(g, rank) && CtxOk(ctx)
    requires Path(g, p) && Simple(p) && p[0] == a
    requires forall i :: 0 <= i < |p| ==> p[i] !in ctx.cycles
    ensures var r := Synth(InProgressOnly, g, a, opts, ctx, rank);
      && (Unsupported(g[p[|p| - 1]]) ==> r.Err?)
      && (g[p[|p| - 1]].Custom? && r.Ok? ==> g[p[|p| - 1]].fn in r.value.ctx.customObjs)
    decreases |p|, 1, 0
  {
    if |p| == 1 {
      SynthDispatch(InProgressOnly, g, a, opts, ctx, rank);
    } else {
      PathTail(g, p);
      if g[a].RecordOf? {
        RecordExpands(InProgressOnly, g, a, opts, ctx, rank);
        RecordReached(g, a, opts, ctx, rank, p);
      } else if g[a].MapOf? || g[a].SetOf? || g[a].ListOf? || (g[a].ArrayOf? && |g[a].alts| == 1) {
        NestedExpands(InProgressOnly, g, a, opts, ctx, rank);
        var c := NestedUnfold(InProgressOnly, g, a, opts, ctx, rank);
        assert c == p[1];
        PathReached(g, c, opts, ctx, rank, p[1..]);
      } else {
        SynthDispatch(InProgressOnly, g, a, opts, ctx, rank);
      }
    }
  }

  lemma {:induction false} RecordReached(g: Graph, a: NodeId, opts: Opts, ctx: Ctx, rank: seq<nat>, p: seq<NodeId>)
    requires Closed(g) && RecordBroken(g, rank) && CtxOk(ctx)
    requires Path(g, p) && Simple(p) && |p| > 1 && p[0] == a && g[a].RecordOf?
    requires forall i :: 0 <= i < |p| ==> p[i] !in ctx.cycles
    ensures var r := SynthRecord(InProgressOnly, g, a, opts, ctx, rank);
      && (Unsupported(g[p[|p| - 1]]) ==> r.Err?)
      && (g[p[|p| - 1]].Custom? && r.Ok? ==> g[p[|p| - 1]].fn in r.value.ctx.customObjs)
    decreases |p|, 0, 0
  {
    var i := PathKey(g, p);
    RecordUnfold(InProgressOnly, g, a, opts, ctx, rank);
    var ctx1 := ctx.(cycles := ctx.cycles[a := Pending]);
    EvolvedFromPending(InProgressOnly, a, ctx, ctx1);
    var q := p[1..];
    forall j | 0 <= j < |q| ensures q[j] !in ctx1.cycles {
      assert q[j] == p[j + 1] != p[0];
    }
    FieldsReached(g, g[a].fields, opts, ctx1, rank, i, q);
  }

  lemma {:induction false} FieldsReached(g: Graph, fields: seq<Field>, opts: Opts, ctx: Ctx, rank: seq<nat>,
                                         i: nat, p: seq<NodeId>)
    requires Closed(g) && RecordBroken(g, rank) && CtxOk(ctx)
    requires forall f <- fields :: f.node < |g|
    requires i < |fields| && Path(g, p) && Simple(p) && p[0] == fields[i].node
    requires forall j :: 0 <= j < |p| ==> p[j] !in ctx.cycles
    ensures var r := SynthFields(InProgressOnly, g, fields, opts, ctx, rank);
      && (Unsupported(g[p[|p| - 1]]) ==> r.Err?)
      && (g[p[|p| - 1]].Custom? && r.Ok? ==> g[p[|p| - 1]].fn in r.value.ctx.customObjs)
    decreases |p|, 2, |fields|
  {
    if i == 0 {
      FirstReached(g, fields, opts, ctx, rank, p);
    } else {
      FieldsCons(InProgressOnly, g, fields, opts, ctx, rank);
      var e := Synth(InProgressOnly, g, fields[0].node, opts, ctx, rank);
      if e.Ok? {
        assert fields[1..][i - 1] == fields[i];
        FieldsReached(g, fields[1..], opts, e.value.ctx, rank, i - 1, p);
      }
    }
  }

  /** The path leaves through the first key: what that key owes carries over the later keys. */
  lemma {:induction false} FirstReached(g: Graph, fields: seq<Field>, opts: Opts, ctx: Ctx, rank: seq<nat>, p: seq<NodeId>)
    requires Closed(g) && RecordBroken(g, rank) && CtxOk(ctx)
    requires forall f <- fields :: f.node < |g|
    requires fields != [] && Path(g, p) && Simple(p) && p[0] == fields[0].node
    requires forall j :: 0 <= j < |p| ==> p[j] !in ctx.cycles
    ensures var r := SynthFields(InProgressOnly, g, fields, opts, ctx, rank);
      && (Unsupported(g[p[|p| - 1]]) ==> r.Err?)
      && (g[p[|p| - 1]].Custom? && r.Ok? ==> g[p[|p| - 1]].fn in r.value.ctx.customObjs)
    decreases |p|, 2, 0
  {
    FieldsCons(InProgressOnly, g, fields, opts, ctx, rank);
    PathReached(g, fields[0].node, opts, ctx, rank, p);
  }
}
