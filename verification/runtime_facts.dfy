/**
 * What running a compiled cloner guarantees: the input is never changed,
 * an object or array comes back as a new object, closed code never throws
 * a `ReferenceError`, and a key that refers back to its own object is
 * copied as a reference to the copy.
 */
module RuntimeFacts {
  import opened Results
  import opened JsHeap
  import opened Fragments
  import opened Runtime

  /**
   * The function `createCloner` returns, applied to `x`: the emitted code
   * with no helper in scope and an empty `cycleObjs`.
   */
  function RunCloner(code: Frag, h: Heap, x: Value, fuel: nat): (r: Result<Run, RunError>)
    requires Valid(h) && Below(x, |h|)
    ensures r.Ok? ==> |h| <= |r.value.rs.heap| && forall i :: 0 <= i < |h| ==> r.value.rs.heap[i] == h[i]
    ensures r.Ok? ==> Valid(r.value.rs.heap) && Below(r.value.value, |r.value.rs.heap|)
    ensures r.Ok? && Allocating(code) ==> r.value.value.Ref? && |h| <= r.value.value.obj
    ensures FreeCalls(code) == {} ==> r != Err(ReferenceError)
  {
    Eval(map[], code, x, RunState(h, map[]), fuel)
  }

  /** A call of a helper that is not in scope throws, whatever it is applied to. */
  lemma {:induction false} CallOutOfScope(defs: Defs, k: nat, x: Value, rs: RunState, fuel: nat)
    requires RunOk(rs) && Below(x, |rs.heap|) && k !in defs
    ensures Eval(defs, CycleCall(k), x, rs, fuel) == Err(ReferenceError)
  {
  }

  /**
   * Scope is lexical: a helper whose body calls `j` throws when `j` was
   * not in scope where the helper was defined, even if the caller has a
   * helper `j` of its own.
   */
  lemma {:induction false} CallLexical(defs: Defs, k: nat, j: nat, name: string, x: Value, rs: RunState, fuel: nat)
    requires RunOk(rs) && Below(x, |rs.heap|) && x.Ref? && rs.heap[x.obj].RecordObj? && x !in rs.cycleObjs
    requires k in defs && defs[k].body == [FieldCode(name, CycleCall(j))] && j != k && j !in defs[k].env
    requires fuel > 0
    ensures Eval(defs, CycleCall(k), x, rs, fuel) == Err(ReferenceError)
  {
    var inner := Enter(k, defs[k]);
    assert j !in inner;
    var a := Alloc(rs, RecordObj([]));
    var rs1 := a.rs.(cycleObjs := rs.cycleObjs[x := |rs.heap|]);
    var v := Lookup(rs.heap[x.obj].props, name);
    assert Get(rs1.heap, x, name) == Ok(v);
    var body := defs[k].body;
    assert Eval(inner, body[0].code, v, rs1, fuel - 1) == Err(ReferenceError);
    assert EvalFields(inner, body, x, rs1, fuel - 1) == Err(ReferenceError);
    assert EvalHelper(inner, body, x, rs, fuel - 1) == Err(ReferenceError);
    assert EvalCall(defs, k, x, rs, fuel) == Err(ReferenceError);
  }

  // ---------------------------------------------------------------------
  // Self references are copied as references to the copy
  // ---------------------------------------------------------------------

  /**
   * While a helper copies `x`, a field of input `y` whose key holds `x` and
   * whose fragment calls a helper in scope gets the copy `cycleObjs`
   * already holds for `x` (`y` is `x` itself for a self-reference).
   */
  lemma {:induction false} FieldsRef(defs: Defs, fs: seq<FieldCode>, y: Value, x: Value, rs: RunState, fuel: nat, i: nat)
    requires RunOk(rs) && Below(y, |rs.heap|) && y.Ref? && rs.heap[y.obj].RecordObj? && x in rs.cycleObjs
    requires i < |fs| && fs[i].code.CycleCall? && fs[i].code.getter in defs && fuel > 0
    requires Lookup(rs.heap[y.obj].props, fs[i].name) == x
    ensures var r := EvalFields(defs, fs, y, rs, fuel);
      r.Ok? ==> r.value.props[i].value == Ref(rs.cycleObjs[x])
    decreases |fs|
  {
    var r := EvalFields(defs, fs, y, rs, fuel);
    if r.Ok? {
      var v, c, rest := FieldsUnfold(defs, fs, y, rs, fuel);
      if i == 0 {
        assert v == x;
        CallReuses(defs, fs[0].code.getter, x, rs, fuel);
      } else {
        assert c.rs.heap[y.obj] == rs.heap[y.obj];
        assert fs[1..][i - 1] == fs[i];
        FieldsRef(defs, fs[1..], y, x, c.rs, fuel, i - 1);
      }
    }
  }

  /** A successful object literal, one key at a time. */
  lemma {:induction false} FieldsUnfold(defs: Defs, fs: seq<FieldCode>, x: Value, rs: RunState, fuel: nat)
    returns (v: Value, c: Run, rest: RunProps)
    requires RunOk(rs) && Below(x, |rs.heap|) && fs != [] && EvalFields(defs, fs, x, rs, fuel).Ok?
    ensures Get(rs.heap, x, fs[0].name) == Ok(v) && Below(v, |rs.heap|)
    ensures Eval(defs, fs[0].code, v, rs, fuel) == Ok(c) && Grew(rs, c.rs)
    ensures RunOk(c.rs) && Below(x, |c.rs.heap|)
    ensures EvalFields(defs, fs[1..], x, c.rs, fuel) == Ok(rest)
    ensures EvalFields(defs, fs, x, rs, fuel).value.props == [Prop(fs[0].name, c.value, true)] + rest.props
  {
    v := Get(rs.heap, x, fs[0].name).value;
    c := Eval(defs, fs[0].code, v, rs, fuel).value;
    rest := EvalFields(defs, fs[1..], x, c.rs, fuel).value;
  }

  /** A helper in scope applied to an input it has entered returns that input's copy. */
  lemma {:induction false} CallReuses(defs: Defs, k: nat, x: Value, rs: RunState, fuel: nat)
    requires RunOk(rs) && Below(x, |rs.heap|) && k in defs && x in rs.cycleObjs && fuel > 0
    ensures Eval(defs, CycleCall(k), x, rs, fuel) == Ok(Run(Ref(rs.cycleObjs[x]), rs))
  {
  }

  /**
   * A cycle helper applied to an object not copied yet, whose key
   * `fs[i].name` refers to the object itself and is copied by a call of
   * the same helper: the copy is a new object whose key `i` refers to the
   * copy (`c.circular === c`), not to the original.
   */
  lemma {:induction false} HelperSelfRef(defs: Defs, k: nat, fs: seq<FieldCode>, x: Value, rs: RunState, fuel: nat, i: nat)
    requires RunOk(rs) && Below(x, |rs.heap|) && x.Ref? && rs.heap[x.obj].RecordObj? && x !in rs.cycleObjs
    requires i < |fs| && fs[i].code == CycleCall(k) && fuel > 0
    requires Lookup(rs.heap[x.obj].props, fs[i].name) == x
    ensures var r := Eval(defs, CycleWrap(k, fs), x, rs, fuel);
      r.Ok? ==>
        var c := r.value.value;
        && c == Ref(|rs.heap|) && |rs.heap| < |r.value.rs.heap|
        && r.value.rs.heap[c.obj].RecordObj?
        && i < |r.value.rs.heap[c.obj].props|
        && r.value.rs.heap[c.obj].props[i].value == c
        && FieldsCopied(rs, x, fs, r.value.rs.heap[c.obj].props)
  {
    var defs2 := Enter(k, Helper(fs, defs));
    var r := Eval(defs, CycleWrap(k, fs), x, rs, fuel);
    WrapUnfold(defs, k, fs, x, rs, fuel);
    if r.Ok? {
      var rs1, out := HelperUnfold(defs2, fs, x, rs, fuel);
      assert rs1.heap[x.obj] == rs.heap[x.obj];
      FieldsRef(defs2, fs, x, x, rs1, fuel, i);
    }
  }

  /**
   * Run `r` copied record `p`, whose keys `fs` describe, into a new object:
   * its key `j` holds `target`, and its keys copied by the input expression
   * hold `p`'s own values.
   */
  ghost predicate NewCopyWith(rs: RunState, r: Result<Run, RunError>, p: Value, fs: seq<FieldCode>, j: nat, target: Value) {
    r.Ok? ==>
      var d := r.value.value;
      var h := r.value.rs.heap;
      && d.Ref? && |rs.heap| <= d.obj < |h|
      && h[d.obj].RecordObj?
      && |h[d.obj].props| == |fs| && j < |fs|
      && h[d.obj].props[j].value == target
      && FieldsCopied(rs, p, fs, h[d.obj].props)
  }

  /**
   * A nested record `p` copied while a helper copies `x`, whose key `j`
   * holds `x` and is copied by a call of a helper in scope: the copy is a
   * new object whose key `j` holds the copy recorded for `x`.
   */
  lemma {:induction false} NestedRef(defs: Defs, c: Frag, p: Value, x: Value, rs: RunState, fuel: nat, j: nat)
    requires RunOk(rs) && Below(p, |rs.heap|) && p.Ref? && rs.heap[p.obj].RecordObj? && p !in rs.cycleObjs
    requires c.Guarded? && (c.inner.Record? || c.inner.CycleWrap?)
    requires j < |RecordBody(c.inner)| && RecordBody(c.inner)[j].code.CycleCall?
    requires RecordBody(c.inner)[j].code.getter in defs && x in rs.cycleObjs && fuel > 0
    requires Lookup(rs.heap[p.obj].props, RecordBody(c.inner)[j].name) == x
    ensures NewCopyWith(rs, Eval(defs, c, p, rs, fuel), p, RecordBody(c.inner), j, Ref(rs.cycleObjs[x]))
  {
    GuardFirst(defs, c.inner, p, rs, fuel);
    if c.inner.Record? {
      LiteralRef(defs, c.inner.fields, p, x, rs, fuel, j);
    } else {
      WrapRef(defs, c.inner.getter, c.inner.body, p, x, rs, fuel, j);
    }
  }

  lemma {:induction false} LiteralRef(defs: Defs, fs: seq<FieldCode>, p: Value, x: Value, rs: RunState, fuel: nat, j: nat)
    requires RunOk(rs) && Below(p, |rs.heap|) && p.Ref? && rs.heap[p.obj].RecordObj?
    requires j < |fs| && fs[j].code.CycleCall? && fs[j].code.getter in defs && x in rs.cycleObjs && fuel > 0
    requires Lookup(rs.heap[p.obj].props, fs[j].name) == x
    ensures NewCopyWith(rs, Eval(defs, Record(fs), p, rs, fuel), p, fs, j, Ref(rs.cycleObjs[x]))
  {
    var r := EvalRecord(defs, fs, p, rs, fuel);
    LiteralEval(defs, fs, p, rs, fuel);
    if r.Ok? {
      var out := LiteralUnfold(defs, fs, p, rs, fuel);
      FieldsRef(defs, fs, p, x, rs, fuel, j);
      var d := r.value.value;
      var h := r.value.rs.heap;
      assert d == Ref(|out.rs.heap|) && h[d.obj] == RecordObj(out.props);
      assert out.props[j].value == Ref(rs.cycleObjs[x]);
      assert FieldsCopied(rs, p, fs, h[d.obj].props);
    }
  }

  lemma {:induction false} LiteralEval(defs: Defs, fs: seq<FieldCode>, x: Value, rs: RunState, fuel: nat)
    requires RunOk(rs) && Below(x, |rs.heap|)
    ensures Eval(defs, Record(fs), x, rs, fuel) == EvalRecord(defs, fs, x, rs, fuel)
  {
  }

  /** An object literal: copy the keys, then allocate the object holding them. */
  lemma {:induction false} LiteralUnfold(defs: Defs, fs: seq<FieldCode>, x: Value, rs: RunState, fuel: nat)
    returns (out: RunProps)
    requires RunOk(rs) && Below(x, |rs.heap|) && EvalRecord(defs, fs, x, rs, fuel).Ok?
    ensures EvalFields(defs, fs, x, rs, fuel) == Ok(out)
    ensures var r := EvalRecord(defs, fs, x, rs, fuel).value;
      r.value == Ref(|out.rs.heap|) && r.rs.heap[|out.rs.heap|] == RecordObj(out.props)
  {
    out := EvalFields(defs, fs, x, rs, fuel).value;
  }

  lemma {:induction false} WrapRef(defs: Defs, k: nat, fs: seq<FieldCode>, p: Value, x: Value, rs: RunState, fuel: nat, j: nat)
    requires RunOk(rs) && Below(p, |rs.heap|) && p.Ref? && rs.heap[p.obj].RecordObj? && p !in rs.cycleObjs
    requires j < |fs| && fs[j].code.CycleCall? && fs[j].code.getter in defs && x in rs.cycleObjs && fuel > 0
    requires Lookup(rs.heap[p.obj].props, fs[j].name) == x
    ensures NewCopyWith(rs, Eval(defs, CycleWrap(k, fs), p, rs, fuel), p, fs, j, Ref(rs.cycleObjs[x]))
  {
    var r := Eval(defs, CycleWrap(k, fs), p, rs, fuel);
    WrapUnfold(defs, k, fs, p, rs, fuel);
    if r.Ok? {
      var defs2 := Enter(k, Helper(fs, defs));
      var rs1, out := HelperUnfold(defs2, fs, p, rs, fuel);
      FieldsRef(defs2, fs, p, x, rs1, fuel, j);
      FieldsCopiedGrew(rs, rs1, p, fs, out.props);
    }
  }

  /**
   * `o.nest.circular = o`: a helper copying `x`, whose first key holds a
   * record `p` copied by a nested record copy whose key `j` holds `x` again
   * and calls the outer helper. The copy `c` is a new object; its first key
   * holds another new object, not `p`, whose key `j` refers to `c`, and
   * whose keys copied by the input expression hold `p`'s values.
   */
  lemma {:induction false} HelperNestedRef(defs: Defs, k: nat, fs: seq<FieldCode>, x: Value, rs: RunState, fuel: nat, j: nat)
    requires RunOk(rs) && Below(x, |rs.heap|) && x.Ref? && rs.heap[x.obj].RecordObj? && x !in rs.cycleObjs
    requires fs != [] && fs[0].code.Guarded? && (fs[0].code.inner.Record? || fs[0].code.inner.CycleWrap?)
    requires j < |RecordBody(fs[0].code.inner)| && RecordBody(fs[0].code.inner)[j].code == CycleCall(k) && fuel > 0
    requires var p := Lookup(rs.heap[x.obj].props, fs[0].name);
      && p.Ref? && p != x && p !in rs.cycleObjs && p.obj < |rs.heap| && rs.heap[p.obj].RecordObj?
      && Lookup(rs.heap[p.obj].props, RecordBody(fs[0].code.inner)[j].name) == x
    ensures var r := Eval(defs, CycleWrap(k, fs), x, rs, fuel);
      r.Ok? ==>
        var c := r.value.value;
        var h := r.value.rs.heap;
        && c == Ref(|rs.heap|) && c.obj < |h| && h[c.obj].RecordObj? && 0 < |h[c.obj].props|
        && h[c.obj].props[0].value != c
        && NewCopyWith(rs, Ok(Run(h[c.obj].props[0].value, r.value.rs)),
                       Lookup(rs.heap[x.obj].props, fs[0].name), RecordBody(fs[0].code.inner), j, c)
  {
    var defs2 := Enter(k, Helper(fs, defs));
    var r := Eval(defs, CycleWrap(k, fs), x, rs, fuel);
    WrapUnfold(defs, k, fs, x, rs, fuel);
    if r.Ok? {
      var rs1, out := HelperUnfold(defs2, fs, x, rs, fuel);
      var p := Lookup(rs.heap[x.obj].props, fs[0].name);
      FieldsNestedRef(defs2, fs, x, rs1, fuel, j);
      NestedStep(rs, rs1, r.value.rs, RecordObj(out.props), Run(out.props[0].value, out.rs), p, RecordBody(fs[0].code.inner), j);
    }
  }

  /** The keys of a helper's input `x`, the first of which holds the nested record `p`. */
  lemma {:induction false} FieldsNestedRef(defs: Defs, fs: seq<FieldCode>, x: Value, rs: RunState, fuel: nat, j: nat)
    requires RunOk(rs) && Below(x, |rs.heap|) && x.Ref? && rs.heap[x.obj].RecordObj? && x in rs.cycleObjs
    requires fs != [] && fs[0].code.Guarded? && (fs[0].code.inner.Record? || fs[0].code.inner.CycleWrap?)
    requires j < |RecordBody(fs[0].code.inner)| && RecordBody(fs[0].code.inner)[j].code.CycleCall?
    requires RecordBody(fs[0].code.inner)[j].code.getter in defs && fuel > 0
    requires var p := Lookup(rs.heap[x.obj].props, fs[0].name);
      && p.Ref? && p !in rs.cycleObjs && p.obj < |rs.heap| && rs.heap[p.obj].RecordObj?
      && Lookup(rs.heap[p.obj].props, RecordBody(fs[0].code.inner)[j].name) == x
    ensures var r := EvalFields(defs, fs, x, rs, fuel);
      r.Ok? ==>
        && 0 < |r.value.props|
        && NewCopyWith(rs, Ok(Run(r.value.props[0].value, r.value.rs)),
                       Lookup(rs.heap[x.obj].props, fs[0].name), RecordBody(fs[0].code.inner), j, Ref(rs.cycleObjs[x]))
  {
    var r := EvalFields(defs, fs, x, rs, fuel);
    if r.Ok? {
      var v, c, rest := FieldsUnfold(defs, fs, x, rs, fuel);
      var p := Lookup(rs.heap[x.obj].props, fs[0].name);
      NestedRef(defs, fs[0].code, p, x, rs, fuel, j);
      NewCopyGrew(rs, c, rest.rs, p, RecordBody(fs[0].code.inner), j, Ref(rs.cycleObjs[x]));
    }
  }

  lemma {:induction false} NewCopyGrew(rs: RunState, c: Run, rs2: RunState, p: Value, fs: seq<FieldCode>, j: nat, target: Value)
    requires NewCopyWith(rs, Ok(c), p, fs, j, target) && Grew(c.rs, rs2)
    ensures NewCopyWith(rs, Ok(Run(c.value, rs2)), p, fs, j, target)
  {
  }

  /** The nested copy survives the filling of the outer copy, and is new for the state before it too. */
  lemma {:induction false} NestedStep(rs: RunState, rs1: RunState, rs2: RunState, o: Obj, c: Run, p: Value, fs: seq<FieldCode>, j: nat)
    requires Grew(rs, rs1) && Below(p, |rs.heap|) && |rs1.heap| == |rs.heap| + 1
    requires NewCopyWith(rs1, Ok(c), p, fs, j, Ref(|rs.heap|))
    requires |rs.heap| < |c.rs.heap| && rs2 == c.rs.(heap := c.rs.heap[|rs.heap| := o])
    ensures NewCopyWith(rs, Ok(Run(c.value, rs2)), p, fs, j, Ref(|rs.heap|))
    ensures c.value != Ref(|rs.heap|)
  {
    FieldsCopiedGrew(rs, rs1, p, fs, c.rs.heap[c.value.obj].props);
  }

  /** A guarded copy of an input not entered yet is the copy itself. */
  lemma {:induction false} GuardFirst(defs: Defs, c: Frag, x: Value, rs: RunState, fuel: nat)
    requires RunOk(rs) && Below(x, |rs.heap|) && x !in rs.cycleObjs
    ensures Eval(defs, Guarded(c), x, rs, fuel) == Eval(defs, c, x, rs, fuel)
  {
  }

  lemma {:induction false} WrapUnfold(defs: Defs, k: nat, fs: seq<FieldCode>, x: Value, rs: RunState, fuel: nat)
    requires RunOk(rs) && Below(x, |rs.heap|)
    ensures Eval(defs, CycleWrap(k, fs), x, rs, fuel) == EvalHelper(Enter(k, Helper(fs, defs)), fs, x, rs, fuel)
  {
  }

  /** A helper's first call on an input: enter an empty object, copy the fields, fill it. */
  lemma {:induction false} HelperUnfold(defs: Defs, fs: seq<FieldCode>, x: Value, rs: RunState, fuel: nat)
    returns (rs1: RunState, out: RunProps)
    requires RunOk(rs) && Below(x, |rs.heap|) && x !in rs.cycleObjs
    requires EvalHelper(defs, fs, x, rs, fuel).Ok?
    ensures RunOk(rs1) && Below(x, |rs1.heap|) && |rs1.heap| == |rs.heap| + 1
    ensures x.Ref? ==> rs1.heap[x.obj] == rs.heap[x.obj]
    ensures x in rs1.cycleObjs && rs1.cycleObjs[x] == |rs.heap|
    ensures rs1.cycleObjs == rs.cycleObjs[x := |rs.heap|] && Grew(rs, rs1)
    ensures EvalFields(defs, fs, x, rs1, fuel) == Ok(out)
    ensures var r := EvalHelper(defs, fs, x, rs, fuel).value;
      && r.value == Ref(|rs.heap|) && r.rs.heap[|rs.heap|] == RecordObj(out.props)
      && r.rs == out.rs.(heap := out.rs.heap[|rs.heap| := RecordObj(out.props)])
  {
    var a := Alloc(rs, RecordObj([]));
    rs1 := a.rs.(cycleObjs := rs.cycleObjs[x := |rs.heap|]);
    out := EvalFields(defs, fs, x, rs1, fuel).value;
  }
}
