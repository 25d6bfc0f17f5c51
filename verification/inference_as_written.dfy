/**
 * Schema inference exactly as `createCloneSchemaFrom` is written: a
 * non-array iterable is NOT entered into the visited map before its first
 * element is inferred (src/index.ts:258-263, unlike arrays and records at
 * 267 and 277). The recursion is bounded by `fuel` so the function is
 * total; running out of fuel stands for the unbounded recursion (a stack
 * overflow) of the source.
 */
module InferenceAsWritten {
  import opened Results
  import opened JsHeap
  import opened Schema
  import opened Inference
  import InferenceFacts

  datatype AsWrittenError = UnsupportedTypeAW | OutOfFuel

  function InferAW(h: Heap, x: Value, cloneProto: bool, st: State, fuel: nat)
    : (r: Result<Inferred, AsWrittenError>)
    requires Valid(h) && Below(x, |h|)
    ensures x == Exotic && fuel > 0 ==> r == Err(UnsupportedTypeAW)
    ensures fuel == 0 ==> r == Err(OutOfFuel)
    ensures r.Ok? ==> |st.graph| <= |r.value.st.graph|
    decreases fuel, 0
  {
    if fuel == 0 then Err(OutOfFuel)
    else if x.Ref? && x.obj in st.visited then
      Ok(Inferred(st.visited[x.obj], st))
    else if LeafOf(h, x).Some? then
      Ok(Alloc(st, LeafN(LeafOf(h, x).value)))
    else if x.Ref? && h[x.obj].ListObj? then
      var es := h[x.obj].elems;
      if |es| == 0 then Ok(Alloc(st, ArrayOf([])))
      else
        ElemBelow(h, x.obj, 0);
        var c :- InferAW(h, es[0], cloneProto, st, fuel - 1);
        Ok(Alloc(c.st, ListOf(c.node)))
    else if x.Ref? && h[x.obj].ArrayObj? then
      var es := h[x.obj].elems;
      var reg := Register(st, x.obj, ArrayOf([]));
      if |es| == 0 then Ok(reg)
      else
        ElemBelow(h, x.obj, 0);
        var c :- InferAW(h, es[0], cloneProto, reg.st, fuel - 1);
        Ok(Inferred(reg.node, Fill(c.st, reg.node, ArrayOf([c.node]))))
    else if x.Ref? && h[x.obj].RecordObj? then
      var reg := Register(st, x.obj, RecordOf([]));
      PropsBelow(h, x.obj);
      var fs :- InferFieldsAW(h, h[x.obj].props, cloneProto, reg.st, fuel - 1);
      Ok(Inferred(reg.node, Fill(fs.st, reg.node, RecordOf(fs.fields))))
    else
      Err(UnsupportedTypeAW)
  }

  function InferFieldsAW(h: Heap, ps: seq<Prop>, cloneProto: bool, st: State, fuel: nat)
    : (r: Result<InferredFields, AsWrittenError>)
    requires Valid(h) && forall p <- ps :: Below(p.value, |h|)
    ensures r.Ok? ==> |r.value.fields| == |Kept(ps, cloneProto)|
    ensures r.Ok? ==> |st.graph| <= |r.value.st.graph|
    decreases fuel, 1, |ps|
  {
    if ps == [] then Ok(InferredFields([], st))
    else if !cloneProto && !ps[0].own then InferFieldsAW(h, ps[1..], cloneProto, st, fuel)
    else
      var c :- InferAW(h, ps[0].value, cloneProto, st, fuel);
      var rest :- InferFieldsAW(h, ps[1..], cloneProto, c.st, fuel);
      Ok(InferredFields([Field(ps[0].name, c.node)] + rest.fields, rest.st))
  }

  /**
   * An array-like object (such as `arguments`) whose first element is the
   * object itself, and which no visited entry covers: however much
   * recursion depth is granted, inference as written never returns.
   */
  lemma {:induction false} SelfListDiverges(h: Heap, o: ObjId, cloneProto: bool, st: State, fuel: nat)
    requires Valid(h) && o < |h| && h[o].ListObj? && |h[o].elems| > 0 && h[o].elems[0] == Ref(o)
    requires o !in st.visited
    ensures InferAW(h, Ref(o), cloneProto, st, fuel) == Err(OutOfFuel)
  {
    if fuel > 0 {
      SelfListDiverges(h, o, cloneProto, st, fuel - 1);
    }
  }

  /** `(function () { arguments[0] = arguments; return arguments; })({})` */
  const SelfArguments: Heap := [ListObj([Ref(0)])]

  /**
   * The same input under the corrected inference, which registers the
   * array-like before its first element: it succeeds, and the schema is a
   * `ClonerArrayLike` whose item schema is itself.
   */
  lemma {:induction false} SelfArgumentsFixed(cloneProto: bool)
    ensures Valid(SelfArguments)
    ensures forall fuel: nat :: InferAW(SelfArguments, Ref(0), cloneProto, Fresh, fuel) == Err(OutOfFuel)
    ensures var r := InferSchema(SelfArguments, Ref(0), cloneProto);
      r.Ok? && r.value.st.graph[r.value.node] == ListOf(r.value.node)
  {
    var h := SelfArguments;
    assert Contents(h[0]) == [Ref(0)];
    assert Valid(h);
    assert InferenceFacts.NoExotic(h);
    forall fuel: nat ensures InferAW(h, Ref(0), cloneProto, Fresh, fuel) == Err(OutOfFuel) {
      SelfListDiverges(h, 0, cloneProto, Fresh, fuel);
    }
    InferenceFacts.InferSchemaOk(h, Ref(0), cloneProto);
    InferenceFacts.RootShape(h, 0, cloneProto);
  }
}
