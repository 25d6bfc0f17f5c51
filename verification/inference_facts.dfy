/**
 * Properties of schema inference that relate several calls or describe the
 * schema it builds for whole classes of inputs: it fails exactly on
 * unsupported values, a registered object infers to the same node again,
 * sequences are described by their first element, and records by their
 * kept keys.
 */
module InferenceFacts {
  import opened Results
  import opened JsHeap
  import opened Schema
  import opened Inference

  /** No object of the heap holds a value of an unsupported kind. */
  ghost predicate NoExotic(h: Heap) {
    forall o :: 0 <= o < |h| ==> Exotic !in Contents(h[o])
  }

  /**
   * The only failure of inference is `UnsupportedType`, and it needs an
   * unsupported value: on a heap without one, inference succeeds.
   */
  lemma {:induction false} InferOk(h: Heap, x: Value, cloneProto: bool, st: State, busy: set<ObjId>)
    requires Valid(h) && Below(x, |h|) && StateOk(h, st) && NoExotic(h) && x != Exotic
    ensures Infer(h, x, cloneProto, st, busy).Ok?
    decreases Unvisited(h, st), 2, 0
  {
    if x.Ref? && x.obj in st.visited {
    } else if LeafOf(h, x).Some? {
    } else if x.Ref? && h[x.obj].ListObj? {
      InferListOk(h, x.obj, cloneProto, st, busy);
    } else if x.Ref? && h[x.obj].ArrayObj? {
      InferArrayOk(h, x.obj, cloneProto, st, busy);
    } else {
      InferRecordOk(h, x.obj, cloneProto, st, busy);
    }
  }

  lemma {:induction false} InferListOk(h: Heap, o: ObjId, cloneProto: bool, st: State, busy: set<ObjId>)
    requires Valid(h) && o < |h| && h[o].ListObj? && o !in st.visited && StateOk(h, st) && NoExotic(h)
    ensures InferList(h, o, cloneProto, st, busy).Ok?
    decreases Unvisited(h, st), 1, 0
  {
    if |h[o].elems| > 0 {
      var reg := Register(st, o, ListOf(|st.graph|));
      RegisterOk(h, st, o, ListOf(|st.graph|), busy, cloneProto);
      ElemBelow(h, o, 0);
      UnvisitedShrinks(h, st, reg.st, o);
      assert h[o].elems[0] in Contents(h[o]);
      InferOk(h, h[o].elems[0], cloneProto, reg.st, busy + {o});
    }
  }

  lemma {:induction false} InferArrayOk(h: Heap, o: ObjId, cloneProto: bool, st: State, busy: set<ObjId>)
    requires Valid(h) && o < |h| && h[o].ArrayObj? && o !in st.visited && StateOk(h, st) && NoExotic(h)
    ensures InferArray(h, o, cloneProto, st, busy).Ok?
    decreases Unvisited(h, st), 1, 0
  {
    var reg := Register(st, o, ArrayOf([]));
    RegisterOk(h, st, o, ArrayOf([]), busy, cloneProto);
    if |h[o].elems| > 0 {
      ElemBelow(h, o, 0);
      UnvisitedShrinks(h, st, reg.st, o);
      assert h[o].elems[0] in Contents(h[o]);
      InferOk(h, h[o].elems[0], cloneProto, reg.st, busy + {o});
    }
  }

  lemma {:induction false} InferRecordOk(h: Heap, o: ObjId, cloneProto: bool, st: State, busy: set<ObjId>)
    requires Valid(h) && o < |h| && h[o].RecordObj? && o !in st.visited && StateOk(h, st) && NoExotic(h)
    ensures InferRecord(h, o, cloneProto, st, busy).Ok?
    decreases Unvisited(h, st), 1, 0
  {
    var reg := Register(st, o, RecordOf([]));
    RegisterOk(h, st, o, RecordOf([]), busy, cloneProto);
    PropsBelow(h, o);
    UnvisitedShrinks(h, st, reg.st, o);
    PropsSupported(h, o);
    InferFieldsOk(h, h[o].props, cloneProto, reg.st, busy + {o});
  }

  lemma {:induction false} InferFieldsOk(h: Heap, ps: seq<Prop>, cloneProto: bool, st: State, busy: set<ObjId>)
    requires Valid(h) && StateOk(h, st) && NoExotic(h)
    requires forall p <- ps :: Below(p.value, |h|) && p.value != Exotic
    ensures InferFields(h, ps, cloneProto, st, busy).Ok?
    decreases Unvisited(h, st), 3, |ps|
  {
    if ps == [] {
    } else if !cloneProto && !ps[0].own {
      InferFieldsOk(h, ps[1..], cloneProto, st, busy);
    } else {
      InferOk(h, ps[0].value, cloneProto, st, busy);
      var c := Infer(h, ps[0].value, cloneProto, st, busy).value;
      assert Unvisited(h, c.st) <= Unvisited(h, st);
      InferFieldsOk(h, ps[1..], cloneProto, c.st, busy);
    }
  }

  lemma {:induction false} PropsSupported(h: Heap, o: ObjId)
    requires o < |h| && h[o].RecordObj? && NoExotic(h)
    ensures forall p <- h[o].props :: p.value != Exotic
  {
    forall p <- h[o].props ensures p.value != Exotic {
      var i :| 0 <= i < |h[o].props| && h[o].props[i] == p;
      assert PropValues(h[o].props)[i] == p.value;
    }
  }

  /** `createCloneSchemaFrom` throws "unsupported type" exactly when the walk meets an unsupported value. */
  lemma {:induction false} InferSchemaOk(h: Heap, x: Value, cloneProto: bool)
    requires Valid(h) && Below(x, |h|) && NoExotic(h)
    ensures InferSchema(h, x, cloneProto).Ok? <==> x != Exotic
  {
    if x != Exotic {
      InferOk(h, x, cloneProto, Fresh, {});
    }
  }

  /**
   * An array, record or non-empty array-like inferred once is found in the
   * visited map the second time: the same node, and nothing else changes.
   */
  lemma {:induction false} InferAgain(h: Heap, x: Value, cloneProto: bool, st: State, busy: set<ObjId>)
    requires Valid(h) && Below(x, |h|) && StateOk(h, st)
    requires x.Ref? && Registrable(h[x.obj])
    ensures var r := Infer(h, x, cloneProto, st, busy);
      r.Ok? ==> Infer(h, x, cloneProto, r.value.st, busy) == r
  {
  }

  /**
   * The schema of a sequence or record root: an empty array or empty
   * array-like gives `[]`, a non-empty array `[s]` and a non-empty
   * array-like `ClonerArrayLike(s)` with `s` describing the first element
   * (later elements play no part), and a record its kept keys in order.
   */
  lemma {:induction false} RootShape(h: Heap, o: ObjId, cloneProto: bool)
    requires Valid(h) && o < |h|
    ensures var r := InferSchema(h, Ref(o), cloneProto);
      r.Ok? ==>
        var st := r.value.st;
        var node := st.graph[r.value.node];
        var es := if h[o].ArrayObj? || h[o].ListObj? then h[o].elems else [];
        && (h[o].ArrayObj? ==>
              && node.ArrayOf?
              && (|es| == 0 ==> node.alts == [])
              && (|es| > 0 ==> |node.alts| == 1 && ValueMatch(h, st, es[0], node.alts[0])))
        && (h[o].ListObj? && |es| == 0 ==> node == ArrayOf([]))
        && (h[o].ListObj? && |es| > 0 ==> node.ListOf? && ValueMatch(h, st, es[0], node.itemSchema))
        && (h[o].RecordObj? ==>
              node.RecordOf? && FieldsMatch(h, st, Kept(h[o].props, cloneProto), node.fields))
  {
    var r := InferSchema(h, Ref(o), cloneProto);
    if r.Ok? && Registrable(h[o]) {
      assert o in r.value.st.visited;
      assert LocalMatch(h, r.value.st, o, cloneProto);
    }
  }

  /** Without `cloneProto` only own keys are kept, so inherited keys alone keep nothing. */
  lemma {:induction false} KeptNoOwn(ps: seq<Prop>)
    requires forall p <- ps :: !p.own
    ensures Kept(ps, false) == []
  {
    if ps != [] {
      KeptNoOwn(ps[1..]);
    }
  }

  /** An object whose keys are all inherited infers to an empty record schema (unless `cloneProto`). */
  lemma {:induction false} InheritedOnlyEmpty(h: Heap, o: ObjId)
    requires Valid(h) && o < |h| && h[o].RecordObj? && forall p <- h[o].props :: !p.own
    ensures var r := InferSchema(h, Ref(o), false);
      r.Ok? ==> r.value.st.graph[r.value.node] == RecordOf([])
  {
    RootShape(h, o, false);
    KeptNoOwn(h[o].props);
  }

  /** `Object.create({a: 1})`: one enumerable key, inherited. */
  const ProtoOnly: Heap := [RecordObj([Prop("a", Num(1), false)])]

  lemma {:induction false} ProtoOnlySchema()
    ensures Valid(ProtoOnly)
    ensures var r := InferSchema(ProtoOnly, Ref(0), false);
      r.Ok? && r.value.st.graph[r.value.node] == RecordOf([])
  {
    assert Contents(ProtoOnly[0]) == [Num(1)];
    InferSchemaOk(ProtoOnly, Ref(0), false);
    InheritedOnlyEmpty(ProtoOnly, 0);
  }
}
