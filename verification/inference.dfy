/**
 * Schema inference (`createCloneSchemaFrom`): one walk over a sample value
 * that maps it to a schema graph. Arrays, records and non-empty
 * array-likes are registered in the visited map before their children are
 * inferred, so an object reached again, through a cycle or a second path,
 * resolves to the node already allocated for it and the walk terminates.
 */
module Inference {
  import opened Results
  import opened JsHeap
  import opened Schema

  datatype InferError = UnsupportedType

  /** The inference context: the schema built so far and the visited map. */
  datatype State = State(graph: Graph, visited: map<ObjId, NodeId>)

  datatype Inferred = Inferred(node: NodeId, st: State)

  datatype InferredFields = InferredFields(fields: seq<Field>, st: State)

  const Fresh: State := State([], map[])

  /**
   * Buffer is a subclass of Uint8Array and the `instanceof Uint8Array`
   * test comes first, so a Buffer is described by Uint8Array.
   */
  function InstanceKind(k: BinaryKind): BinaryKind {
    if k == Buffer then Uint8Array else k
  }

  /**
   * The leaf branches of inference, in source order: `undefined`/`null`,
   * the `typeof` tests, Date, the binary kinds, Map and Set.
   */
  function LeafOf(h: Heap, x: Value): (r: Option<Leaf>)
    requires Below(x, |h|)
    ensures r.None? <==>
      x == Exotic || (x.Ref? && (h[x.obj].ArrayObj? || h[x.obj].ListObj? || h[x.obj].RecordObj?))
    ensures r != Some(BinaryL(Buffer))
  {
    match x
    case Undefined => Some(UndefinedL)
    case Null => Some(NullL)
    case Num(_) => Some(NumberL)
    case Str(_) => Some(StringL)
    case Bool(_) => Some(BooleanL)
    case Func(_) => Some(FunctionL)
    case Sym(_) => Some(SymbolL)
    case Big(_) => Some(BigIntL)
    case Exotic => None
    case Ref(o) =>
      match h[o]
      case DateObj(_) => Some(DateL)
      case BinaryObj(k, _) => Some(BinaryL(InstanceKind(k)))
      case MapObj(_) => Some(MapL)
      case SetObj(_) => Some(SetL)
      case _ => None
  }

  /** Objects that get an entry in the visited map before their children are inferred. */
  predicate Registrable(o: Obj) {
    o.ArrayObj? || o.RecordObj? || (o.ListObj? && |o.elems| > 0)
  }

  /** The keys a record schema keeps: all of them, or only own ones unless `cloneProto`. */
  function Kept(ps: seq<Prop>, cloneProto: bool): (ks: seq<Prop>)
    ensures forall p :: p in ks <==> p in ps && (cloneProto || p.own)
    ensures cloneProto ==> ks == ps
  {
    if ps == [] then []
    else if !cloneProto && !ps[0].own then Kept(ps[1..], cloneProto)
    else [ps[0]] + Kept(ps[1..], cloneProto)
  }

  predicate StateOk(h: Heap, st: State) {
    && Closed(st.graph)
    && (forall o :: o in st.visited ==>
          o < |h| && Registrable(h[o]) && st.visited[o] < |st.graph|)
    && (forall o1, o2 :: o1 in st.visited && o2 in st.visited && o1 != o2 ==>
          st.visited[o1] != st.visited[o2])
  }

  /**
   * `st2` grew from `st`: no node was changed, no visited entry was changed,
   * and every new visited entry points at a new node.
   */
  ghost predicate Extends(st: State, st2: State) {
    && st.graph <= st2.graph
    && (forall o :: o in st.visited ==> o in st2.visited && st2.visited[o] == st.visited[o])
    && (forall o :: o in st2.visited && o !in st.visited ==> st2.visited[o] >= |st.graph|)
  }

  /** The objects not yet registered: the measure inference decreases. */
  function Unvisited(h: Heap, st: State): set<ObjId> {
    set o | 0 <= o < |h| && o !in st.visited
  }

  /** Node `n` describes value `x`. */
  ghost predicate ValueMatch(h: Heap, st: State, x: Value, n: NodeId) {
    && Below(x, |h|)
    && n < |st.graph|
    && if x.Ref? && Registrable(h[x.obj]) then
         x.obj in st.visited && st.visited[x.obj] == n
       else if LeafOf(h, x).Some? then
         st.graph[n] == LeafN(LeafOf(h, x).value)
       else if x.Ref? && h[x.obj].ListObj? then
         st.graph[n] == ArrayOf([]) && n !in st.visited.Values
       else
         false
  }

  ghost predicate FieldsMatch(h: Heap, st: State, ps: seq<Prop>, fs: seq<Field>) {
    && |ps| == |fs|
    && forall i :: 0 <= i < |ps| ==>
         fs[i].name == ps[i].name && ValueMatch(h, st, ps[i].value, fs[i].node)
  }

  /**
   * The node registered for object `o` has the shape of `o`: an array or
   * array-like is described by its first element only, a record by its kept
   * keys in enumeration order.
   */
  ghost predicate LocalMatch(h: Heap, st: State, o: ObjId, cloneProto: bool)
    requires Valid(h) && StateOk(h, st) && o in st.visited
  {
    var n := st.visited[o];
    match h[o]
    case ArrayObj(es) =>
      && st.graph[n].ArrayOf?
      && (|es| == 0 ==> st.graph[n].alts == [])
      && (|es| > 0 ==> |st.graph[n].alts| == 1 && ValueMatch(h, st, es[0], st.graph[n].alts[0]))
    case ListObj(es) =>
      && st.graph[n].ListOf?
      && ValueMatch(h, st, es[0], st.graph[n].itemSchema)
    case RecordObj(ps) =>
      && st.graph[n].RecordOf?
      && FieldsMatch(h, st, Kept(ps, cloneProto), st.graph[n].fields)
    case _ => false
  }

  /** Every registered object except those still being inferred is described by its node. */
  ghost predicate Describes(h: Heap, st: State, busy: set<ObjId>, cloneProto: bool)
    requires Valid(h) && StateOk(h, st)
  {
    forall o :: o in st.visited && o !in busy ==> LocalMatch(h, st, o, cloneProto)
  }

  /** The context grew soundly from `st` to `st2`. */
  ghost predicate Grown(h: Heap, st: State, st2: State, busy: set<ObjId>, cloneProto: bool)
    requires Valid(h) && StateOk(h, st)
  {
    && StateOk(h, st2) && Extends(st, st2)
    && (Describes(h, st, busy, cloneProto) ==> Describes(h, st2, busy, cloneProto))
  }

  /** `reg` registered object `o` in `st`, which is now being inferred. */
  ghost predicate Registered(h: Heap, st: State, reg: Inferred, o: ObjId, busy: set<ObjId>, cloneProto: bool)
    requires Valid(h) && StateOk(h, st)
  {
    && StateOk(h, reg.st) && Extends(st, reg.st)
    && o in reg.st.visited && reg.st.visited[o] == reg.node && reg.node == |st.graph|
    && reg.st.visited.Keys == st.visited.Keys + {o}
    && (Describes(h, st, busy, cloneProto) ==> Describes(h, reg.st, busy + {o}, cloneProto))
  }

  function Alloc(st: State, n: Node): Inferred {
    Inferred(|st.graph|, st.(graph := st.graph + [n]))
  }

  function Register(st: State, o: ObjId, n: Node): Inferred {
    Inferred(|st.graph|, State(st.graph + [n], st.visited[o := |st.graph|]))
  }

  function Fill(st: State, n: NodeId, node: Node): State
    requires n < |st.graph|
  {
    st.(graph := st.graph[n := node])
  }

  /**
   * Infers the schema of `x` with inference context `st`. Only
   * `UnsupportedType` can be thrown, for a value no branch accepts.
   */
  function Infer(h: Heap, x: Value, cloneProto: bool, st: State, ghost busy: set<ObjId>)
    : (r: Result<Inferred, InferError>)
    requires Valid(h) && Below(x, |h|) && StateOk(h, st)
    ensures r.Ok? ==> Grown(h, st, r.value.st, busy, cloneProto)
    ensures r.Ok? ==> ValueMatch(h, r.value.st, x, r.value.node)
    ensures x == Exotic ==> r == Err(UnsupportedType)
    decreases Unvisited(h, st), 2, 0
  {
    if x.Ref? && x.obj in st.visited then
      RevisitOk(h, st, x, busy, cloneProto);
      Ok(Inferred(st.visited[x.obj], st))
    else if LeafOf(h, x).Some? then
      AllocLeafOk(h, st, x, busy, cloneProto);
      Ok(Alloc(st, LeafN(LeafOf(h, x).value)))
    else if x.Ref? && h[x.obj].ListObj? then
      InferList(h, x.obj, cloneProto, st, busy)
    else if x.Ref? && h[x.obj].ArrayObj? then
      InferArray(h, x.obj, cloneProto, st, busy)
    else if x.Ref? && h[x.obj].RecordObj? then
      InferRecord(h, x.obj, cloneProto, st, busy)
    else
      Err(UnsupportedType)
  }

  /**
   * A non-array iterable: an empty one is described by a fresh `[]`; any
   * other is registered, then described by its first element only.
   */
  function InferList(h: Heap, o: ObjId, cloneProto: bool, st: State, ghost busy: set<ObjId>)
    : (r: Result<Inferred, InferError>)
    requires Valid(h) && o < |h| && h[o].ListObj? && o !in st.visited && StateOk(h, st)
    ensures r.Ok? ==> Grown(h, st, r.value.st, busy, cloneProto)
    ensures r.Ok? ==> ValueMatch(h, r.value.st, Ref(o), r.value.node)
    decreases Unvisited(h, st), 1, 0
  {
    var es := h[o].elems;
    if |es| == 0 then
      AllocEmptyListOk(h, st, Ref(o), busy, cloneProto);
      Ok(Alloc(st, ArrayOf([])))
    else
      var reg := Register(st, o, ListOf(|st.graph|));
      RegisterOk(h, st, o, ListOf(|st.graph|), busy, cloneProto);
      ElemBelow(h, o, 0);
      UnvisitedShrinks(h, st, reg.st, o);
      var c :- Infer(h, es[0], cloneProto, reg.st, busy + {o});
      FirstElemStep(h, o, ListOf(|st.graph|), ListOf(c.node), cloneProto, st, reg, c, busy);
      Ok(Inferred(reg.node, Fill(c.st, reg.node, ListOf(c.node))))
  }

  /** An array is registered first, then described by its first element only. */
  function InferArray(h: Heap, o: ObjId, cloneProto: bool, st: State, ghost busy: set<ObjId>)
    : (r: Result<Inferred, InferError>)
    requires Valid(h) && o < |h| && h[o].ArrayObj? && o !in st.visited && StateOk(h, st)
    ensures r.Ok? ==> Grown(h, st, r.value.st, busy, cloneProto)
    ensures r.Ok? ==> ValueMatch(h, r.value.st, Ref(o), r.value.node)
    decreases Unvisited(h, st), 1, 0
  {
    var es := h[o].elems;
    var reg := Register(st, o, ArrayOf([]));
    RegisterOk(h, st, o, ArrayOf([]), busy, cloneProto);
    if |es| == 0 then
      EmptyArrayStep(h, o, cloneProto, st, reg, busy);
      Ok(Inferred(reg.node, Fill(reg.st, reg.node, ArrayOf([]))))
    else
      ElemBelow(h, o, 0);
      UnvisitedShrinks(h, st, reg.st, o);
      var c :- Infer(h, es[0], cloneProto, reg.st, busy + {o});
      FirstElemStep(h, o, ArrayOf([]), ArrayOf([c.node]), cloneProto, st, reg, c, busy);
      Ok(Inferred(reg.node, Fill(c.st, reg.node, ArrayOf([c.node]))))
  }

  /** A record is registered first, then described key by key. */
  function InferRecord(h: Heap, o: ObjId, cloneProto: bool, st: State, ghost busy: set<ObjId>)
    : (r: Result<Inferred, InferError>)
    requires Valid(h) && o < |h| && h[o].RecordObj? && o !in st.visited && StateOk(h, st)
    ensures r.Ok? ==> Grown(h, st, r.value.st, busy, cloneProto)
    ensures r.Ok? ==> ValueMatch(h, r.value.st, Ref(o), r.value.node)
    decreases Unvisited(h, st), 1, 0
  {
    var reg := Register(st, o, RecordOf([]));
    RegisterOk(h, st, o, RecordOf([]), busy, cloneProto);
    PropsBelow(h, o);
    UnvisitedShrinks(h, st, reg.st, o);
    var fs :- InferFields(h, h[o].props, cloneProto, reg.st, busy + {o});
    RecordStep(h, o, cloneProto, st, reg, fs, busy);
    Ok(Inferred(reg.node, Fill(fs.st, reg.node, RecordOf(fs.fields))))
  }

  /** Infers the kept keys of a record, in order, threading the context. */
  function InferFields(h: Heap, ps: seq<Prop>, cloneProto: bool, st: State, ghost busy: set<ObjId>)
    : (r: Result<InferredFields, InferError>)
    requires Valid(h) && StateOk(h, st)
    requires forall p <- ps :: Below(p.value, |h|)
    ensures r.Ok? ==> Grown(h, st, r.value.st, busy, cloneProto)
    ensures r.Ok? ==> FieldsMatch(h, r.value.st, Kept(ps, cloneProto), r.value.fields)
    decreases Unvisited(h, st), 3, |ps|
  {
    if ps == [] then
      Ok(InferredFields([], st))
    else if !cloneProto && !ps[0].own then
      var rest :- InferFields(h, ps[1..], cloneProto, st, busy);
      FieldsSkip(h, ps, cloneProto, st, rest, busy);
      Ok(rest)
    else
      var c :- Infer(h, ps[0].value, cloneProto, st, busy);
      assert Unvisited(h, c.st) <= Unvisited(h, st);
      var rest :- InferFields(h, ps[1..], cloneProto, c.st, busy);
      FieldsStep(h, ps, cloneProto, st, c, rest, busy);
      Ok(InferredFields([Field(ps[0].name, c.node)] + rest.fields, rest.st))
  }

  /** `createCloneSchemaFrom(x, opts)` with a fresh context. */
  function InferSchema(h: Heap, x: Value, cloneProto: bool): (r: Result<Inferred, InferError>)
    requires Valid(h) && Below(x, |h|)
    ensures r.Ok? ==> Closed(r.value.st.graph) && r.value.node < |r.value.st.graph|
    ensures r.Ok? ==> ValueMatch(h, r.value.st, x, r.value.node)
    ensures r.Ok? ==> StateOk(h, r.value.st) && Describes(h, r.value.st, {}, cloneProto)
  {
    Infer(h, x, cloneProto, Fresh, {})
  }

  // ---------------------------------------------------------------------
  // Proof helpers
  // ---------------------------------------------------------------------

  /** The array and array-like step: fill the registered node once its first element is described. */
  lemma {:induction false} FirstElemStep(h: Heap, o: ObjId, placeholder: Node, node: Node, cloneProto: bool,
                      st: State, reg: Inferred, c: Inferred, busy: set<ObjId>)
    requires Valid(h) && o < |h| && (h[o].ArrayObj? || h[o].ListObj?) && |h[o].elems| > 0
    requires o !in st.visited && StateOk(h, st) && !placeholder.LeafN?
    requires NodeBelow(placeholder, |st.graph| + 1)
    requires reg == Register(st, o, placeholder)
    requires Registered(h, st, reg, o, busy, cloneProto)
    requires Grown(h, reg.st, c.st, busy + {o}, cloneProto) && ValueMatch(h, c.st, h[o].elems[0], c.node)
    requires node == (if h[o].ArrayObj? then ArrayOf([c.node]) else ListOf(c.node))
    ensures var st3 := Fill(c.st, reg.node, node);
      Grown(h, st, st3, busy, cloneProto) && ValueMatch(h, st3, Ref(o), reg.node)
  {
    var st3 := Fill(c.st, reg.node, node);
    assert c.st.visited[o] == reg.node;
    assert c.st.graph[reg.node] == placeholder;
    FillValueMatch(h, c.st, o, node, h[o].elems[0], c.node);
    assert NodeBelow(node, |c.st.graph|) by { assert Children(node) == [c.node]; }
    FillOk(h, st, reg.st, c.st, o, node, busy, cloneProto);
  }

  lemma {:induction false} EmptyArrayStep(h: Heap, o: ObjId, cloneProto: bool, st: State, reg: Inferred, busy: set<ObjId>)
    requires Valid(h) && o < |h| && h[o].ArrayObj? && |h[o].elems| == 0
    requires o !in st.visited && StateOk(h, st)
    requires reg == Register(st, o, ArrayOf([]))
    requires Registered(h, st, reg, o, busy, cloneProto)
    ensures var st3 := Fill(reg.st, reg.node, ArrayOf([]));
      Grown(h, st, st3, busy, cloneProto) && ValueMatch(h, st3, Ref(o), reg.node)
  {
    FillOk(h, st, reg.st, reg.st, o, ArrayOf([]), busy, cloneProto);
  }

  /** The record step: fill the registered node with the described keys. */
  lemma {:induction false} RecordStep(h: Heap, o: ObjId, cloneProto: bool, st: State, reg: Inferred,
                   fs: InferredFields, busy: set<ObjId>)
    requires Valid(h) && o < |h| && h[o].RecordObj?
    requires o !in st.visited && StateOk(h, st)
    requires reg == Register(st, o, RecordOf([]))
    requires Registered(h, st, reg, o, busy, cloneProto)
    requires Grown(h, reg.st, fs.st, busy + {o}, cloneProto)
    requires FieldsMatch(h, fs.st, Kept(h[o].props, cloneProto), fs.fields)
    ensures var st3 := Fill(fs.st, reg.node, RecordOf(fs.fields));
      Grown(h, st, st3, busy, cloneProto) && ValueMatch(h, st3, Ref(o), reg.node)
  {
    var node := RecordOf(fs.fields);
    var st3 := Fill(fs.st, reg.node, node);
    assert fs.st.visited[o] == reg.node;
    RecordFill(h, o, cloneProto, fs.st, fs.fields);
    FillOk(h, st, reg.st, fs.st, o, node, busy, cloneProto);
  }

  /** Filling a record's node with its described keys keeps them described. */
  lemma {:induction false} RecordFill(h: Heap, o: ObjId, cloneProto: bool, st: State, fields: seq<Field>)
    requires Valid(h) && o < |h| && h[o].RecordObj? && StateOk(h, st)
    requires o in st.visited && st.graph[st.visited[o]] == RecordOf([])
    requires FieldsMatch(h, st, Kept(h[o].props, cloneProto), fields)
    ensures NodeBelow(RecordOf(fields), |st.graph|)
    ensures FieldsMatch(h, Fill(st, st.visited[o], RecordOf(fields)), Kept(h[o].props, cloneProto), fields)
  {
    var node := RecordOf(fields);
    var st3 := Fill(st, st.visited[o], node);
    var ks := Kept(h[o].props, cloneProto);
    forall i | 0 <= i < |ks| ensures ValueMatch(h, st3, ks[i].value, fields[i].node) {
      FillValueMatch(h, st, o, node, ks[i].value, fields[i].node);
    }
    forall c <- Children(node) ensures c < |st.graph| {
      var i :| 0 <= i < |fields| && FieldNodes(fields)[i] == c;
      assert ValueMatch(h, st, ks[i].value, fields[i].node);
    }
  }

  lemma {:induction false} UnvisitedShrinks(h: Heap, st: State, st2: State, o: ObjId)
    requires o < |h| && o !in st.visited && st2.visited.Keys == st.visited.Keys + {o}
    ensures Unvisited(h, st2) < Unvisited(h, st)
  {
    assert o in Unvisited(h, st) && o !in Unvisited(h, st2);
  }

  lemma {:induction false} PropsBelow(h: Heap, o: ObjId)
    requires Valid(h) && o < |h| && h[o].RecordObj?
    ensures forall p <- h[o].props :: Below(p.value, |h|)
  {
    forall p <- h[o].props ensures Below(p.value, |h|) {
      PropBelow(h, o, p);
    }
  }

  lemma {:induction false} ValueMatchStable(h: Heap, st: State, st2: State, x: Value, n: NodeId)
    requires StateOk(h, st) && StateOk(h, st2) && Extends(st, st2)
    requires ValueMatch(h, st, x, n)
    ensures ValueMatch(h, st2, x, n)
  {
    assert st2.graph[n] == st.graph[n];
    if !(x.Ref? && Registrable(h[x.obj])) && LeafOf(h, x).None? && x.Ref? && h[x.obj].ListObj? {
      assert forall o :: o in st2.visited ==> st2.visited[o] != n;
    }
  }

  lemma {:induction false} LocalMatchStable(h: Heap, st: State, st2: State, o: ObjId, cloneProto: bool)
    requires Valid(h) && StateOk(h, st) && StateOk(h, st2) && Extends(st, st2)
    requires o in st.visited && LocalMatch(h, st, o, cloneProto)
    ensures LocalMatch(h, st2, o, cloneProto)
  {
    var n := st.visited[o];
    assert st2.graph[n] == st.graph[n];
    match h[o]
    case ArrayObj(es) =>
      if |es| > 0 {
        ValueMatchStable(h, st, st2, es[0], st.graph[n].alts[0]);
      }
    case ListObj(es) =>
      ValueMatchStable(h, st, st2, es[0], st.graph[n].itemSchema);
    case RecordObj(ps) =>
      var ks := Kept(ps, cloneProto);
      var fs := st.graph[n].fields;
      forall i | 0 <= i < |ks| ensures ValueMatch(h, st2, ks[i].value, fs[i].node) {
        ValueMatchStable(h, st, st2, ks[i].value, fs[i].node);
      }
    case _ =>
  }

  lemma {:induction false} AllocLeafOk(h: Heap, st: State, x: Value, busy: set<ObjId>, cloneProto: bool)
    requires Valid(h) && Below(x, |h|) && StateOk(h, st) && LeafOf(h, x).Some?
    requires !(x.Ref? && x.obj in st.visited)
    ensures var a := Alloc(st, LeafN(LeafOf(h, x).value));
      Grown(h, st, a.st, busy, cloneProto) && ValueMatch(h, a.st, x, a.node)
  {
    var a := Alloc(st, LeafN(LeafOf(h, x).value));
    assert forall k :: 0 <= k < |st.graph| ==> a.st.graph[k] == st.graph[k];
    if Describes(h, st, busy, cloneProto) {
      DescribesExtends(h, st, a.st, busy, cloneProto);
    }
  }

  lemma {:induction false} AllocEmptyListOk(h: Heap, st: State, x: Value, busy: set<ObjId>, cloneProto: bool)
    requires Valid(h) && Below(x, |h|) && StateOk(h, st)
    requires x.Ref? && h[x.obj].ListObj? && |h[x.obj].elems| == 0
    ensures var a := Alloc(st, ArrayOf([]));
      Grown(h, st, a.st, busy, cloneProto) && ValueMatch(h, a.st, x, a.node)
  {
    var a := Alloc(st, ArrayOf([]));
    assert forall k :: 0 <= k < |st.graph| ==> a.st.graph[k] == st.graph[k];
    if Describes(h, st, busy, cloneProto) {
      DescribesExtends(h, st, a.st, busy, cloneProto);
    }
  }

  lemma {:induction false} RevisitOk(h: Heap, st: State, x: Value, busy: set<ObjId>, cloneProto: bool)
    requires Valid(h) && Below(x, |h|) && StateOk(h, st) && x.Ref? && x.obj in st.visited
    ensures Grown(h, st, st, busy, cloneProto) && ValueMatch(h, st, x, st.visited[x.obj])
  {
  }

  /** One kept key of a record: its node is prepended to the nodes of the rest. */
  lemma {:induction false} FieldsStep(h: Heap, ps: seq<Prop>, cloneProto: bool, st: State, c: Inferred,
                   rest: InferredFields, busy: set<ObjId>)
    requires Valid(h) && StateOk(h, st) && ps != [] && (cloneProto || ps[0].own)
    requires Grown(h, st, c.st, busy, cloneProto) && ValueMatch(h, c.st, ps[0].value, c.node)
    requires Grown(h, c.st, rest.st, busy, cloneProto)
    requires FieldsMatch(h, rest.st, Kept(ps[1..], cloneProto), rest.fields)
    ensures Grown(h, st, rest.st, busy, cloneProto)
    ensures FieldsMatch(h, rest.st, Kept(ps, cloneProto), [Field(ps[0].name, c.node)] + rest.fields)
  {
    ValueMatchStable(h, c.st, rest.st, ps[0].value, c.node);
    assert Kept(ps, cloneProto) == [ps[0]] + Kept(ps[1..], cloneProto);
  }

  lemma {:induction false} FieldsSkip(h: Heap, ps: seq<Prop>, cloneProto: bool, st: State, rest: InferredFields, busy: set<ObjId>)
    requires Valid(h) && StateOk(h, st) && ps != [] && !cloneProto && !ps[0].own
    requires FieldsMatch(h, rest.st, Kept(ps[1..], cloneProto), rest.fields)
    ensures FieldsMatch(h, rest.st, Kept(ps, cloneProto), rest.fields)
  {
  }

  lemma {:induction false} DescribesExtends(h: Heap, st: State, st2: State, busy: set<ObjId>, cloneProto: bool)
    requires Valid(h) && StateOk(h, st) && StateOk(h, st2) && Extends(st, st2)
    requires Describes(h, st, busy, cloneProto)
    requires forall o :: o in st2.visited && o !in st.visited ==> o in busy
    ensures Describes(h, st2, busy, cloneProto)
  {
    forall o | o in st2.visited && o !in busy ensures LocalMatch(h, st2, o, cloneProto) {
      LocalMatchStable(h, st, st2, o, cloneProto);
    }
  }

  lemma {:induction false} RegisterOk(h: Heap, st: State, o: ObjId, n: Node, busy: set<ObjId>, cloneProto: bool)
    requires Valid(h) && StateOk(h, st) && o < |h| && o !in st.visited && Registrable(h[o])
    requires NodeBelow(n, |st.graph| + 1)
    ensures Registered(h, st, Register(st, o, n), o, busy, cloneProto)
  {
    var reg := Register(st, o, n);
    assert forall k :: 0 <= k < |st.graph| ==> reg.st.graph[k] == st.graph[k];
    if Describes(h, st, busy, cloneProto) {
      DescribesExtends(h, st, reg.st, busy + {o}, cloneProto);
    }
  }

  /** Filling the node of `o` changes nothing any other node describes. */
  lemma {:induction false} FillValueMatch(h: Heap, st: State, o: ObjId, node: Node, x: Value, m: NodeId)
    requires StateOk(h, st) && o in st.visited && !st.graph[st.visited[o]].LeafN?
    requires ValueMatch(h, st, x, m)
    ensures ValueMatch(h, Fill(st, st.visited[o], node), x, m)
  {
    var n := st.visited[o];
    if !(x.Ref? && Registrable(h[x.obj])) && LeafOf(h, x).None? {
      assert n in st.visited.Values;
    }
  }

  lemma {:induction false} FillOk(h: Heap, st0: State, st: State, st2: State, o: ObjId, node: Node,
               busy: set<ObjId>, cloneProto: bool)
    requires Valid(h) && StateOk(h, st0) && StateOk(h, st) && StateOk(h, st2)
    requires Extends(st0, st) && Extends(st, st2)
    requires o !in st0.visited && o in st.visited && st.visited[o] == |st0.graph|
    requires !st.graph[|st0.graph|].LeafN?
    requires NodeBelow(node, |st2.graph|)
    requires forall oo :: oo in st.visited && oo !in st0.visited ==> oo == o
    requires var st3 := Fill(st2, |st0.graph|, node); o in st3.visited ==> LocalMatch(h, st3, o, cloneProto)
    requires Describes(h, st0, busy, cloneProto) ==> Describes(h, st2, busy + {o}, cloneProto)
    ensures var st3 := Fill(st2, |st0.graph|, node);
      && StateOk(h, st3) && Extends(st0, st3)
      && (Describes(h, st0, busy, cloneProto) ==> Describes(h, st3, busy, cloneProto))
  {
    FillKeeps(h, st0, st, st2, o, node);
    if Describes(h, st0, busy, cloneProto) {
      FillDescribes(h, st0, st, st2, o, node, busy, cloneProto);
    }
  }

  lemma {:induction false} FillKeeps(h: Heap, st0: State, st: State, st2: State, o: ObjId, node: Node)
    requires Valid(h) && StateOk(h, st0) && StateOk(h, st) && StateOk(h, st2)
    requires Extends(st0, st) && Extends(st, st2)
    requires o !in st0.visited && o in st.visited && st.visited[o] == |st0.graph|
    requires !st.graph[|st0.graph|].LeafN?
    requires NodeBelow(node, |st2.graph|)
    ensures var st3 := Fill(st2, |st0.graph|, node);
      StateOk(h, st3) && Extends(st0, st3)
  {
    var n := |st0.graph|;
    var st3 := Fill(st2, n, node);
    assert st2.visited[o] == n;
    assert st2.graph[n] == st.graph[n];
    assert forall k :: 0 <= k < |st2.graph| && k != n ==> st3.graph[k] == st2.graph[k];
    assert st0.graph <= st3.graph;
  }

  lemma {:induction false} FillDescribes(h: Heap, st0: State, st: State, st2: State, o: ObjId, node: Node,
                      busy: set<ObjId>, cloneProto: bool)
    requires Valid(h) && StateOk(h, st0) && StateOk(h, st) && StateOk(h, st2)
    requires Extends(st0, st) && Extends(st, st2)
    requires o !in st0.visited && o in st.visited && st.visited[o] == |st0.graph|
    requires !st.graph[|st0.graph|].LeafN?
    requires NodeBelow(node, |st2.graph|)
    requires var st3 := Fill(st2, |st0.graph|, node); o in st3.visited ==> LocalMatch(h, st3, o, cloneProto)
    requires Describes(h, st2, busy + {o}, cloneProto)
    ensures Describes(h, Fill(st2, |st0.graph|, node), busy, cloneProto)
  {
    var n := |st0.graph|;
    var st3 := Fill(st2, n, node);
    FillKeeps(h, st0, st, st2, o, node);
    assert st2.visited[o] == n;
    forall oo | oo in st3.visited && oo !in busy ensures LocalMatch(h, st3, oo, cloneProto) {
      if oo != o {
        assert LocalMatch(h, st2, oo, cloneProto);
        FillLocalMatch(h, st2, o, node, oo, cloneProto);
      }
    }
  }

  lemma {:induction false} FillLocalMatch(h: Heap, st: State, o: ObjId, node: Node, oo: ObjId, cloneProto: bool)
    requires Valid(h) && StateOk(h, st) && o in st.visited && !st.graph[st.visited[o]].LeafN?
    requires NodeBelow(node, |st.graph|)
    requires oo in st.visited && oo != o && LocalMatch(h, st, oo, cloneProto)
    ensures StateOk(h, Fill(st, st.visited[o], node))
    ensures LocalMatch(h, Fill(st, st.visited[o], node), oo, cloneProto)
  {
    var n := st.visited[o];
    var st3 := Fill(st, n, node);
    var m := st.visited[oo];
    assert m != n;
    assert st3.graph[m] == st.graph[m];
    match h[oo]
    case ArrayObj(es) =>
      if |es| > 0 {
        FillValueMatch(h, st, o, node, es[0], st.graph[m].alts[0]);
      }
    case ListObj(es) =>
      FillValueMatch(h, st, o, node, es[0], st.graph[m].itemSchema);
    case RecordObj(ps) =>
      var ks := Kept(ps, cloneProto);
      var fs := st.graph[m].fields;
      forall i | 0 <= i < |ks| ensures ValueMatch(h, st3, ks[i].value, fs[i].node) {
        FillValueMatch(h, st, o, node, ks[i].value, fs[i].node);
      }
    case _ =>
  }
}
