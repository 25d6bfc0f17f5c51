/**
 * The schema vocabulary: the values `createClonerCode` dispatches on. A
 * schema is a graph of nodes addressed by index, so that a schema which
 * refers to itself (the result of inferring from a cyclic value) is a
 * node whose children include its own id.
 */
module Schema {
  import opened JsHeap

  type NodeId = nat

  /**
   * Leaf schemas: the built-in constructors, `null` and `undefined`, and
   * the bare `Map`/`Set` constructors (the naive collection copies).
   */
  datatype Leaf =
    | NumberL | StringL | BooleanL | FunctionL | SymbolL | BigIntL
    | DateL | NullL | UndefinedL
    | BinaryL(kind: BinaryKind)
    | MapL | SetL

  datatype Field = Field(name: string, node: NodeId)

  /**
   * One schema value. `MapOf`, `SetOf`, `ListOf` and `Custom` are the
   * `ClonerMap`, `ClonerSet`, `ClonerArrayLike` and `ClonerCustomFn`
   * wrappers; `ArrayOf` is a JavaScript array used as a schema (any number
   * of alternatives); `RecordOf` is any other object, with the keys its
   * `for..in` enumerates; `Other` is any value no branch accepts.
   */
  datatype Node =
    | LeafN(leaf: Leaf)
    | MapOf(valueSchema: NodeId)
    | SetOf(elemSchema: NodeId)
    | ListOf(itemSchema: NodeId)
    | Custom(fn: nat)
    | ArrayOf(alts: seq<NodeId>)
    | RecordOf(fields: seq<Field>)
    | Other

  type Graph = seq<Node>

  /** The schemas a node refers to directly. */
  function Children(n: Node): seq<NodeId> {
    match n
    case MapOf(c) => [c]
    case SetOf(c) => [c]
    case ListOf(c) => [c]
    case ArrayOf(alts) => alts
    case RecordOf(fs) => FieldNodes(fs)
    case _ => []
  }

  function FieldNodes(fs: seq<Field>): (ns: seq<NodeId>)
    ensures |ns| == |fs|
    ensures forall i :: 0 <= i < |fs| ==> ns[i] == fs[i].node
  {
    if fs == [] then [] else [fs[0].node] + FieldNodes(fs[1..])
  }

  predicate NodeBelow(n: Node, bound: nat) {
    forall c <- Children(n) :: c < bound
  }

  /** Every reference between nodes stays inside the graph. */
  predicate Closed(g: Graph) {
    forall k :: 0 <= k < |g| ==> NodeBelow(g[k], |g|)
  }

  lemma {:induction false} FieldBelow(g: Graph, k: NodeId, i: nat)
    requires Closed(g) && k < |g| && g[k].RecordOf? && i < |g[k].fields|
    ensures g[k].fields[i].node < |g|
  {
    assert FieldNodes(g[k].fields)[i] in Children(g[k]);
  }

  lemma {:induction false} AltBelow(g: Graph, k: NodeId, i: nat)
    requires Closed(g) && k < |g| && g[k].ArrayOf? && i < |g[k].alts|
    ensures g[k].alts[i] < |g|
  {
    assert g[k].alts[i] in Children(g[k]);
  }

  /**
   * A ranking in which every edge leaving a non-record node goes down:
   * it exists exactly when every cycle of the graph passes through a
   * record, the only kind of node the synthesizer tracks.
   */
  ghost predicate RecordBroken(g: Graph, rank: seq<nat>) {
    && |rank| == |g|
    && (forall k :: 0 <= k < |g| ==> rank[k] < |g|)
    && (forall k, c :: 0 <= k < |g| && !g[k].RecordOf? && c in Children(g[k]) ==>
          0 <= c < |g| && rank[c] < rank[k])
  }

  /** The keys of a record schema. */
  function Names(fs: seq<Field>): set<string> {
    set f <- fs :: f.name
  }

  /** The keys of every record schema of the graph. */
  function GraphNames(g: Graph): set<string> {
    set k, f | 0 <= k < |g| && g[k].RecordOf? && f in g[k].fields :: f.name
  }

  lemma {:induction false} RecordNames(g: Graph, k: NodeId)
    requires k < |g| && g[k].RecordOf?
    ensures Names(g[k].fields) <= GraphNames(g)
  {
  }

  lemma {:induction false} NamesCons(fs: seq<Field>)
    requires fs != []
    ensures Names(fs) == {fs[0].name} + Names(fs[1..])
  {
    assert fs == [fs[0]] + fs[1..];
  }

  /** The fields after the first of a field list inside the graph are inside it too. */
  lemma {:induction false} TailBelow(fields: seq<Field>, bound: nat)
    requires fields != [] && forall f <- fields :: f.node < bound
    ensures forall f <- fields[1..] :: f.node < bound
  {
  }

  /** A walk through the graph along child edges. */
  ghost predicate Path(g: Graph, p: seq<NodeId>) {
    && p != []
    && (forall i :: 0 <= i < |p| ==> p[i] < |g|)
    && (forall i :: 0 <= i < |p| - 1 ==> p[i + 1] in Children(g[p[i]]))
  }

  lemma {:induction false} PathTail(g: Graph, p: seq<NodeId>)
    requires Path(g, p) && |p| > 1
    ensures Path(g, p[1..]) && p[1] in Children(g[p[0]])
  {
  }

  /** A ranking in which record edges go down as well: the graph has no cycle at all. */
  ghost predicate Acyclic(g: Graph, rank: seq<nat>) {
    && RecordBroken(g, rank)
    && (forall k, i :: 0 <= k < |g| && g[k].RecordOf? && 0 <= i < |g[k].fields| ==>
          g[k].fields[i].node < |g| && rank[g[k].fields[i].node] < rank[k])
  }
}
