/**
 * `createCloner`: synthesise the copy of a schema with a fresh context,
 * then hand the text to `eval`. The emitted text writes every record key
 * twice, once as an object-literal key (`field:`) and once in a member
 * access (`input.field`), so a key that is not an identifier name makes
 * `eval` throw a `SyntaxError` instead of returning a function.
 */
module Cloner {
  import opened Results
  import opened Schema
  import opened Fragments
  import opened Synthesis
  import opened SynthesisFacts

  datatype ClonerError =
    | SynthFailed(error: SynthError)   // thrown by `createClonerCode`
    | SyntaxError                      // thrown by `eval` on the emitted text

  predicate IdentifierStart(c: char) {
    'a' <= c <= 'z' || 'A' <= c <= 'Z' || c == '_' || c == '$'
  }

  predicate IdentifierPart(c: char) {
    IdentifierStart(c) || '0' <= c <= '9'
  }

  /**
   * A key that may follow a `.` and precede a `:` in JavaScript source:
   * an identifier name (reserved words included), restricted to ASCII.
   */
  predicate IdentifierName(s: string) {
    |s| > 0 && IdentifierStart(s[0]) && forall i :: 1 <= i < |s| ==> IdentifierPart(s[i])
  }

  /**
   * The `eval` of the emitted text. A record key that is not an identifier
   * name does not parse, and neither does the prelude of any registered
   * custom function: it declares `const <key>` with the function itself,
   * printed as source text, as the key.
   */
  function Compile(e: Result<Emitted, SynthError>): Result<Frag, ClonerError> {
    if e.Err? then Err(SynthFailed(e.error))
    else if e.value.ctx.customObjs != map[] then Err(SyntaxError)
    else if forall k <- FieldNames(e.value.code) :: IdentifierName(k) then Ok(e.value.code)
    else Err(SyntaxError)
  }

  /** `createCloner(schema, opts)` with the corrected cycle map: the code of the returned function, or what it throws. */
  function CreateCloner(g: Graph, n: NodeId, opts: Opts, ghost rank: seq<nat>): (r: Result<Frag, ClonerError>)
    requires Closed(g) && n < |g| && RecordBroken(g, rank)
    ensures r.Ok? ==> FreeCalls(r.value) == {} && forall k <- FieldNames(r.value) :: IdentifierName(k)
    ensures r.Ok? && !opts.detectCycles ==> Helpers(r.value) == {}
    ensures (forall k <- GraphNames(g) :: IdentifierName(k)) && NoCustomReached(g, n) ==> r != Err(SyntaxError)
    ensures r == Err(SynthFailed(DetectCyclesNotSet)) ==> !opts.detectCycles
  {
    NoCustomRegistered(InProgressOnly, g, n, opts, rank);
    Compile(CloneCode(g, n, opts, rank))
  }

  /** `createCloner(schema, opts)` as written, with every record kept in the cycle map. */
  function CreateClonerAsWritten(g: Graph, n: NodeId, opts: Opts, ghost rank: seq<nat>): (r: Result<Frag, ClonerError>)
    requires Closed(g) && n < |g| && RecordBroken(g, rank)
    ensures r.Ok? ==> forall k <- FieldNames(r.value) :: IdentifierName(k)
    ensures r.Ok? && !opts.detectCycles ==> Helpers(r.value) == {}
    ensures (forall k <- GraphNames(g) :: IdentifierName(k)) && NoCustomReached(g, n) ==> r != Err(SyntaxError)
    ensures r == Err(SynthFailed(DetectCyclesNotSet)) ==> !opts.detectCycles
  {
    NoCustomRegistered(KeepExpanded, g, n, opts, rank);
    Compile(CloneCodeAsWritten(g, n, opts, rank))
  }

  /** A custom function reachable from the root: whenever synthesis succeeds, `eval` throws. */
  lemma {:induction false} CustomSyntaxError(g: Graph, n: NodeId, opts: Opts, rank: seq<nat>, k: NodeId)
    requires Closed(g) && n < |g| && RecordBroken(g, rank)
    requires k < |g| && Reaches(g, n, k) && g[k].Custom?
    ensures CloneCode(g, n, opts, rank).Ok? ==> CreateCloner(g, n, opts, rank) == Err(SyntaxError)
  {
    CustomRegistered(g, n, opts, rank, k);
  }

  /** `createCloner(new ClonerCustomFn(f))` throws `SyntaxError`. */
  lemma {:induction false} CustomRoot(fn: nat, opts: Opts)
    ensures Closed([Custom(fn)]) && RecordBroken([Custom(fn)], [0])
    ensures CreateCloner([Custom(fn)], 0, opts, [0]) == Err(SyntaxError)
  {
    var g := [Custom(fn)];
    assert Closed(g) && Acyclic(g, [0]);
    assert Path(g, [0]);
    SynthOk(g, 0, opts, [0]);
    CustomSyntaxError(g, 0, opts, [0], 0);
  }

  /**
   * `{a: P, b: P}` with `P = {x: Number}`: the source's `createCloner`
   * throws without `detectCycles` and compiles a call of an undefined helper
   * with it; the corrected one compiles it either way.
   */
  lemma {:induction false} SharedCreateCloner(opts: Opts)
    ensures Closed(SharedGraph) && RecordBroken(SharedGraph, SharedRank)
    ensures var r := CreateClonerAsWritten(SharedGraph, 0, opts, SharedRank);
      && (!opts.detectCycles ==> r == Err(SynthFailed(DetectCyclesNotSet)))
      && (opts.detectCycles ==> r.Ok? && FreeCalls(r.value) != {})
    ensures CreateCloner(SharedGraph, 0, opts, SharedRank).Ok?
  {
    SharedAsWritten(opts);
    SharedCorrected(opts);
  }

  lemma {:induction false} SharedAsWritten(opts: Opts)
    ensures Closed(SharedGraph) && RecordBroken(SharedGraph, SharedRank)
    ensures var r := CreateClonerAsWritten(SharedGraph, 0, opts, SharedRank);
      && (!opts.detectCycles ==> r == Err(SynthFailed(DetectCyclesNotSet)))
      && (opts.detectCycles ==> r.Ok? && FreeCalls(r.value) != {})
  {
    SharedRecordAsWritten(opts);
    SharedNames();
    NoCustomRegistered(KeepExpanded, SharedGraph, 0, opts, SharedRank);
  }

  lemma {:induction false} SharedCorrected(opts: Opts)
    ensures Closed(SharedGraph) && RecordBroken(SharedGraph, SharedRank)
    ensures CreateCloner(SharedGraph, 0, opts, SharedRank).Ok?
  {
    SharedAcyclic();
    SharedNames();
    SynthOk(SharedGraph, 0, opts, SharedRank);
    NoCustomRegistered(InProgressOnly, SharedGraph, 0, opts, SharedRank);
  }

  /** Every schema of the shared graph is supported, none is custom, and its keys are identifier names. */
  lemma {:induction false} SharedNames()
    ensures forall k :: 0 <= k < |SharedGraph| ==> !Unsupported(SharedGraph[k]) && !SharedGraph[k].Custom?
    ensures forall k <- GraphNames(SharedGraph) :: IdentifierName(k)
  {
    assert IdentifierName("a") && IdentifierName("b") && IdentifierName("x");
    forall k <- GraphNames(SharedGraph) ensures k in {"a", "b", "x"} {
      var j, f :| 0 <= j < |SharedGraph| && SharedGraph[j].RecordOf? && f in SharedGraph[j].fields && f.name == k;
    }
  }

  /**
   * A record schema with a key that is not an identifier name cannot be
   * compiled: whenever synthesis succeeds, `eval` throws.
   */
  lemma {:induction false} BadKeySyntaxError(g: Graph, n: NodeId, opts: Opts, rank: seq<nat>, i: nat)
    requires Closed(g) && n < |g| && RecordBroken(g, rank)
    requires g[n].RecordOf? && i < |g[n].fields| && !IdentifierName(g[n].fields[i].name)
    requires CloneCode(g, n, opts, rank).Ok?
    ensures CreateCloner(g, n, opts, rank) == Err(SyntaxError)
  {
    KeyEmitted(g, n, opts, rank, i);
  }

  /** Every key of the root record is written by its copy. */
  lemma {:induction false} KeyEmitted(g: Graph, n: NodeId, opts: Opts, rank: seq<nat>, i: nat)
    requires Closed(g) && n < |g| && RecordBroken(g, rank)
    requires g[n].RecordOf? && i < |g[n].fields|
    requires CloneCode(g, n, opts, rank).Ok?
    ensures g[n].fields[i].name in FieldNames(CloneCode(g, n, opts, rank).value.code)
  {
    RecordResult(InProgressOnly, g, n, opts, FreshCtx, rank);
    var ctx1 := FreshCtx.(cycles := FreshCtx.cycles[n := Pending]);
    var fs := SynthFields(InProgressOnly, g, g[n].fields, opts, ctx1, rank).value;
    FieldNameIn(fs.fields, i);
  }

  /** `{"a-b": 5}`: the schema `{"a-b": Number}` has no cloner. */
  lemma {:induction false} DashedKey(g: Graph, rank: seq<nat>, opts: Opts)
    requires g == [RecordOf([Field("a-b", 1)]), LeafN(NumberL)] && rank == [0, 0]
    ensures Closed(g) && RecordBroken(g, rank)
    ensures CreateCloner(g, 0, opts, rank) == Err(SyntaxError)
  {
    DashedCopies(g, rank, opts);
    assert !IdentifierPart(g[0].fields[0].name[1]);
    BadKeySyntaxError(g, 0, opts, rank, 0);
  }

  lemma {:induction false} DashedCopies(g: Graph, rank: seq<nat>, opts: Opts)
    requires g == [RecordOf([Field("a-b", 1)]), LeafN(NumberL)] && rank == [0, 0]
    ensures Closed(g) && RecordBroken(g, rank)
    ensures CloneCode(g, 0, opts, rank).Ok?
  {
    assert Children(g[0]) == [1];
    var ctx1 := FreshCtx.(cycles := FreshCtx.cycles[0 := Pending]);
    SynthDispatch(InProgressOnly, g, 1, opts, ctx1, rank);
    FieldsCons(InProgressOnly, g, g[0].fields, opts, ctx1, rank);
    assert g[0].fields[1..] == [];
    RecordResult(InProgressOnly, g, 0, opts, FreshCtx, rank);
  }
}
