# sdfclone core, modelled in Dafny

sdfclone builds a specialised deep-clone function for one shape of data.
It has two halves:

- `createCloneSchemaFrom` walks a sample value and infers a *schema*. A
  schema is a tree, or a graph when the sample is cyclic. It is made of
  built-in constructors (`Number`, `Date`, `Uint8Array`, ...), `null` and
  `undefined`, arrays, plain objects and the wrappers `ClonerMap`,
  `ClonerSet`, `ClonerArrayLike` and `ClonerCustomFn`.
- `createClonerCode` turns a schema into JavaScript source for a cloner.
  `createCloner` then `eval`s that source. With `detectCycles` the code
  keeps a `cycleObjs` map from each input object to its copy. A record
  schema that is reached again while it is still being emitted is then
  copied by a self-recursive helper `cycle<id>`.

The model has these parts:

- **Heap.** The heap is an arena of objects addressed by index
  (`JsHeap`): dates, binary arrays, maps, sets, arrays, array-likes such
  as `arguments`, and records with own or inherited enumerable keys.
- **Schema.** A schema is a graph of nodes addressed by index
  (`Schema`).
- **Emitted code.** The emitted code is a tree of fragments (`Fragments`)
  instead of text. Each fragment denotes "the copy of the current input".
  The `inputName` the source threads through as text is therefore
  implicit, and a cycle helper rebinds the input structurally. The
  source's textual rebinding can also rewrite keys (see "Left out").
- **Inference** (`Inference`, `InferenceFacts`). Inference is modelled with
  the non-array iterable registered before its first element is inferred.
  `InferenceAsWritten` keeps the source's order and shows where that
  order diverges.
- **Compilation** (`Cloner`). `createCloner` compiles the emitted code.
  Compiling fails with a `SyntaxError` when a record key is not an
  identifier name, and whenever a custom function was registered: the
  prelude declares `const <key>` with the function itself, printed as
  source text, as the key.
- **Synthesis** (`Synthesis`, `SynthesisFacts`). Synthesis has one
  definition with two cycle policies:
  - `KeepExpanded` keeps every record in `ctx.cycles` for good, as the
    source does.
  - `InProgressOnly` removes a record once its fields are emitted. This is
    the corrected behaviour, and `CloneCode` uses it.
  - The source's random cycle id is replaced by a counter in the context.
- **Running the code** (`Runtime`, `RuntimeFacts`). An interpreter gives
  the emitted code the meaning the JavaScript has once `eval`ed. Helper
  names follow JavaScript scope: a named function expression is visible
  only inside its own body. `ClonerFacts` connects synthesis and the
  interpreter end to end.

## Model

| member | source | states |
|---|---|---|
| `Inference.LeafOf` | src/index.ts:229-256 | A value gets a leaf schema exactly when it is not an array, an array-like, a record or an unsupported host value. A Buffer is never described as `Buffer`, because the `Uint8Array` test comes first. |
| `Inference.Kept` | src/index.ts:277-279 | The keys a record schema keeps are exactly the own keys, or all enumerable keys under `cloneProto`. With `cloneProto` every key is kept, in order. |
| `Inference.Infer` | src/index.ts:227-284 | A successful walk only grows the context: nodes and visited entries are never changed. Every described object stays described. The returned node describes the input: a visited object maps to its node, a leaf to its constructor. An unsupported value throws. |
| `Inference.InferList` | src/index.ts:258-263 | A non-array iterable is described by `[]` when empty. Otherwise it gets a `ClonerArrayLike` node, registered before its first element, whose item schema describes that first element. |
| `Inference.InferArray` | src/index.ts:265-272 | An array is registered before its first element. It is described by `[]` when empty, and otherwise by a one-item array schema that describes its first element. |
| `Inference.InferRecord` | src/index.ts:274-282 | A record is registered before its keys. It is described by a record schema whose fields describe its kept keys. |
| `Inference.InferFields` | src/index.ts:277-280 | The inferred fields match the kept keys one for one: same names, same order, each field's node describing the key's value. |
| `Inference.InferSchema` | src/index.ts:222-226 | From a fresh context, the result is a closed schema graph whose root describes the input. Every registered object is described by its node. |
| `InferenceFacts.InferSchemaOk` | src/index.ts:227-284 | On a heap without unsupported values, inference succeeds exactly when the input itself is supported. |
| `InferenceFacts.InferOk` | src/index.ts:227-282 | Every supported value is inferred without error from any sound context. This holds also for cyclic values, because revisits hit the visited map. |
| `InferenceFacts.InferAgain` | src/index.ts:227 | Inferring an array, array-like or record again, from the context its first inference left, returns the same node and the same context. |
| `InferenceFacts.RootShape` | src/index.ts:258-281 | The root schema of an array, array-like or record is: `[]` when empty; one item schema that matches the first element, with later elements ignored; or a `ClonerArrayLike`; or a record of exactly the kept keys. |
| `InferenceFacts.KeptNoOwn` | src/index.ts:278 | Without `cloneProto`, a key list with no own key keeps nothing. |
| `InferenceFacts.InheritedOnlyEmpty` | src/index.ts:274-281 | An object whose enumerable keys are all inherited infers to an empty record schema. |
| `InferenceFacts.ProtoOnlySchema` | test/index.js:47-49 | `Object.create({a: 1})` infers to the empty record schema. What that schema's copy returns is stated by `ClonerFacts.EmptyRecordCopy`. |
| `InferenceAsWritten.InferAW` | src/index.ts:227-284 | Inference in the source's order, with a call-depth bound. An unsupported value throws, and exhausting the bound is reported as running out of stack. |
| `InferenceAsWritten.SelfListDiverges` | src/index.ts:258-263 | As written, an array-like whose first element is itself never finishes: every depth bound is exhausted. |
| `InferenceAsWritten.SelfArgumentsFixed` | src/index.ts:258-263 | For `arguments[0] = arguments`, inference as written runs out of depth for every bound. The corrected inference returns a `ClonerArrayLike` whose item schema is itself. |
| `Synthesis.LeafCode` | src/index.ts:39-92 | The code for a leaf schema defines no cycle helper and calls none. |
| `Synthesis.Guard` | src/index.ts:179-181 | The `cycleObjs` guard keeps the calls, helpers and allocation behaviour of the code it guards. |
| `Synthesis.ResolveCycle` | src/index.ts:148-157 | The resolver throws exactly when `detectCycles` is off. Otherwise it returns a call of the record's getter, drawn fresh on the first call and reused later. No other record's getter changes. |
| `Synthesis.RegisterCustom` | src/index.ts:137-141 | A custom function keeps the id it has. A new one gets the id numbered by the number of ids so far, distinct from all others. Nothing else in the context changes. |
| `Synthesis.Synth` | src/index.ts:29-186 | Code synthesis only extends the context: getters handed out stay fixed. `DetectCyclesNotSet` needs `detectCycles` off. Under the corrected policy every helper called is one already handed out. |
| `Synthesis.SynthNested` | src/index.ts:93-136 | Maps, sets, array-likes and one-item arrays keep the contract of `Synth` for their nested schema. |
| `Synthesis.Wrap` | src/index.ts:93-136 | The wrapper code around a nested copy allocates a new collection. It adds no helper and no call. |
| `Synthesis.SynthRecord` | src/index.ts:143-172 | A record not yet in the cycle map is registered and its fields emitted, with the same guarantees as `Synth`. |
| `Synthesis.CloseRecord` | src/index.ts:173-183 | The record's code is its field list, wrapped in its own helper exactly when its resolver was called, then guarded. Under the corrected policy, the record leaves the cycle map. |
| `Synthesis.RecordFrag` | src/index.ts:146-177 | The record helper defines its own getter, which is therefore no longer free. Its fields' helpers and calls are kept. |
| `Synthesis.SynthFields` | src/index.ts:160-170 | One emitted field per schema key, in order and under the same name. The context is threaded through the fields. |
| `Synthesis.CloneCode` | src/index.ts:193-194 | The corrected `createCloner` code calls no helper that it does not define, and ends with an empty cycle map. It throws `DetectCyclesNotSet` only when `detectCycles` is off, and without `detectCycles` it defines no helper. |
| `Synthesis.CloneCodeAsWritten` | src/index.ts:193-194 | The source's `createCloner` code, with the cycle map kept. It throws `DetectCyclesNotSet` only when `detectCycles` is off, and without `detectCycles` it defines no helper. |
| `SynthesisFacts.SynthDispatch` | src/index.ts:119-126 | A leaf schema gives its leaf code and the empty array schema gives `[]`. An array schema with several alternatives throws. A schema no branch accepts throws "unsupported schema root" (index.ts:186). |
| `SynthesisFacts.ResolveTwice` | src/index.ts:151 | A second call of a resolver returns the same getter and changes nothing. |
| `SynthesisFacts.SynthAcyclic` | src/index.ts:143-183 | On a schema without cycles, under the corrected policy, synthesis never throws the `detectCycles` error and emits no cycle helper. It leaves the cycle map as it found it. |
| `SynthesisFacts.CloneCodeAcyclic` | src/index.ts:189-198 | `createCloner` on an acyclic schema never needs `detectCycles` and emits no cycle helper. |
| `SynthesisFacts.RecordStaysAsWritten` | src/index.ts:158 | As written, a record stays in the cycle map after its code is complete. |
| `SynthesisFacts.SecondUseAsWritten` | src/index.ts:35-36 | As written, a second use of a finished record schema reaches its resolver. Without `detectCycles` it throws; with it, it emits a helper call. |
| `SynthesisFacts.SecondUseCorrected` | src/index.ts:35-36 | Under the corrected policy, a second use of a record schema in an acyclic graph needs no `detectCycles` and emits no helper, as the first use does. |
| `SynthesisFacts.SiblingsAsWritten` | src/index.ts:158-170 | As written, a record whose two keys share one record schema fails. Without `detectCycles` it throws; with it, its code calls a helper it never defines. |
| `SynthesisFacts.SharedRecordAsWritten` | src/index.ts:144-186 | `{a: P, b: P}` with `P = {x: Number}` is acyclic, yet as written it fails in the same way. |
| `SynthesisFacts.ReachErr` | src/index.ts:148-158 | Without `detectCycles`, under either policy, a schema with a path of children to a record still in the cycle map throws instead of emitting code. |
| `SynthesisFacts.FieldsReachErr` | src/index.ts:160-170 | The same for a record's fields: when one key's schema leads to a record still in the cycle map, the fields throw. |
| `SynthesisFacts.SynthOk` | src/index.ts:29-186 | With `detectCycles` on, or on an acyclic schema, the corrected synthesis succeeds exactly when no reachable schema is unsupported: neither an array schema with several alternatives nor a value no branch accepts. With `detectCycles` on, the code as written also succeeds on such schemas. |
| `SynthesisFacts.UnsupportedErr` | src/index.ts:119-186 | Any unsupported schema reachable from the root makes the corrected synthesis throw, whatever the options. |
| `SynthesisFacts.CustomRegistered` | src/index.ts:137-141 | Every custom function reachable from the root is in `customObjs` after a successful synthesis. |
| `SynthesisFacts.NoCustomRegistered` | src/index.ts:137-141 | Under either policy, a schema that reaches no custom function leaves `customObjs` empty. |
| `SynthesisFacts.SelfReachErr` | src/index.ts:148-158 | A record schema reachable from itself, the schema of any cyclic object, has no code without `detectCycles`, neither as written nor corrected. |
| `Cloner.CreateCloner` | src/index.ts:189-216 | `createCloner` with the corrected cycle map succeeds with closed code whose record keys are all identifier names. Without `detectCycles` the code defines no helper. A schema whose keys are all identifier names and that reaches no custom function never gives `SyntaxError`. `DetectCyclesNotSet` needs `detectCycles` off. |
| `Cloner.CreateClonerAsWritten` | src/index.ts:189-216 | `createCloner` as written: on success every record key is an identifier name, and without `detectCycles` no helper is defined. A schema whose keys are all identifier names and that reaches no custom function never gives `SyntaxError`. `DetectCyclesNotSet` needs `detectCycles` off. |
| `Cloner.CustomSyntaxError` | src/index.ts:202-209 | A schema that reaches a `ClonerCustomFn` has no cloner: whenever its code is synthesised, `createCloner` throws `SyntaxError`, because the prelude's `const` names the function by its source text. |
| `Cloner.CustomRoot` | src/index.ts:202-209 | `createCloner(new ClonerCustomFn(f))` throws `SyntaxError`, for every option. |
| `Cloner.SharedCreateCloner` | src/index.ts:189-216 | For `{a: P, b: P}` with `P = {x: Number}`, `createCloner` as written throws "opts.detectCycles not set" without `detectCycles`, and with it returns code calling an undefined helper. The corrected `createCloner` succeeds for every option. |
| `Cloner.KeyEmitted` | src/index.ts:160-161 | Every key of the root record schema is written into the emitted code. |
| `Cloner.BadKeySyntaxError` | src/index.ts:160-168 | A root record key that is not an identifier name makes `createCloner` throw `SyntaxError` whenever synthesis succeeds. |
| `Cloner.DashedKey` | src/index.ts:160-168 | The schema `{"a-b": Number}` has no cloner: `createCloner` throws `SyntaxError`. |
| `Runtime.Lookup` | src/index.ts:161-165 | `input.field` reads the first key of that name, or `undefined`. |
| `Runtime.Get` | src/index.ts:161-165 | A property read throws `TypeError` exactly on `null` and `undefined`, and reads the key of a record. |
| `Runtime.Eval` | src/index.ts:94-183 | Running emitted code only adds objects and `cycleObjs` entries and leaves the input heap unchanged. Allocating code returns a new object or a recorded copy. Code whose calls are all in scope never throws `ReferenceError`. |
| `Runtime.EvalLeaf` | src/index.ts:46-70 | Leaf code does not touch the heap unless it allocates. `input` returns the input itself, and leaf code never throws `ReferenceError`. |
| `Runtime.EvalMap` | src/index.ts:94-100 | The `ClonerMap` copy throws on `null` and `undefined`. It returns a new map with exactly the keys of the input. Each value is a new object or an earlier copy when the value code allocates. When the value code is `input`, each entry is one of the input's entries. |
| `Runtime.EvalSet` | src/index.ts:102-108 | The `ClonerSet` copy throws on `null` and `undefined`. It returns a new set with no more members than the input. Each member is a new object or an earlier copy when the member code allocates; when it is `input`, the copy has exactly the input's members. |
| `Runtime.EvalArray` | src/index.ts:109-130 | The array and array-like copies throw on `null` and `undefined`. They return a new array of the same length. Each element is a new object or an earlier copy when the element code allocates, and the copy equals the input's elements when it is `input`. |
| `Runtime.EvalRecord` | src/index.ts:144-171 | An object literal is a new record with one own key per emitted field, in order. A key whose code allocates holds a new object or an earlier copy; a key copied by `input.field` holds the input's value for that key. |
| `Runtime.EvalHelper` | src/index.ts:153 | A helper returns the recorded copy of an input it has entered. Otherwise it records a new empty object as the copy before copying the fields into it. |
| `Runtime.EvalWrap` | src/index.ts:173-177 | A helper expression sees its own name. It never throws `ReferenceError` when its body calls only itself and helpers in scope. |
| `Runtime.EvalCall` | src/index.ts:36 | A helper call outside the helper's body throws `ReferenceError`. Inside it, with every helper in scope calling only helpers in scope, it never does. The helper's body runs in the scope where the helper was defined. |
| `RuntimeFacts.RunCloner` | src/index.ts:195-197 | The `eval`ed cloner leaves the input heap unchanged and returns a value inside the heap. Allocating code returns a new object. Closed code never throws `ReferenceError`. |
| `RuntimeFacts.CallOutOfScope` | src/index.ts:153 | A call of a helper that is not in scope throws `ReferenceError`, whatever its input. |
| `RuntimeFacts.CallLexical` | src/index.ts:153-176 | A helper whose body calls a name that was not in scope where the helper was defined throws `ReferenceError`, even when the caller has that name in scope. |
| `RuntimeFacts.CallReuses` | src/index.ts:153 | A helper applied to an input it has already entered returns the recorded copy and changes nothing. |
| `RuntimeFacts.FieldsRef` | src/index.ts:153 | While `x` has a recorded copy, a key holding `x` that is copied by a helper call gets that copy. |
| `RuntimeFacts.HelperSelfRef` | src/index.ts:153 | A helper copying a record with a key that refers to the record itself returns a new object. The copy's key refers to the copy, not to the original. The other keys are copied as the object-literal fields say. |
| `RuntimeFacts.GuardFirst` | src/index.ts:179-181 | The `cycleObjs` guard on an input with no recorded copy runs the guarded code unchanged. |
| `RuntimeFacts.NestedRef` | src/index.ts:153-171 | A nested record copy, run while `x` has a recorded copy, is a new object. Its key that refers to `x` through a helper call holds `x`'s copy. |
| `RuntimeFacts.HelperNestedRef` | src/index.ts:153-176 | A helper copying `x`, whose first key holds a record `p` with a key referring back to `x`, returns a new object. Its first key holds a new object, not `p`, whose key refers to the copy of `x`. |
| `ClonerFacts.SelfFieldCode` | src/index.ts:148-181 | For a record schema with a key whose schema is the record itself, under either policy, the code is a guarded helper whose code for that key calls the helper. Success requires `detectCycles`. Under the corrected policy, the other keys are copied as `KeyFieldCode` says. |
| `ClonerFacts.FieldCallsOwner` | src/index.ts:148-170 | Under either policy, a key whose schema is a record still in the cycle map is copied by a call of that record's helper, and the record's resolver stays on that helper. |
| `ClonerFacts.KeyCode` | src/index.ts:35-143 | A schema outside the cycle map is copied by its leaf code when it is a leaf. It is copied by code that builds a new object when it is a record, map, set, array-like or array. |
| `ClonerFacts.KeyFieldCode` | src/index.ts:160-170 | Under the corrected policy, every key of a record whose schema is outside the cycle map is copied as `KeyCode` says, at its own position. |
| `ClonerFacts.NestedRecordCode` | src/index.ts:143-181 | A record reached while an enclosing record is in the cycle map, with a key whose schema is that enclosing record, is a guarded record copy whose key calls the enclosing record's helper. |
| `ClonerFacts.DeepFieldCode` | src/index.ts:148-181 | For `o.nest.circular = o`, under either policy: the code is the root's guarded helper. The first key is a guarded record copy whose back key calls that helper. Under the corrected policy the nested record's other keys are copied as `KeyFieldCode` says. |
| `ClonerFacts.LeafCopies` | src/index.ts:39-54 | Primitives and functions are returned as they are, and `null`/`undefined` as themselves. A Date is copied to a new Date with the same time. |
| `ClonerFacts.CircularCopy` | test/index.js:51-60 | `o.circular = o`, cloned with `detectCycles`, by the corrected code and by the code as written: the clone is a new object `c` with `c.circular === c`. With the corrected code, no run throws `ReferenceError`. Each key with a leaf schema copied as is holds `o`'s value, and each key with a composite schema, such as `nest`, holds a new object, not `o.nest`. |
| `ClonerFacts.DeepCircularCopy` | test/index.js:61-74 | `o.nest.circular = o`, cloned with `detectCycles`, by the corrected code and by the code as written: the clone is a new object `c`. `c.nest` is a new object, not `o.nest`, and `c.nest.circular === c`, not `o`. With the corrected code, no run throws `ReferenceError`, and `c.nest` keeps `o.nest`'s leaf values (`a`, `b`). |
| `ClonerFacts.EmptyRecordCopy` | test/index.js:47-49 | The copy for a record schema with no keys returns a new object with no keys, whatever the input, so `a` and every other key read `undefined` on the clone. |

## Left out

- `eval`, `createCloner`'s text assembly and the `customObjs` prelude (index.ts:195-213) are not modelled as text. `RunCloner` stands for the evaluated function. `Cloner.Compile` decides whether the text compiles: it fails on a key that is not an identifier name and on any registered custom function, whose source text cannot follow `const`.
- `Cloner.CreateCloner` is built on the corrected synthesis (`CloneCode`). The source's `createCloner` is `Cloner.CreateClonerAsWritten`, and `Cloner.SharedCreateCloner` shows where the two differ.
- `SynthesisFacts.SynthOk` states the converse for the code as written in one direction only: with `detectCycles`, supported schemas have code. The as-written synthesis also throws on an unsupported schema it reaches, but no lemma states it.
- `Cloner.IdentifierName` accepts ASCII identifier names only. JavaScript also accepts Unicode letters, and a few non-identifier keys still compile: `"a,b"` gives `a,b:input.a,b`, which is valid text with a different meaning. The model reports `SyntaxError` for every key outside its ASCII identifier names.
- `Runtime.Lookup` reads own and inherited enumerable keys of the heap object only. JavaScript also finds names on `Object.prototype`: `input.constructor` on a plain object is `Object`, where `Lookup` gives `undefined`.
- `Runtime.EvalRecord` and `RuntimeFacts.RunCloner` run any emitted code, including code whose keys would not compile. Only `Cloner.CreateCloner` models the `SyntaxError`.
- `Runtime.EvalRecord` treats a key named `__proto__` as an ordinary own key, and `Cloner.IdentifierName` accepts that name. In JavaScript the literal `{__proto__: input.__proto__}` sets the copy's prototype and creates no own key, and the read goes through the `Object.prototype` accessor.
- `Inference.Kept` and `Inference.InferFields` keep a key named `__proto__` as an ordinary field. The source's `obj[field] = …` (index.ts:279) sets the schema's prototype instead, so the source's schema lacks that key.
- `replaceAll(inputName, "input")` (index.ts:175) rewrites every occurrence of the input's text in a cyclic record's code, keys and nested names included. When a cyclic record is reached as an array element (named `x`) or a `ClonerMap`/`ClonerSet` value (named `v`), keys containing that letter are rewritten too: `next` becomes `neinputt` and `value` becomes `inputalue`. The model's helper rebinds only the input, so it copies such records where the source reads the wrong keys.
- `cycleObjs` is declared only when `detectCycles` is on (index.ts:196). The model gives every run an empty `cycleObjs`. This does not matter, because only code built with `detectCycles` reads it.
- `Math.random` cycle ids (index.ts:152) are replaced by a counter. The counter makes distinct ids certain where the source makes them likely.
- `console.warn` (index.ts:259, 261, 269) is I/O with no effect on the result.
- The naive `Map`/`Set` copies (index.ts:75-92) copy values through `JSON.parse(JSON.stringify(v))`. Their JSON round trip is host behaviour, so running them gives `NotModelled`.
- `new BigInt(x)` (index.ts:48) and `x.subarray()` (index.ts:70) are host behaviour and run as `NotModelled`. In standard JavaScript `BigInt` is not a constructor, `subarray` returns a view rather than a copy, and `ArrayBuffer` has no `subarray`.
- A custom function's call (index.ts:141) is `CustomCall` without a target. The source looks up `ctx.customObjs.get(schema)` rather than `schema.fn`, and the prelude (index.ts:206) makes the whole cloner fail to compile, so no emitted call is ever run. Running a `CustomCall` gives `NotModelled`.
- Property reads on primitives, and a record's own `map` or `forEach` key shadowing the array or collection method, give `NotModelled`.
- Synthesis requires a schema graph in which every cycle passes through a record (`RecordBroken`). On a cycle of arrays, array-likes, maps or sets alone, the source recurses without bound.
- `Runtime.Eval` and `RunCloner` take a `fuel` bound on helper calls, which stands for stack depth. `OutOfFuel` is a result the source does not have.
- `ClonerFacts.CircularCopy` requires at least one unit of fuel: with none, no helper call is possible. Its values clause is stated for the corrected code only.
- `ClonerFacts.DeepCircularCopy` is stated for a nested record under the root's first key: a key emitted earlier could enter that record into `cycleObjs` first. It requires at least one unit of fuel. Of the test's deep equality it states the leaf values copied as is and the new composite values, and only for the corrected code.
- `InferenceAsWritten.InferAW` takes a depth bound. Running out of it stands for the source's stack overflow.
- `Runtime.EvalSet` bounds the member count of the copy from above only when the member code allocates: members whose copies coincide merge, as in a JavaScript `Set`.
- Floating-point values are opaque numbers, and typed-array contents are not interpreted.
- `src/bench.ts` and `src/test.ts` are benchmarks and drivers. They are not part of this model.

## Findings

| source | as written | input that shows it | evidently intended | confidence | as-written member | corrected member |
|---|---|---|---|---|---|---|
| src/index.ts:158 | A record schema enters `ctx.cycles` and is never removed. A later, non-cyclic use of the same record schema reaches its resolver. | `createCloner({a: P, b: P})` with `P = {x: Number}`. It throws "opts.detectCycles not set". With `detectCycles`, key `b` calls `cycle<id>` outside the helper's body, which throws a `ReferenceError` when run. | Only records still being emitted count as cycles. A record leaves the map once its fields are emitted. | not executed | `SynthesisFacts.SharedRecordAsWritten` | `SynthesisFacts.CloneCodeAcyclic` |
| src/index.ts:258-263 | A non-array iterable is not entered into `ctx.cycles` before its first element is inferred. | `(function () { arguments[0] = arguments; return createCloneSchemaFrom(arguments); })({})` recurses until the stack overflows. | Register the array-like first, as arrays and objects are (index.ts:267, 276). | not executed | `InferenceAsWritten.SelfListDiverges` | `InferenceAsWritten.SelfArgumentsFixed` |
