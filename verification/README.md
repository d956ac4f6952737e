# Verified model of the ƒink compiler's lifting pipeline and its surrounding state machines

This project models the middle end of the ƒink compiler and the state-heavy components around it, and
proves what they promise. `dafny verify dfyconfig.toml` checks all of it. Nothing here was executed.

## The lifting pipeline

The compiler turns a CPS program with nested functions into a flat list of closed functions in four passes,
`thread_ctx`, `cont_lift`, `convert` and `hoist` (`src/passes/mod.rs`). The intermediate language is
`CpsIr`: values, bindings, functions, calls, branches, `LetRec` slots that `Set` fills, closures with capture
lists, and capture records that a lifted function unpacks.

- Each pass is a function on trees with an id counter, and also a class whose methods do what the source does
  in place (a counter, a stack of contexts, a set filled while scanning, a buffer of hoisted definitions). The
  methods are proved equal to the functions; the theorems are about the functions.
- Meaning is given by two fuel-indexed machines over the same `Machine` of values, cells, exports and an
  arbitrary runtime that answers operator calls. `EnvMachine` runs source code with environment closures;
  `LetRec` slots are cells, so a write after capture stays visible. `FlatMachine` runs converted code: a closure
  is a code name with a capture record, and slots are captured by their cells. What a body has neither bound nor
  captured it finds, if it is a slot, where code generation puts it: in the one global that holds the cell
  declared last under that id (`src/passes/wasm/lower.rs:733-752`, 1422-1450). In both machines a `LetVal` under
  the id of a slot fills the slot (lines 811-837), as every destructuring binding does.
- Well-scoped programs (`CpsIr.WellScoped`) use only what is in scope. A `LetVal` binds a new id or fills a slot
  in scope; names of functions, parameters and continuation arguments are new ids.
- Scoping, layouts and closedness are one judgement, `Typing.Typed`: every reference in a body is bound by its
  parameters, its unpacked captures or a binder inside it, the value a `Pub` exports aside; capture lists agree
  with the locals that unpack them; a local is a cell exactly when it stands for a slot; closures name code that
  is defined earlier. Its strict rules also ask that every write is certain of its cell: the cell is bound in the
  body, or the slot is declared outside every function and so has but one.

The main results compose: `LiftPipeline.PipelinePreservesMeaning`, `LiftPipeline.PipelineTyped` and
`LiftPipeline.PipelineKeepsBindersUnique` speak about all four passes on well-scoped modules.

**A condition the code does not state.** The free-variable scan does not collect the target of a `Set`
(`src/passes/closures/convert.rs:413-420`), and a `LetVal` that fills a slot is never renamed to a captured cell,
so a function may write to a slot whose cell it has not captured. The write then goes through the slot's global.
That is the right cell for a slot declared outside every function. For a slot that a function declares it is the
right cell only until that function runs again: `Reentry` exhibits a program that panics with 7 before conversion
and traps after it. The condition is `SlotUses.SlotsReached`, and it is one on the module as `thread_ctx` gets
it: every function, and every inline continuation that `cont_lift` makes one, reads each slot that it sets, or the
slot is declared outside all of them; and what it fills by a `LetVal` is declared outside all of them. Meaning is
preserved under the condition. `LiftPipeline.LiftedReaches` proves the condition equivalent to the one that
conversion needs of its own input, and the strict judgement holds of the pipeline's output if and only if it
holds; the weaker judgement holds always.

## The other components

- `LinkOrder`: the depth-first order in which the WAT linker concatenates modules, cycles included.
- `PackageUrls`, `PackageGraph`: canonical import urls, and breadth-first package discovery with its numbering.
- `SourceMapCodec`: delta coding, zig-zag, LEB128 (section 7.6 of DWARF 5) and unpadded base64url (sections 3.2
  and 5 of RFC 4648).
- `StringEscapes`: the byte loop that renders escapes, and the printer's chain of replacements, over UTF-8
  (section 3 of RFC 3629).
- `PartialApplication`, `DesugarArena`: desugaring `?` into synthetic functions, on trees and on the
  append-only arena.
- `PrattParser`: infix parsing by binding powers. `LayoutLexer`: indentation and brackets.
  `ScopeAnalysis`: name resolution with one name stack; `ScopeRules`: what is visible where and what a name then
  refers to, stated over the tree. `DebugProtocol`: the debugger's two threads.

## Where the code and its comments disagree

The model follows the code.

- `src/passes/cps/thread_ctx.rs` announces that calls of builtins stay as they are; `thread_args` prepends the
  context to every call but the module entry.
- `src/passes/closures/convert.rs` says at `Set` that the target counts as a use; the scan does not record it.
- `src/passes/wasm/lower.rs` says at `LetRec` and `Set` (lines 1423-1424 and 1453-1456) that slots which are not
  exported, and slots of function bodies, are not supported yet; every slot gets a global and both are lowered.
- `src/passes/closures/hoist.rs` speaks of source order; the walk is a post-order, which is what makes the chain
  well scoped.
- `src/passes/ast_desugar/mod.rs` says that the right side of a binding stops a hole from bubbling up. That is so
  for a binding that is a statement or stands in a group; below any other node the hole bubbles through. It
  also counts a pipe segment as a scope, but a pipe that sits directly below a node that is no scope is
  rewritten as part of that node, and its holes stay (`PartialApplication.StrayPipeKeepsHole`).
- `src/strings/mod.rs` documents one to six digits in `\u{…}`; the loop takes any number and keeps 32 bits
  (`StringEscapes.LongEscapesWrap` says exactly when that shows).
- `src/passes/wasm/compile_package.rs`: a relative import inside a package source becomes a url relative to the
  entry, never a package source (`PackageUrls.CanonicalIsStable`).

## Model

| member | source | states |
|---|---|---|
| `LiftPipeline.RunPasses` | src/passes/mod.rs:96-106 | the four passes, run one after the other over one id counter, yield the tree and the counter that the composed functions give |
| `LiftPipeline.PipelinePreservesMeaning` | src/passes/mod.rs:96-106 | for every well-scoped module (no parameter or continuation argument under a slot's id) whose functions reach the slots they fill, every runtime, context and fuel: the hoisted program run from its own function table ends as the threaded program run with environment closures, in outcome, answers, cells, exports and operator calls |
| `LiftPipeline.PipelineTyped` | src/passes/mod.rs:96-106 | for every well-scoped module the output is closed, capture lists agree with unpacked locals, slots travel as cells, closures name earlier code; every write is certain of its cell if and only if the module's functions reach the slots they fill |
| `LiftPipeline.PipelineKeepsBindersUnique` | src/passes/mod.rs:96-106 | if no id but a slot's is bound twice in a well-scoped module, none is in the output, and all lie below the final counter |
| `LiftPipeline.PipelineKeepsSlots` | src/passes/wasm/lower.rs:161-162 | the slot ids that code generation collects from the final tree are those of the module |
| `LiftPipeline.LiftedReaches` | src/passes/mod.rs:101-103 | the slots declared outside every function of the lifted program are those declared outside every function and every future function of the module, and the functions of the lifted program reach the slots they fill if and only if the module's do |
| `LiftPipeline.LiftedReady` | src/passes/mod.rs:101-103 | what `thread_ctx` and `cont_lift` make of a well-scoped module meets the preconditions of `convert`, and declares the same slots |
| `SlotUses.ThreadKeepsUses` | src/passes/cps/thread_ctx.rs:89-225 | threading keeps, for every expression, which slots it reads, sets, fills by a binding and declares, and whether each function in it reaches what it fills |
| `SlotUses.LiftKeepsUses` | src/passes/closures/cont_lift.rs:66-186 | so does lifting: a continuation that becomes a function was counted as one before |
| `SlotUses.LiftedUses` | src/passes/closures/convert.rs:126-326 | on lifted code, what is read off the tree is what conversion acts on: the slots among its free occurrences, its own writes, and the slots that some function declares |
| `SlotUses.ReachesIs` | src/passes/closures/convert.rs:149-156 | a function reaches what it fills as its captures decide it if and only if it does so by what it reads |
| `SlotsKept.ConvertAndHoistKeepSlots` | src/passes/closures/convert.rs:126-326 | the converted and hoisted program declares exactly the slots of its source |
| `LiftPipeline.ThreadedLiftSame` | src/passes/mod.rs:101-102 | lifting continuations of the threaded program keeps its meaning |
| `ThreadCtx.ThreadingOnlyInserts` | src/passes/cps/thread_ctx.rs:29-225 | erasing the inserted context parameters and arguments gives the input back exactly; in a module entered with a context and a continuation every call but a module entry passes the innermost context first and each of its inline continuations leads with one; any other program is left alone |
| `ThreadCtx.EraseThread` | src/passes/cps/thread_ctx.rs:89-166 | the erasure law for every expression, under every stack of contexts |
| `ThreadCtx.ThreadPassesInnermost` | src/passes/cps/thread_ctx.rs:189-220 | for every expression: the call of the module entry alone passes no context; every other call passes, first, the one bound most closely around it, and its inline continuations lead with a context binder |
| `ThreadCtx.ThreadingKeepsExports` | src/passes/cps/thread_ctx.rs:189-220 | a threaded module exports the names of its source, in order: an export is one the machines and code generation can carry out if and only if lowering left a name and a continuation, and it is found behind the context |
| `ThreadCtx.ThreadKeepsExports` | src/passes/wasm/lower.rs:900-950 | the same for every expression under every stack of contexts |
| `ThreadCtx.Threader.Thread` | src/passes/cps/thread_ctx.rs:89-166 | the in-place walk with its context stack and id counter computes the specified tree and leaves the stack as it was |
| `ThreadCtx.Threader.ThreadContOf` | src/passes/cps/thread_ctx.rs:168-187 | the same for continuations, which get a fresh context binder when their call passes one |
| `ThreadCtx.Threader.ThreadArgsOf` | src/passes/cps/thread_ctx.rs:189-220 | the same for argument lists, the context argument first |
| `ThreadCtx.Threader.ThreadRoot` | src/passes/cps/thread_ctx.rs:29-68 | only the module-entry shape is walked, starting from the context it binds; any other root is returned as it is |
| `ThreadCtxScope.ThreadKeepsScope` | src/passes/cps/thread_ctx.rs:89-225 | threading keeps every reference in scope |
| `ThreadCtxScope.ThreadKeepsBindersUnique` | src/passes/cps/thread_ctx.rs:29-225 | threading keeps binders unique, slots aside: it adds only fresh ones |
| `ThreadCtxScope.ThreadMakesThreaded` | src/passes/cps/thread_ctx.rs:89-187 | every function gets a context parameter of its own in front |
| `ThreadCtxScope.ThreadedIsReady` | src/passes/cps/thread_ctx.rs:29-68 | the threaded module meets the preconditions of `cont_lift` |
| `ContLift.LiftPreservesMeaning` | src/passes/closures/cont_lift.rs:51-186 | for every program with ids below the counter, runtime, context and fuel: naming inline continuations keeps outcome, answers, cells, exports and operator calls |
| `ContLift.LiftSame` | src/passes/closures/cont_lift.rs:66-118 | the same from any pair of states that agree, for every expression |
| `ContLift.RunWrap` | src/passes/closures/cont_lift.rs:138-186 | running the chain of lifted definitions makes exactly their functions, in order, and then runs the call |
| `ContLift.ReplacedArgs` | src/passes/closures/cont_lift.rs:138-186 | the arguments with continuations replaced by names evaluate to the values that the inline ones did |
| `ContLift.Lifter.Lift` | src/passes/closures/cont_lift.rs:66-118 | the in-place walk with its counter computes the specified tree |
| `ContLift.Lifter.LiftCall` | src/passes/closures/cont_lift.rs:138-186 | a call has its inline continuations moved out and the definitions folded around it by the loop |
| `ContLiftScope.LiftLeavesInline` | src/passes/closures/cont_lift.rs:36-49 | afterwards an inline continuation is an argument only of calls to `Pub`, `Panic`, `FnClosure` and `FinkModule`, at every depth |
| `ContLiftScope.LiftKeepsInline` | src/passes/closures/cont_lift.rs:36-49 | and those four keep every inline continuation they are given, with what it binds |
| `ContLiftScope.LiftKeepsScope` | src/passes/closures/cont_lift.rs:66-186 | every reference stays in scope, and the fresh names are new |
| `ContLiftScope.LiftKeepsBindersUnique` | src/passes/closures/cont_lift.rs:66-186 | binders stay unique, slots aside |
| `ContLiftScope.LiftBinders` | src/passes/closures/cont_lift.rs:66-186 | the binders of the output are those of the input and fresh ones, each once |
| `LiftToConvert.LiftKeepsThreaded` | src/passes/closures/cont_lift.rs:66-186 | functions keep their context parameters, and lifted continuations get theirs |
| `LiftToConvert.LiftKeepsSlots` | src/passes/closures/cont_lift.rs:66-186 | the `LetRec` slots of the program are the same |
| `LiftToConvert.LiftedIsReady` | src/passes/closures/cont_lift.rs:51-55 | the lifted program meets the preconditions of `convert` |
| `FreeVars.CollectIs` | src/passes/closures/convert.rs:365-457 | the scan that threads an accumulator collects the free occurrences of a tree in order of first occurrence, after what was found before |
| `FreeVars.OccInScope` | src/passes/closures/convert.rs:344-457 | in a well-scoped tree every free occurrence is in scope |
| `Captures.CapturesAreFreeVars` | src/passes/closures/convert.rs:149-156 | the captures found by scanning the already converted body, nested bodies skipped and their capture lists read instead, are the declarative free variables of the source body, transitive captures included, in first-occurrence order, each once, and all from the scope around |
| `Captures.ConvertedOcc` | src/passes/closures/convert.rs:126-326 | conversion keeps the free occurrences of a tree up to repetition |
| `Captures.BodyCaptures` | src/passes/closures/convert.rs:149-156 | the scan of a converted body finds what the source body reads, none of it fresh |
| `ConvertPass.Frees.Insert` | src/passes/closures/convert.rs:346-363 | the set keeps insertion order and no duplicates |
| `ConvertPass.Frees.Scan` | src/passes/closures/convert.rs:365-436 | the in-place scan fills the set as the specified collection does |
| `ConvertPass.Frees.ScanCaptures` | src/passes/closures/convert.rs:421-427 | a closure's captured references are scanned in order |
| `ConvertPass.Frees.ScanCont` | src/passes/closures/convert.rs:446-457 | continuations: a named one is an occurrence, an inline one binds its arguments |
| `ConvertProof.ConvertPreservesMeaning` | src/passes/closures/convert.rs:126-326 | for every well-scoped, threaded and lifted program whose functions reach the slots they fill, every runtime, context and fuel: closures as code with capture records and slot globals end as environment closures with shared cells, in outcome, answers, cells, exports and operator calls |
| `ConvertProof.EvalSame` | src/passes/closures/convert.rs:126-326 | the same from any pair of agreeing states, for every expression and every renaming |
| `ConvertProof.InvokeSame` | src/passes/closures/convert.rs:149-232 | invoking matching function values with the same arguments gives the same result |
| `ConvertProof.EntryAgrees` | src/passes/closures/convert.rs:158-213 | on entry a lifted body finds under its fresh locals, or in the globals of slots declared outside every function, what the source body finds in its environment |
| `ConvertProof.OuterAgrees` | src/passes/wasm/lower.rs:733-752 | a slot declared outside every function is found in its global by a function that has not captured it, and it is the cell that the source function has |
| `ConvertProof.AnchoredSlots` | src/passes/wasm/lower.rs:1422-1450 | a declaration of slots, which moves their globals, leaves the global of every slot declared outside every function at the one cell that every function has for it |
| `ConvertProof.LetSlotSame` | src/passes/wasm/lower.rs:811-837 | a binding under the id of a slot writes to the same cell before and after conversion |
| `ConvertProof.CapturesFit` | src/passes/closures/convert.rs:111-123 | a slot is captured by its cell into a slot local, everything else by value |
| `ConvertProof.NewSameFn` | src/passes/closures/convert.rs:215-286 | the closure built for a function matches the function |
| `ConvertProof.ForwardSame` | src/passes/closures/convert.rs:239-271 | a function handed to a named continuation is handed over by the synthesised call, with the enclosing context first |
| `ConvertProof.InlineClosureSame` | src/passes/closures/convert.rs:239-251 | a function with an inline continuation goes on as before under its closure |
| `ConvertProof.DroppedArg` | src/passes/closures/convert.rs:248-251 | the continuation arguments that conversion drops are the name itself or read by nobody |
| `Convert.RenameNothing` | src/passes/closures/convert.rs:466-591 | renaming by nothing changes nothing, so skipping it for functions without captures is sound |
| `Convert.ForwardRenamed` | src/passes/closures/convert.rs:252-270 | renaming the synthesised call is synthesising it with renamed ids |
| `ConvertTyping.ConvertedProgramTyped` | src/passes/closures/convert.rs:33-54 | every body of the converted program is closed over its parameters, unpacked captures and own binders, capture lists agree with locals, slots travel as cells, closures name earlier code; every write is certain of its cell if and only if every function reaches the slots it fills |
| `ConvertTyping.ConvertedTyped` | src/passes/closures/convert.rs:126-326 | the same for every expression in every setting of bound names |
| `ConvertTyping.StrictReaches` | src/passes/closures/convert.rs:413-420 | a converted tree whose writes are certain of their cells comes from one whose functions reach the slots they fill |
| `Definitions.ConvertedDefs` | src/passes/closures/convert.rs:228-232 | every lifted function is named by a fresh id of its own |
| `Definitions.ConvertedCovered` | src/passes/closures/convert.rs:228-293 | the table made from a converted program holds each of its functions |
| `Definitions.RenameDefinitions` | src/passes/closures/convert.rs:466-591 | renaming a body leaves the functions defined in it alone |
| `Uniqueness.ConvertKeepsBindersUnique` | src/passes/closures/convert.rs:126-326 | conversion keeps binders unique, slots aside |
| `Uniqueness.ConvertBinders` | src/passes/closures/convert.rs:126-326 | the binders of a converted tree are at most those of the source and fresh ones, each once |
| `ConvertPass.Converter.ConvertE` | src/passes/closures/convert.rs:126-326 | the in-place conversion with its counter and context stack computes the specified tree and restores the stack |
| `ConvertPass.Converter.ConvertFn` | src/passes/closures/convert.rs:134-294 | a function: its body first, then captures, locals, the lifted definition and the closure |
| `ConvertPass.Converter.MintLocals` | src/passes/closures/convert.rs:158-191 | one fresh local per capture, in order, with the kind of what it stands for |
| `ConvertPass.Converter.MintCaptures` | src/passes/closures/convert.rs:215-226 | each local paired with the reference it captures |
| `ConvertPass.Converter.LiftBody` | src/passes/closures/convert.rs:171-213 | the body renamed and preceded by the unpacking of its captures, or left alone when there are none |
| `ConvertPass.Converter.CloseOver` | src/passes/closures/convert.rs:234-293 | the definition followed by the closure and by what the function's continuation was |
| `Reentry.RootAccepted` | src/passes/closures/convert.rs:413-420 | a concrete program is accepted by `convert` though one of its functions sets a slot of the function around it without reading it |
| `Reentry.SourcePanics` | src/passes/closures/convert.rs:413-420 | with fuel for its five calls, the function runs three times, the first run's slot is filled, and its reader panics with 7 |
| `Reentry.ConvertedTraps` | src/passes/wasm/lower.rs:733-752 | with the same fuel, the converted program writes to the slot declared last, the third run's, and the first run's reader traps |
| `Hoist.HoistedShape` | src/passes/closures/hoist.rs:57-163 | the output is a chain of definitions around a root; neither the root nor any body defines a function; the chain holds each definition of the input once, in post-order, with its name, parameters and kind |
| `Hoist.HoistPreservesMeaning` | src/passes/closures/hoist.rs:38-163 | for every runtime, context and fuel the hoisted program ends as the input does |
| `Hoist.HoistKeepsTyping` | src/passes/closures/hoist.rs:57-163 | hoisting keeps bodies closed, layouts in agreement and closures behind their definitions |
| `Hoist.ClosuresNameEarlierCode` | src/passes/closures/hoist.rs:139-163 | every closure names a definition strictly earlier in the chain, and lists its captures as that definition unpacks them |
| `Hoist.ChainDefinitions` | src/passes/closures/hoist.rs:139-163 | the definitions of a chain are its links followed by those of its root |
| `Hoist.Hoister.WalkExpr` | src/passes/closures/hoist.rs:57-127 | the walk that pushes onto the shared buffer leaves the specified tree and appends the specified definitions |
| `Hoist.Hoister.WalkFn` | src/passes/closures/hoist.rs:60-80 | a function's own definitions are pushed before it |
| `Hoist.WrapWithHoisted` | src/passes/closures/hoist.rs:139-163 | the loop over the reversed buffer builds the chain, first definition outermost |
| `Hoist.HoistAll` | src/passes/closures/hoist.rs:38-45 | the whole pass |
| `HoistStrict.HoistKeepsStrictness` | src/passes/closures/hoist.rs:57-163 | every write is certain of its cell after hoisting if and only if it was before |
| `Uniqueness.HoistKeepsBindersUnique` | src/passes/closures/hoist.rs:57-163 | hoisting keeps binders unique, slots aside |
| `LinkOrder.OrderIsRight` | src/wat_linker/mod.rs:79-91 | the order lists exactly the modules reachable from the entry and the start modules, each once, an import before its importer unless it leads back to it; there is no order if and only if a needed module imports a url outside the merge set |
| `LinkOrder.VisitGood` | src/wat_linker/mod.rs:267-292 | the walk from any consistent state keeps it consistent, adds only what can be reached, and fails only on a reachable missing import |
| `LinkOrder.ImportsInTurn` | src/wat_linker/mod.rs:277-286 | of two imports of a module the later comes ahead of the earlier only if it was in the order already, an import up to the earlier leads to it, or the module imports itself |
| `LinkOrder.RootsInTurn` | src/wat_linker/mod.rs:79-91 | of the entry and the start modules by index, a later one comes ahead of an earlier one only if one up to the earlier leads to it |
| `LinkOrder.Walk.Dfs` | src/wat_linker/mod.rs:267-292 | the recursion over the two flag vectors and the order computes the specified visit and restores the stack |
| `LinkOrder.Walk.DfsImports` | src/wat_linker/mod.rs:277-286 | imports are visited in order, stopping at a missing one |
| `LinkOrder.LinkOrder` | src/wat_linker/mod.rs:79-91 | the entry first, then every start module |
| `LinkOrder.IndexOfUrl` | src/wat_linker/mod.rs:68-72 | a url stands for the last module that has it, or for none |
| `PackageUrls.NormaliseSegments` | src/passes/wasm/compile_package.rs:399-423 | the stack loop computes the normal form |
| `PackageUrls.NormaliseIsCanonical` | src/passes/wasm/compile_package.rs:399-423 | normalising is idempotent, and two urls normalise alike if and only if they lead to the same ups and downs |
| `PackageUrls.ShowRoundTrip` | src/passes/wasm/compile_package.rs:413-423 | reading back the text of a place leads to the place |
| `PackageUrls.OneMoreSegment` | src/passes/wasm/compile_package.rs:399-423 | one more segment: a name leads down and `..` after it back to where it was, an empty segment or a dot nowhere, and `..` at the top one level further up |
| `PackageUrls.CanonicaliseWalks` | src/passes/wasm/compile_package.rs:371-397 | a relative import leads where the importer's segments without its file, followed by the import's own, lead |
| `PackageUrls.OneUrlPerPlace` | src/passes/wasm/compile_package.rs:371-423 | two relative imports get one canonical url if and only if they lead to the same place |
| `PackageUrls.CanonicalIsStable` | src/passes/wasm/compile_package.rs:363-385 | canonical urls are relative and normal if and only if the import was relative, else the import itself; a relative import never becomes a package source |
| `PackageGraph.CompilePackage` | src/passes/wasm/compile_package.rs:60-169 | discovery fails only with a module that is reachable and does not load, and succeeds if and only if everything reachable loads; the errors for a number without a url or a module not compiled never occur; the result is a discovery with its numbers and fragments |
| `PackageGraph.EdgeIs` | src/passes/wasm/compile_package.rs:257-283 | a module imports another if and only if it has a relative import that leads there from its directory, or names it as a package source ending in `.fnk` |
| `PackageGraph.DiscoversReachable` | src/passes/wasm/compile_package.rs:80-150 | a discovery lists exactly the reachable modules, the entry first, each once |
| `PackageGraph.NearestFirst` | src/passes/wasm/compile_package.rs:118-150 | a module numbered no later than another is reached in no more imports |
| `PackageGraph.DiscoveryIsUnique` | src/passes/wasm/compile_package.rs:80-150 | the numbering is determined by the graph |
| `PackageGraph.Compiler.EnqueueDep` | src/passes/wasm/compile_package.rs:257-283 | only relative and package-source imports are followed; a new one gets the next number; numbers stay the positions in order of first sight, and what is queued and not compiled is the rest of that order |
| `PackageGraph.Compiler.CompileOne` | src/passes/wasm/compile_package.rs:123-149 | a module is compiled under its number and its imports are queued; the order stays what the compiled modules account for |
| `PackageGraph.Compiler.Discover` | src/passes/wasm/compile_package.rs:92-150 | the queue is worked off until every numbered module is compiled, or a reachable one does not load |
| `PackageGraph.Compiler.Ordered` | src/passes/wasm/compile_package.rs:152-169 | every number from 0 on has its url and its fragment, in order |
| `PackageGraph.Inverse` | src/passes/wasm/compile_package.rs:155-158 | turning the numbering around |
| `SourceMapCodec.UvarintRoundTrip` | src/sourcemap/native.rs:133-160 | every u64, written anywhere in a buffer, is read back, and exactly its bytes are consumed |
| `SourceMapCodec.SvarintRoundTrip` | src/sourcemap/native.rs:141-165 | the same for every i64 through zig-zag |
| `SourceMapCodec.MappingRoundTrip` | src/sourcemap/native.rs:59-107 | one delta-coded mapping is read back, a backwards range as an empty one |
| `SourceMapCodec.CodecRoundTrip` | src/sourcemap/native.rs:52-114 | decoding an encoded map gives it back if and only if no range ends before it starts, and with such ranges emptied always |
| `SourceMapCodec.Base64RoundTrip` | src/sourcemap/native.rs:174-247 | base64url decoding undoes encoding for every length |
| `SourceMapCodec.TextRoundTrip` | src/sourcemap/native.rs:118-126 | the textual format is undone layer by layer |
| `SourceMapCodec.EncodeIs` | src/sourcemap/native.rs:52-77 | what is written: the number of mappings, then each by how far its output lies behind that of the one before and its source behind the last one there was |
| `SourceMapCodec.LastStartIs` | src/sourcemap/native.rs:66-72 | that last source is of the nearest earlier mapping that has one, or zero |
| `SourceMapCodec.UvarintGroups` | src/sourcemap/native.rs:133-139 | the bytes of a number are its groups of seven bits, lowest first, as few as hold it, all but the last with the high bit |
| `SourceMapCodec.ZigZagOrder` | src/sourcemap/native.rs:141-146 | signed numbers are numbered by size, a negative one just before its opposite |
| `SourceMapCodec.LettersAre` | src/sourcemap/native.rs:174-200 | the text has, for each six bits, their letter in the alphabet of RFC 4648, and no padding |
| `SourceMapCodec.DecodesWhen` | src/sourcemap/native.rs:202-247 | a text decodes if and only if it has only letters of the alphabet and no single one over |
| `SourceMapCodec.TrailingBytes` | src/sourcemap/native.rs:109-111 | bytes behind an encoded map are refused |
| `SourceMapCodec.Sink.WriteUvarint` | src/sourcemap/native.rs:133-139 | the loop appends the specified bytes |
| `SourceMapCodec.Sink.WriteMapping` | src/sourcemap/native.rs:59-74 | the loop body appends the specified bytes |
| `SourceMapCodec.EncodeBytes` | src/sourcemap/native.rs:52-77 | the running previous positions yield the specified encoding |
| `SourceMapCodec.Cursor.TakeUvarint` | src/sourcemap/native.rs:148-160 | the cursor reads what the specification reads, errors included, and moves as far |
| `SourceMapCodec.Cursor.TakeMapping` | src/sourcemap/native.rs:88-107 | the same for one mapping |
| `SourceMapCodec.DecodeBytes` | src/sourcemap/native.rs:80-114 | the decoder's loop, trailing bytes refused |
| `SourceMapCodec.EncodeText` | src/sourcemap/native.rs:174-200 | the chunk loop computes the specified text |
| `SourceMapCodec.DecodeText` | src/sourcemap/native.rs:202-247 | the decoder's loop, bad letters and lengths refused |
| `StringEscapes.RenderUndoesPrinter` | src/passes/ast/mod.rs:559-572 | for every text, rendering what the chain of replacements writes gives the text's UTF-8 back |
| `StringEscapes.ChainOne` | src/passes/ast/mod.rs:561-571 | no later replacement touches what an earlier one put in |
| `StringEscapes.Render` | src/strings/mod.rs:28-106 | the index loop computes the specified bytes on every UTF-8 text and never indexes past the end |
| `StringEscapes.RenderEscape` | src/strings/mod.rs:33-89 | one escape: its bytes and the index after it |
| `StringEscapes.RenderUnicode` | src/strings/mod.rs:56-84 | a braced escape, or the two characters unchanged when it is malformed |
| `StringEscapes.TextFits` | src/strings/mod.rs:91-101 | in UTF-8 no byte starts a sequence that goes past the end |
| `StringEscapes.HexEscape` | src/strings/mod.rs:45-55 | two hex digits render as the byte they spell |
| `StringEscapes.UnicodeEscape` | src/strings/mod.rs:56-84 | a braced escape renders as the UTF-8 of its number modulo 2^32, as nothing if that is no character |
| `StringEscapes.LongEscapesWrap` | src/strings/mod.rs:56-84 | it renders as its number if and only if the number fits 32 bits or wraps to no character |
| `StringEscapes.ByteFromLetters` | src/strings/mod.rs:45-55 | any byte is rendered from its two hex letters, in either case |
| `StringEscapes.DigitHasLetter` | src/strings/mod.rs:203-210 | nothing but those letters is read as a digit |
| `StringEscapes.CharacterFromSpelling` | src/strings/mod.rs:56-84 | any character is rendered from the braced hex spelling of its codepoint, in either case |
| `StringEscapes.LetterEscapes` | src/strings/mod.rs:35-44 | the nine one-letter escapes with their bytes; any other letter but `x` and `u` keeps its backslash |
| `StringEscapes.MalformedHex` | src/strings/mod.rs:45-55 | a hex escape without two digits is kept as written |
| `StringEscapes.MalformedUnicode` | src/strings/mod.rs:56-84 | so is a unicode escape that is not a brace, at least one digit between separators, and a closing brace |
| `StringEscapes.LoneBackslash` | src/strings/mod.rs:32-34 | a backslash that nothing follows stays |
| `StringEscapes.EncodeCarries` | src/strings/mod.rs:75-79 | a character's bytes carry its codepoint in the shortest form of UTF-8 |
| `PartialApplication.ModuleIsDesugared` | src/passes/ast_desugar/mod.rs:754-941 | every statement keeps its outer node (a binding its pattern, a pipe its segments, a function its parameters) and a synthetic function stands around exactly the values, segments, groups and statements with a hole of their own; undoing the rewrite gives the module back; synthetic functions are numbered from zero in order, each once; every use belongs to the function that wraps its own scope; no hole is left outside patterns if and only if no pipe with a hole of its own sits below a node that is no scope |
| `PartialApplication.StmtPlaced` | src/passes/ast_desugar/mod.rs:757-883 | for every expression: what becomes of each scope and of what is in it, in one pass over source and result, with the holes of the scope turned into its parameter |
| `PartialApplication.ReplacedWithin` | src/passes/ast_desugar/mod.rs:1013-1104 | rewriting inside a scope and then replacing its holes does what that one pass says |
| `PartialApplication.AsksForHoles` | src/passes/ast_desugar/mod.rs:446-554 | the two checks of the source ask whether there is a hole at all, and whether there is one of this scope |
| `PartialApplication.StmtErased` | src/passes/ast_desugar/mod.rs:757-883 | for every expression: the rewrite only wraps scopes, names holes and strips groups |
| `PartialApplication.StmtNumbers` | src/passes/ast_desugar/mod.rs:902-941 | the synthetic functions of a scope carry exactly the numbers handed out |
| `PartialApplication.StmtScoped` | src/passes/ast_desugar/mod.rs:757-883 | no use crosses a scope boundary |
| `PartialApplication.StmtClean` | src/passes/ast_desugar/mod.rs:757-883 | a scope comes out without holes if and only if no pipe in it is astray |
| `PartialApplication.StmtHoles` | src/passes/ast_desugar/mod.rs:757-883 | a finished scope shows no hole to the scope around it |
| `PartialApplication.InnerHoles` | src/passes/ast_desugar/mod.rs:943-1009 | the check on fresh nodes, which looks into function bodies, answers as the check on the source does |
| `PartialApplication.NoDescentClean` | src/passes/ast_desugar/mod.rs:507-554 | where the descent check says there is nothing to do, there is no hole |
| `PartialApplication.StrayPipeKeepsHole` | src/passes/ast_desugar/mod.rs:861-941 | a concrete call with a piped argument keeps its hole |
| `DesugarArena.Apply` | src/passes/ast_desugar/mod.rs:51-57 | the arena only grows, every old node keeps its tree, and the returned root's tree is the one the rewrite on trees gives, of which `PartialApplication.StmtPlaced` says where functions stand |
| `DesugarArena.Desugarer.TransformStmt` | src/passes/ast_desugar/mod.rs:757-883 | the arena rewrite of a scope yields the specified tree, and a tree without holes keeps its id, the arena and the counter |
| `DesugarArena.Desugarer.TransformBody` | src/passes/ast_desugar/mod.rs:885-896 | statement lists |
| `DesugarArena.Desugarer.Transform` | src/passes/ast/transform.rs:33-96 | the rewrite inside a scope; only leaves come back as ids of the source |
| `DesugarArena.Desugarer.Rebuild` | src/passes/ast/transform.rs:112-364 | every composite node is rebuilt with its children rewritten in order |
| `DesugarArena.Desugarer.WrapIfPartial` | src/passes/ast_desugar/mod.rs:702-738 | a scope with a hole is wrapped in a function with a fresh parameter, and the two variants of the check agree wherever the source variant is used |
| `DesugarArena.Desugarer.ReplacePartial` | src/passes/ast_desugar/mod.rs:1013-1104 | the replacement on the arena yields the specified tree, and a node without a hole to replace keeps its id and the arena |
| `DesugarArena.Desugarer.AppendNode` | src/passes/ast/mod.rs:145-149 | an append adds one node under the next id |
| `DesugarArena.ViewKept` | src/passes/ast/mod.rs:205-228 | appending changes no tree that is already there |
| `PrattParser.OnlyTree` | src/passes/ast/parser.rs:908-1043 | a tree is what the parser returns if and only if it respects the binding powers, its tokens are the consumed ones, and nothing goes on where it ends |
| `PrattParser.ParseSound` | src/passes/ast/parser.rs:908-1043 | the returned tree respects the binding powers, yields exactly the consumed tokens, and stops where it must |
| `PrattParser.ParseComplete` | src/passes/ast/parser.rs:1045-1128 | parsing from any well-grouped tree goes on as parsing its tokens does |
| `PrattParser.TakesAll` | src/passes/ast/parser.rs:908-1043 | at the lowest level the whole alternation of operands and operators is taken |
| `PrattParser.TwoOperators` | src/passes/ast/parser.rs:865-889 | the tree of two operators in a row, for every pair: grouped to the left if and only if the second's left power is below the first's right power |
| `PrattParser.Ladder` | src/passes/ast/parser.rs:865-889 | the ladder of operators from `or` to `**`: of any two in a row the one on the higher step takes the operand between them, and of two on one step the first, but for `**` |
| `PrattParser.PlainIsOnLadder` | src/passes/ast/parser.rs:865-889 | the operators whose power alone decides are exactly those on the ladder |
| `PrattParser.Parser.ParseInfix` | src/passes/ast/parser.rs:908-1043 | the arena parser builds the specified tree and stops at the specified token, old nodes untouched |
| `PrattParser.Parser.ParseInfixFrom` | src/passes/ast/parser.rs:1045-1128 | the same from a left operand that is already there |
| `PrattParser.Parser.Bump` | src/passes/ast/parser.rs:193-202 | taking a token moves one on |
| `LayoutLexer.EverySource` | src/passes/ast/lexer.rs:826-1022 | for every source: the lexer opens a block and reaches the end; up to any token no more blocks were closed than opened, and all are closed at the end; a reader can follow the tokens throughout, so a bracket is closed by its own closer, and no block opened inside it is open any more |
| `LayoutLexer.NextShrinks` | src/passes/ast/lexer.rs:826-1022 | each token before the end makes the input, the pending tokens or the stacks smaller |
| `LayoutLexer.TokensBalance` | src/passes/ast/lexer.rs:826-1022 | block starts and ends balance from any state |
| `LayoutLexer.TokensRead` | src/passes/ast/lexer.rs:826-1022 | from any state and after any number of tokens a reader knows the open blocks and, for each open bracket, the blocks around it: closers match and close over no block, an error is only a closer that closes nothing, and no line goes on at a bracket's own height |
| `LayoutLexer.CloserLands` | src/passes/ast/lexer.rs:953-978 | the tokens at a closer: the ends of exactly the blocks opened inside the innermost bracket, then the bracket's close or, if it is not its own closer, an error that leaves the brackets alone |
| `LayoutLexer.EndLands` | src/passes/ast/lexer.rs:878-897 | the tokens at the end: an error for each open bracket, the end of each open block, the end of the source |
| `LayoutLexer.OtherLands` | src/passes/ast/lexer.rs:898-960 | the tokens at any other byte: none for a space, an error for a tab, an opener that remembers the open blocks, the scanner's |
| `LayoutLexer.SkipBlankLands` | src/passes/ast/lexer.rs:192-202 | only blank lines are skipped, and all of them |
| `LayoutLexer.LineLands` | src/passes/ast/lexer.rs:189-243 | the tokens at a newline: a line, after any blank ones, opens one block if it is deeper than what is open; otherwise it closes exactly the deeper blocks and goes on at its own depth, or takes the innermost deeper one over with an error; with only blank lines left, the newline goes on at depth zero or closes the innermost block; going on is not shown at the innermost bracket's own height |
| `LayoutLexer.Lexer.NextToken` | src/passes/ast/lexer.rs:826-1022 | the state machine on its fields emits the specified token and moves to the specified state; `LineLands`, `CloserLands`, `EndLands` and `OtherLands` say what the tokens are |
| `LayoutLexer.Lexer.ConsumeNewline` | src/passes/ast/lexer.rs:189-243 | the newline handling on the fields |
| `LayoutLexer.Lexer.SkipBlankLines` | src/passes/ast/lexer.rs:192-202 | the loop over blank lines |
| `ScopeRules.AnalyseModule` | src/passes/scopes/mod.rs:366-387 | the analysis with one name stack gives the references and bindings of the lexical analysis and so, as each identifier binds once, exactly the references that the rules call for, one for each name in source order |
| `ScopeRules.ModuleResolved` | src/passes/scopes/mod.rs:217-287 | every name refers to the latest visible binding of the nearest enclosing function, arm or module, at its depth; visible are all parameters or the arm's pattern, functions bound by name among its statements, a plain binding's own name in its value, earlier bindings, and in a module every statement's, a later one only from an inner scope; what is not visible is a builtin, always by one binding, or unresolved |
| `ScopeRules.Kinds` | src/passes/scopes/mod.rs:240-287 | the exact condition for `SelfRef`, `FwdRef`, `Ref` and `Unresolved` |
| `ScopeRules.NodeRight` | src/passes/scopes/mod.rs:685-800 | walking any node in any place adds one right reference for each name below it and leaves the names visible that the rules say |
| `ScopeRules.ValueRight` | src/passes/scopes/mod.rs:692-740 | the same for a binding: what it registers before its value, the value, and what it registers after it |
| `ScopeRules.BodyRight` | src/passes/scopes/mod.rs:756-775 | the same for the scope of a function or an arm |
| `ScopeRules.LookupDecides` | src/passes/scopes/mod.rs:227-242 | lookup finds the last of the nearest scope that shows the name, or no scope does |
| `ScopeAnalysis.ScanIsLookup` | src/passes/scopes/mod.rs:227-242 | scanning the stack backward finds the binding of the nearest enclosing scope that has one, and its scope tells how far up |
| `ScopeAnalysis.WithoutInner` | src/passes/scopes/mod.rs:332-334 | sweeping out a scope's names leaves the stack of its parent |
| `ScopeAnalysis.Analyser.ResolveName` | src/passes/scopes/mod.rs:227-287 | a reference is recorded with the kind, target and depth of the lexical lookup, builtins and unresolved names included |
| `ScopeAnalysis.Analyser.ScopeDepth` | src/passes/scopes/mod.rs:290-301 | the loop counts the parent links up to the binding's scope |
| `ScopeAnalysis.Analyser.FindName` | src/passes/scopes/mod.rs:227-236 | the backward loop finds the last entry of a name |
| `ScopeAnalysis.Analyser.PopScopeBinds` | src/passes/scopes/mod.rs:332-334 | the stack is what it was outside the scope |
| `ScopeAnalysis.Analyser.Walk` | src/passes/scopes/mod.rs:685-800 | walking a node does what the lexical walk does and keeps the stack the flattening of the environment |
| `ScopeAnalysis.Analyser.WalkBinding` | src/passes/scopes/mod.rs:692-740 | a binding: registered before its value where it may refer to itself, after it otherwise |
| `ScopeAnalysis.Analyser.WalkBody` | src/passes/scopes/mod.rs:587-616 | statements, functions among siblings registered up front outside the module scope |
| `DebugProtocol.EveryRun` | src/dap/mod.rs:808-897 | in every interleaving the channels hold at most one message together, stops and resumes alternate, and whenever the loop is polling or closed the client has seen exactly what its commands call for, in order; at every moment a program counter hits if and only if its first mark lies on a line last set in the file of its module |
| `DebugProtocol.HitsIs` | src/dap/mod.rs:420-436 | for any breakpoints, a program counter hits if and only if the first mark at it, in a module with a path, lies on a line that is set there |
| `DebugProtocol.ReplacedHits` | src/dap/mod.rs:972-1001 | after setting a file's lines a program counter of that file hits if and only if its mark's line is among them, and one of another file as before |
| `DebugProtocol.ReplayedBreakpoints` | src/dap/mod.rs:972-1001 | the breakpoints that hold are the lines last set in each file that carry a mark |
| `DebugProtocol.ReplayedLog` | src/dap/mod.rs:841-897 | an entry stop comes first and only if the last launch asked for it, a step leads to the very next mark, a breakpoint to a later one, and nothing follows the end |
| `DebugProtocol.CommandShows` | src/dap/mod.rs:1008-1097 | what each further command shows after what was shown before: the session begins with an entry stop or runs to the first mark on a line that is set, `Continue` runs to the next such mark and a step goes to the very next mark, all of them to the end if there is none; any other command shows nothing |
| `DebugProtocol.SameCommandsSameView` | src/dap/mod.rs:808-897 | no race shows: two runs that accepted the same commands have shown the same |
| `DebugProtocol.NeverStuck` | src/dap/mod.rs:1008-1097 | while a command is being answered one of the two threads can move |
| `DebugProtocol.StepInv` | src/dap/mod.rs:360-412 | every step of either thread keeps the invariant |
| `DebugProtocol.FirstAnswerInv` | src/dap/mod.rs:841-896 | without a stop on entry the first stop shown is the first mark with a breakpoint, whether the first mark fired before or after the mode changed |
| `DebugProtocol.AnswerInv` | src/dap/mod.rs:1008-1097 | the stop shown after `Continue` is the first later mark with a breakpoint, after a step the very next mark |
| `DebugProtocol.FirstHit` | src/dap/mod.rs:420-436 | the first position whose mark hits a breakpoint, or the end |
| `DebugProtocol.HandlerState.MarkMatchesUserBp` | src/dap/mod.rs:420-436 | the scan for the mark and its line computes whether a breakpoint is hit, which `HitsIs` explains |
| `DebugProtocol.HandlerState.Exposes` | src/dap/mod.rs:388-395 | a mark is reported when every mark stops or it hits a breakpoint |
| `DebugProtocol.HandlerState.SetBreakpoints` | src/dap/mod.rs:972-1001 | the breakpoints of the file are replaced by the lines that carry a mark, and each line is answered with whether it does |

## Left out

- Source names, origins of ids and everything the formatter prints; `origin` is kept as the id counter only, and ids are unbounded rather than 32 bits wide.
- `ThreadCtx.ThreadingOnlyInserts`: threading is stated as an insertion that can be erased, not as preservation of meaning, because the calling convention of unthreaded code is that of code generation.
- `LiftPipeline.PipelinePreservesMeaning`: goes from the condition to equal meaning only; a program that violates it keeps its meaning if the function that declares the slot never runs again between declaration and write.
- `LiftPipeline.PipelineTyped`, and all other theorems about well-scoped code: a parameter or continuation argument does not carry the id of a slot. Guarded bindings (`x > 2 = foo`) make such parameters; code generation reads every such id as a cell (`src/passes/wasm/lower.rs:765-776`), which the parameter does not hold.
- `ConvertProof.ConvertPreservesMeaning`: a function that fills a slot by a `LetVal` while the slot is declared in another function is outside the condition, whether or not it captures the slot, since that write always goes through the global.
- Expression arguments of calls (`Arg::Expr`), calls of `FnClosure` and continuations of the wrong shape trap in both machines.
- `collect_slot_ids` and `collect_bind_kinds` are functions here, not walks that fill a set or a table; the encoding of panic reasons is left out.
- Lowering, emission and linking of WebAssembly, the `.wat` runtime and the text rewriting of the WAT linker; only the order of modules is modelled.
- Loading files: a package is a finite map from canonical urls to imports, and a url outside it is one that does not load or does not compile. Paths on disk, debug marks and sources kept beside the fragments are not modelled.
- `SourceMapCodec.UvarintRoundTrip`: shifts and masks are written as arithmetic. When decoding foreign bytes, sums of positions wrap to 32 bits as in a release build; the panics of a debug build and the wrap-around of 64-bit deltas are not modelled.
- `StringEscapes.RenderUndoesPrinter`: is about the string rendering; reading a printed tree back is not.
- Desugaring of `match`, `try`, blocks and type bodies, the two rewrites before it (empty calls and implicit `pub`), and source locations.
- `PartialApplication.ModuleIsDesugared`: `Arm` nodes, which are the arms of a match and the fields of a record, are not modelled. Patterns hold no hole, as the pass's documentation demands of its input without checking it.
- Strings, comments, numbers, identifiers and operators in the lexer: an arbitrary scanner says how much each takes and which tokens follow.
- Comparison chains, `in`, `not`, ranges without an end, members and application in the Pratt parser: their rules depend on context.
- `ScopeRules.ModuleResolved`: an identifier that binds is a node of the syntax tree, so no two of them have one id; the rules are stated for such modules.
- Guards in patterns, type bodies, synthetic names and the event lists of scope analysis.
- `DebugProtocol.EveryRun`: runs have one `ConfigurationDone`, and `Next` stands for the three step commands, which the source treats alike.
- The debugger's liveness when the client disconnects while the program is stopped, and what wasmtime reports at a stop.
- Runners, the command line, diagnostics, the AST formatter and debug-mark policy: plumbing or cosmetic.
