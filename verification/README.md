# Verified models of shen-c

Two KLambda implementations live side by side in this repository: the reference-counted runtime in
`src/rc` and the older Boehm-collected one in `src/c`. Both are full of transformations and caches
that have to agree with something simple. This project writes the simple thing down next to a model
of the fast thing and proves that they agree. Where they do not, it gives the input and proves
exactly when they do. `dafny verify dfyconfig.toml` checks everything.

`rc/` models `src/rc`:

- **Evaluation plans.** `Evaluator` is the reference evaluator; `EvalPlan` is the plan language and
  its interpreter as functions; `PlanCorrect` proves the compiler correct; `PlanTally` counts what
  the compiler uses up of its fixed tables; `PlanCompiler`, `PlanInterpreter` and `PlanRuntime` are
  the imperative code: tables filled in place, frames built on demand, closures promoted in place.
  `EvalLaws` says form by form what the reference evaluator gives, `PlanLaws` the same of plans, and
  `PlanSize` which bodies always get one. The runtime around the evaluator answers as a function of
  the whole history of interactions, so equal histories mean the same calls in the same order.
- **Compile before execute.** `Publication` is the object cache on disk as a step system with crashes
  and damage, `CacheAccounting` its size bound, `LazyDefinitions` the self-replacing definitions,
  `EtaTemplate` the curried eta expansions that skip the compiler.

`c/` models `src/c`:

- **khash.** `Probing` is the number theory of triangular probing, `RoundUp` the rounding macro on
  32-bit words, `KHashTable` and `Rehash` the invariants, `KHash` the table itself, with the in-place rehash that kicks keys out of the way.
- **Lexical lookup.** `Lexical` and `ChainEvaluator` are the tree-walker with plain chain lookup,
  `LexSlots` and `LexCache` the epoch-stamped slots with their undo log, `CachedEvaluator` the
  tree-walker that uses them, `StackDepth` that fuel is only a bound, `ChainLaws` what every form
  gives.
- **Apply.** `DirectApply` is application with ordinary recursion, `Trampoline` the bounce loop over
  global variables, `Currying` the laws of partial application and of tail calls,
  `ApplyLaws` what each action of a body gives.
- **KL to three-address code.** `KlSyntax` and `KlMeaning` say what a program means, `NativeCode` is
  the generated code and its execution, `Emission` the emitter as functions, `Acceptance` the rule
  that a C function reads only what it declares. `NativeRelation`, `NativeSteps` and `EmitCorrect`
  prove the translation; `Compilable`, `AcceptedIff`, `CaptureCover` and `EmitProgram` say exactly
  when its output compiles; `Emitter` is the emitting record with its bind stack and counters.
  `KlLaws` says form by form what programs mean, `EmissionLaws` which statement a call becomes,
  `CodeLaws` how each statement of the generated code runs, and `CompiledLaws` what a compiled form therefore gives.
- **Definition-time rewriting.** `TreeWalk` is the tree-walker on lists. `TailLoop`, `LoopMeaning`,
  `LoopShape` and `LoopTest` treat the rewriting of a self tail call into `c.loop` and `c.recur`; `CallFusion`,
  `FusionRelation` and `FusionMeaning` the fusion of cons, hd and tl, `FusionMiscount` the runs that
  it miscounts, `FusionShape` that nothing is left to fuse; `WalkLaws` is what every form gives; `DefunMeaning` the two in a row. `ListCells`, `TailSurgery` and `CallSurgery` are both passes on mutable list cells.
- **The typecheck cache.** `TcText`, `TcRoundTrip` and `TcFile` are the file format, `TcParser` the
  buffer and the parser, `TcDamage` and `TcFormat` are about broken files and the bytes themselves,
  `TcReplay` is record and replay as a step system, `TcCache` its state object.

## What turned out to be false of the code

- A trap-error form inside a lambda or a freeze copies the whole scope of the emitter, so the C code
  reads temporaries of another function and does not compile. A closure under a variable named
  `lambda` or `let` can miss a capture, and captures beyond 64 are dropped. `Compilable.Usable` is
  the exact condition (`AcceptedIff.DefunAcceptedExactly`); the examples are
  `CaptureCover.TrapInClosureFails` and `CaptureCover.ShadowedLambdaFails`.
- A run of two or more `hd` (or `tl`) that ends in a call of the same function with another number of
  arguments is counted one too long: `(hd (hd (hd F X)))` becomes three heads of `(hd F X)`
  (`FusionMeaning.MiscountedRun`, `DefunMeaning.MiscountChangesResult`). It shows exactly where the
  value of the run has another head or tail. Where the call that is counted in has variables for its
  arguments, the body alone decides: the fused run is right for all machines and environments exactly
  when there is no argument at all (`FusionMiscount.MiscountedRunExactly`).
- A case of a cond that looks like a run, as in `(cond (hd (hd z)))` with a variable `hd`, is fused
  as if it were a call and then has three parts. The fused cond throws when evaluation reaches the
  first such case and otherwise does what the written one does: it is right exactly when that case
  is not reached or the written cond throws the same error after the same calls
  (`FusionMeaning.RunCaseExactly`, `DefunMeaning.CaseChangesResult`). A list of `c.loop` bindings
  that looks like a run is fused too, and the loop then always throws
  (`FusionMeaning.RunBindingsExactly`, `DefunMeaning.LoopChangesResult`); no definition is wrapped
  in such a loop. `FusionRelation.Tidy` is the guard on the code as written under which the pass is
  right (`DefunMeaning.TidyDefinitionStores`, `DefunMeaning.DefinedRunsAlike`).
- The plan compiler writes beyond its auxiliary table. It tests that the arguments of a call fit
  before it compiles the head, reserves their cells after the head may have taken them, and goes on
  filling them after it has failed: `((g x ... x) x ... x)` with 2100 arguments twice writes up to
  cell 4199 of 4096 (`PlanTally.TwiceTwoThousandIsLost`). A build does so exactly when some call
  finds after its head that its arguments do not fit, and such a build always fails, so no plan
  with a cell out of range is ever used (`PlanTally.LostExactly`).
- An eta nest with a parameter named `lambda` above another lambda is not what the evaluator makes of
  it (`EtaTemplate.LambdaParameterDiffers`).
- `kh_put` cannot take a new key when all 2^31 buckets hold live keys; it then says that the key is
  there and returns the bucket of another key, whose value the caller overwrites. This happens
  exactly in the state `KHash.Table.Stuck` (`KHash.Table.Put`, `KHash.Table.Insert`).
- An object that was not produced can be loaded. Damage to the files does that exactly when it
  replaces what the lock holder is about to use unchecked (the source while it is compiled, the
  compiler's output before it is renamed, the object between its renaming and its loading or between
  its check and its loading) or puts such an object beside the receipt for it
  (`Publication.DamageHarmsExactly`; three inputs are
  `Publication.DamageInWindowIsAccepted`, `Publication.DamageAfterCheckIsLoaded` and
  `Publication.DamagedSourceIsAccepted`). All other damage, at any time, is harmless. A failed
  request does make something acceptable: what was acceptable until its source was lost
  (`Publication.FailureRestoresAcceptance`).
- A cached lookup is wrong after `eval-kl` re-enters with the global environment inside a live frame,
  after a rewind that a jump skipped, after an error that the REPL caught, and after 2^32 frames,
  unless the slots happen to agree: `LexSlots.ReentryExactly`, `LexSlots.SkippedRewindExactly`,
  `CachedEvaluator.NextFormExactly` and `LexSlots.EnterIsFreshExactly` say exactly when. After
  `(defun f (X) (simple-error "e"))` and `(f 3)`, X means 3 in `(let Y 1 X)`
  (`CachedEvaluator.ThrowLeavesParameter`).
- The typecheck cache compares calls and nested loads with its recording one by one, but not their
  order. A process that makes a check before a nested load that came first when it was recorded is
  served the recorded verdict (`TcReplay.CheckBeforeLoadIsServed`). In the recorded order, whatever
  typecheck makes of the loads, every served verdict is right (`TcReplay.ReplayIsTrue`); in any other
  order some typecheck makes it wrong (`TcReplay.OutOfOrderCanBeFalse`).
- What a load typechecks after it has been poisoned leaves no mark in its digest, so a load inside it
  has the same cache file whatever that was (`TcReplay.PoisonedCallsAreUnseen`). Everything else that
  the source hashes is told apart (`TcReplay.SameKeyExactly`, `TcReplay.SameKeySameHistory`).
- The typecheck cache's text round trip fails for cdr chains longer than 256 conses, which are
  rejected, never misread (`TcRoundTrip.ValueIsRead`).

## Model

| member | source | states |
|---|---|---|
| PlanCorrect.PlanComputesBody | src/rc/eval_plan.h:226-284 | running a plan whose root stands for a body gives the value or error, and the same interactions in the same order, that evaluating the body in the parameter frame gives |
| PlanCorrect.MeaningPreserved | src/rc/eval_plan.h:41-108 | the same for every node, in the frames rebuilt from its lets, including let shadowing, lazily checked cond clauses and fallback nodes |
| PlanCorrect.AddressIsLookup | src/rc/eval_plan.h:31-40 | the let depth and slot that plan_local finds address exactly what environment lookup finds |
| PlanCorrect.FaithfulIsWellFormed | src/rc/eval_plan.h:24-108 | every compiled node is well formed: child numbers grow, and all table indices, depths and slots are in range |
| PlanCorrect.IfAgrees | src/rc/eval_plan.h:235-240 | an if node agrees with the if form when its parts agree |
| PlanCorrect.LetAgrees | src/rc/eval_plan.h:241-246 | a let node agrees with the let form in the chain extended by its binding |
| PlanCorrect.AndOrAgrees | src/rc/eval_plan.h:257-263 | and and or nodes agree with their forms, the boolean guard on the right operand included |
| PlanCorrect.CondAgrees | src/rc/eval_plan.h:247-256 | a cond node tests clause by clause as the cond form does, with the same errors |
| PlanCorrect.CallAgrees | src/rc/eval_plan.h:188-225 | a call node resolves its head first, evaluates operands from left to right and makes the same call, or the same shortcut for a function that returns its second argument |
| EvalLaws.AtomLaw | src/rc/eval.c:32-41 | a symbol means its innermost binding, or itself; anything else that is no list means itself |
| EvalLaws.ParameterLaw | src/rc/eval.c:42-44 | in the frame of a call every parameter means its argument, and no other name is touched |
| EvalLaws.ImproperLaw | src/rc/eval.c:45-51 | a list that is not proper is an error |
| EvalLaws.IfLaw | src/rc/eval.c:199-206 | if takes its second part where the test is true and its third where it is false, in tail position; any other test is an error |
| EvalLaws.LetLaw | src/rc/eval.c:207-221 | the body of a let sees the name as the value |
| EvalLaws.CondLaw | src/rc/eval.c:222-236 | cond takes the first clause whose test is true, looks at no clause before its turn, and rejects a test that is no boolean |
| EvalLaws.NoClauseLaw | src/rc/eval.c:222-236 | a cond without a clause left is an error |
| EvalLaws.AndLaw | src/rc/eval.c:237-247 | and stops at false; otherwise its value is the right operand's, a boolean or a deferred call with a guard, and anything else is an error |
| EvalLaws.OrLaw | src/rc/eval.c:237-247 | or is the dual |
| EvalLaws.LambdaLaw | src/rc/eval.c:248-264 | lambda makes a function of its variable over the environment where it stands |
| EvalLaws.FreezeLaw | src/rc/eval.c:248-264 | freeze makes a function of nothing |
| EvalLaws.DefunLaw | src/rc/eval.c:265-278 | defun makes a function over no environment, sets it and gives its name |
| EvalLaws.BadParameterLaw | src/rc/eval.c:61-70 | the first parameter that comes again, or that is no symbol, is an error, and nothing is made |
| EvalLaws.TrapLaw | src/rc/eval.c:279-290 | trap-error is its body unless that fails; then the handler is evaluated and given the error |
| EvalLaws.TypeLaw | src/rc/eval.c:291-294 | type is its expression |
| EvalLaws.QuoteLaw | src/rc/eval.c:295-298 | quote and c-quote give their part unevaluated |
| EvalLaws.WrongCountLaw | src/rc/eval.c:56-60 | every form rejects another number of parts before it does anything |
| EvalLaws.BinderLaw | src/rc/eval.c:207-269 | let, lambda and defun reject a binder that is no symbol |
| EvalLaws.CallLaw | src/rc/eval.c:118-178 | a call finds its function first, then evaluates its arguments from left to right, then calls |
| EvalLaws.FailedArgumentLaw | src/rc/eval.c:162-178 | the first argument that fails ends the call |
| EvalLaws.UndefinedLaw | src/rc/eval.c:118-134 | an undefined name ends a call before its arguments |
| EvalLaws.SecondLaw | src/rc/eval.c:135-160 | a tail call of a function that returns its second argument gives the second one, evaluated in tail position, after a check for pending errors and with one safepoint; if the first argument is not accepted it is the call on both |
| PlanLaws.PlanSecondLaw | src/rc/eval_plan.h:203-216 | the same of any node of a plan that stands for such a call |
| PlanLaws.PlanIfLaw | src/rc/eval_plan.h:226-273 | a node that stands for an if takes the branch that the test chooses |
| PlanLaws.PlanAndLaw | src/rc/eval_plan.h:226-273 | a node that stands for an and checks its right operand |
| PlanLaws.PlanOrLaw | src/rc/eval_plan.h:226-273 | the same of or |
| PlanCompiler.PlanBuild.constructor | src/rc/eval_plan.h:126-129 | a build starts with empty tables |
| PlanCompiler.PlanBuild.Compile | src/rc/eval_plan.h:41-108 | the tables only grow and are used up as PlanTally.Pass says; while the build has not failed and no more cells are reserved than there are, every new node stands for its expression and captured literals are proper parts or the expression itself where it is an atom or a fallback; it gives up only when a table is full or the nesting limit is reached |
| PlanCompiler.PlanBuild.Literal | src/rc/eval_plan.h:24-30 | a literal is found again or appended, and nothing else changes |
| PlanCompiler.PlanBuild.CompileOperands | src/rc/eval_plan.h:97-103 | reserves the cells of a call where the head has left off, whether or not they are there, and fills them with nodes that stand for its operands, the writes beyond the table being lost |
| PlanCompiler.PlanBuild.CompileClauses | src/rc/eval_plan.h:72-85 | reserves two cells for every clause of a cond and fills them with nodes for its test and body |
| PlanTally.PassKeeps | src/rc/eval_plan.h:41-108 | counters never go back; unless the build fails every reserved cell is paid for by a node; a write is lost only when more cells are reserved than there are; failing needs a full table or too deep a body |
| PlanTally.LostExactly | src/rc/eval_plan.h:96-103 | a build writes beyond its auxiliary table exactly when some call finds after its head that its arguments do not fit, and exactly when more cells are reserved than there are; then it fails, so the plan is not used |
| PlanTally.CallOfCallIsLost | src/rc/eval_plan.h:96-103 | a call whose head is a call, with more than 4096 arguments in all, writes beyond the table |
| PlanTally.TwiceTwoThousandIsLost | src/rc/eval_plan.h:96-103 | so does ((g x ... x) x ... x) with 2100 arguments twice |
| PlanInterpreter.Evaluate | src/rc/eval.c:181-302 | the evaluation loop computes the reference evaluation |
| PlanInterpreter.Apply | src/rc/eval.c:118-180 | application as a method computes the reference application |
| PlanInterpreter.EvaluateArguments | src/rc/eval.c:163-173 | operands are evaluated from left to right, stopping at the first error |
| PlanInterpreter.BuildFrames | src/rc/eval_plan.h:162-172 | the frames of a chain of lets are those that the evaluator would have, each built once |
| PlanInterpreter.ReadOperand | src/rc/eval_plan.h:173-187 | climbing to a binding, reading an argument, a nonlocal or a literal gives the value of the operand |
| PlanInterpreter.RunPlan | src/rc/eval_plan.h:226-274 | the loop over node numbers computes the meaning of the plan |
| PlanInterpreter.RunCall | src/rc/eval_plan.h:188-225 | a call node, with its operands read in place |
| PlanRuntime.PlanTable.Heat | src/rc/rc.c:831-841 | a body is hot at powers of two from 32 calls on, and only its own count changes |
| PlanRuntime.PlanTable.Prepare | src/rc/eval_plan.h:112-149 | a plan is handed out exactly when the body is a list, the parameters fit, the environment admits plans, and either one is kept for these parameters or the call is due and the plan compiler can make one; it is a plan of this body, captures only its proper parts, and is kept |
| PlanSize.SmallBodyIsPlanned | src/rc/eval_plan.h:112-149 | a body of a planned shape with fewer cells than a table has places, and no deeper than the limit, can be made a plan of |
| PlanSize.PlannedExactly | src/rc/eval_plan.h:41-108 | which lists are compiled and which are left to the evaluator |
| PlanSize.PassIsSmall | src/rc/eval_plan.h:24-108 | compiling uses no more nodes and literals than the expression has cells |
| PlanRuntime.PowersOfTwo | src/rc/rc.c:831-843 | the calls at which a body is hot are the powers of two |
| PlanRuntime.InterpretedClosure.constructor | src/rc/eval.c:98-117 | a closure over distinct parameters keeps its body or the plan of it |
| PlanRuntime.InterpretedClosure.Invoke | src/rc/eval.c:78-97 | whatever the table holds and whether or not the call promotes the closure, the outcome is that of evaluating the original body; the closure is promoted exactly when a plan is handed out for it |
| PlanRuntime.InterpretedClosure.RunPrepared | src/rc/eval_plan.h:275-284 | a prepared call does what evaluating the body does |
| RcValue.LookupIsWalk | src/rc/rc.c:789-797 | the filter by first letters never changes an answer |
| RcValue.AdmittedEnvHidesNoForm | src/rc/rc.c:825-827 | an environment that admits plans binds no special form name |
| RcValue.AdmitsPlansExactly | src/rc/rc.c:825-827 | plans are admitted exactly where no bound name begins with a lower-case letter |
| CacheAccounting.Cache.constructor | src/rc/native_compile.c:225-260 | a new cache has no recorded size |
| CacheAccounting.Cache.Listing | src/rc/native_compile.c:261-274 | the listing holds every entry once, older entries first |
| CacheAccounting.Cache.Prune | src/rc/native_compile.c:264-279 | removes a prefix of the oldest-first listing, no longer than it takes to come within the limit |
| CacheAccounting.Cache.Scan | src/rc/native_compile.c:289-291 | a scan adds up to the real sum of entry sizes |
| CacheAccounting.Cache.Store | src/rc/native_compile.c:280-294 | after every locked section the recorded size is within the limit and is the real sum but for what crashes have left out of it; that error stays exactly as it was until a section rescans, which is said exactly, and is then gone; without crashes the real sum is within the limit; an entry is lost only when the sum without the older ones was still too large |
| CacheAccounting.Cache.Interrupted | src/rc/native_compile.c:280-294 | a section cut short before its accounting leaves the recorded size as it was, and the error grows by exactly the change of the real sum |
| CacheAccounting.NewestGoesLast | src/rc/native_compile.c:264-279 | an entry younger than all others is removed only if it alone exceeds the limit |
| EtaTemplate.Template | src/rc/native_compile.c:433-452 | the matcher accepts exactly nests of up to 16 distinct parameters around a call of one target with those parameters in order |
| EtaTemplate.ListWidth | src/rc/native_compile.c:430-432 | list_width holds exactly for proper lists of that length |
| EtaTemplate.SpecialsAreForms | src/rc/native_compile.c:445-446 | the excluded targets are exactly the special forms of the evaluator |
| EtaTemplate.EtaCall | src/rc/native_compile.c:413-429 | a call collects one argument, or looks the target up and calls it with all of them |
| EtaTemplate.TemplateIsNest | src/rc/native_compile.c:413-452 | the template and the nest of lambdas behave alike argument by argument, each given at a time of its own, and the target is looked up with the last; where the evaluator shortens a call of two arguments to the second, value or error are the same if they are those of the call |
| EtaTemplate.PlainTemplateIsNest | src/rc/native_compile.c:413-452 | where no call of the target is shortened, template and nest do the very same, interactions included |
| EtaTemplate.LambdaParameterDiffers | src/rc/native_compile.c:433-441 | a parameter named lambda above another lambda makes the two differ |
| Publication.LoadedWasProduced | src/rc/native_compile.c:295-365 | in every run with crashes between any two steps and any damage at any time except the dangerous one, an object loaded from disk was produced by a successful compile of the requested text |
| Publication.StepIsSound | src/rc/native_compile.c:324-348 | every step keeps the object beside a receipt for it, and what is about to be published or loaded, among what was produced |
| Publication.DamageHarmsExactly | src/rc/native_compile.c:295-348 | damage of any kind in any reachable state can end in loading an object that was not produced exactly when it is dangerous, that is, when it replaces what the lock holder uses next without checking it, or puts an object that was not produced beside the receipt for it |
| Publication.FailurePublishesNothing | src/rc/native_compile.c:334-345 | any number of requests without a successful compile, crashes and harmless damage included, leave nothing acceptable and serve nothing that was not produced before |
| Publication.CheckAcceptsExactly | src/rc/native_compile.c:326-330 | a check accepts exactly the text of the key with an object and the receipt for it; what is accepted can be loaded and is not compiled, what is refused is compiled |
| Publication.AcceptedIsServed | src/rc/native_compile.c:326-329 | an accepted object is loaded |
| Publication.CompiledIsServed | src/rc/native_compile.c:330-349 | compiling ends with the compiler's output loaded and acceptable |
| Publication.UnloadableIsCompiled | src/rc/native_compile.c:326-349 | a request compiles when its files are refused, and when the accepted object cannot be loaded |
| Publication.CrashAcceptsNothingNew | src/rc/native_compile.c:334-347 | until a receipt is published, crashes and damage that forges no receipt and restores no source leave nothing acceptable but an object whose receipt was there at the start |
| Publication.FailureRestoresAcceptance | src/rc/native_compile.c:326-345 | a failed request does make an old object acceptable again whose source file was lost |
| Publication.DamageInWindowIsAccepted | src/rc/native_compile.c:346 | an object damaged between its renaming and its receipt is accepted afterwards |
| Publication.DamageAfterCheckIsLoaded | src/rc/native_compile.c:326-327 | an object damaged between its check and its loading is loaded |
| Publication.DamagedSourceIsAccepted | src/rc/native_compile.c:334-347 | an object compiled from a source damaged meanwhile becomes acceptable after a later crash |
| LazyDefinitions.Cell.constructor | src/rc/native_compile.c:382-387 | a new cell holds its definition and has not been compiled |
| LazyDefinitions.Runtime.constructor | src/rc/native_compile.c:388-391 | no symbol denotes anything at first |
| LazyDefinitions.Runtime.Define | src/rc/native_compile.c:392-409 | the symbol denotes its latest definition, and no cell is compiled by it |
| LazyDefinitions.Runtime.Close | src/rc/native_compile.c:382-387 | a closure without a name means its own lambda or freeze |
| LazyDefinitions.Runtime.Call | src/rc/native_compile.c:368-381 | the code that runs is the function's own meaning whatever its symbol means by now; every symbol goes on to denote what it did; a cell is successfully compiled at most once; there is code exactly when there was some already or the compiler makes some now, and a failure changes nothing |
| LazyDefinitions.Runtime.CallSymbol | src/rc/native_compile.c:368-381 | a call through a symbol runs its latest definition; there is code exactly when the symbol has a function that has some or gets some |
| Probing.MaskIsRemainder | src/c/khash.h:236-249 | masking with a power of two less one is the remainder |
| Probing.ProbeIsTriangular | src/c/khash.h:51-53 | the i-th bucket of a search is the hash plus i(i+1)/2, modulo the capacity |
| Probing.ProbesAreDistinct | src/c/khash.h:51-53 | the first n probes meet n different buckets |
| Probing.EveryBucketIsProbed | src/c/khash.h:51-53 | every bucket is met within n probes |
| Probing.FullCycle | src/c/khash.h:51-53 | after 2n - 1 steps the search is back where it began |
| Probing.FirstReturn | src/c/khash.h:236-249 | and for the first time, so the stopping test neither stops early nor misses the end |
| KHashTable.PowerFromIsPower | src/c/khash.h:250-256 | rounding up gives a power of two |
| RoundUp.KRoundUp | src/c/khash.h:175-177 | the macro, which smears the highest bit over the lower ones on 32-bit words, gives the least power of two, or 0 where there is none |
| KHashTable.RequestFits | src/c/khash.h:316-324 | the capacity that kh_put asks for holds all live keys below its load bound, except at the largest capacity |
| KHashTable.ProbeFindsEmpty | src/c/khash.h:236-249 | a table with an empty bucket has one on every probe path |
| KHashTable.LiveKeyIsMet | src/c/khash.h:236-249 | a live key is met on its own probe path before any empty bucket |
| KHashTable.InsertKeepsTable | src/c/khash.h:342-352 | making an unused bucket on its probe path the bucket of a new key keeps the invariant |
| KHashTable.DeleteKeepsTable | src/c/khash.h:355-361 | a tombstone keeps the invariant |
| KHashTable.FullIsLive | src/c/khash.h:313-354 | a table with as many live keys as buckets has no other bucket |
| Rehash.PlaceFree | src/c/khash.h:284-297 | putting the key in hand into a free bucket keeps the invariant of the rehash |
| Rehash.PlaceKick | src/c/khash.h:284-292 | swapping the key in hand with a key not yet moved keeps it |
| Rehash.MovedIsConsistent | src/c/khash.h:274-310 | when no key is left to move, the table is consistent without tombstones |
| KHash.Table.constructor | src/c/khash.h:218-220 | a new table stores nothing |
| KHash.Table.Get | src/c/khash.h:236-249 | finds the bucket of a present key, and says absent for any other |
| KHash.Table.Put | src/c/khash.h:313-354 | the map gains the key and loses nothing, the return code says whether it was present, and the bucket holds it, exactly unless 2^31 buckets are all live and the key is new: then the map stays, the code says present, and the bucket holds another key |
| KHash.Table.FindSlot | src/c/khash.h:325-341 | the bucket of a present key, otherwise an unused bucket on its path, a tombstone before the final empty one, otherwise the first bucket of the path of a full table |
| KHash.Table.Delete | src/c/khash.h:355-361 | the map loses exactly the key of that bucket |
| KHash.Table.Insert | src/c/khash.h:313-354 | put and store give the map with that key and value, or in that one state the map with that value at another key |
| KHash.Table.Remove | src/c/khash.h:355-361 | find and delete give the map without that key |
| KHash.Table.Resize | src/c/khash.h:250-312 | the same map, for growing, shrinking and same-size requests and for those that are too small, the size rounded up by the macro |
| KHash.Table.Rebuild | src/c/khash.h:258-310 | the same map in the new capacity, without tombstones |
| KHash.Table.MoveAll | src/c/khash.h:275-300 | every live key is moved to its place, and the loop ends |
| KHash.Table.Move | src/c/khash.h:276-299 | one key and all that it kicks out find their places |
| KHash.Table.Kick | src/c/khash.h:284-292 | the occupant of a bucket is taken out and the key in hand put there |
| Lexical.LookupWalk | src/c/environment.c:169-191 | the walk over frames finds the last binding of the innermost frame that has one |
| LexSlots.LookupAgrees | src/c/environment.c:193-206 | cached lookup is chain lookup for every symbol exactly when the slots are coherent |
| LexSlots.RewindRestores | src/c/environment.c:106-121 | rewinding restores slots, stamps and epoch exactly, whatever was bound and entered since the mark |
| LexSlots.SinceIsTransitive | src/c/environment.c:96-121 | marks nest: a mark taken later lies within an earlier one |
| LexSlots.BindIsCoherent | src/c/environment.c:131-151 | binding a slot keeps coherence with the extended chain and puts no stamp in the future |
| LexSlots.EnterIsFresh | src/c/environment.c:123-129 | a new frame is coherent with every environment |
| LexSlots.EnterIsFreshExactly | src/c/environment.c:123-129 | where the epoch wraps, it is so exactly when no slot carries epoch 1 |
| LexSlots.ReentryExactly | src/c/evaluator.c:1071-1090 | re-entry with the global environment is coherent exactly when nothing is cached |
| LexSlots.SkippedRewindExactly | src/c/evaluator.c:787-813 | after a jump that skips a rewind, lookup is right exactly when the skipped binding says what the chain says |
| LexCache.Cache.constructor | src/c/environment.c:14-22 | an empty cache is coherent with every environment |
| LexCache.Cache.Lookup | src/c/environment.c:193-206 | the arrays answer as the abstract cache does |
| LexCache.Cache.TakeMark | src/c/environment.c:96-104 | a mark is the epoch and the height of the undo log |
| LexCache.Cache.Enter | src/c/environment.c:123-129 | enters a frame of the abstract cache |
| LexCache.Cache.Bind | src/c/environment.c:131-151 | binds in the abstract cache and logs what was there |
| LexCache.Cache.RewindTo | src/c/environment.c:106-121 | the loop over the undo log is the abstract rewind |
| CachedEvaluator.Evaluate | src/c/evaluator.c:1865-1888 | evaluation with cached lookup computes the chain evaluator's result; it leaves the cache as it found it, or after an error a cache that rewinds to it, with stamps in order and no more frames counted than calls were nested |
| ChainLaws.VariableLaw | src/c/evaluator.c:1865-1888 | a variable means the value of its innermost binding, and without one the symbol |
| ChainLaws.ParameterLaw | src/c/evaluator.c:1406-1475 | in the frame of a call the last parameter of a name means its argument; no other name is touched |
| ChainLaws.ConstantLaw | src/c/evaluator.c:1865-1888 | a constant means itself |
| ChainLaws.NoRoomLaw | src/c/evaluator.c:1865-1888 | without room on the stack nothing is evaluated |
| ChainLaws.IfLaw | src/c/evaluator.c:38-63 | if takes its second part on true and its third on false |
| ChainLaws.LetLaw | src/c/evaluator.c:1024-1069 | the body of a let sees its variable as the value |
| ChainLaws.LambdaLaw | src/c/evaluator.c:987-1022 | a closure, called anywhere at any time, sees the environment in which it was made |
| ChainLaws.FreezeLaw | src/c/evaluator.c:1106-1153 | so does a frozen body |
| ChainLaws.TrapLaw | src/c/evaluator.c:1680-1720 | trap-error is its body, or the handler applied to its error: by a closure, a function or a primitive |
| ChainLaws.NamedCallLaw | src/c/evaluator.c:1406-1475 | a name with a function is called by it, bound or not, with arguments from left to right and the body over the global environment |
| ChainLaws.FailedArgumentLaw | src/c/evaluator.c:761-785 | the first argument without a value ends the call |
| ChainLaws.NoFunctionLaw | src/c/evaluator.c:1605-1660 | a head that is no function is an error before any argument |
| ChainLaws.SurplusLaw | src/c/evaluator.c:1576-1603 | a closure takes its arguments one by one |
| ChainLaws.WaitingLaw | src/c/evaluator.c:1254-1338 | a function of two parameters waits for the second one, with generated parameters that hide nothing |
| CachedEvaluator.EvaluateLet | src/c/evaluator.c:1024-1069 | let: mark, bind, body, rewind |
| CachedEvaluator.RunNamed | src/c/evaluator.c:1127-1166 | a call of a user function: mark, frame, arguments in the caller's environment, body, rewind |
| CachedEvaluator.RunClosure | src/c/evaluator.c:1533-1574 | a closure call: mark, frame, parameter, body over its own environment, rewind |
| CachedEvaluator.EvaluateTrap | src/c/evaluator.c:1680-1720 | a throw rewinds to the mark of the trap-error before its handler is evaluated |
| CachedEvaluator.TopLevelForm | src/c/repl.c:219-245 | a form of the REPL, which catches an error without rewinding: the next one starts from a coherent cache exactly when the running frame has bound no symbol |
| CachedEvaluator.NextFormExactly | src/c/repl.c:219-245 | the body of a let in that next form is coherent exactly when no symbol but its own was left behind |
| CachedEvaluator.ThrowLeavesParameter | src/c/repl.c:219-245 | a parameter of a call that threw is found by the next let, where the chain has the symbol itself |
| StackDepth.DeeperStackSameResult | src/c/evaluator.c:1865-1888 | a run that ends ends in the same way with any greater depth of stack |
| DirectApply.Dispatch | src/c/abi.c:838-890 | how deep direct application nests |
| ApplyLaws.ReturnLaw | src/c/abi.c:892-921 | code that returns ends the application |
| ApplyLaws.ThrowLaw | src/c/abi.c:892-921 | so does code that throws |
| ApplyLaws.EffectLaw | src/c/abi.c:892-921 | an effect's value is the next result |
| ApplyLaws.CallLaw | src/c/abi.c:892-921 | a call is an application of its own, and its value the next result |
| ApplyLaws.TrapLaw | src/c/abi.c:981-1024 | the handler gets the error in front of the data of the body; without a handler the error is the value |
| ApplyLaws.NativeLaw | src/c/abi.c:892-921 | an application runs the code; if that ends in a tail call it is that call |
| ApplyLaws.TailLaw | src/c/abi.c:923-934 | native code leaves a tail call pending, walked code makes it |
| ApplyLaws.SymbolLaw | src/c/abi.c:838-890 | a symbol stands for the function in the table |
| Trampoline.Context.Apply | src/c/abi.c:892-921 | shen_apply gives what direct tail calls give, restores depth and bounce variables, reaches exactly the depth that nesting needs, and goes at most k deeper than its entry for a chain of any length whose applications each nest at most k |
| Trampoline.Context.DispatchOnce | src/c/abi.c:838-890 | one dispatch ends in a value or in a pending tail call |
| Trampoline.Context.ApplySurplus | src/c/abi.c:875-889 | too many arguments: the first value is applied to the rest |
| Trampoline.Context.TrapError | src/c/abi.c:981-1024 | after a throw, depth and bounce state are those of entry when the handler runs |
| Trampoline.Context.TailApply | src/c/abi.c:923-934 | a tail call is left pending with its function and arguments |
| Currying.EnoughFuel | src/c/abi.c:892-921 | a result does not depend on how much depth is allowed |
| Currying.OneGoThenTwo | src/c/abi.c:838-890 | where f on xs ++ ys has a result, so has f on xs and its value on ys, and they agree up to the grouping of partials |
| Currying.TwoThenOneGo | src/c/abi.c:838-890 | and the other way round |
| Currying.PartialThenRest | src/c/abi.c:814-836 | a partial application given the rest is the whole application, in both directions |
| Currying.SurplusIsTwice | src/c/abi.c:875-889 | over-application is application to the right number and then to the rest |
| Currying.ChainNestsAsDeepest | src/c/abi.c:892-921 | a chain of tail calls of any length, whatever its bodies do before, nests at most k deep exactly when each of its applications does |
| Currying.TailCallsDoNotNest | src/c/abi.c:892-921 | where the tail call is all that a body does, one application is active at a time |
| EmitCorrect.CompiledCallIsMeaning | src/c/emit.c:964-1130 | a call of a compiled function never reads an undefined temporary, gives the value or error that its definition means, and leaves function cells and global variables as it would, up to closures |
| KlLaws.SymbolLaw | src/c/emit.c:224-273 | a bound name means the value of its innermost binding, any other symbol itself |
| KlLaws.IfLaw | src/c/emit.c:275-299 | if takes its second part on true and its third on false, and rejects any other test |
| KlLaws.AndLaw | src/c/emit.c:301-336 | and is false where the left is false and the right's boolean where the left is true |
| KlLaws.OrLaw | src/c/emit.c:301-336 | or is the dual |
| KlLaws.CondLaw | src/c/emit.c:338-383 | cond takes the first case whose test is true |
| KlLaws.LetLaw | src/c/emit.c:385-407 | the body of a let sees the name as the value |
| KlLaws.DoLaw | src/c/emit.c:409-425 | do evaluates both and gives the second |
| KlLaws.LambdaLaw | src/c/emit.c:474-578 | a lambda, applied anywhere at any time, gives its body with the variable as the argument, over the environment where it stood |
| KlLaws.FreezeLaw | src/c/emit.c:474-578 | a freeze gives its body |
| KlLaws.TrapLaw | src/c/emit.c:580-680 | trap-error applies its handler to the error of its body, if it has one |
| KlLaws.TypeLaw | src/c/emit.c:823-833 | type is its expression |
| KlLaws.NamedCallLaw | src/c/emit.c:719-821 | a call by a name that is neither bound nor a form evaluates its arguments from left to right and applies what the name stands for by then |
| KlLaws.FailedArgumentLaw | src/c/emit.c:719-821 | the first argument without a value ends the call |
| KlLaws.ValueCallLaw | src/c/emit.c:910-946 | a head that is bound, even to the name of a form, or that is no symbol is evaluated first |
| KlLaws.DefinedLaw | src/c/abi.c:838-890 | a defined function is its body with the parameters as the arguments |
| KlLaws.PrimitiveLaw | src/c/abi.c:838-890 | a primitive is called with the arguments |
| KlLaws.FewerArgumentsLaw | src/c/abi.c:838-890 | with too few arguments a function waits for the others |
| KlLaws.MoreArgumentsLaw | src/c/abi.c:838-890 | with too many, the others go to the value |
| KlLaws.UndefinedLaw | src/c/abi.c:838-890 | a name that stands for nothing cannot be applied |
| CompiledLaws.CompiledIf | src/c/emit.c:275-299 | a compiled function whose body is an if ends as that law says |
| CompiledLaws.CompiledAnd | src/c/emit.c:301-336 | a compiled function whose body is an and ends as that law says |
| CompiledLaws.CompiledOr | src/c/emit.c:301-336 | a compiled function whose body is an or ends as that law says |
| CompiledLaws.CompiledCond | src/c/emit.c:338-383 | a compiled function whose body is a cond ends as that law says |
| CompiledLaws.CompiledLet | src/c/emit.c:385-407 | a compiled function whose body is a let ends as that law says |
| CompiledLaws.CompiledDo | src/c/emit.c:409-425 | a compiled function whose body is a do ends as that law says |
| CompiledLaws.CompiledType | src/c/emit.c:823-833 | a compiled function whose body is a type ends as that law says |
| CompiledLaws.CompiledTrap | src/c/emit.c:580-680 | a compiled function whose body is a trap-error ends as that law says |
| CompiledLaws.CompiledPrimitive | src/c/emit.c:835-908 | a compiled function whose body calls a primitive, inlined or not, ends as that law says |
| CompiledLaws.CompiledLambda | src/c/emit.c:474-578 | the closure that a compiled lambda makes, called later, ends as its body does in the environment of the form |
| CompiledLaws.CompiledFreeze | src/c/emit.c:474-578 | the closure that a compiled freeze makes, called later, ends as its body does in the environment of the form |
| EmitCorrect.SimApply | src/c/emit.c:719-806 | applications of related values to related arguments give related results in related worlds |
| EmitCorrect.Sim | src/c/emit.c:910-962 | the statements for an expression compute its value, at every scope and fuel |
| EmitCorrect.SimIf | src/c/emit.c:275-299 | if, with both branches writing one temporary |
| EmitCorrect.SimBoth | src/c/emit.c:301-336 | and and or |
| EmitCorrect.SimCases | src/c/emit.c:338-383 | cond, and its error when no case holds |
| EmitCorrect.SimLet | src/c/emit.c:385-407 | let by aliasing the temporary of the bound value |
| EmitCorrect.SimClosure | src/c/emit.c:474-578 | lambda and freeze: the captures hold what the closure needs from its scope |
| EmitCorrect.SimTrapError | src/c/emit.c:580-673 | an outlined trap-error evaluates its handler only after a throw |
| EmitCorrect.SimSelfTail | src/c/emit.c:698-806 | a self tail call as copies and a goto is the recursive call |
| NativeSteps.SelfTailIsParallel | src/c/emit.c:734-753 | all new parameters are read before any is overwritten |
| EmitCorrect.SimInline | src/c/emit.c:835-908 | an inlined primitive is the call of it |
| EmitCorrect.PlainIsItself | src/c/emit.c:474-578 | values without closures are related to themselves only |
| CodeLaws.SequenceLaw | src/c/emit.c:910-946 | statements run one after the other until one ends the function |
| CodeLaws.IfLaw | src/c/emit.c:275-299 | the branch that the test chooses runs and leaves its result |
| CodeLaws.CheckLaw | src/c/emit.c:301-336 | a check lets booleans pass |
| CodeLaws.FailLaw | src/c/emit.c:338-383 | a failure ends the function with its error |
| CodeLaws.GotoLaw | src/c/emit.c:719-821 | a goto starts the body again with the temporaries as they are |
| CodeLaws.ValueLaw | src/c/emit.c:224-273 | constants, interned symbols and copies |
| CodeLaws.CallLaw | src/c/emit.c:719-821 | calls by name, through a value and in place store their value or end with their error |
| CodeLaws.TailCallLaw | src/c/emit.c:719-821 | a tail call leaves function and arguments pending |
| CodeLaws.BodyLaw | src/c/abi.c:892-921 | a body gives its result, makes its pending call, or starts again after a jump |
| CodeLaws.ClosureLaw | src/c/emit.c:474-578 | a closure keeps its captures and runs its function on them and the arguments |
| CodeLaws.TrapLaw | src/c/abi.c:981-1024 | the handler runs on the captures and the error after the body has thrown |
| CodeLaws.CallEntersLaw | src/c/abi.c:814-836 | a call starts with captures and arguments in the temporaries of the function |
| AcceptedIff.DefunAcceptedExactly | src/c/emit.c:964-1130 | every temporary read is defined in its own C function exactly when the source body is usable in the scope of its parameters |
| EmitProgram.NumberAll | src/c/emit.c:1163-1173 | every generated function has a number of its own |
| EmitProgram.ProgramIsBuilt | src/c/emit.c:1163-1173 | a generated program is consistent exactly when all its bodies are usable |
| EmitProgram.AcceptedProgram | src/c/emit.c:1163-1173 | a C compiler accepts the generated program exactly when all its bodies are usable |
| CaptureCover.CollectIsMentions | src/c/emit.c:422-472 | collect_free finds exactly the scope names that the body mentions outside its own binders, each once |
| CaptureCover.Cover | src/c/emit.c:422-578 | for tame bodies every free name of a closure is captured, at every nesting |
| CaptureCover.TameDefunCompiles | src/c/emit.c:964-1130 | a definition over at most 64 names, none of them lambda or let and without trap-error inside a closure, compiles |
| CaptureCover.TrapInClosureFails | src/c/emit.c:580-673 | a trap-error inside a lambda does not compile |
| CaptureCover.ShadowedLambdaFails | src/c/emit.c:422-472 | a variable named lambda hides a capture |
| Emitter.CollectFree | src/c/emit.c:422-472 | the recursive walk with a growing list is the collecting function |
| Emitter.Record.constructor | src/c/emit.c:964-985 | a record starts with the parameters bound |
| Emitter.Record.EmitExpr | src/c/emit.c:910-962 | appends exactly the specified statements and functions, counts temporaries and closures as specified, and leaves the bind stack as it was |
| EmissionLaws.InPlaceLaw | src/c/emit.c:835-908 | a call of one of the inlined primitives reads no function cell |
| EmissionLaws.NamedCallLaw | src/c/emit.c:719-821 | a tail call of the function itself is a jump, another tail call by name is left to the trampoline, and a call elsewhere is made at once |
| EmissionLaws.ValueCallLaw | src/c/emit.c:719-821 | the same of a call through a value |
| Emitter.Record.If_ | src/c/emit.c:275-299 | emit_if does what is specified for if |
| Emitter.Record.AndOr | src/c/emit.c:301-336 | emit_and_or |
| Emitter.Record.Cond | src/c/emit.c:338-383 | emit_cond |
| Emitter.Record.Let | src/c/emit.c:385-407 | emit_let pushes and pops one bind |
| Emitter.Record.LambdaOrFreeze | src/c/emit.c:474-578 | emit_lambda_or_freeze switches to a new function and back |
| Emitter.Record.Trap_ | src/c/emit.c:580-673 | emit_trap outlines body and handler and restores the record |
| Emitter.Record.ApplyNamed | src/c/emit.c:719-806 | emit_apply on a name: inline primitive, self tail call or call |
| Emitter.Record.MoveAll | src/c/emit.c:740-749 | the copies of a self tail call |
| Emitter.Record.DefunInto | src/c/emit.c:964-1130 | emit_defun_into emits the specified function and everything outlined from it |
| TailLoop.AcceptedFits | src/c/evaluator.c:169-375 | what the analysis accepts is well formed along its tail positions, and every self call there has the right number of arguments |
| LoopTest.LoopsExactly | src/c/evaluator.c:185-375 | a function becomes a loop exactly when its body is well formed, mentions it once and calls it in tail position only |
| LoopTest.ScanExactly | src/c/evaluator.c:185-355 | a scan goes on well exactly where that is so of what it meets |
| LoopShape.NoTailCallIsLeft | src/c/evaluator.c:377-426 | after the rewriting no self call is left in tail position |
| LoopMeaning.OptimisedRunsAlike | src/c/evaluator.c:494-508 | every run of a program ends in the same way, with the same calls of primitives, when accepted functions run as loops |
| LoopMeaning.RoundsRun | src/c/evaluator.c:815-879 | the rounds of the loop are the recursive calls, every new value being computed before a variable changes |
| LoopMeaning.TailAgrees | src/c/evaluator.c:377-426 | the rewritten body jumps exactly where the written one is about to enter itself, with the same arguments, and otherwise agrees |
| LoopMeaning.NextRound | src/c/environment.h:105-134 | updating the loop variables one by one gives the environment of the next call, repeated names included |
| LoopMeaning.StartOfLoop | src/c/evaluator.c:439-477 | the loop starts with the arguments of the generated parameters |
| TreeWalk.RunLoop | src/c/evaluator.c:815-879 | the loop over rounds computes their meaning |
| WalkLaws.AtomLaw | src/c/evaluator.c:1865-1888 | symbols, constants and the empty list |
| WalkLaws.IfLaw | src/c/evaluator.c:38-63 | if takes the branch that the test chooses |
| WalkLaws.AndLaw | src/c/evaluator.c:65-91 | and is false where the left is, and the right's boolean otherwise |
| WalkLaws.OrLaw | src/c/evaluator.c:93-119 | or is the dual |
| WalkLaws.CondLaw | src/c/evaluator.c:121-170 | cond takes the first case whose test is true |
| WalkLaws.LetLaw | src/c/evaluator.c:1024-1069 | the body of a let sees the name as the value |
| WalkLaws.TypeLaw | src/c/evaluator.c:1730-1739 | type is its expression |
| WalkLaws.LambdaLaw | src/c/evaluator.c:987-1022 | a lambda, called anywhere at any time, gives its body over the environment where it stood |
| WalkLaws.FreezeLaw | src/c/evaluator.c:1106-1153 | so does a freeze |
| WalkLaws.TrapLaw | src/c/evaluator.c:1680-1720 | the handler is applied to the error of the body, if it has one |
| WalkLaws.LoopLaw | src/c/evaluator.c:815-985 | a loop whose body ends in c.recur starts over with the new value |
| WalkLaws.RecurLaw | src/c/evaluator.c:787-813 | c.recur jumps with the values of its arguments |
| WalkLaws.MconsLaw | src/c/evaluator.c:1741-1767 | c.mcons of two is cons |
| WalkLaws.DefinedLaw | src/c/evaluator.c:1406-1475 | a function is its body over the global environment with the parameters as the arguments |
| WalkLaws.PrimitiveLaw | src/c/evaluator.c:1340-1404 | a primitive is called with the values, and the call remembered |
| WalkLaws.ListLaw | src/c/list.h:76-107 | cons, hd and tl; the empty list is its own head and tail |
| WalkLaws.WaitingLaw | src/c/evaluator.c:1254-1338 | a function of two parameters waits for the second one |
| WalkLaws.UndefinedLaw | src/c/evaluator.c:1477-1504 | a name that stands for nothing is an error |
| TailSurgery.ToRecurInPlace | src/c/evaluator.c:377-426 | overwrites one cell of the body, so that it reads as the rewritten expression, and says whether it did |
| TailSurgery.CasesToRecurInPlace | src/c/evaluator.c:401-413 | the same for the first case of a cond that holds a self call |
| CallFusion.HelperFuses | src/c/evaluator.c:510-711 | the recursive pass with its levels and shared counters amounts to the simple fusion, run by run |
| CallFusion.WalkFuses | src/c/evaluator.c:713-719 | the pass over a whole body is the simple fusion |
| FusionShape.FusedCompletely | src/c/evaluator.c:510-719 | after the pass no cons is the second argument of a cons and no run of hd or tl is one to be fused, at any depth |
| FusionMeaning.FusedRunsAlike | src/c/evaluator.c:510-719 | every run ends in a corresponding way with fused definitions, with the same calls of primitives; results without closures are equal |
| FusionMeaning.PartsAgree | src/c/evaluator.c:1741-1767 | c.mcons on the elements of nested cons evaluates them in the same order to the same list |
| FusionMeaning.NthValue | src/c/extension.c:3-79 | c.nth-hd and c.nth-tl take that many heads or tails |
| FusionMeaning.NestValue | src/c/evaluator.c:573-693 | so do nested calls of hd or tl |
| FusionMeaning.MiscountedRun | src/c/evaluator.c:573-693 | a run around a call of the same function with another number of arguments takes one step too many: the result is right exactly where that step changes nothing; the guard against it is Tidy |
| FusionMiscount.MiscountedRunExactly | src/c/evaluator.c:573-693 | when such a run ends in a call whose arguments are immediate and the first a variable, the fused run is right for every machine, environment and fuel exactly when the call has no argument |
| FusionMiscount.NoArgumentIsRight | src/c/evaluator.c:573-693 | a run around the bare function is miscounted without effect |
| FusionMiscount.SeveralArgumentsAreWrong | src/c/evaluator.c:573-693 | for every run around a call with several such arguments, a machine and an environment in which the fused run does something else |
| FusionMeaning.CasesUpToRun | src/c/evaluator.c:573-693 | up to the first case that looks like a run the fused cases do what the written ones do, and there they throw |
| FusionMeaning.RunCaseExactly | src/c/evaluator.c:573-693 | a fused cond with a case that looks like a run is right exactly when evaluation does not reach the first such case or would have thrown the same error after the same calls |
| FusionMeaning.RunBindingsExactly | src/c/evaluator.c:573-693 | a fused c.loop whose bindings look like a run always throws, so it is right exactly when the written one throws that at once |
| FusionMeaning.ConsBindingsThrow | src/c/evaluator.c:528-572 | a c.loop whose bindings are nested cons throws; fused, it does so exactly if the number of elements is even |
| DefunMeaning.DefinedRunsAlike | src/c/evaluator.c:721-759 | a program means the same with the definitions that eval_defun_expression stores |
| DefunMeaning.TidyDefinitionStores | src/c/evaluator.c:721-759 | the guard can be checked on the definition as written: the loop it is wrapped in is tidy too |
| DefunMeaning.MiscountChangesResult | src/c/evaluator.c:573-693 | an input where the miscounted run reads beyond its list |
| DefunMeaning.CaseChangesResult | src/c/evaluator.c:573-693 | an input where a case of a cond is fused and rejected |
| DefunMeaning.LoopChangesResult | src/c/evaluator.c:573-693 | an input where loop bindings are fused and rejected |
| CallSurgery.HelperInPlace | src/c/evaluator.c:510-711 | on mutable cells: the list object becomes the specified expression, the returned list holds the specified elements, and only its own and new cells are used |
| CallSurgery.ConsInPlace | src/c/evaluator.c:528-572 | nested cons, with the cells of the inner lists shared by what is returned |
| CallSurgery.SideInPlace | src/c/evaluator.c:573-693 | hd and tl |
| CallSurgery.FuseInPlace | src/c/evaluator.c:713-719 | afterwards the body object reads as the fused body |
| TcRoundTrip.ValueIsRead | src/c/tc_cache.c:381-440 | parsing a serialised value consumes exactly its bytes and gives it back when every cdr chain fits 256 conses, and fails otherwise |
| TcRoundTrip.AtomIsRead | src/c/tc_cache.c:539-618 | the same for atoms |
| TcRoundTrip.DecimalIsRead | src/c/tc_cache.c:467-497 | a decimal number is read back |
| TcRoundTrip.AnyDecimalIsRead | src/c/tc_cache.c:467-497 | a number beyond 64 bits is read as the nearest one within |
| TcFile.EntryIsRead | src/c/tc_cache.c:620-677 | an entry is read back, a verdict that cannot be written as absent |
| TcFile.CacheIsRead | src/c/tc_cache.c:688-844 | reading a written cache gives every entry and checkpoint back, unwritable verdicts as absent, and fails exactly when an entry does not fit |
| TcDamage.CutFileIsRejected | src/c/tc_cache.c:688-783 | a file that was cut short anywhere is not read |
| TcDamage.OtherHeaderIsRejected | src/c/tc_cache.c:688-720 | a file that does not begin with the header is not read |
| TcDamage.RestIsIgnored | src/c/tc_cache.c:688-783 | what follows a readable file makes no difference |
| TcDamage.VerdictNeedsHash | src/c/tc_cache.c:620-677 | no entry is read that has a verdict but no hash |
| TcDamage.OtherTagIsRejected | src/c/tc_cache.c:539-618 | a value with another tag is rejected |
| TcDamage.NullEndsText | src/c/tc_cache.c:539-618 | a string ends at its first null byte |
| TcFormat.FileText | src/c/tc_cache.c:785-844 | the bytes of a file, on an example |
| TcFormat.NumberText | src/c/tc_cache.c:381-446 | the bytes of numbers, on examples |
| TcFormat.NameText | src/c/tc_cache.c:381-446 | the bytes of symbols and strings, on examples |
| TcFormat.ListText | src/c/tc_cache.c:381-446 | the bytes of a list, on an example |
| TcParser.Buffer.SerializeValue | src/c/tc_cache.c:381-446 | appends the text of the value to the buffer |
| TcParser.Buffer.PutEntries | src/c/tc_cache.c:785-809 | appends the text of all entries |
| TcParser.Parser.Value | src/c/tc_cache.c:499-537 | the loop with its stack of heads parses as specified |
| TcParser.Parser.Atom | src/c/tc_cache.c:539-618 | parses an atom as specified |
| TcParser.Parser.Entries | src/c/tc_cache.c:755-761 | reads the counted entries as specified |
| TcParser.LoadRecording | src/c/tc_cache.c:688-783 | reads a whole file as specified |
| TcReplay.ServedIsTrue | src/c/tc_cache.c:963-1036 | a verdict is served only where every earlier top-level call and every finished nested load of the frame matched the recording; it is what typecheck answered after the recorded history, and what it would answer now if the order is the recorded one or loads make no difference |
| TcReplay.InOrderIsRecorded | src/c/tc_cache.c:1195-1210 | the checkpoints and hashes fix the history up to its order: the same order means the same history |
| TcReplay.OutOfOrderCanBeFalse | src/c/tc_cache.c:973-1000 | in another order some typecheck gave every recorded verdict and gives another one now |
| TcReplay.CheckBeforeLoadIsServed | src/c/tc_cache.c:1071-1218 | an input: recorded with a nested load before the check, served without it |
| TcReplay.StepIsOk | src/c/tc_cache.c:963-1036 | every step of every call and load keeps the invariant, where the history makes no difference to an entry that is taken |
| TcReplay.RunsAreOk | src/c/tc_cache.c:1071-1218 | in every state reached by such steps all answers of all running loads are those of an uncached typecheck |
| TcReplay.ReplayIsTrue | src/c/tc_cache.c:1071-1218 | so they are in every run that takes entries in the recorded order of calls and nested loads, whatever typecheck makes of the loads, and in every run at all if it makes nothing of them; typecheck may depend on everything that a load starts from |
| TcReplay.ReachedIsTrue | src/c/tc_cache.c:1071-1218 | in every state that any number of processes reach from an empty cache, one after another and each stopped anywhere, all answers of all running loads are those of an uncached typecheck |
| TcReplay.KeyTells | src/c/tc_cache.c:1127-1147 | the pieces that are hashed for a key can be read in one way only: equal keys mean equal circumstances |
| TcReplay.SameKeyExactly | src/c/tc_cache.c:1127-1147 | two loads have the same cache file exactly when chain, file, flag, counter and the files and digests of all running loads are the same |
| TcReplay.SameKeySameHistory | src/c/tc_cache.c:963-1036 | then the running loads have had the same loads and, unless poisoned, the same calls |
| TcReplay.PoisonedCallsAreUnseen | src/c/tc_cache.c:963-980 | what a poisoned load typechecks leaves no mark in the keys of the loads inside it |
| TcReplay.ReplaysExactly | src/c/tc_cache.c:1148-1180 | a load is replayed exactly when there is a file for its circumstances |
| TcReplay.EndsExactly | src/c/tc_cache.c:1183-1218 | a load that ends well extends the chain and is digested by its parent; one that throws changes neither chain nor disk |
| TcReplay.ServedExactly | src/c/tc_cache.c:963-1000 | a verdict is served exactly when the next entry is for this call and holds one; another call poisons the load |
| TcReplay.RecordThenReplay | src/c/tc_cache.c:963-1218 | a load that is recorded and loaded again in the same circumstances is served every verdict that can be served, and leaves the counter where the recording did |
| TcReplay.PoisonStays | src/c/tc_cache.c:210-214 | a step never takes poison away |
| TcReplay.PoisonIsPermanent | src/c/tc_cache.c:210-214 | over any run a poisoned load stays poisoned until it ends, is served nothing, adds nothing to its recording and saves nothing |
| TcReplay.PoisonedServesNothing | src/c/tc_cache.c:963-1036 | a poisoned frame serves nothing and saves nothing |
| TcReplay.NestedCallsPass | src/c/tc_cache.c:940-961 | calls inside a call neither consume nor add entries |
| TcReplay.GensymGoesForward | src/c/tc_cache.c:168-175 | no step takes the counter of generated symbols back |
| TcReplay.GensymNeverGoesBack | src/c/tc_cache.c:168-175 | nor does any run |
| TcReplay.LoadRestoresStack | src/c/tc_cache.c:1071-1218 | a load leaves the stack at its entry height on success and on throw, whatever ran inside |
| TcCache.TcState.constructor | src/c/tc_cache.c:62-71 | the state starts without loads |
| TcCache.TcState.Check_ | src/c/tc_cache.c:963-1017 | the beginning of a call is the specified step |
| TcCache.TcState.CheckEnds | src/c/tc_cache.c:1013-1035 | the end of a call is the specified step |
| TcCache.TcState.LoadBegins | src/c/tc_cache.c:1125-1178 | the beginning of a load is the specified step |
| TcCache.TcState.Key | src/c/tc_cache.c:1127-1147 | the loop over the running loads writes the pieces of the key |
| TcCache.TcState.LoadEnds_ | src/c/tc_cache.c:1180-1217 | the end of a load is the specified step |
| TcCache.TcState.PinForward | src/c/tc_cache.c:168-175 | the counter is moved forward, never back |

## Left out

- LoopMeaning.OptimisedRunsAlike: functions that become loops must hold no lambda or freeze and no c.loop or c.recur of their own; environments are values here, so a closure that would see a loop variable change is outside the model.
- FusionMeaning.FusedRunsAlike: bodies must be tidy (no miscounted run, no cond case and no loop bindings taken for a call; what happens otherwise is stated separately), hd, tl and cons must not be redefined, and primitives must not look into closures.
- EmitCorrect.CompiledCallIsMeaning: definitions are ordinary (`Emission.Ordinary`: no do chain without parameters, whose steps the emitter turns into functions of their own and whose value it drops, and no shen.lambda-entry), the program's own functions and the inlined primitives are not redefined during a run, primitives do not look into closures, and a call has at most 64 captures and 256 binds.
- TcCache.TcState.Check_: a typecheck that throws while no load is active is not modelled.
- EtaTemplate.TemplateIsNest: where the evaluator shortens a call of two arguments, values and errors are compared but not the interactions on the way, and the runtime's call of such a function is taken to return its second argument.
- Publication.LoadedWasProduced: the three reads of a check, and the read and the write of a publication, are one step each.
- ListCells.Together: lists are trees of cells without sharing; a body whose cells are shared with other data is not modelled.
- CacheAccounting.Cache.Store: a size file that cannot be written, and files of a key without its source file, are not modelled.
- Reference counts, collectors, allocation failure and refusal of the C stack; threads, jumps as such (a jump is a result here), fresh C stacks for generated functions, file and socket input and output, `dlopen`, running the C compiler.
- The tier hooks, strict mode and the interpreter counter of `src/rc`, foreign-context values beyond the test for them, and lists longer than the runtime can count.
- 32-bit overflow of symbol numbers, undo positions and sizes; the packing of khash flags; its load factor as a double (modelled as (77n + 50) / 100); kh_clear and kh_destroy.
- In the tree-walker models: function objects made by `function`, primitives that call back into the evaluator, nested defun and eval-kl, c.quote; in `TreeWalk` also a call whose head evaluates to a symbol of another arity (its closure evaluates the head again), and a c.recur that jumps out of a function or of a trap-error body. Such runs end in the outcome Outside.
- In the emitter: eval-kl, nested defun, toplevel forms, the text of the output and identifier printing, names over 255 characters.
- In the typecheck cache: the hash functions (collision free), statistics, damage to the file, arguments that cannot be hashed (all alike), an effect of a typecheck that throws on later ones.
- Printed expressions inside error messages, floating-point arithmetic and its comparisons.
- `c.loop` and `c.recur` over the lexical lookup cache: a jump through a let skips its rewind (`LexSlots.SkippedRewindExactly`), so the loop results are proved over chain lookup.
- The overwrites of `src/c/overwrite.c`, registration of symbols and primitives, REPL, packaging and benchmarks: plumbing, or easy members.
