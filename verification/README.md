# A verified model of the runtime's core

This project models, in Dafny, the parts of a Clojure-on-Go runtime whose correctness is hardest to see from the
code, and proves what they are meant to do. `dafny verify dfyconfig.toml` checks all of it.

- **Hash maps** (`Words`, `Trie*`, `HashMaps`): the hash array mapped trie with its three node kinds, as recursive
  functions on nodes, and the copying, expanding, packing and scanning loops as methods over arrays. Every reachable
  map refines a finite map from equality classes to entries. `Objects` gives values an arbitrary equivalence that
  respects a 32-bit hash; different classes may share a hash.
- **The int64 code emitter** (`Int64Source`, `GoCode`, `GoRules`, `Int64Emitter`, `Int64Simulation`, `Int64Scopes`,
  `Int64Functions`, `Int64Escapes`, `Int64Constants`, `Int64Usage`, `Int64Bindings`, `Int64Labels`, `Int64Compile`,
  `Int64Generator`): a source semantics with let, loop/recur, if, checked arithmetic and calls, a semantics of the
  generated Go with block scopes, labels, panics and `return 0, false`, the Go compiler's rules for it, the emitter as
  a function, and the generator as a class that appends lines and draws names. The generated helpers compute what the
  source computes and are well scoped and typed; exactly when they give up, and exactly when the Go compiler accepts
  them, is read off the run and off the source function.
- **The compiler passes** (`Ast`, `Optimizer`, `OptimizerGo`, `OptimizerSound`, `OptimizerPipeline`): an evaluator
  with effects, errors, Vars, goroutines, try and loops, and the four passes. The default pipeline preserves what a
  program observes, and leaves nothing for its passes to rewrite.
- **Syntax-quote** (`SyntaxQuote`): the expansion, an evaluator for it, and the instantiation that it must equal.
- **Shared state**: multimethods and their cache (`MultiFns`), namespaces with shared tables (`Namespaces`,
  `NamespaceRuns`), dynamic Var bindings (`VarBindings`, `BindingRuns`) and atoms (`Atoms`), as step systems in which
  threads interleave between atomic actions, and as classes where the code edits fields under a lock.
- **Array maps** (`ArrayMaps`, `ArrayMapBuilders`): arrays, keyword-shaped maps with bounded delta chains, the
  conversions to hash maps, the duplicate-collapsing constructor and transients.
- **Bencode** (`Bencode`, `BencodeIO`): the format of the "bencoding" section of BEP 3, The BitTorrent Protocol
  Specification, its encoder, and its reader over a connection that delivers bytes in pieces.
- **Fixed-width arithmetic** (`Int64`, `NumberOps`, `Division`, `LongRanges`).

User functions, host types, hierarchies and connections are parameters: a theorem holds for all of them. Where the
code calls a runtime service that is not part of this model (a clock, goroutine scheduling, the Go memory model), the
step systems take any interleaving of the atomic actions.

## What the proofs found

The model does what the code does. In these places that is less than its comments, its names or Clojure promise, and
a lemma gives the exact condition or a witness:

- Division of int64 numbers is wrong in two families at -2^63 (`Division.DivideExact`, `Division.WrongAtMin`).
- `LongRange.Next` is right for upward ranges that do not end at the top of int64, and for downward ranges only in
  a special case (`LongRanges.NextIsCorrect`, `LongRanges.DownwardCounterexample`); `ReduceInit` likewise.
- `MultiFn.findBestMethod` can report ambiguity although one method dominates all others, depending on the order of
  the method table (`MultiFns.SucceedsIffPrefixesHaveTops`, `MultiFns.OrderMatters`).
- `Atom.CompareAndSet` can answer false although the atom held the expected value throughout
  (`Atoms.SpuriousFailure`).
- `PushThreadBindings` with a Var that is not dynamic panics with the frame already pushed and the entries before it
  bound: it binds everything exactly if every Var is dynamic (`BindingRuns.PushBindsAllIfDynamic`,
  `BindingRuns.PanicLeavesPartialFrame`).
- Generated symbols restart their count in every syntax-quote, so two quotes share the symbol of a name exactly if it
  has the same number in both (`SyntaxQuote.GensymsCollide`, `SyntaxQuote.GensymsRepeatAcrossQuotes`).
- `(go (:k m))` and other `go` forms whose call a pass lowers fail after optimisation, and exactly these do
  (`OptimizerPipeline.GoFailsIfLowered`, `OptimizerPipeline.GoKeywordExample`); the soundness theorems assume
  `GoSafe`, which is read off the program before any pass.
- A literal zero divisor, an unchecked operation that overflows on literals, and an unused binding make the int64
  emitter write a helper that does not compile; if the callee list names just the other functions that are called,
  nothing else does (`Int64Compile.HelperCompiles`, `Int64Compile.ZeroDivisorRejected`,
  `Int64Compile.ConstantOverflowRejected`, `Int64Compile.UnusedBindingRejected`).
- A transient of a keyword-shaped map that loses its only key and then gets another edits the one empty map that the
  whole program shares (`ArrayMapBuilders.EmptyMapKept`, `ArrayMapBuilders.SharedEmptyMapEdited`).
- Removing the last leaf of a bitmap node leaves an empty bitmap node in the trie. The invariant allows it and the
  walk skips it.

## Model

| member | source | states |
|---|---|---|
| HashMaps.RunRefines | pkg/lang/persistenthashmap.go:124-182 | after any run of assoc and dissoc the map is the finite map built by the same run: same entries (the first key object of a class, the last value), same count, same answer for every key |
| HashMaps.AssocRefines | pkg/lang/persistenthashmap.go:124-147 | assoc changes the entry of one equality class, keeps an old key object, and changes nothing else |
| HashMaps.WithoutRefines | pkg/lang/persistenthashmap.go:153-167 | dissoc deletes one equality class and changes nothing else |
| HashMaps.EntryAtRefines | pkg/lang/persistenthashmap.go:169-180 | lookup of any key is lookup of its class in the abstract map |
| HashMaps.CountRefines | pkg/lang/persistenthashmap.go:182-184 | the stored count is the size of the domain |
| HashMaps.Assoc | pkg/lang/persistenthashmap.go:124-147 | keeps the structural invariant and the count of a map |
| HashMaps.Without | pkg/lang/persistenthashmap.go:153-167 | keeps the structural invariant and the count of a map |
| HashMaps.FindKeywordAgrees | pkg/lang/persistenthashmap.go:755-803 | the keyword lookup returns exactly what the generic find returns, in every node kind |
| HashMaps.ValAtKeywordAgrees | pkg/lang/persistenthashmap.go:208-215 | keyword lookup with a default is generic lookup with that default |
| HashMaps.Walk | pkg/lang/persistenthashmap.go:217-246 | following Seq and Next visits every entry of the map exactly once and stops after exactly count entries, also where removals left empty subtrees |
| TrieLaws.AssocFind | pkg/lang/persistenthashmap.go:297-367 | after assoc in any node, find answers the new entry for every equal key and the old answer for every other key; addedLeaf is set exactly when the key was absent |
| TrieLaws.WithoutFind | pkg/lang/persistenthashmap.go:369-403 | after without in any node, find answers nothing for every equal key and the old answer for every other key |
| TrieLaws.CreateNodeFind | pkg/lang/persistenthashmap.go:972-983 | the node made for two leaves finds exactly those two entries, whether their hashes are equal or part later |
| TrieLaws.FindWrapper | pkg/lang/persistenthashmap.go:716-726 | the bitmap node wrapped around a collision node finds what the collision node found |
| TrieOps.Assoc | pkg/lang/persistenthashmap.go:297-367 | every node kind: the result satisfies the structural invariant at the same place in the trie |
| TrieOps.AssocBitmap | pkg/lang/persistenthashmap.go:297-367 | the bitmap case keeps the invariant: array length, ranks, hash paths, widths |
| TrieOps.AddPair | pkg/lang/persistenthashmap.go:328-366 | adding a pair keeps the invariant through expansion at sixteen entries |
| TrieOps.AssocArray | pkg/lang/persistenthashmap.go:593-611 | the array case keeps the invariant, in particular that count is the number of used slots |
| TrieOps.AssocCollision | pkg/lang/persistenthashmap.go:696-726 | the collision case keeps the invariant, and wrapping terminates because the hashes part in an unread chunk |
| TrieOps.CreateNode | pkg/lang/persistenthashmap.go:972-983 | terminates and makes a node that satisfies the invariant for any two unequal keys on the same path |
| TrieOps.Without | pkg/lang/persistenthashmap.go:369-403 | what is left satisfies the invariant, in every node kind |
| TrieOps.WithoutBitmap | pkg/lang/persistenthashmap.go:369-403 | what is left of a bitmap node satisfies the invariant, empty bitmap nodes included |
| TrieOps.WithoutArray | pkg/lang/persistenthashmap.go:613-638 | what is left of an array node satisfies the invariant through packing at eight |
| TrieOps.FindIndex | pkg/lang/persistenthashmap.go:681-688 | the loop returns twice the number of the entry with an equal key, or -1 |
| Trie.DifferentHashesPart | pkg/lang/persistenthashmap.go:936-946 | two different hashes on the same path differ in one of the seven chunks, so the path is at most six chunks long |
| Words.BitCountLoop | pkg/lang/persistenthashmap.go:927-934 | the clearing loop counts the set bits |
| Words.IndexIsRank | pkg/lang/persistenthashmap.go:287-289 | the population count of the lower bits is the rank of the bit |
| Trie.RemovePairLoop | pkg/lang/persistenthashmap.go:985-994 | the copying loops give the array without one pair |
| Trie.InsertPairLoop | pkg/lang/persistenthashmap.go:351-364 | the copying loops give the array with one more pair |
| TrieCells.ExpandLoop | pkg/lang/persistenthashmap.go:331-349 | the expansion loop fills one slot per set bit, with subnodes kept and leaves pushed down |
| TrieCells.PackLoop | pkg/lang/persistenthashmap.go:653-676 | the packing loops never overrun an array sized by the stored count, and give the packed node |
| TrieCells.PackCells | pkg/lang/persistenthashmap.go:653-676 | the packed node holds at every position what the array node held, except the removed one |
| TrieEntries.AssocLength | pkg/lang/persistenthashmap.go:297-367 | the entry list grows by one exactly when addedLeaf is set |
| TrieEntries.WithoutLength | pkg/lang/persistenthashmap.go:369-403 | a changed node has exactly one entry less |
| TrieEntries.EntryFound | pkg/lang/persistenthashmap.go:405-420 | every entry of the trie is found, from its node, under every equal key |
| TrieEntries.EntriesDistinct | pkg/lang/persistenthashmap.go:422-456 | no two entries of a trie have equal keys |
| TrieSeq.NodeSeqWalks | pkg/lang/persistenthashmap.go:422-456 | the first step of the nested walk stands at the first entry and has all entries before it, or is nil when there are none |
| TrieSeq.StepWalks | pkg/lang/persistenthashmap.go:503-519 | First is the next entry and Next walks exactly the rest |
| TrieSeq.NewNodeSeqLoop | pkg/lang/persistenthashmap.go:429-456 | the scanning loop over a pair array starts the walk at the first entry at or after an index |
| TrieSeq.NewArrayNodeSeqLoop | pkg/lang/persistenthashmap.go:805-826 | the scanning loop over a slot array starts the walk at the first non-empty slot |
| Int64Functions.HelperCorrect | pkg/runtime/codegen_int64.go:84-176 | a helper returns (v, true) only if the body evaluates to v, returns v or gives up where the body has a value, panics or diverges only where the body does, and its code is well scoped and well typed |
| Int64Escapes.GivesUpOnGuards | pkg/runtime/codegen_int64.go:99-143 | a helper returns (0, false) if and only if its run, through any calls and loops, reaches the test of a Var that has been redefined or a range test on a value outside it |
| Int64Escapes.HelperIsExact | pkg/runtime/codegen_int64.go:99-143 | a helper returns (v, true) if and only if the body evaluates to v and the run reaches no such guard |
| Int64Escapes.EscapesByGuards | pkg/runtime/codegen_int64.go:178-354 | over any emitted statement: every way out with false is a guard that catches something, or follows a call that gave up |
| Int64Escapes.SteadyHelperIsExact | pkg/runtime/codegen_int64.go:99-143 | where every Var is current and nothing is range tested, a helper never gives up, and it returns v exactly when the body evaluates to v |
| Int64Compile.HelperCompiles | pkg/runtime/codegen_int64.go:84-176 | go build accepts a generated helper if and only if no unchecked operation on literals overflows, no literal divisor is zero, every binding and every listed callee is used; and no name is ever declared twice |
| Int64Compile.ZeroDivisorRejected | pkg/runtime/codegen_int64.go:419-422 | (fn [x] (quot x 0)) becomes code that go build rejects |
| Int64Compile.ConstantOverflowRejected | pkg/runtime/codegen_int64.go:366-396 | (fn [] (unchecked-inc 9223372036854775807)) becomes code that go build rejects |
| Int64Compile.UnusedBindingRejected | pkg/runtime/codegen_int64.go:228-254 | (fn [x] (let [a x] 5)) becomes code that go build rejects |
| Int64Constants.EmitsConstants | pkg/runtime/codegen_int64.go:178-226 | the constants of the emitted code are in order exactly if the literals of the expression are |
| Int64Bindings.EmitMentions | pkg/runtime/codegen_int64.go:178-226 | an older Go variable is read by the emitted code exactly if what it stands for (a local that is not shadowed, or a callee) is mentioned by the expression |
| Int64Bindings.EmitUsed | pkg/runtime/codegen_int64.go:178-226 | every variable that the emitted code declares is read exactly if every binding of the expression is used |
| Int64Labels.EmitTidy | pkg/runtime/codegen_int64.go:256-354 | every label is jumped to, and every variable of the emitted code is declared once |
| Int64Functions.WrapperPreservesValues | pkg/runtime/codegen_int64.go:145-176 | trying the helper first and falling through to the generic body has the value of the generic body, for any arguments |
| Int64Functions.ReturnsTheValue | pkg/runtime/codegen_int64.go:84-176 | whatever a specialised function returns is the one value of the body |
| Int64Functions.FindsTheValue | pkg/runtime/codegen_int64.go:84-176 | if the body has a value, the specialised function returns one |
| Int64Functions.MoreFuel | pkg/runtime/codegen_int64.go:178-226 | an outcome of the source semantics does not change with more fuel, so that fuel is only a bound |
| Int64Scopes.HelperIsWellScoped | pkg/runtime/codegen_int64.go:84-176 | in every generated helper each variable and label is in scope and of the right type where it is used |
| Int64Simulation.UnaryAgrees | pkg/runtime/codegen_int64.go:366-396 | the Go expression for a one-argument operation has the value of the operation, or panics exactly where it overflows |
| Int64Simulation.BinaryAgrees | pkg/runtime/codegen_int64.go:397-433 | the Go expression for a two-argument operation has the value of the operation, or panics where it overflows or divides by zero, whichever operand Go evaluates first |
| Int64Simulation.SimHelper | pkg/runtime/codegen_int64.go:99-143 | running a helper simulates its body: parameters, guards, callees, result |
| Int64Simulation.SimExpr | pkg/runtime/codegen_int64.go:178-226 | the statements and the Go expression emitted for any typed expression compute its value or give up, and leave older variables alone |
| Int64Simulation.SimLet | pkg/runtime/codegen_int64.go:228-254 | let: every binding sees the ones before it, the result leaves the block |
| Int64Simulation.SimIf | pkg/runtime/codegen_int64.go:201-217 | if: exactly one branch runs, into the result variable |
| Int64Simulation.SimCall | pkg/runtime/codegen_int64.go:437-472 | a call of another helper or of itself, behind the root version test, returns the value of the call or gives up |
| Int64Simulation.SimTail | pkg/runtime/codegen_int64.go:299-354 | tail code goes round with the recurred values or leaves with the value |
| Int64Simulation.SimFor | pkg/runtime/codegen_int64.go:256-288 | the labelled loop computes what loop/recur computes, round after round |
| Int64Simulation.SimAssignAll | pkg/runtime/codegen_int64.go:309-320 | assigning from temporaries rebinds all loop variables at once |
| Int64Simulation.Rebind | pkg/runtime/codegen_int64.go:264-284 | after the assignments the environment of the next round matches the Go variables |
| Int64Escapes.QuietHelper | pkg/runtime/codegen_int64.go:437-472 | code without range tests, run where all tested Vars are current, reaches no guard that catches anything |
| Int64Generator.Generator.GenerateHelper | pkg/runtime/codegen_int64.go:99-143 | the generator appends exactly the lines of the emitted helper and takes its temporaries from the counter |
| Int64Generator.Generator.EmitExpr | pkg/runtime/codegen_int64.go:178-226 | appends exactly the emitted statements, returns the emitted expression, and draws fresh names in order |
| Int64Generator.Generator.EmitLet | pkg/runtime/codegen_int64.go:228-254 | the same for let |
| Int64Generator.Generator.EmitLoop | pkg/runtime/codegen_int64.go:256-288 | the same for loop |
| Int64Generator.Generator.EmitLoopTail | pkg/runtime/codegen_int64.go:299-354 | the same for code in tail position of a loop |
| Int64Generator.Generator.EmitInvoke | pkg/runtime/codegen_int64.go:437-472 | the same for calls of helpers |
| Int64Generator.Generator.WriteInt32Guards | pkg/runtime/codegen_int64.go:290-297 | appends one range test per name |
| OptimizerPipeline.DefaultPipelinePreservesMeaning | pkg/compiler/optimize.go:35-69 | a top-level form without a go of a keyword call, conj of pop or assoc with pairs, in a world without compiled functions: the optimised form has the same value or error, the same effects in the same order and the same Var roots |
| OptimizerPipeline.PipelineSound | pkg/compiler/optimize.go:48-69 | any sequence of passes, on any tree, environment, state and fuel: the optimised program in the optimised world does what the original does in the original world |
| OptimizerSound.HomNode | pkg/ast/transform.go:9-201 | one post-order sweep preserves meaning, including inside functions that are called later |
| OptimizerSound.RewriteSound | pkg/compiler/optimize.go:81-213 | every single rewrite preserves the outcome, state and trace included |
| OptimizerSound.FoldSound | pkg/compiler/constant_fold.go:59-81 | folding a literal arithmetic call gives what the call gives, and a trapping call is left alone |
| OptimizerSound.KeywordSound | pkg/compiler/optimize.go:153-180 | a keyword in call position is a lookup with the same target, default and order of evaluation |
| OptimizerSound.FuseSound | pkg/compiler/optimize.go:107-130 | conj of pop is replace-last: pop is validated before the new value is evaluated |
| OptimizerSound.AssocSound | pkg/compiler/optimize.go:186-213 | assoc with pairs of arguments is the assoc node, key before value, pair by pair |
| OptimizerPipeline.GoFailsIfLowered | pkg/runtime/evalast.go:520-543 | through any pipeline the operand of a go is still a call if and only if it has none of the shapes that the passes lower, which can be read off the source form; otherwise the go always fails |
| OptimizerGo.GoKeepsItsCall | pkg/compiler/optimize.go:107-213 | a pass leaves a call a call if and only if it is not of the shape of that pass: nothing (literal folding), conj of pop, a keyword with one or two arguments, assoc with pairs |
| OptimizerGo.PipelineKeepsItsCall | pkg/compiler/optimize.go:48-69 | the same through a whole pipeline, in terms of the call before any pass has run |
| OptimizerGo.LowersAfter | pkg/compiler/optimize.go:107-213 | after one pass a call is of the shape of another exactly if it was before and the pass has left it |
| OptimizerGo.GoSafeKept | pkg/ast/transform.go:9-201 | a sweep of any pass keeps every go form of a tree free of the shapes of every other pass |
| OptimizerPipeline.GoKeywordExample | pkg/runtime/evalast.go:520-543 | (go (:k 1)) starts a goroutine before and throws after the keyword pass |
| OptimizerPipeline.SweepSettles | pkg/compiler/optimize.go:73-213 | a sweep leaves no redex of its own pass and restores none of an earlier pass |
| OptimizerPipeline.DefaultPipelineSettles | pkg/compiler/optimize.go:35-46 | after the default pipeline no pass of it finds anything to rewrite |
| Optimizer.PassPipeline.Optimize | pkg/compiler/optimize.go:48-69 | the loop runs the passes in order and reports a nil pass as an error |
| Optimizer.TransformSlice | pkg/ast/transform.go:41-48 | every element of the slice is replaced in place by its transform |
| OptimizerPipeline.PlainWorldKept | pkg/compiler/optimize.go:48-69 | a world without compiled functions, which start-up is, is not changed by any pass |
| SyntaxQuote.SyntaxQuoteRebuildsTemplate | pkg/reader/reader.go:825-975 | evaluating the code of a syntax-quote instantiates the template, for every template, user code and history |
| SyntaxQuote.ExpandIsInstantiate | pkg/reader/reader.go:832-975 | the same below any renaming that is later extended: unquotes by value, splices in place, vectors and maps rebuilt, errors and effects in order |
| SyntaxQuote.VanishingList | pkg/reader/reader.go:926-948 | a non-empty list whose elements all vanish becomes nil, an empty list stays an empty list |
| SyntaxQuote.GensymsAreDistinct | pkg/reader/reader.go:842-851 | within one quote equal x# names become one symbol and different names become different symbols |
| SyntaxQuote.GensymsCollide | pkg/reader/reader.go:825-851 | for any two quotes and any x# names in them, the generated symbols are equal if and only if the names are equal and have the same number in the order of first occurrence of their quote |
| SyntaxQuote.GensymsAreNumbered | pkg/reader/reader.go:842-851 | a quote renames exactly the x# names that occur outside its unquotes, each by its number in the order of first occurrence |
| SyntaxQuote.GensymsRepeatAcrossQuotes | pkg/reader/reader.go:848-851 | so one name quoted alone twice becomes one symbol |
| SyntaxQuote.Reader.SyntaxQuote | pkg/reader/reader.go:832-951 | the recursive method with its shared rename map returns the expansion and leaves its renames |
| SyntaxQuote.Reader.ExpandList | pkg/reader/reader.go:953-965 | the loop appends one argument of concat per element |
| SyntaxQuote.Reader.RenameSymbol | pkg/reader/reader.go:836-890 | a symbol is special, renamed or resolved, and a new rename is recorded |
| MultiFns.RunKeepsInv | pkg/lang/multifn.go:173-289 | under every interleaving of method and preference changes, hierarchy changes and lookups, cached methods are what an uncached search finds |
| MultiFns.StepKeepsInv | pkg/lang/multifn.go:173-289 | the invariant over one critical section, with lookups that search without the lock while the tables change |
| MultiFns.CacheIsSearch | pkg/lang/multifn.go:270-289 | in every run a cached method is the uncached search of the current tables and cached hierarchy |
| MultiFns.LookupReturnsSearch | pkg/lang/multifn.go:249-289 | a lookup returns the search of the tables and hierarchy of the moment it returns |
| MultiFns.SearchFindsDominating | pkg/lang/multifn.go:291-319 | if domination is a preorder, the method found is of a matching entry that dominates all matching ones, or the default |
| MultiFns.ChosenDominates | pkg/lang/multifn.go:291-319 | whatever the order of the table, the chosen entry dominates every matching one |
| MultiFns.OrdersAgree | pkg/lang/multifn.go:291-319 | two orders that both succeed choose keys that dominate each other |
| MultiFns.SucceedsIffPrefixesHaveTops | pkg/lang/multifn.go:291-319 | the search succeeds exactly when every prefix of the matching entries has an entry that dominates it |
| MultiFns.OrderMatters | pkg/lang/multifn.go:291-319 | with two incomparable keys below a third, the search fails if the third comes last and succeeds otherwise |
| MultiFns.AddMethodDefines | pkg/lang/multifn.go:173-181 | the new method is found under its key, all other definitions stay, and the cache is dropped |
| MultiFns.PreferMethodPrefers | pkg/lang/multifn.go:183-196 | a preference is refused exactly when the opposite holds; otherwise it holds afterwards and every earlier one still does |
| MultiFns.MultiFn.AddMethod | pkg/lang/multifn.go:173-181 | the object moves to the state of the step system |
| MultiFns.MultiFn.PreferMethod | pkg/lang/multifn.go:183-196 | the object moves to the state of the step system, or reports the conflict and is unchanged |
| MultiFns.MultiFn.FindBestMethod | pkg/lang/multifn.go:291-319 | the loop over the table returns the search, ambiguity included |
| MultiFns.MultiFn.GetMethod | pkg/lang/multifn.go:249-289 | an undisturbed lookup answers from the current tables and hierarchy and caches exactly that answer |
| MultiFns.MultiFn.ResetCache | pkg/lang/multifn.go:129-132 | the cache is emptied and the hierarchy remembered |
| Namespaces.Namespace.Mappings | pkg/lang/namespace.go:136-166 | the memoised view equals the per-key lookup for all names |
| Namespaces.Namespace.CollectVisible | pkg/lang/namespace.go:144-160 | collecting layer by layer and then the own table gives the per-key lookup for all names |
| Namespaces.Namespace.VisibleMapping | pkg/lang/namespace.go:437-457 | own table first, then snapshots from the newest, exclusions and foreign Vars skipped |
| Namespaces.Namespace.Intern | pkg/lang/namespace.go:186-215 | the name is a Var of this namespace afterwards, an own Var is returned unchanged, otherwise the Var is new; no other name and no other namespace changes |
| Namespaces.Namespace.Reference | pkg/lang/namespace.go:391-435 | exactly when the present value is to be kept it is returned and nothing changes; otherwise the name has the new value; no other name and no other namespace changes |
| Namespaces.Namespace.Unmap | pkg/lang/namespace.go:257-279 | the name is invisible, every other name and namespace is as before |
| Namespaces.Namespace.ReferAllSnapshot | pkg/lang/namespace.go:366-389 | installs what the source shows at that moment in place of its earlier snapshot, or last; nobody else changes |
| Namespaces.Namespace.ShareMappings | pkg/lang/namespace.go:471-496 | hands out the own table, marked as shared, or a new table of everything visible |
| Namespaces.Namespace.EnsureMappingsMutable | pkg/lang/namespace.go:459-469 | a shared table is replaced by a copy and the view does not change |
| Namespaces.Namespace.SetMapping | pkg/lang/namespace.go:186-215 | one name changes in this view; snapshots that share the table do not |
| Namespaces.ReferredView | pkg/lang/namespace.go:366-389 | a reference shows only what it captured, and never hides an own mapping |
| Namespaces.UnmappedView | pkg/lang/namespace.go:257-279 | excluding a name in every layer hides that name and no other |
| Namespaces.NewNamespace | pkg/lang/namespace.go:105-126 | a new namespace shows its seed and is apart from all others |
| NamespaceRuns.HiddenUntilBrought | pkg/lang/namespace.go:186-435 | over any run of operations on any namespaces, an invisible name stays invisible in a namespace if and only if no operation interns or refers it there or refers to a namespace that shows its own Var of that name and does not exclude it |
| NamespaceRuns.StepShows | pkg/lang/namespace.go:186-435 | one operation makes an invisible name visible exactly in these cases |
| NamespaceRuns.Perform | pkg/lang/namespace.go:186-496 | each operation on the shared and copied tables is one step between what the namespaces show |
| NamespaceRuns.Run | pkg/lang/namespace.go:186-496 | and so is every run of operations |
| NamespaceRuns.UnmapThenRun | pkg/lang/namespace.go:257-279 | after ns-unmap the name is invisible, through any run, until an operation brings it back |
| VarBindings.RunKeepsCounters | pkg/lang/var.go:420-540 | at every step of every run the counter of a Var is the number of frames that bind it, corrected by what each goroutine has still to count |
| VarBindings.CountersStep | pkg/lang/var.go:420-540 | the same over one atomic step: inside a push, a pop, or a frame reset |
| VarBindings.CountersCountFrames | pkg/lang/var.go:299-314 | when no goroutine is inside an operation, the counter is exactly the number of binding frames |
| VarBindings.GetIsInnermostElseRoot | pkg/lang/var.go:198-215 | the zero-counter fast path of Get, Deref and the innermost-frame-else-root lookup agree |
| VarBindings.ReadsInEveryRun | pkg/lang/var.go:198-314 | the same at every step of every run, whatever other goroutines are in the middle of |
| BindingRuns.PushBinds | pkg/lang/var.go:420-448 | whatever the other goroutines do between its steps, a finished push has put exactly one frame on the stack, which binds exactly the entries before the first one whose Var is not dynamic; these read as pushed and every other Var as before |
| BindingRuns.PushBindsAllIfDynamic | pkg/lang/var.go:420-448 | the push binds all of its entries if and only if all their Vars are dynamic; otherwise the stack is one frame deeper all the same |
| BindingRuns.PanicLeavesPartialFrame | pkg/lang/var.go:420-448 | a push of two entries, the second for a Var that is not dynamic, leaves the first bound and counted |
| BindingRuns.PushThenPopRestores | pkg/lang/var.go:420-468 | push, even one that panics halfway, then pop, with other goroutines running throughout: the stack and every read are restored, and each counter differs by exactly what the others did |
| BindingRuns.CounterChange | pkg/lang/var.go:420-540 | over any run a counter changes by what the steps of the others change and by the change of the frames of this goroutine that are counted |
| BindingRuns.OthersChangeNoRead | pkg/lang/var.go:198-314 | while a goroutine does nothing, no run of the others changes what its bindings say |
| BindingRuns.CapturesNeverChange | pkg/lang/var.go:491-500 | no run changes a captured frame list or what it says |
| BindingRuns.CaptureThenResetConveys | pkg/lang/var.go:491-540 | a goroutine captures, everyone runs, another goroutine resets to the capture while everyone runs: it reads what the first one read when it captured |
| BindingRuns.CaptureConveys | pkg/lang/var.go:491-500 | a captured frame list says of every Var what the goroutine read |
| BindingRuns.ResetInstalls | pkg/lang/var.go:502-540 | a finished reset, with other goroutines running throughout: the goroutine reads what the named frames said, or nothing for nil, and each counter differs by what the others did, plus its new frames, minus its old ones |
| VarBindings.ConveyedFramesShareNoBoxes | pkg/lang/var.go:491-540 | in every run no box is both in a captured frame list and in a stack, or in two stacks |
| VarBindings.UnsharedStep | pkg/lang/var.go:491-540 | the same over one step |
| VarBindings.SetIsLocal | pkg/lang/var.go:205-215 | set! is seen by the goroutine that set, for that Var, and by nobody else |
| Atoms.StepIsAtomic | pkg/lang/atom.go:115-198 | every step leaves the value alone or is one operation taking effect on the value right before it; a finished swap returns the value it installed |
| Atoms.NoStaleSwap | pkg/lang/atom.go:171-181 | the pointer is back at a loaded box only if nothing was installed since: every installed box is fresh |
| Atoms.StepKeepsInv | pkg/lang/atom.go:115-198 | boxes are installed in the order of their allocation and never twice |
| Atoms.HistoryGrows | pkg/lang/atom.go:171-198 | the history of values only grows, by the value installed |
| Atoms.StartChangesNothing | pkg/lang/atom.go:115-198 | starting an operation changes neither the value nor the history |
| Atoms.InstalledValuesAreValid | pkg/lang/atom.go:100-107 | in every run each installed value has passed the fixed validator |
| Atoms.NotifiedPairsAreAdjacent | pkg/lang/atom.go:83-98 | when nothing is in progress, the notified pairs are exactly the adjacent pairs of the install history |
| Atoms.WatchesInEveryRun | pkg/lang/atom.go:83-198 | at every step, notified pairs and those still owed are together the adjacent pairs of the history |
| Atoms.CompareAndSetFails | pkg/lang/atom.go:162-181 | compare-and-set answers false after its comparison exactly when something was installed since its load |
| Atoms.SpuriousFailure | pkg/lang/atom.go:162-181 | it can answer false although the atom held the expected value all along |
| ArrayMaps.RunRefines | pkg/lang/persistentarraymap.go:312-541 | from an array, keyword-shaped or hash map any run of assoc and dissoc refines the same run on a finite map: entries, count and every lookup |
| ArrayMaps.AssocRefines | pkg/lang/persistentarraymap.go:428-481 | assoc updates one class of the finite map in all three representations and in the conversions between them |
| ArrayMaps.WithoutRefines | pkg/lang/persistentarraymap.go:487-524 | dissoc deletes one class of the finite map in all three representations |
| ArrayMaps.AssocLaw | pkg/lang/persistentarraymap.go:428-481 | what every lookup answers after assoc, first key object kept |
| ArrayMaps.WithoutLaw | pkg/lang/persistentarraymap.go:487-524 | what every lookup answers after dissoc |
| ArrayMaps.ShapedAssoc | pkg/lang/persistentarraymap.go:429-455 | assoc of a shaped key keeps the shape, the recorded chain length and its bound of eight, and changes one key |
| ArrayMaps.NewestFirst | pkg/lang/persistentarraymap.go:348-370 | newest-first delta lookup equals the materialised array at every index |
| ArrayMaps.Materialize | pkg/lang/persistentarraymap.go:357-370 | the fixed buffer of eight is never overrun and the result is a new array of the materialised values |
| ArrayMaps.ValAtKeywordAgrees | pkg/lang/persistentarraymap.go:333-346 | the keyword fast path answers as the generic lookup |
| ArrayMaps.UniqueKeysFinds | pkg/lang/persistentarraymap.go:137-154 | the map made of entries without repeated keys, array or hash map, finds exactly those entries |
| ArrayMaps.ViewFinds | pkg/lang/persistentarraymap.go:372-390 | lookup and count of every representation are those of its finite map |
| ArrayMapBuilders.AsIfByAssoc | pkg/lang/persistentarraymap.go:230-310 | the constructor returns the first occurrences in order, each with the last value of its key; the second pass writes exactly as many slots as the first counted |
| ArrayMapBuilders.AsIfByAssocAgrees | pkg/lang/persistentarraymap.go:230-310 | for every key, and in its count, the constructed map agrees with folding assoc over the arguments |
| ArrayMapBuilders.CollapsedFinds | pkg/lang/persistentarraymap.go:265-308 | a lookup finds the first key object and the last value of its class |
| ArrayMapBuilders.HasDuplicate | pkg/lang/persistentarraymap.go:230-240 | the nested loops detect a repeated key |
| ArrayMapBuilders.CountFirsts | pkg/lang/persistentarraymap.go:265-277 | the nested loops count the first occurrences |
| ArrayMapBuilders.DropDuplicates | pkg/lang/persistentarraymap.go:279-307 | the second pass fills exactly the counted slots |
| ArrayMapBuilders.FindLast | pkg/lang/persistentarraymap.go:294-299 | the backward scan finds the last value of the key |
| ArrayMapBuilders.TransientMap.Assoc | pkg/lang/persistentarraymap.go:696-721 | has the effect of persistent assoc on the inner map, in place on arrays, whoever else holds the object; refused after persistent! |
| ArrayMapBuilders.TransientMap.Without | pkg/lang/persistentarraymap.go:723-743 | has the effect of persistent dissoc on the inner map, in place on arrays; the last key of a keyword shape without metadata leaves the transient on the shared empty map; refused after persistent! |
| ArrayMapBuilders.TransientMap.Persistent | pkg/lang/persistentarraymap.go:745-749 | hands out the inner map once |
| ArrayMapBuilders.RunTransient | pkg/lang/persistentarraymap.go:644-749 | any run of transient operations then persistent!, from any array or shaped map, gives what the persistent operations give; no object of others changes except the shared empty map, which ends up as After says |
| ArrayMapBuilders.RunFromClone | pkg/lang/persistentarraymap.go:392-403 | runs from the clone that a transient owns answer as runs from the map itself |
| ArrayMapBuilders.EmptyMapKept | pkg/lang/persistentarraymap.go:487-524 | the shared empty map stays empty throughout a transient run if and only if no operation puts a key after the run has deleted the only key of a map still on its keyword shape |
| ArrayMapBuilders.VanishesWhen | pkg/lang/persistentarraymap.go:487-524 | when the run deletes that key can be read off the map and the operations |
| ArrayMapBuilders.SharedEmptyMapEdited | pkg/lang/persistentarraymap.go:696-743 | dissoc! of the only key of a keyword-shaped map, then assoc!: the empty map of the program has an entry |
| Bencode.RoundTrip | pkg/nrepl/bencode.go:21-179 | decoding an encoding followed by any bytes gives the value back and leaves exactly those bytes |
| Bencode.PrefixFree | pkg/nrepl/bencode.go:21-64 | no encoding is a proper prefix of another, and equal encodings are of equal values |
| Bencode.StreamRoundTrip | pkg/nrepl/bencode.go:66-90 | messages written one after another are read back one by one |
| Bencode.DecodedIsNormal | pkg/nrepl/bencode.go:72-179 | whatever bytes are accepted, the value read is one that the encoder can write and that comes back unchanged |
| Bencode.SortIsCanonical | pkg/nrepl/bencode.go:43-59 | the sorted key order does not depend on the order in which the map was visited |
| BencodeIO.Write | pkg/nrepl/bencode.go:21-64 | appends exactly the encoding, and fails exactly on a value with an unsupported part |
| BencodeIO.EncodeValue | pkg/nrepl/bencode.go:13-19 | the encoding, or an error exactly on an unsupported part |
| BencodeIO.CollectKeys | pkg/nrepl/bencode.go:45-50 | the keys of the map, each once, in any order |
| BencodeIO.ReadValue | pkg/nrepl/bencode.go:72-90 | through the pushback reader: the value or error that the pending bytes determine, and on success exactly the bytes after it are still pending, none of them taken back |
| BencodeIO.ReadList | pkg/nrepl/bencode.go:131-150 | the same for lists, with one byte taken back before each element |
| BencodeIO.ReadDict | pkg/nrepl/bencode.go:152-179 | the same for dictionaries: a later equal key wins, a key that is no string is an error |
| BencodeIO.ReadStr | pkg/nrepl/bencode.go:107-129 | the same for strings, whose bytes may arrive in pieces |
| BencodeIO.ReadInt | pkg/nrepl/bencode.go:92-105 | the same for integers |
| BencodeIO.SingleByteReader.Read | pkg/nrepl/bencode.go:202-213 | delivers the byte taken back first and then bytes of the connection, in order |
| BencodeIO.SingleByteReader.ReadByte | pkg/nrepl/bencode.go:215-222 | delivers the next pending byte or reports the end |
| BencodeIO.SingleByteReader.UnreadByte | pkg/nrepl/bencode.go:224-227 | the byte just read is pending again, before all others |
| BencodeIO.ReadFull | pkg/nrepl/bencode.go:124-127 | fills the array from connections that deliver in pieces, or reports that the bytes ran out |
| BencodeIO.Exchange | pkg/nrepl/bencode.go:13-227 | messages written to one end and delivered in pieces of any size are read at the other end, in order, by one reader |
| BencodeIO.DecodeValue | pkg/nrepl/bencode.go:66-70 | with a reader of its own per call: the value or error that the bytes of the connection determine, and on success the connection stands exactly behind the value |
| BencodeIO.ExchangeAfresh | pkg/nrepl/bencode.go:13-227 | and so messages are read in order by a new reader for each |
| Int64.CheckedAdd | pkg/lang/int64.go:7-15 | the exact sum, or overflow exactly when it does not fit |
| Int64.CheckedSub | pkg/lang/int64.go:17-25 | the exact difference, or overflow exactly when it does not fit |
| Int64.CheckedMultiply | pkg/lang/int64.go:27-44 | the exact product, or overflow exactly when it does not fit |
| Int64.CheckedNegate | pkg/lang/int64.go:46-51 | the exact negation, or overflow exactly at the least number |
| Int64.HighWord | pkg/lang/int64.go:29-42 | the corrected high word equals the sign extension of the low word exactly when the product fits |
| NumberOps.Add | pkg/lang/numberops.go:175-182 | the exact sum, or overflow exactly when it does not fit |
| NumberOps.Sub | pkg/lang/numberops.go:199-206 | the exact difference, or overflow exactly when it does not fit |
| NumberOps.Multiply | pkg/lang/numberops.go:210-222 | the exact product, or overflow exactly when it does not fit; zero is boxed as a Go int |
| NumberOps.AddP | pkg/lang/numberops.go:183-192 | the exact sum always, as a big integer exactly when it does not fit |
| NumberOps.MultiplyP | pkg/lang/numberops.go:223-234 | the exact product always, as a big integer exactly when it does not fit |
| NumberOps.FastPathsAgree | pkg/lang/numbers.go:166-207 | the int64 fast paths and the generic operations give the same number or both overflow; they differ only in how zero is boxed |
| NumberOps.QuotientTest | pkg/lang/numberops.go:210-222 | the wrapped product divides back to the operand exactly when it fits, or at -2^63 times -1 |
| Division.DivideExact | pkg/lang/numberops.go:246-264 | the quotient is exact (an integer, or in lowest terms with denominator at least 2) exactly outside two families at -2^63 |
| Division.DivideByMinExact | pkg/lang/numberops.go:246-264 | dividing zero, a negative or an even number by -2^63 is exact |
| Division.WholeWhenDivides | pkg/lang/numberops.go:246-264 | an integer exactly when the divisor divides; denominator -1 does not occur |
| Division.GcdIsGreatest | pkg/lang/numberops.go:238-244 | the loop result divides both numbers and every common divisor divides it |
| Division.GcdLoop | pkg/lang/numberops.go:238-244 | the loop computes the recursion and terminates |
| Division.MinusOne | pkg/lang/numberops.go:246-264 | the truncated-remainder gcd is never the negated divisor |
| Division.ByZero | pkg/lang/numberops.go:246-264 | zero divided by zero is zero, anything else divided by zero is the division error |
| Division.WrongAtMin | pkg/lang/numberops.go:246-264 | 1 / -2^63 comes out positive and -2^63 / -1 negative |
| LongRanges.RangeCount | pkg/lang/longrange.go:79-93 | the ceiling of (end - start) / step, or an overflow exactly when an intermediate sum does not fit |
| LongRanges.NewLongRange | pkg/lang/longrange.go:42-77 | which of the four representations is chosen, and that a direct range has the right count |
| LongRanges.ElementFits | pkg/lang/longrange.go:284-286 | no element and no offset overflows |
| LongRanges.ChunkWalkVisits | pkg/lang/longrange.go:121-145 | walking the chunks visits exactly start + i * step for i below count |
| LongRanges.ReduceInt64Steps | pkg/lang/longrange.go:239-256 | the loop folds over exactly those elements, stopping at a reduced value, without overflow |
| LongRanges.NextIsCorrect | pkg/lang/longrange.go:105-111 | Next visits the same elements exactly when, going up, a point past the last one fits, or, going down, the range has one element and the step does not pass its end |
| LongRanges.ReduceInitIsCorrect | pkg/lang/longrange.go:220-237 | ReduceInit visits the same elements exactly for upward ranges where a point past the last one fits |
| LongRanges.ReduceInit | pkg/lang/longrange.go:220-237 | the loop terminates and folds over the elements, for those ranges |
| LongRanges.DownwardCounterexample | pkg/lang/longrange.go:105-111 | (range 5 4 -2) has one element but Next produces a second |

## Left out

- ArrayMapBuilders.AsIfByAssoc: the entries that conj makes of an odd last argument are a parameter, and the error for
  an argument that is no entry or map is not modelled.
- ArrayMapBuilders.RunTransient: conj! is not modelled; it is persistent conj on the inner map. One transient runs at
  a time, on a shared empty map that is still empty when it starts.
- ArrayMaps.RunRefines: metadata and cached hashes of maps are not modelled, nor is the inline storage of small maps.
- HashMaps.Walk: `NodeIterator` and `ArrayNodeIterator` are not modelled; `Seq` does not use them.
- Int64Functions.HelperCorrect: the type analysis and the proof of unchecked operations are premises (a well-typed
  program without proved-safe host calls), and a Var is redefined before or after a helper runs but not while it runs.
- Int64Compile.HelperCompiles: about the helper itself; the wrapper around it and the imports of the file are not
  modelled.
- Int64Generator.Generator.EmitExpr: lines stand for the generated text; spelling and indentation are not modelled.
- OptimizerSound.HomNode: in-place replacement of the children of a node is modelled on values (only the loop over a
  slice is in place), so a tree that shares a node twice is treated as two copies.
- OptimizerPipeline.DefaultPipelinePreservesMeaning: the host may not look inside function bodies, direct-linked core
  Vars keep their roots, and the stack frames in error messages are not part of what is observed.
- SyntaxQuote.SyntaxQuoteRebuildsTemplate: templates are atoms, lists, vectors and maps. Sets are quoted as they are
  by the code; `concat` is evaluated eagerly, so an error in a lazy tail is an error at once; how a symbol is
  qualified is a parameter.
- MultiFns.RunKeepsInv: a method table is visited in insertion order even after it has grown into a hash map; tables
  and hierarchies do not come back once replaced; removal of methods does not exist in this file.
- Namespaces.Namespace.ReferAllSnapshot: the locks of the two namespaces are taken together here and one after the
  other in the code; aliases, metadata and the global table of namespaces are not modelled.
- NamespaceRuns.Run: the set of namespaces is fixed during a run.
- BindingRuns.PushBinds: goroutine identities are given, and `Var` roots are plain values without a lazy resolver.
- Atoms.NotifiedPairsAreAdjacent: the validator and the set of watches are fixed, and watches do not throw.
- BencodeIO.ReadValue: a length for which memory cannot be allocated, and connection errors other than the end, are
  not modelled; readers that bring their own pushback are taken to behave like this one.
- Division.DivideExact: for an odd positive number divided by -2^63 the condition names the sign that the gcd loop
  ends with; in all other cases it can be read off the operands.
- Floating-point code, big numbers, regular expressions, reflection on host types, the REPL and the servers: foreign
  behaviour or input and output.
- Sequences, records, sorted collections and generated arity code: they would add only easy members.
