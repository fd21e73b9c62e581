# Verified model of the coretrace Python analyzer's core

coretrace lowers Python functions to a control-flow graph and an intermediate representation,
converts that to SSA form, runs data-flow analyses over it, schedules the modules of a project,
and reads its templates. This project models those algorithms in Dafny and proves that they do
what their documentation promises, for all inputs and all runs.

The parts, lowest first:

- `Options`, `Sorting`: optional values, and sorting by a key with the rearrangement it makes.
- `Graphs`, `Trees`, `Dominators`, `DominatorTrees`: finite directed graphs with walks, reachability
  and dominance defined over all walks; the Cooper-Harvey-Kennedy algorithm; dominance frontiers.
- `IR`: the intermediate representation and one abstract machine that runs it before and after the
  conversion. What an operation computes and how it changes the world is a parameter, so every
  theorem about runs holds for every meaning of the operations.
- `SSAForm`, `Liveness`, `PhiPlacement`, `RenamingWork`, `SSAAssembly`, `SSAConstruction`,
  `SSAMeaning`, `SSAProperties`, `SSAResult`, `Renumbering`, `SSAConversion`: the conversion to SSA
  form, its result and its meaning.
- `Structured`, `Layout`, `LayoutFacts`, `CfgShape`, `CfgRuns`, `LayoutMeaning`, `CfgBuilder`: the
  control-flow graph builder as a compiler from structured statements to blocks. `CfgShape` says what
  it is for a graph to hold statements, without saying how one is built; `CfgRuns` proves that such a
  graph runs as the statements do, exceptions included; `LayoutMeaning` that the graphs built are such.
- `Solver`, `Constants`, `ConstantSoundness`, `ConstantFacts`, `ConstantRuns`: the worklist solver and
  conditional constant propagation on top of it: sound, exact, and complete for runs of literals.
- `Guards`: the branches that dominate a sink and fix conditions there.
- `Components`, `ModuleGraph`, `TemplateComponents`: strongly connected components, found
  recursively for the modules and with an explicit stack for the templates, and module waves.
- `TemplateFacts`, `TemplateBounds`, `Settling`, `NamePaths`: the filters the render of each template
  reaches through cyclic includes, and what the names carried on the way mean.
- `Composer`, `Overriding`, `Pages`: the page a template renders out of the blocks of its chain of
  parents, the names that page includes, and which definitions override which. `Pages` says all of it
  of the pieces of the templates alone.
- `MarkupReading`: one linear pass over a template's markup that decides for every way its comments
  may end.
- `Heap`, `HeapRuns`: the points-to analysis, and why it is sound. `Versions`: version ranges, and
  whether a requirement may allow a vulnerable version.

Methods that change state in the original change the fields of a class here and are proved against
a function of the state (`Layout` for the builder, `SSAForm` for the renamer); what is promised of
them is then proved about that function.

Preconditions worth knowing. `SSAConversion.Convertible` asks that a dominator tree of the function
is given, that the entry has no predecessor, that the body block of a `for` is entered from its
header only, that values of the function before conversion are defined on every path before use, and
that block ids and parameters are distinct. `Guards.BranchesCarry` asks that both targets of a
branch carry the exception targets of the branching block; `LayoutFacts.BodyComplete` proves the same
of every graph the builder lays out, and `SSAConversion.ConversionKeepsHandlers` that the conversion
keeps it. `Composer.Markup` asks for ranks of the definitions, which `Composer.IncludesOf` returns
for every chain it does not refuse. `MarkupReading.Sane` asks that constructs and comment closes end
inside the text, after they start, and that closes end in the order they start.

Results that fail, and exactly when:

- Rewriting a `while` whose condition needs statements is right exactly when neither those statements
  nor the `else` clause can break or continue the loop around it (`Structured.RewritingKeepsMeaning`,
  `Structured.RewritingCaptures`); `Structured.BreakInElseCaptured` is an input on which it is not.
- A requirement that is not pinned is matched against a range by trying 0 and the versions that bound
  either range below. That finds every overlap of specifiers written with a set of operators exactly
  when neither `>` nor `!=` is in the set (`Versions.EnoughFor`): `>1` and `>1` overlap, and no
  version tried is in both.

## Model

| member | source | states |
|---|---|---|
| Graphs.NotRevisited | src/coretrace_python/findings/refutation.py:285-288 | If `d` dominates `a` and `a` dominates `b`, no walk reaching `b` visits `d` after its last visit of `a`; the lemma behind SSA, guards and constants |
| Dominators.ReversePostorder | src/coretrace_python/cfg/dominance.py:75-92 | The depth-first order lists exactly the reachable nodes once, and every node but the root has a predecessor listed before it |
| Dominators.Intersect | src/coretrace_python/cfg/dominance.py:96-102 | Climbing two fingers terminates at the node whose ancestors are exactly the common ancestors of both |
| Dominators.Refine | src/coretrace_python/cfg/dominance.py:104-114 | The passes terminate, with a tree in which no node moves any more |
| Dominators.AboveIsDominates | src/coretrace_python/cfg/dominance.py:93-114 | In the settled tree the ancestors of a node are exactly its dominators, over all walks |
| DominatorTrees.FrontierOf | src/coretrace_python/cfg/dominance.py:116-130 | The frontier loop collects at `x` exactly the joins at which the dominance of `x` ends |
| DominatorTrees.EndsAtIsTextbook | src/coretrace_python/cfg/dominance.py:116-130 | That is the textbook frontier: `x` dominates a predecessor of `y` and does not strictly dominate `y` |
| DominatorTrees.Build | src/coretrace_python/cfg/dominance.py:70-146 | The built tree is the dominator tree of the graph: parents, depths, children and frontiers, siblings in the order of the blocks |
| DominatorTrees.ParentIsClosest | src/coretrace_python/cfg/dominance.py:40-41 | The immediate dominator strictly dominates, and every other strict dominator dominates it |
| DominatorTrees.DominatorTree.Dominates | src/coretrace_python/cfg/dominance.py:49-57 | Climbing by depth answers yes exactly when both blocks are reachable and every walk to the second visits the first |
| DominatorTrees.IteratedFrontier | src/coretrace_python/cfg/dominance.py:59-67 | The worklist returns exactly what one or more frontier steps reach |
| Liveness.LiveIn | src/coretrace_python/ir/ssa.py:192-230 | A local is live into a block exactly when some walk from it reads the local before assigning it |
| PhiPlacement.CollectDefinitions | src/coretrace_python/ir/ssa.py:51-61 | The blocks recorded for a local are exactly those that assign it, loop bodies included |
| SSAConstruction.Renamer.Current | src/coretrace_python/ir/ssa.py:68-74 | The value of a local is the top of its stack, or the one value standing for its absence, made once |
| SSAConstruction.Renamer.PlacePhis | src/coretrace_python/ir/ssa.py:81-95 | A block gets a phi for a local exactly when it is in the iterated frontier of the assignments and the local is live there |
| SSAConstruction.Renamer.RenameInstructions | src/coretrace_python/ir/ssa.py:109-127 | A block's code is renamed as specified and the stacks end as its stores leave them |
| SSAConstruction.Renamer.Rename | src/coretrace_python/ir/ssa.py:102-142 | Renaming a block renames exactly what is below it in the tree, keeps what was made, and restores every stack |
| SSAConstruction.Renamer.Build | src/coretrace_python/ir/ssa.py:144-161 | The function built is a conversion of the source: every reachable block renamed, every phi filled |
| SSAAssembly.OrderedPhis | src/coretrace_python/ir/ssa.py:163-170 | Each phi has one operand for each predecessor, in order, holding the value its local has at that predecessor's end |
| SSAAssembly.Predecessors | src/coretrace_python/ir/ssa.py:144-150 | The predecessors collected are exactly the reachable sources of edges, in block order |
| SSAMeaning.NoPhiSameTop | src/coretrace_python/ir/ssa.py:81-95 | Where pruning leaves out a phi for a live local, every edge brings the value the dominating block left |
| SSAMeaning.BlockAgrees | src/coretrace_python/ir/ssa.py:102-127 | Running a block in both forms keeps the invariant that each live local's value is its stack top's value |
| SSAMeaning.RunsAgree | src/coretrace_python/ir/ssa.py:102-161 | For every sequence of choices the run of the source and of its conversion agree: same world, same kept operations with the same operands and results, same branches |
| SSAResult.ResultIsSSA | src/coretrace_python/ir/ssa.py:144-161 | One definition for each value, each definition dominating its uses (at the predecessor for phis), one phi operand for each predecessor, no local left |
| SSAResult.ResultIsConnected | src/coretrace_python/ir/ssa.py:144-161 | Every block of the result is reachable and its edges stay within it |
| Renumbering.Renumber | src/coretrace_python/ir/ssa.py:233-262 | The function returned is the old one with its values renamed by a numbering of its definitions |
| Renumbering.NumberingIsTotal | src/coretrace_python/ir/ssa.py:248-249 | Every value used has a number |
| Renumbering.NumbersInjective | src/coretrace_python/ir/ssa.py:236-247 | No two values share a number |
| Renumbering.Dense | src/coretrace_python/ir/ssa.py:233-262 | After renumbering the definitions, in order, are 0, 1, 2 and so on |
| Renumbering.RunsMoved | src/coretrace_python/ir/ssa.py:233-262 | Renumbering changes no run |
| SSAConversion.ToSSA | src/coretrace_python/ir/ssa.py:265-266 | The conversion as a whole terminates in a connected function in SSA form, densely numbered, of the reachable blocks in order |
| SSAConversion.ConversionKeepsMeaning | src/coretrace_python/ir/ssa.py:1-30 | Called with the same arguments and making the same choices, a function and its SSA form do the same, step by step, for every meaning of the operations |
| Structured.RewritingKeepsMeaning | src/coretrace_python/cfg/builder.py:65-87 | The rewriting to `while True` runs as the loop does when the condition's statements and the `else` clause can neither break nor continue an outer loop |
| SSAConversion.ConversionKeepsHandlers | src/coretrace_python/ir/ssa.py:144-161 | The conversion keeps that both targets of a branch carry the exception targets of the branching block, which `Guards.GuardsAreReal` asks of the function it is about |
| Structured.RewritingCaptures | src/coretrace_python/cfg/builder.py:65-87 | For every other loop some run, told by which tests hold and what raises, ends the two differently: the rewriting is right exactly under that condition |
| Structured.OnlyElseEscapes | src/coretrace_python/cfg/builder.py:65-87 | For a loop whose condition takes only plain statements, the `else` clause alone decides whether it is one of those others |
| Structured.BreakInElseCaptured | src/coretrace_python/cfg/builder.py:65-87 | Such a loop with `else: break`, whatever its body, breaks the loop around it as written and goes on after it as rewritten |
| LayoutMeaning.BodyHeld | src/coretrace_python/cfg/builder.py:201-351 | The graph laid out holds the body as `CfgShape` says: what each block holds and where it leads; each block finished inside a `try` body, the one that leaves it included, has as exception targets one block for each handler of that `try`, in order, which begins by entering that handler; a block under no `try` has none |
| CfgBuilder.Builder.Sequence | src/coretrace_python/cfg/builder.py:214-238 | The builder's state after a sequence is what `Layout` says, dead blocks and continuations included |
| CfgBuilder.Builder.Statement | src/coretrace_python/cfg/builder.py:240-267 | The same for one statement of any kind, and for its failure |
| CfgBuilder.Builder.Conditional | src/coretrace_python/cfg/builder.py:319-329 | The same for `if` |
| CfgBuilder.Builder.Loop | src/coretrace_python/cfg/builder.py:331-351 | The same for `while` and `for` with their `else` |
| CfgBuilder.Builder.TryStatement | src/coretrace_python/cfg/builder.py:269-305 | The same for `try` and the handler stack |
| CfgBuilder.BuildCfg | src/coretrace_python/cfg/builder.py:46-53 | Building fails exactly when a break or continue outside any loop is laid out, as `StraysAll` finds it; otherwise the graph holds the body, exception targets and handler blocks included, and is complete |
| LayoutFacts.BodyComplete | src/coretrace_python/cfg/builder.py:201-267 | Every id the laid-out graph mentions is one of its blocks, and both targets of a branch differ from it and carry its exception targets |
| LayoutFacts.BodyFails | src/coretrace_python/cfg/builder.py:472-475 | The layout fails if and only if `StraysAll` finds a break or continue, outside any loop, that is laid out: one in the `else` of a `try` whose body never falls through is not, and one in the `else` of a `while` whose condition needs statements stands inside the rewritten loop |
| CfgRuns.GraphRunsAsBody | src/coretrace_python/cfg/builder.py:214-351 | A graph that holds a body ends a call in some way exactly when the structured statements do, with the same effects, both directions, looping included; an item, a test or the end of a block may raise, which leads to the handler of the innermost `try` and from it to the `finally` clause or the block after, or out of the function |
| LayoutMeaning.NeverStuck | src/coretrace_python/cfg/builder.py:214-351 | No run of the graph leaves it, raising or not |
| Solver.Solve | src/coretrace_python/dataflow/solver.py:73-96 | For monotone flow of finite height the solver terminates with every sent state recorded on its edge and the least such edge map, though it overwrites |
| Solver.SolutionIsUnique | src/coretrace_python/dataflow/solver.py:73-96 | The result does not depend on the order of the blocks |
| Constants.ConstantsAreLawful | src/coretrace_python/abstract/constants.py:78-139 | Constant propagation is a monotone problem of finite height on the facts its edges carry |
| Constants.Evaluate | src/coretrace_python/abstract/constants.py:94-111 | The loop over a block joins what arrives by value, lets phis read by edge and adds a fact for each instruction, as specified |
| Constants.PropagateConstants | src/coretrace_python/abstract/constants.py:208-217 | The facts collected come from the least solution and the blocks reached are its blocks |
| ConstantSoundness.ConstantsAreSound | src/coretrace_python/abstract/constants.py:94-139 | In every run every block visited is found reachable and every value whose fact is a constant is that constant, loop-carried values and pruned branches included |
| ConstantFacts.FactsAreExact | src/coretrace_python/abstract/constants.py:94-139 | What propagation returns satisfies one equation for each instruction and each edge, written with literals and folders: a literal is its own constant, an operation on constants has the one the folder gives, a phi has the one that all its open edges bring, and a branch on a constant opens one side only; a block is reached exactly when it is the entry or an open edge leads to it |
| ConstantFacts.FactsAreLeast | src/coretrace_python/abstract/constants.py:208-217 | Among all facts and blocks that satisfy those equations the ones returned are the least |
| ConstantRuns.RunIsFound | src/coretrace_python/abstract/constants.py:94-217 | When a call computes only literals, the blocks reached are exactly those its run visits and every value's fact is its literal |
| Guards.Reaches | src/coretrace_python/findings/refutation.py:269-280 | The search answers yes exactly when some walk to the target avoids the block to avoid |
| Guards.GuardsOf | src/coretrace_python/findings/refutation.py:282-295 | The guards returned are exactly the branches that strictly dominate the sink and from which only one side reaches it without coming back |
| Guards.GuardsAreReal | src/coretrace_python/findings/refutation.py:282-295 | In every run that is at the sink each guard's condition currently has the guard's truth |
| Components.FoundOk | src/coretrace_python/interprocedural/modulegraph.py:196-198 | Finding a node keeps the search invariant and opens its frame |
| Components.ChildDone | src/coretrace_python/interprocedural/modulegraph.py:199-202 | Merging a finished child's low link makes the parent's take in all found below it |
| Components.CompletedOk | src/coretrace_python/interprocedural/modulegraph.py:205-214 | What is popped when a low link is its own index is one whole strongly connected component, which leads only to itself and earlier ones |
| Components.SamePartition | src/coretrace_python/interprocedural/modulegraph.py:191-218 | Any two searches that cover the graph complete the same components |
| ModuleGraph.Scheduler.Visit | src/coretrace_python/interprocedural/modulegraph.py:196-214 | The recursive visit terminates, keeps the invariant and the frames of all that is open, and finishes its node |
| ModuleGraph.Scheduler.Level | src/coretrace_python/interprocedural/modulegraph.py:222-231 | The recursion on components terminates and a level is one more than the highest below it |
| ModuleGraph.Schedule | src/coretrace_python/interprocedural/modulegraph.py:182-237 | Every module is in exactly one component of one wave, components are whole, imports that leave one land in a strictly earlier wave, no component could come sooner, and the components of a wave are in the order of their least names |
| ModuleGraph.ScheduleIsUnique | src/coretrace_python/interprocedural/modulegraph.py:216-218 | A module's wave does not depend on the order of the visits |
| ModuleGraph.ScheduleIsOne | src/coretrace_python/interprocedural/modulegraph.py:216-237 | Two schedules of the same imports, each with its waves in the order of least names, are equal: the result depends on the order neither of the modules nor of their imports |
| TemplateComponents.ComponentsOf | src/coretrace_python/taint/templates.py:1153-1192 | The explicit-stack search completes every component, each listed once and after all it reaches |
| TemplateFacts.Maps | src/coretrace_python/taint/templates.py:951-959 | The loop returns the union of what each name reads through the reference |
| NamePaths.ReadsArePaths | src/coretrace_python/taint/templates.py:1585-1591 | Over dotted paths: a name of the referenced template reads exactly the paths its variable is bound to, each followed by its attributes and cut to two parts |
| NamePaths.PlainCarries | src/coretrace_python/taint/templates.py:951-959 | A reference that binds nothing, has no scope and is not `only` carries every item to itself and to nothing else |
| NamePaths.SettledNamesValue | src/coretrace_python/taint/templates.py:1228-1297 | Under any variables a template is rendered with, a value that reaches a filter, or its argument, at the end of any include path is the value of a name the settled facts list for that filter |
| TemplateFacts.Join | src/coretrace_python/taint/templates.py:1213-1219 | The join holds what it held and what the facts list, nothing else |
| TemplateBounds.Size | src/coretrace_python/taint/templates.py:1283 | The size compared is the exact count of the items held |
| TemplateBounds.ReachedKnown | src/coretrace_python/taint/templates.py:1246-1248 | Include paths of any length bring only items of a finite universe, though names are composed on the way |
| Settling.SettleNames | src/coretrace_python/taint/templates.py:1268-1290 | The worklist of a cycle terminates and holds exactly what include paths of every length around it bring; comparing sizes is an exact test for change |
| Settling.OnceInOrder | src/coretrace_python/taint/templates.py:1259-1266 | What is listed once is listed in the order of its first occurrences |
| Settling.Settle | src/coretrace_python/taint/templates.py:1259-1266 | Outside any cycle: first occurrences of what is applied, then of what each reference reaches, in order |
| Settling.Settled | src/coretrace_python/taint/templates.py:1228-1297 | Every template lists exactly what all include paths bring: in the order of a walk outside cycles; in them one fact for each application, what is applied first and the rest in the canonical order |
| Settling.ReachedIsLeast | src/coretrace_python/taint/templates.py:1231-1236 | That is the least solution of the include system |
| Composer.IncludesOf | src/coretrace_python/taint/templates.py:715-736 | A chain is refused exactly when a definition its page renders holds itself, through other definitions or not; otherwise the names are exactly those included by some definition rendered |
| Composer.Markup | src/coretrace_python/taint/templates.py:631-668 | Putting each definition together once gives the page that expanding every block and every `block.super` where it stands gives, or none when an include has none or the page goes over the limit |
| Composer.OnePage | src/coretrace_python/taint/templates.py:631-668 | That expansion is the same whatever ranks the definitions: it depends on the chain and the includes only |
| Overriding.ResolvedStands | src/coretrace_python/taint/templates.py:701-712 | What is looked up is the definition at the least level that defines the block, and for `block.super` at the least such level past its own; nothing is found exactly when there is none |
| Overriding.OverriddenPage | src/coretrace_python/taint/templates.py:701-712 | Overriding: once a template defines a block without `block.super`, the page is the same whatever a template it extends says the block is |
| Overriding.OverriddenIncludes | src/coretrace_python/taint/templates.py:715-736 | And so are the names it includes, and whether it is refused |
| Pages.ExpansionIsPage | src/coretrace_python/taint/templates.py:631-712 | The expansion is what the page shows, said of the pieces alone: the last template's pieces, each text as it is, each include what it renders, each block and `block.super` what the definition it stands for shows |
| Pages.IncludedIsMentioned | src/coretrace_python/taint/templates.py:715-736 | The names included are those that stand in an include of the page, however deep |
| Pages.RefusedNeverEnds | src/coretrace_python/taint/templates.py:715-736 | A chain is refused exactly when its page has no end even if every include renders nothing |
| MarkupReading.ReadMarkup | src/coretrace_python/taint/templates.py:769-881 | The pass with its two queues, tags listed once and the close searched once accepts exactly when no point where another reading resumes is inside a construct it reads and it meets nothing refused, and says the text ends in data exactly when moreover nothing is left open, comments included, and nothing at its end could open a construct; then every reading accepts, and leaves nothing open. It says the text ends inside a construct exactly when the last construct it reads other than `Plain` is left open |
| MarkupReading.ReadingsMerge | src/coretrace_python/taint/templates.py:783-787 | Where the one reading accepts, every choice of how the comments holding tags end accepts, from every point it resumes at |
| MarkupReading.OneReading | src/coretrace_python/taint/templates.py:769-881 | Where no comment holds a tag there is one reading, and the text is accepted exactly when that reading accepts |
| Heap.PointsTo.Solve | src/coretrace_python/abstract/heap.py:165-174 | The passes terminate, in the least facts that satisfy the inclusion of every instruction and hold the parameters |
| Heap.AnalyzeHeap | src/coretrace_python/abstract/heap.py:243-246 | Each value may be exactly the objects the least solution says |
| HeapRuns.SolutionCovers | src/coretrace_python/abstract/heap.py:138-240 | In every concrete run, each value's object comes from an allocation the facts give the value, and what a field holds from one they give the field |
| HeapRuns.ReportIsSound | src/coretrace_python/abstract/heap.py:243-246 | So the objects reported for a value include the one its object stands for, in every run |
| Versions.ClauseMeans | src/coretrace_python/dependency/graph.py:71-100 | Comparing padded tuples is comparing versions, missing numbers counting as zero, for every operator, `~=` and `^` being a half-open range and `.*` a prefix |
| Versions.SeriesEnds | src/coretrace_python/dependency/graph.py:88-99 | The ceiling of `~=` and `^` is the least version past every version of the series: those that begin with `wanted` less its last number, or for `^` with `wanted` up to its first number that is not zero, all of it if there is none |
| Versions.ASeries | src/coretrace_python/dependency/graph.py:88-99 | Every `~=` and `^` has such a series |
| Versions.MayMatch | src/coretrace_python/dependency/graph.py:143-149 | For a pinned requirement the answer is exact; for another it is yes exactly when 0 or a version bounding either range below is in both |
| Versions.EnoughFor | src/coretrace_python/dependency/graph.py:107-149 | For a set of operators, the answer is yes exactly when the ranges overlap, for all specifiers written with them, if and only if neither `>` nor `!=` is in the set |

## Left out

- Sorting: the phis of a block and the undefined values are listed in some order, not in the order the original sorts them into.
- Renumbering.Dense: numbers follow the order of definitions, which depends on the orders above.
- Strings such as `body_3` as block ids: an id is a word and a number.
- CfgBuilder.Builder.Statement: `match` statements and the hoisting of conditional expressions and comprehensions are not modelled; a loop condition may need statements, which is what the `while` rewriting is about, and which statements those are is left open.
- CfgRuns.GraphRunsAsBody: exceptions are as the builder lays them out, not as Python has them. One goes to the handler the meaning names among those of the innermost `try`, or out of the function; outer handlers are not tried, and a `finally` clause and the exits of `with` are skipped on every early exit. It asks that loops whose condition needs statements can neither break nor continue an outer loop from them, the exact condition of `Structured.RewritingCaptures`.
- Open blocks are values handed from call to call: the original appends to a list it shares, no two names of which are live at once.
- Constants.ConstantsAreLawful: the type sets of abstract values are left out, and folding is a parameter that must agree with what the machine computes.
- Constants.Evaluate: the type sets of abstract values are left out.
- Constants.PropagateConstants: the type sets of abstract values are left out.
- Direction of the solver: backward problems are the same problem with other starts.
- Components of a wave are sets; a component of templates lists each template once, in the order it is popped.
- Composer.Markup: what an include puts in a page is a parameter; several chains for one template, and the total size of their pages, are left out.
- MarkupReading.ReadMarkup: where constructs, tags and comment closes stand is given, not matched in the text, and whether the text ends in a `<` that could open a construct is a parameter.
- Heap: an instruction is given with the abstract object it makes; which call may change its receiver is decided elsewhere and is part of the instruction.
- Versions: specifiers are given parsed; parsing skips clauses it does not know.
- Summaries, the range analysis, the analysis cache, files, configuration, reporting, plugins and the security models.
