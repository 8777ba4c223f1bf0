# Koin builder: the registration walk

This project models `org.koin.Koin`, the builder at the root of the Koin dependency-injection
container, and proves properties of how it loads modules.

A `Koin` holds three collaborators: a bean registry, an instance resolver and a property
resolver. Its operations are:

- `properties(map)` hands a batch of properties to the property resolver and returns the same
  builder, so calls can be chained. An exception from the resolver passes straight out.
- `build(modules)` creates one `KoinContext` over the three collaborators. It then takes the
  modules in list order. For each module it wires the module to that context, asks the module for
  its declaration tree (`context()`), and registers the tree.
- `build(vararg modules)` does the same over an array.
- `build()` only creates the context.

Registering a tree (`registerDefinitions`) visits its nodes in pre-order. For each node it asks
the instance resolver to find or create the node's scope. It then declares each of the node's
definitions against that scope, in list order, and then registers each sub-context in list order.
Nothing catches an exception: the first call that throws aborts the whole build, and what was
registered before it stays registered.

## How it is modelled

- `KoinTypes` (`types.dfy`) holds the values: scope keys, scope references, bean definitions,
  property values, and the `Result`/`Outcome` replies that stand for a return or a thrown
  exception.
- `ContextTree` (`context_tree.dfy`) holds the declaration tree `Context` and pure pre-order
  functions over it:
  - `Nodes` lists the nodes in pre-order.
  - `Flatten` is the pre-order flattening of the definitions.
  - `Plan` is the list of calls that registering a tree makes when nothing throws. It goes node by
    node: first the node's scope request, then one declaration per definition.
- `Registration` (`registration.dfy`) holds the walk as pure functions over a *trace*, the list of
  calls made to the bean registry and the instance resolver in the order they were made:
  - `Walk`, `DeclareAll` and `WalkFrom` mirror `registerDefinitions`.
  - `BuildRun` mirrors the module loop of `build`.
  - `Follows(run, t, plan)` says that a run started from trace `t` kept `t` unchanged and then made
    the calls of `plan` in order. Either every call succeeded and the whole plan was made, or the
    run stopped right after the first call that threw, and that exception is its outcome.
- `KoinCore` (`koin.dfy`) holds the classes. `Koin`, `Module`, `KoinContext` and the three
  collaborators each have the fields the source updates in place. `Koin.DeclareDefinitions`,
  `Koin.RegisterDefinitions` and `Koin.LoadModules` are imperative methods with loops. They are
  proved to make exactly the calls of `DeclareAll`, `Walk` and `BuildRun`. One round of the module
  loop is `Wire` (set `koinContext`, call `context()`) followed by `registerDefinitions`, together
  `Koin.LoadModule`. `Koin.Build` makes the context and runs the loop.
- `ModulesReached` counts the modules the loop wires before it ends: all of them on success, up to
  and including the one that threw otherwise. `Build` states which modules end up wired to the new
  context and that the others keep the `koinContext` they had.

The bean registry, the instance resolver and the property resolver are not part of this model.
Each keeps a log of the calls it received. Its reply to a call (a scope or an exception, nothing or
an exception) is an arbitrary total function of its own earlier calls, fixed when it is created.
That covers every implementation whose replies depend only on its own earlier calls and on the
arguments it is given (for the registry, the scope identity), including one that rejects
duplicates or scope cycles. The properties of the walk's calls (`Follows`, `Flatten`, scope
binding) hold for any replies at all; the method contracts hold for collaborators of that kind.

Two facts about the code matter for what `build()` and the walk do:

- `build()` (Koin.kt:63) only wraps the three collaborators this builder already holds. Anything an
  earlier `build(modules)` registered therefore stays visible through it, and `BuildEmpty` says
  exactly that.
- `registerDefinitions` (Koin.kt:42-53) recurses into sub-contexts with no depth guard, and
  neither does the model. Trees are finite values here.

## Model

| member | source | states |
|---|---|---|
| KoinCore.Koin.constructor | koin-core/src/main/kotlin/org/koin/Koin.kt:13-16 | a new builder holds three fresh collaborators with empty logs; nothing has been registered yet |
| KoinCore.Koin.Properties | koin-core/src/main/kotlin/org/koin/Koin.kt:21-24 | makes exactly one `addAll(props)` call, logged with the resolver's reply; returns the very same builder when `addAll` returns and the exception it threw otherwise; the bean registry, the instance resolver and the trace are outside its frame and stay unchanged |
| KoinCore.PropertyResolver.AddAll | koin-core/src/main/kotlin/org/koin/Koin.kt:22 | the resolver's reply (return or exception) is its behaviour applied to its earlier calls; the store's log grows by exactly this batch and that reply |
| KoinCore.Koin.Build | koin-core/src/main/kotlin/org/koin/Koin.kt:29-37 | makes exactly the calls of `BuildRun` over the modules' trees in list order; fails with the first collaborator exception and succeeds otherwise; the context it makes is fresh and over the builder's own three collaborators, and is the one returned on success; every module the loop reached (`ModulesReached`: all of them on success) is wired to that context and was already wired to it when its `context()` was called; every other module keeps the `koinContext` it had; an empty list makes no call |
| KoinCore.KoinContext.constructor | koin-core/src/main/kotlin/org/koin/Koin.kt:30 | the context is built over exactly the three given collaborators |
| KoinCore.Module.Context | koin-core/src/main/kotlin/org/koin/Koin.kt:32-33 | `context()` yields the module's declaration tree and records the Koin context the module was wired to at that moment |
| KoinCore.Koin.DeclareDefinitions | koin-core/src/main/kotlin/org/koin/Koin.kt:49 | the loop over a node's definitions makes exactly the calls of `DeclareAll`, one `declare` per definition against the node's scope, and returns its outcome; the registry's log stays the view of the trace |
| KoinCore.Koin.RegisterDefinitions | koin-core/src/main/kotlin/org/koin/Koin.kt:42-53 | the scope request, the declaration loop and the sub-context loop make exactly the calls of `Walk` on the real collaborators, and return its outcome; the logs stay the two views of the trace, and every declaration stays bound to its node's scope |
| KoinCore.InstanceResolver.FindOrCreateScope | koin-core/src/main/kotlin/org/koin/Koin.kt:46 | the resolver's reply is its behaviour applied to its earlier calls; the call is logged with its reply |
| KoinCore.BeanRegistry.Declare | koin-core/src/main/kotlin/org/koin/Koin.kt:49 | the registry's reply is its behaviour applied to its earlier calls; the call is logged with its reply |
| KoinCore.Koin.BuildVararg | koin-core/src/main/kotlin/org/koin/Koin.kt:58 | has exactly the effect and the result of `Build` over the array's elements as a list, with the same wiring of the modules reached and the others untouched |
| KoinCore.Koin.BuildEmpty | koin-core/src/main/kotlin/org/koin/Koin.kt:63 | returns a fresh context over the builder's own three collaborators and changes nothing, so it makes no scope request or declaration |
| Registration.Walk | koin-core/src/main/kotlin/org/koin/Koin.kt:42-53 | registering a tree extends the trace (nothing is rolled back); its first call is the scope request for the root's scope and parent; a failed outcome is the exception of the last call made |
| Registration.DeclareAll | koin-core/src/main/kotlin/org/koin/Koin.kt:49 | declaring a node's definitions extends the trace by at most one call per definition; a failed outcome is the exception of the last call made |
| Registration.WalkFrom | koin-core/src/main/kotlin/org/koin/Koin.kt:52 | the sub-context loop extends the trace, by at least one call when a sub-context is left; a failed outcome is the exception of the last call made |
| Registration.BuildRun | koin-core/src/main/kotlin/org/koin/Koin.kt:31-35 | the module loop extends the trace, by at least one call when there is a module; a failed outcome is the exception of the last call made |
| Registration.ModulesReached | koin-core/src/main/kotlin/org/koin/Koin.kt:31-35 | the loop reaches at most every module, and at least the first one when there is one |
| Registration.BuildReached | koin-core/src/main/kotlin/org/koin/Koin.kt:31-35 | when `build` completes it reached every module; when it throws, the modules before the last one reached completed, and the run over the modules reached alone is the whole run |
| Registration.WalkDeclaresAgainstOwnScope | koin-core/src/main/kotlin/org/koin/Koin.kt:43-49 | in a tree's registration, the `d`-th definition of the `k`-th node (pre-order) is declared, if the run gets that far, against exactly the scope returned by that node's own scope request, which asked for that node's scope and parent |
| KoinCore.Wire | koin-core/src/main/kotlin/org/koin/Koin.kt:32-33 | wires one more module to the context before asking it for its tree, keeping the earlier modules wired; the tree is that module's own |
| KoinCore.Koin.LoadModule | koin-core/src/main/kotlin/org/koin/Koin.kt:32-34 | one round of the module loop: the module is wired to the context before `context()`, then its tree is registered with exactly the calls and outcome of `Walk` |
| KoinCore.Koin.LoadModules | koin-core/src/main/kotlin/org/koin/Koin.kt:31-35 | the module loop makes exactly the calls of `BuildRun` and has its outcome; the modules it reached are wired to the context, the others are untouched |
| Registration.DeclareAllFollows | koin-core/src/main/kotlin/org/koin/Koin.kt:49 | declaring a node's definitions keeps the earlier trace and makes one `declare` per definition, in list order; every call it makes is a `declare` against the given scope; it stops right after the first one that throws, whose exception is the outcome |
| Registration.WalkFollowsPlan | koin-core/src/main/kotlin/org/koin/Koin.kt:42-53 | registering a tree keeps the earlier trace (no rollback) and then makes the calls of `Plan`, in order: on success all of them, on failure a non-empty prefix that ends at the call that threw, whose exception is the outcome |
| Registration.WalkFromFollowsPlan | koin-core/src/main/kotlin/org/koin/Koin.kt:52 | registering the sub-contexts makes the calls of their plans one sub-tree after the other, in list order, with the same abort rule |
| Registration.BuildFollowsPlan | koin-core/src/main/kotlin/org/koin/Koin.kt:31-35 | the module loop makes the calls of the modules' plans concatenated in list order; a module is fully registered before the next starts, and the first exception ends the build with nothing undone |
| Registration.DeclareAllBound | koin-core/src/main/kotlin/org/koin/Koin.kt:49 | every declaration of a node is made against the scope that the latest scope request returned, and that scope stays current |
| Registration.WalkKeepsBound | koin-core/src/main/kotlin/org/koin/Koin.kt:46-49 | registering a tree keeps every declaration bound to the scope that the latest scope request before it returned |
| Registration.WalkFromKeepsBound | koin-core/src/main/kotlin/org/koin/Koin.kt:52 | the same binding holds across the sub-context loop |
| Registration.BuildKeepsBound | koin-core/src/main/kotlin/org/koin/Koin.kt:31-35 | the same binding holds across all modules of a build |
| Registration.WalkLogs | koin-core/src/main/kotlin/org/koin/Koin.kt:42-53 | when registering a tree completes, the bean registry's log gains exactly the tree's pre-order flattening, one `declare` per definition of the tree; the instance resolver's log gains one `findOrCreateScope(scope, parentScope)` per node, in pre-order |
| Registration.BuildLogs | koin-core/src/main/kotlin/org/koin/Koin.kt:29-37 | when `build` completes, the bean registry's log gains the modules' pre-order flattenings, concatenated in module order |
| ContextTree.PlanDeclaresFlatten | koin-core/src/main/kotlin/org/koin/Koin.kt:42-53 | the definitions a tree's plan declares are its pre-order flattening: a node's own definitions first, then each sub-context's in list order |
| ContextTree.PlanAllDeclaresFlattenAll | koin-core/src/main/kotlin/org/koin/Koin.kt:31-35 | the definitions that several trees' plans declare are their flattenings, concatenated in list order |
| ContextTree.StepsRequestEachScopeOnce | koin-core/src/main/kotlin/org/koin/Koin.kt:43-46 | the steps of a node list make exactly one scope request per node, for that node's scope and parent, in node order |
| ContextTree.PlanRequestsEachScopeOnce | koin-core/src/main/kotlin/org/koin/Koin.kt:43-52 | a tree's plan requests one scope per node of the tree, in pre-order |
| ContextTree.NodeStepsContiguous | koin-core/src/main/kotlin/org/koin/Koin.kt:43-49 | each node's scope request comes before that node's declarations, which follow it immediately and in list order, with nothing in between |
| ContextTree.FlattenLength | koin-core/src/main/kotlin/org/koin/Koin.kt:49-52 | the flattening holds as many definitions as the nodes of the tree hold together |

## Left out

- The internals of `BeanRegistry.declare`, `InstanceResolver.findOrCreateScope` and
  `PropertyResolver.addAll`: duplicate detection, scope-tree linking and property merging. These
  classes are not part of this model. Each call is logged, and its reply (including an exception)
  is an arbitrary function of the collaborator's earlier calls.
- Collaborators that share state: a bean registry whose reply depends on the instance resolver's
  scope tree (a scope's parent or children, set up by later `findOrCreateScope` calls) is not
  covered, because each collaborator's reply here sees only its own log and the call's arguments.
- Instance resolution, singleton caching, cycle detection and parent-scope lookup. None of it is
  in `Koin.kt`.
- `KoinContext`'s lookup operations (`get`, `getProperty`). Only its construction is modelled.
- `Module.context()` and the DSL that builds declaration trees. A module's tree is a given finite
  value. What `context()` may do with `koinContext` is reduced to recording the context it sees.
- The construction closure of a bean definition, reflection and `KClass` type keys: a definition
  is a name, a type name and a lifecycle.
- Logging and concurrency. A very deep tree overflowing the JVM stack is not modelled either,
  because the model's trees are finite and its recursion has no depth limit.
