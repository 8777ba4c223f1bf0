/** `org.koin.Koin`, the builder that loads modules into a Koin context, with the three
    collaborators it holds. The collaborators keep a log of the calls they receive; what they
    reply is given by a behaviour fixed when they are created (their own code is not part of
    this model). */
module KoinCore {
  import opened KoinTypes
  import opened ContextTree
  import opened Registration

  /** The instance resolver, seen through its `findOrCreateScope` calls. */
  class InstanceResolver {
    const behaviour: ScopeBehaviour
    var scopeCalls: seq<ScopeCall>

    constructor (behaviour: ScopeBehaviour)
      ensures this.behaviour == behaviour && scopeCalls == []
    {
      this.behaviour := behaviour;
      scopeCalls := [];
    }

    /** Returns the scope named `scope`, created under `parent` if need be, or throws. */
    method FindOrCreateScope(scope: ScopeKey, parent: Option<ScopeKey>) returns (reply: Result<ScopeRef>)
      modifies this
      ensures reply == behaviour(old(scopeCalls), scope, parent)
      ensures scopeCalls == old(scopeCalls) + [ScopeCall(scope, parent, reply)]
    {
      reply := behaviour(scopeCalls, scope, parent);
      scopeCalls := scopeCalls + [ScopeCall(scope, parent, reply)];
    }
  }

  /** The bean registry, seen through its `declare` calls. */
  class BeanRegistry {
    const behaviour: DeclareBehaviour
    var declareCalls: seq<DeclareCall>

    constructor (behaviour: DeclareBehaviour)
      ensures this.behaviour == behaviour && declareCalls == []
    {
      this.behaviour := behaviour;
      declareCalls := [];
    }

    /** Registers `definition` in `scope`, or throws. */
    method Declare(definition: BeanDefinition, scope: ScopeRef) returns (status: Outcome)
      modifies this
      ensures status == behaviour(old(declareCalls), definition, scope)
      ensures declareCalls == old(declareCalls) + [DeclareCall(definition, scope, status)]
    {
      status := behaviour(declareCalls, definition, scope);
      declareCalls := declareCalls + [DeclareCall(definition, scope, status)];
    }
  }

  /** A call to `PropertyResolver.addAll` and whether it threw. */
  datatype AddAllCall = AddAllCall(props: map<string, Value>, status: Outcome)

  type AddAllBehaviour = (seq<AddAllCall>, map<string, Value>) -> Outcome

  /** The property store, seen through its `addAll` calls. */
  class PropertyResolver {
    const behaviour: AddAllBehaviour
    var addAllCalls: seq<AddAllCall>

    constructor (behaviour: AddAllBehaviour)
      ensures this.behaviour == behaviour && addAllCalls == []
    {
      this.behaviour := behaviour;
      addAllCalls := [];
    }

    /** Adds the batch `props` to the store, or throws. */
    method AddAll(props: map<string, Value>) returns (status: Outcome)
      modifies this
      ensures status == behaviour(old(addAllCalls), props)
      ensures addAllCalls == old(addAllCalls) + [AddAllCall(props, status)]
    {
      status := behaviour(addAllCalls, props);
      addAllCalls := addAllCalls + [AddAllCall(props, status)];
    }
  }

  /** The context `build` returns: a facade over the three collaborators. */
  class KoinContext {
    const beanRegistry: BeanRegistry
    const propertyResolver: PropertyResolver
    const instanceResolver: InstanceResolver

    constructor (beanRegistry: BeanRegistry, propertyResolver: PropertyResolver, instanceResolver: InstanceResolver)
      ensures this.beanRegistry == beanRegistry
      ensures this.propertyResolver == propertyResolver
      ensures this.instanceResolver == instanceResolver
    {
      this.beanRegistry := beanRegistry;
      this.propertyResolver := propertyResolver;
      this.instanceResolver := instanceResolver;
    }
  }

  /** A module: the declaration tree its `context()` produces, and the Koin context it is wired to.
      `seenContext` records the Koin context the module was wired to when `context()` was called. */
  class Module {
    const declaration: Context
    var koinContext: KoinContext?
    ghost var seenContext: KoinContext?

    constructor (declaration: Context)
      ensures this.declaration == declaration && koinContext == null && seenContext == null
    {
      this.declaration := declaration;
      koinContext := null;
      seenContext := null;
    }

    method Context() returns (c: Context)
      modifies this
      ensures c == declaration
      ensures koinContext == old(koinContext) && seenContext == koinContext
    {
      seenContext := koinContext;
      c := declaration;
    }
  }

  /** The declaration trees of a list of modules, in list order. */
  function Trees(modules: seq<Module>): seq<Context>
  {
    seq(|modules|, k requires 0 <= k < |modules| => modules[k].declaration)
  }

  /** The first `n` modules of `ms` are wired to `ctx`, and were already wired to it when their
      `context()` was called. */
  ghost predicate WiredTo(ms: seq<Module>, n: nat, ctx: KoinContext)
    requires n <= |ms|
    reads ms
  {
    forall j | 0 <= j < n :: ms[j].koinContext == ctx && ms[j].seenContext == ctx
  }

  /** The modules among the first `n` of `ms`. */
  ghost function Loaded(ms: seq<Module>, n: nat): set<Module>
    requires n <= |ms|
  {
    if n == 0 then {} else Loaded(ms, n - 1) + {ms[n - 1]}
  }

  /** The modules of `ms` that are not among its first `n` have the wiring they had in the earlier state. */
  twostate predicate Untouched(ms: seq<Module>, n: nat)
    requires n <= |ms|
    reads ms
  {
    forall m | m in ms && m !in Loaded(ms, n) :: m.koinContext == old(m.koinContext) && m.seenContext == old(m.seenContext)
  }

  /** The first half of one round of the module loop of `build`: wire the `i`-th module to `ctx`
      and ask it for its tree. */
  method Wire(modules: seq<Module>, i: nat, ctx: KoinContext) returns (c: Context)
    requires i < |modules| && WiredTo(modules, i, ctx)
    modifies modules[i]
    ensures WiredTo(modules, i + 1, ctx)
    ensures c == modules[i].declaration
  {
    modules[i].koinContext := ctx;
    c := modules[i].Context();
  }

  class Koin {
    const beanRegistry: BeanRegistry
    const propertyResolver: PropertyResolver
    const instanceResolver: InstanceResolver

    /** Every call made to the bean registry and the instance resolver, in the order made. */
    ghost var trace: Trace

    /** The collaborators' logs are the two views of the trace, and every declaration so far used
        the scope returned by the latest scope request before it. */
    ghost predicate Valid()
      reads this, beanRegistry, instanceResolver
    {
      && beanRegistry.declareCalls == DeclareCalls(trace)
      && instanceResolver.scopeCalls == ScopeCalls(trace)
      && DeclarationsBound(trace)
    }

    function Env(): Collaborators
    {
      Collaborators(instanceResolver.behaviour, beanRegistry.behaviour)
    }

    /** A context whose collaborators are exactly the three this builder holds. */
    ghost predicate Over(ctx: KoinContext)
    {
      && ctx.beanRegistry == beanRegistry
      && ctx.propertyResolver == propertyResolver
      && ctx.instanceResolver == instanceResolver
    }

    constructor (scopes: ScopeBehaviour, declarations: DeclareBehaviour, properties: AddAllBehaviour)
      ensures Valid() && trace == []
      ensures fresh(beanRegistry) && fresh(propertyResolver) && fresh(instanceResolver)
      ensures instanceResolver.behaviour == scopes && beanRegistry.behaviour == declarations
      ensures propertyResolver.behaviour == properties && propertyResolver.addAllCalls == []
    {
      beanRegistry := new BeanRegistry(declarations);
      propertyResolver := new PropertyResolver(properties);
      instanceResolver := new InstanceResolver(scopes);
      trace := [];
    }

    /** `properties(props)`: one `addAll(props)` on the property store; the same builder back, or
        the exception `addAll` threw. */
    method Properties(props: map<string, Value>) returns (result: Result<Koin>)
      modifies propertyResolver
      ensures var status := propertyResolver.behaviour(old(propertyResolver.addAllCalls), props);
        && propertyResolver.addAllCalls == old(propertyResolver.addAllCalls) + [AddAllCall(props, status)]
        && (result.Ok? <==> status.Pass?)
        && (result.Ok? ==> result.value == this)
        && (result.Err? ==> result.error == status.error)
    {
      var status := propertyResolver.AddAll(props);
      if status.Fail? {
        return Err(status.error);
      }
      return Ok(this);
    }

    /** `context.definitions.forEach { beanRegistry.declare(it, scope) }`: the calls of `DeclareAll`. */
    method DeclareDefinitions(definitions: seq<BeanDefinition>, scope: ScopeRef) returns (outcome: Outcome)
      requires Valid() && CurrentScope(trace) == Some(scope)
      modifies this, beanRegistry
      ensures Valid()
      ensures trace == DeclareAll(definitions, scope, Env(), old(trace)).trace
      ensures outcome == DeclareAll(definitions, scope, Env(), old(trace)).outcome
    {
      ghost var t0 := trace;
      var i := 0;
      while i < |definitions|
        invariant 0 <= i <= |definitions|
        invariant Valid() && CurrentScope(trace) == Some(scope)
        invariant DeclareAll(definitions[i..], scope, Env(), trace) == DeclareAll(definitions, scope, Env(), t0)
      {
        var definition := definitions[i];
        ghost var before := trace;
        var status := beanRegistry.Declare(definition, scope);
        assert status == Env().declare(DeclareCalls(before), definition, scope);
        ghost var d := Declared(DeclareCall(definition, scope, status));
        AppendEvent(trace, d);
        BoundAppend(trace, d);
        assert definitions[i..][1..] == definitions[i + 1..];
        trace := trace + [d];
        if status.Fail? {
          return status;
        }
        i := i + 1;
      }
      assert definitions[i..] == [];
      return Pass;
    }

    /** `registerDefinitions(context)`: the calls of `Walk`, made on the real collaborators. */
    method RegisterDefinitions(context: Context) returns (outcome: Outcome)
      requires Valid()
      modifies this, beanRegistry, instanceResolver
      ensures Valid()
      ensures trace == Walk(context, Env(), old(trace)).trace
      ensures outcome == Walk(context, Env(), old(trace)).outcome
    {
      var reply := instanceResolver.FindOrCreateScope(context.scope, context.parentScope);
      ghost var e := ScopeRequested(ScopeCall(context.scope, context.parentScope, reply));
      AppendEvent(trace, e);
      BoundAppend(trace, e);
      trace := trace + [e];
      if reply.Err? {
        return Fail(reply.error);
      }
      var scope := reply.value;
      var declared := DeclareDefinitions(context.definitions, scope);
      if declared.Fail? {
        return declared;
      }

      ghost var t2 := trace;
      var j := 0;
      while j < |context.subContexts|
        invariant 0 <= j <= |context.subContexts|
        invariant Valid()
        invariant WalkFrom(context, j, Env(), trace) == WalkFrom(context, 0, Env(), t2)
      {
        var o := RegisterDefinitions(context.subContexts[j]);
        if o.Fail? {
          return o;
        }
        j := j + 1;
      }
      return Pass;
    }

    /** One round of the module loop of `build`: wire the `i`-th module to `ctx`, ask it for its
        tree and register the tree. */
    method LoadModule(modules: seq<Module>, i: nat, ctx: KoinContext) returns (outcome: Outcome)
      requires i < |modules| && Valid() && WiredTo(modules, i, ctx)
      modifies this, beanRegistry, instanceResolver, modules[i]
      ensures Valid()
      ensures trace == Walk(modules[i].declaration, Env(), old(trace)).trace
      ensures outcome == Walk(modules[i].declaration, Env(), old(trace)).outcome
      ensures WiredTo(modules, i + 1, ctx)
    {
      var context := Wire(modules, i, ctx);
      outcome := RegisterDefinitions(context);
    }

    /** The module loop of `build`: load the modules one by one, in list order, until one throws. */
    method LoadModules(modules: seq<Module>, ctx: KoinContext) returns (outcome: Outcome)
      requires Valid()
      modifies this, beanRegistry, instanceResolver, modules
      ensures Valid()
      ensures trace == BuildRun(Trees(modules), Env(), old(trace)).trace
      ensures outcome == BuildRun(Trees(modules), Env(), old(trace)).outcome
      ensures WiredTo(modules, ModulesReached(Trees(modules), Env(), old(trace)), ctx)
      ensures Untouched(modules, ModulesReached(Trees(modules), Env(), old(trace)))
    {
      ghost var trees := Trees(modules);
      ghost var t0 := trace;
      var i := 0;
      outcome := Pass;
      while i < |modules| && outcome.Pass?
        invariant 0 <= i <= |modules|
        invariant Valid()
        invariant BuildAfter(trees, i, Env(), t0, trace, outcome)
        invariant WiredTo(modules, i, ctx)
        invariant Untouched(modules, i)
      {
        BuildAfterStep(trees, i, Env(), t0, trace);
        assert Loaded(modules, i + 1) == Loaded(modules, i) + {modules[i]};
        outcome := LoadModule(modules, i, ctx);
        i := i + 1;
      }
      if outcome.Pass? {
        assert trees[i..] == [];
      }
    }

    /** `build(modules)`: wire every module to one new context, then register its tree, module by
        module in list order; the first exception is passed on. `ctx` is the context made, which
        is returned only when no module threw. */
    method Build(modules: seq<Module>) returns (result: Result<KoinContext>, ghost ctx: KoinContext)
      requires Valid()
      modifies this, beanRegistry, instanceResolver, modules
      ensures Valid()
      ensures trace == BuildRun(Trees(modules), Env(), old(trace)).trace
      ensures result.Err? <==> BuildRun(Trees(modules), Env(), old(trace)).outcome.Fail?
      ensures result.Err? ==> result.error == BuildRun(Trees(modules), Env(), old(trace)).outcome.error
      ensures fresh(ctx) && Over(ctx)
      ensures result.Ok? ==> result.value == ctx && WiredTo(modules, |modules|, ctx)
      ensures WiredTo(modules, ModulesReached(Trees(modules), Env(), old(trace)), ctx)
      ensures Untouched(modules, ModulesReached(Trees(modules), Env(), old(trace)))
      ensures modules == [] ==> result.Ok? && trace == old(trace)
    {
      var c := new KoinContext(beanRegistry, propertyResolver, instanceResolver);
      ctx := c;
      BuildReached(Trees(modules), Env(), trace);
      var outcome := LoadModules(modules, c);
      if outcome.Fail? {
        return Err(outcome.error), c;
      }
      return Ok(c), c;
    }

    /** `build(vararg modules)`: the same as `build` over the array's elements as a list. */
    method BuildVararg(modules: array<Module>) returns (result: Result<KoinContext>, ghost ctx: KoinContext)
      requires Valid()
      modifies this, beanRegistry, instanceResolver, modules[..]
      ensures Valid()
      ensures trace == BuildRun(Trees(modules[..]), Env(), old(trace)).trace
      ensures result.Err? <==> BuildRun(Trees(modules[..]), Env(), old(trace)).outcome.Fail?
      ensures result.Err? ==> result.error == BuildRun(Trees(modules[..]), Env(), old(trace)).outcome.error
      ensures fresh(ctx) && Over(ctx)
      ensures result.Ok? ==> result.value == ctx && WiredTo(modules[..], modules.Length, ctx)
      ensures WiredTo(modules[..], ModulesReached(Trees(modules[..]), Env(), old(trace)), ctx)
      ensures Untouched(modules[..], ModulesReached(Trees(modules[..]), Env(), old(trace)))
    {
      var ms := modules[..];
      result, ctx := Build(ms);
      assert modules[..] == ms;
    }

    /** `build()`: a context over the three collaborators, with no call made to any of them. */
    method BuildEmpty() returns (ctx: KoinContext)
      ensures fresh(ctx) && Over(ctx)
    {
      ctx := new KoinContext(beanRegistry, propertyResolver, instanceResolver);
    }
  }
}
