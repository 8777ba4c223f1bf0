/** The registration walk of `Koin.registerDefinitions` and of the module loop of `Koin.build`, as pure
    functions over the trace of calls made to the bean registry and the instance resolver.

    The two collaborators are not part of this model: what each replies to a call is an arbitrary
    total function of its own earlier calls and of the call's arguments (`Collaborators`). That
    covers every implementation whose replies depend only on those, including ones that throw; a
    registry that consults the resolver's scope tree is not covered. */
module Registration {
  import opened KoinTypes
  import opened ContextTree

  /** A call to `InstanceResolver.findOrCreateScope` and what it returned or threw. */
  datatype ScopeCall = ScopeCall(scope: ScopeKey, parent: Option<ScopeKey>, reply: Result<ScopeRef>)

  /** A call to `BeanRegistry.declare` and whether it threw. */
  datatype DeclareCall = DeclareCall(definition: BeanDefinition, scope: ScopeRef, status: Outcome)

  /** One call to either collaborator; a trace keeps the calls to both in the order they were made. */
  datatype Event = ScopeRequested(sc: ScopeCall) | Declared(dc: DeclareCall)

  type Trace = seq<Event>

  type ScopeBehaviour = (seq<ScopeCall>, ScopeKey, Option<ScopeKey>) -> Result<ScopeRef>
  type DeclareBehaviour = (seq<DeclareCall>, BeanDefinition, ScopeRef) -> Outcome

  /** How the instance resolver and the bean registry answer, given their own earlier calls. */
  datatype Collaborators = Collaborators(findOrCreateScope: ScopeBehaviour, declare: DeclareBehaviour)

  /** The calls made so far, and whether the walk completed or was aborted by an exception. */
  datatype Run = Run(trace: Trace, outcome: Outcome)

  // ---------------------------------------------------------------------------------------
  // Views of a trace
  // ---------------------------------------------------------------------------------------

  /** The calls the instance resolver received, in order. */
  function ScopeCalls(t: Trace): seq<ScopeCall>
  {
    if t == [] then []
    else ScopeCalls(t[..|t| - 1]) + (if t[|t| - 1].ScopeRequested? then [t[|t| - 1].sc] else [])
  }

  /** The calls the bean registry received, in order. */
  function DeclareCalls(t: Trace): seq<DeclareCall>
  {
    if t == [] then []
    else DeclareCalls(t[..|t| - 1]) + (if t[|t| - 1].Declared? then [t[|t| - 1].dc] else [])
  }

  /** The definitions passed to `declare`, in order. */
  function DeclaredIn(calls: seq<DeclareCall>): seq<BeanDefinition>
  {
    seq(|calls|, k requires 0 <= k < |calls| => calls[k].definition)
  }

  /** The scope and parent passed to `findOrCreateScope`, in order. */
  function RequestedIn(calls: seq<ScopeCall>): seq<(ScopeKey, Option<ScopeKey>)>
  {
    seq(|calls|, k requires 0 <= k < |calls| => (calls[k].scope, calls[k].parent))
  }

  function StepOf(e: Event): Step
  {
    match e
    case ScopeRequested(sc) => RequestScope(sc.scope, sc.parent)
    case Declared(dc) => DeclareDefinition(dc.definition)
  }

  function Strip(t: Trace): seq<Step>
  {
    seq(|t|, k requires 0 <= k < |t| => StepOf(t[k]))
  }

  predicate Failed(e: Event)
  {
    match e
    case ScopeRequested(sc) => sc.reply.Err?
    case Declared(dc) => dc.status.Fail?
  }

  function ErrorOf(e: Event): KoinError
    requires Failed(e)
  {
    match e
    case ScopeRequested(sc) => sc.reply.error
    case Declared(dc) => dc.status.error
  }

  /** The scope the last `findOrCreateScope` call of the trace returned, if it returned one. */
  function CurrentScope(t: Trace): Option<ScopeRef>
  {
    if t == [] then None
    else match t[|t| - 1]
      case ScopeRequested(sc) => if sc.reply.Ok? then Some(sc.reply.value) else None
      case Declared(_) => CurrentScope(t[..|t| - 1])
  }

  /** Every definition was declared against the scope that the latest `findOrCreateScope` call
      before it returned. */
  predicate DeclarationsBound(t: Trace)
  {
    forall j | 0 <= j < |t| :: BoundAt(t, j)
  }

  /** The call at position `j`, if it is a declaration, used the scope current just before it. */
  predicate BoundAt(t: Trace, j: nat)
    requires j < |t|
  {
    t[j].Declared? ==> CurrentScope(t[..j]) == Some(t[j].dc.scope)
  }

  /** A run started from trace `t` that failed made at least one call, and its outcome is the
      exception thrown by the last call it made. */
  predicate AbortedByLast(r: Run, t: Trace)
  {
    r.outcome.Fail? ==>
      |t| < |r.trace| && Failed(r.trace[|r.trace| - 1]) && ErrorOf(r.trace[|r.trace| - 1]) == r.outcome.error
  }

  /** Run `r` started from trace `t` and carried out `plan`: it kept `t` (nothing is rolled back),
      then made the calls of `plan` in order; every call succeeded and the whole plan was made,
      or the calls stopped right after the first one that threw, whose exception is the outcome. */
  predicate Follows(r: Run, t: Trace, plan: seq<Step>)
  {
    && |t| <= |r.trace| <= |t| + |plan|
    && r.trace[..|t|] == t
    && (forall i | |t| <= i < |r.trace| :: StepOf(r.trace[i]) == plan[i - |t|])
    && (forall i | |t| <= i < |r.trace| :: Failed(r.trace[i]) <==> (r.outcome.Fail? && i == |r.trace| - 1))
    && (r.outcome.Pass? ==> |r.trace| == |t| + |plan|)
    && AbortedByLast(r, t)
  }

  // ---------------------------------------------------------------------------------------
  // The walk
  // ---------------------------------------------------------------------------------------

  /** `registerDefinitions(c)`: find or create the node's scope, declare each of the node's
      definitions against it, then register each sub-context; an exception aborts the walk. */
  function Walk(c: Context, env: Collaborators, t: Trace): (r: Run)
    ensures t < r.trace && AbortedByLast(r, t)
    ensures r.trace[|t|].ScopeRequested? && r.trace[|t|].sc.scope == c.scope && r.trace[|t|].sc.parent == c.parentScope
    decreases c, |c.subContexts| + 1
  {
    var reply := env.findOrCreateScope(ScopeCalls(t), c.scope, c.parentScope);
    var t1 := t + [ScopeRequested(ScopeCall(c.scope, c.parentScope, reply))];
    match reply
    case Err(e) => Run(t1, Fail(e))
    case Ok(s) =>
      var r := DeclareAll(c.definitions, s, env, t1);
      if r.outcome.Fail? then r else WalkFrom(c, 0, env, r.trace)
  }

  /** `context.definitions.forEach { declare(it, scope) }`. */
  function DeclareAll(defs: seq<BeanDefinition>, s: ScopeRef, env: Collaborators, t: Trace): (r: Run)
    ensures t <= r.trace && |r.trace| <= |t| + |defs| && AbortedByLast(r, t)
  {
    if defs == [] then Run(t, Pass)
    else
      var status := env.declare(DeclareCalls(t), defs[0], s);
      var t1 := t + [Declared(DeclareCall(defs[0], s, status))];
      if status.Fail? then Run(t1, status) else DeclareAll(defs[1..], s, env, t1)
  }

  /** `context.subContexts.forEach { registerDefinitions(it) }`, from the `i`-th sub-context on. */
  function WalkFrom(c: Context, i: nat, env: Collaborators, t: Trace): (r: Run)
    requires i <= |c.subContexts|
    ensures t <= r.trace && AbortedByLast(r, t)
    ensures i < |c.subContexts| ==> t < r.trace
    decreases c, |c.subContexts| - i
  {
    if i == |c.subContexts| then Run(t, Pass)
    else
      var r := Walk(c.subContexts[i], env, t);
      if r.outcome.Fail? then r else WalkFrom(c, i + 1, env, r.trace)
  }

  /** The module loop of `build`: register each module's tree, in list order, until one throws. */
  function BuildRun(trees: seq<Context>, env: Collaborators, t: Trace): (r: Run)
    ensures t <= r.trace && AbortedByLast(r, t)
    ensures trees != [] ==> t < r.trace
  {
    if trees == [] then Run(t, Pass)
    else
      var r := Walk(trees[0], env, t);
      if r.outcome.Fail? then r else BuildRun(trees[1..], env, r.trace)
  }

  /** How many modules the module loop of `build` reaches: it wires and registers them one by one,
      and the one whose registration throws is the last one reached. */
  function ModulesReached(trees: seq<Context>, env: Collaborators, t: Trace): (n: nat)
    ensures n <= |trees|
    ensures trees != [] ==> 0 < n
  {
    if trees == [] then 0
    else
      var r := Walk(trees[0], env, t);
      if r.outcome.Fail? then 1 else 1 + ModulesReached(trees[1..], env, r.trace)
  }

  // ---------------------------------------------------------------------------------------
  // Lemmas: how the views change by one call
  // ---------------------------------------------------------------------------------------

  lemma AppendEvent(t: Trace, e: Event)
    ensures ScopeCalls(t + [e]) == ScopeCalls(t) + (if e.ScopeRequested? then [e.sc] else [])
    ensures DeclareCalls(t + [e]) == DeclareCalls(t) + (if e.Declared? then [e.dc] else [])
    ensures CurrentScope(t + [e]) ==
              if e.Declared? then CurrentScope(t)
              else if e.sc.reply.Ok? then Some(e.sc.reply.value) else None
  {
  }

  lemma BoundAppend(t: Trace, e: Event)
    requires DeclarationsBound(t)
    requires e.Declared? ==> CurrentScope(t) == Some(e.dc.scope)
    ensures DeclarationsBound(t + [e])
  {
    var t' := t + [e];
    forall j | 0 <= j < |t'|
      ensures BoundAt(t', j)
    {
      if j < |t| {
        assert BoundAt(t, j);
        assert t'[..j] == t[..j] && t'[j] == t[j];
      } else {
        assert t'[..j] == t;
      }
    }
  }

  // ---------------------------------------------------------------------------------------
  // Lemmas: composing runs
  // ---------------------------------------------------------------------------------------

  lemma FollowsNothing(t: Trace)
    ensures Follows(Run(t, Pass), t, [])
  {
  }

  lemma FollowsOne(t: Trace, e: Event, out: Outcome)
    requires Failed(e) <==> out.Fail?
    requires out.Fail? ==> ErrorOf(e) == out.error
    ensures Follows(Run(t + [e], out), t, [StepOf(e)])
  {
  }

  /** A run that succeeded, then a run from where it ended: together they follow both plans. */
  lemma FollowsThen(r1: Run, r2: Run, t: Trace, p1: seq<Step>, p2: seq<Step>)
    requires Follows(r1, t, p1) && r1.outcome.Pass?
    requires Follows(r2, r1.trace, p2)
    ensures Follows(r2, t, p1 + p2)
  {
  }

  /** A run that was aborted follows any longer plan just as well. */
  lemma FollowsAbort(r: Run, t: Trace, p1: seq<Step>, p2: seq<Step>)
    requires Follows(r, t, p1) && r.outcome.Fail?
    ensures Follows(r, t, p1 + p2)
  {
  }

  // ---------------------------------------------------------------------------------------
  // Lemmas: the walk carries out the plan
  // ---------------------------------------------------------------------------------------

  /** Declaring a node's definitions makes one `declare` call per definition, in list order,
      stopping at the first that throws. */
  lemma {:induction false} DeclareAllFollows(defs: seq<BeanDefinition>, s: ScopeRef, env: Collaborators, t: Trace)
    ensures Follows(DeclareAll(defs, s, env, t), t, DeclareSteps(defs))
    ensures forall i | |t| <= i < |DeclareAll(defs, s, env, t).trace| ::
              DeclareAll(defs, s, env, t).trace[i].Declared? && DeclareAll(defs, s, env, t).trace[i].dc.scope == s
  {
    if defs == [] {
      FollowsNothing(t);
    } else {
      var status := env.declare(DeclareCalls(t), defs[0], s);
      var e := Declared(DeclareCall(defs[0], s, status));
      var r0 := Run(t + [e], status);
      FollowsOne(t, e, status);
      assert DeclareSteps(defs) == [StepOf(e)] + DeclareSteps(defs[1..]);
      if status.Fail? {
        FollowsAbort(r0, t, [StepOf(e)], DeclareSteps(defs[1..]));
      } else {
        var r := DeclareAll(defs[1..], s, env, t + [e]);
        DeclareAllFollows(defs[1..], s, env, t + [e]);
        FollowsThen(r0, r, t, [StepOf(e)], DeclareSteps(defs[1..]));
        assert r.trace[|t|] == (t + [e])[|t|] == e;
      }
    }
  }

  /** Registering a tree makes exactly the calls of its plan, in order, and stops right after
      the first call that throws; what was registered before stays. */
  lemma {:induction false} WalkFollowsPlan(c: Context, env: Collaborators, t: Trace)
    ensures Follows(Walk(c, env, t), t, Plan(c))
    decreases c, |c.subContexts| + 1
  {
    PlanUnfold(c);
    var reply := env.findOrCreateScope(ScopeCalls(t), c.scope, c.parentScope);
    var e := ScopeRequested(ScopeCall(c.scope, c.parentScope, reply));
    var t1 := t + [e];
    var rest := StepsOf(NodesFrom(c, 0));
    var first := [StepOf(e)];
    assert NodeSteps(c) == first + DeclareSteps(c.definitions);
    assert Plan(c) == first + (DeclareSteps(c.definitions) + rest);
    match reply
    case Err(err) =>
      FollowsOne(t, e, Fail(err));
      FollowsAbort(Run(t1, Fail(err)), t, first, DeclareSteps(c.definitions) + rest);
    case Ok(s) =>
      FollowsOne(t, e, Pass);
      var r := DeclareAll(c.definitions, s, env, t1);
      DeclareAllFollows(c.definitions, s, env, t1);
      FollowsThen(Run(t1, Pass), r, t, first, DeclareSteps(c.definitions));
      assert Plan(c) == NodeSteps(c) + rest;
      if r.outcome.Fail? {
        FollowsAbort(r, t, NodeSteps(c), rest);
      } else {
        WalkFromFollowsPlan(c, 0, env, r.trace);
        FollowsThen(r, WalkFrom(c, 0, env, r.trace), t, NodeSteps(c), rest);
      }
  }

  lemma {:induction false} WalkFromFollowsPlan(c: Context, i: nat, env: Collaborators, t: Trace)
    requires i <= |c.subContexts|
    ensures Follows(WalkFrom(c, i, env, t), t, StepsOf(NodesFrom(c, i)))
    decreases c, |c.subContexts| - i
  {
    if i == |c.subContexts| {
      FollowsNothing(t);
    } else {
      PlanFromUnfold(c, i);
      var r := Walk(c.subContexts[i], env, t);
      WalkFollowsPlan(c.subContexts[i], env, t);
      if r.outcome.Fail? {
        FollowsAbort(r, t, Plan(c.subContexts[i]), StepsOf(NodesFrom(c, i + 1)));
      } else {
        WalkFromFollowsPlan(c, i + 1, env, r.trace);
        FollowsThen(r, WalkFrom(c, i + 1, env, r.trace), t, Plan(c.subContexts[i]), StepsOf(NodesFrom(c, i + 1)));
      }
    }
  }

  /** `build` registers the modules' trees one after the other, in list order; the first
      exception ends it, and nothing registered before it is undone. */
  lemma {:induction false} BuildFollowsPlan(trees: seq<Context>, env: Collaborators, t: Trace)
    ensures Follows(BuildRun(trees, env, t), t, PlanAll(trees))
  {
    if trees == [] {
      FollowsNothing(t);
    } else {
      var r := Walk(trees[0], env, t);
      WalkFollowsPlan(trees[0], env, t);
      if r.outcome.Fail? {
        FollowsAbort(r, t, Plan(trees[0]), PlanAll(trees[1..]));
      } else {
        BuildFollowsPlan(trees[1..], env, r.trace);
        FollowsThen(r, BuildRun(trees[1..], env, r.trace), t, Plan(trees[0]), PlanAll(trees[1..]));
      }
    }
  }

  // ---------------------------------------------------------------------------------------
  // Lemmas: every declaration uses its own node's scope
  // ---------------------------------------------------------------------------------------

  lemma {:induction false} DeclareAllBound(defs: seq<BeanDefinition>, s: ScopeRef, env: Collaborators, t: Trace)
    requires DeclarationsBound(t) && CurrentScope(t) == Some(s)
    ensures DeclarationsBound(DeclareAll(defs, s, env, t).trace)
    ensures CurrentScope(DeclareAll(defs, s, env, t).trace) == Some(s)
  {
    if defs != [] {
      var status := env.declare(DeclareCalls(t), defs[0], s);
      var e := Declared(DeclareCall(defs[0], s, status));
      BoundAppend(t, e);
      AppendEvent(t, e);
      if status.Pass? {
        DeclareAllBound(defs[1..], s, env, t + [e]);
      }
    }
  }

  /** Registering a tree keeps every declaration bound to the scope that the latest scope request
      before it returned (`WalkDeclaresAgainstOwnScope` identifies that request as the one made for
      the definition's own node). */
  lemma {:induction false} WalkKeepsBound(c: Context, env: Collaborators, t: Trace)
    requires DeclarationsBound(t)
    ensures DeclarationsBound(Walk(c, env, t).trace)
    decreases c, |c.subContexts| + 1
  {
    var reply := env.findOrCreateScope(ScopeCalls(t), c.scope, c.parentScope);
    var e := ScopeRequested(ScopeCall(c.scope, c.parentScope, reply));
    BoundAppend(t, e);
    AppendEvent(t, e);
    if reply.Ok? {
      var r := DeclareAll(c.definitions, reply.value, env, t + [e]);
      DeclareAllBound(c.definitions, reply.value, env, t + [e]);
      if r.outcome.Pass? {
        WalkFromKeepsBound(c, 0, env, r.trace);
      }
    }
  }

  /** A `declare` call leaves the current scope as it was. */
  lemma {:induction false} CurrentScopeSkipsDeclared(t: Trace, a: nat, b: nat)
    requires a <= b <= |t|
    requires forall i | a <= i < b :: t[i].Declared?
    ensures CurrentScope(t[..b]) == CurrentScope(t[..a])
    decreases b - a
  {
    if a < b {
      assert t[..b][..b - 1] == t[..b - 1];
      CurrentScopeSkipsDeclared(t, a, b - 1);
    }
  }

  /** In a trace whose declarations are bound, a declaration preceded by a scope request and then
      only by declarations was made against the scope that request returned. */
  lemma BoundToRequest(t: Trace, p: nat, q: nat)
    requires DeclarationsBound(t)
    requires p < q < |t| && t[p].ScopeRequested? && t[q].Declared?
    requires forall i | p < i < q :: t[i].Declared?
    ensures t[p].sc.reply == Ok(t[q].dc.scope)
  {
    CurrentScopeSkipsDeclared(t, p + 1, q);
    assert BoundAt(t, q);
    assert t[..p + 1][..p] == t[..p];
  }

  /** The call at `p` requested node `n`'s scope, the call at `p + 1 + d` declared `n`'s `d`-th
      definition, and it did so against the scope the call at `p` returned. */
  predicate DeclaredAgainstOwnScope(t: Trace, p: nat, n: Context, d: nat)
  {
    && p + 1 + d < |t| && d < |n.definitions|
    && t[p].ScopeRequested? && t[p].sc.scope == n.scope && t[p].sc.parent == n.parentScope
    && t[p + 1 + d].Declared? && t[p + 1 + d].dc.definition == n.definitions[d]
    && t[p].sc.reply == Ok(t[p + 1 + d].dc.scope)
  }

  /** A run with bound declarations that follows the steps of a node list declares every definition
      it reaches against the scope requested for the definition's own node. */
  lemma FollowsOwnScope(r: Run, t: Trace, ns: seq<Context>, k: nat, d: nat)
    requires Follows(r, t, StepsOf(ns)) && DeclarationsBound(r.trace)
    requires k < |ns| && d < |ns[k].definitions|
    requires |t| + |StepsOf(ns[..k])| + 1 + d < |r.trace|
    ensures DeclaredAgainstOwnScope(r.trace, |t| + |StepsOf(ns[..k])|, ns[k], d)
  {
    var n, pre := ns[k], |StepsOf(ns[..k])|;
    var p := |t| + pre;
    NodeStepsAt(ns, k);
    assert StepOf(r.trace[p]) == StepsOf(ns)[pre];
    forall i | p < i <= p + 1 + d
      ensures r.trace[i].Declared? && r.trace[i].dc.definition == n.definitions[i - p - 1]
    {
      var j := i - p - 1;
      assert StepsOf(ns)[pre + 1 + j] == DeclareDefinition(n.definitions[j]);
      assert StepOf(r.trace[i]) == StepsOf(ns)[pre + 1 + j];
    }
    BoundToRequest(r.trace, p, p + 1 + d);
  }

  /** Node `k` of the tree (in pre-order) starts at position `|t| + |StepsOf(Nodes(c)[..k])|` of the
      run. If the run got as far as the node's `d`-th definition, it declared that definition against
      the scope returned by the request made for that same node. */
  lemma WalkDeclaresAgainstOwnScope(c: Context, env: Collaborators, t: Trace, k: nat, d: nat)
    requires DeclarationsBound(t)
    requires k < |Nodes(c)| && d < |Nodes(c)[k].definitions|
    requires |t| + |StepsOf(Nodes(c)[..k])| + 1 + d < |Walk(c, env, t).trace|
    ensures DeclaredAgainstOwnScope(Walk(c, env, t).trace, |t| + |StepsOf(Nodes(c)[..k])|, Nodes(c)[k], d)
  {
    WalkFollowsPlan(c, env, t);
    WalkKeepsBound(c, env, t);
    assert Plan(c) == StepsOf(Nodes(c));
    FollowsOwnScope(Walk(c, env, t), t, Nodes(c), k, d);
  }

  lemma {:induction false} WalkFromKeepsBound(c: Context, i: nat, env: Collaborators, t: Trace)
    requires i <= |c.subContexts|
    requires DeclarationsBound(t)
    ensures DeclarationsBound(WalkFrom(c, i, env, t).trace)
    decreases c, |c.subContexts| - i
  {
    if i < |c.subContexts| {
      var r := Walk(c.subContexts[i], env, t);
      WalkKeepsBound(c.subContexts[i], env, t);
      if r.outcome.Pass? {
        WalkFromKeepsBound(c, i + 1, env, r.trace);
      }
    }
  }

  lemma {:induction false} BuildKeepsBound(trees: seq<Context>, env: Collaborators, t: Trace)
    requires DeclarationsBound(t)
    ensures DeclarationsBound(BuildRun(trees, env, t).trace)
  {
    if trees != [] {
      var r := Walk(trees[0], env, t);
      WalkKeepsBound(trees[0], env, t);
      if r.outcome.Pass? {
        BuildKeepsBound(trees[1..], env, r.trace);
      }
    }
  }

  /** The modules `build` reaches are those it wires: all of them when it completes; otherwise the
      modules before the one that threw completed, and the modules after it play no part. */
  lemma BuildReached(trees: seq<Context>, env: Collaborators, t: Trace)
    ensures BuildRun(trees, env, t).outcome.Pass? ==> ModulesReached(trees, env, t) == |trees|
    ensures BuildRun(trees, env, t).outcome.Fail? ==>
              var n := ModulesReached(trees, env, t);
              && 0 < n
              && BuildRun(trees[..n - 1], env, t).outcome.Pass?
              && BuildRun(trees[..n], env, t) == BuildRun(trees, env, t)
  {
    if BuildRun(trees, env, t).outcome.Pass? {
      BuildReachesAll(trees, env, t);
    } else {
      BuildStopsAtFailure(trees, env, t);
    }
  }

  lemma {:induction false} BuildReachesAll(trees: seq<Context>, env: Collaborators, t: Trace)
    requires BuildRun(trees, env, t).outcome.Pass?
    ensures ModulesReached(trees, env, t) == |trees|
  {
    if trees != [] {
      BuildReachesAll(trees[1..], env, Walk(trees[0], env, t).trace);
    }
  }

  lemma {:induction false} BuildStopsAtFailure(trees: seq<Context>, env: Collaborators, t: Trace)
    requires BuildRun(trees, env, t).outcome.Fail?
    ensures var n := ModulesReached(trees, env, t);
              && 0 < n
              && BuildRun(trees[..n - 1], env, t).outcome.Pass?
              && BuildRun(trees[..n], env, t) == BuildRun(trees, env, t)
  {
    var r := Walk(trees[0], env, t);
    var n := ModulesReached(trees, env, t);
    assert trees[..n][0] == trees[0];
    if r.outcome.Fail? {
      assert trees[..n - 1] == [] && trees[..n][1..] == [];
    } else {
      BuildStopsAtFailure(trees[1..], env, r.trace);
      assert trees[..n][1..] == trees[1..][..n - 1];
      if 1 < n {
        assert trees[..n - 1][0] == trees[0] && trees[..n - 1][1..] == trees[1..][..n - 2];
      }
    }
  }

  /** Where the module loop of `build`, started from `t0`, stands after `i` rounds that left the
      trace `t` and the outcome `o`: either no module has thrown yet and the remaining rounds make
      the rest of the run, or module `i` was the first to throw and the run is over. */
  predicate BuildAfter(trees: seq<Context>, i: nat, env: Collaborators, t0: Trace, t: Trace, o: Outcome)
    requires i <= |trees|
  {
    if o.Pass? then
      && BuildRun(trees[i..], env, t) == BuildRun(trees, env, t0)
      && i + ModulesReached(trees[i..], env, t) == ModulesReached(trees, env, t0)
    else
      && Run(t, o) == BuildRun(trees, env, t0)
      && i == ModulesReached(trees, env, t0)
  }

  /** One more round of the module loop keeps `BuildAfter`. */
  lemma BuildAfterStep(trees: seq<Context>, i: nat, env: Collaborators, t0: Trace, t: Trace)
    requires i < |trees| && BuildAfter(trees, i, env, t0, t, Pass)
    ensures var r := Walk(trees[i], env, t); BuildAfter(trees, i + 1, env, t0, r.trace, r.outcome)
  {
    BuildRunStep(trees, i, env, t);
  }

  /** Round `i` of the module loop of `build`. */
  lemma BuildRunStep(trees: seq<Context>, i: nat, env: Collaborators, t: Trace)
    requires i < |trees|
    ensures var r := Walk(trees[i], env, t);
      && (r.outcome.Fail? ==> BuildRun(trees[i..], env, t) == r && ModulesReached(trees[i..], env, t) == 1)
      && (r.outcome.Pass? ==> BuildRun(trees[i..], env, t) == BuildRun(trees[i + 1..], env, r.trace)
                              && ModulesReached(trees[i..], env, t) == 1 + ModulesReached(trees[i + 1..], env, r.trace))
  {
    assert trees[i..][0] == trees[i] && trees[i..][1..] == trees[i + 1..];
  }

  // ---------------------------------------------------------------------------------------
  // Lemmas: the collaborators' own logs
  // ---------------------------------------------------------------------------------------

  /** What a stretch of calls adds to the registry's and the resolver's logs is what its steps
      declare and request. */
  lemma {:induction false} LogsOfAppended(t: Trace, es: Trace)
    ensures DeclaredIn(DeclareCalls(t + es)) == DeclaredIn(DeclareCalls(t)) + DeclaredDefinitions(Strip(es))
    ensures RequestedIn(ScopeCalls(t + es)) == RequestedIn(ScopeCalls(t)) + ScopeRequests(Strip(es))
    decreases |es|
  {
    if es == [] {
      assert t + es == t;
    } else {
      var front, e := es[..|es| - 1], es[|es| - 1];
      assert t + es == (t + front) + [e];
      LogsOfAppended(t, front);
      AppendEvent(t + front, e);
      assert Strip(es) == Strip(front) + [StepOf(e)];
      DeclaredDefinitionsAppend(Strip(front), [StepOf(e)]);
      ScopeRequestsAppend(Strip(front), [StepOf(e)]);
      var dt := DeclareCalls(t + front);
      var st := ScopeCalls(t + front);
      if e.Declared? {
        assert DeclaredIn(dt + [e.dc]) == DeclaredIn(dt) + [e.dc.definition];
        assert RequestedIn(st + []) == RequestedIn(st);
      } else {
        assert DeclaredIn(dt + []) == DeclaredIn(dt);
        assert RequestedIn(st + [e.sc]) == RequestedIn(st) + [(e.sc.scope, e.sc.parent)];
      }
    }
  }

  lemma FollowsCompleted(r: Run, t: Trace, plan: seq<Step>)
    requires Follows(r, t, plan) && r.outcome.Pass?
    ensures r.trace == t + r.trace[|t|..] && Strip(r.trace[|t|..]) == plan
  {
  }

  /** When registering a tree completes, the bean registry has received exactly the tree's
      pre-order flattening, one `declare` per definition, after what it held before; and the
      instance resolver one `findOrCreateScope` per node, in pre-order. */
  lemma WalkLogs(c: Context, env: Collaborators, t: Trace)
    requires Walk(c, env, t).outcome.Pass?
    ensures DeclaredIn(DeclareCalls(Walk(c, env, t).trace)) == DeclaredIn(DeclareCalls(t)) + Flatten(c)
    ensures RequestedIn(ScopeCalls(Walk(c, env, t).trace)) == RequestedIn(ScopeCalls(t)) + ScopesOf(Nodes(c))
    ensures |DeclareCalls(Walk(c, env, t).trace)| == |DeclareCalls(t)| + DefinitionTotal(Nodes(c))
  {
    var r := Walk(c, env, t);
    WalkFollowsPlan(c, env, t);
    FollowsCompleted(r, t, Plan(c));
    LogsOfAppended(t, r.trace[|t|..]);
    PlanDeclaresFlatten(c);
    PlanRequestsEachScopeOnce(c);
    FlattenLength(c);
    assert |DeclaredIn(DeclareCalls(r.trace))| == |DeclareCalls(r.trace)|;
  }

  /** When `build` completes, the bean registry has received the modules' flattenings, concatenated
      in module order. */
  lemma BuildLogs(trees: seq<Context>, env: Collaborators, t: Trace)
    requires BuildRun(trees, env, t).outcome.Pass?
    ensures DeclaredIn(DeclareCalls(BuildRun(trees, env, t).trace)) == DeclaredIn(DeclareCalls(t)) + FlattenAll(trees)
  {
    var r := BuildRun(trees, env, t);
    BuildFollowsPlan(trees, env, t);
    FollowsCompleted(r, t, PlanAll(trees));
    LogsOfAppended(t, r.trace[|t|..]);
    PlanAllDeclaresFlattenAll(trees);
  }
}
