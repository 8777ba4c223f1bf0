/** The declaration tree a module produces (`org.koin.dsl.context.Context`) and the pure, pre-order
    description of the calls that registering it makes. */
module ContextTree {
  import opened KoinTypes

  /** One node of a module's declaration tree: its scope, the parent scope it names, its own
      definitions in list order and its nested sub-contexts in list order. */
  datatype Context = Context(scope: ScopeKey, parentScope: Option<ScopeKey>,
                             definitions: seq<BeanDefinition>, subContexts: seq<Context>)

  /** A call of the registration walk, with the collaborators' replies left out. */
  datatype Step =
    | RequestScope(scope: ScopeKey, parent: Option<ScopeKey>)
    | DeclareDefinition(definition: BeanDefinition)

  // ---------------------------------------------------------------------------------------
  // Pre-order traversals. The children of a node are visited through an index into
  // `subContexts`, which is what lets the recursion go down through the sequence.
  // ---------------------------------------------------------------------------------------

  /** The nodes of the tree, each once, in pre-order: the node itself, then each sub-tree in list order. */
  function Nodes(c: Context): seq<Context>
    decreases c, |c.subContexts| + 1
  {
    [c] + NodesFrom(c, 0)
  }

  /** The pre-order nodes of the sub-trees `c.subContexts[i..]`. */
  function NodesFrom(c: Context, i: nat): seq<Context>
    requires i <= |c.subContexts|
    decreases c, |c.subContexts| - i
  {
    if i == |c.subContexts| then [] else Nodes(c.subContexts[i]) + NodesFrom(c, i + 1)
  }

  /** The pre-order flattening of the definitions: a node's own definitions first, then those of
      each sub-context in list order. */
  function Flatten(c: Context): seq<BeanDefinition>
    decreases c, |c.subContexts| + 1
  {
    c.definitions + FlattenFrom(c, 0)
  }

  function FlattenFrom(c: Context, i: nat): seq<BeanDefinition>
    requires i <= |c.subContexts|
    decreases c, |c.subContexts| - i
  {
    if i == |c.subContexts| then [] else Flatten(c.subContexts[i]) + FlattenFrom(c, i + 1)
  }

  /** The flattenings of several trees, one after the other. */
  function FlattenAll(trees: seq<Context>): seq<BeanDefinition>
  {
    if trees == [] then [] else Flatten(trees[0]) + FlattenAll(trees[1..])
  }

  /** The number of definitions held by a list of nodes. */
  function DefinitionTotal(ns: seq<Context>): nat
  {
    if ns == [] then 0 else |ns[0].definitions| + DefinitionTotal(ns[1..])
  }

  /** The scope and parent scope each node names, node by node. */
  function ScopesOf(ns: seq<Context>): seq<(ScopeKey, Option<ScopeKey>)>
  {
    seq(|ns|, k requires 0 <= k < |ns| => (ns[k].scope, ns[k].parentScope))
  }

  // ---------------------------------------------------------------------------------------
  // The plan: what registering a tree asks of the collaborators, when nothing fails.
  // ---------------------------------------------------------------------------------------

  function DeclareSteps(defs: seq<BeanDefinition>): seq<Step>
  {
    seq(|defs|, k requires 0 <= k < |defs| => DeclareDefinition(defs[k]))
  }

  /** What one node asks for: its scope, then each of its definitions against that scope. */
  function NodeSteps(n: Context): seq<Step>
  {
    [RequestScope(n.scope, n.parentScope)] + DeclareSteps(n.definitions)
  }

  function StepsOf(ns: seq<Context>): seq<Step>
  {
    if ns == [] then [] else NodeSteps(ns[0]) + StepsOf(ns[1..])
  }

  /** The calls registering `c` makes: node by node in pre-order, each node's scope request
      followed by the declarations of its own definitions. */
  function Plan(c: Context): seq<Step>
  {
    StepsOf(Nodes(c))
  }

  /** The calls registering several trees makes, one tree after the other. */
  function PlanAll(trees: seq<Context>): seq<Step>
  {
    if trees == [] then [] else Plan(trees[0]) + PlanAll(trees[1..])
  }

  /** The definitions declared by a list of steps, in order. */
  function DeclaredDefinitions(steps: seq<Step>): seq<BeanDefinition>
  {
    if steps == [] then []
    else (if steps[0].DeclareDefinition? then [steps[0].definition] else []) + DeclaredDefinitions(steps[1..])
  }

  /** The scope requests made by a list of steps, in order. */
  function ScopeRequests(steps: seq<Step>): seq<(ScopeKey, Option<ScopeKey>)>
  {
    if steps == [] then []
    else (if steps[0].RequestScope? then [(steps[0].scope, steps[0].parent)] else []) + ScopeRequests(steps[1..])
  }

  // ---------------------------------------------------------------------------------------
  // Lemmas
  // ---------------------------------------------------------------------------------------

  lemma {:induction false} StepsOfAppend(a: seq<Context>, b: seq<Context>)
    ensures StepsOf(a + b) == StepsOf(a) + StepsOf(b)
  {
    if a == [] {
      assert a + b == b;
    } else {
      assert (a + b)[0] == a[0];
      assert (a + b)[1..] == a[1..] + b;
      StepsOfAppend(a[1..], b);
    }
  }

  lemma {:induction false} DeclaredDefinitionsAppend(a: seq<Step>, b: seq<Step>)
    ensures DeclaredDefinitions(a + b) == DeclaredDefinitions(a) + DeclaredDefinitions(b)
  {
    if a == [] {
      assert a + b == b;
    } else {
      assert (a + b)[0] == a[0];
      assert (a + b)[1..] == a[1..] + b;
      DeclaredDefinitionsAppend(a[1..], b);
    }
  }

  lemma {:induction false} ScopeRequestsAppend(a: seq<Step>, b: seq<Step>)
    ensures ScopeRequests(a + b) == ScopeRequests(a) + ScopeRequests(b)
  {
    if a == [] {
      assert a + b == b;
    } else {
      assert (a + b)[0] == a[0];
      assert (a + b)[1..] == a[1..] + b;
      ScopeRequestsAppend(a[1..], b);
    }
  }

  lemma {:induction false} DefinitionTotalAppend(a: seq<Context>, b: seq<Context>)
    ensures DefinitionTotal(a + b) == DefinitionTotal(a) + DefinitionTotal(b)
  {
    if a == [] {
      assert a + b == b;
    } else {
      assert (a + b)[0] == a[0];
      assert (a + b)[1..] == a[1..] + b;
      DefinitionTotalAppend(a[1..], b);
    }
  }

  /** Declaring a list of definitions declares exactly those definitions, in order, and requests no scope. */
  lemma {:induction false} DeclareStepsContent(defs: seq<BeanDefinition>)
    ensures DeclaredDefinitions(DeclareSteps(defs)) == defs
    ensures ScopeRequests(DeclareSteps(defs)) == []
  {
    if defs != [] {
      assert DeclareSteps(defs) == [DeclareDefinition(defs[0])] + DeclareSteps(defs[1..]);
      DeclareStepsContent(defs[1..]);
      assert defs == [defs[0]] + defs[1..];
    }
  }

  /** The plan of a tree unfolds into the root's own steps followed by the plans of its sub-trees. */
  lemma PlanUnfold(c: Context)
    ensures Plan(c) == NodeSteps(c) + StepsOf(NodesFrom(c, 0))
  {
  }

  lemma PlanFromUnfold(c: Context, i: nat)
    requires i < |c.subContexts|
    ensures StepsOf(NodesFrom(c, i)) == Plan(c.subContexts[i]) + StepsOf(NodesFrom(c, i + 1))
  {
    StepsOfAppend(Nodes(c.subContexts[i]), NodesFrom(c, i + 1));
  }

  /** The steps of any node of a node list sit together: its scope request immediately followed
      by the declarations of its own definitions, with the earlier nodes' steps before them and the
      later nodes' steps after them. */
  lemma NodeStepsContiguous(ns: seq<Context>, k: nat)
    requires k < |ns|
    ensures StepsOf(ns) == StepsOf(ns[..k]) + NodeSteps(ns[k]) + StepsOf(ns[k + 1..])
  {
    var tail := ns[k..];
    assert ns == ns[..k] + tail;
    StepsOfAppend(ns[..k], tail);
    assert tail[0] == ns[k] && tail[1..] == ns[k + 1..];
  }

  /** Position by position: node `k`'s steps start right after those of the nodes before it, with
      its scope request, and go on with the declarations of its definitions in list order. */
  lemma NodeStepsAt(ns: seq<Context>, k: nat)
    requires k < |ns|
    ensures var p := |StepsOf(ns[..k])|;
      && p + 1 + |ns[k].definitions| <= |StepsOf(ns)|
      && StepsOf(ns)[p] == RequestScope(ns[k].scope, ns[k].parentScope)
      && forall j | 0 <= j < |ns[k].definitions| :: StepsOf(ns)[p + 1 + j] == DeclareDefinition(ns[k].definitions[j])
  {
    NodeStepsContiguous(ns, k);
  }

  /** Each node makes exactly one scope request, for its own scope and parent, in pre-order. */
  lemma {:induction false} StepsRequestEachScopeOnce(ns: seq<Context>)
    ensures ScopeRequests(StepsOf(ns)) == ScopesOf(ns)
  {
    if ns != [] {
      var first := [RequestScope(ns[0].scope, ns[0].parentScope)];
      assert NodeSteps(ns[0]) == first + DeclareSteps(ns[0].definitions);
      ScopeRequestsAppend(NodeSteps(ns[0]), StepsOf(ns[1..]));
      ScopeRequestsAppend(first, DeclareSteps(ns[0].definitions));
      DeclareStepsContent(ns[0].definitions);
      assert ScopeRequests(first) == [(ns[0].scope, ns[0].parentScope)];
      StepsRequestEachScopeOnce(ns[1..]);
      assert ScopesOf(ns) == [(ns[0].scope, ns[0].parentScope)] + ScopesOf(ns[1..]);
    }
  }

  /** A tree's scope requests: one per node, in pre-order. */
  lemma PlanRequestsEachScopeOnce(c: Context)
    ensures ScopeRequests(Plan(c)) == ScopesOf(Nodes(c))
    ensures |ScopeRequests(Plan(c))| == |Nodes(c)|
  {
    StepsRequestEachScopeOnce(Nodes(c));
  }

  lemma NodeStepsDeclare(n: Context)
    ensures DeclaredDefinitions(NodeSteps(n)) == n.definitions
  {
    DeclaredDefinitionsAppend([RequestScope(n.scope, n.parentScope)], DeclareSteps(n.definitions));
    DeclareStepsContent(n.definitions);
  }

  /** The definitions a tree's plan declares are its pre-order flattening. */
  lemma {:induction false} PlanDeclaresFlatten(c: Context)
    ensures DeclaredDefinitions(Plan(c)) == Flatten(c)
    decreases c, |c.subContexts| + 1
  {
    PlanUnfold(c);
    DeclaredDefinitionsAppend(NodeSteps(c), StepsOf(NodesFrom(c, 0)));
    NodeStepsDeclare(c);
    PlanFromDeclaresFlatten(c, 0);
  }

  lemma {:induction false} PlanFromDeclaresFlatten(c: Context, i: nat)
    requires i <= |c.subContexts|
    ensures DeclaredDefinitions(StepsOf(NodesFrom(c, i))) == FlattenFrom(c, i)
    decreases c, |c.subContexts| - i
  {
    if i < |c.subContexts| {
      PlanFromUnfold(c, i);
      DeclaredDefinitionsAppend(Plan(c.subContexts[i]), StepsOf(NodesFrom(c, i + 1)));
      PlanDeclaresFlatten(c.subContexts[i]);
      PlanFromDeclaresFlatten(c, i + 1);
    }
  }

  /** The flattening holds every definition of every node, and no other. */
  lemma {:induction false} FlattenLength(c: Context)
    ensures |Flatten(c)| == DefinitionTotal(Nodes(c))
    decreases c, |c.subContexts| + 1
  {
    FlattenFromLength(c, 0);
    DefinitionTotalAppend([c], NodesFrom(c, 0));
    assert DefinitionTotal([c]) == |c.definitions|;
  }

  lemma {:induction false} FlattenFromLength(c: Context, i: nat)
    requires i <= |c.subContexts|
    ensures |FlattenFrom(c, i)| == DefinitionTotal(NodesFrom(c, i))
    decreases c, |c.subContexts| - i
  {
    if i < |c.subContexts| {
      FlattenLength(c.subContexts[i]);
      FlattenFromLength(c, i + 1);
      DefinitionTotalAppend(Nodes(c.subContexts[i]), NodesFrom(c, i + 1));
    }
  }

  /** The definitions that registering several trees declares are their flattenings, concatenated. */
  lemma {:induction false} PlanAllDeclaresFlattenAll(trees: seq<Context>)
    ensures DeclaredDefinitions(PlanAll(trees)) == FlattenAll(trees)
  {
    if trees != [] {
      DeclaredDefinitionsAppend(Plan(trees[0]), PlanAll(trees[1..]));
      PlanDeclaresFlatten(trees[0]);
      PlanAllDeclaresFlattenAll(trees[1..]);
    }
  }
}
