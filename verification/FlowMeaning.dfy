/** What a flow's result says of its steps, in terms of names, declared dependencies and step outcomes (flow.go). */
module FlowMeaning {
  import opened Common
  import opened Digraph
  import opened Kahn
  import opened Schedule
  import opened FlowGraph
  import opened FlowRun

  /** Step i declares step j as a dependency. */
  predicate DependsOn(nodes: seq<Node>, i: nat, j: nat)
    requires i < |nodes| && j < |nodes|
  {
    nodes[j].name in nodes[i].deps
  }

  /** Some step of this name declares step i as a dependency. */
  ghost predicate Listens(nodes: seq<Node>, i: nat, name: string)
    requires i < |nodes|
  {
    exists j: nat :: j < |nodes| && nodes[j].name == name && DependsOn(nodes, j, i)
  }

  ghost predicate Registered(nodes: seq<Node>, name: string) {
    exists j: nat :: j < |nodes| && nodes[j].name == name
  }

  /** Dependency j holds step i back: it is not done, or it is a router that did not select i. */
  predicate HoldsBack(nodes: seq<Node>, outcome: Outcomes, status: seq<Status>, i: nat, j: nat)
    requires i < |nodes| == |status| && j < |nodes|
  {
    DependsOn(nodes, i, j) && (status[j] != Done || (nodes[j].kind == Router && nodes[i].name !in outcome(j).route))
  }

  /** The p-th name of step i's route is the first that is no listener of it. */
  ghost predicate FirstIllegal(nodes: seq<Node>, route: seq<string>, i: nat, p: nat)
    requires i < |nodes|
  {
    p < |route| && !Listens(nodes, i, route[p]) && forall q: nat :: q < p ==> Listens(nodes, i, route[q])
  }

  /** e is why step i failed: its function's error, or the first name of its route that is no listener. */
  ghost predicate RightError(nodes: seq<Node>, outcome: Outcomes, i: nat, e: StepError)
    requires i < |nodes|
  {
    match e
    case Raised(message) => outcome(i).err == Some(message)
    case UnknownTarget(name) =>
      && outcome(i).err.None? && nodes[i].kind == Router && !Registered(nodes, name)
      && exists p: nat :: FirstIllegal(nodes, outcome(i).route, i, p) && outcome(i).route[p] == name
    case NotAListener(name, router) =>
      && outcome(i).err.None? && nodes[i].kind == Router && Registered(nodes, name) && router == nodes[i].name
      && exists p: nat :: FirstIllegal(nodes, outcome(i).route, i, p) && outcome(i).route[p] == name
  }

  // ----- names and indexes -----

  lemma EdgeIs(nodes: seq<Node>, i: nat, j: nat)
    requires Distinct(Names(nodes)) && i < |nodes| && j < |nodes|
    ensures j in StepGraph(nodes)[i] <==> DependsOn(nodes, i, j)
  {
    StepDeps(nodes, i);
    var names, deps := Names(nodes), nodes[i].deps;
    if DependsOn(nodes, i, j) {
      var k :| 0 <= k < |deps| && deps[k] == nodes[j].name;
      assert names[j] == deps[k];
      InListContains(names, deps, k);
      assert IndexOf(names, deps[k]) == j;
    }
  }

  lemma GraphInRange(nodes: seq<Node>, i: nat)
    requires i < |nodes|
    ensures forall j: nat :: j in StepGraph(nodes)[i] ==> j < |nodes|
  {
    StepDeps(nodes, i);
  }

  lemma RegisteredIs(nodes: seq<Node>, name: string)
    ensures Registered(nodes, name) <==> name in Names(nodes)
  {
    if name in Names(nodes) {
      var j: nat :| j < |nodes| && Names(nodes)[j] == name;
      assert nodes[j].name == name;
    }
    if Registered(nodes, name) {
      var j: nat :| j < |nodes| && nodes[j].name == name;
      assert Names(nodes)[j] == name;
    }
  }

  lemma RoutableIs(nodes: seq<Node>, i: nat, name: string)
    requires Distinct(Names(nodes)) && i < |nodes|
    ensures Routable(nodes, nodes[i].name, name) <==> Listens(nodes, i, name)
  {
    if Listens(nodes, i, name) {
      var j: nat :| j < |nodes| && nodes[j].name == name && DependsOn(nodes, j, i);
      assert Names(nodes)[j] == name && At(nodes, name) == j;
    }
    if Routable(nodes, nodes[i].name, name) {
      assert DependsOn(nodes, At(nodes, name), i);
    }
  }

  // ----- routes -----

  lemma {:induction false} RouteErrorIs(nodes: seq<Node>, route: seq<string>, i: nat)
    requires Distinct(Names(nodes)) && i < |nodes|
    ensures var e := RouteError(nodes, nodes[i].name, route);
            if e.None? then forall p: nat :: p < |route| ==> Listens(nodes, i, route[p])
            else exists p: nat :: FirstIllegal(nodes, route, i, p) && e == Some(Illegal(nodes, i, route[p]))
  {
    hide Listens, Registered, Routable;
    if route != [] {
      var front, n := route[..|route| - 1], |route| - 1;
      RouteErrorIs(nodes, front, i);
      RegisteredIs(nodes, route[n]);
      RoutableIs(nodes, i, route[n]);
      UnregisteredIs(nodes, i, route[n]);
      var before := RouteError(nodes, nodes[i].name, front);
      if before.Some? {
        var p: nat :| FirstIllegal(nodes, front, i, p) && before == Some(Illegal(nodes, i, front[p]));
        assert FirstIllegal(nodes, route, i, p) && route[p] == front[p];
      } else {
        forall q: nat | q < n ensures Listens(nodes, i, route[q]) {
          assert front[q] == route[q];
        }
        if !Listens(nodes, i, route[n]) {
          assert FirstIllegal(nodes, route, i, n);
        }
      }
    }
  }

  ghost function Illegal(nodes: seq<Node>, i: nat, name: string): StepError
    requires i < |nodes|
  {
    if Registered(nodes, name) then NotAListener(name, nodes[i].name) else UnknownTarget(name)
  }

  lemma UnregisteredIs(nodes: seq<Node>, i: nat, name: string)
    requires i < |nodes|
    ensures Listens(nodes, i, name) ==> Registered(nodes, name)
  {
  }

  lemma FailureIs(nodes: seq<Node>, outcome: Outcomes, i: nat)
    requires Distinct(Names(nodes)) && i < |nodes|
    ensures StepFailure(nodes, outcome, i).None? <==>
              outcome(i).err.None? && (nodes[i].kind == Router ==> forall p: nat :: p < |outcome(i).route| ==> Listens(nodes, i, outcome(i).route[p]))
    ensures StepFailure(nodes, outcome, i).Some? ==> RightError(nodes, outcome, i, StepFailure(nodes, outcome, i).value)
  {
    RouteErrorIs(nodes, outcome(i).route, i);
    hide Listens, Registered, RouteError;
  }

  // ----- the result of a run -----

  /** A step that is settled has settled dependencies; it is skipped exactly when one of them holds it back; run,
      it is done exactly when its function returns no error and, if it is a router, its route names only its own
      listeners; otherwise it is failed, with the error that says which. */
  ghost predicate StepMeant(nodes: seq<Node>, outcome: Outcomes, r: FlowResult, i: nat)
    requires i < |nodes| == |r.status|
  {
    && (forall j: nat :: j < |nodes| && DependsOn(nodes, i, j) ==> r.status[j] != Pending)
    && (r.status[i] == Skipped <==> exists j: nat :: j < |nodes| && HoldsBack(nodes, outcome, r.status, i, j))
    && (r.status[i] == Done || r.status[i] == Failed ==>
          (r.status[i] == Done <==>
             outcome(i).err.None? && (nodes[i].kind == Router ==> forall p: nat :: p < |outcome(i).route| ==> Listens(nodes, i, outcome(i).route[p]))))
    && (r.status[i] == Failed <==> nodes[i].name in r.errors)
    && (r.status[i] == Failed ==> RightError(nodes, outcome, i, r.errors[nodes[i].name]))
  }

  lemma EnabledIs(nodes: seq<Node>, outcome: Outcomes, status: seq<Status>, i: nat)
    requires Distinct(Names(nodes)) && i < |nodes| == |status|
    ensures Enabled(nodes, outcome, status, i) <==> forall j: nat :: j < |nodes| ==> !HoldsBack(nodes, outcome, status, i, j)
    ensures DepsSettled(nodes, status, i) ==> forall j: nat :: j < |nodes| && DependsOn(nodes, i, j) ==> status[j] != Pending
  {
    forall j: nat | j < |nodes| ensures j in StepGraph(nodes)[i] <==> DependsOn(nodes, i, j) {
      EdgeIs(nodes, i, j);
    }
    GraphInRange(nodes, i);
    hide DependsOn, StepGraph;
    if Enabled(nodes, outcome, status, i) {
      forall j: nat | j < |nodes| ensures !HoldsBack(nodes, outcome, status, i, j) {
        assert j in StepGraph(nodes)[i] ==> Passes(nodes, outcome, status, j, nodes[i].name);
      }
    }
    if forall j: nat :: j < |nodes| ==> !HoldsBack(nodes, outcome, status, i, j) {
      forall j: nat | j in StepGraph(nodes)[i] ensures Passes(nodes, outcome, status, j, nodes[i].name) {
        assert j < |nodes| && !HoldsBack(nodes, outcome, status, i, j);
      }
    }
  }

  /** Every settled step of a run means what its status says. */
  lemma SettledMeant(nodes: seq<Node>, outcome: Outcomes, r: FlowResult, waveOf: seq<int>, order: seq<nat>, i: nat)
    requires ValidFlow(nodes) && Accounted(nodes, outcome, r, waveOf, order) && i < |nodes| && r.status[i] != Pending
    ensures StepMeant(nodes, outcome, r, i)
  {
    assert GatedAt(nodes, outcome, r.status, i);
    assert ErrorAt(nodes, outcome, r.status[i], i, r.errors);
    EnabledIs(nodes, outcome, r.status, i);
    FailureIs(nodes, outcome, i);
    hide Enabled, DepsSettled, StepFailure, RightError, Listens, HoldsBack, DependsOn, Placed, TraceOrder, TracesOf, Acyclic;
  }

  /** The k-th trace names its step, says whether it was skipped and with which error it failed, and comes after
      the traces of the step's dependencies; every settled step has one trace. */
  ghost predicate TracesMeant(nodes: seq<Node>, r: FlowResult, order: seq<nat>) {
    && |r.steps| == |order| && |r.status| == |nodes| && Distinct(order)
    && (forall i: nat {:trigger i in order} :: i in order <==> i < |nodes| && r.status[i] != Pending)
    && forall k: nat :: k < |order| ==> TraceMeant(nodes, r, order, k)
  }

  ghost predicate TraceMeant(nodes: seq<Node>, r: FlowResult, order: seq<nat>, k: nat)
    requires k < |order| == |r.steps| && |r.status| == |nodes|
  {
    var i, t := order[k], r.steps[k];
    && i < |nodes| && t.name == nodes[i].name && (t.skipped <==> r.status[i] == Skipped)
    && t.err == (if nodes[i].name in r.errors then Some(r.errors[nodes[i].name]) else None)
    && forall j: nat :: j < |nodes| && DependsOn(nodes, i, j) ==> j in order[..k]
  }

  lemma DependencyTracedFirst(nodes: seq<Node>, status: seq<Status>, waveOf: seq<int>, order: seq<nat>, k: nat, j: nat)
    requires Distinct(Names(nodes)) && |status| == |nodes| && |waveOf| == |nodes|
    requires Placed(StepGraph(nodes), waveOf) && TraceOrder(waveOf, order)
    requires k < |order| && order[k] < |nodes| && j < |nodes| && DependsOn(nodes, order[k], j)
    ensures j in order[..k]
  {
    var i := order[k];
    EdgeIs(nodes, i, j);
    assert i in order;
    DependencyEarlier(nodes, waveOf, i, j);
    assert j in order;
    var m :| 0 <= m < |order| && order[m] == j;
    assert m > k ==> Before(waveOf, order[k], order[m]);
    assert order[..k][m] == j;
  }

  lemma DependencyEarlier(nodes: seq<Node>, waveOf: seq<int>, i: nat, j: nat)
    requires |waveOf| == |nodes| && Placed(StepGraph(nodes), waveOf)
    requires i < |nodes| && j < |nodes| && waveOf[i] >= 0 && j in StepGraph(nodes)[i]
    ensures 0 <= waveOf[j] < waveOf[i]
  {
  }

  lemma RunTraces(nodes: seq<Node>, outcome: Outcomes, r: FlowResult, waveOf: seq<int>, order: seq<nat>)
    requires ValidFlow(nodes) && Accounted(nodes, outcome, r, waveOf, order)
    ensures TracesMeant(nodes, r, order)
  {
    hide Placed, Acyclic, StepFailure, Gated, DependsOn;
    forall a, b | 0 <= a < b < |order| ensures order[a] != order[b] {
      assert Before(waveOf, order[a], order[b]);
    }
    forall k: nat | k < |order| ensures TraceMeant(nodes, r, order, k) {
      assert order[k] in order;
      RunTrace(nodes, outcome, r, waveOf, order, k);
    }
  }

  lemma RunTrace(nodes: seq<Node>, outcome: Outcomes, r: FlowResult, waveOf: seq<int>, order: seq<nat>, k: nat)
    requires ValidFlow(nodes) && Accounted(nodes, outcome, r, waveOf, order) && k < |order|
    requires order[k] < |nodes| && r.status[order[k]] != Pending
    ensures TraceMeant(nodes, r, order, k)
  {
    var i := order[k];
    assert GatedAt(nodes, outcome, r.status, i) && ErrorAt(nodes, outcome, r.status[i], i, r.errors);
    hide Placed, Acyclic, StepFailure, Gated, DependsOn, TraceOrder, Enabled, DepsSettled;
    forall j: nat | j < |nodes| && DependsOn(nodes, i, j) ensures j in order[..k] {
      DependencyTracedFirst(nodes, r.status, waveOf, order, k, j);
    }
  }

  /** A run's result, read off the registration and the outcomes. */
  lemma RunMeans(nodes: seq<Node>, outcome: Outcomes, r: FlowResult, waveOf: seq<int>, order: seq<nat>)
    requires ValidFlow(nodes) && Accounted(nodes, outcome, r, waveOf, order)
    ensures forall i: nat :: i < |nodes| && r.status[i] != Pending ==> StepMeant(nodes, outcome, r, i)
    ensures TracesMeant(nodes, r, order)
  {
    hide StepMeant, TracesMeant, ValidFlow;
    forall i: nat | i < |nodes| && r.status[i] != Pending ensures StepMeant(nodes, outcome, r, i) {
      SettledMeant(nodes, outcome, r, waveOf, order, i);
    }
    RunTraces(nodes, outcome, r, waveOf, order);
  }

  /** A step error a run returns is that of a failed step of its last barrier, the first one registered. */
  lemma ErrorMeans(nodes: seq<Node>, outcome: Outcomes, cancelled: nat -> bool, r: FlowResult, waveOf: seq<int>,
                   order: seq<nat>, e: StepError)
    requires Accounted(nodes, outcome, r, waveOf, order)
    requires ReturnsError(nodes, false, outcome, cancelled, r, waveOf, Some(StepFailed(e)))
    ensures exists i: nat :: i < |nodes| && FailedFirst(r.status, waveOf, r.barriers - 1, i)
                             && nodes[i].name in r.errors && r.errors[nodes[i].name] == e
  {
    var i: nat :| FailedFirst(r.status, waveOf, r.barriers - 1, i) && i < |nodes| && Some(e) == StepFailure(nodes, outcome, i);
    assert ErrorAt(nodes, outcome, r.status[i], i, r.errors);
  }

  // ----- registration -----

  /** A loop of steps, each a declared dependency of the next. */
  ghost predicate Loop(nodes: seq<Node>, p: seq<nat>) {
    && |p| >= 2 && p[0] == p[|p| - 1] && (forall k :: 0 <= k < |p| ==> p[k] < |nodes|)
    && forall k :: 0 < k < |p| ==> DependsOn(nodes, p[k], p[k - 1])
  }

  /** What a flow must be to run: named, distinct, bound steps, start steps without dependencies, some step
      without any, every dependency a registered step, and no loop. */
  ghost predicate Runnable(nodes: seq<Node>) {
    && (forall i: nat :: i < |nodes| ==> nodes[i].name != "" && nodes[i].bound && (nodes[i].start ==> nodes[i].deps == []))
    && (forall i: nat, j: nat :: i < j < |nodes| ==> nodes[i].name != nodes[j].name)
    && (exists i: nat :: i < |nodes| && nodes[i].deps == [])
    && (forall i: nat, k: nat :: i < |nodes| && k < |nodes[i].deps| ==> Registered(nodes, nodes[i].deps[k]))
    && forall p :: !Loop(nodes, p)
  }

  lemma LoopIs(nodes: seq<Node>, p: seq<nat>)
    requires Distinct(Names(nodes))
    ensures Loop(nodes, p) <==> Cycle(StepGraph(nodes), p)
  {
    forall i: nat, j: nat | i < |nodes| && j < |nodes| ensures j in StepGraph(nodes)[i] <==> DependsOn(nodes, i, j) {
      EdgeIs(nodes, i, j);
    }
    forall i: nat | i < |nodes| ensures forall j: nat :: j in StepGraph(nodes)[i] ==> j < |nodes| {
      GraphInRange(nodes, i);
    }
    assert |StepGraph(nodes)| == |nodes|;
    hide DependsOn, StepGraph;
  }

  lemma NamesDistinct(nodes: seq<Node>)
    ensures Distinct(Names(nodes)) <==> forall i: nat, j: nat :: i < j < |nodes| ==> nodes[i].name != nodes[j].name
  {
    if forall i: nat, j: nat :: i < j < |nodes| ==> nodes[i].name != nodes[j].name {
      forall i, j | 0 <= i < j < |nodes| ensures Names(nodes)[i] != Names(nodes)[j] {
        assert nodes[i].name != nodes[j].name;
      }
    }
    if Distinct(Names(nodes)) {
      forall i: nat, j: nat | i < j < |nodes| ensures nodes[i].name != nodes[j].name {
        assert Names(nodes)[i] != Names(nodes)[j];
      }
    }
  }

  lemma AllRegistered(nodes: seq<Node>)
    ensures (forall i :: 0 <= i < |nodes| ==> Known(nodes, nodes[i])) <==>
              forall i: nat, k: nat :: i < |nodes| && k < |nodes[i].deps| ==> Registered(nodes, nodes[i].deps[k])
  {
    forall name ensures Registered(nodes, name) <==> name in Names(nodes) {
      RegisteredIs(nodes, name);
    }
    hide Registered;
    if forall i :: 0 <= i < |nodes| ==> Known(nodes, nodes[i]) {
      forall i: nat, k: nat | i < |nodes| && k < |nodes[i].deps| ensures Registered(nodes, nodes[i].deps[k]) {
        assert Known(nodes, nodes[i]) && nodes[i].deps[k] in nodes[i].deps;
      }
    }
  }

  /** The flows that are accepted are exactly those. */
  lemma ValidIsRunnable(nodes: seq<Node>)
    ensures ValidFlow(nodes) <==> Runnable(nodes)
  {
    NamesDistinct(nodes);
    AllRegistered(nodes);
    if Distinct(Names(nodes)) {
      forall p ensures Loop(nodes, p) <==> Cycle(StepGraph(nodes), p) {
        LoopIs(nodes, p);
      }
    }
    hide Distinct, Known, Registered, Loop, Cycle;
  }
}
