/** Flow.Run (flow.go): barriers of ready steps, router gating, skip propagation.
  *
  * A step function is an oracle: `outcome(i)` is what step i returns when it is run, errors and panics alike.
  * The user state, timings and events are not modelled. Each step is run at most once, so one outcome each is enough.
  */
module FlowRun {
  import opened Common
  import opened Digraph
  import opened Kahn
  import opened Schedule
  import opened FlowGraph
  import WaveOrder

  datatype Status = Pending | Done | Failed | Skipped

  datatype StepError = Raised(message: string) | UnknownTarget(name: string) | NotAListener(name: string, router: string)

  datatype Outcome = Outcome(err: Option<string>, route: seq<string>)

  type Outcomes = nat -> Outcome

  datatype Trace = Trace(name: string, skipped: bool, err: Option<StepError>)

  // ----- the meaning of gating -----

  function At(nodes: seq<Node>, name: string): (i: nat)
    requires name in Names(nodes)
    ensures i < |nodes| && nodes[i].name == name
  {
    IndexOf(Names(nodes), name)
  }

  predicate Routable(nodes: seq<Node>, router: string, name: string) {
    name in Names(nodes) && router in nodes[At(nodes, name)].deps
  }

  /** What is wrong with the first bad name of a route, if any. */
  function RouteError(nodes: seq<Node>, router: string, route: seq<string>): Option<StepError> {
    if route == [] then None
    else
      var earlier := RouteError(nodes, router, route[..|route| - 1]);
      var name := route[|route| - 1];
      if earlier.Some? then earlier
      else if name !in Names(nodes) then Some(UnknownTarget(name))
      else if !Routable(nodes, router, name) then Some(NotAListener(name, router))
      else None
  }

  /** The error a step settles with when it is run. */
  function StepFailure(nodes: seq<Node>, outcome: Outcomes, i: nat): Option<StepError>
    requires i < |nodes|
  {
    var o := outcome(i);
    if o.err.Some? then Some(Raised(o.err.value))
    else if nodes[i].kind == Router then RouteError(nodes, nodes[i].name, o.route)
    else None
  }

  /** Dependency j is done and, if it is a router, selected `name`. */
  predicate Passes(nodes: seq<Node>, outcome: Outcomes, status: seq<Status>, j: nat, name: string)
    requires j < |nodes| == |status|
  {
    status[j] == Done && (nodes[j].kind == Router ==> name in outcome(j).route)
  }

  ghost predicate Enabled(nodes: seq<Node>, outcome: Outcomes, status: seq<Status>, i: nat)
    requires i < |nodes| == |status|
  {
    forall j: nat :: j in StepGraph(nodes)[i] ==> Passes(nodes, outcome, status, j, nodes[i].name)
  }

  ghost predicate DepsSettled(nodes: seq<Node>, status: seq<Status>, i: nat)
    requires i < |nodes| == |status|
  {
    forall j: nat :: j in StepGraph(nodes)[i] ==> status[j] != Pending
  }

  ghost function Verdict(nodes: seq<Node>, outcome: Outcomes, status: seq<Status>, i: nat): Status
    requires i < |nodes| == |status|
  {
    if !Enabled(nodes, outcome, status, i) then Skipped
    else if StepFailure(nodes, outcome, i).None? then Done
    else Failed
  }

  /** Step i is undecided, or was decided after all its dependencies, by the gating rule. */
  ghost predicate GatedAt(nodes: seq<Node>, outcome: Outcomes, status: seq<Status>, i: nat)
    requires i < |nodes| == |status|
  {
    status[i] != Pending ==> DepsSettled(nodes, status, i) && status[i] == Verdict(nodes, outcome, status, i)
  }

  ghost predicate Gated(nodes: seq<Node>, outcome: Outcomes, status: seq<Status>) {
    |status| == |nodes| && forall i: nat :: i < |nodes| ==> GatedAt(nodes, outcome, status, i)
  }

  ghost predicate AllSettled(status: seq<Status>) {
    forall i :: 0 <= i < |status| ==> status[i] != Pending
  }

  /** The gating rule has one solution, whatever the order in which steps are decided. */
  lemma GatingUnique(nodes: seq<Node>, outcome: Outcomes, s: seq<Status>, t: seq<Status>, i: nat)
    requires Acyclic(StepGraph(nodes)) && Gated(nodes, outcome, s) && Gated(nodes, outcome, t)
    requires i < |nodes| && s[i] != Pending && t[i] != Pending
    ensures s[i] == t[i]
  {
    var g := StepGraph(nodes);
    var apart := set j: nat | j < |nodes| && s[j] != Pending && t[j] != Pending && s[j] != t[j];
    forall j: nat {:trigger DependsInto(g, j, apart)} | j in apart ensures DependsInto(g, j, apart) {
      assert GatedAt(nodes, outcome, s, j) && GatedAt(nodes, outcome, t, j);
      if Enabled(nodes, outcome, s, j) {
        var d: nat :| d in g[j] && !Passes(nodes, outcome, t, d, nodes[j].name);
        assert d in apart;
      } else {
        var d: nat :| d in g[j] && !Passes(nodes, outcome, s, d, nodes[j].name);
        assert d in apart;
      }
    }
    if i in apart {
      TrappedBehindCycle(g, apart, i);
    }
  }

  // ----- one barrier -----

  /** The selections recorded for the routers that are done. */
  ghost predicate Selections(nodes: seq<Node>, outcome: Outcomes, status: seq<Status>, sel: seq<Option<set<string>>>) {
    && |sel| == |status| == |nodes|
    && forall j: nat :: j < |nodes| && status[j] == Done && nodes[j].kind == Router ==>
         sel[j] == Some(set name | name in outcome(j).route)
  }

  lemma PassesIff(nodes: seq<Node>, outcome: Outcomes, status: seq<Status>, sel: seq<Option<set<string>>>, j: nat,
                  name: string)
    requires Selections(nodes, outcome, status, sel) && j < |nodes|
    ensures Passes(nodes, outcome, status, j, name)
       <==> status[j] == Done && (nodes[j].kind == Router ==> sel[j].Some? && name in sel[j].value)
  {
  }

  /** The dependencies read so far are settled, and whether they all pass. */
  ghost predicate ReadSoFar(nodes: seq<Node>, outcome: Outcomes, status: seq<Status>, js: seq<nat>, name: string,
                            pass: bool) {
    && |status| == |nodes|
    && (forall j: nat :: j in js ==> j < |nodes| && status[j] != Pending)
    && (pass <==> forall j: nat :: j in js ==> j < |nodes| && Passes(nodes, outcome, status, j, name))
  }

  lemma ReadMore(nodes: seq<Node>, outcome: Outcomes, status: seq<Status>, js: seq<nat>, name: string, pass: bool,
                 j: nat)
    requires ReadSoFar(nodes, outcome, status, js, name, pass) && j < |nodes| && status[j] != Pending
    ensures ReadSoFar(nodes, outcome, status, js + [j], name, pass && Passes(nodes, outcome, status, j, name))
  {
  }

  lemma ReadAll(nodes: seq<Node>, outcome: Outcomes, status: seq<Status>, i: nat, pass: bool)
    requires i < |nodes| && ReadSoFar(nodes, outcome, status, StepGraph(nodes)[i], nodes[i].name, pass)
    ensures DepsSettled(nodes, status, i) && (pass <==> Enabled(nodes, outcome, status, i))
  {
  }

  method DepsState(nodes: seq<Node>, index: map<string, nat>, i: nat, status: array<Status>,
                   routerSel: array<Option<set<string>>>, ghost outcome: Outcomes)
    returns (finished: bool, ok: bool, gated: bool)
    requires i < |nodes| == status.Length == routerSel.Length && index == Index(nodes) && Known(nodes, nodes[i])
    requires Selections(nodes, outcome, status[..], routerSel[..])
    ensures finished <==> DepsSettled(nodes, status[..], i)
    ensures finished ==> (ok && gated <==> Enabled(nodes, outcome, status[..], i))
  {
    hide DepsSettled, Enabled, InList, IndexOf, StepGraph, Selections, Passes, ReadSoFar, Index, Names, Known;
    ok, gated := true, true;
    var deps := nodes[i].deps;
    var k := 0;
    ReadNothing(nodes, outcome, status[..], nodes[i].name);
    InListEmpty(Names(nodes), deps);
    while k < |deps|
      invariant k <= |deps|
      invariant ReadSoFar(nodes, outcome, status[..], InList(Names(nodes), deps[..k]), nodes[i].name, ok && gated)
    {
      InListStep(Names(nodes), deps, k);
      IndexRead(nodes, index, i, k);
      var j := index[deps[k]];
      if status[j] == Pending {
        InListContains(Names(nodes), deps, k);
        Unfinished(nodes, status[..], i, j);
        return false, false, false;
      }
      PassesIff(nodes, outcome, status[..], routerSel[..], j, nodes[i].name);
      ReadMore(nodes, outcome, status[..], InList(Names(nodes), deps[..k]), nodes[i].name, ok && gated, j);
      match status[j] {
        case Failed => ok := false;
        case Skipped => ok := false;
        case Done =>
          if nodes[j].kind == Router {
            if routerSel[j].None? || nodes[i].name !in routerSel[j].value {
              gated := false;
            }
          }
      }
      k := k + 1;
    }
    assert deps[..k] == deps;
    StepDeps(nodes, i);
    ReadAll(nodes, outcome, status[..], i, ok && gated);
    return true, ok, gated;
  }

  lemma IndexRead(nodes: seq<Node>, index: map<string, nat>, i: nat, k: nat)
    requires index == Index(nodes) && i < |nodes| && k < |nodes[i].deps| && Known(nodes, nodes[i])
    ensures var d := nodes[i].deps[k];
            d in Names(nodes) && d in index && index[d] == IndexOf(Names(nodes), d) && index[d] < |nodes|
  {
    assert nodes[i].deps[k] in nodes[i].deps;
  }

  lemma ReadNothing(nodes: seq<Node>, outcome: Outcomes, status: seq<Status>, name: string)
    requires |status| == |nodes|
    ensures ReadSoFar(nodes, outcome, status, [], name, true)
  {
  }

  lemma StepDeps(nodes: seq<Node>, i: nat)
    requires i < |nodes|
    ensures |StepGraph(nodes)| == |nodes| && StepGraph(nodes)[i] == InList(Names(nodes), nodes[i].deps)
  {
  }

  lemma Unfinished(nodes: seq<Node>, status: seq<Status>, i: nat, j: nat)
    requires i < |nodes| == |status| && j in InList(Names(nodes), nodes[i].deps) && status[j] == Pending
    ensures !DepsSettled(nodes, status, i)
  {
    StepDeps(nodes, i);
  }

  /** The pending steps below n whose dependencies are settled, split by the gating rule. */
  ghost predicate Collected(nodes: seq<Node>, outcome: Outcomes, status: seq<Status>, n: nat, ready: seq<nat>,
                            skip: seq<nat>)
    requires |nodes| == |status|
  {
    && Ascending(ready) && Ascending(skip)
    && (forall i: nat {:trigger i in ready} :: i in ready <==>
          i < n && i < |nodes| && status[i] == Pending && DepsSettled(nodes, status, i) && Enabled(nodes, outcome, status, i))
    && (forall i: nat {:trigger i in skip} :: i in skip <==>
          i < n && i < |nodes| && status[i] == Pending && DepsSettled(nodes, status, i) && !Enabled(nodes, outcome, status, i))
  }

  method CollectReady(nodes: seq<Node>, index: map<string, nat>, status: array<Status>,
                      routerSel: array<Option<set<string>>>, ghost outcome: Outcomes)
    returns (ready: seq<nat>, skip: seq<nat>)
    requires |nodes| == status.Length == routerSel.Length && index == Index(nodes)
    requires forall i :: 0 <= i < |nodes| ==> Known(nodes, nodes[i])
    requires Selections(nodes, outcome, status[..], routerSel[..])
    ensures Collected(nodes, outcome, status[..], |nodes|, ready, skip)
  {
    hide DepsSettled, Enabled, Selections, Known;
    ready, skip := [], [];
    for i := 0 to |nodes|
      invariant Collected(nodes, outcome, status[..], i, ready, skip)
    {
      if status[i] != Pending {
        continue;
      }
      var finished, ok, gated := DepsState(nodes, index, i, status, routerSel, outcome);
      if !finished {
        continue;
      }
      if !ok || !gated {
        AscendingAppend(skip, i);
        skip := skip + [i];
        continue;
      }
      AscendingAppend(ready, i);
      ready := ready + [i];
    }
  }

  lemma AscendingAppend(s: seq<nat>, i: nat)
    requires Ascending(s) && forall x: nat :: x in s ==> x < i
    ensures Ascending(s + [i])
  {
    forall a | 0 <= a < |s| ensures s[a] < i {
      assert s[a] in s;
    }
  }

  function InsertInt(x: nat, s: seq<nat>): seq<nat> {
    if s == [] || x <= s[0] then [x] + s else [s[0]] + InsertInt(x, s[1..])
  }

  /** sort.Ints */
  function SortInts(s: seq<nat>): seq<nat> {
    if s == [] then [] else InsertInt(s[|s| - 1], SortInts(s[..|s| - 1]))
  }

  lemma {:induction false} InsertMembers(x: nat, s: seq<nat>)
    ensures forall y: nat :: y in InsertInt(x, s) <==> y == x || y in s
  {
    if s != [] && x > s[0] {
      InsertMembers(x, s[1..]);
      assert s == [s[0]] + s[1..];
    }
  }

  lemma {:induction false} InsertAscending(x: nat, s: seq<nat>)
    requires Ascending(s) && x !in s
    ensures Ascending(InsertInt(x, s))
  {
    if s != [] && x > s[0] {
      InsertAscending(x, s[1..]);
      InsertMembers(x, s[1..]);
      var r := InsertInt(x, s[1..]);
      forall k | 0 <= k < |r| ensures s[0] < r[k] {
        assert r[k] in r;
      }
    } else if s != [] {
      assert s[0] in s;
    }
  }

  lemma {:induction false} SortSorts(s: seq<nat>)
    ensures forall y: nat :: y in SortInts(s) <==> y in s
    ensures Distinct(s) ==> Ascending(SortInts(s))
  {
    if s != [] {
      var front, last := s[..|s| - 1], s[|s| - 1];
      assert s == front + [last];
      SortSorts(front);
      InsertMembers(last, SortInts(front));
      if Distinct(s) {
        InsertAscending(last, SortInts(front));
      }
    }
  }

  /** The ready steps run concurrently; each goroutine fills its own slot. */
  method RunWave(outcome: Outcomes, ready: seq<nat>) returns (out: seq<Outcome>)
    ensures |out| == |ready| && forall k :: 0 <= k < |ready| ==> out[k] == outcome(ready[k])
  {
    out := [];
    for k := 0 to |ready|
      invariant |out| == k && forall j :: 0 <= j < k ==> out[j] == outcome(ready[j])
    {
      out := out + [outcome(ready[k])];
    }
  }

  method CheckRoute(nodes: seq<Node>, index: map<string, nat>, router: string, route: seq<string>)
    returns (sel: Option<set<string>>, err: Option<StepError>)
    requires index == Index(nodes)
    ensures err == RouteError(nodes, router, route)
    ensures sel == if err.None? then Some(set name | name in route) else None
  {
    var chosen: set<string> := {};
    for k := 0 to |route|
      invariant RouteError(nodes, router, route[..k]).None?
      invariant chosen == set name | name in route[..k]
    {
      var name := route[k];
      RouteErrorStep(nodes, router, route, k);
      if name !in index {
        RouteErrorStays(nodes, router, route, k + 1);
        return None, Some(UnknownTarget(name));
      }
      var depends := false;
      var deps := nodes[index[name]].deps;
      for d := 0 to |deps|
        invariant depends <==> router in deps[..d]
      {
        if deps[d] == router {
          depends := true;
          assert router in deps[..d + 1];
          assert deps[..d + 1] <= deps;
          break;
        }
      }
      assert depends <==> Routable(nodes, router, name);
      if !depends {
        RouteErrorStays(nodes, router, route, k + 1);
        return None, Some(NotAListener(name, router));
      }
      chosen := chosen + {name};
    }
    assert route[..|route|] == route;
    return Some(chosen), None;
  }

  lemma RouteErrorStep(nodes: seq<Node>, router: string, route: seq<string>, k: nat)
    requires k < |route|
    ensures RouteError(nodes, router, route[..k + 1])
         == if RouteError(nodes, router, route[..k]).Some? then RouteError(nodes, router, route[..k])
            else if route[k] !in Names(nodes) then Some(UnknownTarget(route[k]))
            else if !Routable(nodes, router, route[k]) then Some(NotAListener(route[k], router))
            else None
  {
    assert route[..k + 1][..k] == route[..k];
  }

  lemma {:induction false} RouteErrorStays(nodes: seq<Node>, router: string, route: seq<string>, k: nat)
    requires k <= |route| && RouteError(nodes, router, route[..k]).Some?
    ensures RouteError(nodes, router, route) == RouteError(nodes, router, route[..k])
    decreases |route| - k
  {
    if k == |route| {
      assert route[..k] == route;
    } else {
      RouteErrorStep(nodes, router, route, k);
      RouteErrorStays(nodes, router, route, k + 1);
    }
  }

  /** The status of step i once the steps `settled` of this barrier are folded. */
  ghost function FoldedAt(nodes: seq<Node>, outcome: Outcomes, was: seq<Status>, ready: seq<nat>, settled: seq<nat>,
                          i: nat): Status
    requires i < |nodes| == |was|
  {
    if i in settled && i in ready then (if StepFailure(nodes, outcome, i).None? then Done else Failed) else was[i]
  }

  ghost predicate Folded(nodes: seq<Node>, outcome: Outcomes, was: seq<Status>, ready: seq<nat>, settled: seq<nat>,
                         status: seq<Status>) {
    && |status| == |was| == |nodes|
    && forall i: nat :: i < |nodes| ==> status[i] == FoldedAt(nodes, outcome, was, ready, settled, i)
  }

  function TraceOf(nodes: seq<Node>, outcome: Outcomes, skipped: bool, i: nat): Trace
    requires i < |nodes|
  {
    Trace(nodes[i].name, skipped, if skipped then None else StepFailure(nodes, outcome, i))
  }

  ghost predicate TracesOf(nodes: seq<Node>, outcome: Outcomes, status: seq<Status>, order: seq<nat>,
                           traces: seq<Trace>) {
    && |traces| == |order| && |status| == |nodes|
    && forall k: nat :: k < |order| ==>
         order[k] < |nodes| && traces[k] == TraceOf(nodes, outcome, status[order[k]] == Skipped, order[k])
  }

  ghost predicate ErrorsOf(nodes: seq<Node>, outcome: Outcomes, status: seq<Status>, errs: map<string, StepError>) {
    && |status| == |nodes|
    && (forall name :: name in errs ==> name in Names(nodes))
    && forall i: nat :: i < |nodes| ==> ErrorAt(nodes, outcome, status[i], i, errs)
  }

  ghost predicate ErrorAt(nodes: seq<Node>, outcome: Outcomes, st: Status, i: nat, errs: map<string, StepError>)
    requires i < |nodes|
  {
    if st == Failed then nodes[i].name in errs && Some(errs[nodes[i].name]) == StepFailure(nodes, outcome, i)
    else nodes[i].name !in errs
  }

  /** `first` is the error of the lowest failing step among those folded. */
  ghost predicate FirstFailure(nodes: seq<Node>, outcome: Outcomes, ready: seq<nat>, settled: seq<nat>,
                               first: Option<StepError>) {
    if first.None? then forall i: nat :: i in settled && i in ready && i < |nodes| ==> StepFailure(nodes, outcome, i).None?
    else exists i: nat :: LowestFailure(nodes, outcome, ready, settled, i) && first == StepFailure(nodes, outcome, i)
  }

  ghost predicate LowestFailure(nodes: seq<Node>, outcome: Outcomes, ready: seq<nat>, settled: seq<nat>, i: nat) {
    && i in settled && i in ready && i < |nodes| && StepFailure(nodes, outcome, i).Some?
    && forall j: nat :: j in settled && j in ready && j < i && j < |nodes| ==> StepFailure(nodes, outcome, j).None?
  }

  method FoldWave(nodes: seq<Node>, index: map<string, nat>, ready: seq<nat>, skip: seq<nat>, out: seq<Outcome>,
                  status: array<Status>, routerSel: array<Option<set<string>>>,
                  traces: seq<Trace>, errs: map<string, StepError>, ghost outcome: Outcomes, ghost order: seq<nat>)
    returns (traces': seq<Trace>, errs': map<string, StepError>, first: Option<StepError>, ghost settled: seq<nat>)
    requires |nodes| == status.Length == routerSel.Length && index == Index(nodes) && Distinct(Names(nodes))
    requires Ascending(ready) && Ascending(skip)
    requires forall i: nat :: i in ready ==> i < |nodes| && i !in skip && status[i] == Pending
    requires forall i: nat :: i in skip ==> i < |nodes| && status[i] == Skipped
    requires |out| == |ready| && forall k :: 0 <= k < |ready| ==> out[k] == outcome(ready[k])
    requires Selections(nodes, outcome, status[..], routerSel[..])
    requires TracesOf(nodes, outcome, status[..], order, traces) && ErrorsOf(nodes, outcome, status[..], errs)
    requires forall i: nat :: i in ready ==> i !in order
    modifies status, routerSel
    ensures Ascending(settled) && forall i: nat :: i in settled <==> i in ready || i in skip
    ensures Folded(nodes, outcome, old(status[..]), ready, settled, status[..])
    ensures Selections(nodes, outcome, status[..], routerSel[..])
    ensures TracesOf(nodes, outcome, status[..], order + settled, traces')
    ensures ErrorsOf(nodes, outcome, status[..], errs')
    ensures FirstFailure(nodes, outcome, ready, settled, first)
  {
    hide Selections, TracesOf, ErrorsOf, Folded, FirstFailure, RouteError, Names, Index, SortInts;
    var readyPos := map i | i in ready :: IndexOf(ready, i);
    var combined := SortInts(skip + ready);
    SortSorts(skip + ready);
    MergeDistinct(skip, ready);
    traces', errs', first := traces, errs, None;
    ghost var was := status[..];
    FoldNone(nodes, outcome, was, ready, order);
    var k := 0;
    while k < |combined|
      invariant k <= |combined|
      invariant Folded(nodes, outcome, was, ready, combined[..k], status[..])
      invariant Selections(nodes, outcome, status[..], routerSel[..])
      invariant TracesOf(nodes, outcome, status[..], order + combined[..k], traces')
      invariant ErrorsOf(nodes, outcome, status[..], errs')
      invariant FirstFailure(nodes, outcome, ready, combined[..k], first)
    {
      var i := combined[k];
      assert i in combined && combined[..k + 1] == combined[..k] + [i];
      FoldFresh(nodes, outcome, was, ready, skip, combined, k, order, status[..]);
      if i in skip {
        FoldSkipped(nodes, outcome, was, ready, skip, combined[..k], i, order, status[..], traces', first);
        traces' := traces' + [Trace(nodes[i].name, true, None)];
        k := k + 1;
        continue;
      }
      var o := out[readyPos[i]];
      assert o == outcome(i);
      var sel: Option<set<string>>, err: Option<StepError> := None, None;
      if o.err.Some? {
        err := Some(Raised(o.err.value));
      } else if nodes[i].kind == Router {
        sel, err := CheckRoute(nodes, index, nodes[i].name, o.route);
      }
      assert err == StepFailure(nodes, outcome, i);
      ghost var before, selBefore := status[..], routerSel[..];
      FoldReady(nodes, outcome, was, ready, combined, k, order, before, traces', first);
      FoldSelection(nodes, outcome, before, i, selBefore, sel);
      FoldError(nodes, outcome, before, i, errs');
      if err.Some? {
        status[i] := Failed;
        errs' := errs'[nodes[i].name := err.value];
        if first.None? {
          first := err;
        }
      } else {
        status[i] := Done;
      }
      if o.err.None? && nodes[i].kind == Router {
        routerSel[i] := sel;
      }
      assert status[..] == before[i := if err.None? then Done else Failed];
      assert routerSel[..] == if o.err.None? && nodes[i].kind == Router then selBefore[i := sel] else selBefore;
      traces' := traces' + [Trace(nodes[i].name, false, err)];
      k := k + 1;
    }
    assert combined[..k] == combined;
    settled := combined;
  }

  lemma MergeDistinct(skip: seq<nat>, ready: seq<nat>)
    requires Ascending(skip) && Ascending(ready) && forall i: nat :: i in ready ==> i !in skip
    ensures Distinct(skip + ready)
  {
    var s := skip + ready;
    forall a, b | 0 <= a < b < |s| ensures s[a] != s[b] {
      if a < |skip| <= b {
        assert s[a] in skip && s[b] in ready;
      }
    }
  }

  lemma FoldNone(nodes: seq<Node>, outcome: Outcomes, was: seq<Status>, ready: seq<nat>, order: seq<nat>)
    requires |was| == |nodes|
    ensures Folded(nodes, outcome, was, ready, [], was) && FirstFailure(nodes, outcome, ready, [], None)
    ensures order + [] == order
  {
  }

  /** The step about to be folded is still as the barrier found it. */
  lemma FoldFresh(nodes: seq<Node>, outcome: Outcomes, was: seq<Status>, ready: seq<nat>, skip: seq<nat>,
                  combined: seq<nat>, k: nat, order: seq<nat>, status: seq<Status>)
    requires Ascending(combined) && k < |combined| && combined[k] < |nodes|
    requires Folded(nodes, outcome, was, ready, combined[..k], status)
    ensures combined[k] !in combined[..k] && status[combined[k]] == was[combined[k]]
    ensures forall x: nat :: x in combined[..k] ==> x < combined[k]
  {
  }

  lemma FoldSkipped(nodes: seq<Node>, outcome: Outcomes, was: seq<Status>, ready: seq<nat>, skip: seq<nat>,
                    settled: seq<nat>, i: nat, order: seq<nat>, status: seq<Status>, traces: seq<Trace>, first: Option<StepError>)
    requires Folded(nodes, outcome, was, ready, settled, status) && i < |nodes| && i !in ready && status[i] == Skipped
    requires TracesOf(nodes, outcome, status, order + settled, traces) && FirstFailure(nodes, outcome, ready, settled, first)
    ensures Folded(nodes, outcome, was, ready, settled + [i], status)
    ensures TracesOf(nodes, outcome, status, order + (settled + [i]), traces + [Trace(nodes[i].name, true, None)])
    ensures FirstFailure(nodes, outcome, ready, settled + [i], first)
  {
    assert order + (settled + [i]) == (order + settled) + [i];
    if first.Some? {
      var l: nat :| LowestFailure(nodes, outcome, ready, settled, l) && first == StepFailure(nodes, outcome, l);
      assert LowestFailure(nodes, outcome, ready, settled + [i], l);
    }
  }

  lemma FoldReady(nodes: seq<Node>, outcome: Outcomes, was: seq<Status>, ready: seq<nat>, combined: seq<nat>, k: nat,
                  order: seq<nat>, status: seq<Status>, traces: seq<Trace>, first: Option<StepError>)
    requires k < |combined| && combined[k] < |nodes| && combined[k] in ready
    requires Folded(nodes, outcome, was, ready, combined[..k], status)
    requires TracesOf(nodes, outcome, status, order + combined[..k], traces)
    requires FirstFailure(nodes, outcome, ready, combined[..k], first)
    requires combined[k] !in order && forall x: nat :: x in combined[..k] ==> x < combined[k]
    ensures var i := combined[k];
            var err := StepFailure(nodes, outcome, i);
            var status' := status[i := if err.None? then Done else Failed];
            && Folded(nodes, outcome, was, ready, combined[..k + 1], status')
            && TracesOf(nodes, outcome, status', order + combined[..k + 1], traces + [Trace(nodes[i].name, false, err)])
            && FirstFailure(nodes, outcome, ready, combined[..k + 1], if first.None? then err else first)
  {
    var i := combined[k];
    var settled := combined[..k];
    assert combined[..k + 1] == settled + [i];
    assert order + (settled + [i]) == (order + settled) + [i];
    assert i !in order + settled;
    FoldFirst(nodes, outcome, ready, settled, i, first);
  }

  lemma FoldFirst(nodes: seq<Node>, outcome: Outcomes, ready: seq<nat>, settled: seq<nat>, i: nat,
                  first: Option<StepError>)
    requires FirstFailure(nodes, outcome, ready, settled, first) && i < |nodes| && i in ready
    requires forall x: nat :: x in settled ==> x < i
    ensures FirstFailure(nodes, outcome, ready, settled + [i], if first.None? then StepFailure(nodes, outcome, i) else first)
  {
    if first.Some? {
      var l: nat :| LowestFailure(nodes, outcome, ready, settled, l) && first == StepFailure(nodes, outcome, l);
      assert LowestFailure(nodes, outcome, ready, settled + [i], l);
    } else if StepFailure(nodes, outcome, i).Some? {
      assert LowestFailure(nodes, outcome, ready, settled + [i], i);
    }
  }

  lemma FoldSelection(nodes: seq<Node>, outcome: Outcomes, status: seq<Status>, i: nat,
                      routerSel: seq<Option<set<string>>>, sel: Option<set<string>>)
    requires Selections(nodes, outcome, status, routerSel) && i < |nodes|
    requires nodes[i].kind == Router && StepFailure(nodes, outcome, i).None? ==> sel == Some(set name | name in outcome(i).route)
    ensures var status' := status[i := if StepFailure(nodes, outcome, i).None? then Done else Failed];
            Selections(nodes, outcome, status',
                       if outcome(i).err.None? && nodes[i].kind == Router then routerSel[i := sel] else routerSel)
  {
  }

  lemma FoldError(nodes: seq<Node>, outcome: Outcomes, status: seq<Status>, i: nat, errs: map<string, StepError>)
    requires Distinct(Names(nodes)) && ErrorsOf(nodes, outcome, status, errs) && i < |nodes| && status[i] == Pending
    ensures var err := StepFailure(nodes, outcome, i);
            ErrorsOf(nodes, outcome, status[i := if err.None? then Done else Failed],
                     if err.None? then errs else errs[nodes[i].name := err.value])
  {
    var err := StepFailure(nodes, outcome, i);
    var status' := status[i := if err.None? then Done else Failed];
    var errs' := if err.None? then errs else errs[nodes[i].name := err.value];
    forall j: nat | j < |nodes| ensures ErrorAt(nodes, outcome, status'[j], j, errs') {
      assert ErrorAt(nodes, outcome, status[j], j, errs);
      if j != i {
        assert Names(nodes)[j] != Names(nodes)[i];
      }
    }
    assert Names(nodes)[i] in Names(nodes);
  }

  // ----- whole runs -----

  datatype RunError = Cancelled | StepFailed(error: StepError)

  /** A run's result; `status` and `barriers` are the loop's own variables at its end. */
  datatype FlowResult = FlowResult(steps: seq<Trace>, errors: map<string, StepError>, status: seq<Status>, barriers: nat)

  datatype RunOutcome =
    | Rejected(why: Validation)
    | Ran(result: FlowResult, err: Option<RunError>)

  /** `waveOf` dates every settled step by its barrier; -1 for a pending one. */
  ghost predicate Dated(status: seq<Status>, waveOf: seq<int>, barrier: nat) {
    && |waveOf| == |status|
    && forall i: nat :: i < |status| ==> -1 <= waveOf[i] < barrier && (status[i] == Pending <==> waveOf[i] == -1)
  }

  /** A pending step with settled dependencies has only just got them. */
  ghost predicate Punctual(nodes: seq<Node>, status: seq<Status>, waveOf: seq<int>, barrier: nat) {
    && |status| == |nodes|
    && forall i: nat :: i < |nodes| && status[i] == Pending && DepsSettled(nodes, status, i) && barrier > 0 ==>
         DependsOnLayer(StepGraph(nodes), waveOf, i, barrier - 1)
  }

  /** Settled steps by barrier, and by registration within a barrier. */
  ghost predicate TraceOrder(waveOf: seq<int>, order: seq<nat>) {
    && (forall i: nat {:trigger i in order} :: i in order <==> i < |waveOf| && waveOf[i] >= 0)
    && forall a: nat, b: nat :: a < b < |order| ==> Before(waveOf, order[a], order[b])
  }

  ghost predicate Before(waveOf: seq<int>, i: nat, j: nat) {
    i < |waveOf| && j < |waveOf| && (waveOf[i] < waveOf[j] || (waveOf[i] == waveOf[j] && i < j))
  }

  /** What holds at every barrier. */
  ghost predicate RunState(nodes: seq<Node>, outcome: Outcomes, status: seq<Status>, sel: seq<Option<set<string>>>,
                           waveOf: seq<int>, order: seq<nat>, barrier: nat, traces: seq<Trace>, errs: map<string, StepError>) {
    && Gated(nodes, outcome, status) && Selections(nodes, outcome, status, sel)
    && Dated(status, waveOf, barrier) && Placed(StepGraph(nodes), waveOf) && Punctual(nodes, status, waveOf, barrier)
    && TraceOrder(waveOf, order) && barrier <= |order|
    && TracesOf(nodes, outcome, status, order, traces) && ErrorsOf(nodes, outcome, status, errs)
  }

  lemma RunStarts(nodes: seq<Node>, outcome: Outcomes, status: seq<Status>, sel: seq<Option<set<string>>>,
                  waveOf: seq<int>)
    requires |status| == |sel| == |waveOf| == |nodes|
    requires forall i: nat :: i < |nodes| ==> status[i] == Pending
    requires forall i: nat :: i < |nodes| ==> waveOf[i] == -1
    ensures RunState(nodes, outcome, status, sel, waveOf, [], 0, [], map[])
  {
  }

  // ----- one barrier keeps the state -----

  /** The statuses after the skips of this barrier are marked. */
  ghost predicate Marked(was: seq<Status>, skip: seq<nat>, status: seq<Status>) {
    && |status| == |was|
    && forall i: nat :: i < |was| ==> status[i] == if i in skip then Skipped else was[i]
  }

  /** The effect of a whole barrier on the statuses. */
  ghost predicate Advanced(nodes: seq<Node>, outcome: Outcomes, was: seq<Status>, settled: seq<nat>,
                           status: seq<Status>) {
    && |status| == |was| == |nodes|
    && (forall i: nat {:trigger i in settled} :: i in settled <==> i < |nodes| && was[i] == Pending && DepsSettled(nodes, was, i))
    && forall i: nat :: i < |nodes| ==> status[i] == if i in settled then Verdict(nodes, outcome, was, i) else was[i]
  }

  lemma BarrierAdvances(nodes: seq<Node>, outcome: Outcomes, was: seq<Status>, ready: seq<nat>, skip: seq<nat>,
                        marked: seq<Status>, settled: seq<nat>, status: seq<Status>)
    requires |was| == |nodes| && Collected(nodes, outcome, was, |nodes|, ready, skip) && Marked(was, skip, marked)
    requires forall i: nat :: i in settled <==> i in ready || i in skip
    requires Folded(nodes, outcome, marked, ready, settled, status)
    ensures Advanced(nodes, outcome, was, settled, status)
  {
    hide DepsSettled, Enabled;
    forall i: nat | i < |nodes| ensures status[i] == if i in settled then Verdict(nodes, outcome, was, i) else was[i] {
      assert status[i] == FoldedAt(nodes, outcome, marked, ready, settled, i);
    }
  }

  /** Deciding more steps changes neither what is settled nor what it was decided on. */
  lemma VerdictStays(nodes: seq<Node>, outcome: Outcomes, was: seq<Status>, status: seq<Status>, i: nat)
    requires i < |nodes| == |was| == |status| && DepsSettled(nodes, was, i)
    requires forall j: nat :: j < |nodes| && was[j] != Pending ==> status[j] == was[j]
    requires WellFormed(StepGraph(nodes))
    ensures DepsSettled(nodes, status, i) && Verdict(nodes, outcome, status, i) == Verdict(nodes, outcome, was, i)
  {
    forall j: nat | j in StepGraph(nodes)[i] ensures j < |nodes| && status[j] == was[j] {
    }
  }

  lemma GraphWellFormed(nodes: seq<Node>)
    ensures WellFormed(StepGraph(nodes))
  {
    forall i: nat, d: nat {:trigger d in StepGraph(nodes)[i]} | i < |nodes| && d in StepGraph(nodes)[i] ensures d < |nodes| {
      assert d in InList(Names(nodes), Deps(nodes)[i]);
    }
  }

  lemma GatedStays(nodes: seq<Node>, outcome: Outcomes, was: seq<Status>, settled: seq<nat>, status: seq<Status>)
    requires Gated(nodes, outcome, was) && Advanced(nodes, outcome, was, settled, status)
    ensures Gated(nodes, outcome, status)
  {
    hide DepsSettled, Verdict;
    GraphWellFormed(nodes);
    forall i: nat | i < |nodes| ensures GatedAt(nodes, outcome, status, i) {
      assert GatedAt(nodes, outcome, was, i);
      if status[i] != Pending {
        VerdictStays(nodes, outcome, was, status, i);
      }
    }
  }

  lemma DatedStays(nodes: seq<Node>, outcome: Outcomes, was: seq<Status>, settled: seq<nat>, status: seq<Status>,
                   waveOf: seq<int>, barrier: nat, waveOf': seq<int>)
    requires Dated(was, waveOf, barrier) && Advanced(nodes, outcome, was, settled, status)
    requires Assigned(waveOf, settled, barrier, waveOf')
    ensures Dated(status, waveOf', barrier + 1)
  {
    hide DepsSettled, Enabled;
  }

  lemma PunctualStays(nodes: seq<Node>, outcome: Outcomes, was: seq<Status>, settled: seq<nat>, status: seq<Status>,
                      waveOf: seq<int>, barrier: nat, waveOf': seq<int>)
    requires Dated(was, waveOf, barrier) && Advanced(nodes, outcome, was, settled, status)
    requires Assigned(waveOf, settled, barrier, waveOf')
    ensures Punctual(nodes, status, waveOf', barrier + 1)
  {
    GraphWellFormed(nodes);
    var g := StepGraph(nodes);
    forall i: nat | i < |nodes| && status[i] == Pending && DepsSettled(nodes, status, i)
      ensures DependsOnLayer(g, waveOf', i, barrier) {
      assert i !in settled;
      var d: nat :| d in g[i] && was[d] == Pending;
      assert status[d] != Pending;
      assert d in settled;
    }
  }

  lemma PlacedStays(nodes: seq<Node>, outcome: Outcomes, was: seq<Status>, settled: seq<nat>, status: seq<Status>,
                    waveOf: seq<int>, barrier: nat, waveOf': seq<int>)
    requires Dated(was, waveOf, barrier) && Advanced(nodes, outcome, was, settled, status)
    requires Placed(StepGraph(nodes), waveOf) && Punctual(nodes, was, waveOf, barrier)
    requires Assigned(waveOf, settled, barrier, waveOf')
    ensures Placed(StepGraph(nodes), waveOf')
  {
    hide Placed, DepsSettled, Enabled, DependsOnLayer;
    GraphWellFormed(nodes);
    var g := StepGraph(nodes);
    forall j: nat | j in settled ensures j < |g| && waveOf[j] == -1 && Open(g[j], ClosedSet(waveOf)) == 0 {
      SettledOpen(nodes, was, waveOf, barrier, j);
    }
    PlaceWave(g, barrier, waveOf, settled, waveOf');
  }

  lemma SettledOpen(nodes: seq<Node>, was: seq<Status>, waveOf: seq<int>, barrier: nat, j: nat)
    requires |was| == |nodes| && Dated(was, waveOf, barrier) && j < |nodes| && DepsSettled(nodes, was, j)
    ensures Open(StepGraph(nodes)[j], ClosedSet(waveOf)) == 0
  {
    GraphWellFormed(nodes);
    forall d: nat | d in StepGraph(nodes)[j] ensures d in ClosedSet(waveOf) {
      assert d < |nodes| && was[d] != Pending;
    }
  }

  lemma OrderStays(waveOf: seq<int>, order: seq<nat>, barrier: nat, settled: seq<nat>, waveOf': seq<int>)
    requires TraceOrder(waveOf, order) && Ascending(settled) && Assigned(waveOf, settled, barrier, waveOf')
    requires forall i: nat :: i < |waveOf| ==> -1 <= waveOf[i] < barrier
    requires forall i: nat :: i in settled ==> i < |waveOf| && waveOf[i] == -1
    ensures TraceOrder(waveOf', order + settled)
  {
    var order' := order + settled;
    forall a: nat, b: nat | a < b < |order'| ensures Before(waveOf', order'[a], order'[b]) {
      if b < |order| {
        assert Before(waveOf, order[a], order[b]);
        assert order[a] in order && order[b] in order;
      } else if a < |order| {
        assert order[a] in order && order'[b] in settled;
      } else {
        assert order'[a] in settled && order'[b] in settled;
      }
    }
  }

  lemma BarrierStays(nodes: seq<Node>, outcome: Outcomes, was: seq<Status>, selWas: seq<Option<set<string>>>,
                     waveOf: seq<int>,
                     order: seq<nat>, barrier: nat, tracesWas: seq<Trace>, errsWas: map<string, StepError>, settled: seq<nat>,
                     status: seq<Status>, sel: seq<Option<set<string>>>, waveOf': seq<int>, traces: seq<Trace>, errs: map<string, StepError>)
    requires RunState(nodes, outcome, was, selWas, waveOf, order, barrier, tracesWas, errsWas)
    requires Advanced(nodes, outcome, was, settled, status) && Ascending(settled) && settled != []
    requires Assigned(waveOf, settled, barrier, waveOf')
    requires Selections(nodes, outcome, status, sel)
    requires TracesOf(nodes, outcome, status, order + settled, traces) && ErrorsOf(nodes, outcome, status, errs)
    ensures RunState(nodes, outcome, status, sel, waveOf', order + settled, barrier + 1, traces, errs)
  {
    hide Gated, Selections, Placed, Punctual, TraceOrder, TracesOf, ErrorsOf, DepsSettled, Verdict;
    GatedStays(nodes, outcome, was, settled, status);
    DatedStays(nodes, outcome, was, settled, status, waveOf, barrier, waveOf');
    PunctualStays(nodes, outcome, was, settled, status, waveOf, barrier, waveOf');
    PlacedStays(nodes, outcome, was, settled, status, waveOf, barrier, waveOf');
    OrderStays(waveOf, order, barrier, settled, waveOf');
  }

  // ----- progress -----

  /** With no cycle, a barrier that finds nothing to do finds nothing pending. */
  lemma NothingPending(nodes: seq<Node>, outcome: Outcomes, status: seq<Status>)
    requires Acyclic(StepGraph(nodes)) && |status| == |nodes|
    requires Collected(nodes, outcome, status, |nodes|, [], [])
    ensures AllSettled(status)
  {
    var g := StepGraph(nodes);
    var pending := set j: nat | j < |nodes| && status[j] == Pending;
    GraphWellFormed(nodes);
    var none: seq<nat> := [];
    forall j: nat {:trigger DependsInto(g, j, pending)} | j in pending ensures DependsInto(g, j, pending) {
      assert j !in none;
      assert !DepsSettled(nodes, status, j);
    }
    forall i: nat | i < |status| ensures status[i] != Pending {
      if i in pending {
        TrappedBehindCycle(g, pending, i);
      }
    }
  }

  lemma OrderFits(waveOf: seq<int>, order: seq<nat>)
    requires TraceOrder(waveOf, order)
    ensures |order| <= |waveOf|
  {
    forall k: nat | k < |order| ensures order[k] < |waveOf| {
      assert order[k] in order;
    }
    forall a: nat, b: nat | a < b < |order| ensures order[a] != order[b] {
      assert Before(waveOf, order[a], order[b]);
    }
    BoundedDistinct(order, |waveOf|);
  }

  ghost predicate NoFailure(status: seq<Status>) {
    forall i :: 0 <= i < |status| ==> status[i] != Failed
  }

  /** Step i failed in the given barrier and no lower step failed in it. */
  ghost predicate FailedFirst(status: seq<Status>, waveOf: seq<int>, barrier: int, i: nat) {
    && i < |status| == |waveOf| && status[i] == Failed && waveOf[i] == barrier
    && forall j: nat :: j < i && waveOf[j] == barrier ==> status[j] != Failed
  }

  /** The error a run returns. */
  ghost predicate ReturnsError(nodes: seq<Node>, continueOnError: bool, outcome: Outcomes, cancelled: nat -> bool,
                               res: FlowResult, waveOf: seq<int>, err: Option<RunError>) {
    if continueOnError then err.None? && (AllSettled(res.status) || cancelled(res.barriers))
    else match err
         case None => AllSettled(res.status) && NoFailure(res.status)
         case Some(Cancelled) => cancelled(res.barriers) && NoFailure(res.status)
         case Some(StepFailed(e)) =>
           exists i: nat :: FailedFirst(res.status, waveOf, res.barriers - 1, i) && i < |nodes| && Some(e) == StepFailure(nodes, outcome, i)
  }

  lemma BarrierError(nodes: seq<Node>, outcome: Outcomes, was: seq<Status>, ready: seq<nat>, settled: seq<nat>,
                     status: seq<Status>,
                     waveOf: seq<int>, barrier: nat, waveOf': seq<int>, first: Option<StepError>)
    requires Advanced(nodes, outcome, was, settled, status) && NoFailure(was)
    requires Dated(was, waveOf, barrier) && Assigned(waveOf, settled, barrier, waveOf')
    requires FirstFailure(nodes, outcome, ready, settled, first)
    requires forall i: nat :: i in settled && i < |nodes| ==> (i in ready <==> Enabled(nodes, outcome, was, i))
    ensures first.None? ==> NoFailure(status)
    ensures first.Some? ==> exists i: nat :: FailedFirst(status, waveOf', barrier, i) && i < |nodes| && first == StepFailure(nodes, outcome, i)
  {
    hide Enabled, DepsSettled, StepFailure;
    if first.Some? {
      var i: nat :| LowestFailure(nodes, outcome, ready, settled, i) && first == StepFailure(nodes, outcome, i);
      assert FailedFirst(status, waveOf', barrier, i);
    }
  }

  ghost function Mark(waveOf: seq<int>, settled: seq<nat>, barrier: nat): seq<int> {
    seq(|waveOf|, i requires 0 <= i < |waveOf| => if i in settled then barrier else waveOf[i])
  }

  /** Marking the skips touches no step that already has a trace, a selection or an error. */
  lemma MarkStays(nodes: seq<Node>, outcome: Outcomes, was: seq<Status>, sel: seq<Option<set<string>>>,
                  waveOf: seq<int>,
                  order: seq<nat>, barrier: nat, traces: seq<Trace>, errs: map<string, StepError>, skip: seq<nat>, marked: seq<Status>)
    requires RunState(nodes, outcome, was, sel, waveOf, order, barrier, traces, errs)
    requires Marked(was, skip, marked) && forall i: nat :: i in skip ==> i < |nodes| && was[i] == Pending
    ensures Selections(nodes, outcome, marked, sel) && TracesOf(nodes, outcome, marked, order, traces)
    ensures ErrorsOf(nodes, outcome, marked, errs)
    ensures forall i: nat :: i < |nodes| && was[i] == Pending ==> i !in order
  {
    hide Gated, Placed, Punctual;
    forall i: nat | i in order ensures i < |nodes| && was[i] != Pending && i !in skip {
    }
    forall k: nat | k < |order| ensures marked[order[k]] == was[order[k]] {
      assert order[k] in order;
    }
    forall i: nat | i < |nodes| ensures ErrorAt(nodes, outcome, marked[i], i, errs) {
      assert ErrorAt(nodes, outcome, was[i], i, errs);
    }
  }

  method MarkSkipped(skip: seq<nat>, status: array<Status>)
    requires forall i: nat :: i in skip ==> i < status.Length
    modifies status
    ensures Marked(old(status[..]), skip, status[..])
  {
    for k := 0 to |skip|
      invariant Marked(old(status[..]), skip[..k], status[..])
    {
      assert skip[k] in skip && skip[..k + 1] == skip[..k] + [skip[k]];
      status[skip[k]] := Skipped;
    }
    assert skip[..|skip|] == skip;
  }

  /** One barrier of the run: mark the skips, run the ready steps together, fold. */
  method RunBarrier(nodes: seq<Node>, index: map<string, nat>, ready: seq<nat>, skip: seq<nat>,
                    status: array<Status>, routerSel: array<Option<set<string>>>, outcome: Outcomes,
                    traces: seq<Trace>, errs: map<string, StepError>,
                    ghost waveOf: seq<int>, ghost order: seq<nat>, ghost barrier: nat)
    returns (traces': seq<Trace>, errs': map<string, StepError>, first: Option<StepError>, ghost settled: seq<nat>)
    requires index == Index(nodes) && Distinct(Names(nodes)) && status.Length == routerSel.Length == |nodes|
    requires RunState(nodes, outcome, status[..], routerSel[..], waveOf, order, barrier, traces, errs)
    requires Collected(nodes, outcome, status[..], |nodes|, ready, skip) && |ready| + |skip| > 0
    modifies status, routerSel
    ensures RunState(nodes, outcome, status[..], routerSel[..], Mark(waveOf, settled, barrier), order + settled, barrier + 1, traces', errs')
    ensures settled != [] && Advanced(nodes, outcome, old(status[..]), settled, status[..])
    ensures NoFailure(old(status[..])) && first.None? ==> NoFailure(status[..])
    ensures NoFailure(old(status[..])) && first.Some? ==>
              exists i: nat :: FailedFirst(status[..], Mark(waveOf, settled, barrier), barrier, i) && i < |nodes|
                               && first == StepFailure(nodes, outcome, i)
  {
    hide Folded, FirstFailure, DepsSettled, Enabled, Selections, TracesOf, ErrorsOf, Gated, Placed, Punctual, TraceOrder, StepFailure, FailedFirst;
    ghost var was, selWas := status[..], routerSel[..];
    MarkSkipped(skip, status);
    ghost var marked := status[..];
    MarkStays(nodes, outcome, was, selWas, waveOf, order, barrier, traces, errs, skip, marked);
    var out := RunWave(outcome, ready);
    traces', errs', first, settled := FoldWave(nodes, index, ready, skip, out, status, routerSel, traces, errs, outcome, order);
    BarrierAdvances(nodes, outcome, was, ready, skip, marked, settled, status[..]);
    ghost var waveOf' := Mark(waveOf, settled, barrier);
    assert settled != [] by {
      if |ready| > 0 {
        assert ready[0] in settled;
      } else {
        assert skip[0] in settled;
      }
    }
    BarrierStays(nodes, outcome, was, selWas, waveOf, order, barrier, traces, errs, settled, status[..], routerSel[..], waveOf', traces', errs');
    if NoFailure(was) {
      BarrierError(nodes, outcome, was, ready, settled, status[..], waveOf, barrier, waveOf', first);
    }
  }

  /** The statuses solve the gating equations; each settled step is dated after its dependencies, has its one trace,
      by date and then registration, and its error, if any. */
  ghost predicate Accounted(nodes: seq<Node>, outcome: Outcomes, r: FlowResult, waveOf: seq<int>, order: seq<nat>) {
    && Gated(nodes, outcome, r.status)
    && Dated(r.status, waveOf, r.barriers) && Placed(StepGraph(nodes), waveOf)
    && TraceOrder(waveOf, order) && TracesOf(nodes, outcome, r.status, order, r.steps)
    && ErrorsOf(nodes, outcome, r.status, r.errors)
  }

  method Run(nodes: seq<Node>, continueOnError: bool, outcome: Outcomes, cancelled: nat -> bool)
    returns (r: RunOutcome, ghost waveOf: seq<int>, ghost order: seq<nat>)
    ensures r.Rejected? <==> !ValidFlow(nodes)
    ensures r.Rejected? ==> !r.why.Valid? && Explains(nodes, r.why)
    ensures r.Ran? ==> Accounted(nodes, outcome, r.result, waveOf, order)
    ensures r.Ran? ==> r.result.barriers <= |order| <= |nodes|
    ensures r.Ran? ==> forall k: nat :: k < r.result.barriers ==> !cancelled(k)
    ensures r.Ran? ==> ReturnsError(nodes, continueOnError, outcome, cancelled, r.result, waveOf, r.err)
  {
    hide Gated, Placed, Punctual, TraceOrder, TracesOf, ErrorsOf, Selections, Collected, Advanced, Explains, Acyclic, NodeOk, DependsOnLayer, StepFailure, FailedFirst;
    waveOf, order := [], [];
    var v := Validate(nodes);
    if !v.Valid? {
      return Rejected(v), waveOf, order;
    }
    var index := v.index;
    var n := |nodes|;
    var status := new Status[n](_ => Pending);
    var routerSel := new Option<set<string>>[n](_ => None);
    var traces: seq<Trace>, errs: map<string, StepError> := [], map[];
    var runErr: Option<RunError> := None;
    var barrier: nat := 0;
    waveOf := seq(n, _ => -1);
    RunStarts(nodes, outcome, status[..], routerSel[..], waveOf);
    while true
      invariant fresh(status) && fresh(routerSel) && status.Length == routerSel.Length == n
      invariant RunState(nodes, outcome, status[..], routerSel[..], waveOf, order, barrier, traces, errs)
      invariant forall k: nat :: k < barrier ==> !cancelled(k)
      invariant !continueOnError ==> NoFailure(status[..]) && runErr.None?
      invariant |order| <= n
      decreases n - |order|
    {
      if cancelled(barrier) {
        runErr := Some(Cancelled);
        break;
      }
      var ready, skip := CollectReady(nodes, index, status, routerSel, outcome);
      if |ready| == 0 && |skip| == 0 {
        NothingPending(nodes, outcome, status[..]);
        break;
      }
      ghost var settled;
      var waveErr;
      traces, errs, waveErr, settled :=
        RunBarrier(nodes, index, ready, skip, status, routerSel, outcome, traces, errs, waveOf, order, barrier);
      waveOf, order := Mark(waveOf, settled, barrier), order + settled;
      OrderFits(waveOf, order);
      barrier := barrier + 1;
      if waveErr.Some? && !continueOnError {
        runErr := Some(StepFailed(waveErr.value));
        break;
      }
      if waveErr.Some? && runErr.None? {
        runErr := Some(StepFailed(waveErr.value));
      }
    }
    OrderFits(waveOf, order);
    return Ran(FlowResult(traces, errs, status[..], barrier), if continueOnError then None else runErr), waveOf, order;
  }

  // ----- what two complete runs share -----

  /** Every complete run dates each step by its longest dependency chain and traces in one order. */
  lemma CompleteOrder(nodes: seq<Node>, v: seq<int>, o: seq<nat>, w: seq<int>, p: seq<nat>)
    requires Placed(StepGraph(nodes), v) && TraceOrder(v, o) && forall i :: 0 <= i < |v| ==> v[i] >= 0
    requires Placed(StepGraph(nodes), w) && TraceOrder(w, p) && forall i :: 0 <= i < |w| ==> w[i] >= 0
    ensures v == w && o == p
    ensures forall i: nat :: i < |nodes| ==> LongestWalkTo(StepGraph(nodes), i, v[i])
  {
    var g := StepGraph(nodes);
    assert TightLayering(g, v) && TightLayering(g, w);
    TightUnique(g, v, w);
    forall i: nat | i < |nodes| ensures LongestWalkTo(g, i, v[i]) {
      TightIsLongest(g, v, i);
    }
    var less := (i: nat, j: nat) => Before(v, i, j);
    WaveOrder.SortedUnique(less, o, p);
  }

  /** Two complete runs on the same step outcomes agree on statuses, dates, traces and errors. */
  lemma CompleteRunsAgree(nodes: seq<Node>, outcome: Outcomes, a: FlowResult, b: FlowResult,
                          v: seq<int>, w: seq<int>, o: seq<nat>, p: seq<nat>)
    requires ValidFlow(nodes) && AllSettled(a.status) && AllSettled(b.status)
    requires Accounted(nodes, outcome, a, v, o) && Accounted(nodes, outcome, b, w, p)
    ensures a.status == b.status && v == w && o == p && a.steps == b.steps && a.errors == b.errors
  {
    hide Gated, Placed, TraceOrder, Acyclic, ErrorAt, StepFailure, TraceOf;
    StatusesAgree(nodes, outcome, a.status, b.status);
    CompleteOrder(nodes, v, o, w, p);
    ErrorsWithin(nodes, outcome, a.status, a.errors, b.errors);
    ErrorsWithin(nodes, outcome, a.status, b.errors, a.errors);
  }

  lemma StatusesAgree(nodes: seq<Node>, outcome: Outcomes, s: seq<Status>, t: seq<Status>)
    requires ValidFlow(nodes) && Gated(nodes, outcome, s) && Gated(nodes, outcome, t) && AllSettled(s) && AllSettled(t)
    ensures s == t
  {
    assert |s| == |t| == |nodes|;
    hide Gated, Acyclic;
    forall i: nat | i < |nodes| ensures s[i] == t[i] {
      GatingUnique(nodes, outcome, s, t, i);
    }
  }

  lemma ErrorsWithin(nodes: seq<Node>, outcome: Outcomes, s: seq<Status>, errs: map<string, StepError>,
                     errs': map<string, StepError>)
    requires ErrorsOf(nodes, outcome, s, errs) && ErrorsOf(nodes, outcome, s, errs')
    ensures forall name :: name in errs ==> name in errs' && errs[name] == errs'[name]
  {
    forall name | name in errs ensures name in errs' && errs[name] == errs'[name] {
      var i := At(nodes, name);
      assert ErrorAt(nodes, outcome, s[i], i, errs) && ErrorAt(nodes, outcome, s[i], i, errs');
    }
  }
}
