/** Kahn's algorithm on dependency tables: indegrees, adjacency lists and barriers.
  *
  * schedule.go builds the tables from task pointers and flow.go from step names, so names are generic here.
  */
module Kahn {
  import opened Digraph

  // ----- the graph a list of names and their dependencies denotes -----

  ghost predicate Distinct<T(!new)>(s: seq<T>) {
    forall a, b :: 0 <= a < b < |s| ==> s[a] != s[b]
  }

  ghost predicate Ascending(s: seq<nat>) {
    forall a, b :: 0 <= a < b < |s| ==> s[a] < s[b]
  }

  function IndexOf<T(==)>(names: seq<T>, t: T): (i: nat)
    requires t in names
    ensures i < |names| && names[i] == t
  {
    if names[|names| - 1] == t then |names| - 1 else IndexOf(names[..|names| - 1], t)
  }

  /** The in-list entries of a Context list, as indexes; entries outside the list are dropped. */
  function InList<T(==)>(names: seq<T>, context: seq<T>): (deps: seq<nat>)
    ensures forall d: nat :: d in deps ==> d < |names| && names[d] in context
  {
    if context == [] then []
    else
      var rest := InList(names, context[..|context| - 1]);
      var last := context[|context| - 1];
      if last in names then rest + [IndexOf(names, last)] else rest
  }

  function DepGraph<T(==)>(names: seq<T>, deps: seq<seq<T>>): (g: Graph)
    requires |deps| == |names|
    ensures |g| == |names|
    ensures forall i :: 0 <= i < |names| ==> g[i] == InList(names, deps[i])
  {
    seq(|names|, i requires 0 <= i < |names| => InList(names, deps[i]))
  }

  /** `index` maps the first i names, all distinct, to their positions. */
  ghost predicate Indexes<T(!new)>(names: seq<T>, i: nat, index: map<T, nat>) {
    && i <= |names|
    && (forall t :: t in index ==> index[t] < i && names[index[t]] == t)
    && (forall k: nat :: k < i ==> names[k] in index && index[names[k]] == k)
  }

  lemma IndexesExtend<T(!new)>(names: seq<T>, i: nat, index: map<T, nat>)
    requires Indexes(names, i, index) && i < |names| && names[i] !in index
    ensures Indexes(names, i + 1, index[names[i] := i])
  {
  }

  lemma IndexesDistinct<T(!new)>(names: seq<T>, i: nat, index: map<T, nat>)
    requires Indexes(names, i, index)
    ensures Distinct(names[..i])
    ensures i == |names| ==> Distinct(names) && index == map t | t in names :: IndexOf(names, t)
  {
    forall a: nat, b: nat | a < b < i ensures names[a] != names[b] {
      assert index[names[a]] == a && index[names[b]] == b;
    }
    if i == |names| {
      assert index.Keys == set t | t in names;
    }
  }

  // ----- order of release -----

  /** Where in `wave` the last dependency of j sits; -1 when j has no dependency there. */
  function UnlockPos(g: Graph, wave: seq<nat>, j: nat): (q: int)
    requires j < |g|
    ensures -1 <= q < |wave|
    ensures q >= 0 ==> wave[q] in g[j]
    ensures forall k :: q < k < |wave| ==> wave[k] !in g[j]
  {
    if wave == [] then -1
    else if wave[|wave| - 1] in g[j] then |wave| - 1
    else UnlockPos(g, wave[..|wave| - 1], j)
  }

  /** Order within a wave: by the position of the unlocking dependency, then by index. */
  predicate Precedes(g: Graph, wave: seq<nat>, i: nat, j: nat)
    requires i < |g| && j < |g|
  {
    var (p, q) := (UnlockPos(g, wave, i), UnlockPos(g, wave, j));
    p < q || (p == q && i < j)
  }

  ghost predicate OrderedAfter(g: Graph, wave: seq<nat>, next: seq<nat>) {
    && (forall j: nat :: j in next ==> j < |g|)
    && forall a, b :: 0 <= a < b < |next| ==> next[a] < |g| && next[b] < |g| && Precedes(g, wave, next[a], next[b])
  }

  // ----- counting dependencies still open -----

  function Open(deps: seq<nat>, closed: set<nat>): (n: nat)
    ensures n == 0 <==> forall d: nat :: d in deps ==> d in closed
  {
    if deps == [] then 0
    else Open(deps[..|deps| - 1], closed) + if deps[|deps| - 1] in closed then 0 else 1
  }

  lemma {:induction false} OpenNone(deps: seq<nat>)
    ensures Open(deps, {}) == |deps|
  {
    if deps != [] {
      OpenNone(deps[..|deps| - 1]);
    }
  }

  function Count(s: seq<nat>, x: nat): (n: nat)
    ensures n > 0 <==> x in s
  {
    if s == [] then 0
    else Count(s[..|s| - 1], x) + if s[|s| - 1] == x then 1 else 0
  }

  lemma CountAppend(s: seq<nat>, y: nat, x: nat)
    ensures Count(s + [y], x) == Count(s, x) + if x == y then 1 else 0
  {
    assert (s + [y])[..|s|] == s;
  }

  lemma {:induction false} CountPrefix(s: seq<nat>, b: nat, x: nat)
    requires b <= |s|
    ensures Count(s[..b], x) <= Count(s, x)
  {
    if b < |s| {
      CountPrefix(s[..|s| - 1], b, x);
      assert s[..|s| - 1][..b] == s[..b];
    } else {
      assert s[..b] == s;
    }
  }

  lemma PrefixCount(s: seq<nat>, b: nat)
    requires b < |s|
    ensures forall x: nat :: Count(s[..b + 1], x) == Count(s[..b], x) + if x == s[b] then 1 else 0
    ensures Count(s[..b + 1], s[b]) <= Count(s, s[b])
  {
    assert s[..b + 1] == s[..b] + [s[b]];
    forall x: nat ensures Count(s[..b + 1], x) == Count(s[..b], x) + if x == s[b] then 1 else 0 {
      CountAppend(s[..b], s[b], x);
    }
    CountPrefix(s, b + 1, s[b]);
  }

  lemma {:induction false} OpenClose(deps: seq<nat>, closed: set<nat>, i: nat)
    requires i !in closed
    ensures Open(deps, closed + {i}) + Count(deps, i) == Open(deps, closed)
  {
    if deps != [] {
      OpenClose(deps[..|deps| - 1], closed, i);
    }
  }

  // ----- the tables -----

  /** What the two tables say about the graph. */
  ghost predicate Encodes(g: Graph, indegree: seq<int>, adjacent: seq<seq<nat>>) {
    && |indegree| == |g|
    && (forall i: nat :: i < |g| ==> indegree[i] == |g[i]|)
    && Adjacency(g, adjacent)
  }

  ghost predicate Adjacency(g: Graph, adjacent: seq<seq<nat>>) {
    && |adjacent| == |g|
    && forall j: nat :: j < |g| ==> DependentsOf(g, j, adjacent[j])
  }

  /** `row` lists the dependents of j in index order, each as often as it names j. */
  ghost predicate DependentsOf(g: Graph, j: nat, row: seq<nat>) {
    Row(g, |g|, [], j, row)
  }

  ghost predicate Sorted(s: seq<nat>) {
    forall a, b :: 0 <= a < b < |s| ==> s[a] <= s[b]
  }

  /** How often x names j, once the dependents before i and the entries `part` of i are entered. */
  ghost function Entered(g: Graph, i: nat, part: seq<nat>, x: nat, j: nat): nat {
    if x < i && x < |g| then Count(g[x], j) else if x == i then Count(part, j) else 0
  }

  ghost predicate Row(g: Graph, i: nat, part: seq<nat>, j: nat, row: seq<nat>) {
    && Sorted(row)
    && (forall x: nat :: x in row ==> x <= i && x < |g|)
    && forall x: nat :: Count(row, x) == Entered(g, i, part, x, j)
  }

  ghost predicate Rows(g: Graph, i: nat, part: seq<nat>, adjacent: seq<seq<nat>>) {
    && |adjacent| == |g|
    && forall j: nat :: j < |g| ==> Row(g, i, part, j, adjacent[j])
  }

  ghost predicate Degrees(g: Graph, i: nat, part: seq<nat>, indegree: seq<int>) {
    && |indegree| == |g|
    && forall x: nat :: x < |g| ==> indegree[x] == if x < i then |g[x]| else if x == i then |part| else 0
  }

  /** The tables after the dependents before i, and the entries `part` of i itself. */
  ghost predicate Filled(g: Graph, i: nat, part: seq<nat>, indegree: seq<int>, adjacent: seq<seq<nat>>) {
    Degrees(g, i, part, indegree) && Rows(g, i, part, adjacent)
  }

  lemma FillNone(g: Graph, indegree: seq<int>, adjacent: seq<seq<nat>>)
    requires |indegree| == |adjacent| == |g|
    requires forall i: nat :: i < |g| ==> indegree[i] == 0
    requires forall i: nat :: i < |g| ==> adjacent[i] == []
    ensures Filled(g, 0, [], indegree, adjacent)
  {
  }

  lemma RowAppend(g: Graph, i: nat, part: seq<nat>, j: nat, row: seq<nat>)
    requires Row(g, i, part, j, row) && i < |g|
    ensures Row(g, i, part + [j], j, row + [i])
  {
    assert forall a :: 0 <= a < |row| ==> row[a] in row;
    forall x: nat ensures Count(row + [i], x) == Entered(g, i, part + [j], x, j) {
      CountAppend(row, i, x);
      CountAppend(part, j, j);
    }
  }

  lemma RowKeep(g: Graph, i: nat, part: seq<nat>, j: nat, k: nat, row: seq<nat>)
    requires Row(g, i, part, k, row) && j != k
    ensures Row(g, i, part + [j], k, row)
  {
    CountAppend(part, j, k);
  }

  lemma FillEdge(g: Graph, i: nat, part: seq<nat>, j: nat, indegree: seq<int>, adjacent: seq<seq<nat>>)
    requires Filled(g, i, part, indegree, adjacent) && i < |g| && j < |g|
    ensures Filled(g, i, part + [j], indegree[i := indegree[i] + 1], adjacent[j := adjacent[j] + [i]])
  {
    var adjacent' := adjacent[j := adjacent[j] + [i]];
    forall k: nat | k < |g| ensures Row(g, i, part + [j], k, adjacent'[k]) {
      hide Row;
      if k == j {
        RowAppend(g, i, part, j, adjacent[j]);
      } else {
        RowKeep(g, i, part, j, k, adjacent[k]);
      }
    }
  }

  lemma FillNext(g: Graph, i: nat, indegree: seq<int>, adjacent: seq<seq<nat>>)
    requires i < |g| && Filled(g, i, g[i], indegree, adjacent)
    ensures Filled(g, i + 1, [], indegree, adjacent)
  {
    forall j: nat | j < |g| ensures Row(g, i + 1, [], j, adjacent[j]) {
      assert Row(g, i, g[i], j, adjacent[j]);
    }
  }

  lemma FillAll(g: Graph, indegree: seq<int>, adjacent: seq<seq<nat>>)
    requires Filled(g, |g|, [], indegree, adjacent)
    ensures Encodes(g, indegree, adjacent)
  {
    hide Row;
  }

  /** Enter the Context of task `at`; stop at an entry naming the task itself. */
  method EnterContext<T(==)>(names: seq<T>, deps: seq<T>, index: map<T, nat>, at: nat,
                      indegree: array<int>, adjacent: array<seq<nat>>, ghost g: Graph)
    returns (self: bool)
    requires index == map t | t in names :: IndexOf(names, t)
    requires at < |names| == |g| == indegree.Length == adjacent.Length
    requires Filled(g, at, [], indegree[..], adjacent[..])
    modifies indegree, adjacent
    ensures self <==> at in InList(names, deps)
    ensures !self ==> Filled(g, at, InList(names, deps), indegree[..], adjacent[..])
  {
    hide Filled, InList, IndexOf;
    var k := 0;
    InListEmpty(names, deps);
    while k < |deps|
      invariant k <= |deps|
      invariant at !in InList(names, deps[..k])
      invariant Filled(g, at, InList(names, deps[..k]), indegree[..], adjacent[..])
    {
      InListStep(names, deps, k);
      if deps[k] in index {
        var j := index[deps[k]];
        if j == at {
          InListContains(names, deps, k);
          return true;
        }
        ghost var degrees, rows := indegree[..], adjacent[..];
        FillEdge(g, at, InList(names, deps[..k]), j, degrees, rows);
        indegree[at] := indegree[at] + 1;
        adjacent[j] := adjacent[j] + [at];
        assert indegree[..] == degrees[at := degrees[at] + 1];
        assert adjacent[..] == rows[j := rows[j] + [at]];
      }
      k := k + 1;
    }
    assert deps[..k] == deps;
    return false;
  }

  lemma InListEmpty<T>(names: seq<T>, context: seq<T>)
    ensures InList(names, context[..0]) == []
  {
  }

  method BuildEdges<T(==)>(names: seq<T>, deps: seq<seq<T>>, index: map<T, nat>)
    returns (indegree: array<int>, adjacent: array<seq<nat>>, self: bool, at: nat)
    requires |deps| == |names|
    requires index == map t | t in names :: IndexOf(names, t)
    ensures fresh(indegree) && fresh(adjacent)
    ensures self ==> at < |names| && at in DepGraph(names, deps)[at]
    ensures self ==> forall x: nat :: x < at ==> x !in DepGraph(names, deps)[x]
    ensures !self ==> Encodes(DepGraph(names, deps), indegree[..], adjacent[..])
  {
    hide Filled, Encodes, InList;
    ghost var g := DepGraph(names, deps);
    var n := |names|;
    indegree := new int[n](_ => 0);
    adjacent := new seq<nat>[n](_ => []);
    self, at := false, 0;
    FillNone(g, indegree[..], adjacent[..]);
    while at < n
      invariant at <= n
      invariant fresh(indegree) && fresh(adjacent) && indegree.Length == adjacent.Length == n
      invariant Filled(g, at, [], indegree[..], adjacent[..])
      invariant forall x: nat :: x < at ==> x !in g[x]
    {
      self := EnterContext(names, deps[at], index, at, indegree, adjacent, g);
      if self {
        return;
      }
      FillNext(g, at, indegree[..], adjacent[..]);
      at := at + 1;
    }
    FillAll(g, indegree[..], adjacent[..]);
  }

  lemma InListStep<T>(names: seq<T>, context: seq<T>, k: nat)
    requires k < |context|
    ensures var before := InList(names, context[..k]);
            InList(names, context[..k + 1]) == if context[k] in names then before + [IndexOf(names, context[k])] else before
  {
    assert context[..k + 1][..k] == context[..k];
  }

  lemma {:induction false} InListContains<T>(names: seq<T>, context: seq<T>, k: nat)
    requires k < |context| && context[k] in names
    ensures IndexOf(names, context[k]) in InList(names, context)
  {
    if k < |context| - 1 {
      InListContains(names, context[..|context| - 1], k);
    }
  }

  function Members(s: seq<nat>): set<nat> { set x | x in s }

  /** Part-way through a barrier: `done` are the dependents of wave[a] already visited. */
  ghost predicate Releasing(g: Graph, closed: set<nat>, wave: seq<nat>, a: nat, done: seq<nat>,
                            next: seq<nat>, indegree: seq<int>) {
    && |indegree| == |g| && a <= |wave|
    && StillOpen(g, closed + Members(wave[..a]), done, indegree)
    && Distinct(next) && OrderedAfter(g, wave, next)
    && (forall j: nat {:trigger j in next} :: j in next <==> j < |g| && Open(g[j], closed) > 0 && indegree[j] == 0)
    && forall j: nat :: j in next ==> UnlockPos(g, wave, j) < a || (UnlockPos(g, wave, j) == a && j in done)
  }

  ghost predicate StillOpen(g: Graph, closed: set<nat>, done: seq<nat>, indegree: seq<int>) {
    && |indegree| == |g|
    && forall j: nat :: j < |g| ==> indegree[j] == Open(g[j], closed) - Count(done, j)
  }

  lemma StillOpenStep(g: Graph, closed: set<nat>, done: seq<nat>, j: nat, indegree: seq<int>)
    requires StillOpen(g, closed, done, indegree) && j < |g|
    ensures StillOpen(g, closed, done + [j], indegree[j := indegree[j] - 1])
  {
    forall x: nat | x < |g| ensures Count(done + [j], x) == Count(done, x) + if x == j then 1 else 0 {
      CountAppend(done, j, x);
    }
  }

  lemma ReleaseStep(g: Graph, closed: set<nat>, wave: seq<nat>, a: nat, dependents: seq<nat>, b: nat,
                    next: seq<nat>, indegree: seq<int>)
    requires a < |wave| && b < |dependents| && Sorted(dependents)
    requires Releasing(g, closed, wave, a, dependents[..b], next, indegree)
    requires Distinct(wave) && (forall i: nat :: i in wave ==> i !in closed)
    requires dependents[b] < |g| && Count(g[dependents[b]], wave[a]) == Count(dependents, dependents[b])
    ensures var j := dependents[b];
            var left := indegree[j] - 1;
            Releasing(g, closed, wave, a, dependents[..b + 1], if left == 0 then next + [j] else next, indegree[j := left])
  {
    hide Releasing, Open, UnlockPos, Count;
    var j := dependents[b];
    var done := dependents[..b];
    PrefixCount(dependents, b);
    assert dependents[..b + 1] == done + [j];
    ReleaseSome(g, closed, wave, a, done, dependents, j, next, indegree);
    if indegree[j] == 1 {
      ReleasedNow(g, closed, wave, a, done, dependents, j, next, indegree);
      SortedPrefix(dependents, b);
      ReleaseAppend(g, closed, wave, a, done, j, next, indegree);
    } else {
      ReleaseCount(g, closed, wave, a, done, j, next, indegree);
    }
  }

  lemma SortedPrefix(s: seq<nat>, b: nat)
    requires Sorted(s) && b < |s|
    ensures forall x: nat :: x in s[..b] ==> x <= s[b]
  {
  }

  lemma ReleaseSome(g: Graph, closed: set<nat>, wave: seq<nat>, a: nat, done: seq<nat>, dependents: seq<nat>, j: nat,
                    next: seq<nat>, indegree: seq<int>)
    requires Releasing(g, closed, wave, a, done, next, indegree) && a < |wave| && j < |g|
    requires Distinct(wave) && forall i: nat :: i in wave ==> i !in closed
    requires Count(done, j) < Count(dependents, j) == Count(g[j], wave[a])
    ensures |indegree| == |g| && indegree[j] >= 1
  {
    var before := closed + Members(wave[..a]);
    assert wave[a] in wave && wave[a] !in before;
    OpenClose(g[j], before, wave[a]);
  }

  lemma ReleasedNow(g: Graph, closed: set<nat>, wave: seq<nat>, a: nat, done: seq<nat>, dependents: seq<nat>, j: nat,
                    next: seq<nat>, indegree: seq<int>)
    requires Releasing(g, closed, wave, a, done, next, indegree) && a < |wave| && j < |g| && indegree[j] == 1
    requires Distinct(wave) && forall i: nat :: i in wave ==> i !in closed
    requires Count(done, j) < Count(dependents, j) == Count(g[j], wave[a])
    ensures UnlockPos(g, wave, j) == a && Open(g[j], closed) > 0 && j !in next
  {
    var before := closed + Members(wave[..a]);
    assert closed + Members(wave[..a + 1]) == before + {wave[a]};
    assert wave[a] in wave && wave[a] !in before;
    OpenClose(g[j], before, wave[a]);
    UnlocksAt(g, closed, wave, a, j);
    OpenMore(g[j], closed, before);
  }

  lemma ReleaseAppend(g: Graph, closed: set<nat>, wave: seq<nat>, a: nat, done: seq<nat>, j: nat,
                      next: seq<nat>, indegree: seq<int>)
    requires Releasing(g, closed, wave, a, done, next, indegree) && j < |g| && indegree[j] == 1
    requires UnlockPos(g, wave, j) == a && Open(g[j], closed) > 0 && j !in next
    requires forall x: nat :: x in done ==> x <= j
    ensures Releasing(g, closed, wave, a, done + [j], next + [j], indegree[j := 0])
  {
    StillOpenStep(g, closed + Members(wave[..a]), done, j, indegree);
    AppendOrdered(g, wave, a, next, j);
    hide StillOpen, Open, UnlockPos, OrderedAfter, Distinct;
    assert forall x: nat :: x in done ==> x in done + [j];
  }

  lemma AppendOrdered(g: Graph, wave: seq<nat>, a: nat, next: seq<nat>, j: nat)
    requires Distinct(next) && OrderedAfter(g, wave, next) && j < |g| && j !in next
    requires UnlockPos(g, wave, j) == a
    requires forall x: nat :: x in next ==> x < |g| && (UnlockPos(g, wave, x) < a || (UnlockPos(g, wave, x) == a && x <= j))
    ensures Distinct(next + [j]) && OrderedAfter(g, wave, next + [j])
  {
    hide UnlockPos;
    forall x | 0 <= x < |next| ensures next[x] < |g| && next[x] != j && Precedes(g, wave, next[x], j) {
      assert next[x] in next;
    }
  }

  lemma ReleaseCount(g: Graph, closed: set<nat>, wave: seq<nat>, a: nat, done: seq<nat>, j: nat,
                     next: seq<nat>, indegree: seq<int>)
    requires Releasing(g, closed, wave, a, done, next, indegree) && j < |g| && indegree[j] > 1
    ensures Releasing(g, closed, wave, a, done + [j], next, indegree[j := indegree[j] - 1])
  {
    StillOpenStep(g, closed + Members(wave[..a]), done, j, indegree);
    hide StillOpen, OrderedAfter;
    assert forall x: nat :: x in done ==> x in done + [j];
  }

  lemma {:induction false} OpenMore(deps: seq<nat>, closed: set<nat>, more: set<nat>)
    requires closed <= more
    ensures Open(deps, closed) >= Open(deps, more)
  {
    if deps != [] {
      OpenMore(deps[..|deps| - 1], closed, more);
    }
  }

  lemma ReleaseNone(g: Graph, closed: set<nat>, wave: seq<nat>, indegree: seq<int>)
    requires |indegree| == |g| && forall j: nat :: j < |g| ==> indegree[j] == Open(g[j], closed)
    ensures Releasing(g, closed, wave, 0, [], [], indegree)
  {
    assert closed + Members(wave[..0]) == closed;
  }

  lemma ReleaseMember(g: Graph, closed: set<nat>, wave: seq<nat>, a: nat, dependents: seq<nat>, next: seq<nat>,
                      indegree: seq<int>)
    requires Releasing(g, closed, wave, a, dependents, next, indegree) && a < |wave|
    requires Distinct(wave) && forall i: nat :: i in wave ==> i !in closed
    requires forall j: nat :: j < |g| ==> Count(g[j], wave[a]) == Count(dependents, j)
    ensures Releasing(g, closed, wave, a + 1, [], next, indegree)
  {
    var before := closed + Members(wave[..a]);
    assert closed + Members(wave[..a + 1]) == before + {wave[a]};
    assert wave[a] in wave && wave[a] !in before;
    forall j: nat | j < |g| ensures Open(g[j], before + {wave[a]}) + Count(dependents, j) == Open(g[j], before) {
      OpenClose(g[j], before, wave[a]);
    }
  }

  /** One barrier: close every task of `wave` and list the dependents that become ready. */
  method ReleaseDependents(ghost g: Graph, ghost closed: set<nat>, wave: seq<nat>, indegree: array<int>,
                           adjacent: array<seq<nat>>)
    returns (next: seq<nat>)
    requires Adjacency(g, adjacent[..]) && indegree.Length == |g|
    requires forall j: nat :: j < |g| ==> indegree[j] == Open(g[j], closed)
    requires Distinct(wave) && forall i: nat :: i in wave ==> i < |g| && i !in closed
    modifies indegree
    ensures forall j: nat :: j < |g| ==> indegree[j] == Open(g[j], closed + Members(wave))
    ensures Distinct(next) && OrderedAfter(g, wave, next)
    ensures forall j: nat {:trigger j in next} ::
              j in next <==> j < |g| && Open(g[j], closed) > 0 && Open(g[j], closed + Members(wave)) == 0
  {
    hide Releasing, Row, Open;
    next := [];
    var a := 0;
    ReleaseNone(g, closed, wave, indegree[..]);
    while a < |wave|
      invariant a <= |wave| && Releasing(g, closed, wave, a, [], next, indegree[..])
    {
      assert wave[a] in wave;
      var dependents := adjacent[wave[a]];
      assert dependents == adjacent[..][wave[a]];
      DependentsKnown(g, wave[a], dependents);
      var b := 0;
      while b < |dependents|
        invariant b <= |dependents|
        invariant Releasing(g, closed, wave, a, dependents[..b], next, indegree[..])
      {
        var j := dependents[b];
        assert j in dependents;
        ReleaseStep(g, closed, wave, a, dependents, b, next, indegree[..]);
        indegree[j] := indegree[j] - 1;
        if indegree[j] == 0 {
          next := next + [j];
        }
        b := b + 1;
      }
      assert dependents[..b] == dependents;
      ReleaseMember(g, closed, wave, a, dependents, next, indegree[..]);
      a := a + 1;
    }
    ReleaseAll(g, closed, wave, next, indegree[..]);
  }

  lemma DependentsKnown(g: Graph, j: nat, row: seq<nat>)
    requires DependentsOf(g, j, row) && j < |g|
    ensures Sorted(row) && forall x: nat :: x in row ==> x < |g|
    ensures forall x: nat :: x < |g| ==> Count(g[x], j) == Count(row, x)
  {
    forall x: nat | x < |g| ensures Count(g[x], j) == Count(row, x) {
      assert Count(row, x) == Entered(g, |g|, [], x, j);
    }
  }

  lemma ReleaseAll(g: Graph, closed: set<nat>, wave: seq<nat>, next: seq<nat>, indegree: seq<int>)
    requires Releasing(g, closed, wave, |wave|, [], next, indegree)
    ensures forall j: nat :: j < |g| ==> indegree[j] == Open(g[j], closed + Members(wave))
    ensures Distinct(next) && OrderedAfter(g, wave, next)
    ensures forall j: nat {:trigger j in next} ::
              j in next <==> j < |g| && Open(g[j], closed) > 0 && Open(g[j], closed + Members(wave)) == 0
  {
    assert wave[..|wave|] == wave;
  }

  lemma UnlocksAt(g: Graph, closed: set<nat>, wave: seq<nat>, a: nat, j: nat)
    requires j < |g| && a < |wave| && wave[a] in g[j]
    requires Distinct(wave) && forall i: nat :: i in wave ==> i !in closed
    requires Open(g[j], closed + Members(wave[..a + 1])) == 0
    ensures UnlockPos(g, wave, j) == a
  {
    var q := UnlockPos(g, wave, j);
    if q > a {
      assert false;
    }
  }

  ghost function Below(n: nat): set<nat> {
    set i: nat {:trigger i < n} | i < n
  }

  /** The nodes without dependencies, ascending. */
  method FirstReady(indegree: array<int>) returns (ready: seq<nat>)
    ensures Ascending(ready)
    ensures forall j: nat {:trigger j in ready} :: j in ready <==> j < indegree.Length && indegree[j] == 0
  {
    ready := [];
    for i := 0 to indegree.Length
      invariant forall j: nat {:trigger j in ready} :: j in ready <==> j < i && indegree[j] == 0
      invariant Ascending(ready)
    {
      if indegree[i] == 0 {
        assert forall a :: 0 <= a < |ready| ==> ready[a] in ready;
        ready := ready + [i];
      }
    }
  }
}
