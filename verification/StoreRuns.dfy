/** Both memory stores under the same operations (filestore.go, memory.go). */
module StoreRuns {
  import opened Recall
  import opened StoreLog
  import opened StoreAnswers
  import FileStore
  import Memory

  /** An operation of the MemoryStore interface; freshId and now are what the store draws if it has to. */
  datatype Op =
    | PutOp(e: MemoryEntry, freshId: string, now: int)
    | DeleteOp(scope: string, id: string)
    | QueryOp(q: MemoryQuery)

  function Stored(e: MemoryEntry, freshId: string, now: int): MemoryEntry {
    FileStore.FileStore.Assigned(e, freshId, now)
  }

  function ListStep(list: seq<MemoryEntry>, op: Op, scope: string): seq<MemoryEntry> {
    match op
    case PutOp(e, freshId, now) =>
      if e.scope == scope && |e.content| <= FileStore.MAX_ENTRY_BYTES then ListPut(list, Stored(e, freshId, now)) else list
    case DeleteOp(s, id) => if s == scope && id != "" then Remove(list, id) else list
    case QueryOp(_) => list
  }

  /** The reference: a scope's list after the operations, put in place or appended, and removed. */
  function ListAfter(ops: seq<Op>, scope: string): seq<MemoryEntry> {
    if ops == [] then [] else ListStep(ListAfter(ops[..|ops| - 1], scope), ops[|ops| - 1], scope)
  }

  ghost predicate NotInUse(ops: seq<Op>, id: string) {
    id != "" && forall scope :: !HasId(ListAfter(ops, scope), id)
  }

  /** After ops, a Put does not use an id live in its scope, and an id drawn is in use nowhere. */
  ghost predicate Allowed(ops: seq<Op>, op: Op) {
    op.PutOp? ==>
      && (op.e.id == "" ==> NotInUse(ops, op.freshId))
      && !HasId(ListAfter(ops, op.e.scope), Stored(op.e, op.freshId, op.now).id)
  }

  ghost predicate NeverPutsLive(ops: seq<Op>) {
    forall k :: 0 <= k < |ops| ==> Allowed(ops[..k], ops[k])
  }

  /** Both stores stand for the reference list, in every scope. */
  ghost predicate Alike(fs: FileStore.FileStore, m: Memory.Memory, ops: seq<Op>)
    reads fs, m
  {
    && fs.Honest() && !fs.closed && m.Bridged() && fs.lib == m.lib
    && forall scope :: AlikeIn(fs.disk, m.log, ops, scope)
  }

  ghost predicate AlikeIn(disk: FileStore.Logs, log: FileStore.Logs, ops: seq<Op>, scope: string) {
    && FileStore.LogOf(disk, scope) == FileStore.LogOf(log, scope)
    && LogList(scope, FileStore.LogOf(disk, scope)) == ListAfter(ops, scope)
  }

  lemma AfterStep(ops: seq<Op>, op: Op, scope: string)
    ensures ListAfter(ops + [op], scope) == ListStep(ListAfter(ops, scope), op, scope)
  {
    assert (ops + [op])[..|ops|] == ops;
  }

  /** An allowed Put of at most 32 KiB adds its entry at the end, with an id and a time if it had none. */
  lemma PutAppends(ops: seq<Op>, e: MemoryEntry, freshId: string, now: int, scope: string)
    requires Allowed(ops, PutOp(e, freshId, now))
    ensures ListAfter(ops + [PutOp(e, freshId, now)], scope) == ListAfter(ops, scope) +
            if e.scope != scope || |e.content| > 32768 then []
            else [MemoryEntry(if e.id == "" then freshId else e.id, e.scope, e.agent, e.task, e.content,
                              if e.createdAt == 0 then now else e.createdAt, e.embedding, e.metadata)]
  {
    AfterStep(ops, PutOp(e, freshId, now), scope);
    hide ListAfter;
    var list := ListAfter(ops, scope);
    assert list + [] == list && FileStore.MAX_ENTRY_BYTES == 32768;
    assert Stored(e, freshId, now) ==
      MemoryEntry(if e.id == "" then freshId else e.id, e.scope, e.agent, e.task, e.content,
                  if e.createdAt == 0 then now else e.createdAt, e.embedding, e.metadata);
    if e.scope == scope && |e.content| <= 32768 {
      assert ListStep(list, PutOp(e, freshId, now), scope) == ListPut(list, Stored(e, freshId, now));
    }
  }

  /** A Delete takes out the entries of its scope with the id, and keeps the others in order. */
  lemma DeleteKeepsOthers(ops: seq<Op>, s: string, id: string, scope: string) returns (ps: seq<nat>)
    ensures forall k :: 0 <= k < |ps| ==> ps[k] < |ListAfter(ops, scope)|
    ensures forall a, b :: 0 <= a < b < |ps| ==> ps[a] < ps[b]
    ensures forall i: nat {:trigger i in ps} ::
              i in ps <==> i < |ListAfter(ops, scope)| && (s == scope && id != "" ==> ListAfter(ops, scope)[i].id != id)
    ensures ListAfter(ops + [DeleteOp(s, id)], scope) == PickAt(ListAfter(ops, scope), ps)
  {
    AfterStep(ops, DeleteOp(s, id), scope);
    var list := ListAfter(ops, scope);
    hide ListAfter;
    if s == scope && id != "" {
      ps := RemoveAt(list, id);
    } else {
      ps := seq(|list|, k requires 0 <= k < |list| => k);
      forall i: nat ensures i in ps <==> i < |list| {
        if i < |list| {
          assert ps[i] == i;
        }
      }
      assert PickAt(list, ps) == list;
    }
  }

  /** The file store's index knows exactly the ids on the reference list. */
  lemma KnownIds(fs: FileStore.FileStore, m: Memory.Memory, ops: seq<Op>, scope: string, id: string)
    requires Alike(fs, m, ops)
    ensures id in fs.Index(scope).byID <==> HasId(ListAfter(ops, scope), id)
  {
    hide Replay, LogList, ListAfter;
    assert AlikeIn(fs.disk, m.log, ops, scope);
    LiveReplay(scope, FileStore.LogOf(fs.disk, scope));
    assert FileStore.IndexIn(fs.byScope, scope) == Replay(scope, FileStore.LogOf(fs.disk, scope));
    LiveHasId(fs.Index(scope), id);
  }

  /** So does the in-memory store's list. */
  lemma KnownSlots(fs: FileStore.FileStore, m: Memory.Memory, ops: seq<Op>, scope: string, id: string)
    requires Alike(fs, m, ops)
    ensures (exists k :: 0 <= k < |m.records| && Memory.IsSlot(m.records[k], scope, id)) <==> HasId(ListAfter(ops, scope), id)
  {
    hide LogList, ListAfter, FileStore.LogOf;
    assert AlikeIn(fs.disk, m.log, ops, scope);
    var list := ListAfter(ops, scope);
    assert Memory.ScopeList(m.records, scope) == Memory.Plain(list);
    SlotsListed(m.records, scope, id);
    PlainIds(list, id);
  }

  lemma PlainIds(list: seq<MemoryEntry>, id: string)
    ensures HasId(Memory.Plain(list), id) <==> HasId(list, id)
  {
    if HasId(list, id) {
      var k :| 0 <= k < |list| && list[k].id == id;
      assert Memory.Plain(list)[k].id == id;
    }
  }

  lemma {:induction false} SlotsListed(records: seq<Memory.Slot>, scope: string, id: string)
    ensures (exists k :: 0 <= k < |records| && Memory.IsSlot(records[k], scope, id)) <==> HasId(Memory.ScopeList(records, scope), id)
  {
    if records != [] {
      var front, last := records[..|records| - 1], records[|records| - 1];
      SlotsListed(front, scope, id);
      var before, list := Memory.ScopeList(front, scope), Memory.ScopeList(records, scope);
      if k :| 0 <= k < |front| && Memory.IsSlot(front[k], scope, id) {
        assert Memory.IsSlot(records[k], scope, id);
      }
      if k :| 0 <= k < |records| && Memory.IsSlot(records[k], scope, id) {
        assert k < |front| ==> Memory.IsSlot(front[k], scope, id);
      }
      if k :| 0 <= k < |before| && before[k].id == id {
        assert list[k] == before[k];
      }
      if last.scope == scope {
        assert list == before + [Memory.EntryOf(last)];
        assert list[|before|].id == last.id;
      }
    }
  }

  lemma {:induction false} RemoveUnknown(list: seq<MemoryEntry>, id: string)
    requires !HasId(list, id)
    ensures Remove(list, id) == list
  {
    Memory.RemoveAbsent(list, id);
  }

  lemma PutAlike(disk: FileStore.Logs, log: FileStore.Logs, ops: seq<Op>, op: Op, scope: string)
    requires op.PutOp? && |op.e.content| <= FileStore.MAX_ENTRY_BYTES && AlikeIn(disk, log, ops, scope)
    requires Stored(op.e, op.freshId, op.now).id != ""
    ensures var e' := Stored(op.e, op.freshId, op.now);
            AlikeIn(disk[e'.scope := FileStore.LogOf(disk, e'.scope) + [EntryLine(e')]],
                    log[e'.scope := FileStore.LogOf(log, e'.scope) + [EntryLine(e')]], ops + [op], scope)
  {
    var e' := Stored(op.e, op.freshId, op.now);
    AfterStep(ops, op, scope);
    Memory.LogListStep(scope, FileStore.LogOf(disk, scope), EntryLine(e'));
    assert e'.(scope := e'.scope) == e';
    hide LogList, ListAfter, ListPut;
  }

  lemma DeleteAlike(disk: FileStore.Logs, log: FileStore.Logs, ops: seq<Op>, s: string, id: string, scope: string)
    requires id != "" && AlikeIn(disk, log, ops, scope)
    ensures AlikeIn(disk[s := FileStore.LogOf(disk, s) + [Tombstone(id)]],
                    log[s := FileStore.LogOf(log, s) + [Tombstone(id)]], ops + [DeleteOp(s, id)], scope)
  {
    AfterStep(ops, DeleteOp(s, id), scope);
    Memory.LogListStep(scope, FileStore.LogOf(disk, scope), Tombstone(id));
    hide LogList, ListAfter, Remove;
  }

  /** An operation that changes neither the list nor the logs. */
  lemma SameAlike(disk: FileStore.Logs, log: FileStore.Logs, ops: seq<Op>, op: Op, scope: string)
    requires AlikeIn(disk, log, ops, scope) && ListStep(ListAfter(ops, scope), op, scope) == ListAfter(ops, scope)
    ensures AlikeIn(disk, log, ops + [op], scope)
  {
    AfterStep(ops, op, scope);
  }

  /** The same Put on both stores. */
  method PutBoth(fs: FileStore.FileStore, m: Memory.Memory, ghost ops: seq<Op>, e: MemoryEntry, freshId: string, now: int)
    requires Alike(fs, m, ops) && Allowed(ops, PutOp(e, freshId, now))
    modifies fs, m
    ensures Alike(fs, m, ops + [PutOp(e, freshId, now)])
  {
    hide AlikeIn, LogList, ListAfter, FileStore.Rebuilt, FileStore.LogOf, HasId;
    ghost var op := PutOp(e, freshId, now);
    ghost var disk, log := fs.disk, m.log;
    ghost var e' := Stored(e, freshId, now);
    if e.id == "" {
      forall scope | scope in fs.byScope ensures freshId !in fs.byScope[scope].byID {
        KnownIds(fs, m, ops, scope, freshId);
      }
    }
    ListOfLog(disk, log, ops, e.scope);
    var stored, err := fs.Put(e, freshId, now, false, FileStore.Works);
    var stored', err' := m.Put(e, freshId, now);
    if |e.content| > FileStore.MAX_ENTRY_BYTES {
      forall scope ensures AlikeIn(fs.disk, m.log, ops + [op], scope) {
        assert AlikeIn(disk, log, ops, scope);
        SameAlike(disk, log, ops, op, scope);
      }
    } else {
      forall scope ensures AlikeIn(fs.disk, m.log, ops + [op], scope) {
        assert AlikeIn(disk, log, ops, scope);
        PutAlike(disk, log, ops, op, scope);
      }
    }
  }

  lemma ListOfLog(disk: FileStore.Logs, log: FileStore.Logs, ops: seq<Op>, scope: string)
    requires AlikeIn(disk, log, ops, scope)
    ensures LogList(scope, FileStore.LogOf(log, scope)) == ListAfter(ops, scope)
  {
  }

  /** The same Delete on both stores: a tombstone is written exactly when a record goes. */
  method DeleteBoth(fs: FileStore.FileStore, m: Memory.Memory, ghost ops: seq<Op>, scope: string, id: string, draws: nat -> string)
    requires Alike(fs, m, ops) && forall n :: draws(n) != ""
    modifies fs, m
    ensures Alike(fs, m, ops + [DeleteOp(scope, id)])
  {
    hide AlikeIn, LogList, ListAfter, FileStore.Rebuilt, FileStore.LogOf, HasId, Memory.IsSlot;
    ghost var op := DeleteOp(scope, id);
    ghost var disk, log := fs.disk, m.log;
    ghost var records := m.records;
    ghost var known := HasId(ListAfter(ops, scope), id);
    KnownIds(fs, m, ops, scope, id);
    KnownSlots(fs, m, ops, scope, id);
    assert forall k :: 0 <= k < |records| ==> records[k].id != "";
    var err := fs.Delete(scope, id, false, FileStore.Works);
    ghost var filled := m.Delete(scope, id, draws);
    assert filled == records;
    RemovesIff(records, scope, id);
    if known {
      NamedSlot(records, scope, id);
      forall other ensures AlikeIn(fs.disk, m.log, ops + [op], other) {
        assert AlikeIn(disk, log, ops, other);
        DeleteAlike(disk, log, ops, scope, id, other);
      }
    } else {
      forall other ensures AlikeIn(fs.disk, m.log, ops + [op], other) {
        assert AlikeIn(disk, log, ops, other);
        if other == scope {
          RemoveUnknown(ListAfter(ops, scope), id);
        }
        SameAlike(disk, log, ops, op, other);
      }
    }
  }

  lemma RemovesIff(records: seq<Memory.Slot>, scope: string, id: string)
    ensures Memory.RemoveFirst(records, scope, id) != records <==>
              exists k :: 0 <= k < |records| && Memory.IsSlot(records[k], scope, id)
  {
    if k: nat :| k < |records| && Memory.IsSlot(records[k], scope, id) {
      FirstSlot(records, scope, id, k);
    } else {
      Memory.RemoveNone(records, scope, id);
    }
  }

  lemma {:induction false} FirstSlot(records: seq<Memory.Slot>, scope: string, id: string, k: nat)
    requires k < |records| && Memory.IsSlot(records[k], scope, id)
    ensures Memory.RemoveFirst(records, scope, id) != records
  {
    if j: nat :| j < k && Memory.IsSlot(records[j], scope, id) {
      FirstSlot(records, scope, id, j);
    } else {
      Memory.RemoveFirstAt(records, scope, id, k);
    }
  }

  lemma NamedSlot(records: seq<Memory.Slot>, scope: string, id: string)
    requires exists k :: 0 <= k < |records| && Memory.IsSlot(records[k], scope, id)
    requires forall k :: 0 <= k < |records| ==> records[k].id != ""
    ensures id != ""
  {
  }

  /** The same entries, the second list without metadata. */
  predicate MetadataApart(a: seq<MemoryEntry>, b: seq<MemoryEntry>) {
    |a| == |b| && forall n :: 0 <= n < |a| ==> b[n] == a[n].(metadata := map[])
  }

  /** The same Query on both stores: the same answer, metadata apart, and the reference list's. */
  method QueryBoth(fs: FileStore.FileStore, m: Memory.Memory, ghost ops: seq<Op>, q: MemoryQuery, draws: nat -> string)
    returns (a: seq<MemoryEntry>, b: seq<MemoryEntry>)
    requires Alike(fs, m, ops) && forall n :: draws(n) != ""
    modifies m
    ensures Alike(fs, m, ops + [QueryOp(q)])
    ensures Answers(fs.lib.similarity, q, Candidates(fs.lib, q, ListAfter(ops, q.scope)), a)
    ensures Recalls(fs.lib, q, ListAfter(ops, q.scope), a)
    ensures b == Memory.Plain(a) && MetadataApart(a, b)
  {
    hide AlikeIn, LogList, ListAfter, FileStore.Rebuilt, FileStore.LogOf, Answers, Candidates, Recalls;
    ghost var disk, log := fs.disk, m.log;
    var err;
    a, err := fs.Query(q, false);
    b := m.Query(q, draws);
    forall scope ensures AlikeIn(disk, log, ops + [QueryOp(q)], scope) {
      assert AlikeIn(disk, log, ops, scope);
      SameAlike(disk, log, ops, QueryOp(q), scope);
    }
    LogsOf(fs, m, ops, q.scope);
    Memory.StoresAgree(fs, m, q, a, b);
  }

  lemma LogsOf(fs: FileStore.FileStore, m: Memory.Memory, ops: seq<Op>, scope: string)
    requires fs.Honest() && AlikeIn(fs.disk, m.log, ops, scope)
    ensures FileStore.LogOf(fs.disk, scope) == FileStore.LogOf(m.log, scope)
    ensures Live(fs.Index(scope)) == ListAfter(ops, scope)
  {
    LiveReplay(scope, FileStore.LogOf(fs.disk, scope));
    assert FileStore.IndexIn(fs.byScope, scope) == Replay(scope, FileStore.LogOf(fs.disk, scope));
  }

  /** Any sequence of operations that never Puts a live id, on two empty stores: after every prefix each Query
      has the same answer on both, metadata apart, and it is the answer over the reference list. */
  method RunBoth(lib: Library, ops: seq<Op>, draws: nat -> string)
    returns (fs: FileStore.FileStore, m: Memory.Memory, a: seq<seq<MemoryEntry>>, b: seq<seq<MemoryEntry>>)
    requires NeverPutsLive(ops) && forall n :: draws(n) != ""
    ensures fresh(fs) && fresh(m) && fs.lib == lib && Alike(fs, m, ops)
    ensures |a| == |b| == |ops|
    ensures forall k :: 0 <= k < |ops| && ops[k].QueryOp? ==>
              && Recalls(lib, ops[k].q, ListAfter(ops[..k], ops[k].q.scope), a[k])
              && MetadataApart(a[k], b[k])
  {
    hide Alike, Allowed, Answers, Candidates, Recalls, ListAfter;
    fs := new FileStore.FileStore.Open(lib, map[]);
    m := new Memory.Memory(lib);
    StartAlike(fs, m);
    a, b := [], [];
    for k := 0 to |ops|
      invariant fresh(fs) && fresh(m) && fs.lib == lib && Alike(fs, m, ops[..k]) && |a| == |b| == k
      invariant forall j :: 0 <= j < k && ops[j].QueryOp? ==>
                  && Recalls(lib, ops[j].q, ListAfter(ops[..j], ops[j].q.scope), a[j])
                  && MetadataApart(a[j], b[j])
    {
      assert ops[..k + 1] == ops[..k] + [ops[k]];
      var x, y := [], [];
      match ops[k] {
        case PutOp(e, freshId, now) => PutBoth(fs, m, ops[..k], e, freshId, now);
        case DeleteOp(scope, id) => DeleteBoth(fs, m, ops[..k], scope, id, draws);
        case QueryOp(q) => x, y := QueryBoth(fs, m, ops[..k], q, draws);
      }
      a, b := a + [x], b + [y];
    }
    assert ops[..|ops|] == ops;
  }

  lemma StartAlike(fs: FileStore.FileStore, m: Memory.Memory)
    requires fs.Honest() && !fs.closed && fs.disk == map[] && fs.lib == m.lib && m.records == [] && m.log == map[]
    ensures Alike(fs, m, [])
  {
  }
}
