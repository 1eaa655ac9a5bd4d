/** The in-memory store (memory.go), and when it answers like the file store. */
module Memory {
  import opened Common
  import opened Recall
  import opened StoreLog
  import opened StoreAnswers
  import FileStore

  datatype Slot = Slot(
    id: string, scope: string, agent: string, task: string, content: string, createdAt: int, embedding: seq<real>)

  /** The entry of a slot; this store keeps no metadata. */
  function EntryOf(s: Slot): MemoryEntry {
    MemoryEntry(s.id, s.scope, s.agent, s.task, s.content, s.createdAt, s.embedding, map[])
  }

  function SlotOf(e: MemoryEntry): Slot {
    Slot(e.id, e.scope, e.agent, e.task, e.content, e.createdAt, e.embedding)
  }

  /** A scope's entries, in order of insertion. */
  function ScopeList(records: seq<Slot>, scope: string): seq<MemoryEntry> {
    if records == [] then []
    else
      var before := ScopeList(records[..|records| - 1], scope);
      var s := records[|records| - 1];
      if s.scope == scope then before + [EntryOf(s)] else before
  }

  /** later is records with ids drawn for some of the slots that had none. */
  ghost predicate Filled(records: seq<Slot>, later: seq<Slot>) {
    && |records| == |later|
    && forall k :: 0 <= k < |records| ==> later[k] == records[k] || (records[k].id == "" && later[k] == records[k].(id := later[k].id))
  }

  predicate IsSlot(s: Slot, scope: string, id: string) {
    s.id == id && s.scope == scope
  }

  class Memory {
    const lib: Library
    var records: seq<Slot>
    /** The operations so far, as the log a file store would have written. */
    ghost var log: FileStore.Logs

    constructor (lib: Library)
      ensures this.lib == lib && records == [] && log == map[]
    {
      this.lib, records, log := lib, [], map[];
    }

    method Save(agent: string, task: string, content: string)
      modifies this`records
      ensures records == old(records) + [Slot("", "", agent, task, content, 0, [])]
    {
      records := records + [Slot("", "", agent, task, content, 0, [])];
    }

    /** Every record came through Put, and of the log the records are the list. */
    ghost predicate Bridged()
      reads this
    {
      && (forall k :: 0 <= k < |records| ==> records[k].id != "")
      && forall scope :: ScopeList(records, scope) == Plain(LogList(scope, FileStore.LogOf(log, scope)))
    }

    method Put(e: MemoryEntry, freshId: string, now: int)
      returns (stored: Option<MemoryEntry>, err: Option<FileStore.StoreError>)
      requires e.id == "" ==> freshId != ""
      modifies this
      ensures err == if |e.content| > FileStore.MAX_ENTRY_BYTES then Some(FileStore.TooLarge) else None
      ensures stored == if err.None? then Some(FileStore.FileStore.Assigned(e, freshId, now)) else None
      ensures err.Some? ==> records == old(records) && log == old(log)
      ensures err.None? ==>
                var e' := FileStore.FileStore.Assigned(e, freshId, now);
                && records == old(records) + [SlotOf(e')]
                && log == old(log)[e.scope := FileStore.LogOf(old(log), e.scope) + [EntryLine(e')]]
                && (old(Bridged()) && !HasId(LogList(e.scope, FileStore.LogOf(old(log), e.scope)), e'.id) ==> Bridged())
    {
      if |e.content| > FileStore.MAX_ENTRY_BYTES {
        return None, Some(FileStore.TooLarge);
      }
      hide FileStore.LogOf, LogList, HasId;
      var id := e.id;
      if id == "" {
        id := freshId;
      }
      var e' := e.(createdAt := if e.createdAt == 0 then now else e.createdAt);
      e' := e'.(id := id);
      records := records + [Slot(id, e.scope, e.agent, e.task, e.content, e'.createdAt, e.embedding)];
      log := log[e.scope := FileStore.LogOf(log, e.scope) + [EntryLine(e')]];
      if old(Bridged()) && !HasId(LogList(e.scope, FileStore.LogOf(old(log), e.scope)), e'.id) {
        forall scope ensures ScopeList(records, scope) == Plain(LogList(scope, FileStore.LogOf(log, scope))) {
          PutBridged(old(records), old(log), e', scope);
        }
      }
      return Some(e'), None;
    }

    /** Ids are drawn for the records passed over, then the first record with the id goes. */
    method Delete(scope: string, id: string, draws: nat -> string) returns (ghost filled: seq<Slot>)
      requires forall n :: draws(n) != ""
      modifies this
      ensures Filled(old(records), filled)
      ensures records == RemoveFirst(filled, scope, id)
      ensures log == if records == filled then old(log) else old(log)[scope := FileStore.LogOf(old(log), scope) + [Tombstone(id)]]
      ensures old(Bridged()) ==> Bridged()
    {
      hide FileStore.LogOf, LogList;
      for i := 0 to |records|
        invariant Filled(old(records), records) && log == old(log) && |records| == |old(records)|
        invariant forall k :: 0 <= k < i ==> records[k].id != "" && !IsSlot(records[k], scope, id)
        invariant forall k :: i <= k < |records| ==> records[k] == old(records)[k]
      {
        if records[i].id == "" {
          records := records[i := records[i].(id := draws(i))];
        }
        var s := records[i];
        if s.id == id && s.scope == scope {
          filled := records;
          RemoveFirstAt(records, scope, id, i);
          records := records[..i] + records[i + 1..];
          log := log[scope := FileStore.LogOf(log, scope) + [Tombstone(id)]];
          if old(Bridged()) {
            assert filled == old(records);
            forall other ensures ScopeList(records, other) == Plain(LogList(other, FileStore.LogOf(log, other))) {
              DeleteBridged(old(records), old(log), scope, id, i, other);
            }
            assert forall k :: 0 <= k < |records| ==> records[k] in filled;
          }
          return;
        }
      }
      filled := records;
      RemoveNone(records, scope, id);
      if old(Bridged()) {
        assert records == old(records);
      }
    }

    /** Ids are drawn for the records that match and have none. */
    method Query(q: MemoryQuery, draws: nat -> string) returns (out: seq<MemoryEntry>)
      requires forall n :: draws(n) != ""
      modifies this`records
      ensures Filled(old(records), records)
      ensures Answers(lib.similarity, q, Candidates(lib, q, ScopeList(records, q.scope)), out)
      ensures Recalls(lib, q, ScopeList(records, q.scope), out)
      ensures old(Bridged()) ==> Bridged()
    {
      hide FileStore.LogOf, LogList, Recalls;
      var limit, maxChars := ClampLimit(q.limit), ClampChars(q.maxChars);
      var candidates := [];
      for i := 0 to |records|
        invariant Filled(old(records), records) && |records| == |old(records)|
        invariant candidates == Candidates(lib, q, ScopeList(records[..i], q.scope))
        invariant forall k :: i <= k < |records| ==> records[k] == old(records)[k]
      {
        var s := records[i];
        ghost var front := records[..i];
        if s.scope == q.scope && Matches(lib, q, EntryOf(s)) && s.id == "" {
          records := records[i := s.(id := draws(i))];
        }
        assert records[..i + 1][..i] == front;
        if s.scope != q.scope {
          continue;
        }
        if !Matches(lib, q, EntryOf(s)) {
          continue;
        }
        candidates := candidates + [EntryOf(records[i])];
      }
      assert records[..|records|] == records;
      if old(Bridged()) {
        assert records == old(records);
      }
      if |q.embedding| > 0 {
        out := RankByEmbedding(lib.similarity, q.embedding, candidates, limit, maxChars);
      } else {
        out := TakeLatestN(candidates, limit, maxChars);
      }
      AnswersRecall(lib, q, ScopeList(records, q.scope), out);
    }
  }

  function RemoveFirst(records: seq<Slot>, scope: string, id: string): seq<Slot> {
    if records == [] then []
    else if IsSlot(records[0], scope, id) then records[1..]
    else [records[0]] + RemoveFirst(records[1..], scope, id)
  }

  lemma {:induction false} RemoveFirstAt(records: seq<Slot>, scope: string, id: string, i: nat)
    requires i < |records| && IsSlot(records[i], scope, id) && forall k :: 0 <= k < i ==> !IsSlot(records[k], scope, id)
    ensures RemoveFirst(records, scope, id) == records[..i] + records[i + 1..] != records
  {
    assert |records[..i] + records[i + 1..]| == |records| - 1;
    if i > 0 {
      RemoveFirstAt(records[1..], scope, id, i - 1);
      assert records[..i] == [records[0]] + records[1..][..i - 1];
    }
  }

  lemma {:induction false} RemoveNone(records: seq<Slot>, scope: string, id: string)
    requires forall k :: 0 <= k < |records| ==> !IsSlot(records[k], scope, id)
    ensures RemoveFirst(records, scope, id) == records
  {
    if records != [] {
      RemoveNone(records[1..], scope, id);
    }
  }

  // ----- the two stores keep the same lists -----

  /** Without metadata. */
  function PlainEntry(e: MemoryEntry): MemoryEntry {
    e.(metadata := map[])
  }

  function Plain(es: seq<MemoryEntry>): (r: seq<MemoryEntry>)
    ensures |r| == |es| && forall k :: 0 <= k < |es| ==> r[k] == PlainEntry(es[k])
  {
    seq(|es|, k requires 0 <= k < |es| => PlainEntry(es[k]))
  }

  lemma LogListStep(scope: string, log: seq<Line>, line: Line)
    ensures LogList(scope, log + [line]) == ListApply(scope, LogList(scope, log), line)
  {
    assert (log + [line])[..|log|] == log;
  }

  lemma PutBridged(records: seq<Slot>, log: FileStore.Logs, e: MemoryEntry, scope: string)
    requires ScopeList(records, scope) == Plain(LogList(scope, FileStore.LogOf(log, scope)))
    requires e.id != "" && (scope == e.scope ==> !HasId(LogList(e.scope, FileStore.LogOf(log, e.scope)), e.id))
    ensures var log' := log[e.scope := FileStore.LogOf(log, e.scope) + [EntryLine(e)]];
            ScopeList(records + [SlotOf(e)], scope) == Plain(LogList(scope, FileStore.LogOf(log', scope)))
  {
    LogListStep(e.scope, FileStore.LogOf(log, e.scope), EntryLine(e));
    assert (records + [SlotOf(e)])[..|records|] == records;
    assert EntryOf(SlotOf(e)) == PlainEntry(e) && e.(scope := e.scope) == e;
    hide LogList;
    if scope == e.scope {
      var list := LogList(scope, FileStore.LogOf(log, scope));
      assert Plain(list + [e]) == Plain(list) + [PlainEntry(e)];
    }
  }

  lemma {:induction false} ScopeListAppend(a: seq<Slot>, b: seq<Slot>, scope: string)
    ensures ScopeList(a + b, scope) == ScopeList(a, scope) + ScopeList(b, scope)
  {
    if b == [] {
      assert a + b == a;
    } else {
      ScopeListAppend(a, b[..|b| - 1], scope);
      assert (a + b)[..|a + b| - 1] == a + b[..|b| - 1];
    }
  }

  lemma {:induction false} RemoveAppend(a: seq<MemoryEntry>, b: seq<MemoryEntry>, id: string)
    ensures Remove(a + b, id) == Remove(a, id) + Remove(b, id)
  {
    if b == [] {
      assert a + b == a;
    } else {
      RemoveAppend(a, b[..|b| - 1], id);
      assert (a + b)[..|a + b| - 1] == a + b[..|b| - 1];
    }
  }

  lemma {:induction false} RemoveAbsent(a: seq<MemoryEntry>, id: string)
    requires forall k :: 0 <= k < |a| ==> a[k].id != id
    ensures Remove(a, id) == a
  {
    if a != [] {
      RemoveAbsent(a[..|a| - 1], id);
    }
  }

  lemma {:induction false} PlainRemove(list: seq<MemoryEntry>, id: string)
    ensures Plain(Remove(list, id)) == Remove(Plain(list), id)
  {
    if list != [] {
      var front := list[..|list| - 1];
      PlainRemove(front, id);
      assert Plain(list)[..|list| - 1] == Plain(front);
    }
  }

  lemma RemoveOne(a: seq<MemoryEntry>, x: MemoryEntry, b: seq<MemoryEntry>)
    requires DistinctIds(a + [x] + b)
    ensures Remove(a + [x] + b, x.id) == a + b
  {
    var list := a + [x] + b;
    RemoveAppend(a + [x], b, x.id);
    RemoveAppend(a, [x], x.id);
    forall k | 0 <= k < |a| ensures a[k].id != x.id {
      assert list[k] == a[k] && list[|a|] == x;
    }
    forall k | 0 <= k < |b| ensures b[k].id != x.id {
      assert list[|a| + 1 + k] == b[k] && list[|a|] == x;
    }
    RemoveAbsent(a, x.id);
    RemoveAbsent(b, x.id);
    assert Remove([x], x.id) == Remove([x][..0], x.id);
  }

  lemma ScopeListSplit(records: seq<Slot>, i: nat, scope: string)
    requires i < |records|
    ensures var mid := if records[i].scope == scope then [EntryOf(records[i])] else [];
            ScopeList(records, scope) == ScopeList(records[..i], scope) + mid + ScopeList(records[i + 1..], scope)
    ensures ScopeList(records[..i] + records[i + 1..], scope) == ScopeList(records[..i], scope) + ScopeList(records[i + 1..], scope)
  {
    ScopeListAppend(records[..i + 1], records[i + 1..], scope);
    assert records[..i + 1][..i] == records[..i];
    assert records == records[..i + 1] + records[i + 1..];
    ScopeListAppend(records[..i], records[i + 1..], scope);
  }

  lemma PlainRemoveOne(list: seq<MemoryEntry>, a: seq<MemoryEntry>, x: MemoryEntry, b: seq<MemoryEntry>)
    requires DistinctIds(list) && Plain(list) == a + [x] + b
    ensures Plain(Remove(list, x.id)) == a + b
  {
    PlainRemove(list, x.id);
    forall i, j | 0 <= i < j < |list| ensures (a + [x] + b)[i].id != (a + [x] + b)[j].id {
      assert Plain(list)[i].id == list[i].id && Plain(list)[j].id == list[j].id;
    }
    RemoveOne(a, x, b);
  }

  lemma DeleteBridged(records: seq<Slot>, log: FileStore.Logs, scope: string, id: string, i: nat, other: string)
    requires i < |records| && IsSlot(records[i], scope, id) && id != ""
    requires ScopeList(records, other) == Plain(LogList(other, FileStore.LogOf(log, other)))
    ensures var log' := log[scope := FileStore.LogOf(log, scope) + [Tombstone(id)]];
            ScopeList(records[..i] + records[i + 1..], other) == Plain(LogList(other, FileStore.LogOf(log', other)))
  {
    hide LogList, ScopeList, Remove, DistinctIds, Plain;
    var lines := FileStore.LogOf(log, other);
    var a, b := ScopeList(records[..i], other), ScopeList(records[i + 1..], other);
    ScopeListSplit(records, i, other);
    if other == scope {
      LogListStep(scope, lines, Tombstone(id));
      LogListDistinct(scope, lines);
      assert EntryOf(records[i]).id == id;
      PlainRemoveOne(LogList(scope, lines), a, EntryOf(records[i]), b);
    } else {
      assert a + [] + b == a + b;
    }
  }

  // ----- the same lists give the same answers -----

  lemma {:induction false} CandidatesPlain(lib: Library, q: MemoryQuery, list: seq<MemoryEntry>)
    ensures Candidates(lib, q, Plain(list)) == Plain(Candidates(lib, q, list))
  {
    if list != [] {
      var front := list[..|list| - 1];
      CandidatesPlain(lib, q, front);
      assert Plain(list)[..|list| - 1] == Plain(front);
    }
  }

  lemma {:induction false} CharsPlain(es: seq<MemoryEntry>)
    ensures Chars(Plain(es)) == Chars(es)
  {
    if es != [] {
      CharsPlain(es[..|es| - 1]);
      assert Plain(es)[..|es| - 1] == Plain(es[..|es| - 1]);
    }
  }

  lemma CutPlain(es: seq<MemoryEntry>, limit: nat, maxChars: int, r: seq<MemoryEntry>)
    requires IsCut(es, limit, maxChars, r)
    ensures IsCut(Plain(es), limit, maxChars, Plain(r))
  {
    CharsPlain(r);
    assert Plain(es)[..|r|] == Plain(r);
    forall n: nat | |r| < n <= |es| ensures !Fits(Plain(es)[..n], limit, maxChars) {
      assert Plain(es)[..n] == Plain(es[..n]);
      CharsPlain(es[..n]);
    }
  }

  function PlainItems(items: seq<Scored>): (r: seq<Scored>)
    ensures |r| == |items| && forall k :: 0 <= k < |items| ==> r[k] == items[k].(e := PlainEntry(items[k].e))
  {
    seq(|items|, k requires 0 <= k < |items| => items[k].(e := PlainEntry(items[k].e)))
  }

  lemma {:induction false} InsertPlain(x: Scored, items: seq<Scored>)
    ensures Insert(x.(e := PlainEntry(x.e)), PlainItems(items)) == PlainItems(Insert(x, items))
  {
    if items != [] && !Before(x, items[0]) {
      InsertPlain(x, items[1..]);
      assert PlainItems(items)[1..] == PlainItems(items[1..]);
    }
  }

  lemma {:induction false} RankPlain(items: seq<Scored>)
    ensures Rank(PlainItems(items)) == PlainItems(Rank(items))
  {
    if items != [] {
      RankPlain(items[1..]);
      assert PlainItems(items)[1..] == PlainItems(items[1..]);
      InsertPlain(items[0], Rank(items[1..]));
    }
  }

  lemma {:induction false} PositivesPlain(items: seq<Scored>)
    ensures Positives(PlainItems(items)) == PlainItems(Positives(items))
  {
    if items != [] {
      PositivesPlain(items[..|items| - 1]);
      assert PlainItems(items)[..|items| - 1] == PlainItems(items[..|items| - 1]);
    }
  }

  lemma AnswersPlain(similarity: (seq<real>, seq<real>) -> real, q: MemoryQuery, candidates: seq<MemoryEntry>,
                     out: seq<MemoryEntry>)
    requires Answers(similarity, q, candidates, out)
    ensures Answers(similarity, q, Plain(candidates), Plain(out))
  {
    var limit, maxChars := ClampLimit(q.limit), ClampChars(q.maxChars);
    if q.embedding == [] || candidates == [] {
      CutPlain(Reversed(candidates), limit, maxChars, out);
      assert Plain(Reversed(candidates)) == Reversed(Plain(candidates));
    } else {
      var scored := ScoreAll(similarity, q.embedding, candidates);
      var items := Rank(scored);
      assert ScoreAll(similarity, q.embedding, Plain(candidates)) == PlainItems(scored);
      RankPlain(scored);
      PositivesPlain(items);
      hide Rank, Positives, IsCut;
      var ranked := if Positives(items) != [] then Positives(items) else items;
      CutPlain(EntriesOf(ranked), limit, maxChars, out);
      assert EntriesOf(PlainItems(ranked)) == Plain(EntriesOf(ranked));
    }
  }

  /** Stores that have logged the same operations answer every query alike, metadata apart. */
  lemma StoresAgree(fs: FileStore.FileStore, m: Memory, q: MemoryQuery, a: seq<MemoryEntry>, b: seq<MemoryEntry>)
    requires fs.Honest() && m.Bridged() && fs.lib == m.lib
    requires FileStore.LogOf(fs.disk, q.scope) == FileStore.LogOf(m.log, q.scope)
    requires Answers(fs.lib.similarity, q, Candidates(fs.lib, q, Live(fs.Index(q.scope))), a)
    requires Answers(m.lib.similarity, q, Candidates(m.lib, q, ScopeList(m.records, q.scope)), b)
    ensures Plain(a) == b
  {
    hide Answers, Candidates, FileStore.LogOf, Replay, LogList, ScopeList;
    var log := FileStore.LogOf(fs.disk, q.scope);
    var list := LogList(q.scope, log);
    LiveReplay(q.scope, log);
    assert FileStore.IndexIn(fs.byScope, q.scope) == Replay(q.scope, log);
    AnswersPlain(fs.lib.similarity, q, Candidates(fs.lib, q, list), a);
    CandidatesPlain(fs.lib, q, list);
    AnswersUnique(fs.lib.similarity, q, Candidates(fs.lib, q, Plain(list)), Plain(a), b);
  }

  /** A repeated id tells the stores apart: this one keeps both entries, the file store replaces. */
  lemma RepeatedId(list: seq<MemoryEntry>, e: MemoryEntry)
    ensures ListPut(list, e) == list + [e] <==> !HasId(list, e.id)
  {
    if HasId(list, e.id) {
      ReplaceLength(list, e);
    }
  }

  lemma {:induction false} ReplaceLength(list: seq<MemoryEntry>, e: MemoryEntry)
    ensures |Replace(list, e)| == |list|
  {
    if list != [] {
      ReplaceLength(list[..|list| - 1], e);
    }
  }
}
