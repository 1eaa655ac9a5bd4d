/** The file store's log, its index in RAM, and the plain list both stand for (filestore.go).
  *
  * An index keeps dead slots; `Live` reads the list of live entries out of it. `LiveReplay` says the index
  * rebuilt from a log stands for the list the log spells out.
  */
module StoreLog {
  import opened Recall
  import opened Strings

  datatype ScopeIndex = ScopeIndex(entries: seq<MemoryEntry>, byID: map<string, nat>)

  const EMPTY_INDEX := ScopeIndex([], map[])

  /** One line of entries.jsonl. */
  datatype Line = EntryLine(e: MemoryEntry) | Tombstone(id: string) | Blank | Corrupt

  /** byID points at slots that hold the id. */
  ghost predicate Sound(idx: ScopeIndex) {
    forall id :: id in idx.byID ==> idx.byID[id] < |idx.entries| && idx.entries[idx.byID[id]].id == id
  }

  function Upsert(idx: ScopeIndex, e: MemoryEntry): (r: ScopeIndex)
    requires Sound(idx)
    ensures Sound(r)
  {
    if e.id in idx.byID then idx.(entries := idx.entries[idx.byID[e.id] := e])
    else ScopeIndex(idx.entries + [e], idx.byID[e.id := |idx.entries|])
  }

  function Drop(idx: ScopeIndex, id: string): (r: ScopeIndex)
    requires Sound(idx)
    ensures Sound(r)
  {
    idx.(byID := idx.byID - {id})
  }

  function Apply(scope: string, idx: ScopeIndex, line: Line): (r: ScopeIndex)
    requires Sound(idx)
    ensures Sound(r)
  {
    match line
    case EntryLine(e) => if e.id == "" then idx else Upsert(idx, e.(scope := scope))
    case Tombstone(id) => if id == "" then idx else Drop(idx, id)
    case _ => idx
  }

  /** The index a log rebuilds. */
  function Replay(scope: string, log: seq<Line>): (r: ScopeIndex)
    ensures Sound(r)
  {
    if log == [] then EMPTY_INDEX else Apply(scope, Replay(scope, log[..|log| - 1]), log[|log| - 1])
  }

  lemma ReplayStep(scope: string, log: seq<Line>, line: Line)
    ensures Replay(scope, log + [line]) == Apply(scope, Replay(scope, log), line)
  {
    assert (log + [line])[..|log|] == log;
  }

  // ----- the live view -----

  predicate IsLive(idx: ScopeIndex, i: nat)
    requires i < |idx.entries|
  {
    idx.entries[i].id in idx.byID && idx.byID[idx.entries[i].id] == i
  }

  function LiveFirst(idx: ScopeIndex, n: nat): seq<MemoryEntry>
    requires n <= |idx.entries|
  {
    if n == 0 then []
    else if IsLive(idx, n - 1) then LiveFirst(idx, n - 1) + [idx.entries[n - 1]]
    else LiveFirst(idx, n - 1)
  }

  function Live(idx: ScopeIndex): seq<MemoryEntry> {
    LiveFirst(idx, |idx.entries|)
  }

  // ----- the plain list -----

  predicate HasId(list: seq<MemoryEntry>, id: string) {
    exists k :: 0 <= k < |list| && list[k].id == id
  }

  ghost predicate DistinctIds(list: seq<MemoryEntry>) {
    forall i, j :: 0 <= i < j < |list| ==> list[i].id != list[j].id
  }

  /** e in the place of the entry with its id. */
  function Replace(list: seq<MemoryEntry>, e: MemoryEntry): seq<MemoryEntry> {
    if list == [] then []
    else Replace(list[..|list| - 1], e) + [if list[|list| - 1].id == e.id then e else list[|list| - 1]]
  }

  function Remove(list: seq<MemoryEntry>, id: string): seq<MemoryEntry> {
    if list == [] then []
    else if list[|list| - 1].id == id then Remove(list[..|list| - 1], id)
    else Remove(list[..|list| - 1], id) + [list[|list| - 1]]
  }

  function ListPut(list: seq<MemoryEntry>, e: MemoryEntry): seq<MemoryEntry> {
    if HasId(list, e.id) then Replace(list, e) else list + [e]
  }

  function ListApply(scope: string, list: seq<MemoryEntry>, line: Line): seq<MemoryEntry> {
    match line
    case EntryLine(e) => if e.id == "" then list else ListPut(list, e.(scope := scope))
    case Tombstone(id) => if id == "" then list else Remove(list, id)
    case _ => list
  }

  /** The list a log spells out. */
  function LogList(scope: string, log: seq<Line>): seq<MemoryEntry> {
    if log == [] then [] else ListApply(scope, LogList(scope, log[..|log| - 1]), log[|log| - 1])
  }

  // ----- the index stands for the list -----

  lemma {:induction false} LiveIds(idx: ScopeIndex, n: nat)
    requires Sound(idx) && n <= |idx.entries|
    ensures forall k :: 0 <= k < |LiveFirst(idx, n)| ==> var id := LiveFirst(idx, n)[k].id; id in idx.byID && idx.byID[id] < n
    ensures forall i: nat :: i < n && IsLive(idx, i) ==> HasId(LiveFirst(idx, n), idx.entries[i].id)
    ensures DistinctIds(LiveFirst(idx, n))
  {
    if n > 0 {
      LiveIds(idx, n - 1);
      var before, list := LiveFirst(idx, n - 1), LiveFirst(idx, n);
      forall i: nat | i < n && IsLive(idx, i) ensures HasId(list, idx.entries[i].id) {
        if i < n - 1 {
          var k :| 0 <= k < |before| && before[k].id == idx.entries[i].id;
          assert list[k] == before[k];
        } else {
          assert list[|list| - 1].id == idx.entries[i].id;
        }
      }
    }
  }

  /** An id is live exactly when the index knows it. */
  lemma LiveHasId(idx: ScopeIndex, id: string)
    requires Sound(idx)
    ensures HasId(Live(idx), id) <==> id in idx.byID
    ensures DistinctIds(Live(idx))
  {
    LiveIds(idx, |idx.entries|);
    if id in idx.byID {
      assert IsLive(idx, idx.byID[id]);
    }
  }

  lemma {:induction false} LiveReplaced(idx: ScopeIndex, e: MemoryEntry, n: nat)
    requires Sound(idx) && e.id in idx.byID && n <= |idx.entries|
    ensures LiveFirst(Upsert(idx, e), n) == Replace(LiveFirst(idx, n), e)
  {
    if n > 0 {
      LiveReplaced(idx, e, n - 1);
      assert IsLive(Upsert(idx, e), n - 1) <==> IsLive(idx, n - 1);
    }
  }

  lemma {:induction false} LiveKept(idx: ScopeIndex, e: MemoryEntry, n: nat)
    requires Sound(idx) && e.id !in idx.byID && n <= |idx.entries|
    ensures LiveFirst(Upsert(idx, e), n) == LiveFirst(idx, n)
  {
    if n > 0 {
      LiveKept(idx, e, n - 1);
      assert IsLive(Upsert(idx, e), n - 1) <==> IsLive(idx, n - 1);
    }
  }

  /** Replace in place, or append. */
  lemma LiveUpsert(idx: ScopeIndex, e: MemoryEntry)
    requires Sound(idx)
    ensures Live(Upsert(idx, e)) == ListPut(Live(idx), e)
  {
    LiveHasId(idx, e.id);
    if e.id in idx.byID {
      LiveReplaced(idx, e, |idx.entries|);
    } else {
      LiveKept(idx, e, |idx.entries|);
      assert IsLive(Upsert(idx, e), |idx.entries|);
    }
  }

  lemma {:induction false} LiveDropped(idx: ScopeIndex, id: string, n: nat)
    requires Sound(idx) && n <= |idx.entries|
    ensures LiveFirst(Drop(idx, id), n) == Remove(LiveFirst(idx, n), id)
  {
    if n > 0 {
      LiveDropped(idx, id, n - 1);
      assert IsLive(Drop(idx, id), n - 1) <==> IsLive(idx, n - 1) && idx.entries[n - 1].id != id;
    }
  }

  /** Dead slots and all, the rebuilt index stands for the list the log spells out. */
  lemma {:induction false} LiveReplay(scope: string, log: seq<Line>)
    ensures Live(Replay(scope, log)) == LogList(scope, log)
  {
    if log != [] {
      var front, line := log[..|log| - 1], log[|log| - 1];
      LiveReplay(scope, front);
      var idx := Replay(scope, front);
      match line {
        case EntryLine(e) => LiveUpsert(idx, e.(scope := scope));
        case Tombstone(id) => LiveDropped(idx, id, |idx.entries|);
        case _ =>
      }
    }
  }

  // ----- what a line does to the list -----

  lemma {:induction false} ReplaceAt(list: seq<MemoryEntry>, e: MemoryEntry)
    ensures |Replace(list, e)| == |list|
    ensures forall k :: 0 <= k < |list| ==> Replace(list, e)[k] == if list[k].id == e.id then e else list[k]
  {
    if list != [] {
      ReplaceAt(list[..|list| - 1], e);
    }
  }

  lemma {:induction false} RemoveAt(list: seq<MemoryEntry>, id: string) returns (ps: seq<nat>)
    ensures forall k :: 0 <= k < |ps| ==> ps[k] < |list|
    ensures forall a, b :: 0 <= a < b < |ps| ==> ps[a] < ps[b]
    ensures forall i: nat {:trigger i in ps} :: i in ps <==> i < |list| && list[i].id != id
    ensures |Remove(list, id)| == |ps| && forall k :: 0 <= k < |ps| ==> Remove(list, id)[k] == list[ps[k]]
  {
    ps := [];
    if list != [] {
      var n := |list| - 1;
      ps := RemoveAt(list[..n], id);
      if list[n].id != id {
        ps := ps + [n];
      }
    }
  }

  /** An entry line with an id puts the entry, under the log's scope, in the place of the one with its id, or at the
      end; blank and unusable lines, and lines without an id, change nothing. */
  lemma LogLine(scope: string, log: seq<Line>, line: Line)
    ensures line.Blank? || line.Corrupt? || (line.EntryLine? && line.e.id == "") || (line.Tombstone? && line.id == "") ==>
              LogList(scope, log + [line]) == LogList(scope, log)
    ensures line.EntryLine? && line.e.id != "" ==>
              var before, after, put := LogList(scope, log), LogList(scope, log + [line]), line.e.(scope := scope);
              if exists k :: 0 <= k < |before| && before[k].id == line.e.id
              then |after| == |before| && forall k :: 0 <= k < |before| ==> after[k] == if before[k].id == line.e.id then put else before[k]
              else after == before + [put]
  {
    assert (log + [line])[..|log|] == log;
    if line.EntryLine? {
      ReplaceAt(LogList(scope, log), line.e.(scope := scope));
    }
  }

  /** A tombstone takes out the entries with its id and keeps the others in order. */
  lemma LogTombstone(scope: string, log: seq<Line>, id: string) returns (ps: seq<nat>)
    requires id != ""
    ensures var before, after := LogList(scope, log), LogList(scope, log + [Tombstone(id)]);
            && (forall k :: 0 <= k < |ps| ==> ps[k] < |before|) && (forall a, b :: 0 <= a < b < |ps| ==> ps[a] < ps[b])
            && (forall i: nat {:trigger i in ps} :: i in ps <==> i < |before| && before[i].id != id)
            && |after| == |ps| && forall k :: 0 <= k < |ps| ==> after[k] == before[ps[k]]
  {
    assert (log + [Tombstone(id)])[..|log|] == log;
    ps := RemoveAt(LogList(scope, log), id);
  }

  lemma LogListDistinct(scope: string, log: seq<Line>)
    ensures DistinctIds(LogList(scope, log))
  {
    LiveReplay(scope, log);
    LiveHasId(Replay(scope, log), "");
  }

  // ----- rolling back a failed Put -----

  /** What Put leaves of an upsert whose line could not be written: its last slot goes, if it holds the id. */
  function RollBack(idx: ScopeIndex, id: string): (r: ScopeIndex)
    requires Sound(idx)
    ensures Sound(r)
  {
    if id in idx.byID && idx.byID[id] == |idx.entries| - 1 then
      ScopeIndex(idx.entries[..|idx.entries| - 1], idx.byID - {id})
    else idx
  }

  function FailedPut(idx: ScopeIndex, e: MemoryEntry): (r: ScopeIndex)
    requires Sound(idx)
    ensures Sound(r)
  {
    RollBack(Upsert(idx, e), e.id)
  }

  /** The id is not live, or its entry, in a slot other than the last, is already e. */
  predicate RollsBack(idx: ScopeIndex, e: MemoryEntry)
    requires Sound(idx)
  {
    e.id in idx.byID ==> idx.byID[e.id] < |idx.entries| - 1 && idx.entries[idx.byID[e.id]] == e
  }

  /** A failed Put leaves no trace exactly then. */
  lemma RollBackExact(idx: ScopeIndex, e: MemoryEntry)
    requires Sound(idx)
    ensures FailedPut(idx, e) == idx <==> RollsBack(idx, e)
  {
    if e.id in idx.byID {
      assert Upsert(idx, e).entries[idx.byID[e.id]] == e;
    } else {
      assert Upsert(idx, e).entries[..|idx.entries|] == idx.entries;
      assert Upsert(idx, e).byID - {e.id} == idx.byID;
    }
  }

  lemma {:induction false} LiveRolledBack(idx: ScopeIndex, id: string, n: nat)
    requires Sound(idx) && id in idx.byID && idx.byID[id] == |idx.entries| - 1 && n < |idx.entries|
    ensures LiveFirst(RollBack(idx, id), n) == LiveFirst(Drop(idx, id), n)
  {
    if n > 0 {
      LiveRolledBack(idx, id, n - 1);
    }
  }

  lemma LastSlotDropped(idx: ScopeIndex, id: string)
    requires Sound(idx) && id in idx.byID && idx.byID[id] == |idx.entries| - 1
    ensures Live(RollBack(idx, id)) == Remove(Live(idx), id)
  {
    var n := |idx.entries| - 1;
    LiveRolledBack(idx, id, n);
    LiveDropped(idx, id, n + 1);
    assert !IsLive(Drop(idx, id), n);
  }

  /** Otherwise the list keeps the new value, or loses the entry if it was the last. */
  lemma FailedPutLive(idx: ScopeIndex, e: MemoryEntry)
    requires Sound(idx)
    ensures Live(FailedPut(idx, e)) ==
            if e.id !in idx.byID then Live(idx)
            else if idx.byID[e.id] == |idx.entries| - 1 then Remove(Live(idx), e.id)
            else Replace(Live(idx), e)
  {
    if e.id !in idx.byID {
      RollBackExact(idx, e);
    } else {
      LiveReplaced(idx, e, |idx.entries|);
      hide LiveFirst, Replace, Remove;
      if idx.byID[e.id] == |idx.entries| - 1 {
        LastSlotDropped(Upsert(idx, e), e.id);
        RemoveReplaced(Live(idx), e);
      }
    }
  }

  lemma {:induction false} RemoveReplaced(list: seq<MemoryEntry>, e: MemoryEntry)
    ensures Remove(Replace(list, e), e.id) == Remove(list, e.id)
  {
    if list != [] {
      RemoveReplaced(list[..|list| - 1], e);
      var r := Replace(list, e);
      assert r[..|r| - 1] == Replace(list[..|list| - 1], e);
    }
  }

  // ----- the candidates of a query -----

  datatype Library = Library(
    lower: string -> string, trim: string -> string, similarity: (seq<real>, seq<real>) -> real)

  predicate Matches(lib: Library, q: MemoryQuery, e: MemoryEntry) {
    var text := lib.lower(lib.trim(q.text));
    q.embedding != [] || text == "" || Contains(lib.lower(e.content), text) || Contains(lib.lower(e.task), text)
  }

  function Candidates(lib: Library, q: MemoryQuery, list: seq<MemoryEntry>): seq<MemoryEntry> {
    if list == [] then []
    else
      var before := Candidates(lib, q, list[..|list| - 1]);
      if Matches(lib, q, list[|list| - 1]) then before + [list[|list| - 1]] else before
  }
}
