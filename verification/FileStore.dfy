/** The durable memory store (filestore.go). The disk is, for every scope, a sequence of lines; an append
  * succeeds or fails as a whole. */
module FileStore {
  import opened Common
  import opened Recall
  import opened StoreLog
  import opened StoreAnswers

  const MAX_ENTRY_BYTES: nat := 32768

  datatype StoreError = Canceled | TooLarge | Closed | DiskFailed

  /** How the disk takes an operation: the line is written or not, and then meta.json. */
  datatype Disk = Works | AppendFails | MetaFails

  type Logs = map<string, seq<Line>>

  function LogOf(disk: Logs, scope: string): seq<Line> {
    if scope in disk then disk[scope] else []
  }

  ghost predicate AllSound(byScope: map<string, ScopeIndex>) {
    forall scope :: scope in byScope ==> Sound(byScope[scope])
  }

  function IndexIn(byScope: map<string, ScopeIndex>, scope: string): ScopeIndex {
    if scope in byScope then byScope[scope] else EMPTY_INDEX
  }

  /** Every index is the one its log rebuilds. */
  ghost predicate Rebuilt(byScope: map<string, ScopeIndex>, disk: Logs) {
    forall scope :: IndexIn(byScope, scope) == Replay(scope, LogOf(disk, scope))
  }

  lemma RebuiltStep(byScope: map<string, ScopeIndex>, disk: Logs, scope: string, line: Line, idx: ScopeIndex)
    requires Rebuilt(byScope, disk) && Sound(IndexIn(byScope, scope)) && idx == Apply(scope, IndexIn(byScope, scope), line)
    ensures Rebuilt(byScope[scope := idx], disk[scope := LogOf(disk, scope) + [line]])
  {
    ReplayStep(scope, LogOf(disk, scope), line);
    hide Replay, Apply;
    var byScope', disk' := byScope[scope := idx], disk[scope := LogOf(disk, scope) + [line]];
    forall s ensures IndexIn(byScope', s) == Replay(s, LogOf(disk', s)) {
      assert IndexIn(byScope, s) == Replay(s, LogOf(disk, s));
    }
  }

  lemma RebuiltSame(byScope: map<string, ScopeIndex>, disk: Logs, scope: string)
    requires Rebuilt(byScope, disk)
    ensures Rebuilt(byScope[scope := IndexIn(byScope, scope)], disk)
  {
    hide Replay;
    var byScope' := byScope[scope := IndexIn(byScope, scope)];
    forall s ensures IndexIn(byScope', s) == Replay(s, LogOf(disk, s)) {
      assert IndexIn(byScope, s) == Replay(s, LogOf(disk, s));
    }
  }

  /** loadScope */
  method LoadScope(scope: string, lines: seq<Line>) returns (idx: ScopeIndex)
    ensures idx == Replay(scope, lines)
  {
    idx := EMPTY_INDEX;
    for k := 0 to |lines|
      invariant idx == Replay(scope, lines[..k])
    {
      assert lines[..k + 1][..k] == lines[..k];
      match lines[k] {
        case Blank =>
        case Corrupt =>
        case Tombstone(id) =>
          if id != "" {
            idx := idx.(byID := idx.byID - {id});
          }
        case EntryLine(line) =>
          if line.id != "" {
            var e := line.(scope := scope);
            if e.id in idx.byID {
              idx := idx.(entries := idx.entries[idx.byID[e.id] := e]);
            } else {
              idx := ScopeIndex(idx.entries + [e], idx.byID[e.id := |idx.entries|]);
            }
          }
      }
    }
    assert lines[..|lines|] == lines;
  }

  lemma UpsertIs(idx: ScopeIndex, e: MemoryEntry)
    requires Sound(idx)
    ensures e.id in idx.byID ==> idx.byID[e.id] < |idx.entries| && Upsert(idx, e) == idx.(entries := idx.entries[idx.byID[e.id] := e])
    ensures e.id !in idx.byID ==> Upsert(idx, e) == ScopeIndex(idx.entries + [e], idx.byID[e.id := |idx.entries|])
  {
  }

  lemma FailedPutIs(up: ScopeIndex, idx: ScopeIndex, e: MemoryEntry)
    requires Sound(idx) && up == Upsert(idx, e)
    ensures e.id in up.byID && up.entries != []
    ensures FailedPut(idx, e) ==
            if up.byID[e.id] == |up.entries| - 1 then ScopeIndex(up.entries[..|up.entries| - 1], up.byID - {e.id}) else up
  {
  }

  lemma DropSound(idx: ScopeIndex, id: string)
    requires Sound(idx)
    ensures Drop(idx, id) == idx.(byID := idx.byID - {id}) && Sound(Drop(idx, id))
  {
  }

  class FileStore {
    const lib: Library
    var closed: bool
    var byScope: map<string, ScopeIndex>
    var disk: Logs

    ghost predicate Valid()
      reads this
    {
      AllSound(byScope)
    }

    function Index(scope: string): (idx: ScopeIndex)
      reads this
      requires Valid()
      ensures Sound(idx)
    {
      IndexIn(byScope, scope)
    }

    /** Opening the store again would rebuild the same indexes. */
    ghost predicate Honest()
      reads this
    {
      Valid() && Rebuilt(byScope, disk)
    }

    /** OpenFileStore: every scope's index is rebuilt from its log. */
    constructor Open(lib: Library, disk: Logs)
      ensures Honest() && !closed && this.lib == lib && this.disk == disk
    {
      this.lib, closed, this.disk := lib, false, disk;
      byScope := map[];
      new;
      var left := disk.Keys;
      while left != {}
        invariant left <= disk.Keys && this.disk == disk && !closed && this.lib == lib
        invariant byScope.Keys == disk.Keys - left
        invariant forall scope :: scope in byScope ==> byScope[scope] == Replay(scope, disk[scope])
        decreases |left|
      {
        var scope :| scope in left;
        var idx := LoadScope(scope, disk[scope]);
        byScope := byScope[scope := idx];
        left := left - {scope};
      }
    }

    /** The entry as stored: an id and a time are assigned if missing. */
    static function Assigned(e: MemoryEntry, freshId: string, now: int): MemoryEntry {
      e.(id := if e.id == "" then freshId else e.id, createdAt := if e.createdAt == 0 then now else e.createdAt)
    }

    /** No scope has used the id. */
    ghost predicate Unused(id: string)
      reads this
    {
      id != "" && forall scope :: scope in byScope ==> id !in byScope[scope].byID
    }

    method Put(e: MemoryEntry, freshId: string, now: int, canceled: bool, disk': Disk)
      returns (stored: Option<MemoryEntry>, err: Option<StoreError>)
      requires Valid() && (e.id == "" ==> Unused(freshId))
      modifies this
      ensures Valid() && closed == old(closed)
      ensures err == if canceled then Some(Canceled)
                     else if |e.content| > MAX_ENTRY_BYTES then Some(TooLarge)
                     else if closed then Some(Closed)
                     else if disk' != Works then Some(DiskFailed) else None
      ensures stored == if err.None? then Some(Assigned(e, freshId, now)) else None
      ensures err.Some? && err != Some(DiskFailed) ==> byScope == old(byScope) && disk == old(disk)
      ensures err.None? || err == Some(DiskFailed) ==>
                var e' := Assigned(e, freshId, now);
                && Index(e.scope) == (if disk' == AppendFails then FailedPut(old(Index(e.scope)), e') else Upsert(old(Index(e.scope)), e'))
                && disk == (if disk' == AppendFails then old(disk) else old(disk)[e.scope := LogOf(old(disk), e.scope) + [EntryLine(e')]])
                && forall scope :: scope != e.scope ==> Index(scope) == old(Index(scope))
      ensures old(Honest()) && (disk' == AppendFails ==> RollsBack(old(Index(e.scope)), Assigned(e, freshId, now))) ==> Honest()
    {
      if canceled {
        return None, Some(Canceled);
      }
      if |e.content| > MAX_ENTRY_BYTES {
        return None, Some(TooLarge);
      }
      if closed {
        return None, Some(Closed);
      }
      hide Honest, FailedPut, Upsert, RollsBack, Unused;
      var e' := e;
      if e'.id == "" {
        e' := e'.(id := freshId);
      }
      if e'.createdAt == 0 {
        e' := e'.(createdAt := now);
      }
      var failed := PutEntry(e', disk');
      if failed {
        return None, Some(DiskFailed);
      }
      return Some(e'), None;
    }

    /** The part of Put that writes: RAM first, then the log, then meta.json. */
    method PutEntry(e: MemoryEntry, disk': Disk) returns (failed: bool)
      requires Valid() && e.id != ""
      modifies this`byScope, this`disk
      ensures Valid() && failed == (disk' != Works)
      ensures Index(e.scope) == if disk' == AppendFails then FailedPut(old(Index(e.scope)), e) else Upsert(old(Index(e.scope)), e)
      ensures disk == if disk' == AppendFails then old(disk) else old(disk)[e.scope := LogOf(old(disk), e.scope) + [EntryLine(e)]]
      ensures forall scope :: scope != e.scope ==> Index(scope) == old(Index(scope))
      ensures old(Honest()) && (disk' == AppendFails ==> RollsBack(old(Index(e.scope)), e)) ==> Honest()
    {
      hide Rebuilt, Replay, Sound, Upsert, FailedPut, RollsBack;
      var idx := Index(e.scope);
      ghost var before := idx;
      UpsertIs(idx, e);
      if e.id in idx.byID {
        idx := idx.(entries := idx.entries[idx.byID[e.id] := e]);
      } else {
        idx := ScopeIndex(idx.entries + [e], idx.byID[e.id := |idx.entries|]);
      }
      if disk' == AppendFails {
        FailedPutIs(idx, before, e);
        if e.id in idx.byID && idx.byID[e.id] == |idx.entries| - 1 {
          idx := ScopeIndex(idx.entries[..|idx.entries| - 1], idx.byID - {e.id});
        }
        byScope := byScope[e.scope := idx];
        RollBackExact(before, e);
        if old(Honest()) {
          RebuiltSame(old(byScope), disk, e.scope);
        }
        return true;
      }
      byScope := byScope[e.scope := idx];
      if old(Honest()) {
        assert e.(scope := e.scope) == e;
        RebuiltStep(old(byScope), disk, e.scope, EntryLine(e), idx);
      }
      disk := disk[e.scope := LogOf(disk, e.scope) + [EntryLine(e)]];
      failed := disk' == MetaFails;
    }

    method Delete(scope: string, id: string, canceled: bool, disk': Disk) returns (err: Option<StoreError>)
      requires Valid()
      modifies this
      ensures Valid() && closed == old(closed)
      ensures var found := id in old(Index(scope)).byID;
              err == if canceled then Some(Canceled)
                     else if id == "" then None
                     else if closed then Some(Closed)
                     else if found && disk' != Works then Some(DiskFailed) else None
      ensures var gone := (err.None? || (err == Some(DiskFailed) && disk' == MetaFails)) && id != "" && id in old(Index(scope)).byID;
              && Index(scope) == (if gone then Drop(old(Index(scope)), id) else old(Index(scope)))
              && disk == (if gone then old(disk)[scope := LogOf(old(disk), scope) + [Tombstone(id)]] else old(disk))
              && forall other :: other != scope ==> Index(other) == old(Index(other))
      ensures old(Honest()) ==> Honest()
    {
      if canceled {
        return Some(Canceled);
      }
      if id == "" {
        return None;
      }
      if closed {
        return Some(Closed);
      }
      if scope !in byScope {
        return None;
      }
      var idx := byScope[scope];
      if id !in idx.byID {
        return None;
      }
      hide Rebuilt, Replay, Sound;
      DropSound(idx, id);
      var i := idx.byID[id];
      byScope := byScope[scope := idx.(byID := idx.byID - {id})];
      if disk' == AppendFails {
        byScope := byScope[scope := idx.(byID := (idx.byID - {id})[id := i])];
        assert (idx.byID - {id})[id := i] == idx.byID;
        return Some(DiskFailed);
      }
      if old(Honest()) {
        RebuiltStep(old(byScope), disk, scope, Tombstone(id), Drop(idx, id));
      }
      disk := disk[scope := LogOf(disk, scope) + [Tombstone(id)]];
      if disk' == MetaFails {
        return Some(DiskFailed);
      }
      return None;
    }

    method Query(q: MemoryQuery, canceled: bool) returns (out: seq<MemoryEntry>, err: Option<StoreError>)
      requires Valid()
      ensures err == if canceled then Some(Canceled) else if closed then Some(Closed) else None
      ensures err.Some? ==> out == []
      ensures err.None? ==> Answers(lib.similarity, q, Candidates(lib, q, Live(Index(q.scope))), out)
      ensures err.None? ==> Recalls(lib, q, Live(Index(q.scope)), out)
    {
      hide Recalls;
      if canceled {
        return [], Some(Canceled);
      }
      if closed {
        return [], Some(Closed);
      }
      var limit, maxChars := ClampLimit(q.limit), ClampChars(q.maxChars);
      var candidates := [];
      if q.scope in byScope {
        var idx := byScope[q.scope];
        for i := 0 to |idx.entries|
          invariant candidates == Candidates(lib, q, LiveFirst(idx, i))
        {
          var e := idx.entries[i];
          if e.id !in idx.byID || idx.byID[e.id] != i {
            continue;
          }
          if Matches(lib, q, e) {
            candidates := candidates + [e];
          }
        }
      }
      if |q.embedding| > 0 {
        out := RankByEmbedding(lib.similarity, q.embedding, candidates, limit, maxChars);
      } else {
        out := TakeLatestN(candidates, limit, maxChars);
      }
      AnswersRecall(lib, q, Live(Index(q.scope)), out);
      err := None;
    }

    method Close()
      modifies this`closed
      ensures closed
    {
      closed := true;
    }
  }

  /** Closing an honest store and opening its directory again leaves every index, and so every answer, the same. */
  method Reopen(fs: FileStore) returns (again: FileStore)
    requires fs.Honest()
    modifies fs`closed
    ensures fs.closed && fresh(again) && again.Honest() && !again.closed && again.lib == fs.lib
    ensures forall scope :: again.Index(scope) == old(fs.Index(scope))
  {
    fs.Close();
    again := new FileStore.Open(fs.lib, fs.disk);
  }
}
