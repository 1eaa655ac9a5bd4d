/** Facts and their deduplication (fact.go). */
module Facts {

  /** A fact; `body` stands for claim, source and time, which deduplication ignores. */
  datatype Fact = Fact(body: string, payloadHash: string)

  function Hashes(facts: seq<Fact>): set<string> {
    set f | f in facts :: f.payloadHash
  }

  lemma HashesAppend(facts: seq<Fact>, f: Fact)
    ensures Hashes(facts + [f]) == Hashes(facts) + {f.payloadHash}
  {
    assert forall x :: x in facts + [f] <==> x in facts || x == f;
  }

  /** The reference: append the first fact of each nonempty hash not seen before. */
  function Dedup(existing: seq<Fact>, added: seq<Fact>): (r: seq<Fact>)
    ensures existing <= r
    ensures Hashes(r) == Hashes(existing) + (Hashes(added) - {""})
  {
    if added == [] then existing
    else
      var rest := Dedup(existing, added[..|added| - 1]);
      var f := added[|added| - 1];
      assert added == added[..|added| - 1] + [f];
      HashesAppend(added[..|added| - 1], f);
      HashesAppend(rest, f);
      if f.payloadHash == "" || f.payloadHash in Hashes(rest) then rest else rest + [f]
  }

  method DedupFacts(existing: seq<Fact>, added: seq<Fact>) returns (r: seq<Fact>)
    ensures r == Dedup(existing, added)
  {
    var seen: set<string> := {};
    for i := 0 to |existing|
      invariant seen == Hashes(existing[..i])
    {
      HashesAppend(existing[..i], existing[i]);
      assert existing[..i + 1] == existing[..i] + [existing[i]];
      seen := seen + {existing[i].payloadHash};
    }
    assert existing[..|existing|] == existing;
    r := existing;
    for i := 0 to |added|
      invariant r == Dedup(existing, added[..i])
      invariant seen == Hashes(r)
    {
      var f := added[i];
      assert added[..i + 1][..i] == added[..i];
      if f.payloadHash == "" || f.payloadHash in seen {
        continue;
      }
      HashesAppend(r, f);
      seen := seen + {f.payloadHash};
      r := r + [f];
    }
    assert added[..|added|] == added;
  }

  /** Deduplicating task by task is deduplicating everything at once. */
  lemma {:induction false} DedupAppend(existing: seq<Fact>, a: seq<Fact>, b: seq<Fact>)
    ensures Dedup(Dedup(existing, a), b) == Dedup(existing, a + b)
  {
    if b == [] {
      assert a + b == a;
    } else {
      var front := b[..|b| - 1];
      assert (a + b)[..|a + b| - 1] == a + front;
      DedupAppend(existing, a, front);
    }
  }

  ghost predicate DistinctHashes(facts: seq<Fact>) {
    forall i, j :: 0 <= i < j < |facts| ==> facts[i].payloadHash != facts[j].payloadHash
  }

  /** No hash is ever repeated, and an added fact is always the first of its hash. */
  lemma {:induction false} DedupDistinct(existing: seq<Fact>, added: seq<Fact>)
    requires DistinctHashes(existing)
    ensures DistinctHashes(Dedup(existing, added))
  {
    if added != [] {
      DedupDistinct(existing, added[..|added| - 1]);
      var rest := Dedup(existing, added[..|added| - 1]);
      assert forall k :: 0 <= k < |rest| ==> rest[k] in rest;
    }
  }

  lemma {:induction false} DedupKeepsFirst(existing: seq<Fact>, added: seq<Fact>, i: nat)
    requires i < |added| && added[i].payloadHash != ""
    requires added[i].payloadHash !in Hashes(existing) && added[i].payloadHash !in Hashes(added[..i])
    ensures added[i] in Dedup(existing, added)
  {
    if i < |added| - 1 {
      var front := added[..|added| - 1];
      assert front[..i] == added[..i];
      DedupKeepsFirst(existing, front, i);
    }
  }
}
