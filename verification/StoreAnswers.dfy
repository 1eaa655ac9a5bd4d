/** What a query answers, said of the list it is asked of (memory_embed.go, filestore.go, memory.go): which entries
  * are chosen, in which order, and how many of them fit. */
module StoreAnswers {
  import opened Strings
  import opened Recall
  import opened StoreLog

  // ----- the answer in terms of the list -----

  /** The query's text, trimmed and lowered, occurs in the content or the task of e. */
  predicate Mentions(lib: Library, q: MemoryQuery, e: MemoryEntry) {
    Contains(lib.lower(e.content), lib.lower(lib.trim(q.text))) || Contains(lib.lower(e.task), lib.lower(lib.trim(q.text)))
  }

  function Score(lib: Library, q: MemoryQuery, e: MemoryEntry): real {
    lib.similarity(q.embedding, e.embedding)
  }

  ghost predicate SomePositive(lib: Library, q: MemoryQuery, list: seq<MemoryEntry>) {
    exists j :: 0 <= j < |list| && Score(lib, q, list[j]) > 0.0
  }

  /** Without an embedding: a blank text, or an entry that mentions it. With one: a positive score, if any entry
      has one. */
  ghost predicate Chosen(lib: Library, q: MemoryQuery, list: seq<MemoryEntry>, i: nat)
    requires i < |list|
  {
    if q.embedding == [] then lib.lower(lib.trim(q.text)) == "" || Mentions(lib, q, list[i])
    else SomePositive(lib, q, list) ==> Score(lib, q, list[i]) > 0.0
  }

  /** Newest first; with an embedding, best first and newest first among equals. */
  ghost predicate Sooner(lib: Library, q: MemoryQuery, list: seq<MemoryEntry>, i: nat, j: nat)
    requires i < |list| && j < |list|
  {
    if q.embedding == [] then i > j
    else
      || Score(lib, q, list[i]) > Score(lib, q, list[j])
      || (Score(lib, q, list[i]) == Score(lib, q, list[j]) && i > j)
  }

  function Length(es: seq<MemoryEntry>): nat {
    if es == [] then 0 else |es[0].content| + Length(es[1..])
  }

  function PickAt(list: seq<MemoryEntry>, ps: seq<nat>): (es: seq<MemoryEntry>)
    requires forall k :: 0 <= k < |ps| ==> ps[k] < |list|
    ensures |es| == |ps| && forall k :: 0 <= k < |ps| ==> es[k] == list[ps[k]]
  {
    seq(|ps|, k requires 0 <= k < |ps| => list[ps[k]])
  }

  /** As much of es, from its start, as the query's limits allow: 8 entries unless it asks for 1 to 32, 4000
      characters unless it says otherwise, any number if that is negative. */
  predicate AsMuchAsFits(q: MemoryQuery, es: seq<MemoryEntry>, out: seq<MemoryEntry>) {
    var limit := if 1 <= q.limit <= 32 then q.limit else 8;
    var chars := if q.maxChars == 0 then 4000 else q.maxChars;
    && |out| <= |es| && out == es[..|out|] && |out| <= limit
    && (chars >= 0 ==> Length(out) <= chars)
    && (|out| < |es| && |out| < limit ==> chars >= 0 && Length(out) + |es[|out|].content| > chars)
  }

  /** The answer is what fits of the chosen entries in their order. */
  ghost predicate Recalls(lib: Library, q: MemoryQuery, list: seq<MemoryEntry>, out: seq<MemoryEntry>) {
    exists ps: seq<nat> :: Selects(lib, q, list, ps) && AsMuchAsFits(q, PickAt(list, ps), out)
  }

  /** ps are the positions of the chosen entries, in their order. */
  ghost predicate Selects(lib: Library, q: MemoryQuery, list: seq<MemoryEntry>, ps: seq<nat>) {
    && (forall k :: 0 <= k < |ps| ==> ps[k] < |list|)
    && (forall i: nat {:trigger i in ps} :: i in ps <==> i < |list| && Chosen(lib, q, list, i))
    && forall a, b :: 0 <= a < b < |ps| ==> Sooner(lib, q, list, ps[a], ps[b])
  }

  // ----- the limits -----

  lemma {:induction false} LengthAppend(es: seq<MemoryEntry>, e: MemoryEntry)
    ensures Length(es + [e]) == Length(es) + |e.content|
  {
    if es == [] {
      assert [] + [e] == [e] && [e][1..] == [];
    } else {
      LengthAppend(es[1..], e);
      assert (es + [e])[1..] == es[1..] + [e];
    }
  }

  lemma {:induction false} LengthIsChars(es: seq<MemoryEntry>)
    ensures Length(es) == Chars(es)
  {
    if es != [] {
      LengthIsChars(es[..|es| - 1]);
      LengthAppend(es[..|es| - 1], es[|es| - 1]);
      assert es == es[..|es| - 1] + [es[|es| - 1]];
    }
  }

  lemma CutFits(q: MemoryQuery, es: seq<MemoryEntry>, out: seq<MemoryEntry>)
    requires IsCut(es, ClampLimit(q.limit), ClampChars(q.maxChars), out)
    ensures AsMuchAsFits(q, es, out)
  {
    LengthIsChars(out);
    if |out| < |es| {
      CharsStep(es, |out|);
      assert !Fits(es[..|out| + 1], ClampLimit(q.limit), ClampChars(q.maxChars));
    }
    hide Length, Chars;
  }

  // ----- the text -----

  function Positions(lib: Library, q: MemoryQuery, list: seq<MemoryEntry>): seq<nat> {
    if list == [] then []
    else
      var before := Positions(lib, q, list[..|list| - 1]);
      if Matches(lib, q, list[|list| - 1]) then before + [|list| - 1] else before
  }

  lemma {:induction false} PositionsAre(lib: Library, q: MemoryQuery, list: seq<MemoryEntry>)
    ensures var ps := Positions(lib, q, list);
            && (forall k :: 0 <= k < |ps| ==> ps[k] < |list|)
            && Candidates(lib, q, list) == PickAt(list, ps)
            && (forall a, b :: 0 <= a < b < |ps| ==> ps[a] < ps[b])
            && forall i: nat {:trigger i in ps} :: i in ps <==> i < |list| && Matches(lib, q, list[i])
  {
    hide Matches;
    if list != [] {
      var front := list[..|list| - 1];
      PositionsAre(lib, q, front);
      var before := Positions(lib, q, front);
      assert PickAt(front, before) == PickAt(list, before);
      assert forall i: nat :: i < |front| ==> front[i] == list[i];
    }
  }

  function Backwards(ps: seq<nat>): (r: seq<nat>)
    ensures |r| == |ps| && forall k :: 0 <= k < |ps| ==> r[k] == ps[|ps| - 1 - k]
  {
    seq(|ps|, k requires 0 <= k < |ps| => ps[|ps| - 1 - k])
  }

  lemma BackwardsMembers(ps: seq<nat>, i: nat)
    ensures i in Backwards(ps) <==> i in ps
  {
    if i in ps {
      var k :| 0 <= k < |ps| && ps[k] == i;
      assert Backwards(ps)[|ps| - 1 - k] == i;
    }
  }

  lemma TextSelects(lib: Library, q: MemoryQuery, list: seq<MemoryEntry>)
    requires q.embedding == []
    ensures var back := Backwards(Positions(lib, q, list));
            Selects(lib, q, list, back) && PickAt(list, back) == Reversed(Candidates(lib, q, list))
  {
    hide Positions, Candidates, Contains;
    PositionsAre(lib, q, list);
    var ps := Positions(lib, q, list);
    var back := Backwards(ps);
    forall i: nat ensures i in back <==> i < |list| && Chosen(lib, q, list, i) {
      BackwardsMembers(ps, i);
    }
  }

  lemma TextRecalls(lib: Library, q: MemoryQuery, list: seq<MemoryEntry>, out: seq<MemoryEntry>)
    requires q.embedding == []
    requires IsCut(Reversed(Candidates(lib, q, list)), ClampLimit(q.limit), ClampChars(q.maxChars), out)
    ensures Recalls(lib, q, list, out)
  {
    TextSelects(lib, q, list);
    hide Selects, Positions, Candidates, IsCut, AsMuchAsFits;
    CutFits(q, Reversed(Candidates(lib, q, list)), out);
  }

  // ----- the embedding -----

  lemma {:induction false} AllCandidates(lib: Library, q: MemoryQuery, list: seq<MemoryEntry>)
    requires q.embedding != []
    ensures Candidates(lib, q, list) == list
  {
    if list != [] {
      AllCandidates(lib, q, list[..|list| - 1]);
    }
  }

  function Indexes(items: seq<Scored>): (ps: seq<nat>)
    ensures |ps| == |items| && forall k :: 0 <= k < |items| ==> ps[k] == items[k].idx
  {
    seq(|items|, k requires 0 <= k < |items| => items[k].idx)
  }

  /** items are the list's entries, scored. */
  ghost predicate ScoredFrom(lib: Library, q: MemoryQuery, list: seq<MemoryEntry>, items: seq<Scored>) {
    forall k :: 0 <= k < |items| ==> items[k].idx < |list| && items[k] == Scored(list[items[k].idx], Score(lib, q, list[items[k].idx]), items[k].idx)
  }

  lemma RankScored(lib: Library, q: MemoryQuery, list: seq<MemoryEntry>)
    ensures var items := Rank(ScoreAll(lib.similarity, q.embedding, list));
            && Ranked(items) && ScoredFrom(lib, q, list, items)
            && forall i: nat {:trigger i in Indexes(items)} :: i in Indexes(items) <==> i < |list|
  {
    var scored := ScoreAll(lib.similarity, q.embedding, list);
    RankMembers(scored);
    RankRanked(scored);
    hide Rank;
    var items := Rank(scored);
    forall k | 0 <= k < |items|
      ensures items[k].idx < |list| && items[k] == Scored(list[items[k].idx], Score(lib, q, list[items[k].idx]), items[k].idx) {
      assert items[k] in multiset(items);
      assert items[k] in scored;
    }
    forall i: nat ensures i in Indexes(items) <==> i < |list| {
      if i < |list| {
        assert scored[i] in multiset(items);
        var k :| 0 <= k < |items| && items[k] == scored[i];
        assert Indexes(items)[k] == i;
      }
    }
  }

  lemma PositivePart(items: seq<Scored>) returns (p: nat)
    requires Ranked(items)
    ensures p <= |items| && Positives(items) == items[..p]
    ensures forall k :: 0 <= k < |items| ==> (items[k].score > 0.0 <==> k < p)
  {
    p := PositivesLead(items);
  }

  lemma RankingRecalls(lib: Library, q: MemoryQuery, list: seq<MemoryEntry>, out: seq<MemoryEntry>)
    requires q.embedding != [] && BestOf(Rank(ScoreAll(lib.similarity, q.embedding, list)), ClampLimit(q.limit), ClampChars(q.maxChars), out)
    ensures Recalls(lib, q, list, out)
  {
    RankScored(lib, q, list);
    var items := Rank(ScoreAll(lib.similarity, q.embedding, list));
    var p := PositivePart(items);
    hide Rank, Positives, IsCut;
    var best := if p > 0 then items[..p] else items;
    assert Positives(items) != [] <==> p > 0;
    var ps := Indexes(best);
    BestSelected(lib, q, list, items, p);
    assert PickAt(list, ps) == EntriesOf(best);
    CutFits(q, EntriesOf(best), out);
  }

  lemma BestSelected(lib: Library, q: MemoryQuery, list: seq<MemoryEntry>, items: seq<Scored>, p: nat)
    requires q.embedding != [] && Ranked(items) && ScoredFrom(lib, q, list, items) && p <= |items|
    requires forall i: nat {:trigger i in Indexes(items)} :: i in Indexes(items) <==> i < |list|
    requires forall k :: 0 <= k < |items| ==> (items[k].score > 0.0 <==> k < p)
    ensures Selects(lib, q, list, Indexes(if p > 0 then items[..p] else items))
  {
    var best := if p > 0 then items[..p] else items;
    var ps := Indexes(best);
    assert SomePositive(lib, q, list) <==> p > 0 by {
      if j: nat :| j < |list| && Score(lib, q, list[j]) > 0.0 {
        assert j in Indexes(items);
        var k :| 0 <= k < |items| && Indexes(items)[k] == j;
        assert items[k].score > 0.0;
      }
      if p > 0 {
        assert items[0].score > 0.0;
      }
    }
    forall i: nat ensures i in ps <==> i < |list| && Chosen(lib, q, list, i) {
      if i < |list| {
        assert i in Indexes(items);
        var k :| 0 <= k < |items| && Indexes(items)[k] == i;
        assert items[k] == Scored(list[i], Score(lib, q, list[i]), i);
        if k < |best| {
          assert ps[k] == i;
        }
      }
      if i in ps {
        var k :| 0 <= k < |ps| && ps[k] == i;
        assert best[k] == items[k];
      }
    }
  }

  /** Every answer of a query recalls from its list. */
  lemma AnswersRecall(lib: Library, q: MemoryQuery, list: seq<MemoryEntry>, out: seq<MemoryEntry>)
    requires Answers(lib.similarity, q, Candidates(lib, q, list), out)
    ensures Recalls(lib, q, list, out)
  {
    hide Recalls, Rank, Candidates, IsCut;
    if q.embedding == [] {
      TextRecalls(lib, q, list, out);
    } else {
      AllCandidates(lib, q, list);
      if list == [] {
        NothingRecalled(lib, q, out);
      } else {
        RankingRecalls(lib, q, list, out);
      }
    }
  }

  lemma NothingRecalled(lib: Library, q: MemoryQuery, out: seq<MemoryEntry>)
    requires IsCut(Reversed([]), ClampLimit(q.limit), ClampChars(q.maxChars), out)
    ensures Recalls(lib, q, [], out)
  {
    assert Selects(lib, q, [], []) && PickAt([], []) == [] == Reversed([]);
    CutFits(q, [], out);
  }

  // ----- what follows for the reader of an answer -----

  /** A query with a text and no embedding returns only entries that mention the text, all from the list. */
  lemma TextMentioned(lib: Library, q: MemoryQuery, list: seq<MemoryEntry>, out: seq<MemoryEntry>, e: MemoryEntry)
    requires Recalls(lib, q, list, out) && q.embedding == [] && lib.lower(lib.trim(q.text)) != "" && e in out
    ensures e in list && Mentions(lib, q, e)
  {
    var ps: seq<nat> :| Selects(lib, q, list, ps) && AsMuchAsFits(q, PickAt(list, ps), out);
    var k :| 0 <= k < |out| && out[k] == e;
    assert PickAt(list, ps)[k] == list[ps[k]] && ps[k] in ps;
  }

  /** One whose limits do not bind returns every one of them. */
  lemma AllMentioned(lib: Library, q: MemoryQuery, list: seq<MemoryEntry>, out: seq<MemoryEntry>, i: nat)
    requires Recalls(lib, q, list, out) && q.embedding == [] && i < |list|
    requires lib.lower(lib.trim(q.text)) == "" || Mentions(lib, q, list[i])
    requires |out| < (if 1 <= q.limit <= 32 then q.limit else 8) && q.maxChars < 0
    ensures list[i] in out
  {
    var ps: seq<nat> :| Selects(lib, q, list, ps) && AsMuchAsFits(q, PickAt(list, ps), out);
    assert i in ps;
    var k :| 0 <= k < |ps| && ps[k] == i;
    assert PickAt(list, ps)[k] == list[i];
  }

  /** An embedding returns no entry that scores zero or less when some entry scores more. */
  lemma PositiveOnly(lib: Library, q: MemoryQuery, list: seq<MemoryEntry>, out: seq<MemoryEntry>, k: nat)
    requires Recalls(lib, q, list, out) && q.embedding != [] && SomePositive(lib, q, list) && k < |out|
    ensures Score(lib, q, out[k]) > 0.0
    ensures k > 0 ==> Score(lib, q, out[k - 1]) >= Score(lib, q, out[k])
  {
    var ps: seq<nat> :| Selects(lib, q, list, ps) && AsMuchAsFits(q, PickAt(list, ps), out);
    assert PickAt(list, ps)[k] == list[ps[k]] && ps[k] in ps;
    if k > 0 {
      assert PickAt(list, ps)[k - 1] == list[ps[k - 1]];
      assert Sooner(lib, q, list, ps[k - 1], ps[k]);
    }
  }
}
