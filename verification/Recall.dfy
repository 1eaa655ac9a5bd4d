/** Bounded, ranked recall (memory_embed.go), shared by both memory stores. */
module Recall {

  const MAX_QUERY_LIMIT: nat := 32
  const DEFAULT_QUERY_LIMIT: nat := 8
  const DEFAULT_MAX_CHARS: nat := 4000

  datatype MemoryEntry = MemoryEntry(
    id: string, scope: string, agent: string, task: string, content: string, createdAt: int,
    embedding: seq<real>, metadata: map<string, string>)

  datatype MemoryQuery = MemoryQuery(scope: string, text: string, embedding: seq<real>, limit: int, maxChars: int)

  // ----- the cut -----

  function Chars(es: seq<MemoryEntry>): nat {
    if es == [] then 0 else Chars(es[..|es| - 1]) + |es[|es| - 1].content|
  }

  /** Within the entry limit and, unless negative, the character limit. */
  predicate Fits(es: seq<MemoryEntry>, limit: nat, maxChars: int) {
    |es| <= limit && (maxChars >= 0 ==> Chars(es) <= maxChars)
  }

  /** r is the longest part of es, from its start, that fits. */
  ghost predicate IsCut(es: seq<MemoryEntry>, limit: nat, maxChars: int, r: seq<MemoryEntry>) {
    && |r| <= |es| && r == es[..|r|]
    && Fits(r, limit, maxChars)
    && forall n: nat :: |r| < n <= |es| ==> !Fits(es[..n], limit, maxChars)
  }

  lemma CharsStep(es: seq<MemoryEntry>, n: nat)
    requires n < |es|
    ensures Chars(es[..n + 1]) == Chars(es[..n]) + |es[n].content|
  {
    assert es[..n + 1][..n] == es[..n];
  }

  lemma {:induction false} CharsGrow(es: seq<MemoryEntry>, m: nat, n: nat)
    requires m <= n <= |es|
    ensures Chars(es[..m]) <= Chars(es[..n])
  {
    if m < n {
      CharsGrow(es, m, n - 1);
      CharsStep(es, n - 1);
    }
  }

  /** Stopping at the first entry that does not fit is taking as much as fits. */
  lemma FirstOverflow(es: seq<MemoryEntry>, limit: nat, maxChars: int, n: nat)
    requires n <= |es| && Fits(es[..n], limit, maxChars)
    requires n == |es| || !Fits(es[..n + 1], limit, maxChars)
    ensures IsCut(es, limit, maxChars, es[..n])
  {
    forall m: nat | n < m <= |es| ensures !Fits(es[..m], limit, maxChars) {
      CharsGrow(es, n + 1, m);
    }
  }

  lemma CutUnique(es: seq<MemoryEntry>, limit: nat, maxChars: int, r: seq<MemoryEntry>, r': seq<MemoryEntry>)
    requires IsCut(es, limit, maxChars, r) && IsCut(es, limit, maxChars, r')
    ensures r == r'
  {
    assert es[..|r'|] == r' && es[..|r|] == r;
  }

  // ----- newest first -----

  function Reversed(es: seq<MemoryEntry>): (r: seq<MemoryEntry>)
    ensures |r| == |es| && forall k :: 0 <= k < |es| ==> r[k] == es[|es| - 1 - k]
  {
    seq(|es|, k requires 0 <= k < |es| => es[|es| - 1 - k])
  }

  method TakeLatestN(candidates: seq<MemoryEntry>, limit: nat, maxChars: int) returns (out: seq<MemoryEntry>)
    ensures IsCut(Reversed(candidates), limit, maxChars, out)
  {
    ghost var order := Reversed(candidates);
    out := [];
    var total := 0;
    var n := |candidates| - 1;
    assert order[..0] == [];
    while n >= 0 && |out| < limit
      invariant -1 <= n < |candidates| && |out| == |candidates| - 1 - n
      invariant out == order[..|out|] && total == Chars(out)
      invariant Fits(out, limit, maxChars)
    {
      var e := candidates[n];
      CharsStep(order, |out|);
      assert order[..|out| + 1] == out + [e];
      if maxChars >= 0 && total + |e.content| > maxChars {
        break;
      }
      out, total, n := out + [e], total + |e.content|, n - 1;
    }
    FirstOverflow(order, limit, maxChars, |out|);
  }

  // ----- best first -----

  datatype Scored = Scored(e: MemoryEntry, score: real, idx: nat)

  /** Higher score first; among equals the newer. */
  predicate Before(a: Scored, b: Scored) {
    a.score > b.score || (a.score == b.score && a.idx > b.idx)
  }

  ghost predicate Ranked(items: seq<Scored>) {
    forall i, j :: 0 <= i < j < |items| ==> Before(items[i], items[j])
  }

  function Insert(x: Scored, items: seq<Scored>): seq<Scored> {
    if items == [] || Before(x, items[0]) then [x] + items else [items[0]] + Insert(x, items[1..])
  }

  /** The library sort; that it is the only ranking is RankUnique. */
  function Rank(items: seq<Scored>): seq<Scored> {
    if items == [] then [] else Insert(items[0], Rank(items[1..]))
  }

  function ScoreAll(similarity: (seq<real>, seq<real>) -> real, query: seq<real>,
                    es: seq<MemoryEntry>): (items: seq<Scored>)
    ensures |items| == |es| && forall i :: 0 <= i < |es| ==> items[i] == Scored(es[i], similarity(query, es[i].embedding), i)
  {
    seq(|es|, i requires 0 <= i < |es| => Scored(es[i], similarity(query, es[i].embedding), i))
  }

  ghost predicate DistinctIdx(items: seq<Scored>) {
    forall i, j :: 0 <= i < j < |items| ==> items[i].idx != items[j].idx
  }

  lemma {:induction false} InsertMembers(x: Scored, items: seq<Scored>)
    ensures multiset(Insert(x, items)) == multiset{x} + multiset(items)
  {
    if items != [] && !Before(x, items[0]) {
      InsertMembers(x, items[1..]);
      assert items == [items[0]] + items[1..];
    }
  }

  lemma {:induction false} InsertRanked(x: Scored, items: seq<Scored>)
    requires Ranked(items) && forall k :: 0 <= k < |items| ==> items[k].idx != x.idx
    ensures Ranked(Insert(x, items))
  {
    if items != [] && !Before(x, items[0]) {
      InsertRanked(x, items[1..]);
      InsertMembers(x, items[1..]);
      var rest := Insert(x, items[1..]);
      forall k | 0 <= k < |rest| ensures Before(items[0], rest[k]) {
        assert rest[k] in multiset(rest);
        if rest[k] != x {
          assert rest[k] in items[1..];
        }
      }
    }
  }

  lemma {:induction false} RankMembers(items: seq<Scored>)
    ensures multiset(Rank(items)) == multiset(items)
  {
    if items != [] {
      RankMembers(items[1..]);
      InsertMembers(items[0], Rank(items[1..]));
      assert items == [items[0]] + items[1..];
    }
  }

  lemma {:induction false} RankRanked(items: seq<Scored>)
    requires DistinctIdx(items)
    ensures Ranked(Rank(items))
  {
    if items != [] {
      var rest := Rank(items[1..]);
      RankRanked(items[1..]);
      RankMembers(items[1..]);
      forall k | 0 <= k < |rest| ensures rest[k].idx != items[0].idx {
        assert rest[k] in multiset(rest);
        assert rest[k] in items[1..];
      }
      InsertRanked(items[0], rest);
    }
  }

  /** The order is total, so a list has one ranking: any sort gives it. */
  lemma {:induction false} RankUnique(a: seq<Scored>, b: seq<Scored>)
    requires Ranked(a) && Ranked(b) && multiset(a) == multiset(b)
    ensures a == b
  {
    assert |a| == |multiset(a)| == |multiset(b)| == |b|;
    if a != [] {
      SameFirst(a, b);
      assert a == [a[0]] + a[1..] && b == [b[0]] + b[1..];
      assert multiset(a[1..]) == multiset(a) - multiset{a[0]};
      assert multiset(b[1..]) == multiset(b) - multiset{b[0]};
      RankUnique(a[1..], b[1..]);
    }
  }

  lemma FirstBest(items: seq<Scored>, x: Scored)
    requires Ranked(items) && x in items
    ensures x == items[0] || Before(items[0], x)
  {
  }

  lemma SameFirst(a: seq<Scored>, b: seq<Scored>)
    requires Ranked(a) && Ranked(b) && multiset(a) == multiset(b) && a != [] && b != []
    ensures a[0] == b[0]
  {
    assert a[0] in multiset(b) && b[0] in multiset(a);
    FirstBest(a, b[0]);
    FirstBest(b, a[0]);
  }

  function EntriesOf(items: seq<Scored>): (es: seq<MemoryEntry>)
    ensures |es| == |items| && forall i :: 0 <= i < |items| ==> es[i] == items[i].e
  {
    seq(|items|, i requires 0 <= i < |items| => items[i].e)
  }

  predicate Positive(it: Scored) {
    it.score > 0.0
  }

  function Positives(items: seq<Scored>): seq<Scored> {
    if items == [] then []
    else
      var before := Positives(items[..|items| - 1]);
      if Positive(items[|items| - 1]) then before + [items[|items| - 1]] else before
  }

  /** The positive scores are the start of a ranking. */
  lemma {:induction false} PositivesLead(items: seq<Scored>) returns (p: nat)
    requires Ranked(items)
    ensures p <= |items| && Positives(items) == items[..p]
    ensures forall k :: 0 <= k < |items| ==> (Positive(items[k]) <==> k < p)
  {
    if items == [] {
      p := 0;
    } else {
      var n := |items| - 1;
      var front := items[..n];
      var q := PositivesLead(front);
      forall k | 0 <= k < n ensures front[k] == items[k] && (Positive(items[n]) ==> Positive(items[k])) {
        assert Before(items[k], items[n]);
      }
      hide Positive, Before, Ranked;
      if Positive(items[n]) {
        assert forall k :: 0 <= k < n ==> Positive(front[k]);
        assert items == front + [items[n]];
        p := n + 1;
      } else {
        assert front[..q] == items[..q];
        p := q;
      }
    }
  }

  lemma CutOfPrefix(es: seq<MemoryEntry>, limit: nat, maxChars: int, all: seq<MemoryEntry>, p: nat)
    requires IsCut(es, limit, maxChars, all) && p <= |es|
    ensures IsCut(es[..p], limit, maxChars, es[..if |all| <= p then |all| else p])
  {
    var m := if |all| <= p then |all| else p;
    CharsGrow(es, m, |all|);
    assert es[..p][..m] == es[..m];
    forall n: nat | m < n <= p ensures !Fits(es[..p][..n], limit, maxChars) {
      assert es[..p][..n] == es[..n];
    }
  }

  lemma PositivesOfFront(items: seq<Scored>, n: nat, p: nat)
    requires Ranked(items) && n <= |items| && p <= |items|
    requires forall k :: 0 <= k < |items| ==> (Positive(items[k]) <==> k < p)
    ensures Positives(items[..n]) == items[..if n <= p then n else p]
  {
    var front := items[..n];
    forall k | 0 <= k < n ensures front[k] == items[k] {
    }
    var q := PositivesLead(front);
    hide Positive;
    var m := if n <= p then n else p;
    assert forall k :: 0 <= k < n ==> (Positive(front[k]) <==> k < m);
    assert (q < n ==> !Positive(front[q])) && (m < n ==> !Positive(front[m]));
    assert front[..m] == items[..m];
  }

  /** Cutting the positive ones is dropping the others from the cut of all. */
  lemma {:induction false} TrimIsFilter(items: seq<Scored>, limit: nat, maxChars: int, all: seq<MemoryEntry>,
                                        trimmed: seq<MemoryEntry>)
    requires Ranked(items)
    requires IsCut(EntriesOf(items), limit, maxChars, all)
    requires IsCut(EntriesOf(Positives(items)), limit, maxChars, trimmed)
    ensures trimmed == EntriesOf(Positives(items[..|all|]))
  {
    var es := EntriesOf(items);
    var p := PositivesLead(items);
    PositivesOfFront(items, |all|, p);
    CutOfPrefix(es, limit, maxChars, all, p);
    hide Ranked, IsCut, Positive;
    assert EntriesOf(items[..p]) == es[..p];
    CutUnique(es[..p], limit, maxChars, trimmed, es[..if |all| <= p then |all| else p]);
  }

  lemma {:induction false} ReversedMembers(items: seq<Scored>, back: seq<Scored>)
    requires |back| == |items| && forall k :: 0 <= k < |items| ==> back[k] == items[|items| - 1 - k]
    ensures multiset(back) == multiset(items)
  {
    if items != [] {
      ReversedMembers(items[1..], back[..|back| - 1]);
      assert items == [items[0]] + items[1..] && back == back[..|back| - 1] + [items[0]];
    }
  }

  /** With equal scores the ranking is newest first. */
  lemma EqualScoresReverse(items: seq<Scored>)
    requires forall i :: 0 <= i < |items| ==> items[i].score == 0.0 && items[i].idx == i
    ensures |Rank(items)| == |items| && forall k :: 0 <= k < |items| ==> Rank(items)[k] == items[|items| - 1 - k]
  {
    var back := seq(|items|, k requires 0 <= k < |items| => items[|items| - 1 - k]);
    ReversedMembers(items, back);
    RankMembers(items);
    RankRanked(items);
    hide Rank;
    RankUnique(Rank(items), back);
  }

  // ----- the two passes -----

  /** What rankByEmbedding returns: the cut of the ranking, or of its positive part if there is one. */
  ghost predicate BestOf(items: seq<Scored>, limit: nat, maxChars: int, out: seq<MemoryEntry>) {
    if Positives(items) != [] then IsCut(EntriesOf(Positives(items)), limit, maxChars, out)
    else IsCut(EntriesOf(items), limit, maxChars, out)
  }

  method RankByEmbedding(similarity: (seq<real>, seq<real>) -> real, query: seq<real>, candidates: seq<MemoryEntry>,
                         limit: nat, maxChars: int)
    returns (out: seq<MemoryEntry>)
    ensures candidates == [] || query == [] ==> out == []
    ensures candidates != [] && query != [] ==> BestOf(Rank(ScoreAll(similarity, query, candidates)), limit, maxChars, out)
  {
    if |candidates| == 0 || |query| == 0 {
      return [];
    }
    var items := Rank(ScoreAll(similarity, query, candidates));
    out := FirstPass(items, limit, maxChars);
    var hasPos := HasPositive(items);
    if hasPos {
      out := SecondPass(items, limit, maxChars);
    }
  }

  method FirstPass(items: seq<Scored>, limit: nat, maxChars: int) returns (out: seq<MemoryEntry>)
    ensures IsCut(EntriesOf(items), limit, maxChars, out)
  {
    ghost var es := EntriesOf(items);
    out := [];
    var total, k := 0, 0;
    assert es[..0] == [];
    while k < |items|
      invariant k <= |items| && out == es[..k] && total == Chars(out) && Fits(out, limit, maxChars)
    {
      if |out| >= limit {
        break;
      }
      CharsStep(es, k);
      assert es[..k + 1] == out + [items[k].e];
      if maxChars >= 0 && total + |items[k].e.content| > maxChars {
        break;
      }
      out, total, k := out + [items[k].e], total + |items[k].e.content|, k + 1;
    }
    FirstOverflow(es, limit, maxChars, k);
  }

  method HasPositive(items: seq<Scored>) returns (r: bool)
    ensures r <==> Positives(items) != []
  {
    for k := 0 to |items|
      invariant Positives(items[..k]) == []
    {
      assert items[..k + 1][..k] == items[..k];
      if Positive(items[k]) {
        PositivesGrow(items, k + 1);
        return true;
      }
    }
    assert items[..|items|] == items;
    r := false;
  }

  lemma {:induction false} PositivesGrow(items: seq<Scored>, k: nat)
    requires k <= |items|
    ensures |Positives(items[..k])| <= |Positives(items)| && Positives(items)[..|Positives(items[..k])|] == Positives(items[..k])
    decreases |items| - k
  {
    if k == |items| {
      assert items[..k] == items;
    } else {
      PositivesGrow(items, k + 1);
      assert items[..k + 1][..k] == items[..k];
      var a, b, c := Positives(items[..k]), Positives(items[..k + 1]), Positives(items);
      assert b[..|a|] == a;
      assert c[..|b|][..|a|] == c[..|a|];
    }
  }

  method SecondPass(items: seq<Scored>, limit: nat, maxChars: int) returns (trimmed: seq<MemoryEntry>)
    ensures IsCut(EntriesOf(Positives(items)), limit, maxChars, trimmed)
  {
    ghost var ps := Positives(items);
    ghost var es := EntriesOf(ps);
    trimmed := [];
    var total, k := 0, 0;
    assert es[..0] == [];
    while k < |items|
      invariant k <= |items| && |Positives(items[..k])| == |trimmed| <= |es| && trimmed == es[..|trimmed|]
      invariant total == Chars(trimmed) && Fits(trimmed, limit, maxChars)
    {
      assert items[..k + 1][..k] == items[..k];
      if !Positive(items[k]) {
        k := k + 1;
        continue;
      }
      PositivesGrow(items, k + 1);
      ghost var n := |trimmed|;
      assert ps[n] == Positives(items[..k + 1])[n] == items[k];
      CharsStep(es, n);
      assert es[..n + 1] == trimmed + [items[k].e];
      if |trimmed| >= limit {
        break;
      }
      if maxChars >= 0 && total + |items[k].e.content| > maxChars {
        break;
      }
      trimmed, total, k := trimmed + [items[k].e], total + |items[k].e.content|, k + 1;
    }
    assert k == |items| ==> items[..k] == items;
    FirstOverflow(es, limit, maxChars, |trimmed|);
  }

  // ----- the bounds -----

  function ClampLimit(limit: int): (r: nat)
    ensures 1 <= r <= MAX_QUERY_LIMIT
  {
    if limit <= 0 || limit > MAX_QUERY_LIMIT then DEFAULT_QUERY_LIMIT else limit
  }

  function ClampChars(maxChars: int): int {
    if maxChars == 0 then DEFAULT_MAX_CHARS else maxChars
  }

  /** What a query answers, over the candidates in insertion order. */
  ghost predicate Answers(similarity: (seq<real>, seq<real>) -> real, q: MemoryQuery, candidates: seq<MemoryEntry>,
                          out: seq<MemoryEntry>) {
    var limit, maxChars := ClampLimit(q.limit), ClampChars(q.maxChars);
    if q.embedding == [] || candidates == [] then IsCut(Reversed(candidates), limit, maxChars, out)
    else BestOf(Rank(ScoreAll(similarity, q.embedding, candidates)), limit, maxChars, out)
  }

  lemma AnswersUnique(similarity: (seq<real>, seq<real>) -> real, q: MemoryQuery, candidates: seq<MemoryEntry>,
                      a: seq<MemoryEntry>, b: seq<MemoryEntry>)
    requires Answers(similarity, q, candidates, a) && Answers(similarity, q, candidates, b)
    ensures a == b
  {
    var limit, maxChars := ClampLimit(q.limit), ClampChars(q.maxChars);
    var items := Rank(ScoreAll(similarity, q.embedding, candidates));
    var es := if q.embedding == [] || candidates == [] then Reversed(candidates)
              else if Positives(items) != [] then EntriesOf(Positives(items)) else EntriesOf(items);
    CutUnique(es, limit, maxChars, a, b);
  }

  /** No answer is longer than 32 entries, or than a caller's nonnegative character limit. */
  lemma AnswersBounded(similarity: (seq<real>, seq<real>) -> real, q: MemoryQuery, candidates: seq<MemoryEntry>,
                       out: seq<MemoryEntry>)
    requires Answers(similarity, q, candidates, out)
    ensures |out| <= MAX_QUERY_LIMIT && (0 < q.limit <= MAX_QUERY_LIMIT ==> |out| <= q.limit)
    ensures q.maxChars > 0 ==> Chars(out) <= q.maxChars
    ensures q.maxChars == 0 ==> Chars(out) <= DEFAULT_MAX_CHARS
  {
  }

  /** When nothing is embedded the ranked answer is the latest-N answer. */
  lemma ZeroScoresLatest(similarity: (seq<real>, seq<real>) -> real, q: MemoryQuery, candidates: seq<MemoryEntry>,
                         out: seq<MemoryEntry>)
    requires forall i :: 0 <= i < |candidates| ==> similarity(q.embedding, candidates[i].embedding) == 0.0
    requires Answers(similarity, q, candidates, out)
    ensures IsCut(Reversed(candidates), ClampLimit(q.limit), ClampChars(q.maxChars), out)
  {
    if q.embedding != [] && candidates != [] {
      var items := ScoreAll(similarity, q.embedding, candidates);
      EqualScoresReverse(items);
      var ranked := Rank(items);
      hide Rank;
      assert |ranked| == |candidates|;
      forall k | 0 <= k < |ranked| ensures !Positive(ranked[k]) && ranked[k].e == Reversed(candidates)[k] {
        assert ranked[k] == items[|items| - 1 - k];
      }
      NonePositive(ranked);
      assert EntriesOf(ranked) == Reversed(candidates);
    }
  }

  lemma {:induction false} NonePositive(items: seq<Scored>)
    requires forall i :: 0 <= i < |items| ==> !Positive(items[i])
    ensures Positives(items) == []
  {
    if items != [] {
      NonePositive(items[..|items| - 1]);
    }
  }
}
