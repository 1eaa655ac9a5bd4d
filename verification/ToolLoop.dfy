/** The native tool-calling loop (toolcall.go: executeTaskWithTools). The model and the tools are oracles of the
  * iteration; every message list sent is recorded. */
module ToolLoop {
  import opened Common
  import opened Facts
  import JsonDepth

  const DEFAULT_MAX_ITERATIONS: nat := 15
  const MAX_OUTPUT_BYTES: nat := 1048576

  datatype ToolCall = ToolCall(id: string, name: string, args: string)

  datatype Role = System | User | Assistant | Tool

  datatype Message = Message(role: Role, content: string, toolCalls: seq<ToolCall>, toolName: string, toolCallID: string)

  datatype Trace = Trace(tool: string, args: string, output: string, failed: bool)

  datatype Reply = CallFailed(err: string) | Reply(content: string, toolCalls: seq<ToolCall>)

  datatype ToolEnd = ToolErr(err: string) | ToolOk(result: string, facts: seq<Fact>)

  /** The oracles: the model on the i-th message list, the registered tools and a call of one (the j-th of
      iteration i), whether the caller has cancelled, and the texts. */
  datatype Setup = Setup(
    canceled: nat -> bool,
    model: (nat, seq<Message>) -> Reply,
    tools: seq<string>,
    call: (nat, nat, ToolCall) -> ToolEnd,
    maxIterations: int,
    trim: string -> string,
    badArgs: string -> string,
    unknownTool: string -> string,
    toolError: (string, string) -> string)

  datatype LoopError = Canceled | ModelError(err: string) | MaxIterations

  function Budget(s: Setup): nat {
    if s.maxIterations <= 0 then DEFAULT_MAX_ITERATIONS else s.maxIterations
  }

  function Truncate(out: string): string {
    if |out| <= MAX_OUTPUT_BYTES then out else out[..MAX_OUTPUT_BYTES] + "\n... [output truncated, exceeded 1 MiB]"
  }

  // ----- well-formed conversations -----

  /** m answers the call c. */
  predicate AnswersCall(m: Message, c: ToolCall) {
    m.role == Tool && m.toolCallID == c.id && m.toolName == c.name && m.toolCalls == []
  }

  /** An assistant message with k > 0 calls, then k tool messages answering them in order. */
  ghost predicate IsTurn(ms: seq<Message>) {
    && |ms| > 1 && ms[0].role == Assistant && |ms| == 1 + |ms[0].toolCalls|
    && forall j :: 0 <= j < |ms[0].toolCalls| ==> AnswersCall(ms[1 + j], ms[0].toolCalls[j])
  }

  ghost predicate AllTurns(turns: seq<seq<Message>>) {
    forall t :: 0 <= t < |turns| ==> IsTurn(turns[t])
  }

  function Flatten(turns: seq<seq<Message>>): seq<Message> {
    if turns == [] then [] else Flatten(turns[..|turns| - 1]) + turns[|turns| - 1]
  }

  /** The system and user prompts, then whole turns. */
  ghost predicate Conversation(prompts: seq<Message>, ms: seq<Message>) {
    exists turns :: AllTurns(turns) && ms == prompts + Flatten(turns)
  }

  // ----- what is called, and what the traces say -----

  /** The calls of the message list, in order. */
  function Calls(ms: seq<Message>): seq<ToolCall> {
    if ms == [] then [] else Calls(ms[..|ms| - 1]) + ms[|ms| - 1].toolCalls
  }

  /** The tool messages, in order. */
  function Results(ms: seq<Message>): seq<Message> {
    if ms == [] then []
    else if ms[|ms| - 1].role == Tool then Results(ms[..|ms| - 1]) + [ms[|ms| - 1]]
    else Results(ms[..|ms| - 1])
  }

  /** One trace per call and per tool message, all three in the same order. */
  ghost predicate Traced(ms: seq<Message>, traces: seq<Trace>) {
    && |traces| == |Calls(ms)| == |Results(ms)|
    && forall k :: 0 <= k < |traces| ==>
         && traces[k].tool == Calls(ms)[k].name && traces[k].args == Calls(ms)[k].args
         && AnswersCall(Results(ms)[k], Calls(ms)[k]) && Results(ms)[k].content == traces[k].output
  }

  /** The trace of one call: bad arguments, an unknown tool, a failing tool, or its output. */
  function TraceOf(s: Setup, i: nat, j: nat, c: ToolCall): Trace {
    if !JsonDepth.ArgsOk(c.args) then Trace(c.name, c.args, s.badArgs(c.args), true)
    else if c.name !in s.tools then Trace(c.name, c.args, s.unknownTool(c.name), true)
    else
      match s.call(i, j, c)
      case ToolErr(err) => Trace(c.name, c.args, s.toolError(c.name, err), true)
      case ToolOk(result, _) => Trace(c.name, c.args, Truncate(result), false)
  }

  function FactsOf(s: Setup, i: nat, j: nat, c: ToolCall): seq<Fact> {
    if JsonDepth.ArgsOk(c.args) && c.name in s.tools && s.call(i, j, c).ToolOk? then s.call(i, j, c).facts else []
  }

  function AnswerOf(trace: Trace, c: ToolCall): Message {
    Message(Tool, trace.output, [], c.name, c.id)
  }

  // ----- appending a turn -----

  function TurnTraces(s: Setup, i: nat, calls: seq<ToolCall>): (ts: seq<Trace>)
    ensures |ts| == |calls| && forall j :: 0 <= j < |calls| ==> ts[j] == TraceOf(s, i, j, calls[j])
  {
    seq(|calls|, j requires 0 <= j < |calls| => TraceOf(s, i, j, calls[j]))
  }

  function TurnAnswers(s: Setup, i: nat, calls: seq<ToolCall>): (ms: seq<Message>)
    ensures |ms| == |calls| && forall j :: 0 <= j < |calls| ==> ms[j] == AnswerOf(TraceOf(s, i, j, calls[j]), calls[j])
  {
    seq(|calls|, j requires 0 <= j < |calls| => AnswerOf(TraceOf(s, i, j, calls[j]), calls[j]))
  }

  /** The facts of the successful calls, deduplicated as they come. */
  function TurnFacts(s: Setup, i: nat, calls: seq<ToolCall>, facts: seq<Fact>): seq<Fact> {
    if calls == [] then facts
    else Dedup(TurnFacts(s, i, calls[..|calls| - 1], facts), FactsOf(s, i, |calls| - 1, calls[|calls| - 1]))
  }

  /** The turn of iteration i. */
  function Turn(s: Setup, i: nat, content: string, calls: seq<ToolCall>): seq<Message> {
    [Message(Assistant, content, calls, "", "")] + TurnAnswers(s, i, calls)
  }

  lemma TurnIsTurn(s: Setup, i: nat, content: string, calls: seq<ToolCall>)
    requires calls != []
    ensures IsTurn(Turn(s, i, content, calls))
  {
  }

  lemma FlattenAppend(turns: seq<seq<Message>>, turn: seq<Message>)
    ensures Flatten(turns + [turn]) == Flatten(turns) + turn
  {
    assert (turns + [turn])[..|turns|] == turns;
  }

  lemma {:induction false} CallsAppend(a: seq<Message>, b: seq<Message>)
    ensures Calls(a + b) == Calls(a) + Calls(b)
  {
    if b == [] {
      assert a + b == a;
    } else {
      var front, last := b[..|b| - 1], b[|b| - 1];
      CallsAppend(a, front);
      assert (a + b)[..|a + b| - 1] == a + front && (a + b)[|a + b| - 1] == last;
    }
  }

  lemma {:induction false} ResultsAppend(a: seq<Message>, b: seq<Message>)
    ensures Results(a + b) == Results(a) + Results(b)
  {
    if b == [] {
      assert a + b == a;
    } else {
      var front, last := b[..|b| - 1], b[|b| - 1];
      ResultsAppend(a, front);
      assert (a + b)[..|a + b| - 1] == a + front && (a + b)[|a + b| - 1] == last;
    }
  }

  lemma {:induction false} AnswersOnly(ms: seq<Message>)
    requires forall k :: 0 <= k < |ms| ==> ms[k].role == Tool && ms[k].toolCalls == []
    ensures Calls(ms) == [] && Results(ms) == ms
  {
    if ms != [] {
      var front, last := ms[..|ms| - 1], ms[|ms| - 1];
      AnswersOnly(front);
      assert last.role == Tool && last.toolCalls == [];
      assert Calls(ms) == Calls(front) + last.toolCalls && Results(ms) == Results(front) + [last];
    }
  }

  lemma {:induction false} PromptsSilent(prompts: seq<Message>)
    requires forall k :: 0 <= k < |prompts| ==> prompts[k].role != Tool && prompts[k].toolCalls == []
    ensures Calls(prompts) == [] && Results(prompts) == []
  {
    if prompts != [] {
      PromptsSilent(prompts[..|prompts| - 1]);
    }
  }

  lemma OneMessage(m: Message)
    ensures Calls([m]) == m.toolCalls && Results([m]) == if m.role == Tool then [m] else []
  {
    assert [m][..0] == [];
  }

  lemma TurnCalls(s: Setup, i: nat, content: string, calls: seq<ToolCall>)
    ensures Calls(Turn(s, i, content, calls)) == calls && Results(Turn(s, i, content, calls)) == TurnAnswers(s, i, calls)
  {
    hide Calls, Results, TraceOf;
    var m := Message(Assistant, content, calls, "", "");
    var answers := TurnAnswers(s, i, calls);
    CallsAppend([m], answers);
    ResultsAppend([m], answers);
    AnswersOnly(answers);
    OneMessage(m);
  }

  lemma TracedTurn(s: Setup, i: nat, content: string, calls: seq<ToolCall>, ms: seq<Message>, traces: seq<Trace>)
    requires Traced(ms, traces)
    ensures Traced(ms + Turn(s, i, content, calls), traces + TurnTraces(s, i, calls))
  {
    CallsAppend(ms, Turn(s, i, content, calls));
    ResultsAppend(ms, Turn(s, i, content, calls));
    TurnCalls(s, i, content, calls);
    hide Calls, Results, Turn, TraceOf;
    var cs, rs, ts := Calls(ms) + calls, Results(ms) + TurnAnswers(s, i, calls), traces + TurnTraces(s, i, calls);
    forall k | 0 <= k < |ts|
      ensures ts[k].tool == cs[k].name && ts[k].args == cs[k].args && AnswersCall(rs[k], cs[k]) && rs[k].content == ts[k].output {
      if k >= |traces| {
        TraceNamed(s, i, k - |traces|, calls[k - |traces|]);
      }
    }
  }

  lemma TraceNamed(s: Setup, i: nat, j: nat, c: ToolCall)
    ensures TraceOf(s, i, j, c).tool == c.name && TraceOf(s, i, j, c).args == c.args
  {
  }

  // ----- the loop -----

  /** One tool call: its arguments are checked, its tool looked up and called. */
  method RunCall(s: Setup, i: nat, j: nat, tc: ToolCall, facts: seq<Fact>) returns (trace: Trace, facts': seq<Fact>)
    ensures trace == TraceOf(s, i, j, tc) && facts' == Dedup(facts, FactsOf(s, i, j, tc))
  {
    hide Dedup, JsonDepth.ArgsOk;
    trace, facts' := Trace(tc.name, tc.args, "", false), facts;
    DedupNothing(facts);
    var argsOk := JsonDepth.ValidateToolArgs(tc.args);
    if !argsOk {
      trace := trace.(failed := true, output := s.badArgs(tc.args));
      return;
    }
    if tc.name !in s.tools {
      trace := trace.(failed := true, output := s.unknownTool(tc.name));
      return;
    }
    match s.call(i, j, tc) {
      case ToolErr(err) =>
        trace := trace.(failed := true, output := s.toolError(tc.name, err));
      case ToolOk(result, more) =>
        trace := trace.(output := Truncate(result));
        facts' := DedupFacts(facts', more);
    }
  }

  /** The tool calls of one reply, run one after another. */
  method RunTurn(s: Setup, i: nat, content: string, calls: seq<ToolCall>, messages: seq<Message>, traces: seq<Trace>,
                 facts: seq<Fact>)
    returns (messages': seq<Message>, traces': seq<Trace>, facts': seq<Fact>)
    ensures messages' == messages + Turn(s, i, content, calls)
    ensures traces' == traces + TurnTraces(s, i, calls)
    ensures facts' == TurnFacts(s, i, calls, facts)
  {
    hide TraceOf, FactsOf, Dedup;
    var first := [Message(Assistant, content, calls, "", "")];
    messages', traces', facts' := messages + first, traces, facts;
    ghost var answers, ts := TurnAnswers(s, i, calls), TurnTraces(s, i, calls);
    for j := 0 to |calls|
      invariant messages' == messages + first + answers[..j]
      invariant traces' == traces + ts[..j]
      invariant facts' == TurnFacts(s, i, calls[..j], facts)
    {
      var tc := calls[j];
      assert calls[..j + 1][..j] == calls[..j];
      var trace;
      trace, facts' := RunCall(s, i, j, tc, facts');
      assert answers[..j + 1] == answers[..j] + [answers[j]] && ts[..j + 1] == ts[..j] + [ts[j]];
      traces' := traces' + [trace];
      messages' := messages' + [Message(Tool, trace.output, [], tc.name, tc.id)];
    }
    assert calls[..|calls|] == calls && answers[..|calls|] == answers && ts[..|calls|] == ts;
  }

  lemma DedupNothing(facts: seq<Fact>)
    ensures Dedup(facts, []) == facts
  {
  }

  /** Whole turns are added to what was sent before. */
  ghost predicate Sent(s: Setup, prompts: seq<Message>, sent: seq<seq<Message>>) {
    && (forall k :: 0 <= k < |sent| ==> Conversation(prompts, sent[k]))
    && (|sent| > 0 ==> sent[0] == prompts)
    && forall k: nat :: 0 < k < |sent| ==> Follows(s, k - 1, sent[k - 1], sent[k])
  }

  /** The model asked for calls on ms, and next is ms with their turn. */
  ghost predicate Follows(s: Setup, k: nat, ms: seq<Message>, next: seq<Message>) {
    var reply := s.model(k, ms);
    reply.Reply? && reply.toolCalls != [] && next == ms + Turn(s, k, reply.content, reply.toolCalls)
  }

  lemma AddSent(s: Setup, prompts: seq<Message>, sent: seq<seq<Message>>, ms: seq<Message>)
    requires Sent(s, prompts, sent) && Conversation(prompts, ms)
    requires if sent == [] then ms == prompts else Follows(s, |sent| - 1, sent[|sent| - 1], ms)
    ensures Sent(s, prompts, sent + [ms])
  {
    hide Conversation, Follows;
    var more := sent + [ms];
    forall k: nat | 0 < k < |more| ensures Follows(s, k - 1, more[k - 1], more[k]) {
      assert more[k - 1] == sent[k - 1];
      if k < |sent| {
        assert more[k] == sent[k];
      }
    }
  }

  /** The calls asked for on the k-th message list. */
  function Asked(s: Setup, sent: seq<seq<Message>>, k: nat): seq<ToolCall>
    requires k < |sent|
  {
    var reply := s.model(k, sent[k]);
    if reply.Reply? then reply.toolCalls else []
  }

  /** The traces of the first n turns. */
  function RunTraces(s: Setup, sent: seq<seq<Message>>, n: nat): seq<Trace>
    requires n <= |sent|
  {
    if n == 0 then [] else RunTraces(s, sent, n - 1) + TurnTraces(s, n - 1, Asked(s, sent, n - 1))
  }

  function RunFacts(s: Setup, sent: seq<seq<Message>>, n: nat): seq<Fact>
    requires n <= |sent|
  {
    if n == 0 then [] else TurnFacts(s, n - 1, Asked(s, sent, n - 1), RunFacts(s, sent, n - 1))
  }

  lemma {:induction false} RunPrefix(s: Setup, sent: seq<seq<Message>>, ms: seq<Message>, n: nat)
    requires n <= |sent|
    ensures RunTraces(s, sent + [ms], n) == RunTraces(s, sent, n) && RunFacts(s, sent + [ms], n) == RunFacts(s, sent, n)
  {
    hide TurnTraces, TurnFacts;
    if n > 0 {
      RunPrefix(s, sent, ms, n - 1);
    }
  }

  /** After |sent| whole turns: every list sent is a conversation, and so is the current one, with one trace per
      call. */
  ghost predicate Going(s: Setup, prompts: seq<Message>, sent: seq<seq<Message>>, ms: seq<Message>,
                        traces: seq<Trace>, facts: seq<Fact>) {
    && Sent(s, prompts, sent) && Conversation(prompts, ms) && Traced(ms, traces)
    && (if sent == [] then ms == prompts else Follows(s, |sent| - 1, sent[|sent| - 1], ms))
    && traces == RunTraces(s, sent, |sent|) && facts == RunFacts(s, sent, |sent|)
  }

  /** The current list has been sent too, and not been answered with calls. */
  ghost predicate Asking(s: Setup, prompts: seq<Message>, sent: seq<seq<Message>>, ms: seq<Message>,
                         traces: seq<Trace>, facts: seq<Fact>) {
    && Sent(s, prompts, sent) && Conversation(prompts, ms) && Traced(ms, traces)
    && |sent| > 0 && sent[|sent| - 1] == ms
    && traces == RunTraces(s, sent, |sent| - 1) && facts == RunFacts(s, sent, |sent| - 1)
  }

  lemma Send(s: Setup, prompts: seq<Message>, sent: seq<seq<Message>>, ms: seq<Message>, traces: seq<Trace>,
             facts: seq<Fact>)
    requires Going(s, prompts, sent, ms, traces, facts)
    ensures Asking(s, prompts, sent + [ms], ms, traces, facts)
  {
    hide Sent, Conversation, Traced, Follows, RunTraces, RunFacts;
    AddSent(s, prompts, sent, ms);
    RunPrefix(s, sent, ms, |sent|);
  }

  lemma Resume(s: Setup, prompts: seq<Message>, sent: seq<seq<Message>>, ms: seq<Message>, traces: seq<Trace>,
               facts: seq<Fact>)
    requires Asking(s, prompts, sent, ms, traces, facts)
    requires s.model(|sent| - 1, ms).Reply? && s.model(|sent| - 1, ms).toolCalls != []
    ensures var i, reply := |sent| - 1, s.model(|sent| - 1, ms);
            Going(s, prompts, sent, ms + Turn(s, i, reply.content, reply.toolCalls), traces + TurnTraces(s, i, reply.toolCalls),
                  TurnFacts(s, i, reply.toolCalls, facts))
  {
    hide Sent, Conversation, Traced, Turn, TurnTraces, TurnFacts;
    var reply := s.model(|sent| - 1, ms);
    TracedTurn(s, |sent| - 1, reply.content, reply.toolCalls, ms, traces);
    AddTurn(s, |sent| - 1, reply.content, reply.toolCalls, prompts, ms);
    assert Asked(s, sent, |sent| - 1) == reply.toolCalls;
  }

  /** How the loop ends, after the message lists sent. */
  ghost predicate Ends(s: Setup, sent: seq<seq<Message>>, result: string, err: Option<LoopError>) {
    match err
    case Some(Canceled) => s.canceled(|sent|)
    case Some(ModelError(e)) => |sent| > 0 && s.model(|sent| - 1, sent[|sent| - 1]) == CallFailed(e)
    case Some(MaxIterations) => |sent| == Budget(s)
    case None =>
      |sent| > 0 &&
      var reply := s.model(|sent| - 1, sent[|sent| - 1]);
      reply.Reply? && reply.toolCalls == [] && result == s.trim(reply.content)
  }

  /** `sent` records the message lists the model saw, `messages` is the last state of the conversation. */
  method ExecuteTaskWithTools(s: Setup, prompts: seq<Message>)
    returns (result: string, traces: seq<Trace>, facts: seq<Fact>, err: Option<LoopError>,
             sent: seq<seq<Message>>, messages: seq<Message>)
    requires forall k :: 0 <= k < |prompts| ==> prompts[k].role != Tool && prompts[k].toolCalls == []
    ensures if err.None? || err.value.ModelError? then Asking(s, prompts, sent, messages, traces, facts)
            else Going(s, prompts, sent, messages, traces, facts)
    ensures |sent| <= Budget(s) && Ends(s, sent, result, err)
    ensures |sent| <= (if s.maxIterations > 0 then s.maxIterations else 15)
    ensures err == Some(MaxIterations) ==> |sent| == if s.maxIterations > 0 then s.maxIterations else 15
  {
    hide Going, Sent, Conversation, Traced, Turn, TurnTraces, TurnFacts, RunTraces, RunFacts;
    var maxIter := s.maxIterations;
    if maxIter <= 0 {
      maxIter := DEFAULT_MAX_ITERATIONS;
    }
    var msgs := prompts;
    sent, messages := [], msgs;
    traces, facts, result := [], [], "";
    StartConversation(s, prompts);
    for i := 0 to maxIter
      invariant messages == msgs && |sent| == i && Going(s, prompts, sent, msgs, traces, facts)
    {
      if s.canceled(i) {
        return "", traces, facts, Some(Canceled), sent, messages;
      }
      Send(s, prompts, sent, msgs, traces, facts);
      var resp := s.model(i, msgs);
      sent := sent + [msgs];
      if resp.CallFailed? {
        return "", traces, facts, Some(ModelError(resp.err)), sent, messages;
      }
      if |resp.toolCalls| == 0 {
        return s.trim(resp.content), traces, facts, None, sent, messages;
      }
      Resume(s, prompts, sent, msgs, traces, facts);
      msgs, traces, facts := RunTurn(s, i, resp.content, resp.toolCalls, msgs, traces, facts);
      messages := msgs;
    }
    err := Some(MaxIterations);
  }

  lemma StartConversation(s: Setup, prompts: seq<Message>)
    requires forall k :: 0 <= k < |prompts| ==> prompts[k].role != Tool && prompts[k].toolCalls == []
    ensures Going(s, prompts, [], prompts, [], [])
  {
    PromptsSilent(prompts);
    assert AllTurns([]) && prompts == prompts + Flatten([]);
  }

  lemma AddTurn(s: Setup, i: nat, content: string, calls: seq<ToolCall>, prompts: seq<Message>, ms: seq<Message>)
    requires Conversation(prompts, ms) && calls != []
    ensures Conversation(prompts, ms + Turn(s, i, content, calls))
  {
    hide Turn, IsTurn, Flatten, AllTurns;
    var turns :| AllTurns(turns) && ms == prompts + Flatten(turns);
    TurnIsTurn(s, i, content, calls);
    OneMoreTurn(prompts, turns, Turn(s, i, content, calls));
  }

  lemma OneMoreTurn(prompts: seq<Message>, turns: seq<seq<Message>>, turn: seq<Message>)
    requires AllTurns(turns) && IsTurn(turn)
    ensures Conversation(prompts, prompts + Flatten(turns) + turn)
  {
    hide IsTurn, Flatten;
    FlattenAppend(turns, turn);
    var more := turns + [turn];
    assert AllTurns(more);
    assert prompts + Flatten(turns) + turn == prompts + Flatten(more);
  }

  // ----- what the model and the caller get to see -----

  /** Message m and trace t are those of call c, the j-th of iteration i. */
  predicate Answered(s: Setup, i: nat, j: nat, c: ToolCall, m: Message, t: Trace) {
    && m.role == Tool && m.toolName == c.name && m.toolCallID == c.id && m.toolCalls == []
    && t.tool == c.name && t.args == c.args && t.output == m.content
    && if !JsonDepth.ArgsOk(c.args) then t.failed && m.content == s.badArgs(c.args)
       else if c.name !in s.tools then t.failed && m.content == s.unknownTool(c.name)
       else
         match s.call(i, j, c)
         case ToolErr(err) => t.failed && m.content == s.toolError(c.name, err)
         case ToolOk(result, _) =>
           && !t.failed
           && (|result| <= 1048576 ==> m.content == result)
           && (|result| > 1048576 ==> m.content == result[..1048576] + "\n... [output truncated, exceeded 1 MiB]")
  }

  lemma CallAnswered(s: Setup, i: nat, j: nat, c: ToolCall)
    ensures Answered(s, i, j, c, AnswerOf(TraceOf(s, i, j, c), c), TraceOf(s, i, j, c))
  {
    hide JsonDepth.ArgsOk;
  }

  /** Each list sent is the one before, the reply with its calls, and the answer of each call: the output of its
      tool, up to 1 MiB, when the arguments are accepted, the tool is known and it does not fail. */
  lemma Exchange(s: Setup, prompts: seq<Message>, sent: seq<seq<Message>>, k: nat)
    requires Sent(s, prompts, sent) && 0 < k < |sent|
    ensures var ms, next, reply := sent[k - 1], sent[k], s.model(k - 1, sent[k - 1]);
            && reply.Reply? && reply.toolCalls != [] && |next| == |ms| + 1 + |reply.toolCalls|
            && next[..|ms|] == ms && next[|ms|] == Message(Assistant, reply.content, reply.toolCalls, "", "")
            && forall j: nat :: j < |reply.toolCalls| ==>
                 Answered(s, k - 1, j, reply.toolCalls[j], next[|ms| + 1 + j], TurnTraces(s, k - 1, reply.toolCalls)[j])
  {
    hide Answered, TraceOf, AnswerOf, Conversation;
    var ms, next, reply := sent[k - 1], sent[k], s.model(k - 1, sent[k - 1]);
    assert Follows(s, k - 1, ms, next);
    var turn := Turn(s, k - 1, reply.content, reply.toolCalls);
    assert next == ms + turn && next[|ms|..] == turn;
    forall j: nat | j < |reply.toolCalls|
      ensures Answered(s, k - 1, j, reply.toolCalls[j], next[|ms| + 1 + j], TurnTraces(s, k - 1, reply.toolCalls)[j]) {
      CallAnswered(s, k - 1, j, reply.toolCalls[j]);
      assert next[|ms| + 1 + j] == turn[1 + j];
    }
  }

  /** The facts the accepted, known and successful calls of a reply return, in order. */
  function Gathered(s: Setup, i: nat, calls: seq<ToolCall>): seq<Fact> {
    if calls == [] then []
    else
      var j := |calls| - 1;
      var c := calls[j];
      Gathered(s, i, calls[..j]) +
      if !JsonDepth.ArgsOk(c.args) || c.name !in s.tools then []
      else
        match s.call(i, j, c)
        case ToolErr(_) => []
        case ToolOk(_, facts) => facts
  }

  function GatheredAll(s: Setup, sent: seq<seq<Message>>, n: nat): seq<Fact>
    requires n <= |sent|
  {
    if n == 0 then [] else GatheredAll(s, sent, n - 1) + Gathered(s, n - 1, Asked(s, sent, n - 1))
  }

  lemma {:induction false} TurnGathers(s: Setup, i: nat, calls: seq<ToolCall>, facts: seq<Fact>)
    ensures TurnFacts(s, i, calls, facts) == Dedup(facts, Gathered(s, i, calls))
  {
    hide Dedup, JsonDepth.ArgsOk;
    if calls == [] {
      DedupNothing(facts);
    } else {
      var j := |calls| - 1;
      TurnGathers(s, i, calls[..j], facts);
      DedupAppend(facts, Gathered(s, i, calls[..j]), FactsOf(s, i, j, calls[j]));
    }
  }

  /** The facts of a run are those its successful calls returned, the first of each hash. */
  lemma {:induction false} RunGathers(s: Setup, sent: seq<seq<Message>>, n: nat)
    requires n <= |sent|
    ensures RunFacts(s, sent, n) == Dedup([], GatheredAll(s, sent, n))
  {
    hide Dedup, Gathered, TurnFacts;
    if n == 0 {
      DedupNothing([]);
    } else {
      RunGathers(s, sent, n - 1);
      TurnGathers(s, n - 1, Asked(s, sent, n - 1), RunFacts(s, sent, n - 1));
      DedupAppend([], GatheredAll(s, sent, n - 1), Gathered(s, n - 1, Asked(s, sent, n - 1)));
    }
  }
}
