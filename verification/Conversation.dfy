/** The agent's loop and the session log: what is sent to the model, what is stored, and
    what the stored rows replay to. */
module Conversation {
  import opened Workflow

  datatype Role = System | User | Assistant | ToolRole

  datatype ToolCall = ToolCall(id: string, name: string, arguments: string)

  datatype Msg = Msg(role: Role, content: string, callId: string, name: string, calls: seq<ToolCall>)

  /** What the model answers, or the error of asking it. */
  datatype Reply = Answer(content: string, calls: seq<ToolCall>, finish: string) | Failed(text: string)

  /** The model and the tools. `replies` may depend on the step and the whole conversation,
      `invoke` on the tool and its arguments. */
  datatype World = World(
    replies: (nat, seq<Msg>) -> Reply,
    validJson: string -> bool,
    allowed: set<string>,
    invoke: (string, string) -> Result<string>,
    truncate: string -> string,
    texts: Texts)

  /** The error texts: for arguments that are not JSON, for a tool that is not allowed, for
      the step limit; and how a tool message carries an error. */
  datatype Texts = Texts(notJson: string -> string, notAllowed: string -> string, maxSteps: string,
                         asContent: string -> string)

  datatype Event =
    | AssistantEvent(content: string, calls: seq<ToolCall>, finish: string)
    | ToolCallEvent(id: string, name: string, input: string)
    | ToolResultEvent(id: string, name: string, output: string, error: string)
    | FinalEvent(content: string, finish: string)
    | ErrorEvent(text: string)

  /** What became of a callback: fine, the row not stored, or stored and then an error. */
  datatype Yielded = Fine | NotStored | Stored

  datatype Status = Stopped | LlmFailed | MaxSteps | Aborted

  // ---- Tools ----

  /** The error a call is answered with, if any; the tool's output otherwise. */
  function ToolOutcome(w: World, c: ToolCall): Result<string> {
    if c.arguments == "" || !w.validJson(c.arguments) then Error(w.texts.notJson(c.arguments))
    else if c.name !in w.allowed then Error(w.texts.notAllowed(c.name))
    else
      match w.invoke(c.name, c.arguments)
      case Ok(out) => Ok(w.truncate(out))
      case Error(e) => Error(e)
  }

  function ToolMsg(w: World, c: ToolCall): Msg {
    match ToolOutcome(w, c)
    case Ok(out) => Msg(ToolRole, out, c.id, c.name, [])
    case Error(e) => Msg(ToolRole, w.texts.asContent(e), c.id, "", [])
  }

  function ToolEvents(w: World, c: ToolCall): seq<Event> {
    [ToolCallEvent(c.id, c.name, c.arguments),
     match ToolOutcome(w, c)
     case Ok(out) => ToolResultEvent(c.id, c.name, out, "")
     case Error(e) => ToolResultEvent(c.id, c.name, "", e)]
  }

  function ToolMsgs(w: World, calls: seq<ToolCall>): seq<Msg> {
    if |calls| == 0 then [] else [ToolMsg(w, calls[0])] + ToolMsgs(w, calls[1..])
  }

  function AllToolEvents(w: World, calls: seq<ToolCall>): seq<Event> {
    if |calls| == 0 then [] else ToolEvents(w, calls[0]) + AllToolEvents(w, calls[1..])
  }

  // ---- A run ----

  /** The message lists sent, the events yielded, the messages the run added, and how it
      ended. */
  datatype RunOf = RunOf(sent: seq<seq<Msg>>, events: seq<Event>, tail: seq<Msg>, status: Status)

  function FinishOf(finish: string): string { if finish == "" then "stop" else finish }

  function AssistantMsg(content: string, calls: seq<ToolCall>): Msg { Msg(Assistant, content, "", "", calls) }

  predicate AsksForTools(r: Reply) { r.Answer? && r.finish == "tool_calls" && |r.calls| > 0 }

  /** The messages one round of tool calls adds, and the events it yields. */
  function RoundMsgs(w: World, r: Reply): seq<Msg>
    requires r.Answer?
  {
    [AssistantMsg(r.content, r.calls)] + ToolMsgs(w, r.calls)
  }

  function RoundEvents(w: World, r: Reply): seq<Event>
    requires r.Answer?
  {
    [AssistantEvent(r.content, r.calls, FinishOf(r.finish))] + AllToolEvents(w, r.calls)
  }

  /** The run from a step on; `ys` says what becomes of the callbacks, the k-th next. */
  function RunFrom(w: World, ys: nat -> Yielded, k: nat, messages: seq<Msg>, step: nat, max: nat): RunOf
    decreases max + 1 - step
  {
    if step > max then RunOf([], [ErrorEvent(w.texts.maxSteps)], [], MaxSteps)
    else
      var reply := w.replies(step, messages);
      if !AsksForTools(reply) || ys(k) != Fine then LastStep(reply, ys, k, messages)
      else
        var r := RunFrom(w, ys, k + |RoundEvents(w, reply)|, messages + RoundMsgs(w, reply), step + 1, max);
        RunOf([messages] + r.sent, RoundEvents(w, reply) + r.events, RoundMsgs(w, reply) + r.tail, r.status)
  }

  /** A step that ends the run. */
  function LastStep(reply: Reply, ys: nat -> Yielded, k: nat, messages: seq<Msg>): RunOf {
    match reply
    case Failed(text) => RunOf([messages], [ErrorEvent(text)], [], LlmFailed)
    case Answer(content, calls, finish) =>
      var ev := AssistantEvent(content, calls, FinishOf(finish));
      if ys(k) != Fine then RunOf([messages], [ev], [], Aborted)
      else
        RunOf([messages], [ev, FinalEvent(content, FinishOf(finish))], [AssistantMsg(content, calls)],
              if ys(k + 1) == Fine then Stopped else Aborted)
  }

  // ---- The log ----

  datatype Row = Row(seqNo: nat, role: Role, content: string, callId: string, calls: seq<ToolCall>)

  function NextSeq(rows: seq<Row>): nat { if rows == [] then 1 else rows[|rows| - 1].seqNo + 1 }

  /** Which events are stored, and as what. */
  function RowFor(e: Event, n: nat): Option<Row> {
    match e
    case AssistantEvent(content, calls, _) => Some(Row(n, Assistant, content, "", calls))
    case ToolResultEvent(id, _, output, error) => Some(Row(n, ToolRole, if error != "" then error else output, id, []))
    case ErrorEvent(text) => Some(Row(n, System, text, "", []))
    case _ => None
  }

  function Logged(rows: seq<Row>, e: Event, y: Yielded): seq<Row> {
    var r := RowFor(e, NextSeq(rows));
    if r.None? || y == NotStored then rows else rows + [r.value]
  }

  function LoggedAll(rows: seq<Row>, es: seq<Event>, ys: nat -> Yielded, k: nat): seq<Row>
    decreases |es|
  {
    if es == [] then rows else LoggedAll(Logged(rows, es[0], ys(k)), es[1..], ys, k + 1)
  }

  /** The conversation the stored rows stand for. */
  function Replay(rows: seq<Row>): seq<Msg> {
    seq(|rows|, i requires 0 <= i < |rows| => ReplayRow(rows[i]))
  }

  function ReplayRow(r: Row): Msg {
    Msg(r.role, r.content, if r.role == ToolRole then r.callId else "", "", if r.role == Assistant then r.calls else [])
  }

  class SessionLog {
    const ys: nat -> Yielded
    var rows: seq<Row>
    var yielded: seq<Event>

    constructor (rows: seq<Row>, ys: nat -> Yielded)
      ensures this.rows == rows && this.ys == ys && yielded == []
    {
      this.rows, this.ys, yielded := rows, ys, [];
    }

    /** The callback of a run. */
    method Yield(e: Event) returns (ok: bool)
      modifies this
      ensures yielded == old(yielded) + [e]
      ensures rows == Logged(old(rows), e, ys(|old(yielded)|))
      ensures ok <==> ys(|old(yielded)|) == Fine
    {
      var y := ys(|yielded|);
      yielded := yielded + [e];
      var n := if rows == [] then 1 else rows[|rows| - 1].seqNo + 1;
      var row := RowFor(e, n);
      if row.Some? {
        if y == NotStored { return false; }
        rows := rows + [row.value];
      }
      ok := y == Fine;
    }

    /** The rows are what the events yielded so far make of the first ones. */
    ghost predicate Follows(first: seq<Row>)
      reads this
    {
      rows == LoggedAll(first, yielded, ys, 0)
    }

    method Emit(e: Event, ghost first: seq<Row>) returns (ok: bool)
      requires Follows(first)
      modifies this
      ensures Follows(first) && yielded == old(yielded) + [e]
      ensures ok <==> ys(|old(yielded)|) == Fine
    {
      LoggedConcat(first, yielded, [e], ys, 0);
      LoggedOne(rows, e, ys, |yielded|);
      ok := Yield(e);
    }
  }

  lemma {:induction false} LoggedConcat(rows: seq<Row>, a: seq<Event>, b: seq<Event>, ys: nat -> Yielded, k: nat)
    ensures LoggedAll(rows, a + b, ys, k) == LoggedAll(LoggedAll(rows, a, ys, k), b, ys, k + |a|)
    decreases |a|
  {
    if a == [] { assert a + b == b; }
    else {
      assert (a + b)[1..] == a[1..] + b;
      LoggedConcat(Logged(rows, a[0], ys(k)), a[1..], b, ys, k + 1);
    }
  }

  lemma LoggedOne(rows: seq<Row>, e: Event, ys: nat -> Yielded, k: nat)
    ensures LoggedAll(rows, [e], ys, k) == Logged(rows, e, ys(k))
  {
    assert [e][1..] == [];
    assert LoggedAll(rows, [e], ys, k) == LoggedAll(Logged(rows, e, ys(k)), [e][1..], ys, k + 1);
  }

  // ---- Well-formed conversations ----

  /** The tool messages answering an assistant's calls, one each, in order. */
  predicate Answers(calls: seq<ToolCall>, msgs: seq<Msg>) {
    |msgs| == |calls| && forall i | 0 <= i < |calls| :: msgs[i].role == ToolRole && msgs[i].callId == calls[i].id
  }

  predicate WellFormed(msgs: seq<Msg>)
    decreases |msgs|
  {
    if msgs == [] then true
    else if msgs[0].role == Assistant && msgs[0].calls != [] then
      var n := |msgs[0].calls|;
      n < |msgs| && Answers(msgs[0].calls, msgs[1..n + 1]) && WellFormed(msgs[n + 1..])
    else msgs[0].role != ToolRole && WellFormed(msgs[1..])
  }

  lemma {:induction false} WellFormedConcat(a: seq<Msg>, b: seq<Msg>)
    requires WellFormed(a)
    ensures WellFormed(a + b) <==> WellFormed(b)
    decreases |a|
  {
    if a == [] { assert a + b == b; }
    else if a[0].role == Assistant && a[0].calls != [] {
      var n := |a[0].calls|;
      assert (a + b)[1..n + 1] == a[1..n + 1] && (a + b)[n + 1..] == a[n + 1..] + b;
      WellFormedConcat(a[n + 1..], b);
    } else {
      assert (a + b)[1..] == a[1..] + b;
      WellFormedConcat(a[1..], b);
    }
  }

  lemma {:induction false} ToolMsgsAnswer(w: World, calls: seq<ToolCall>)
    ensures Answers(calls, ToolMsgs(w, calls))
    decreases |calls|
  {
    if calls != [] { ToolMsgsAnswer(w, calls[1..]); }
  }

  lemma AnsweredIsWellFormed(content: string, calls: seq<ToolCall>, msgs: seq<Msg>)
    requires calls != [] && Answers(calls, msgs)
    ensures WellFormed([AssistantMsg(content, calls)] + msgs)
  {
    var all := [AssistantMsg(content, calls)] + msgs;
    assert all[1..|calls| + 1] == msgs && all[|calls| + 1..] == [];
  }

  lemma RoundIsWellFormed(w: World, r: Reply)
    requires AsksForTools(r)
    ensures WellFormed(RoundMsgs(w, r))
  {
    ToolMsgsAnswer(w, r.calls);
    AnsweredIsWellFormed(r.content, r.calls, ToolMsgs(w, r.calls));
  }

  predicate AllWellFormed(sent: seq<seq<Msg>>) { forall i | 0 <= i < |sent| :: WellFormed(sent[i]) }

  lemma Prepended(m: seq<Msg>, sent: seq<seq<Msg>>)
    requires WellFormed(m) && AllWellFormed(sent)
    ensures AllWellFormed([m] + sent) && AllWellFormed([m])
  {
  }

  lemma LastSent(reply: Reply, ys: nat -> Yielded, k: nat, messages: seq<Msg>)
    ensures LastStep(reply, ys, k, messages).sent == [messages]
  {
  }

  /** Whatever the model answers, the tools do and the callbacks report: a run that starts
      from a well-formed conversation only ever sends well-formed ones. */
  lemma {:induction false} SentIsWellFormed(w: World, ys: nat -> Yielded, k: nat, messages: seq<Msg>, step: nat,
                                            max: nat)
    requires WellFormed(messages)
    ensures AllWellFormed(RunFrom(w, ys, k, messages, step, max).sent)
    decreases max + 1 - step
  {
    Prepended(messages, []);
    if step <= max {
      var reply := w.replies(step, messages);
      if AsksForTools(reply) && ys(k) == Fine {
        var next := messages + RoundMsgs(w, reply);
        assert WellFormed(next) by {
          RoundIsWellFormed(w, reply);
          WellFormedConcat(messages, RoundMsgs(w, reply));
        }
        SentIsWellFormed(w, ys, k + |RoundEvents(w, reply)|, next, step + 1, max);
        Prepended(messages, RunFrom(w, ys, k + |RoundEvents(w, reply)|, next, step + 1, max).sent);
      } else {
        LastSent(reply, ys, k, messages);
      }
    }
  }
}
