/** What the agent does with the model's calls: which tools it can reach, and what each call
    is answered with. */
module AgentTools {
  import opened Workflow
  import opened Conversation

  /** A call that reaches its tool. */
  predicate Reaches(w: World, c: ToolCall) { c.name in w.allowed && c.arguments != "" && w.validJson(c.arguments) }

  ghost predicate SameReached(w: World, invoke: (string, string) -> Result<string>) {
    forall c | Reaches(w, c) :: invoke(c.name, c.arguments) == w.invoke(c.name, c.arguments)
  }

  lemma {:induction false} SameRound(w: World, invoke: (string, string) -> Result<string>, calls: seq<ToolCall>)
    requires SameReached(w, invoke)
    ensures ToolMsgs(w.(invoke := invoke), calls) == ToolMsgs(w, calls)
    ensures AllToolEvents(w.(invoke := invoke), calls) == AllToolEvents(w, calls)
    decreases |calls|
  {
    if |calls| > 0 {
      SameCall(w, invoke, calls[0]);
      SameRound(w, invoke, calls[1..]);
    }
  }

  lemma SameCall(w: World, invoke: (string, string) -> Result<string>, c: ToolCall)
    requires SameReached(w, invoke)
    ensures ToolMsg(w.(invoke := invoke), c) == ToolMsg(w, c)
    ensures ToolEvents(w.(invoke := invoke), c) == ToolEvents(w, c)
  {
    if Reaches(w, c) { assert invoke(c.name, c.arguments) == w.invoke(c.name, c.arguments); }
  }

  /** A run that goes on the same after its first step is the same. */
  lemma SameOnward(w: World, invoke: (string, string) -> Result<string>, ys: nat -> Yielded, k: nat,
                   messages: seq<Msg>, step: nat, max: nat)
    requires SameReached(w, invoke)
    requires step <= max && AsksForTools(w.replies(step, messages)) && ys(k) == Fine
    requires var reply := w.replies(step, messages);
      var next, k' := messages + RoundMsgs(w, reply), k + |RoundEvents(w, reply)|;
      RunFrom(w.(invoke := invoke), ys, k', next, step + 1, max) == RunFrom(w, ys, k', next, step + 1, max)
    ensures RunFrom(w.(invoke := invoke), ys, k, messages, step, max) == RunFrom(w, ys, k, messages, step, max)
  {
    SameRound(w, invoke, w.replies(step, messages).calls);
    GoesOn(w, ys, k, messages, step, max);
    GoesOn(w.(invoke := invoke), ys, k, messages, step, max);
  }

  lemma SameStop(w: World, invoke: (string, string) -> Result<string>, ys: nat -> Yielded, k: nat,
                 messages: seq<Msg>, step: nat, max: nat)
    requires step > max || !AsksForTools(w.replies(step, messages)) || ys(k) != Fine
    ensures RunFrom(w.(invoke := invoke), ys, k, messages, step, max) == RunFrom(w, ys, k, messages, step, max)
  {
  }

  /** Nothing a tool outside the allowlist would do, or any tool for arguments that are
      empty or no JSON, can be seen in a run: it is never invoked. */
  lemma {:induction false} OnlyAllowedToolsRun(w: World, invoke: (string, string) -> Result<string>, ys: nat -> Yielded,
                                               k: nat, messages: seq<Msg>, step: nat, max: nat)
    requires forall c | Reaches(w, c) :: invoke(c.name, c.arguments) == w.invoke(c.name, c.arguments)
    ensures RunFrom(w.(invoke := invoke), ys, k, messages, step, max) == RunFrom(w, ys, k, messages, step, max)
    decreases max + 1 - step
  {
    var reply := w.replies(step, messages);
    if step <= max && AsksForTools(reply) && ys(k) == Fine {
      OnlyAllowedToolsRun(w, invoke, ys, k + |RoundEvents(w, reply)|, messages + RoundMsgs(w, reply), step + 1, max);
      SameOnward(w, invoke, ys, k, messages, step, max);
    } else { SameStop(w, invoke, ys, k, messages, step, max); }
  }

  /** The message that answers a call. */
  predicate AnsweredBy(w: World, c: ToolCall, m: Msg) {
    && m.role == ToolRole && m.callId == c.id && m.calls == []
    && if !w.validJson(c.arguments) || c.arguments == "" then
         m.content == w.texts.asContent(w.texts.notJson(c.arguments)) && m.name == ""
       else if c.name !in w.allowed then m.content == w.texts.asContent(w.texts.notAllowed(c.name)) && m.name == ""
       else
         match w.invoke(c.name, c.arguments)
         case Ok(out) => m.content == w.truncate(out) && m.name == c.name
         case Error(e) => m.content == w.texts.asContent(e) && m.name == ""
  }

  /** The events of a call: the call as the model made it, then its result. */
  predicate Reported(w: World, c: ToolCall, call: Event, result: Event) {
    && call == ToolCallEvent(c.id, c.name, c.arguments)
    && result.ToolResultEvent? && result.id == c.id && result.name == c.name
    && if !w.validJson(c.arguments) || c.arguments == "" then
         result.output == "" && result.error == w.texts.notJson(c.arguments)
       else if c.name !in w.allowed then result.output == "" && result.error == w.texts.notAllowed(c.name)
       else
         match w.invoke(c.name, c.arguments)
         case Ok(out) => result.output == w.truncate(out) && result.error == ""
         case Error(e) => result.output == "" && result.error == e
  }

  /** A round: the answer, then one message for each of its calls in order. */
  predicate RoundFollows(w: World, r: Reply, before: seq<Msg>, after: seq<Msg>)
    requires r.Answer?
  {
    && |after| == |before| + 1 + |r.calls| && after[..|before|] == before
    && after[|before|] == Msg(Assistant, r.content, "", "", r.calls)
    && forall i | 0 <= i < |r.calls| :: AnsweredBy(w, r.calls[i], after[|before| + 1 + i])
  }

  lemma {:induction false} ToolMsgsAre(w: World, calls: seq<ToolCall>)
    ensures |ToolMsgs(w, calls)| == |calls|
    ensures forall i | 0 <= i < |calls| :: AnsweredBy(w, calls[i], ToolMsgs(w, calls)[i])
    decreases |calls|
  {
    if |calls| > 0 {
      ToolMsgsAre(w, calls[1..]);
      forall i | 0 < i < |calls| ensures AnsweredBy(w, calls[i], ToolMsgs(w, calls)[i]) {
        assert calls[1..][i - 1] == calls[i] && ToolMsgs(w, calls)[i] == ToolMsgs(w, calls[1..])[i - 1];
      }
    }
  }

  lemma {:induction false} ToolEventsAre(w: World, calls: seq<ToolCall>)
    ensures |AllToolEvents(w, calls)| == 2 * |calls|
    ensures forall i | 0 <= i < |calls| ::
      Reported(w, calls[i], AllToolEvents(w, calls)[2 * i], AllToolEvents(w, calls)[2 * i + 1])
    decreases |calls|
  {
    if |calls| > 0 {
      var all, more := AllToolEvents(w, calls), AllToolEvents(w, calls[1..]);
      ToolEventsAre(w, calls[1..]);
      assert Reported(w, calls[0], ToolEvents(w, calls[0])[0], ToolEvents(w, calls[0])[1]);
      forall i | 0 < i < |calls| ensures Reported(w, calls[i], all[2 * i], all[2 * i + 1]) {
        assert calls[1..][i - 1] == calls[i];
        assert all[2 * i] == more[2 * (i - 1)] && all[2 * i + 1] == more[2 * (i - 1) + 1];
      }
    }
  }

  /** The events of a round stand from n on. */
  predicate EventsFollow(w: World, r: Reply, events: seq<Event>, n: nat)
    requires r.Answer?
  {
    && n + 1 + 2 * |r.calls| <= |events|
    && events[n] == AssistantEvent(r.content, r.calls, r.finish)
    && forall i | 0 <= i < |r.calls| :: Reported(w, r.calls[i], events[n + 1 + 2 * i], events[n + 2 + 2 * i])
  }

  lemma RoundIs(w: World, r: Reply, messages: seq<Msg>)
    requires AsksForTools(r)
    ensures RoundFollows(w, r, messages, messages + RoundMsgs(w, r))
    ensures EventsFollow(w, r, RoundEvents(w, r), 0)
  {
    ToolMsgsAre(w, r.calls);
    ToolEventsAre(w, r.calls);
  }

  /** A run that goes on after its first step. */
  lemma GoesOn(w: World, ys: nat -> Yielded, k: nat, messages: seq<Msg>, step: nat, max: nat)
    requires step <= max && AsksForTools(w.replies(step, messages)) && ys(k) == Fine
    ensures var reply := w.replies(step, messages);
      var r, rest := RunFrom(w, ys, k, messages, step, max),
        RunFrom(w, ys, k + |RoundEvents(w, reply)|, messages + RoundMsgs(w, reply), step + 1, max);
      r == RunOf([messages] + rest.sent, RoundEvents(w, reply) + rest.events, RoundMsgs(w, reply) + rest.tail,
                 rest.status)
  {
  }

  lemma EventsShift(w: World, r: Reply, a: seq<Event>, b: seq<Event>, n: nat)
    requires r.Answer?
    ensures EventsFollow(w, r, b, n) ==> EventsFollow(w, r, a + b, |a| + n)
    ensures EventsFollow(w, r, a, n) ==> EventsFollow(w, r, a + b, n)
  {
    var all := a + b;
    if EventsFollow(w, r, b, n) {
      forall i | 0 <= i < |r.calls|
        ensures Reported(w, r.calls[i], all[|a| + n + 1 + 2 * i], all[|a| + n + 2 + 2 * i])
      {
        assert Reported(w, r.calls[i], b[n + 1 + 2 * i], b[n + 2 + 2 * i]);
      }
    }
  }

  /** Between two requests of a run: the model's answer to the first asked for tools, the
      second is the first with that answer and one message for each call, saying that the
      arguments are no JSON, that the tool is not allowed, or what the tool answered; and
      the same is reported. */
  ghost predicate CallsAnswered(w: World, r: RunOf, step: nat, j: nat)
    requires j + 1 < |r.sent|
  {
    var reply := w.replies(step + j, r.sent[j]);
    && reply.Answer? && reply.finish == "tool_calls" && reply.calls != []
    && RoundFollows(w, reply, r.sent[j], r.sent[j + 1])
    && exists n :: 0 <= n && EventsFollow(w, reply, r.events, n)
  }

  lemma EachCallIsAnswered(w: World, ys: nat -> Yielded, k: nat, messages: seq<Msg>, step: nat, max: nat, j: nat)
    requires j + 1 < |RunFrom(w, ys, k, messages, step, max).sent|
    ensures CallsAnswered(w, RunFrom(w, ys, k, messages, step, max), step, j)
  {
    AllRounds(w, ys, k, messages, step, max);
  }

  ghost predicate RoundsOf(w: World, r: RunOf, step: nat) {
    forall j: nat | j + 1 < |r.sent| :: CallsAnswered(w, r, step, j)
  }

  lemma {:induction false} AllRounds(w: World, ys: nat -> Yielded, k: nat, messages: seq<Msg>, step: nat, max: nat)
    ensures RoundsOf(w, RunFrom(w, ys, k, messages, step, max), step)
    decreases max + 1 - step
  {
    if step <= max {
      var reply := w.replies(step, messages);
      if AsksForTools(reply) && ys(k) == Fine {
        var next, k' := messages + RoundMsgs(w, reply), k + |RoundEvents(w, reply)|;
        AllRounds(w, ys, k', next, step + 1, max);
        GoesOn(w, ys, k, messages, step, max);
        FirstSent(w, ys, k', next, step + 1, max);
        RoundAdded(w, RunFrom(w, ys, k, messages, step, max), RunFrom(w, ys, k', next, step + 1, max), messages, step);
      } else { LastSent(reply, ys, k, messages); }
    }
  }

  lemma RoundAdded(w: World, r: RunOf, rest: RunOf, messages: seq<Msg>, step: nat)
    requires AsksForTools(w.replies(step, messages)) && RoundsOf(w, rest, step + 1)
    requires var reply := w.replies(step, messages);
      && r.sent == [messages] + rest.sent && r.events == RoundEvents(w, reply) + rest.events
      && (rest.sent != [] ==> rest.sent[0] == messages + RoundMsgs(w, reply))
    ensures RoundsOf(w, r, step)
  {
    forall j: nat | j + 1 < |r.sent| ensures CallsAnswered(w, r, step, j) {
      if j == 0 { RoundBegins(w, r, rest, messages, step); }
      else {
        assert CallsAnswered(w, rest, step + 1, j - 1);
        LaterRound(w, r, rest, RoundEvents(w, w.replies(step, messages)), step, j);
      }
    }
  }

  lemma RoundBegins(w: World, r: RunOf, rest: RunOf, messages: seq<Msg>, step: nat)
    requires AsksForTools(w.replies(step, messages)) && rest.sent != []
    requires var reply := w.replies(step, messages);
      && r.sent == [messages] + rest.sent && r.events == RoundEvents(w, reply) + rest.events
      && rest.sent[0] == messages + RoundMsgs(w, reply)
    ensures CallsAnswered(w, r, step, 0)
  {
    var reply := w.replies(step, messages);
    RoundIs(w, reply, messages);
    EventsShift(w, reply, RoundEvents(w, reply), rest.events, 0);
  }

  lemma LaterRound(w: World, r: RunOf, rest: RunOf, es: seq<Event>, step: nat, j: nat)
    requires 0 < j && j < |rest.sent| && CallsAnswered(w, rest, step + 1, j - 1)
    requires |r.sent| == |rest.sent| + 1 && r.sent[1..] == rest.sent && r.events == es + rest.events
    ensures CallsAnswered(w, r, step, j)
  {
    assert r.sent[j] == rest.sent[j - 1] && r.sent[j + 1] == rest.sent[j];
    var reply := w.replies(step + j, r.sent[j]);
    var n: nat :| EventsFollow(w, reply, rest.events, n);
    EventsShift(w, reply, es, rest.events, n);
  }

  /** A run begins by sending what it was given, if it may send at all. */
  lemma FirstSent(w: World, ys: nat -> Yielded, k: nat, messages: seq<Msg>, step: nat, max: nat)
    ensures var sent := RunFrom(w, ys, k, messages, step, max).sent;
      if step > max then sent == [] else sent != [] && sent[0] == messages
  {
  }

  /** A run makes at most the requests it may, and all of them if it ends at the limit. */
  lemma {:induction false} RequestsWithinLimit(w: World, ys: nat -> Yielded, k: nat, messages: seq<Msg>, step: nat,
                                               max: nat)
    requires step <= max + 1
    ensures var r := RunFrom(w, ys, k, messages, step, max);
      |r.sent| <= max + 1 - step && (r.status == MaxSteps ==> |r.sent| == max + 1 - step)
    decreases max + 1 - step
  {
    if step <= max {
      var reply := w.replies(step, messages);
      if AsksForTools(reply) && ys(k) == Fine {
        RequestsWithinLimit(w, ys, k + |RoundEvents(w, reply)|, messages + RoundMsgs(w, reply), step + 1, max);
      }
    }
  }
}
