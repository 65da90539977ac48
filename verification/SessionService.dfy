/** The agent's loop and sending a message as they are written: messages appended and
    events yielded one by one. */
module SessionService {
  import opened Workflow
  import opened Conversation
  import opened SessionReplay
  import AgentTools

  class AgentEngine {
    const world: World
    const profileSteps: int

    constructor (world: World, profileSteps: int)
      ensures this.world == world && this.profileSteps == profileSteps
    {
      this.world, this.profileSteps := world, profileSteps;
    }

    method RunToolCall(c: ToolCall, log: SessionLog, ghost first: seq<Row>) returns (m: Msg)
      requires log.Follows(first)
      modifies log
      ensures m == ToolMsg(world, c)
      ensures log.Follows(first) && log.yielded == old(log.yielded) + ToolEvents(world, c)
    {
      // the callbacks' errors are ignored here
      var _ := log.Emit(ToolCallEvent(c.id, c.name, c.arguments), first);
      var error, output := "", "";
      var failed := true;
      if c.arguments == "" || !world.validJson(c.arguments) {
        error := world.texts.notJson(c.arguments);
      } else if c.name !in world.allowed {
        error := world.texts.notAllowed(c.name);
      } else {
        var out := world.invoke(c.name, c.arguments);
        match out {
          case Ok(x) => failed, output := false, world.truncate(x);
          case Error(e) => error := e;
        }
      }
      var _ := log.Emit(ToolResultEvent(c.id, c.name, output, error), first);
      m := if failed then Msg(ToolRole, world.texts.asContent(error), c.id, "", [])
        else Msg(ToolRole, output, c.id, c.name, []);
    }

    method RunToolCalls(calls: seq<ToolCall>, messages: seq<Msg>, log: SessionLog, ghost first: seq<Row>)
      returns (messages': seq<Msg>)
      requires log.Follows(first)
      modifies log
      ensures messages' == messages + ToolMsgs(world, calls)
      ensures log.Follows(first) && log.yielded == old(log.yielded) + AllToolEvents(world, calls)
    {
      messages' := messages;
      var i := 0;
      while i < |calls|
        invariant i <= |calls| && log.Follows(first)
        invariant messages' + ToolMsgs(world, calls[i..]) == messages + ToolMsgs(world, calls)
        invariant log.yielded + AllToolEvents(world, calls[i..]) == old(log.yielded) + AllToolEvents(world, calls)
      {
        assert calls[i..][0] == calls[i] && calls[i..][1..] == calls[i + 1..];
        var m := RunToolCall(calls[i], log, first);
        messages' := messages' + [m];
        i := i + 1;
      }
    }

    method Run(prefix: seq<Msg>, input: seq<Msg>, max: nat, log: SessionLog, ghost first: seq<Row>)
      returns (status: Status, sent: seq<seq<Msg>>)
      requires log.yielded == [] && log.Follows(first)
      modifies log
      ensures var r := RunFrom(world, log.ys, 0, prefix + input, 1, max);
        status == r.status && sent == r.sent && log.yielded == r.events && log.Follows(first)
    {
      var messages := prefix + input;
      sent := [];
      ghost var all := RunFrom(world, log.ys, 0, messages, 1, max);
      var step := 1;
      while step <= max
        invariant 1 <= step <= max + 1 && log.Follows(first)
        invariant var rest := RunFrom(world, log.ys, |log.yielded|, messages, step, max);
          log.yielded + rest.events == all.events && rest.status == all.status && sent + rest.sent == all.sent
      {
        sent := sent + [messages];
        var done;
        done, status, messages := Step(messages, step, max, log, first);
        if done { return; }
        step := step + 1;
      }
      var _ := log.Emit(ErrorEvent(world.texts.maxSteps), first);
      status := MaxSteps;
    }

    /** One round: ask the model, then end the run or answer its calls. */
    method Step(messages: seq<Msg>, step: nat, ghost max: nat, log: SessionLog, ghost first: seq<Row>)
      returns (done: bool, status: Status, messages': seq<Msg>)
      requires step <= max && log.Follows(first)
      modifies log
      ensures log.Follows(first)
      ensures var r := RunFrom(world, log.ys, |old(log.yielded)|, messages, step, max);
        if done then status == r.status && r.sent == [messages] && log.yielded == old(log.yielded) + r.events
        else
          var rest := RunFrom(world, log.ys, |log.yielded|, messages', step + 1, max);
          && rest.status == r.status && r.sent == [messages] + rest.sent
          && log.yielded + rest.events == old(log.yielded) + r.events
    {
      ghost var k := |log.yielded|;
      var reply := world.replies(step, messages);
      Rounds(world, log.ys, k, messages, step, max);
      if reply.Failed? || reply.finish != "tool_calls" || reply.calls == [] {
        status := End(reply, messages, log, first);
        return true, status, messages;
      }
      done, messages' := Round(reply, messages, log, first);
      status := Aborted;
      if !done {
        ghost var rest := RunFrom(world, log.ys, |log.yielded|, messages', step + 1, max);
        Reassociated(old(log.yielded), RoundEvents(world, reply), rest.events);
      }
    }

    /** An error, or an answer that asks for no tools. */
    method End(reply: Reply, ghost messages: seq<Msg>, log: SessionLog, ghost first: seq<Row>) returns (status: Status)
      requires !AsksForTools(reply) && log.Follows(first)
      modifies log
      ensures var r := LastStep(reply, log.ys, |old(log.yielded)|, messages);
        status == r.status && log.yielded == old(log.yielded) + r.events
      ensures log.Follows(first)
    {
      if reply.Failed? {
        var _ := log.Emit(ErrorEvent(reply.text), first);
        return LlmFailed;
      }
      var finish := if reply.finish == "" then "stop" else reply.finish;
      var ok := log.Emit(AssistantEvent(reply.content, reply.calls, finish), first);
      if !ok { return Aborted; }
      ok := log.Emit(FinalEvent(reply.content, finish), first);
      status := if ok then Stopped else Aborted;
    }

    /** An answer that asks for tools: each call is answered, whatever becomes of it. */
    method Round(reply: Reply, messages: seq<Msg>, log: SessionLog, ghost first: seq<Row>)
      returns (aborted: bool, messages': seq<Msg>)
      requires AsksForTools(reply) && log.Follows(first)
      modifies log
      ensures log.Follows(first) && (aborted <==> log.ys(|old(log.yielded)|) != Fine)
      ensures aborted ==>
        log.yielded == old(log.yielded) + [AssistantEvent(reply.content, reply.calls, FinishOf(reply.finish))]
      ensures !aborted ==> messages' == messages + RoundMsgs(world, reply)
      ensures !aborted ==> log.yielded == old(log.yielded) + RoundEvents(world, reply)
    {
      messages' := messages;
      var ok := log.Emit(AssistantEvent(reply.content, reply.calls, reply.finish), first);
      if !ok { return true, messages; }
      messages' := messages + [AssistantMsg(reply.content, reply.calls)];
      messages' := RunToolCalls(reply.calls, messages', log, first);
      aborted := false;
    }
  }

  lemma Reassociated<T>(a: seq<T>, b: seq<T>, c: seq<T>)
    ensures a + b + c == a + (b + c)
  {
  }

  /** What a run is, one round at a time. */
  lemma Rounds(w: World, ys: nat -> Yielded, k: nat, messages: seq<Msg>, step: nat, max: nat)
    requires step <= max
    ensures var reply, r := w.replies(step, messages), RunFrom(w, ys, k, messages, step, max);
      if !AsksForTools(reply) || ys(k) != Fine then r == LastStep(reply, ys, k, messages)
      else
        var rest := RunFrom(w, ys, k + |RoundEvents(w, reply)|, messages + RoundMsgs(w, reply), step + 1, max);
        && r.sent == [messages] + rest.sent && r.events == RoundEvents(w, reply) + rest.events
        && r.status == rest.status
  {
  }

  /** The step limit: the caller's, the profile's, or 16. */
  function StepLimit(asked: int, profile: int): nat { if asked > 0 then asked else if profile > 0 then profile else 16 }

  /** A message costs at most as many requests to the model as the caller asks for, else the
      profile, else 16; all of them when the run ends at the limit. */
  lemma RequestsOfAMessage(w: World, ys: nat -> Yielded, prefix: seq<Msg>, rows: seq<Row>, content: string, asked: int,
                           profile: int)
    ensures var r := SendRun(w, ys, prefix, rows, content, StepLimit(asked, profile));
      var most := if asked > 0 then asked else if profile > 0 then profile else 16;
      |r.sent| <= most && (r.status == MaxSteps ==> |r.sent| == most)
  {
    AgentTools.RequestsWithinLimit(w, ys, 0, prefix + Replay(rows) + [UserMsg(content)], 1, StepLimit(asked, profile));
  }

  datatype Sent = Refused | Sent(status: Status)

  /** Stores the user's message, then runs the agent over the replayed log. */
  method SendMessage(engine: AgentEngine, log: SessionLog, prefix: seq<Msg>, content: string, archived: bool,
                     asked: int)
    returns (result: Sent)
    requires log.yielded == []
    modifies log
    ensures result.Refused? <==> content == "" || archived
    ensures result.Refused? ==> log.rows == old(log.rows)
    ensures result.Sent? ==>
      var r := SendRun(engine.world, log.ys, prefix, old(log.rows), content, StepLimit(asked, engine.profileSteps));
      result.status == r.status && log.rows == LoggedAll(WithUser(old(log.rows), content), r.events, log.ys, 0)
  {
    if content == "" || archived { return Refused; }
    var history := log.rows;
    log.rows := log.rows + [Row(NextSeq(log.rows), User, content, "", [])];
    var messages := HistoryToChatMessages(history);
    messages := messages + [UserMsg(content)];
    assert prefix + messages == prefix + Replay(history) + [UserMsg(content)];
    var status, _ := engine.Run(prefix, messages, StepLimit(asked, engine.profileSteps), log, log.rows);
    result := Sent(status);
  }

  method HistoryToChatMessages(history: seq<Row>) returns (out: seq<Msg>)
    ensures out == Replay(history)
  {
    out := [];
    var i := 0;
    while i < |history|
      invariant i <= |history| && out == Replay(history[..i])
    {
      var m := history[i];
      var cm := Msg(m.role, m.content, "", "", []);
      if m.role == ToolRole { cm := cm.(callId := m.callId); }
      else if m.role == Assistant { cm := cm.(calls := m.calls); }
      out := out + [cm];
      assert history[..i + 1] == history[..i] + [m];
      ReplayOne(history[..i], m);
      i := i + 1;
    }
    assert history[..i] == history;
  }
}
