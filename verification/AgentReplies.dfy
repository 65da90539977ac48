/** What a provider's answer makes the agent do: its stop reason decides, streamed or whole. */
module AgentReplies {
  import opened Workflow
  import S = Streaming
  import A = StreamingAgrees
  import opened Conversation
  import opened AgentTools

  // ---- The finish reason of a stream ----

  /** The message an agent receives from a stream. */
  function Received(es: seq<S.Event>): S.Message { S.AppliedAll(S.EMPTY, S.Converted(S.INIT, es)) }

  lemma {:induction false} FinishStays(s: S.Conv, m: S.Message, es: seq<S.Event>)
    requires forall e | e in es :: !e.MessageStop?
    ensures A.Fed(s, m, es).1.finish == m.finish
    decreases |es|
  {
    if |es| > 0 {
      assert es == [es[0]] + es[1..];
      A.FedConcat(s, m, [es[0]], es[1..]);
      var (s', m') := A.Fed(s, m, [es[0]]);
      OneFed(s, m, es[0]);
      FinishStays(s', m', es[1..]);
    }
  }

  lemma OneFed(s: S.Conv, m: S.Message, e: S.Event)
    ensures var (s', m') := A.Fed(s, m, [e]);
      && (!e.MessageStop? ==> m'.finish == m.finish)
      && (!Stops(e) ==> s'.stopReason == s.stopReason) && (Stops(e) ==> s'.stopReason == e.stopReason)
      && (e.MessageStop? ==> S.Says(m'.finish, s.stopReason))
  {
    A.FedOne(s, m, e);
    var cs := S.Handled(s, e).1;
    if cs != [] {
      assert cs[1..] == [] && S.AppliedAll(m, cs) == S.AppliedAll(S.Applied(m, cs[0]), cs[1..]);
    }
  }

  /** An event that gives a stop reason. */
  predicate Stops(e: S.Event) { e.MessageDelta? && e.stopReason != "" }

  lemma {:induction false} ReasonStays(s: S.Conv, m: S.Message, es: seq<S.Event>)
    requires forall e | e in es :: !Stops(e)
    ensures A.Fed(s, m, es).0.stopReason == s.stopReason
    decreases |es|
  {
    if |es| > 0 {
      assert es == [es[0]] + es[1..];
      A.FedConcat(s, m, [es[0]], es[1..]);
      var (s', m') := A.Fed(s, m, [es[0]]);
      OneFed(s, m, es[0]);
      ReasonStays(s', m', es[1..]);
    }
  }

  /** The stop reason given last. */
  ghost predicate LastReason(es: seq<S.Event>, reason: string) {
    if forall e | e in es :: !Stops(e) then reason == ""
    else
      exists d | 0 <= d < |es| ::
        Stops(es[d]) && es[d].stopReason == reason && forall e | e in es[d + 1..] :: !Stops(e)
  }

  lemma ReasonIs(es: seq<S.Event>, reason: string)
    requires LastReason(es, reason)
    ensures A.Fed(S.INIT, S.EMPTY, es).0.stopReason == reason
  {
    if forall e | e in es :: !Stops(e) { ReasonStays(S.INIT, S.EMPTY, es); }
    else {
      var d :| 0 <= d < |es| && Stops(es[d]) && es[d].stopReason == reason
        && forall e | e in es[d + 1..] :: !Stops(e);
      ReasonAt(es, d);
    }
  }

  lemma ReasonAt(es: seq<S.Event>, d: nat)
    requires d < |es| && Stops(es[d]) && forall e | e in es[d + 1..] :: !Stops(e)
    ensures A.Fed(S.INIT, S.EMPTY, es).0.stopReason == es[d].stopReason
  {
    assert es == es[..d] + ([es[d]] + es[d + 1..]);
    var (s, m) := A.Fed(S.INIT, S.EMPTY, es[..d]);
    A.FedConcat(S.INIT, S.EMPTY, es[..d], [es[d]] + es[d + 1..]);
    A.FedConcat(s, m, [es[d]], es[d + 1..]);
    OneFed(s, m, es[d]);
    var (s', m') := A.Fed(s, m, [es[d]]);
    ReasonStays(s', m', es[d + 1..]);
  }

  /** Whatever events arrive: the message finishes for the stop reason given last before the
      last end of message, and for none without an end. */
  lemma ReceivedSays(es: seq<S.Event>, n: nat, reason: string)
    requires n <= |es| && (forall e | e in es[n..] :: !e.MessageStop?)
    ensures n == 0 ==> Received(es).finish == ""
    ensures n > 0 && es[n - 1].MessageStop? && LastReason(es[..n - 1], reason) ==> S.Says(Received(es).finish, reason)
  {
    if n == 0 {
      assert es[n..] == es;
      FinishStays(S.INIT, S.EMPTY, es);
    } else if es[n - 1].MessageStop? && LastReason(es[..n - 1], reason) {
      assert es == es[..n - 1] + ([es[n - 1]] + es[n..]);
      A.FedConcat(S.INIT, S.EMPTY, es[..n - 1], [es[n - 1]] + es[n..]);
      var (s, m) := A.Fed(S.INIT, S.EMPTY, es[..n - 1]);
      ReasonIs(es[..n - 1], reason);
      A.FedConcat(s, m, [es[n - 1]], es[n..]);
      OneFed(s, m, es[n - 1]);
      var (s', m') := A.Fed(s, m, [es[n - 1]]);
      FinishStays(s', m', es[n..]);
    }
  }

  // ---- What the agent does with it ----

  /** The reply of the model, as the agent reads a message. */
  function ReplyOf(m: S.Message): Reply {
    Answer(m.content, seq(|m.calls|, i requires 0 <= i < |m.calls| => CallOf(m.calls[i])), m.finish)
  }

  function CallOf(c: S.ToolCall): ToolCall { ToolCall(c.id, c.name, c.arguments) }

  /** The calls of a reply are answered, and the run goes on if it may. */
  ghost predicate Answered(w: World, r: RunOf, reply: Reply, messages: seq<Msg>, more: bool)
    requires reply.Answer?
  {
    && 1 + |reply.calls| <= |r.tail| && EventsFollow(w, reply, r.events, 0)
    && RoundFollows(w, reply, messages, messages + r.tail[..1 + |reply.calls|])
    && (if more then |r.sent| > 1 && r.sent[1] == messages + r.tail[..1 + |reply.calls|]
        else r.sent == [messages] && r.status == MaxSteps)
  }

  /** The reply is the run's last word. */
  predicate Ends(r: RunOf, reply: Reply, messages: seq<Msg>, ok: bool)
    requires reply.Answer?
  {
    && r.sent == [messages] && r.tail == [Msg(Assistant, reply.content, "", "", reply.calls)]
    && r.events == [AssistantEvent(reply.content, reply.calls, reply.finish), FinalEvent(reply.content, reply.finish)]
    && r.status == if ok then Stopped else Aborted
  }

  /** For a message that says why the provider stopped: the agent answers its calls exactly
      when the provider stopped for its tools and there is at least one call; otherwise the
      message ends the run, calls or not. */
  lemma ReasonDecides(w: World, ys: nat -> Yielded, k: nat, messages: seq<Msg>, step: nat, max: nat, m: S.Message,
                      reason: string)
    requires step <= max && ys(k) == Fine && w.replies(step, messages) == ReplyOf(m) && S.Says(m.finish, reason)
    ensures var r := RunFrom(w, ys, k, messages, step, max);
      if reason == "tool_use" && m.calls != [] then Answered(w, r, ReplyOf(m), messages, step < max)
      else Ends(r, ReplyOf(m), messages, ys(k + 1) == Fine)
  {
    var reply, r := ReplyOf(m), RunFrom(w, ys, k, messages, step, max);
    if reason == "tool_use" && m.calls != [] {
      var next, k' := messages + RoundMsgs(w, reply), k + |RoundEvents(w, reply)|;
      GoesOn(w, ys, k, messages, step, max);
      RoundIs(w, reply, messages);
      FirstSent(w, ys, k', next, step + 1, max);
      var rest := RunFrom(w, ys, k', next, step + 1, max);
      EventsShift(w, reply, RoundEvents(w, reply), rest.events, 0);
      ToolMsgsAre(w, reply.calls);
      assert r.tail[..1 + |reply.calls|] == RoundMsgs(w, reply);
    }
  }

  /** For a stream, pings and all: its calls are answered exactly when it stopped for its
      tools and holds a tool block. */
  lemma StreamedCallsAnswered(w: World, ys: nat -> Yielded, k: nat, messages: seq<Msg>, step: nat, max: nat,
                              pieces: seq<A.Piece>, reason: string, es: seq<S.Event>)
    requires S.NoPings(es) == A.StreamOf(pieces, reason)
    requires step <= max && ys(k) == Fine && w.replies(step, messages) == ReplyOf(Received(es))
    ensures var r, reply := RunFrom(w, ys, k, messages, step, max), ReplyOf(Received(es));
      if reason == "tool_use" && exists p :: p in pieces && p.block.ToolUse? then
        Answered(w, r, reply, messages, step < max)
      else Ends(r, reply, messages, ys(k + 1) == Fine)
  {
    S.PingsIgnored(S.INIT, es);
    A.StreamMeans(pieces, reason);
    var heard := A.HeardCalls(pieces);
    A.MergedLength([], heard);
    SomeHeard(pieces);
    ReasonDecides(w, ys, k, messages, step, max, Received(es), reason);
  }

  lemma {:induction false} SomeHeard(pieces: seq<A.Piece>)
    ensures A.HeardCalls(pieces) != [] <==> exists p :: p in pieces && p.block.ToolUse?
    decreases |pieces|
  {
    if pieces != [] {
      SomeHeard(pieces[1..]);
      assert pieces == [pieces[0]] + pieces[1..];
    }
  }

  /** And for an answer converted whole. */
  lemma WholeCallsAnswered(w: World, ys: nat -> Yielded, k: nat, messages: seq<Msg>, step: nat, max: nat,
                           marshal: A.Marshal, blocks: seq<A.Block>, reason: string)
    requires step <= max && ys(k) == Fine
    requires w.replies(step, messages) == ReplyOf(
      S.Message(A.ContentOf(blocks), A.CallsOf(marshal, blocks), S.MapStopReason(reason)))
    ensures var r, reply := RunFrom(w, ys, k, messages, step, max), w.replies(step, messages);
      if reason == "tool_use" && exists b :: b in blocks && b.ToolUse? then
        Answered(w, r, reply, messages, step < max)
      else Ends(r, reply, messages, ys(k + 1) == Fine)
  {
    var m := S.Message(A.ContentOf(blocks), A.CallsOf(marshal, blocks), S.MapStopReason(reason));
    SomeCalls(marshal, blocks);
    ReasonDecides(w, ys, k, messages, step, max, m, reason);
  }

  lemma {:induction false} SomeCalls(marshal: A.Marshal, blocks: seq<A.Block>)
    ensures A.CallsOf(marshal, blocks) != [] <==> exists b :: b in blocks && b.ToolUse?
    decreases |blocks|
  {
    if blocks != [] {
      SomeCalls(marshal, blocks[1..]);
      assert blocks == [blocks[0]] + blocks[1..];
    }
  }
}
