/** The rows a run stores, and the conversation they replay to. */
module SessionReplay {
  import opened Workflow
  import opened Conversation

  /** Sequence numbers count up by one. */
  predicate Consecutive(rows: seq<Row>) { forall i | 0 < i < |rows| :: rows[i].seqNo == rows[i - 1].seqNo + 1 }

  /** Whatever becomes of the callbacks, sequence numbers stay consecutive. */
  lemma {:induction false} StaysConsecutive(rows: seq<Row>, es: seq<Event>, ys: nat -> Yielded, k: nat)
    requires Consecutive(rows)
    ensures Consecutive(LoggedAll(rows, es, ys, k)) && rows <= LoggedAll(rows, es, ys, k)
    decreases |es|
  {
    if es != [] { StaysConsecutive(Logged(rows, es[0], ys(k)), es[1..], ys, k + 1); }
  }

  /** What the stored event replays to. */
  function EventMsgs(es: seq<Event>): seq<Msg> {
    if es == [] then []
    else OneEvent(es[0]) + EventMsgs(es[1..])
  }

  lemma {:induction false} EventMsgsConcat(a: seq<Event>, b: seq<Event>)
    ensures EventMsgs(a + b) == EventMsgs(a) + EventMsgs(b)
    decreases |a|
  {
    if a == [] { assert a + b == b; }
    else {
      assert (a + b)[1..] == a[1..] + b;
      EventMsgsConcat(a[1..], b);
    }
  }

  ghost predicate AllFine(ys: nat -> Yielded) { forall k :: ys(k) == Fine }

  lemma ReplayOne(rows: seq<Row>, r: Row)
    ensures Replay(rows + [r]) == Replay(rows) + [ReplayRow(r)]
  {
  }

  /** What one event replays to. */
  function OneEvent(e: Event): seq<Msg> {
    var r := RowFor(e, 0);
    if r.Some? then [ReplayRow(r.value)] else []
  }

  lemma OneLogged(rows: seq<Row>, e: Event, y: Yielded)
    ensures Replay(Logged(rows, e, y)) == Replay(rows) + StoredOne(e, y)
  {
    var row := RowFor(e, NextSeq(rows));
    if row.Some? && y != NotStored { ReplayOne(rows, row.value); } else { assert Replay(rows) + [] == Replay(rows); }
  }

  /** What is stored of the events, the k-th callback coming next, replays to. */
  function StoredMsgs(es: seq<Event>, ys: nat -> Yielded, k: nat): seq<Msg>
    decreases |es|
  {
    if es == [] then [] else StoredOne(es[0], ys(k)) + StoredMsgs(es[1..], ys, k + 1)
  }

  function StoredOne(e: Event, y: Yielded): seq<Msg> { if y == NotStored then [] else OneEvent(e) }

  lemma {:induction false} StoredConcat(a: seq<Event>, b: seq<Event>, ys: nat -> Yielded, k: nat)
    ensures StoredMsgs(a + b, ys, k) == StoredMsgs(a, ys, k) + StoredMsgs(b, ys, k + |a|)
    decreases |a|
  {
    if |a| == 0 { assert a + b == b; }
    else {
      assert (a + b)[1..] == a[1..] + b && (a + b)[0] == a[0];
      StoredConcat(a[1..], b, ys, k + 1);
      Associate(StoredOne(a[0], ys(k)), StoredMsgs(a[1..], ys, k + 1), StoredMsgs(b, ys, k + |a|));
    }
  }

  lemma {:induction false} StoredFine(es: seq<Event>, ys: nat -> Yielded, k: nat)
    requires AllFine(ys)
    ensures StoredMsgs(es, ys, k) == EventMsgs(es)
    decreases |es|
  {
    if es != [] {
      assert ys(k) == Fine;
      StoredFine(es[1..], ys, k + 1);
    }
  }

  lemma {:induction false} LoggedReplays(rows: seq<Row>, es: seq<Event>, ys: nat -> Yielded, k: nat)
    ensures Replay(LoggedAll(rows, es, ys, k)) == Replay(rows) + StoredMsgs(es, ys, k)
    decreases |es|
  {
    if es == [] { assert Replay(rows) + [] == Replay(rows); }
    else {
      var e, rest, rows' := es[0], es[1..], Logged(rows, es[0], ys(k));
      assert LoggedAll(rows, es, ys, k) == LoggedAll(rows', rest, ys, k + 1);
      LoggedReplays(rows', rest, ys, k + 1);
      OneLogged(rows, e, ys(k));
      Associate(Replay(rows), StoredOne(e, ys(k)), StoredMsgs(rest, ys, k + 1));
    }
  }

  lemma Associate(a: seq<Msg>, b: seq<Msg>, c: seq<Msg>)
    ensures a + b + c == a + (b + c)
  {
  }

  // ---- Stored against sent ----

  /** The same message, up to the tool's name and the form an error text is carried in. */
  predicate Similar(w: World, stored: Msg, sent: Msg) {
    && stored.role == sent.role && stored.callId == sent.callId && stored.calls == sent.calls
    && (stored.content == sent.content || (sent.role == ToolRole && sent.content == w.texts.asContent(stored.content)))
  }

  predicate AllSimilar(w: World, stored: seq<Msg>, sent: seq<Msg>) {
    |stored| == |sent| && forall i | 0 <= i < |stored| :: Similar(w, stored[i], sent[i])
  }

  lemma SimilarConcat(w: World, a: seq<Msg>, a': seq<Msg>, b: seq<Msg>, b': seq<Msg>)
    requires AllSimilar(w, a, a') && AllSimilar(w, b, b')
    ensures AllSimilar(w, a + b, a' + b')
  {
  }

  lemma OneToolEvent(w: World, c: ToolCall)
    ensures |EventMsgs(ToolEvents(w, c))| == 1 && Similar(w, EventMsgs(ToolEvents(w, c))[0], ToolMsg(w, c))
    ensures var m := EventMsgs(ToolEvents(w, c))[0]; m.role == ToolRole && m.callId == c.id
  {
    var es := ToolEvents(w, c);
    assert es == [es[0]] + [es[1]] && es[1..] == [es[1]];
    assert EventMsgs(es[1..][1..]) == [];
    assert EventMsgs(es) == EventMsgs(es[1..]);
  }

  lemma FirstAnswered(w: World, calls: seq<ToolCall>, one: seq<Msg>, more: seq<Msg>)
    requires calls != [] && |one| == 1 && Similar(w, one[0], ToolMsg(w, calls[0]))
    requires one[0].role == ToolRole && one[0].callId == calls[0].id
    requires AllSimilar(w, more, ToolMsgs(w, calls[1..])) && Answers(calls[1..], more)
    ensures AllSimilar(w, one + more, ToolMsgs(w, calls)) && Answers(calls, one + more)
  {
    SimilarConcat(w, one, [ToolMsg(w, calls[0])], more, ToolMsgs(w, calls[1..]));
  }

  lemma {:induction false} ToolEventsReplay(w: World, calls: seq<ToolCall>)
    ensures AllSimilar(w, EventMsgs(AllToolEvents(w, calls)), ToolMsgs(w, calls))
    ensures Answers(calls, EventMsgs(AllToolEvents(w, calls)))
    decreases |calls|
  {
    if calls != [] {
      EventMsgsConcat(ToolEvents(w, calls[0]), AllToolEvents(w, calls[1..]));
      OneToolEvent(w, calls[0]);
      ToolEventsReplay(w, calls[1..]);
      FirstAnswered(w, calls, EventMsgs(ToolEvents(w, calls[0])), EventMsgs(AllToolEvents(w, calls[1..])));
    }
  }

  lemma RoundReplays(w: World, r: Reply)
    requires AsksForTools(r)
    ensures var stored := EventMsgs(RoundEvents(w, r));
      AllSimilar(w, stored, RoundMsgs(w, r)) && WellFormed(stored)
  {
    var tools := AllToolEvents(w, r.calls);
    var ev := AssistantEvent(r.content, r.calls, FinishOf(r.finish));
    assert RoundEvents(w, r)[1..] == tools;
    assert EventMsgs(RoundEvents(w, r)) == [AssistantMsg(r.content, r.calls)] + EventMsgs(tools);
    ToolEventsReplay(w, r.calls);
    AnsweredIsWellFormed(r.content, r.calls, EventMsgs(tools));
  }

  /** The row an error leaves at the end of a failed run. */
  function ErrorRows(w: World, r: RunOf): nat { if r.status == LlmFailed || r.status == MaxSteps then 1 else 0 }

  /** The stored events of a run, but for a last error row, are the messages it added. */
  predicate Keeps(w: World, stored: seq<Msg>, r: RunOf) {
    var n := ErrorRows(w, r);
    && n <= |stored|
    && AllSimilar(w, stored[..|stored| - n], r.tail)
    && (n == 1 ==> stored[|stored| - 1].role == System)
  }

  lemma LastStored(w: World, reply: Reply, ys: nat -> Yielded, k: nat, messages: seq<Msg>)
    requires AllFine(ys)
    ensures var r := LastStep(reply, ys, k, messages); var stored := EventMsgs(r.events);
      Keeps(w, stored, r)
  {
    var r := LastStep(reply, ys, k, messages);
    match reply
    case Failed(text) =>
      var e := ErrorEvent(text);
      assert r.events == [e] && [e][1..] == [];
      var m := Msg(System, text, "", "", []);
      assert EventMsgs([e]) == [m];
    case Answer(content, calls, finish) =>
      var ev, fin := AssistantEvent(content, calls, FinishOf(finish)), FinalEvent(content, FinishOf(finish));
      var m := AssistantMsg(content, calls);
      assert r.events == [ev, fin] && [ev, fin][1..] == [fin] && [fin][1..] == [];
      assert EventMsgs([fin]) == [];
      assert EventMsgs([ev, fin]) == [m];
      assert [m][..1] == [m];
  }

  lemma JoinStored(w: World, round: seq<Msg>, sent: seq<Msg>, stored: seq<Msg>, r: RunOf, all: RunOf)
    requires AllSimilar(w, round, sent) && Keeps(w, stored, r) && all.tail == sent + r.tail && all.status == r.status
    ensures Keeps(w, round + stored, all)
  {
    var n := ErrorRows(w, r);
    SimilarConcat(w, round, sent, stored[..|stored| - n], r.tail);
    assert (round + stored)[..|round + stored| - n] == round + stored[..|stored| - n];
  }

  /** What the run stores replays to what it added. */
  ghost predicate Stores(w: World, r: RunOf) { Keeps(w, EventMsgs(r.events), r) }

  lemma {:induction false} RunStored(w: World, ys: nat -> Yielded, k: nat, messages: seq<Msg>, step: nat, max: nat)
    requires AllFine(ys)
    ensures Stores(w, RunFrom(w, ys, k, messages, step, max))
    decreases max + 1 - step
  {
    var reply := w.replies(step, messages);
    if step <= max && AsksForTools(reply) {
      RunStored(w, ys, k + |RoundEvents(w, reply)|, messages + RoundMsgs(w, reply), step + 1, max);
      assert ys(k) == Fine;
      RoundStored(w, reply, RunFrom(w, ys, k + |RoundEvents(w, reply)|, messages + RoundMsgs(w, reply), step + 1, max),
                  RunFrom(w, ys, k, messages, step, max));
    } else { EndStored(w, ys, k, messages, step, max); }
  }

  lemma EndStored(w: World, ys: nat -> Yielded, k: nat, messages: seq<Msg>, step: nat, max: nat)
    requires AllFine(ys) && (step > max || !AsksForTools(w.replies(step, messages)))
    ensures Stores(w, RunFrom(w, ys, k, messages, step, max))
  {
    if step > max {
      LastStored(w, Failed(w.texts.maxSteps), ys, k, messages);
      assert EventMsgs(RunFrom(w, ys, k, messages, step, max).events)
        == EventMsgs(LastStep(Failed(w.texts.maxSteps), ys, k, messages).events);
    } else {
      LastStored(w, w.replies(step, messages), ys, k, messages);
    }
  }

  /** One round before what is stored of the rest. */
  lemma RoundStored(w: World, reply: Reply, rest: RunOf, r: RunOf)
    requires AsksForTools(reply) && Stores(w, rest) && r.status == rest.status
    requires r.events == RoundEvents(w, reply) + rest.events && r.tail == RoundMsgs(w, reply) + rest.tail
    ensures Stores(w, r)
  {
    EventMsgsConcat(RoundEvents(w, reply), rest.events);
    RoundReplays(w, reply);
    JoinStored(w, EventMsgs(RoundEvents(w, reply)), RoundMsgs(w, reply), EventMsgs(rest.events), rest, r);
  }

  // ---- Sending a message ----

  function UserMsg(content: string): Msg { Msg(User, content, "", "", []) }

  function WithUser(rows: seq<Row>, content: string): seq<Row> {
    rows + [Row(NextSeq(rows), User, content, "", [])]
  }

  /** The run a user's message starts: system messages first, then the replayed log. */
  function SendRun(w: World, ys: nat -> Yielded, prefix: seq<Msg>, rows: seq<Row>, content: string, max: nat): RunOf {
    RunFrom(w, ys, 0, prefix + Replay(rows) + [UserMsg(content)], 1, max)
  }

  predicate IsSystem(prefix: seq<Msg>) { forall m | m in prefix :: m.role == System }

  lemma {:induction false} SystemIsWellFormed(prefix: seq<Msg>)
    requires IsSystem(prefix)
    ensures WellFormed(prefix)
    decreases |prefix|
  {
    if prefix != [] {
      assert prefix[0] in prefix;
      forall m | m in prefix[1..] ensures m.role == System { assert m in prefix; }
      SystemIsWellFormed(prefix[1..]);
    }
  }

  lemma OneUser(content: string)
    ensures WellFormed([UserMsg(content)])
  {
    assert [UserMsg(content)][1..] == [];
  }

  /** From a log that replays well-formed, every list sent to the model is well-formed. */
  lemma SendsWellFormed(w: World, ys: nat -> Yielded, prefix: seq<Msg>, rows: seq<Row>, content: string, max: nat)
    requires IsSystem(prefix) && WellFormed(Replay(rows))
    ensures AllWellFormed(SendRun(w, ys, prefix, rows, content, max).sent)
  {
    SystemIsWellFormed(prefix);
    OneUser(content);
    WellFormedConcat(prefix, Replay(rows));
    WellFormedConcat(prefix + Replay(rows), [UserMsg(content)]);
    SentIsWellFormed(w, ys, 0, prefix + Replay(rows) + [UserMsg(content)], 1, max);
  }

  /** When callbacks succeed, the stored rows are numbered consecutively and replay to the
      old conversation, the user's message, the messages the run added (up to error text
      and tool name) and at most one error row. */
  lemma StoredReplaysConversation(w: World, ys: nat -> Yielded, prefix: seq<Msg>, rows: seq<Row>, content: string,
                                  max: nat)
    requires AllFine(ys) && Consecutive(rows)
    ensures var r := SendRun(w, ys, prefix, rows, content, max);
      var rows' := LoggedAll(WithUser(rows, content), r.events, ys, 0);
      var old' := Replay(rows) + [UserMsg(content)];
      && Consecutive(rows') && rows <= rows'
      && old' <= Replay(rows') && Keeps(w, Replay(rows')[|old'|..], r)
  {
    var r := SendRun(w, ys, prefix, rows, content, max);
    var rows1, old' := WithUser(rows, content), Replay(rows) + [UserMsg(content)];
    assert prefix + Replay(rows) + [UserMsg(content)] == prefix + old';
    StaysConsecutive(rows1, r.events, ys, 0);
    ReplayOne(rows, Row(NextSeq(rows), User, content, "", []));
    LoggedReplays(rows1, r.events, ys, 0);
    StoredFine(r.events, ys, 0);
    RunStored(w, ys, 0, prefix + old', 1, max);
    assert Replay(LoggedAll(rows1, r.events, ys, 0))[|old'|..] == EventMsgs(r.events);
  }

  // ---- When the log stays well-formed ----

  /** The callback of the j-th tool result of a round whose assistant message is the k-th. */
  predicate ResultStored(ys: nat -> Yielded, k: nat, j: nat) { ys(k + 2 + 2 * j) != NotStored }

  predicate ResultsStored(ys: nat -> Yielded, k: nat, n: nat) { forall j | 0 <= j < n :: ResultStored(ys, k, j) }

  /** Every stored assistant row with calls comes from a reply that says by its finish
      reason that it calls tools, its callback succeeds, and each of its tool results is
      stored, though the callback may fail after that. */
  predicate Disciplined(w: World, ys: nat -> Yielded, k: nat, messages: seq<Msg>, step: nat, max: nat)
    decreases max + 1 - step
  {
    step <= max ==>
      var reply := w.replies(step, messages);
      reply.Answer? && reply.calls != [] && ys(k) != NotStored ==>
        && AsksForTools(reply) && ys(k) == Fine && ResultsStored(ys, k, |reply.calls|)
        && Disciplined(w, ys, k + |RoundEvents(w, reply)|, messages + RoundMsgs(w, reply), step + 1, max)
  }

  /** The tool results stored of a round: all of them, or too few. */
  predicate OnlyTools(msgs: seq<Msg>) { forall m | m in msgs :: m.role == ToolRole }

  lemma {:induction false} ToolsStored(w: World, calls: seq<ToolCall>, ys: nat -> Yielded, k: nat)
    ensures var stored := StoredMsgs(AllToolEvents(w, calls), ys, k + 1);
      && OnlyTools(stored) && |stored| <= |calls|
      && (ResultsStored(ys, k, |calls|) ==> Answers(calls, stored))
      && (!ResultsStored(ys, k, |calls|) ==> |stored| < |calls|)
    ensures |AllToolEvents(w, calls)| == 2 * |calls|
    decreases |calls|
  {
    if calls != [] {
      var es, rest := ToolEvents(w, calls[0]), AllToolEvents(w, calls[1..]);
      StoredConcat(es, rest, ys, k + 1);
      OneToolStored(w, calls[0], ys, k);
      ToolsStored(w, calls[1..], ys, k + 2);
      ResultsOnward(ys, k, |calls|);
    }
  }

  lemma ResultsOnward(ys: nat -> Yielded, k: nat, n: nat)
    requires n > 0
    ensures ResultsStored(ys, k, n) <==> ys(k + 2) != NotStored && ResultsStored(ys, k + 2, n - 1)
  {
    if ys(k + 2) != NotStored && ResultsStored(ys, k + 2, n - 1) {
      forall j | 0 <= j < n ensures ResultStored(ys, k, j) {
        if j > 0 { assert ResultStored(ys, k + 2, j - 1); }
      }
    }
    if ResultsStored(ys, k, n) {
      assert ResultStored(ys, k, 0);
      var k' := k + 2;
      forall j | 0 <= j < n - 1 ensures ResultStored(ys, k', j) { assert ResultStored(ys, k, j + 1); }
    }
  }

  lemma OneToolStored(w: World, c: ToolCall, ys: nat -> Yielded, k: nat)
    ensures |ToolEvents(w, c)| == 2
    ensures var stored := StoredMsgs(ToolEvents(w, c), ys, k + 1);
      if ys(k + 2) == NotStored then stored == []
      else |stored| == 1 && stored[0].role == ToolRole && stored[0].callId == c.id
  {
    var es := ToolEvents(w, c);
    assert es[1..] == [es[1]] && es[1..][1..] == [];
    assert StoredMsgs(es[1..], ys, k + 2) == StoredOne(es[1], ys(k + 2)) + [];
    assert StoredMsgs(es, ys, k + 1) == StoredOne(es[0], ys(k + 1)) + StoredMsgs(es[1..], ys, k + 2);
    assert StoredOne(es[0], ys(k + 1)) == [];
  }

  /** What is stored of a run begins with no tool result. */
  lemma RunBegins(w: World, ys: nat -> Yielded, k: nat, messages: seq<Msg>, step: nat, max: nat)
    ensures var stored := StoredMsgs(RunFrom(w, ys, k, messages, step, max).events, ys, k);
      stored != [] ==> stored[0].role != ToolRole
  {
    var es := RunFrom(w, ys, k, messages, step, max).events;
    assert es != [] && (es[0].AssistantEvent? || es[0].ErrorEvent?);
    assert StoredMsgs(es, ys, k) == StoredOne(es[0], ys(k)) + StoredMsgs(es[1..], ys, k + 1);
    if ys(k) == NotStored { assert es[1..] == []; }
  }

  /** With too few results before the next message, the calls are not answered. */
  lemma TooFew(m: Msg, results: seq<Msg>, rest: seq<Msg>)
    requires m.role == Assistant && OnlyTools(results) && |results| < |m.calls|
      && (rest != [] ==> rest[0].role != ToolRole)
    ensures !WellFormed([m] + results + rest)
  {
    var all, n := [m] + results + rest, |m.calls|;
    assert all[0] == m;
    if n < |all| {
      assert all[1..n + 1][|results|] == all[1 + |results|] == rest[0];
      assert !Answers(m.calls, all[1..n + 1]);
    }
  }

  lemma OneMessage(m: Msg)
    requires m.role != ToolRole
    ensures WellFormed([m]) <==> (m.role == Assistant ==> m.calls == [])
  {
    assert [m][1..] == [];
  }

  lemma LastDisciplined(w: World, reply: Reply, ys: nat -> Yielded, k: nat, messages: seq<Msg>)
    ensures var es := LastStep(reply, ys, k, messages).events;
      WellFormed(StoredMsgs(es, ys, k)) <==> (reply.Answer? && ys(k) != NotStored ==> reply.calls == [])
  {
    var es := LastStep(reply, ys, k, messages).events;
    assert StoredMsgs(es[1..], ys, k + 1) == [] by {
      if |es| > 1 { assert es[1..][1..] == []; }
    }
    assert StoredMsgs(es, ys, k) == StoredOne(es[0], ys(k));
    match reply
    case Failed(text) => OneMessage(Msg(System, text, "", "", []));
    case Answer(content, calls, _) => OneMessage(AssistantMsg(content, calls));
  }

  lemma RoundSplits(w: World, ys: nat -> Yielded, k: nat, reply: Reply, rest: seq<Event>)
    requires AsksForTools(reply) && ys(k) == Fine
    ensures StoredMsgs(RoundEvents(w, reply) + rest, ys, k)
      == [AssistantMsg(reply.content, reply.calls)] + StoredMsgs(AllToolEvents(w, reply.calls), ys, k + 1)
         + StoredMsgs(rest, ys, k + |RoundEvents(w, reply)|)
  {
    var ev, round := AssistantEvent(reply.content, reply.calls, FinishOf(reply.finish)), RoundEvents(w, reply);
    StoredConcat(round, rest, ys, k);
    var tools := AllToolEvents(w, reply.calls);
    assert round == [ev] + tools && round[1..] == tools && round[0] == ev;
    assert StoredOne(ev, ys(k)) == [AssistantMsg(reply.content, reply.calls)];
    assert StoredMsgs(round, ys, k) == StoredOne(ev, ys(k)) + StoredMsgs(tools, ys, k + 1);
  }

  lemma RoundDisciplined(w: World, ys: nat -> Yielded, k: nat, reply: Reply, rest: seq<Event>, all: seq<Event>)
    requires AsksForTools(reply) && ys(k) == Fine && all == RoundEvents(w, reply) + rest
    requires var stored := StoredMsgs(rest, ys, k + |RoundEvents(w, reply)|);
      stored != [] ==> stored[0].role != ToolRole
    ensures WellFormed(StoredMsgs(all, ys, k))
      <==> ResultsStored(ys, k, |reply.calls|) && WellFormed(StoredMsgs(rest, ys, k + |RoundEvents(w, reply)|))
  {
    var m := AssistantMsg(reply.content, reply.calls);
    var results := StoredMsgs(AllToolEvents(w, reply.calls), ys, k + 1);
    var after := StoredMsgs(rest, ys, k + |RoundEvents(w, reply)|);
    RoundSplits(w, ys, k, reply, rest);
    ToolsStored(w, reply.calls, ys, k);
    if ResultsStored(ys, k, |reply.calls|) {
      AnsweredIsWellFormed(reply.content, reply.calls, results);
      WellFormedConcat([m] + results, after);
    } else {
      TooFew(m, results, after);
    }
  }

  /** What is stored from here on is well-formed exactly when the run is disciplined. */
  predicate Agrees(w: World, ys: nat -> Yielded, k: nat, messages: seq<Msg>, step: nat, max: nat) {
    WellFormed(StoredMsgs(RunFrom(w, ys, k, messages, step, max).events, ys, k))
    <==> Disciplined(w, ys, k, messages, step, max)
  }

  lemma {:induction false} RunDisciplined(w: World, ys: nat -> Yielded, k: nat, messages: seq<Msg>, step: nat, max: nat)
    ensures Agrees(w, ys, k, messages, step, max)
    decreases max + 1 - step
  {
    if step <= max && AsksForTools(w.replies(step, messages)) && ys(k) == Fine {
      var reply := w.replies(step, messages);
      RunDisciplined(w, ys, k + |RoundEvents(w, reply)|, messages + RoundMsgs(w, reply), step + 1, max);
      StepDisciplined(w, ys, k, messages, step, max);
    } else {
      EndDisciplined(w, ys, k, messages, step, max);
    }
  }

  /** A round, when the rest of the run is as claimed. */
  lemma StepDisciplined(w: World, ys: nat -> Yielded, k: nat, messages: seq<Msg>, step: nat, max: nat)
    requires step <= max && AsksForTools(w.replies(step, messages)) && ys(k) == Fine
    requires var reply := w.replies(step, messages);
      var k', next := k + |RoundEvents(w, reply)|, messages + RoundMsgs(w, reply);
      Agrees(w, ys, k', next, step + 1, max)
    ensures Agrees(w, ys, k, messages, step, max)
  {
    var reply := w.replies(step, messages);
    var k', next := k + |RoundEvents(w, reply)|, messages + RoundMsgs(w, reply);
    RunBegins(w, ys, k', next, step + 1, max);
    RoundUnfolds(w, ys, k, messages, step, max);
    var rest, all := RunFrom(w, ys, k', next, step + 1, max).events, RunFrom(w, ys, k, messages, step, max).events;
    RoundAgrees(w, ys, k, reply, rest, all, Disciplined(w, ys, k', next, step + 1, max),
                Disciplined(w, ys, k, messages, step, max));
  }

  lemma RoundAgrees(w: World, ys: nat -> Yielded, k: nat, reply: Reply, rest: seq<Event>, all: seq<Event>, ok: bool,
                    allOk: bool)
    requires AsksForTools(reply) && ys(k) == Fine && all == RoundEvents(w, reply) + rest
    requires var stored := StoredMsgs(rest, ys, k + |RoundEvents(w, reply)|);
      (stored != [] ==> stored[0].role != ToolRole) && (WellFormed(stored) <==> ok)
    requires allOk <==> ResultsStored(ys, k, |reply.calls|) && ok
    ensures WellFormed(StoredMsgs(all, ys, k)) <==> allOk
  {
    RoundDisciplined(w, ys, k, reply, rest, all);
  }

  lemma RoundUnfolds(w: World, ys: nat -> Yielded, k: nat, messages: seq<Msg>, step: nat, max: nat)
    requires step <= max && AsksForTools(w.replies(step, messages)) && ys(k) == Fine
    ensures var reply := w.replies(step, messages);
      var k', next := k + |RoundEvents(w, reply)|, messages + RoundMsgs(w, reply);
      && RunFrom(w, ys, k, messages, step, max).events
        == RoundEvents(w, reply) + RunFrom(w, ys, k', next, step + 1, max).events
      && (Disciplined(w, ys, k, messages, step, max)
          <==> ResultsStored(ys, k, |reply.calls|) && Disciplined(w, ys, k', next, step + 1, max))
  {
  }

  lemma EndDisciplined(w: World, ys: nat -> Yielded, k: nat, messages: seq<Msg>, step: nat, max: nat)
    requires step > max || !AsksForTools(w.replies(step, messages)) || ys(k) != Fine
    ensures Agrees(w, ys, k, messages, step, max)
  {
    var reply := if step > max then Failed(w.texts.maxSteps) else w.replies(step, messages);
    assert RunFrom(w, ys, k, messages, step, max).events == LastStep(reply, ys, k, messages).events;
    LastDisciplined(w, reply, ys, k, messages);
  }

  /** Whatever becomes of the callbacks: the log of a message sent over a well-formed log
      replays well-formed exactly when the run was disciplined. */
  lemma LogStaysWellFormedExactly(w: World, ys: nat -> Yielded, prefix: seq<Msg>, rows: seq<Row>, content: string,
                                  max: nat)
    requires WellFormed(Replay(rows))
    ensures var r := SendRun(w, ys, prefix, rows, content, max);
      WellFormed(Replay(LoggedAll(WithUser(rows, content), r.events, ys, 0)))
      <==> Disciplined(w, ys, 0, prefix + Replay(rows) + [UserMsg(content)], 1, max)
  {
    var r := SendRun(w, ys, prefix, rows, content, max);
    var old' := Replay(rows) + [UserMsg(content)];
    ReplayOne(rows, Row(NextSeq(rows), User, content, "", []));
    LoggedReplays(WithUser(rows, content), r.events, ys, 0);
    OneUser(content);
    WellFormedConcat(Replay(rows), [UserMsg(content)]);
    WellFormedConcat(old', StoredMsgs(r.events, ys, 0));
    RunDisciplined(w, ys, 0, prefix + Replay(rows) + [UserMsg(content)], 1, max);
    assert Agrees(w, ys, 0, prefix + Replay(rows) + [UserMsg(content)], 1, max);
  }

  /** A callback that fails after storing an assistant's calls ends the run before they
      are answered; a result that is not stored leaves its call open while the run goes on. */
  lemma AbortLeavesCallsOpen(w: World, ys: nat -> Yielded, prefix: seq<Msg>, rows: seq<Row>, content: string, max: nat)
    requires max >= 1 && WellFormed(Replay(rows)) && (ys(0) == Stored || (ys(0) == Fine && ys(2) == NotStored))
    requires AsksForTools(w.replies(1, prefix + Replay(rows) + [UserMsg(content)]))
    ensures var r := SendRun(w, ys, prefix, rows, content, max);
      !WellFormed(Replay(LoggedAll(WithUser(rows, content), r.events, ys, 0)))
  {
    LogStaysWellFormedExactly(w, ys, prefix, rows, content, max);
    if ys(2) == NotStored { assert !ResultStored(ys, 0, 0); }
  }
}
