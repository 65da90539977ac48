/** Streamed answers: the conversion of the provider's events to chunks, the accumulator of
    chunks, and the conversion of a whole answer they should agree with. */
module Streaming {

  datatype ToolCall = ToolCall(id: string, typ: string, name: string, arguments: string)

  datatype Delta = Delta(index: nat, call: ToolCall)

  /** A chunk of a stream; without a choice it carries nothing. */
  datatype Chunk = NoChoice | Choice(content: string, calls: seq<Delta>, finish: string)

  datatype Message = Message(content: string, calls: seq<ToolCall>, finish: string)

  const BLANK: ToolCall := ToolCall("", "function", "", "")

  function Concat(parts: seq<string>): string { if parts == [] then "" else parts[0] + Concat(parts[1..]) }

  lemma {:induction false} ConcatSplit(a: seq<string>, b: seq<string>)
    ensures Concat(a + b) == Concat(a) + Concat(b)
    decreases |a|
  {
    if a == [] { assert a + b == b; }
    else {
      assert (a + b)[1..] == a[1..] + b;
      ConcatSplit(a[1..], b);
    }
  }

  // ---- The accumulator ----

  function Or(s: string, was: string): string { if s != "" then s else was }

  function Merge(was: ToolCall, d: ToolCall): ToolCall {
    ToolCall(Or(d.id, was.id), Or(d.typ, was.typ), Or(d.name, was.name), was.arguments + d.arguments)
  }

  /** Room for index i. */
  function Extended(calls: seq<ToolCall>, i: nat): (r: seq<ToolCall>)
    ensures |r| > i && |r| >= |calls|
    decreases i + 1 - |calls|
  {
    if |calls| > i then calls else Extended(calls + [BLANK], i)
  }

  function Put(calls: seq<ToolCall>, d: Delta): seq<ToolCall> {
    var r := Extended(calls, d.index);
    r[d.index := Merge(r[d.index], d.call)]
  }

  function PutAll(calls: seq<ToolCall>, ds: seq<Delta>): seq<ToolCall>
    decreases |ds|
  {
    if ds == [] then calls else PutAll(Put(calls, ds[0]), ds[1..])
  }

  function Applied(m: Message, c: Chunk): Message {
    if c.NoChoice? then m
    else Message(m.content + c.content, PutAll(m.calls, c.calls), Or(c.finish, m.finish))
  }

  function AppliedAll(m: Message, cs: seq<Chunk>): Message
    decreases |cs|
  {
    if cs == [] then m else AppliedAll(Applied(m, cs[0]), cs[1..])
  }

  const EMPTY: Message := Message("", [], "")

  class StreamAccum {
    var content: string
    var toolCalls: seq<ToolCall>
    var finishReason: string

    constructor ()
      ensures Now() == EMPTY
    {
      content, toolCalls, finishReason := "", [], "";
    }

    function Now(): Message
      reads this
    {
      Message(content, toolCalls, finishReason)
    }

    method Apply(c: Chunk) returns (textDelta: string)
      modifies this
      ensures Now() == Applied(old(Now()), c)
      ensures content == old(content) + textDelta
    {
      if c.NoChoice? { return ""; }
      textDelta := "";
      if c.content != "" {
        content := content + c.content;
        textDelta := c.content;
      }
      var i := 0;
      while i < |c.calls|
        invariant i <= |c.calls| && content == old(content) + c.content && finishReason == old(finishReason)
        invariant PutAll(toolCalls, c.calls[i..]) == PutAll(old(toolCalls), c.calls)
      {
        assert c.calls[i..][0] == c.calls[i] && c.calls[i..][1..] == c.calls[i + 1..];
        ApplyDelta(c.calls[i]);
        i := i + 1;
      }
      if c.finish != "" { finishReason := c.finish; }
    }

    method ApplyDelta(d: Delta)
      modifies this`toolCalls
      ensures toolCalls == Put(old(toolCalls), d)
    {
      while |toolCalls| <= d.index
        invariant Extended(toolCalls, d.index) == Extended(old(toolCalls), d.index)
        decreases d.index + 1 - |toolCalls|
      {
        toolCalls := toolCalls + [BLANK];
      }
      var tc := toolCalls[d.index];
      if d.call.id != "" { tc := tc.(id := d.call.id); }
      if d.call.typ != "" { tc := tc.(typ := d.call.typ); }
      if d.call.name != "" { tc := tc.(name := d.call.name); }
      toolCalls := toolCalls[d.index := tc.(arguments := tc.arguments + d.call.arguments)];
    }
  }

  // ---- Every index accumulates its own fragments ----

  function Deltas(cs: seq<Chunk>): seq<Delta> {
    if cs == [] then [] else (if cs[0].NoChoice? then [] else cs[0].calls) + Deltas(cs[1..])
  }

  /** The deltas of one index, in order. */
  function At(ds: seq<Delta>, i: nat): seq<ToolCall> {
    if ds == [] then [] else (if ds[0].index == i then [ds[0].call] else []) + At(ds[1..], i)
  }

  function ArgumentsOf(calls: seq<ToolCall>): string {
    if calls == [] then "" else calls[0].arguments + ArgumentsOf(calls[1..])
  }

  /** The last that is not empty, or the default. */
  function LastOf(calls: seq<ToolCall>, part: ToolCall -> string, default: string): string
    decreases |calls|
  {
    if calls == [] then default else LastOf(calls[1..], part, Or(part(calls[0]), default))
  }

  function Collected(was: ToolCall, calls: seq<ToolCall>): ToolCall {
    ToolCall(LastOf(calls, (c: ToolCall) => c.id, was.id), LastOf(calls, (c: ToolCall) => c.typ, was.typ),
             LastOf(calls, (c: ToolCall) => c.name, was.name), was.arguments + ArgumentsOf(calls))
  }

  function CallAt(calls: seq<ToolCall>, i: nat): ToolCall { if i < |calls| then calls[i] else BLANK }

  lemma {:induction false} ExtendedIs(calls: seq<ToolCall>, i: nat)
    ensures var r := Extended(calls, i);
      && |r| == (if |calls| > i then |calls| else i + 1)
      && forall j | 0 <= j < |r| :: r[j] == CallAt(calls, j)
    decreases i + 1 - |calls|
  {
    if |calls| <= i { ExtendedIs(calls + [BLANK], i); }
  }

  lemma {:induction false} PutAllAt(calls: seq<ToolCall>, ds: seq<Delta>, i: nat)
    ensures CallAt(PutAll(calls, ds), i) == Collected(CallAt(calls, i), At(ds, i))
    decreases |ds|
  {
    if ds != [] {
      var d := ds[0];
      ExtendedIs(calls, d.index);
      PutAllAt(Put(calls, d), ds[1..], i);
      if d.index == i {
        assert At(ds, i)[1..] == At(ds[1..], i);
        assert CallAt(Put(calls, d), i) == Merge(CallAt(calls, i), d.call);
      } else {
        assert At(ds, i) == At(ds[1..], i);
      }
    } else { assert CallAt(calls, i).arguments + "" == CallAt(calls, i).arguments; }
  }

  lemma {:induction false} PutAllLength(calls: seq<ToolCall>, ds: seq<Delta>, n: nat)
    ensures |PutAll(calls, ds)| <= n <==> |calls| <= n && forall d | d in ds :: d.index < n
    decreases |ds|
  {
    if ds != [] {
      ExtendedIs(calls, ds[0].index);
      PutAllLength(Put(calls, ds[0]), ds[1..], n);
      assert ds == [ds[0]] + ds[1..];
    }
  }

  lemma {:induction false} PutAllConcat(calls: seq<ToolCall>, a: seq<Delta>, b: seq<Delta>)
    ensures PutAll(calls, a + b) == PutAll(PutAll(calls, a), b)
    decreases |a|
  {
    if a == [] { assert a + b == b; }
    else {
      assert (a + b)[1..] == a[1..] + b;
      PutAllConcat(Put(calls, a[0]), a[1..], b);
    }
  }

  lemma {:induction false} AppliedCalls(m: Message, cs: seq<Chunk>)
    ensures AppliedAll(m, cs).calls == PutAll(m.calls, Deltas(cs))
    decreases |cs|
  {
    if cs != [] {
      AppliedCalls(Applied(m, cs[0]), cs[1..]);
      if cs[0].Choice? { PutAllConcat(m.calls, cs[0].calls, Deltas(cs[1..])); }
      else { assert Deltas(cs) == Deltas(cs[1..]); }
    }
  }

  /** However the indices of deltas interleave, a tool call accumulates the fragments of
      its own index in order, with the last id, type and name given; and there are as many
      calls as the highest index asks for. */
  lemma EachIndexAccumulatesItsOwn(cs: seq<Chunk>, i: nat)
    ensures var calls := AppliedAll(EMPTY, cs).calls;
      && (i < |calls| ==> calls[i] == Collected(BLANK, At(Deltas(cs), i)))
      && (i < |calls| <==> exists d :: d in Deltas(cs) && d.index >= i)
  {
    AppliedCalls(EMPTY, cs);
    PutAllAt([], Deltas(cs), i);
    PutAllLength([], Deltas(cs), i);
  }

  // ---- The provider's stream ----

  datatype BlockKind = TextBlock | ToolUseBlock | OtherBlock

  datatype Event =
    | MessageStart
    | BlockStart(index: nat, kind: BlockKind, id: string, name: string)
    | TextDelta(index: nat, text: string)
    | JsonDelta(index: nat, json: string)
    | BlockStop(index: nat)
    | MessageDelta(stopReason: string)
    | MessageStop
    | Ping

  datatype Buf = Buf(kind: BlockKind, id: string, name: string, partial: string)

  datatype Conv = Conv(stopReason: string, blocks: map<nat, Buf>, roleSent: bool)

  const INIT: Conv := Conv("", map[], false)

  function MapStopReason(a: string): string {
    if a == "max_tokens" then "length" else if a == "tool_use" then "tool_calls" else "stop"
  }

  /** Why the provider stopped, in the words of the caller: for its tools, for want of room,
      or for any other reason. */
  predicate Says(finish: string, reason: string) {
    && (finish == "tool_calls" <==> reason == "tool_use") && (finish == "length" <==> reason == "max_tokens")
    && (finish == "stop" <==> reason != "tool_use" && reason != "max_tokens")
  }

  function Role(): Chunk { Choice("", [], "") }

  function Handled(s: Conv, e: Event): (Conv, seq<Chunk>) {
    match e
    case BlockStart(i, kind, id, name) =>
      (s.(blocks := s.blocks[i := Buf(kind, id, name, "")], roleSent := true), if s.roleSent then [] else [Role()])
    case TextDelta(i, text) => (s, if i in s.blocks then [Choice(text, [], "")] else [])
    case JsonDelta(i, json) =>
      (if i in s.blocks then s.(blocks := s.blocks[i := s.blocks[i].(partial := s.blocks[i].partial + json)])
        else s, [])
    case BlockStop(i) =>
      (s, if i in s.blocks && s.blocks[i].kind == ToolUseBlock
          then [Choice("", [Delta(0, ToolCall(s.blocks[i].id, "function", s.blocks[i].name, s.blocks[i].partial))], "")]
          else [])
    case MessageDelta(reason) => (s.(stopReason := Or(reason, s.stopReason)), [])
    case MessageStop => (s, [Choice("", [], MapStopReason(s.stopReason))])
    case MessageStart => (s, [])
    case Ping => (s, [])
  }

  function Converted(s: Conv, es: seq<Event>): seq<Chunk>
    decreases |es|
  {
    if es == [] then [] else var (s', cs) := Handled(s, es[0]); cs + Converted(s', es[1..])
  }

  function After(s: Conv, es: seq<Event>): Conv
    decreases |es|
  {
    if es == [] then s else After(Handled(s, es[0]).0, es[1..])
  }

  class ClaudeStream {
    var stopReason: string
    var blocks: map<nat, Buf>
    var roleSent: bool

    constructor ()
      ensures Now() == INIT
    {
      stopReason, blocks, roleSent := "", map[], false;
    }

    function Now(): Conv
      reads this
    {
      Conv(stopReason, blocks, roleSent)
    }

    method HandleEvent(e: Event) returns (out: seq<Chunk>)
      modifies this
      ensures (Now(), out) == Handled(old(Now()), e)
    {
      out := [];
      match e
      case BlockStart(i, kind, id, name) =>
        blocks := blocks[i := Buf(kind, id, name, "")];
        if !roleSent {
          roleSent := true;
          out := [Role()];
        }
      case TextDelta(i, text) =>
        if i !in blocks { return; }
        out := [Choice(text, [], "")];
      case JsonDelta(i, json) =>
        if i !in blocks { return; }
        var b := blocks[i];
        blocks := blocks[i := b.(partial := b.partial + json)];
      case BlockStop(i) =>
        if i !in blocks || blocks[i].kind != ToolUseBlock { return; }
        var b := blocks[i];
        out := [Choice("", [Delta(0, ToolCall(b.id, "function", b.name, b.partial))], "")];
      case MessageDelta(reason) =>
        if reason != "" { stopReason := reason; }
      case MessageStop =>
        out := [Choice("", [], MapStopReason(stopReason))];
      case MessageStart =>
      case Ping =>
    }
  }

  /** A whole stream, fed to an accumulator as it comes. */
  method Receive(es: seq<Event>) returns (m: Message)
    ensures m == AppliedAll(EMPTY, Converted(INIT, es))
  {
    var conv := new ClaudeStream();
    var accum := new StreamAccum();
    var i := 0;
    while i < |es|
      invariant i <= |es| && fresh(conv) && fresh(accum)
      invariant AppliedAll(accum.Now(), Converted(conv.Now(), es[i..])) == AppliedAll(EMPTY, Converted(INIT, es))
    {
      assert es[i..][0] == es[i] && es[i..][1..] == es[i + 1..];
      var out := conv.HandleEvent(es[i]);
      ghost var rest := Converted(conv.Now(), es[i + 1..]);
      AppliedConcat(accum.Now(), out, rest);
      if out != [] {
        assert out == [out[0]];
        var _ := accum.Apply(out[0]);
      }
      i := i + 1;
    }
    m := accum.Now();
  }

  lemma {:induction false} AppliedConcat(m: Message, a: seq<Chunk>, b: seq<Chunk>)
    ensures AppliedAll(m, a + b) == AppliedAll(AppliedAll(m, a), b)
    decreases |a|
  {
    if a == [] { assert a + b == b; }
    else {
      assert (a + b)[1..] == a[1..] + b;
      AppliedConcat(Applied(m, a[0]), a[1..], b);
    }
  }

  lemma {:induction false} ConvertedConcat(s: Conv, a: seq<Event>, b: seq<Event>)
    ensures Converted(s, a + b) == Converted(s, a) + Converted(After(s, a), b)
    decreases |a|
  {
    if a == [] { assert a + b == b; }
    else {
      assert (a + b)[1..] == a[1..] + b;
      ConvertedConcat(Handled(s, a[0]).0, a[1..], b);
    }
  }

  lemma {:induction false} AfterConcat(s: Conv, a: seq<Event>, b: seq<Event>)
    ensures After(s, a + b) == After(After(s, a), b)
    decreases |a|
  {
    if a == [] { assert a + b == b; }
    else {
      assert (a + b)[1..] == a[1..] + b;
      AfterConcat(Handled(s, a[0]).0, a[1..], b);
    }
  }

  function NoPings(es: seq<Event>): seq<Event> {
    if es == [] then [] else (if es[0].Ping? then [] else [es[0]]) + NoPings(es[1..])
  }

  lemma {:induction false} PingsIgnored(s: Conv, es: seq<Event>)
    ensures Converted(s, NoPings(es)) == Converted(s, es)
    decreases |es|
  {
    if es != [] {
      PingsIgnored(Handled(s, es[0]).0, es[1..]);
      if es[0].Ping? { assert NoPings(es) == NoPings(es[1..]) && Converted(s, es) == Converted(s, es[1..]); }
      else { assert NoPings(es)[1..] == NoPings(es[1..]); }
    }
  }
}
