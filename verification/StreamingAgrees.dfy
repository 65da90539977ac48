/** When streaming an answer and converting it whole give the same message. */
module StreamingAgrees {
  import opened Workflow
  import opened Streaming

  /** A block of an answer; the input of a tool is JSON text. */
  datatype Block = Text(text: string) | ToolUse(id: string, name: string, input: string) | Other

  /** How a marshaller writes JSON text again: compacted, some characters escaped. */
  type Marshal = string -> string

  function ContentOf(blocks: seq<Block>): string {
    if blocks == [] then "" else (if blocks[0].Text? then blocks[0].text else "") + ContentOf(blocks[1..])
  }

  function CallOf(marshal: Marshal, b: Block): ToolCall
    requires b.ToolUse?
  {
    ToolCall(b.id, "function", b.name, marshal(b.input))
  }

  function CallsOf(marshal: Marshal, blocks: seq<Block>): seq<ToolCall> {
    if blocks == [] then []
    else (if blocks[0].ToolUse? then [CallOf(marshal, blocks[0])] else []) + CallsOf(marshal, blocks[1..])
  }

  method FromAnthropicResp(marshal: Marshal, blocks: seq<Block>, stopReason: string) returns (m: Message)
    ensures m == Message(ContentOf(blocks), CallsOf(marshal, blocks), MapStopReason(stopReason))
    ensures Says(m.finish, stopReason)
  {
    var content, calls := "", [];
    var i := 0;
    while i < |blocks|
      invariant i <= |blocks|
      invariant content + ContentOf(blocks[i..]) == ContentOf(blocks)
      invariant calls + CallsOf(marshal, blocks[i..]) == CallsOf(marshal, blocks)
    {
      var b := blocks[i];
      NextBlock(marshal, blocks, i, content, calls);
      match b {
        case Text(text) => content := content + text;
        case ToolUse(_, _, _) => calls := calls + [CallOf(marshal, b)];
        case Other =>
      }
      i := i + 1;
    }
    m := Message(content, calls, MapStopReason(stopReason));
  }

  lemma NextBlock(marshal: Marshal, blocks: seq<Block>, i: nat, content: string, calls: seq<ToolCall>)
    requires i < |blocks|
    ensures var b := blocks[i];
      && content + ContentOf(blocks[i..])
        == (if b.Text? then content + b.text else content) + ContentOf(blocks[i + 1..])
      && calls + CallsOf(marshal, blocks[i..])
         == (if b.ToolUse? then calls + [CallOf(marshal, b)] else calls) + CallsOf(marshal, blocks[i + 1..])
  {
    var b, rest := blocks[i], blocks[i + 1..];
    assert blocks[i..][0] == b && blocks[i..][1..] == rest;
    if b.Text? { assert content + (b.text + ContentOf(rest)) == content + b.text + ContentOf(rest); }
    else { assert "" + ContentOf(rest) == ContentOf(rest); }
    var more := CallsOf(marshal, rest);
    if b.ToolUse? { assert calls + ([CallOf(marshal, b)] + more) == calls + [CallOf(marshal, b)] + more; }
    else { assert [] + more == more; }
  }

  /** A block and the fragments it is streamed in. */
  datatype Piece = Piece(block: Block, fragments: seq<string>)

  function Blocks(pieces: seq<Piece>): seq<Block> {
    seq(|pieces|, i requires 0 <= i < |pieces| => pieces[i].block)
  }

  /** The text and the calls the fragments spell. */
  function HeardText(pieces: seq<Piece>): string {
    if pieces == [] then ""
    else (if pieces[0].block.Text? then Concat(pieces[0].fragments) else "") + HeardText(pieces[1..])
  }

  function HeardCall(p: Piece): ToolCall
    requires p.block.ToolUse?
  {
    ToolCall(p.block.id, "function", p.block.name, Concat(p.fragments))
  }

  function HeardCalls(pieces: seq<Piece>): seq<ToolCall> {
    if pieces == [] then []
    else (if pieces[0].block.ToolUse? then [HeardCall(pieces[0])] else []) + HeardCalls(pieces[1..])
  }

  function DeltasOf(b: Block, i: nat, fragments: seq<string>): seq<Event> {
    if fragments == [] || b.Other? then []
    else [if b.Text? then TextDelta(i, fragments[0]) else JsonDelta(i, fragments[0])] + DeltasOf(b, i, fragments[1..])
  }

  function StartOf(b: Block, i: nat): Event {
    match b
    case Text(_) => BlockStart(i, TextBlock, "", "")
    case ToolUse(id, name, _) => BlockStart(i, ToolUseBlock, id, name)
    case Other => BlockStart(i, OtherBlock, "", "")
  }

  function BlockEvents(p: Piece, i: nat): seq<Event> {
    [StartOf(p.block, i)] + DeltasOf(p.block, i, p.fragments) + [BlockStop(i)]
  }

  function BlocksFrom(pieces: seq<Piece>, i: nat): seq<Event> {
    if pieces == [] then [] else BlockEvents(pieces[0], i) + BlocksFrom(pieces[1..], i + 1)
  }

  /** The stream of an answer, block by block. */
  function StreamOf(pieces: seq<Piece>, stopReason: string): seq<Event> {
    [MessageStart] + BlocksFrom(pieces, 0) + [MessageDelta(stopReason), MessageStop]
  }

  /** What a run of events does to a converter and an accumulator. */
  function Fed(s: Conv, m: Message, es: seq<Event>): (Conv, Message) { (After(s, es), AppliedAll(m, Converted(s, es))) }

  lemma FedConcat(s: Conv, m: Message, a: seq<Event>, b: seq<Event>)
    ensures Fed(s, m, a + b) == (var (s', m') := Fed(s, m, a); Fed(s', m', b))
  {
    ConvertedConcat(s, a, b);
    AfterConcat(s, a, b);
    AppliedConcat(m, Converted(s, a), Converted(After(s, a), b));
  }

  lemma FedOne(s: Conv, m: Message, e: Event)
    ensures Fed(s, m, [e]) == (Handled(s, e).0, AppliedAll(m, Handled(s, e).1))
  {
    var rest := [e][1..];
    assert rest == [] && Converted(Handled(s, e).0, rest) == [] && After(Handled(s, e).0, rest) == Handled(s, e).0;
    assert Converted(s, [e]) == Handled(s, e).1 + [] && After(s, [e]) == After(Handled(s, e).0, rest);
    assert Handled(s, e).1 + [] == Handled(s, e).1;
  }

  function Add(m: Message, content: string): Message { m.(content := m.content + content) }

  lemma {:induction false} TextFed(s: Conv, m: Message, b: Block, i: nat, fragments: seq<string>)
    requires b.Text? && i in s.blocks
    ensures Fed(s, m, DeltasOf(b, i, fragments)) == (s, Add(m, Concat(fragments)))
    decreases |fragments|
  {
    if fragments != [] {
      var e, rest := TextDelta(i, fragments[0]), DeltasOf(b, i, fragments[1..]);
      FedConcat(s, m, [e], rest);
      FedOne(s, m, e);
      var c := Choice(fragments[0], [], "");
      assert [c][1..] == [];
      assert AppliedAll(m, [c]) == Applied(m, c) == Add(m, fragments[0]);
      TextFed(s, Add(m, fragments[0]), b, i, fragments[1..]);
      assert m.content + fragments[0] + Concat(fragments[1..]) == m.content + Concat(fragments);
    } else { assert m.content + "" == m.content; }
  }

  lemma {:induction false} JsonFed(s: Conv, m: Message, b: Block, i: nat, fragments: seq<string>)
    requires b.ToolUse? && i in s.blocks
    ensures var buf := s.blocks[i];
      Fed(s, m, DeltasOf(b, i, fragments))
        == (s.(blocks := s.blocks[i := buf.(partial := buf.partial + Concat(fragments))]), m)
    decreases |fragments|
  {
    var buf := s.blocks[i];
    if fragments != [] {
      var e, rest := JsonDelta(i, fragments[0]), DeltasOf(b, i, fragments[1..]);
      FedConcat(s, m, [e], rest);
      FedOne(s, m, e);
      var s' := s.(blocks := s.blocks[i := buf.(partial := buf.partial + fragments[0])]);
      JsonFed(s', m, b, i, fragments[1..]);
      assert buf.partial + fragments[0] + Concat(fragments[1..]) == buf.partial + Concat(fragments);
      assert s'.blocks[i := buf.(partial := buf.partial + Concat(fragments))]
        == s.blocks[i := buf.(partial := buf.partial + Concat(fragments))];
    } else {
      assert buf.partial + "" == buf.partial;
      assert s.blocks[i := buf] == s.blocks;
    }
  }

  /** Tool calls that all arrive under index 0 end up as one. */
  function Merged(calls: seq<ToolCall>): seq<ToolCall> { MergedInto([], calls) }

  function MergedInto(was: seq<ToolCall>, calls: seq<ToolCall>): seq<ToolCall>
    decreases |calls|
  {
    if calls == [] then was else MergedInto(Put(was, Delta(0, calls[0])), calls[1..])
  }

  /** What a block comes to. */
  function Received(m: Message, p: Piece): Message {
    match p.block
    case Text(_) => Add(m, Concat(p.fragments))
    case ToolUse(_, _, _) => m.(calls := Put(m.calls, Delta(0, HeardCall(p))))
    case Other => m
  }

  function AfterBlock(s: Conv, p: Piece, i: nat): Conv {
    match p.block
    case Text(_) => s.(blocks := s.blocks[i := Buf(TextBlock, "", "", "")], roleSent := true)
    case ToolUse(id, name, _) =>
      s.(blocks := s.blocks[i := Buf(ToolUseBlock, id, name, Concat(p.fragments))], roleSent := true)
    case Other => s.(blocks := s.blocks[i := Buf(OtherBlock, "", "", "")], roleSent := true)
  }

  lemma StartFed(s: Conv, m: Message, b: Block, i: nat)
    ensures Fed(s, m, [StartOf(b, i)]) == (Handled(s, StartOf(b, i)).0, m)
  {
    FedOne(s, m, StartOf(b, i));
    assert [Role()][1..] == [];
    assert m.content + "" == m.content;
    assert Applied(m, Role()) == m;
  }

  lemma StopFed(s: Conv, m: Message, i: nat)
    requires i in s.blocks
    ensures var buf := s.blocks[i];
      Fed(s, m, [BlockStop(i)]) == (s, if buf.kind == ToolUseBlock
        then m.(calls := Put(m.calls, Delta(0, ToolCall(buf.id, "function", buf.name, buf.partial)))) else m)
  {
    FedOne(s, m, BlockStop(i));
    var buf := s.blocks[i];
    var d := Delta(0, ToolCall(buf.id, "function", buf.name, buf.partial));
    var c := Choice("", [d], "");
    assert [c][1..] == [] && [d][1..] == [];
    assert m.content + "" == m.content;
    assert PutAll(m.calls, [d]) == Put(m.calls, d);
    assert AppliedAll(m, [c]) == Applied(m, c);
  }

  lemma BlockFed(s: Conv, m: Message, p: Piece, i: nat)
    ensures Fed(s, m, BlockEvents(p, i)) == (AfterBlock(s, p, i), Received(m, p))
  {
    var b, start, ds := p.block, StartOf(p.block, i), DeltasOf(p.block, i, p.fragments);
    FedConcat(s, m, [start] + ds, [BlockStop(i)]);
    FedConcat(s, m, [start], ds);
    StartFed(s, m, b, i);
    var s1 := Handled(s, start).0;
    match b {
      case Text(_) =>
        TextFed(s1, m, b, i, p.fragments);
        StopFed(s1, Add(m, Concat(p.fragments)), i);
      case ToolUse(_, _, _) =>
        JsonFed(s1, m, b, i, p.fragments);
        var s2 := Fed(s1, m, ds).0;
        assert "" + Concat(p.fragments) == Concat(p.fragments);
        StopFed(s2, m, i);
        assert s2.blocks == AfterBlock(s, p, i).blocks;
      case Other =>
        assert Fed(s1, m, ds) == (s1, m);
        StopFed(s1, m, i);
    }
  }

  function ReceivedAll(m: Message, pieces: seq<Piece>): Message
    decreases |pieces|
  {
    if pieces == [] then m else ReceivedAll(Received(m, pieces[0]), pieces[1..])
  }

  lemma {:induction false} BlocksFed(s: Conv, m: Message, pieces: seq<Piece>, i: nat)
    ensures var (s', m') := Fed(s, m, BlocksFrom(pieces, i));
      m' == ReceivedAll(m, pieces) && s'.stopReason == s.stopReason
    decreases |pieces|
  {
    if pieces != [] {
      FedConcat(s, m, BlockEvents(pieces[0], i), BlocksFrom(pieces[1..], i + 1));
      BlockFed(s, m, pieces[0], i);
      BlocksFed(AfterBlock(s, pieces[0], i), Received(m, pieces[0]), pieces[1..], i + 1);
    }
  }

  lemma {:induction false} ReceivedAllIs(m: Message, pieces: seq<Piece>)
    ensures ReceivedAll(m, pieces)
      == Message(m.content + HeardText(pieces), MergedInto(m.calls, HeardCalls(pieces)), m.finish)
    decreases |pieces|
  {
    if pieces != [] {
      ReceivedAllIs(Received(m, pieces[0]), pieces[1..]);
      OneReceived(m, pieces[0], pieces[1..]);
      assert pieces == [pieces[0]] + pieces[1..];
    } else { assert m.content + "" == m.content; }
  }

  lemma OneReceived(m: Message, p: Piece, rest: seq<Piece>)
    ensures Received(m, p).content + HeardText(rest) == m.content + HeardText([p] + rest)
    ensures MergedInto(Received(m, p).calls, HeardCalls(rest)) == MergedInto(m.calls, HeardCalls([p] + rest))
    ensures Received(m, p).finish == m.finish
  {
    var all, b := [p] + rest, p.block;
    assert all[1..] == rest;
    var text := Concat(p.fragments);
    if b.Text? { assert m.content + text + HeardText(rest) == m.content + (text + HeardText(rest)); }
    else { assert "" + HeardText(rest) == HeardText(rest); }
    if b.ToolUse? { assert HeardCalls(all)[0] == HeardCall(p) && HeardCalls(all)[1..] == HeardCalls(rest); }
    else { assert [] + HeardCalls(rest) == HeardCalls(rest); }
  }

  /** Whatever the fragments: streaming gives the text they spell and the finish reason of
      the whole answer, and the tool calls they spell merged into one. */
  lemma StreamMeans(pieces: seq<Piece>, stopReason: string)
    ensures AppliedAll(EMPTY, Converted(INIT, StreamOf(pieces, stopReason)))
      == Message(HeardText(pieces), Merged(HeardCalls(pieces)), MapStopReason(stopReason))
  {
    var es, tail := BlocksFrom(pieces, 0), [MessageDelta(stopReason), MessageStop];
    FedConcat(INIT, EMPTY, [MessageStart] + es, tail);
    FedConcat(INIT, EMPTY, [MessageStart], es);
    FedOne(INIT, EMPTY, MessageStart);
    BlocksFed(INIT, EMPTY, pieces, 0);
    var (s, m) := Fed(INIT, EMPTY, es);
    ReceivedAllIs(EMPTY, pieces);
    assert tail == [MessageDelta(stopReason)] + [MessageStop];
    FedConcat(s, m, [MessageDelta(stopReason)], [MessageStop]);
    FedOne(s, m, MessageDelta(stopReason));
    var s' := s.(stopReason := Or(stopReason, ""));
    FedOne(s', m, MessageStop);
    var c := Choice("", [], MapStopReason(s'.stopReason));
    assert [c][1..] == [];
    assert AppliedAll(m, [c]) == Applied(m, c);
    assert m.content + "" == m.content && "" + HeardText(pieces) == HeardText(pieces);
  }

  lemma {:induction false} MergedLength(was: seq<ToolCall>, calls: seq<ToolCall>)
    requires |was| <= 1
    ensures |MergedInto(was, calls)| == if was == [] && calls == [] then 0 else 1
    decreases |calls|
  {
    if calls != [] {
      ExtendedIs(was, 0);
      MergedLength(Put(was, Delta(0, calls[0])), calls[1..]);
    }
  }

  lemma MergedOne(c: ToolCall)
    requires c.typ == "function"
    ensures Merged([c]) == [c]
  {
    ExtendedIs([], 0);
    assert [c][1..] == [];
    assert "" + c.arguments == c.arguments;
    assert Put([], Delta(0, c)) == [c];
    assert MergedInto([c], []) == [c];
    assert MergedInto([], [c]) == MergedInto(Put([], Delta(0, c)), [c][1..]);
  }

  /** The fragments of a text block spell its text. */
  predicate SpellsText(p: Piece) { p.block.Text? ==> Concat(p.fragments) == p.block.text }

  /** The fragments of a tool block spell its input as the marshaller writes it. */
  predicate SpellsInput(marshal: Marshal, p: Piece) {
    p.block.ToolUse? ==> Concat(p.fragments) == marshal(p.block.input)
  }

  lemma {:induction false} TextHeard(pieces: seq<Piece>)
    requires forall p | p in pieces :: SpellsText(p)
    ensures HeardText(pieces) == ContentOf(Blocks(pieces))
    decreases |pieces|
  {
    if pieces != [] {
      assert pieces[0] in pieces && Blocks(pieces)[1..] == Blocks(pieces[1..]);
      TextHeard(pieces[1..]);
    }
  }

  /** The calls agree one by one exactly when the fragments spell every input. */
  lemma {:induction false} CallsHeard(marshal: Marshal, pieces: seq<Piece>)
    ensures |HeardCalls(pieces)| == |CallsOf(marshal, Blocks(pieces))|
    ensures HeardCalls(pieces) == CallsOf(marshal, Blocks(pieces)) <==>
      forall p | p in pieces :: SpellsInput(marshal, p)
    ensures forall c | c in HeardCalls(pieces) :: c.typ == "function"
    decreases |pieces|
  {
    if pieces != [] {
      var p, rest := pieces[0], pieces[1..];
      assert Blocks(pieces)[1..] == Blocks(rest) && pieces == [p] + rest;
      CallsHeard(marshal, rest);
      var heard, whole := HeardCalls(rest), CallsOf(marshal, Blocks(rest));
      if p.block.ToolUse? {
        assert HeardCalls(pieces) == [HeardCall(p)] + heard
          && CallsOf(marshal, Blocks(pieces)) == [CallOf(marshal, p.block)] + whole;
        SameCons(HeardCall(p), heard, CallOf(marshal, p.block), whole);
      } else {
        assert HeardCalls(pieces) == [] + heard == heard && CallsOf(marshal, Blocks(pieces)) == [] + whole == whole;
      }
      assert (forall q | q in pieces :: SpellsInput(marshal, q))
        <==> SpellsInput(marshal, p) && forall q | q in rest :: SpellsInput(marshal, q);
    }
  }

  lemma SameCons(a: ToolCall, s: seq<ToolCall>, b: ToolCall, t: seq<ToolCall>)
    ensures [a] + s == [b] + t <==> a == b && s == t
  {
    if [a] + s == [b] + t { assert a == ([a] + s)[0] && s == ([a] + s)[1..] && t == ([b] + t)[1..]; }
  }

  /** For any split of the texts into fragments, whatever fragments the inputs arrive in and
      any pings in between: what the accumulator receives is the answer converted whole,
      exactly when the answer uses at most one tool and the fragments spell that tool's
      input the way it is marshalled. */
  lemma StreamAgreesExactly(marshal: Marshal, pieces: seq<Piece>, stopReason: string, es: seq<Event>)
    requires (forall p | p in pieces :: SpellsText(p)) && NoPings(es) == StreamOf(pieces, stopReason)
    ensures AppliedAll(EMPTY, Converted(INIT, es))
        == Message(ContentOf(Blocks(pieces)), CallsOf(marshal, Blocks(pieces)), MapStopReason(stopReason))
      <==> |CallsOf(marshal, Blocks(pieces))| <= 1 && forall p | p in pieces :: SpellsInput(marshal, p)
  {
    PingsIgnored(INIT, es);
    StreamMeans(pieces, stopReason);
    TextHeard(pieces);
    CallsHeard(marshal, pieces);
    var heard := HeardCalls(pieces);
    MergedLength([], heard);
    if |heard| == 1 {
      assert heard == [heard[0]];
      MergedOne(heard[0]);
    }
  }

  /** A tool without input: the stream has no fragments for it, so its arguments are empty
      and are no JSON, where the whole answer has an empty object. */
  lemma EmptyInputDisagrees(marshal: Marshal, id: string, name: string, stopReason: string)
    requires marshal("{}") == "{}"
    ensures var pieces := [Piece(ToolUse(id, name, "{}"), [])];
      && AppliedAll(EMPTY, Converted(INIT, StreamOf(pieces, stopReason))).calls == [ToolCall(id, "function", name, "")]
      && CallsOf(marshal, Blocks(pieces)) == [ToolCall(id, "function", name, "{}")]
  {
    var pieces := [Piece(ToolUse(id, name, "{}"), [])];
    StreamMeans(pieces, stopReason);
    assert pieces[1..] == [] && Blocks(pieces)[1..] == [];
    assert HeardCalls(pieces) == [HeardCall(pieces[0])];
    MergedOne(HeardCall(pieces[0]));
  }
}
