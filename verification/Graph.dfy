/** The control-flow graph of a document, as the visualiser draws it. */
module Graph {
  import opened Workflow

  datatype Kind = StartNode | EndNode | TriggerNode | StepNode(node: Node)

  datatype Region = Main | ThenOf(r: Region) | ElseOf(r: Region) | BodyOf(r: Region) | BranchOf(r: Region, i: nat)

  datatype GNode = GNode(id: string, kind: Kind, region: Option<Region>)

  datatype EdgeType = Sequential | Branch | ParallelEdge

  datatype Label = NoLabel | TriggerLabel | ThenLabel | ElseLabel | Number(n: nat)

  datatype GEdge = GEdge(src: string, dst: string, typ: EdgeType, tag: Label)

  const START: string := "__start__"
  const END: string := "__end__"

  function TriggerNodeId(id: string): string { "trigger:" + id }

  datatype Doc = Doc(triggers: seq<string>, steps: seq<Step>)

  /** What building a piece of the graph adds, and the nodes control leaves it from. */
  datatype Built = Built(nodes: seq<GNode>, edges: seq<GEdge>, exits: seq<string>)

  function Join(a: Built, b: Built): Built { Built(a.nodes + b.nodes, a.edges + b.edges, b.exits) }

  function Both(a: Built, b: Built): Built { Built(a.nodes + b.nodes, a.edges + b.edges, a.exits + b.exits) }

  function NewEdge(src: string, dst: string, typ: EdgeType, tag: Label): seq<GEdge> {
    if src == "" || dst == "" || src == dst then [] else [GEdge(src, dst, typ, tag)]
  }

  /** One edge from each predecessor. */
  function EdgesTo(preds: seq<string>, dst: string): seq<GEdge> {
    if |preds| == 0 then [] else NewEdge(preds[0], dst, Sequential, NoLabel) + EdgesTo(preds[1..], dst)
  }

  function NodeOf(s: Step, r: Region): GNode { GNode(s.id, StepNode(s.node), Some(r)) }

  function OfSteps(steps: seq<Step>, preds: seq<string>, r: Region): Built
    decreases steps, 0
  {
    if |steps| == 0 then Built([], [], preds)
    else
      var b := OfStep(steps[0], preds, r);
      Join(b, OfSteps(steps[1..], b.exits, r))
  }

  /** What is built so far, and the next step. */
  lemma StepJoined(done: Built, steps: seq<Step>, i: nat, r: Region)
    requires i < |steps|
    ensures var b := OfStep(steps[i], done.exits, r);
      Join(done, OfSteps(steps[i..], done.exits, r)) == Join(Join(done, b), OfSteps(steps[i + 1..], b.exits, r))
  {
    var b := OfStep(steps[i], done.exits, r);
    assert steps[i..][0] == steps[i] && steps[i..][1..] == steps[i + 1..];
    JoinAssociates(done, b, OfSteps(steps[i + 1..], b.exits, r));
  }

  lemma JoinAssociates(a: Built, b: Built, c: Built)
    ensures Join(a, Join(b, c)) == Join(Join(a, b), c)
  {
  }

  function OfStep(s: Step, preds: seq<string>, r: Region): Built
    decreases s, 1
  {
    Join(Built([NodeOf(s, r)], EdgesTo(preds, s.id), [s.id]), Inside(s, r))
  }

  function Inside(s: Step, r: Region): Built
    decreases s, 0
  {
    match s.node
    case If(_, thn, els) =>
      Both(OfBranch(thn, s.id, Branch, ThenLabel, ThenOf(r)), OfBranch(els, s.id, Branch, ElseLabel, ElseOf(r)))
    case Foreach(_, _, body) => OfBranch(body, s.id, Sequential, NoLabel, BodyOf(r))
    case Parallel(branches) => OfBranches(branches, s.id, 0, r)
    case _ => Built([], [], [s.id])
  }

  /** A nested list, its first node reached from `src` by a typed edge. */
  function OfBranch(steps: seq<Step>, src: string, typ: EdgeType, tag: Label, r: Region): Built
    decreases steps, 0
  {
    if |steps| == 0 then Built([], [], [src])
    else
      var s := steps[0];
      var b := Join(Built([NodeOf(s, r)], NewEdge(src, s.id, typ, tag), [s.id]), Inside(s, r));
      Join(b, OfSteps(steps[1..], b.exits, r))
  }

  function OfBranches(branches: seq<Block>, src: string, i: nat, r: Region): Built
    decreases branches, 0
  {
    if |branches| == 0 then Built([], [], [])
    else Both(OfBranch(branches[0].steps, src, ParallelEdge, Number(i + 1), BranchOf(r, i)),
              OfBranches(branches[1..], src, i + 1, r))
  }

  function TriggerNodes(triggers: seq<string>): seq<GNode> {
    seq(|triggers|, i requires 0 <= i < |triggers| => GNode(TriggerNodeId(triggers[i]), TriggerNode, None))
  }

  function TriggerEdges(triggers: seq<string>): seq<GEdge> {
    seq(|triggers|, i requires 0 <= i < |triggers| =>
      GEdge(START, TriggerNodeId(triggers[i]), Sequential, TriggerLabel))
  }

  /** Where runs enter the steps: the start, or the triggers when there are any. */
  function Entries(doc: Doc): seq<string> {
    if doc.triggers == [] then [START]
    else seq(|doc.triggers|, i requires 0 <= i < |doc.triggers| => TriggerNodeId(doc.triggers[i]))
  }

  function GraphOf(doc: Doc): Built {
    var b := OfSteps(doc.steps, Entries(doc), Main);
    Built([GNode(START, StartNode, None)] + TriggerNodes(doc.triggers) + b.nodes + [GNode(END, EndNode, None)],
          TriggerEdges(doc.triggers) + b.edges + EdgesTo(b.exits, END),
          [])
  }

  /** The builder, appending to its nodes and edges as it walks the steps. */
  class GraphBuilder {
    var nodes: seq<GNode>
    var edges: seq<GEdge>

    constructor ()
      ensures nodes == [] && edges == []
    {
      nodes, edges := [], [];
    }

    twostate predicate Added(b: Built)
      reads this
    {
      nodes == old(nodes) + b.nodes && edges == old(edges) + b.edges
    }

    method AddEdge(src: string, dst: string, typ: EdgeType, tag: Label)
      modifies this
      ensures nodes == old(nodes) && edges == old(edges) + NewEdge(src, dst, typ, tag)
    {
      if src == "" || dst == "" || src == dst { return; }
      edges := edges + [GEdge(src, dst, typ, tag)];
    }

    method AddEdgesTo(preds: seq<string>, dst: string)
      modifies this
      ensures nodes == old(nodes) && edges == old(edges) + EdgesTo(preds, dst)
    {
      var i := 0;
      while i < |preds|
        invariant i <= |preds| && nodes == old(nodes)
        invariant edges + EdgesTo(preds[i..], dst) == old(edges) + EdgesTo(preds, dst)
      {
        assert preds[i..][0] == preds[i] && preds[i..][1..] == preds[i + 1..];
        AddEdge(preds[i], dst, Sequential, NoLabel);
        i := i + 1;
      }
    }

    method RunSteps(steps: seq<Step>, preds: seq<string>, r: Region) returns (exits: seq<string>)
      modifies this
      ensures Added(OfSteps(steps, preds, r)) && exits == OfSteps(steps, preds, r).exits
      decreases steps, 3
    {
      exits := preds;
      ghost var done := Built([], [], preds);
      var i := 0;
      while i < |steps|
        invariant i <= |steps| && Added(done) && exits == done.exits
        invariant Join(done, OfSteps(steps[i..], exits, r)) == OfSteps(steps, preds, r)
      {
        StepJoined(done, steps, i, r);
        done := Join(done, OfStep(steps[i], exits, r));
        exits := RunStep(steps[i], exits, r);
        i := i + 1;
      }
    }

    method RunStep(s: Step, preds: seq<string>, r: Region) returns (exits: seq<string>)
      modifies this
      ensures Added(OfStep(s, preds, r)) && exits == OfStep(s, preds, r).exits
      decreases s, 2
    {
      nodes := nodes + [NodeOf(s, r)];
      AddEdgesTo(preds, s.id);
      exits := ControlExits(s, r);
    }

    method ControlExits(s: Step, r: Region) returns (exits: seq<string>)
      modifies this
      ensures Added(Inside(s, r)) && exits == Inside(s, r).exits
      decreases s, 1
    {
      match s.node
      case If(_, thn, els) =>
        exits := RunBranchSteps(thn, s.id, Branch, ThenLabel, ThenOf(r));
        var more := RunBranchSteps(els, s.id, Branch, ElseLabel, ElseOf(r));
        exits := exits + more;
      case Foreach(_, _, body) =>
        exits := RunBranchSteps(body, s.id, Sequential, NoLabel, BodyOf(r));
      case Parallel(branches) =>
        exits := ParallelExits(branches, s.id, r);
      case _ =>
        exits := [s.id];
    }

    method ParallelExits(branches: seq<Block>, src: string, r: Region) returns (exits: seq<string>)
      modifies this
      ensures Added(OfBranches(branches, src, 0, r)) && exits == OfBranches(branches, src, 0, r).exits
      decreases branches, 0
    {
      exits := [];
      var i := 0;
      ghost var all := OfBranches(branches, src, 0, r);
      ghost var rest := all;
      while i < |branches|
        invariant i <= |branches| && rest == OfBranches(branches[i..], src, i, r)
        invariant nodes + rest.nodes == old(nodes) + all.nodes
        invariant edges + rest.edges == old(edges) + all.edges
        invariant exits + rest.exits == all.exits
      {
        assert branches[i..][0] == branches[i] && branches[i..][1..] == branches[i + 1..];
        ghost var one := OfBranch(branches[i].steps, src, ParallelEdge, Number(i + 1), BranchOf(r, i));
        rest := OfBranches(branches[i + 1..], src, i + 1, r);
        assert nodes + one.nodes + rest.nodes == old(nodes) + all.nodes;
        assert edges + one.edges + rest.edges == old(edges) + all.edges;
        var more := RunBranchSteps(branches[i].steps, src, ParallelEdge, Number(i + 1), BranchOf(r, i));
        exits := exits + more;
        i := i + 1;
      }
    }

    method RunBranchSteps(steps: seq<Step>, src: string, typ: EdgeType, tag: Label, r: Region)
      returns (exits: seq<string>)
      modifies this
      ensures Added(OfBranch(steps, src, typ, tag, r)) && exits == OfBranch(steps, src, typ, tag, r).exits
      decreases steps, 3
    {
      if steps == [] { return [src]; }
      ghost var inside := Inside(steps[0], r);
      ghost var rest := OfSteps(steps[1..], inside.exits, r);
      nodes := nodes + [NodeOf(steps[0], r)];
      AddEdge(src, steps[0].id, typ, tag);
      exits := ControlExits(steps[0], r);
      assert nodes == old(nodes) + [NodeOf(steps[0], r)] + inside.nodes;
      exits := RunRest(steps, exits, r);
      assert nodes == old(nodes) + ([NodeOf(steps[0], r)] + inside.nodes + rest.nodes);
    }

    /** The loop over the steps after the first. */
    method RunRest(steps: seq<Step>, preds: seq<string>, r: Region) returns (exits: seq<string>)
      requires steps != []
      modifies this
      ensures Added(OfSteps(steps[1..], preds, r)) && exits == OfSteps(steps[1..], preds, r).exits
      decreases steps, 2
    {
      exits := preds;
      ghost var done := Built([], [], preds);
      var i := 1;
      while i < |steps|
        invariant 1 <= i <= |steps| && Added(done) && exits == done.exits
        invariant Join(done, OfSteps(steps[i..], exits, r)) == OfSteps(steps[1..], preds, r)
      {
        StepJoined(done, steps, i, r);
        done := Join(done, OfStep(steps[i], exits, r));
        exits := RunStep(steps[i], exits, r);
        i := i + 1;
      }
    }
  }

  /** The graph of a parsed document. */
  method GraphFromDoc(doc: Doc) returns (nodes: seq<GNode>, edges: seq<GEdge>)
    ensures nodes == GraphOf(doc).nodes && edges == GraphOf(doc).edges
  {
    var b := new GraphBuilder();
    var preds := [START];
    if doc.triggers != [] {
      preds := [];
      var i := 0;
      while i < |doc.triggers|
        invariant i <= |doc.triggers| && fresh(b)
        invariant b.nodes == TriggerNodes(doc.triggers[..i]) && b.edges == TriggerEdges(doc.triggers[..i])
        invariant |preds| == i && forall k | 0 <= k < i :: preds[k] == TriggerNodeId(doc.triggers[k])
      {
        var id := TriggerNodeId(doc.triggers[i]);
        assert START[0] != id[0];
        b.nodes := b.nodes + [GNode(id, TriggerNode, None)];
        b.AddEdge(START, id, Sequential, TriggerLabel);
        preds := preds + [id];
        assert doc.triggers[..i + 1][..i] == doc.triggers[..i];
        i := i + 1;
      }
      assert doc.triggers[..i] == doc.triggers;
    }
    assert preds == Entries(doc);
    var exits := b.RunSteps(doc.steps, preds, Main);
    b.AddEdgesTo(exits, END);
    nodes := [GNode(START, StartNode, None)] + b.nodes + [GNode(END, EndNode, None)];
    edges := b.edges;
    if doc.triggers == [] { assert TriggerNodes(doc.triggers) == [] && TriggerEdges(doc.triggers) == []; }
  }
}
