/** What the edges of the graph say: which way control goes along each of them, and which
    region each node is drawn in. */
module GraphLabels {
  import opened Workflow
  import opened Validate
  import opened Graph
  import opened GraphShape
  import opened GraphWalks

  /** An edge out of a step, by its kind: labelled by the branch it begins, or plain. */
  predicate Leaves(s: Step, e: GEdge) {
    match s.node
    case If(_, thn, els) =>
      && (e.tag == ThenLabel <==> thn != [] && e.dst == thn[0].id)
      && (e.tag == ElseLabel <==> els != [] && e.dst == els[0].id)
      && (if e.tag == ThenLabel || e.tag == ElseLabel then e.typ == Branch
          else e.typ == Sequential && e.tag == NoLabel)
    case Parallel(branches) =>
      e.typ == ParallelEdge && exists i :: 0 <= i < |branches| && e.tag == Number(i + 1) && Begins(branches[i].steps, e)
    case _ => e.typ == Sequential && e.tag == NoLabel
  }

  predicate Begins(steps: seq<Step>, e: GEdge) { steps != [] && e.dst == steps[0].id }

  /** Every branch of a step is entered by an edge with its label. */
  predicate Drawn(edges: seq<GEdge>, s: Step) {
    match s.node
    case If(_, thn, els) =>
      && (thn != [] ==> GEdge(s.id, thn[0].id, Branch, ThenLabel) in edges)
      && (els != [] ==> GEdge(s.id, els[0].id, Branch, ElseLabel) in edges)
    case Foreach(_, _, body) => body != [] ==> GEdge(s.id, body[0].id, Sequential, NoLabel) in edges
    case Parallel(branches) => forall i | 0 <= i < |branches| :: BranchDrawn(edges, s.id, branches[i].steps, i)
    case _ => true
  }

  predicate BranchDrawn(edges: seq<GEdge>, src: string, steps: seq<Step>, i: nat) {
    steps != [] ==> GEdge(src, steps[0].id, ParallelEdge, Number(i + 1)) in edges
  }

  /** A built piece over steps `all` with ids `ids`. */
  ghost predicate Labelled(b: Built, all: set<Step>, ids: seq<string>, preds: seq<string>) {
    && (forall e | e in b.edges :: e.dst in ids && (e.src in ids || e.src in preds))
    && (forall e, s | e in b.edges && s in all && s.id == e.src :: Leaves(s, e))
    && (forall s | s in all :: Drawn(b.edges, s))
    && (forall x | x in b.exits :: x in ids || x in preds)
    && (forall s | s in all && s.id in b.exits :: !s.node.Parallel?)
  }

  /** The edges from `preds` go to the first step, and are of one kind. */
  predicate HeadEdges(b: Built, preds: seq<string>, first: string, typ: EdgeType, tag: Label) {
    forall e | e in b.edges && e.src in preds :: e.dst == first && e.typ == typ && e.tag == tag
  }

  lemma {:induction false} MoreDrawn(edges: seq<GEdge>, more: seq<GEdge>, s: Step)
    requires Drawn(edges, s) && forall e | e in edges :: e in more
    ensures Drawn(more, s)
  {
    if s.node.Parallel? {
      forall i | 0 <= i < |s.node.branches| ensures BranchDrawn(more, s.id, s.node.branches[i].steps, i) {
        assert BranchDrawn(edges, s.id, s.node.branches[i].steps, i);
      }
    }
  }

  /** Two pieces over different steps, whose edges stay clear of each other's steps. */
  lemma {:induction false} JoinLabelled(a: Built, b: Built, exits: seq<string>, all1: set<Step>, all2: set<Step>,
                     ids1: seq<string>, ids2: seq<string>, preds: seq<string>, mid: seq<string>)
    requires Labelled(a, all1, ids1, preds) && Labelled(b, all2, ids2, mid) && Separate(ids1 + ids2, preds)
    requires (forall s | s in all1 :: s.id in ids1) && (forall s | s in all2 :: s.id in ids2)
    requires forall x | x in mid :: x in ids1 || x in preds
    requires forall s | s in all1 && s.id in mid :: !s.node.Parallel?
    requires forall e, s | e in b.edges && s in all1 && s.id == e.src :: Leaves(s, e)
    requires forall x | x in exits :: x in b.exits || x in a.exits
    ensures Labelled(Built(a.nodes + b.nodes, a.edges + b.edges, exits), all1 + all2, ids1 + ids2, preds)
  {
    SeparateParts(ids1, ids2, preds);
    var edges := a.edges + b.edges;
    forall s | s in all1 + all2 ensures Drawn(edges, s) {
      if s in all1 { MoreDrawn(a.edges, edges, s); } else { MoreDrawn(b.edges, edges, s); }
    }
    forall e, s | e in edges && s in all1 + all2 && s.id == e.src ensures Leaves(s, e) {
      if s in all2 { assert e.src in ids2 && e.src !in ids1 && e.src !in preds; }
    }
  }

  lemma {:induction false} StepsLabelled(steps: seq<Step>, preds: seq<string>, r: Region)
    requires Sound(steps) && Separate(Ids(steps), preds) && preds != [] && "" !in preds
    ensures var b := OfSteps(steps, preds, r);
      && Labelled(b, AllSteps(steps), Ids(steps), preds)
      && (steps != [] ==> HeadEdges(b, preds, steps[0].id, Sequential, NoLabel))
      && (if steps == [] then b.exits == preds else forall x | x in b.exits :: x in Ids(steps))
    decreases steps, 0
  {
    if steps != [] {
      var s := steps[0];
      assert SoundStep(s) by { assert s in steps; }
      SeparateParts(IdsOf(s), Ids(steps[1..]), preds);
      EdgesFrom(preds, s.id);
      HeadedLabelled(s, Built([NodeOf(s, r)], EdgesTo(preds, s.id), [s.id]), preds, r, Sequential, NoLabel);
      RestLabelled(steps, OfStep(s, preds, r), preds, r, Sequential, NoLabel);
    }
  }

  lemma {:induction false} EdgesFrom(preds: seq<string>, dst: string)
    ensures forall e | e in EdgesTo(preds, dst) :: e.src in preds && e == GEdge(e.src, dst, Sequential, NoLabel)
    decreases |preds|
  {
    if preds != [] { EdgesFrom(preds[1..], dst); }
  }

  /** The steps of a list after the first. */
  lemma {:induction false} RestLabelled(steps: seq<Step>, b: Built, preds: seq<string>, r: Region, typ: EdgeType,
                                        tag: Label)
    requires steps != [] && Sound(steps) && Separate(Ids(steps), preds) && "" !in preds
    requires Labelled(b, StepsIn(steps[0]), IdsOf(steps[0]), preds) && HeadEdges(b, preds, steps[0].id, typ, tag)
    requires b.exits != [] && (forall x | x in b.exits :: x in IdsOf(steps[0])) && "" !in IdsOf(steps[0])
    ensures var all := Join(b, OfSteps(steps[1..], b.exits, r));
      && Labelled(all, AllSteps(steps), Ids(steps), preds) && HeadEdges(all, preds, steps[0].id, typ, tag)
      && forall x | x in all.exits :: x in Ids(steps)
    decreases steps, 0, 0
  {
    var s, rest := steps[0], steps[1..];
    SeparateParts(IdsOf(s), Ids(rest), preds);
    assert Sound(rest) by { forall t | t in rest ensures SoundStep(t) { assert t in steps; } }
    assert Separate(Ids(rest), b.exits);
    StepsLabelled(rest, b.exits, r);
    var c := OfSteps(rest, b.exits, r);
    InnerIdsAreIds(s);
    StepIdsAreIds(rest);
    forall e, t | e in c.edges && t in StepsIn(s) && t.id == e.src ensures Leaves(t, e) {
      assert e.dst in Ids(rest) && e.dst !in IdsOf(s);
      if t.node.If? { HeadsInside(s, t); }
    }
    JoinLabelled(b, c, c.exits, StepsIn(s), AllSteps(rest), IdsOf(s), Ids(rest), preds, b.exits);
  }

  /** The branches of a step begin with steps inside it. */
  lemma {:induction false} HeadsInside(s: Step, t: Step)
    requires t in StepsIn(s) && t.node.If?
    ensures t.node.thn != [] ==> t.node.thn[0].id in IdsOf(s)
    ensures t.node.els != [] ==> t.node.els[0].id in IdsOf(s)
    decreases s, 0
  {
    match s.node
    case If(_, thn, els) =>
      if t == s {
        if thn != [] { assert IdsOf(thn[0])[0] == thn[0].id; }
        if els != [] { assert IdsOf(els[0])[0] == els[0].id; }
      } else if t in AllSteps(thn) { HeadsOfAll(thn, t); }
      else { HeadsOfAll(els, t); }
    case Foreach(_, _, body) => HeadsOfAll(body, t);
    case Parallel(branches) => HeadsOfBranches(branches, t);
    case _ =>
  }

  lemma {:induction false} HeadsOfAll(steps: seq<Step>, t: Step)
    requires t in AllSteps(steps) && t.node.If?
    ensures t.node.thn != [] ==> t.node.thn[0].id in Ids(steps)
    ensures t.node.els != [] ==> t.node.els[0].id in Ids(steps)
    decreases steps, 0
  {
    if t in StepsIn(steps[0]) { HeadsInside(steps[0], t); } else { HeadsOfAll(steps[1..], t); }
  }

  lemma {:induction false} HeadsOfBranches(branches: seq<Block>, t: Step)
    requires t in BranchSteps(branches) && t.node.If?
    ensures t.node.thn != [] ==> t.node.thn[0].id in BranchIds(branches)
    ensures t.node.els != [] ==> t.node.els[0].id in BranchIds(branches)
    decreases branches, 0
  {
    if t in AllSteps(branches[0].steps) { HeadsOfAll(branches[0].steps, t); }
    else { HeadsOfBranches(branches[1..], t); }
  }

  /** A step with the edges that lead to it. */
  lemma {:induction false} HeadedLabelled(s: Step, head: Built, preds: seq<string>, r: Region, typ: EdgeType,
                                          tag: Label)
    requires SoundStep(s) && Separate(IdsOf(s), preds) && preds != [] && "" !in preds
    requires head.exits == [s.id]
    requires forall e | e in head.edges :: e.src in preds && e == GEdge(e.src, s.id, typ, tag)
    ensures var b := Join(head, Inside(s, r));
      && Labelled(b, StepsIn(s), IdsOf(s), preds) && HeadEdges(b, preds, s.id, typ, tag)
      && b.exits != [] && (forall x | x in b.exits :: x in IdsOf(s)) && "" !in IdsOf(s)
    decreases s, 1
  {
    var inner := IdsOf(s)[1..];
    assert IdsOf(s) == [s.id] + inner;
    SeparateParts([s.id], inner, preds);
    assert s.id !in preds by { assert s.id in IdsOf(s); }
    assert Separate(inner, [s.id]);
    NoEmptyId(s);
    InsideShape(s, r);
    InsideLabelled(s, r);
    InnerIdsAreIds(s);
    var b := Join(head, Inside(s, r));
    forall t | t in StepsIn(s) ensures Drawn(b.edges, t) { MoreDrawn(Inside(s, r).edges, b.edges, t); }
    forall e, t | e in b.edges && t in StepsIn(s) && t.id == e.src ensures Leaves(t, e) { }
  }

  lemma {:induction false} InsideLabelled(s: Step, r: Region)
    requires SoundStep(s) && Separate(IdsOf(s)[1..], [s.id])
    ensures Labelled(Inside(s, r), StepsIn(s), IdsOf(s)[1..], [s.id])
    decreases s, 0
  {
    match s.node
    case If(_, _, _) => IfLabelled(s, r);
    case Foreach(_, _, body) =>
      assert IdsOf(s)[1..] == Ids(body);
      BranchLabelled(body, s.id, Sequential, NoLabel, BodyOf(r));
      StepIdsAreIds(body);
      WithSelf(Inside(s, r), s, AllSteps(body), IdsOf(s)[1..]);
    case Parallel(branches) =>
      assert IdsOf(s)[1..] == BranchIds(branches);
      BranchesLabelled(branches, s.id, 0, r);
      BranchIdsAreIds(branches);
      ParallelItself(Inside(s, r).edges, s);
      WithSelf(Inside(s, r), s, BranchSteps(branches), IdsOf(s)[1..]);
    case _ =>
  }

  lemma {:induction false} ParallelItself(edges: seq<GEdge>, s: Step)
    requires s.node.Parallel? && (forall e | e in edges && e.src == s.id :: GroupEdge(e, s.node.branches, 0))
    requires forall k | 0 <= k < |s.node.branches| :: BranchDrawn(edges, s.id, s.node.branches[k].steps, 0 + k)
    ensures (forall e | e in edges && e.src == s.id :: Leaves(s, e)) && Drawn(edges, s)
  {
    forall e | e in edges && e.src == s.id ensures Leaves(s, e) {
      assert GroupEdge(e, s.node.branches, 0);
      var k: nat :| k < |s.node.branches| && e.tag == Number(0 + k + 1) && Begins(s.node.branches[k].steps, e);
      assert e.tag == Number(k + 1);
    }
    forall k | 0 <= k < |s.node.branches| ensures BranchDrawn(edges, s.id, s.node.branches[k].steps, k) {
      assert BranchDrawn(edges, s.id, s.node.branches[k].steps, 0 + k);
    }
  }

  lemma {:induction false} IfLabelled(s: Step, r: Region)
    requires s.node.If? && SoundStep(s) && Separate(IdsOf(s)[1..], [s.id])
    ensures Labelled(Inside(s, r), StepsIn(s), IdsOf(s)[1..], [s.id])
    decreases s, 0, 0
  {
    var thn, els := s.node.thn, s.node.els;
    var a := OfBranch(thn, s.id, Branch, ThenLabel, ThenOf(r));
    var b := OfBranch(els, s.id, Branch, ElseLabel, ElseOf(r));
    assert IdsOf(s)[1..] == Ids(thn) + Ids(els);
    SeparateParts(Ids(thn), Ids(els), [s.id]);
    BranchLabelled(thn, s.id, Branch, ThenLabel, ThenOf(r));
    BranchLabelled(els, s.id, Branch, ElseLabel, ElseOf(r));
    IfItself(a.edges, b.edges, s);
    BothLabelled(a, b, s);
    assert Inside(s, r) == Both(a, b);
    WithSelf(Both(a, b), s, AllSteps(thn) + AllSteps(els), IdsOf(s)[1..]);
  }

  lemma BothLabelled(a: Built, b: Built, s: Step)
    requires s.node.If? && Separate(Ids(s.node.thn), Ids(s.node.els))
    requires Separate(Ids(s.node.thn) + Ids(s.node.els), [s.id])
    requires Labelled(a, AllSteps(s.node.thn), Ids(s.node.thn), [s.id])
    requires Labelled(b, AllSteps(s.node.els), Ids(s.node.els), [s.id])
    ensures Labelled(Both(a, b), AllSteps(s.node.thn) + AllSteps(s.node.els), Ids(s.node.thn) + Ids(s.node.els), [s.id])
  {
    var thn, els := s.node.thn, s.node.els;
    StepIdsAreIds(thn);
    StepIdsAreIds(els);
    JoinLabelled(a, b, a.exits + b.exits, AllSteps(thn), AllSteps(els), Ids(thn), Ids(els), [s.id], [s.id]);
  }

  lemma {:induction false} IfItself(a: seq<GEdge>, b: seq<GEdge>, s: Step)
    requires s.node.If? && s.node.thn != [] && (forall id | id in Ids(s.node.thn) :: id !in Ids(s.node.els))
    requires s.node.thn[0].id in Ids(s.node.thn) && (s.node.els != [] ==> s.node.els[0].id in Ids(s.node.els))
    requires forall e | e in a && e.src == s.id :: e == GEdge(s.id, s.node.thn[0].id, Branch, ThenLabel)
    requires forall e | e in b && e.src == s.id ::
      s.node.els != [] && e == GEdge(s.id, s.node.els[0].id, Branch, ElseLabel)
    requires GEdge(s.id, s.node.thn[0].id, Branch, ThenLabel) in a
    requires s.node.els != [] ==> GEdge(s.id, s.node.els[0].id, Branch, ElseLabel) in b
    ensures (forall e | e in a + b && e.src == s.id :: Leaves(s, e)) && Drawn(a + b, s)
  {
  }

  /** What holds of the steps inside and of the step itself holds of all of them. */
  lemma {:induction false} WithSelf(b: Built, s: Step, inner: set<Step>, ids: seq<string>)
    requires Labelled(b, inner, ids, [s.id]) && StepsIn(s) == {s} + inner
    requires (forall e | e in b.edges && e.src == s.id :: Leaves(s, e)) && Drawn(b.edges, s)
    requires s.node.Parallel? ==> s.id !in b.exits
    ensures Labelled(b, StepsIn(s), ids, [s.id])
  {
  }

  lemma {:induction false} BranchLabelled(steps: seq<Step>, src: string, typ: EdgeType, tag: Label, r: Region)
    requires Sound(steps) && Separate(Ids(steps), [src]) && src != ""
    ensures var b := OfBranch(steps, src, typ, tag, r);
      && Labelled(b, AllSteps(steps), Ids(steps), [src])
      && (steps == [] ==> b.edges == [])
      && (steps != [] ==>
          && HeadEdges(b, [src], steps[0].id, typ, tag) && GEdge(src, steps[0].id, typ, tag) in b.edges
          && steps[0].id in Ids(steps) && forall x | x in b.exits :: x in Ids(steps))
    decreases steps, 0
  {
    if steps != [] {
      var s := steps[0];
      assert SoundStep(s) by { assert s in steps; }
      SeparateParts(IdsOf(s), Ids(steps[1..]), [src]);
      assert s.id != src by { assert IdsOf(s)[0] == s.id && IdsOf(s)[0] in IdsOf(s); }
      var head := Built([NodeOf(s, r)], NewEdge(src, s.id, typ, tag), [s.id]);
      var b := Join(head, Inside(s, r));
      HeadedLabelled(s, head, [src], r, typ, tag);
      RestLabelled(steps, b, [src], r, typ, tag);
      assert head.edges == [GEdge(src, s.id, typ, tag)];
      assert head.edges[0] in b.edges;
    }
  }

  /** An edge into one of the branches of a group, numbered from i + 1 on. */
  predicate GroupEdge(e: GEdge, branches: seq<Block>, i: nat) {
    e.typ == ParallelEdge
    && exists k: nat :: k < |branches| && e.tag == Number(i + k + 1) && Begins(branches[k].steps, e)
  }

  lemma {:induction false} GroupShift(edges: seq<GEdge>, e: GEdge, src: string, branches: seq<Block>, i: nat, k: nat)
    requires branches != []
    ensures GroupEdge(e, branches[1..], i + 1) ==> GroupEdge(e, branches, i)
    ensures k < |branches| - 1 && BranchDrawn(edges, src, branches[1..][k].steps, i + 1 + k) ==>
      BranchDrawn(edges, src, branches[k + 1].steps, i + (k + 1))
  {
    if GroupEdge(e, branches[1..], i + 1) {
      var j: nat :| j < |branches| - 1 && e.tag == Number(i + 1 + j + 1) && Begins(branches[1..][j].steps, e);
      assert branches[1..][j] == branches[j + 1] && e.tag == Number(i + (j + 1) + 1);
    }
  }

  /** A built group of branches. */
  ghost predicate Group(b: Built, branches: seq<Block>, src: string, i: nat) {
    && Labelled(b, BranchSteps(branches), BranchIds(branches), [src])
    && (forall e | e in b.edges && e.src == src :: GroupEdge(e, branches, i))
    && (forall k | 0 <= k < |branches| :: BranchDrawn(b.edges, src, branches[k].steps, i + k))
    && (forall x | x in b.exits :: x in BranchIds(branches))
  }

  lemma {:induction false} BranchesLabelled(branches: seq<Block>, src: string, i: nat, r: Region)
    requires (forall b | b in branches :: b.steps != [] && Sound(b.steps)) && src != ""
    requires Separate(BranchIds(branches), [src])
    ensures Group(OfBranches(branches, src, i, r), branches, src, i)
    decreases branches, 0
  {
    if branches != [] {
      assert branches[0] in branches;
      SeparateParts(Ids(branches[0].steps), BranchIds(branches[1..]), [src]);
      BranchLabelled(branches[0].steps, src, ParallelEdge, Number(i + 1), BranchOf(r, i));
      BranchesLabelled(branches[1..], src, i + 1, r);
      GroupJoin(OfBranch(branches[0].steps, src, ParallelEdge, Number(i + 1), BranchOf(r, i)),
                OfBranches(branches[1..], src, i + 1, r), branches, src, i);
    }
  }

  lemma {:induction false} GroupJoin(one: Built, more: Built, branches: seq<Block>, src: string, i: nat)
    requires branches != [] && branches[0].steps != [] && Separate(BranchIds(branches), [src])
    requires Labelled(one, AllSteps(branches[0].steps), Ids(branches[0].steps), [src])
    requires HeadEdges(one, [src], branches[0].steps[0].id, ParallelEdge, Number(i + 1))
    requires GEdge(src, branches[0].steps[0].id, ParallelEdge, Number(i + 1)) in one.edges
    requires forall x | x in one.exits :: x in Ids(branches[0].steps)
    requires Group(more, branches[1..], src, i + 1)
    ensures Group(Both(one, more), branches, src, i)
  {
    var steps, rest := branches[0].steps, branches[1..];
    SeparateParts(Ids(steps), BranchIds(rest), [src]);
    StepIdsAreIds(steps);
    BranchIdsAreIds(rest);
    JoinLabelled(one, more, one.exits + more.exits, AllSteps(steps), BranchSteps(rest),
                 Ids(steps), BranchIds(rest), [src], [src]);
    BranchesJoin(one.edges, more.edges, src, branches, i);
  }

  lemma {:induction false} BranchesJoin(a: seq<GEdge>, b: seq<GEdge>, src: string, branches: seq<Block>, i: nat)
    requires branches != [] && branches[0].steps != []
    requires forall e | e in a && e.src == src :: e == GEdge(src, branches[0].steps[0].id, ParallelEdge, Number(i + 1))
    requires GEdge(src, branches[0].steps[0].id, ParallelEdge, Number(i + 1)) in a
    requires forall e | e in b && e.src == src :: GroupEdge(e, branches[1..], i + 1)
    requires forall k | 0 <= k < |branches[1..]| :: BranchDrawn(b, src, branches[1..][k].steps, i + 1 + k)
    ensures forall e | e in a + b && e.src == src :: GroupEdge(e, branches, i)
    ensures forall k | 0 <= k < |branches| :: BranchDrawn(a + b, src, branches[k].steps, i + k)
  {
    forall e | e in a + b && e.src == src ensures GroupEdge(e, branches, i) {
      if e in a { assert e.tag == Number(i + 0 + 1) && Begins(branches[0].steps, e); }
      else { GroupShift(b, e, src, branches, i, 0); }
    }
    forall k | 0 <= k < |branches| ensures BranchDrawn(a + b, src, branches[k].steps, i + k) {
      if k > 0 {
        var any := GEdge(src, src, ParallelEdge, NoLabel);
        GroupShift(b, any, src, branches, i, k - 1);
        assert BranchDrawn(b, src, branches[1..][k - 1].steps, i + 1 + (k - 1));
      }
    }
  }

  // ---- Regions ----

  /** The nodes of a list in a region, and of the branches inside it in theirs. */
  predicate Nested(nodes: seq<GNode>, steps: seq<Step>, r: Region)
    decreases steps, 0
  {
    forall s | s in steps :: NestedStep(nodes, s, r)
  }

  predicate NestedStep(nodes: seq<GNode>, s: Step, r: Region)
    decreases s, 0
  {
    GNode(s.id, StepNode(s.node), Some(r)) in nodes &&
    match s.node
    case If(_, thn, els) => Nested(nodes, thn, ThenOf(r)) && Nested(nodes, els, ElseOf(r))
    case Foreach(_, _, body) => Nested(nodes, body, BodyOf(r))
    case Parallel(branches) => forall i | 0 <= i < |branches| :: Nested(nodes, branches[i].steps, BranchOf(r, i))
    case _ => true
  }

  lemma {:induction false} MoreNested(nodes: seq<GNode>, more: seq<GNode>, steps: seq<Step>, r: Region)
    requires Nested(nodes, steps, r) && forall n | n in nodes :: n in more
    ensures Nested(more, steps, r)
    decreases steps, 0
  {
    forall s | s in steps ensures NestedStep(more, s, r) {
      assert NestedStep(nodes, s, r);
      MoreNestedStep(nodes, more, s, r);
    }
  }

  lemma {:induction false} MoreNestedStep(nodes: seq<GNode>, more: seq<GNode>, s: Step, r: Region)
    requires NestedStep(nodes, s, r) && forall n | n in nodes :: n in more
    ensures NestedStep(more, s, r)
    decreases s, 0
  {
    match s.node
    case If(_, thn, els) =>
      MoreNested(nodes, more, thn, ThenOf(r));
      MoreNested(nodes, more, els, ElseOf(r));
    case Foreach(_, _, body) => MoreNested(nodes, more, body, BodyOf(r));
    case Parallel(branches) =>
      forall i | 0 <= i < |branches| ensures Nested(more, branches[i].steps, BranchOf(r, i)) {
        MoreNested(nodes, more, branches[i].steps, BranchOf(r, i));
      }
    case _ =>
  }

  lemma {:induction false} StepsNest(steps: seq<Step>, preds: seq<string>, r: Region)
    ensures Nested(OfSteps(steps, preds, r).nodes, steps, r)
    decreases steps, 0
  {
    if steps != [] {
      var s, b, all := steps[0], OfStep(steps[0], preds, r), OfSteps(steps, preds, r).nodes;
      InsideNests(s, r);
      MoreNestedStep([NodeOf(s, r)] + Inside(s, r).nodes, all, s, r);
      StepsNest(steps[1..], b.exits, r);
      MoreNested(OfSteps(steps[1..], b.exits, r).nodes, all, steps[1..], r);
      assert steps == [s] + steps[1..];
    }
  }

  lemma {:induction false} InsideNests(s: Step, r: Region)
    ensures NestedStep([NodeOf(s, r)] + Inside(s, r).nodes, s, r)
    decreases s, 0
  {
    var nodes := [NodeOf(s, r)] + Inside(s, r).nodes;
    match s.node
    case If(_, thn, els) =>
      BranchNests(thn, s.id, Branch, ThenLabel, ThenOf(r));
      BranchNests(els, s.id, Branch, ElseLabel, ElseOf(r));
      MoreNested(OfBranch(thn, s.id, Branch, ThenLabel, ThenOf(r)).nodes, nodes, thn, ThenOf(r));
      MoreNested(OfBranch(els, s.id, Branch, ElseLabel, ElseOf(r)).nodes, nodes, els, ElseOf(r));
    case Foreach(_, _, body) =>
      BranchNests(body, s.id, Sequential, NoLabel, BodyOf(r));
      MoreNested(OfBranch(body, s.id, Sequential, NoLabel, BodyOf(r)).nodes, nodes, body, BodyOf(r));
    case Parallel(branches) =>
      forall i | 0 <= i < |branches| ensures Nested(nodes, branches[i].steps, BranchOf(r, i)) {
        BranchesNest(branches, s.id, 0, r, i);
        MoreNested(OfBranches(branches, s.id, 0, r).nodes, nodes, branches[i].steps, BranchOf(r, 0 + i));
      }
    case _ =>
  }

  lemma {:induction false} BranchNests(steps: seq<Step>, src: string, typ: EdgeType, tag: Label, r: Region)
    ensures Nested(OfBranch(steps, src, typ, tag, r).nodes, steps, r)
    decreases steps, 0
  {
    if steps != [] {
      var s, all := steps[0], OfBranch(steps, src, typ, tag, r).nodes;
      InsideNests(s, r);
      MoreNestedStep([NodeOf(s, r)] + Inside(s, r).nodes, all, s, r);
      StepsNest(steps[1..], Inside(s, r).exits, r);
      MoreNested(OfSteps(steps[1..], Inside(s, r).exits, r).nodes, all, steps[1..], r);
      assert steps == [s] + steps[1..];
    }
  }

  lemma {:induction false} BranchesNest(branches: seq<Block>, src: string, k: nat, r: Region, i: nat)
    requires i < |branches|
    ensures Nested(OfBranches(branches, src, k, r).nodes, branches[i].steps, BranchOf(r, k + i))
    decreases branches, 0
  {
    var all := OfBranches(branches, src, k, r).nodes;
    if i == 0 {
      BranchNests(branches[0].steps, src, ParallelEdge, Number(k + 1), BranchOf(r, k));
      MoreNested(OfBranch(branches[0].steps, src, ParallelEdge, Number(k + 1), BranchOf(r, k)).nodes, all,
                 branches[0].steps, BranchOf(r, k));
    } else {
      BranchesNest(branches[1..], src, k + 1, r, i - 1);
      assert branches[1..][i - 1] == branches[i] && k + 1 + (i - 1) == k + i;
      MoreNested(OfBranches(branches[1..], src, k + 1, r).nodes, all, branches[i].steps, BranchOf(r, k + i));
    }
  }

  // ---- The whole graph ----

  /** The start leads to every trigger, and these, or the start without any, to the first step. */
  predicate Enters(doc: Doc, e: GEdge) {
    if e.src == START && doc.triggers != [] then e.dst in Entries(doc) && e.typ == Sequential && e.tag == TriggerLabel
    else e.src in Entries(doc) && Begins(doc.steps, e) && e.typ == Sequential && e.tag == NoLabel
  }

  lemma {:induction false} EntryEdges(doc: Doc, limits: Limits)
    requires ValidDoc(doc, limits)
    ensures forall e | e in GraphOf(doc).edges :: Enters(doc, e) || e.src in Ids(doc.steps)
  {
    var b := OfSteps(doc.steps, Entries(doc), Main);
    DocParts(doc, limits);
    StepsLabelled(doc.steps, Entries(doc), Main);
    EdgesFrom(b.exits, END);
    forall e | e in TriggerEdges(doc.triggers) ensures Enters(doc, e) {
      var i :| 0 <= i < |doc.triggers| && TriggerEdges(doc.triggers)[i] == e;
      assert Entries(doc)[i] == e.dst;
    }
    forall e | e in b.edges && e.src !in Ids(doc.steps) ensures Enters(doc, e) {
      assert e.src in Entries(doc) && Begins(doc.steps, e) && e.typ == Sequential && e.tag == NoLabel;
      if doc.triggers != [] { assert Entries(doc) == TriggerIds(doc.triggers); }
    }
  }

  /** In the graph of a valid document: an edge out of a step says which branch it begins,
      and every branch is begun by its edge; the start leads to the triggers if there are
      any; and every step is drawn in the region of the branches around it. */
  lemma {:induction false} EdgesSayWhere(doc: Doc, limits: Limits)
    requires ValidDoc(doc, limits)
    ensures OneStepAnId(AllSteps(doc.steps))
    ensures var g := GraphOf(doc);
      && (forall e, s | e in g.edges && s in AllSteps(doc.steps) && s.id == e.src :: Leaves(s, e))
      && (forall s | s in AllSteps(doc.steps) :: Drawn(g.edges, s))
      && (forall e | e in g.edges :: Enters(doc, e) || e.src in Ids(doc.steps))
      && Nested(g.nodes, doc.steps, Main)
  {
    var g, b := GraphOf(doc), OfSteps(doc.steps, Entries(doc), Main);
    FreshTells(doc.steps, {});
    DocParts(doc, limits);
    StepsLabelled(doc.steps, Entries(doc), Main);
    StepIdsAreIds(doc.steps);
    EdgesFrom(b.exits, END);
    EntryEdges(doc, limits);
    forall e, s | e in g.edges && s in AllSteps(doc.steps) && s.id == e.src ensures Leaves(s, e) {
      if e in b.edges { assert Leaves(s, e); }
      else if e in EdgesTo(b.exits, END) {
        if s.node.If? { HeadsOfAll(doc.steps, s); }
      }
    }
    forall s | s in AllSteps(doc.steps) ensures Drawn(g.edges, s) { MoreDrawn(b.edges, g.edges, s); }
    StepsNest(doc.steps, Entries(doc), Main);
    MoreNested(b.nodes, g.nodes, doc.steps, Main);
  }
}
