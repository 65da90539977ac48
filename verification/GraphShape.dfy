/** The shape of the graph: one node per step, nodes in topological order, every node on
    a way from the start to the end. */
module GraphShape {
  import opened Workflow
  import opened Validate
  import opened Graph

  type Pairs = set<(string, string)>

  function PairsOf(edges: seq<GEdge>): Pairs { set e | e in edges :: (e.src, e.dst) }

  function NodeIds(nodes: seq<GNode>): seq<string> {
    if nodes == [] then [] else [nodes[0].id] + NodeIds(nodes[1..])
  }

  predicate IsWalk(e: Pairs, w: seq<string>) {
    w != [] && forall i | 0 < i < |w| :: (w[i - 1], w[i]) in e
  }

  ghost predicate WalkBetween(e: Pairs, w: seq<string>, a: string, b: string) {
    IsWalk(e, w) && w[0] == a && w[|w| - 1] == b
  }

  ghost predicate Reach(e: Pairs, a: string, b: string) { exists w :: WalkBetween(e, w, a, b) }

  lemma ReachSelf(e: Pairs, a: string)
    ensures Reach(e, a, a)
  {
    assert WalkBetween(e, [a], a, a);
  }

  lemma ReachEdge(e: Pairs, a: string, b: string)
    requires (a, b) in e
    ensures Reach(e, a, b)
  {
    assert WalkBetween(e, [a, b], a, b);
  }

  lemma ReachTrans(e1: Pairs, e2: Pairs, e: Pairs, a: string, b: string, c: string)
    requires Reach(e1, a, b) && Reach(e2, b, c) && e1 <= e && e2 <= e
    ensures Reach(e, a, c)
  {
    var v :| WalkBetween(e1, v, a, b);
    var w :| WalkBetween(e2, w, b, c);
    var u := v + w[1..];
    forall i | 0 < i < |u| ensures (u[i - 1], u[i]) in e {
      if i < |v| { assert (v[i - 1], v[i]) in e1; }
      else { assert u[i - 1] == w[i - |v|]; assert (w[i - |v|], w[i - |v| + 1]) in e2; }
    }
    assert WalkBetween(e, u, a, c);
  }

  lemma ReachMore(e: Pairs, e': Pairs, a: string, b: string)
    requires Reach(e, a, b) && e <= e'
    ensures Reach(e', a, b)
  {
    ReachSelf(e, b);
    ReachTrans(e, e, e', a, b, b);
  }

  /** Ids are pairwise different and none is a predecessor. */
  predicate Separate(ids: seq<string>, preds: seq<string>) {
    && (forall i, j | 0 <= i < j < |ids| :: ids[i] != ids[j])
    && forall id | id in ids :: id !in preds
  }

  /** Nested lists are non-empty where validation says so, ids are not empty. */
  predicate Sound(steps: seq<Step>)
    decreases steps, 0
  {
    forall s | s in steps :: SoundStep(s)
  }

  predicate SoundStep(s: Step)
    decreases s, 0
  {
    s.id != "" &&
    match s.node
    case If(_, thn, els) => thn != [] && Sound(thn) && Sound(els)
    case Foreach(_, _, body) => body != [] && Sound(body)
    case Parallel(branches) => branches != [] && forall b | b in branches :: b.steps != [] && Sound(b.steps)
    case _ => true
  }

  lemma {:induction false} ValidIsSound(steps: seq<Step>, depth: nat, limits: Limits)
    requires WellFormed(steps, depth, limits)
    ensures Sound(steps)
    decreases steps, 0
  {
    forall s | s in steps ensures SoundStep(s) { ValidStepIsSound(s, depth, limits); }
  }

  lemma {:induction false} ValidStepIsSound(s: Step, depth: nat, limits: Limits)
    requires StepIdOk(s.id) && WellFormedStep(s, depth, limits)
    ensures SoundStep(s)
    decreases s, 0
  {
    match s.node
    case If(_, thn, els) =>
      ValidIsSound(thn, depth + 1, limits);
      if els != [] { ValidIsSound(els, depth + 1, limits); }
    case Foreach(_, _, body) => ValidIsSound(body, depth + 1, limits);
    case Parallel(branches) =>
      forall b | b in branches ensures Sound(b.steps) { ValidIsSound(b.steps, depth + 1, limits); }
    case _ =>
  }

  /** What holds of every built piece: `ids` its node ids, `preds` where control enters. */
  ghost predicate Shape(b: Built, ids: seq<string>, preds: seq<string>) {
    && NodeIds(b.nodes) == ids
    && Closed(b, ids, preds)
    && Ordered(PairsOf(b.edges), ids)
    && Connected(PairsOf(b.edges), b.exits, ids, preds)
  }

  predicate Closed(b: Built, ids: seq<string>, preds: seq<string>) {
    && b.exits != []
    && (forall x | x in b.exits :: x in ids || x in preds)
    && (forall p | p in PairsOf(b.edges) :: p.1 in ids && (p.0 in ids || p.0 in preds))
  }

  /** Every edge between two listed nodes goes forward in the list. */
  predicate Ordered(e: Pairs, ids: seq<string>) {
    forall i, j | 0 <= i < |ids| && 0 <= j < |ids| && (ids[i], ids[j]) in e :: i < j
  }

  /** Control comes to every node from a predecessor, and leaves from everywhere by an exit. */
  ghost predicate Connected(e: Pairs, exits: seq<string>, ids: seq<string>, preds: seq<string>) {
    && (forall y | y in ids :: Entered(e, y, preds))
    && (forall x | x in ids || x in preds :: Left(e, exits, x))
  }

  ghost predicate Entered(e: Pairs, y: string, preds: seq<string>) {
    exists p | p in preds :: Reach(e, p, y)
  }

  ghost predicate Left(e: Pairs, exits: seq<string>, x: string) {
    exists y | y in exits :: Reach(e, x, y)
  }

  lemma {:induction false} NodeIdsConcat(a: seq<GNode>, b: seq<GNode>)
    ensures NodeIds(a + b) == NodeIds(a) + NodeIds(b)
    decreases |a|
  {
    if a == [] { assert a + b == b; }
    else { assert (a + b)[1..] == a[1..] + b; NodeIdsConcat(a[1..], b); }
  }

  lemma PairsConcat(a: seq<GEdge>, b: seq<GEdge>)
    ensures PairsOf(a + b) == PairsOf(a) + PairsOf(b)
  {
  }

  lemma OrderedConcat(e1: Pairs, e2: Pairs, a: seq<string>, b: seq<string>, preds1: seq<string>, preds2: seq<string>)
    requires Separate(a + b, preds1) && Ordered(e1, a) && Ordered(e2, b)
    requires forall p | p in e1 :: p.1 in a && (p.0 in a || p.0 in preds1)
    requires forall p | p in e2 :: p.1 in b && (p.0 in b || p.0 in preds2)
    requires forall x | x in preds2 :: x in a || x in preds1
    ensures Ordered(e1 + e2, a + b)
  {
    var ids := a + b;
    forall i, j | 0 <= i < |ids| && 0 <= j < |ids| && (ids[i], ids[j]) in e1 + e2 ensures i < j {
      assert ids[i] in ids && ids[j] in ids;
      if (ids[i], ids[j]) in e1 {
        Within(a, b, preds1, j);
        Within(a, b, preds1, i);
        assert i < |a| && j < |a|;
        assert (a[i], a[j]) in e1;
      } else {
        Within(a, b, preds1, j);
        if i >= |a| { assert (b[i - |a|], b[j - |a|]) in e2; }
      }
    }
  }

  /** An id of a concatenation lies in the part its position says, and only there. */
  lemma Within(a: seq<string>, b: seq<string>, preds: seq<string>, i: nat)
    requires Separate(a + b, preds) && i < |a + b|
    ensures (a + b)[i] in a <==> i < |a|
    ensures (a + b)[i] in b <==> i >= |a|
    ensures (a + b)[i] !in preds
  {
    var ids := a + b;
    assert ids[i] in ids;
    if i < |a| {
      forall j | 0 <= j < |b| ensures b[j] != ids[i] { assert ids[|a| + j] == b[j]; }
    } else {
      assert ids[i] == b[i - |a|];
      forall j | 0 <= j < |a| ensures a[j] != ids[i] { assert ids[j] == a[j]; }
    }
  }

  lemma SeparateParts(a: seq<string>, b: seq<string>, preds: seq<string>)
    requires Separate(a + b, preds)
    ensures Separate(a, preds) && Separate(b, preds)
    ensures forall id | id in a :: id !in b
  {
    var ids := a + b;
    forall i, j | 0 <= i < j < |a| ensures a[i] != a[j] { assert ids[i] != ids[j]; }
    forall i, j | 0 <= i < j < |b| ensures b[i] != b[j] { assert ids[|a| + i] != ids[|a| + j]; }
    forall id | id in a ensures id !in preds && id !in b {
      assert id in ids;
      var i :| 0 <= i < |a| && a[i] == id;
      Within(a, b, preds, i);
    }
    forall id | id in b ensures id !in preds { assert id in ids; }
  }

  /** One piece after another. */
  lemma ShapeJoin(a: Built, b: Built, ids1: seq<string>, ids2: seq<string>, preds: seq<string>)
    requires Shape(a, ids1, preds) && Shape(b, ids2, a.exits) && Separate(ids1 + ids2, preds)
    ensures Shape(Join(a, b), ids1 + ids2, preds)
  {
    PairsConcat(a.edges, b.edges);
    NodeIdsConcat(a.nodes, b.nodes);
    OrderedConcat(PairsOf(a.edges), PairsOf(b.edges), ids1, ids2, preds, a.exits);
    JoinConnected(PairsOf(a.edges), a.exits, ids1, preds, PairsOf(b.edges), b.exits, ids2);
  }

  lemma JoinConnected(e1: Pairs, exits1: seq<string>, ids1: seq<string>, preds: seq<string>,
                      e2: Pairs, exits2: seq<string>, ids2: seq<string>)
    requires Connected(e1, exits1, ids1, preds) && Connected(e2, exits2, ids2, exits1)
    requires forall x | x in exits1 :: x in ids1 || x in preds
    ensures Connected(e1 + e2, exits2, ids1 + ids2, preds)
  {
    var e, ids := e1 + e2, ids1 + ids2;
    forall y | y in ids ensures Entered(e, y, preds) {
      if y in ids1 {
        assert Entered(e1, y, preds);
        var p :| p in preds && Reach(e1, p, y);
        ReachMore(e1, e, p, y);
      } else {
        assert Entered(e2, y, exits1);
        var x :| x in exits1 && Reach(e2, x, y);
        if x in ids1 {
          assert Entered(e1, x, preds);
          var p :| p in preds && Reach(e1, p, x);
          ReachTrans(e1, e2, e, p, x, y);
        } else { ReachMore(e2, e, x, y); }
      }
    }
    forall x | x in ids || x in preds ensures Left(e, exits2, x) {
      if x in ids1 || x in preds {
        assert Left(e1, exits1, x);
        var z :| z in exits1 && Reach(e1, x, z);
        assert Left(e2, exits2, z);
        var y :| y in exits2 && Reach(e2, z, y);
        ReachTrans(e1, e2, e, x, z, y);
      } else {
        assert Left(e2, exits2, x);
        var y :| y in exits2 && Reach(e2, x, y);
        ReachMore(e2, e, x, y);
      }
    }
  }

  /** Two pieces side by side. */
  lemma ShapeBoth(a: Built, b: Built, ids1: seq<string>, ids2: seq<string>, preds: seq<string>)
    requires Shape(a, ids1, preds) && Shape(b, ids2, preds) && Separate(ids1 + ids2, preds)
    ensures Shape(Both(a, b), ids1 + ids2, preds)
  {
    PairsConcat(a.edges, b.edges);
    NodeIdsConcat(a.nodes, b.nodes);
    OrderedConcat(PairsOf(a.edges), PairsOf(b.edges), ids1, ids2, preds, preds);
    BothConnected(PairsOf(a.edges), a.exits, ids1, preds, PairsOf(b.edges), b.exits, ids2);
  }

  lemma BothConnected(e1: Pairs, exits1: seq<string>, ids1: seq<string>, preds: seq<string>,
                      e2: Pairs, exits2: seq<string>, ids2: seq<string>)
    requires Connected(e1, exits1, ids1, preds) && Connected(e2, exits2, ids2, preds)
    ensures Connected(e1 + e2, exits1 + exits2, ids1 + ids2, preds)
  {
    var e, ids := e1 + e2, ids1 + ids2;
    forall y | y in ids ensures Entered(e, y, preds) {
      var e' := if y in ids1 then e1 else e2;
      assert Entered(e', y, preds);
      var p :| p in preds && Reach(e', p, y);
      ReachMore(e', e, p, y);
    }
    forall x | x in ids || x in preds ensures Left(e, exits1 + exits2, x) {
      if x in ids1 || x in preds {
        assert Left(e1, exits1, x);
        var y :| y in exits1 && Reach(e1, x, y);
        assert y in exits1 + exits2;
        ReachMore(e1, e, x, y);
      } else {
        assert Left(e2, exits2, x);
        var y :| y in exits2 && Reach(e2, x, y);
        assert y in exits1 + exits2;
        ReachMore(e2, e, x, y);
      }
    }
  }

  // ---- Every piece has its shape ----

  lemma {:induction false} EdgesToPairs(preds: seq<string>, dst: string)
    requires dst != "" && dst !in preds && "" !in preds
    ensures forall p :: p in PairsOf(EdgesTo(preds, dst)) <==> p.0 in preds && p.1 == dst
    decreases |preds|
  {
    if preds != [] {
      EdgesToPairs(preds[1..], dst);
      PairsConcat(NewEdge(preds[0], dst, Sequential, NoLabel), EdgesTo(preds[1..], dst));
    }
  }

  /** A single node entered from every predecessor. */
  lemma HeadShape(id: string, b: Built, preds: seq<string>)
    requires id !in preds && preds != []
    requires |b.nodes| == 1 && b.nodes[0].id == id && b.exits == [id]
    requires forall p :: p in PairsOf(b.edges) <==> p.0 in preds && p.1 == id
    ensures Shape(b, [id], preds)
  {
    var e, ids := PairsOf(b.edges), [id];
    assert NodeIds(b.nodes) == ids by { assert NodeIds(b.nodes[1..]) == []; }
    assert Ordered(e, ids) by { assert (id, id) !in e; }
    forall q | q in preds ensures (q, id) in e { }
    HeadConnected(id, e, preds);
  }

  lemma HeadConnected(id: string, e: Pairs, preds: seq<string>)
    requires preds != [] && forall q | q in preds :: (q, id) in e
    ensures Connected(e, [id], [id], preds)
  {
    assert Entered(e, id, preds) by { assert preds[0] in preds; ReachEdge(e, preds[0], id); }
    HeadLeft(id, e, preds);
  }

  lemma HeadLeft(id: string, e: Pairs, preds: seq<string>)
    requires forall q | q in preds :: (q, id) in e
    ensures forall x | x in [id] || x in preds :: Left(e, [id], x)
  {
    var ids := [id];
    forall x | x in ids || x in preds ensures Left(e, ids, x) {
      assert ids[0] in ids;
      if x == id { ReachSelf(e, x); } else { ReachEdge(e, x, id); }
    }
  }

  lemma EmptyShape(preds: seq<string>)
    requires preds != []
    ensures Shape(Built([], [], preds), [], preds)
  {
    forall x | x in preds ensures Left({}, preds, x) { ReachSelf({}, x); }
    assert PairsOf([]) == {};
  }

  lemma {:induction false} StepsShape(steps: seq<Step>, preds: seq<string>, r: Region)
    requires Sound(steps) && Separate(Ids(steps), preds) && preds != [] && "" !in preds
    ensures Shape(OfSteps(steps, preds, r), Ids(steps), preds)
    decreases steps, 0
  {
    if steps == [] { EmptyShape(preds); }
    else {
      var s := steps[0];
      var b := OfStep(s, preds, r);
      assert SoundStep(s) by { assert s in steps; }
      SeparateParts(IdsOf(s), Ids(steps[1..]), preds);
      StepShape(s, preds, r);
      RestShape(steps, b, preds, r);
    }
  }

  /** The steps after the first, entered from the first one's exits. */
  lemma {:induction false} RestShape(steps: seq<Step>, b: Built, preds: seq<string>, r: Region)
    requires steps != [] && Sound(steps) && Separate(Ids(steps), preds) && "" !in preds
    requires Shape(b, IdsOf(steps[0]), preds) && (forall x | x in b.exits :: x in IdsOf(steps[0]))
    requires "" !in IdsOf(steps[0])
    ensures Shape(Join(b, OfSteps(steps[1..], b.exits, r)), Ids(steps), preds)
    decreases steps, 0, 0
  {
    SeparateParts(IdsOf(steps[0]), Ids(steps[1..]), preds);
    assert Sound(steps[1..]) by { forall s | s in steps[1..] ensures SoundStep(s) { assert s in steps; } }
    assert Separate(Ids(steps[1..]), b.exits);
    StepsShape(steps[1..], b.exits, r);
    ShapeJoin(b, OfSteps(steps[1..], b.exits, r), IdsOf(steps[0]), Ids(steps[1..]), preds);
  }

  lemma {:induction false} NoEmptyId(s: Step)
    requires SoundStep(s)
    ensures "" !in IdsOf(s)
    decreases s, 0
  {
    match s.node
    case If(_, thn, els) => NoEmptyIds(thn); NoEmptyIds(els);
    case Foreach(_, _, body) => NoEmptyIds(body);
    case Parallel(branches) => NoEmptyBranchIds(branches);
    case _ =>
  }

  lemma {:induction false} NoEmptyIds(steps: seq<Step>)
    requires Sound(steps)
    ensures "" !in Ids(steps)
    decreases steps, 0
  {
    if steps != [] {
      assert steps[0] in steps;
      NoEmptyId(steps[0]);
      forall s | s in steps[1..] ensures s in steps { }
      NoEmptyIds(steps[1..]);
    }
  }

  lemma {:induction false} NoEmptyBranchIds(branches: seq<Block>)
    requires forall b | b in branches :: Sound(b.steps)
    ensures "" !in BranchIds(branches)
    decreases branches, 0
  {
    if branches != [] {
      assert branches[0] in branches;
      NoEmptyIds(branches[0].steps);
      forall b | b in branches[1..] ensures b in branches { }
      NoEmptyBranchIds(branches[1..]);
    }
  }

  lemma {:induction false} StepShape(s: Step, preds: seq<string>, r: Region)
    requires SoundStep(s) && Separate(IdsOf(s), preds) && preds != [] && "" !in preds
    ensures Shape(OfStep(s, preds, r), IdsOf(s), preds)
    ensures "" !in IdsOf(s) && forall x | x in OfStep(s, preds, r).exits :: x in IdsOf(s)
    decreases s, 2
  {
    assert s.id !in preds by { assert IdsOf(s)[0] == s.id; }
    EdgesToPairs(preds, s.id);
    HeadedShape(s, Built([NodeOf(s, r)], EdgesTo(preds, s.id), [s.id]), preds, r);
  }

  lemma {:induction false} HeadedShape(s: Step, head: Built, preds: seq<string>, r: Region)
    requires SoundStep(s) && Separate(IdsOf(s), preds) && preds != [] && "" !in preds
    requires |head.nodes| == 1 && head.nodes[0].id == s.id && head.exits == [s.id]
    requires forall p :: p in PairsOf(head.edges) <==> p.0 in preds && p.1 == s.id
    ensures Shape(Join(head, Inside(s, r)), IdsOf(s), preds)
    ensures "" !in IdsOf(s) && forall x | x in Inside(s, r).exits :: x in IdsOf(s)
    decreases s, 1
  {
    NoEmptyId(s);
    var inner := IdsOf(s)[1..];
    assert IdsOf(s) == [s.id] + inner;
    SeparateParts([s.id], inner, preds);
    assert s.id !in preds by { assert s.id in IdsOf(s); }
    HeadShape(s.id, head, preds);
    assert Separate(inner, [s.id]);
    InsideShape(s, r);
    ShapeJoin(head, Inside(s, r), [s.id], inner, preds);
  }

  lemma {:induction false} InsideShape(s: Step, r: Region)
    requires SoundStep(s) && Separate(IdsOf(s)[1..], [s.id])
    ensures Shape(Inside(s, r), IdsOf(s)[1..], [s.id])
    decreases s, 0
  {
    match s.node
    case If(_, thn, els) =>
      var a := OfBranch(thn, s.id, Branch, ThenLabel, ThenOf(r));
      var b := OfBranch(els, s.id, Branch, ElseLabel, ElseOf(r));
      assert IdsOf(s)[1..] == Ids(thn) + Ids(els);
      SeparateParts(Ids(thn), Ids(els), [s.id]);
      BranchShape(thn, s.id, Branch, ThenLabel, ThenOf(r));
      BranchShape(els, s.id, Branch, ElseLabel, ElseOf(r));
      ShapeBoth(a, b, Ids(thn), Ids(els), [s.id]);
    case Foreach(_, _, body) =>
      assert IdsOf(s)[1..] == Ids(body);
      BranchShape(body, s.id, Sequential, NoLabel, BodyOf(r));
    case Parallel(branches) =>
      assert IdsOf(s)[1..] == BranchIds(branches);
      BranchesShape(branches, s.id, 0, r);
    case _ =>
      assert IdsOf(s)[1..] == [];
      EmptyShape([s.id]);
  }

  lemma {:induction false} BranchShape(steps: seq<Step>, src: string, typ: EdgeType, tag: Label, r: Region)
    requires Sound(steps) && Separate(Ids(steps), [src]) && src != ""
    ensures Shape(OfBranch(steps, src, typ, tag, r), Ids(steps), [src])
    decreases steps, 0
  {
    if steps == [] { EmptyShape([src]); }
    else {
      var s := steps[0];
      assert SoundStep(s) by { assert s in steps; }
      SeparateParts(IdsOf(s), Ids(steps[1..]), [src]);
      assert s.id != src by { assert IdsOf(s)[0] == s.id && IdsOf(s)[0] in IdsOf(s); }
      var head := Built([NodeOf(s, r)], NewEdge(src, s.id, typ, tag), [s.id]);
      HeadedShape(s, head, [src], r);
      RestShape(steps, Join(head, Inside(s, r)), [src], r);
    }
  }

  lemma {:induction false} BranchesShape(branches: seq<Block>, src: string, i: nat, r: Region)
    requires branches != [] && (forall b | b in branches :: Sound(b.steps)) && src != ""
    requires Separate(BranchIds(branches), [src])
    ensures Shape(OfBranches(branches, src, i, r), BranchIds(branches), [src])
    decreases branches, 0
  {
    assert branches[0] in branches;
    var one := OfBranch(branches[0].steps, src, ParallelEdge, Number(i + 1), BranchOf(r, i));
    SeparateParts(Ids(branches[0].steps), BranchIds(branches[1..]), [src]);
    BranchShape(branches[0].steps, src, ParallelEdge, Number(i + 1), BranchOf(r, i));
    if |branches| == 1 {
      assert OfBranches(branches[1..], src, i + 1, r) == Built([], [], []);
      assert Both(one, Built([], [], [])) == one;
      assert BranchIds(branches) == Ids(branches[0].steps);
    } else {
      forall b | b in branches[1..] ensures b in branches { }
      BranchesShape(branches[1..], src, i + 1, r);
      ShapeBoth(one, OfBranches(branches[1..], src, i + 1, r), Ids(branches[0].steps), BranchIds(branches[1..]), [src]);
    }
  }

  // ---- The whole graph ----

  function TriggerIds(triggers: seq<string>): seq<string> {
    seq(|triggers|, i requires 0 <= i < |triggers| => TriggerNodeId(triggers[i]))
  }

  /** A valid document: a well-formed tree of fresh ids, different trigger ids, and no
      step named like the two drawn nodes. */
  predicate ValidDoc(doc: Doc, limits: Limits) {
    && doc.steps != [] && WellFormed(doc.steps, 0, limits) && Fresh(Ids(doc.steps), {})
    && (forall i, j | 0 <= i < j < |doc.triggers| :: doc.triggers[i] != doc.triggers[j])
    && START !in Ids(doc.steps) && END !in Ids(doc.steps)
  }

  function AllIds(doc: Doc): seq<string> { TriggerIds(doc.triggers) + Ids(doc.steps) + [END] }

  lemma {:induction false} IdsAreOk(steps: seq<Step>, depth: nat, limits: Limits)
    requires WellFormed(steps, depth, limits)
    ensures forall id | id in Ids(steps) :: StepIdOk(id)
    decreases steps, 0
  {
    if steps != [] {
      assert steps[0] in steps;
      StepIdsAreOk(steps[0], depth, limits);
      forall s | s in steps[1..] ensures s in steps { }
      IdsAreOk(steps[1..], depth, limits);
    }
  }

  lemma {:induction false} StepIdsAreOk(s: Step, depth: nat, limits: Limits)
    requires StepIdOk(s.id) && WellFormedStep(s, depth, limits)
    ensures forall id | id in IdsOf(s) :: StepIdOk(id)
    decreases s, 0
  {
    match s.node
    case If(_, thn, els) =>
      IdsAreOk(thn, depth + 1, limits);
      if els != [] { IdsAreOk(els, depth + 1, limits); }
    case Foreach(_, _, body) => IdsAreOk(body, depth + 1, limits);
    case Parallel(branches) => BranchIdsAreOk(branches, depth + 1, limits);
    case _ =>
  }

  lemma {:induction false} BranchIdsAreOk(branches: seq<Block>, depth: nat, limits: Limits)
    requires forall b | b in branches :: WellFormed(b.steps, depth, limits)
    ensures forall id | id in BranchIds(branches) :: StepIdOk(id)
    decreases branches, 0
  {
    if branches != [] {
      assert branches[0] in branches;
      IdsAreOk(branches[0].steps, depth, limits);
      forall b | b in branches[1..] ensures b in branches { }
      BranchIdsAreOk(branches[1..], depth, limits);
    }
  }

  lemma AllIdsSeparate(doc: Doc, limits: Limits)
    requires ValidDoc(doc, limits)
    ensures Separate(AllIds(doc), [START])
  {
    var t, ids := TriggerIds(doc.triggers), Ids(doc.steps);
    IdsAreOk(doc.steps, 0, limits);
    FreshMeansDistinct(ids, {});
    forall i | 0 <= i < |t| ensures t[i] !in ids && t[i] != START && t[i] != END {
      assert t[i][7] == ':' && t[i][0] == 't' && START[0] == '_' && END[0] == '_';
      assert !IsIdChar(t[i][7]) && !StepIdOk(t[i]);
    }
    forall i, j | 0 <= i < j < |t| ensures t[i] != t[j] {
      assert t[i][8..] == doc.triggers[i] && t[j][8..] == doc.triggers[j];
    }
    assert START[2] == 's' && END[2] == 'e';
    var all := AllIds(doc);
    forall i, j | 0 <= i < j < |all| ensures all[i] != all[j] {
      if i < |t| {
        assert all[i] == t[i];
        if j < |t| { assert all[j] == t[j]; }
        else if j < |t| + |ids| { assert all[j] == ids[j - |t|]; }
      } else {
        assert all[i] == ids[i - |t|];
        if j < |t| + |ids| { assert all[j] == ids[j - |t|]; }
      }
    }
  }

  lemma {:induction false} TriggerNodeIdsAre(triggers: seq<string>)
    ensures NodeIds(TriggerNodes(triggers)) == TriggerIds(triggers)
    decreases |triggers|
  {
    if triggers != [] {
      assert TriggerNodes(triggers)[1..] == TriggerNodes(triggers[1..]);
      TriggerNodeIdsAre(triggers[1..]);
    }
  }

  lemma FanConnected(e: Pairs, ids: seq<string>, start: string)
    requires ids != [] && forall id | id in ids :: (start, id) in e
    ensures Connected(e, ids, ids, [start])
  {
    forall y | y in ids ensures Entered(e, y, [start]) { assert start in [start]; ReachEdge(e, start, y); }
    forall x | x in ids || x in [start] ensures Left(e, ids, x) {
      if x in ids { ReachSelf(e, x); } else { assert ids[0] in ids; ReachEdge(e, start, ids[0]); }
    }
  }

  lemma EntryShape(doc: Doc)
    requires Separate(TriggerIds(doc.triggers), [START])
    ensures Shape(Built(TriggerNodes(doc.triggers), TriggerEdges(doc.triggers), Entries(doc)),
                  TriggerIds(doc.triggers), [START])
  {
    var b := Built(TriggerNodes(doc.triggers), TriggerEdges(doc.triggers), Entries(doc));
    var e, ids := PairsOf(b.edges), TriggerIds(doc.triggers);
    if doc.triggers == [] {
      assert b == Built([], [], [START]);
      EmptyShape([START]);
    } else {
      TriggerNodeIdsAre(doc.triggers);
      assert b.exits == ids;
      forall i | 0 <= i < |ids| ensures (START, ids[i]) in e { assert TriggerEdges(doc.triggers)[i] in b.edges; }
      forall p | p in e ensures p.0 == START && p.1 in ids {
        var k :| k in b.edges && p == (k.src, k.dst);
        var i :| 0 <= i < |b.edges| && b.edges[i] == k;
        assert ids[i] == p.1;
      }
      assert Ordered(e, ids) by { forall i | 0 <= i < |ids| ensures ids[i] != START { assert ids[i] in ids; } }
      FanConnected(e, ids, START);
    }
  }

  /** Each step of a valid document is exactly one node of the graph (as are the start,
      the triggers and the end), the node list is a topological order of the edges,
      every node is reached from the start and every node reaches the end. */
  lemma GraphShapeHolds(doc: Doc, limits: Limits)
    requires ValidDoc(doc, limits)
    ensures var e, ids := PairsOf(GraphOf(doc).edges), NodeIds(GraphOf(doc).nodes);
      && ids == [START] + TriggerIds(doc.triggers) + Ids(doc.steps) + [END]
      && (forall i, j | 0 <= i < j < |ids| :: ids[i] != ids[j])
      && (forall p | p in e :: p.0 in ids && p.1 in ids)
      && Ordered(e, ids)
      && (forall id | id in ids :: Reach(e, START, id) && Reach(e, id, END))
  {
    AllIdsSeparate(doc, limits);
    AssembledShape(doc, limits);
    WholeGraph(doc, Assembled(doc));
  }

  /** The triggers, the steps and the end, one after another. */
  function Assembled(doc: Doc): Built {
    var body := OfSteps(doc.steps, Entries(doc), Main);
    Join(Join(Built(TriggerNodes(doc.triggers), TriggerEdges(doc.triggers), Entries(doc)), body),
         Built([GNode(END, EndNode, None)], EdgesTo(body.exits, END), [END]))
  }

  lemma AssembledShape(doc: Doc, limits: Limits)
    requires ValidDoc(doc, limits)
    ensures Shape(Assembled(doc), AllIds(doc), [START])
  {
    var t, steps := TriggerIds(doc.triggers), Ids(doc.steps);
    var entry := Built(TriggerNodes(doc.triggers), TriggerEdges(doc.triggers), Entries(doc));
    var body := OfSteps(doc.steps, Entries(doc), Main);
    var tail := Built([GNode(END, EndNode, None)], EdgesTo(body.exits, END), [END]);
    AllIdsSeparate(doc, limits);
    SeparateParts(t + steps, [END], [START]);
    SeparateParts(t, steps, [START]);
    EntryShape(doc);
    BodyShape(doc, limits);
    ShapeJoin(entry, body, t, steps, [START]);
    BodyExits(doc, limits);
    EdgesToPairs(body.exits, END);
    HeadShape(END, tail, body.exits);
    ShapeJoin(Join(entry, body), tail, t + steps, [END], [START]);
  }

  lemma BodyShape(doc: Doc, limits: Limits)
    requires ValidDoc(doc, limits)
    ensures Shape(OfSteps(doc.steps, Entries(doc), Main), Ids(doc.steps), Entries(doc))
  {
    AllIdsSeparate(doc, limits);
    var t, steps := TriggerIds(doc.triggers), Ids(doc.steps);
    SeparateParts(t + steps, [END], [START]);
    SeparateParts(t, steps, [START]);
    ValidIsSound(doc.steps, 0, limits);
    assert Entries(doc) == if doc.triggers == [] then [START] else t;
    forall p | p in Entries(doc) ensures p != "" { }
    StepsShape(doc.steps, Entries(doc), Main);
  }

  lemma BodyExits(doc: Doc, limits: Limits)
    requires ValidDoc(doc, limits)
    ensures var x := OfSteps(doc.steps, Entries(doc), Main).exits; END !in x && "" !in x
  {
    BodyShape(doc, limits);
    AllIdsSeparate(doc, limits);
    ValidIsSound(doc.steps, 0, limits);
    NoEmptyIds(doc.steps);
    var t, steps := TriggerIds(doc.triggers), Ids(doc.steps);
    SeparateParts(t + steps, [END], [START]);
    assert Entries(doc) == if doc.triggers == [] then [START] else t;
    assert forall x | x in t + steps :: x != END by { forall x | x in t + steps ensures x !in [END] { } }
  }

  lemma WholeGraph(doc: Doc, b: Built)
    requires Shape(b, AllIds(doc), [START]) && Separate(AllIds(doc), [START])
    requires GraphOf(doc).nodes == [GNode(START, StartNode, None)] + b.nodes && GraphOf(doc).edges == b.edges
    requires b.exits == [END]
    ensures var e, ids := PairsOf(GraphOf(doc).edges), NodeIds(GraphOf(doc).nodes);
      && ids == [START] + AllIds(doc)
      && (forall i, j | 0 <= i < j < |ids| :: ids[i] != ids[j])
      && (forall p | p in e :: p.0 in ids && p.1 in ids)
      && Ordered(e, ids)
      && (forall id | id in ids :: Reach(e, START, id) && Reach(e, id, END))
  {
    var e, rest := PairsOf(b.edges), AllIds(doc);
    NodeIdsConcat([GNode(START, StartNode, None)], b.nodes);
    assert NodeIds([GNode(START, StartNode, None)]) == [START];
    WithStart(e, rest);
    forall id | id in [START] + rest ensures Reach(e, START, id) && Reach(e, id, END) {
      StartToEnd(e, rest, id);
    }
  }

  lemma WithStart(e: Pairs, rest: seq<string>)
    requires Separate(rest, [START]) && Ordered(e, rest)
    requires forall p | p in e :: p.1 in rest && (p.0 in rest || p.0 in [START])
    ensures var ids := [START] + rest;
      && (forall i, j | 0 <= i < j < |ids| :: ids[i] != ids[j])
      && (forall p | p in e :: p.0 in ids && p.1 in ids)
      && Ordered(e, ids)
  {
    var ids := [START] + rest;
    assert forall i | 0 < i < |ids| :: ids[i] == rest[i - 1] && rest[i - 1] in rest;
    assert START !in rest by { forall i | 0 <= i < |rest| ensures rest[i] != START { assert rest[i] in rest; } }
    forall i, j | 0 <= i < |ids| && 0 <= j < |ids| && (ids[i], ids[j]) in e ensures i < j {
      assert ids[j] in rest;
      if i > 0 { assert (rest[i - 1], rest[j - 1]) in e; }
    }
  }

  lemma StartToEnd(e: Pairs, rest: seq<string>, id: string)
    requires Connected(e, [END], rest, [START]) && (id in [START] + rest)
    ensures Reach(e, START, id) && Reach(e, id, END)
  {
    assert Left(e, [END], id);
    if id in rest { assert Entered(e, id, [START]); } else { ReachSelf(e, START); }
  }
}
