/** Runs turn where the graph says: a completed run leaves an `if` step along the edge whose
    label is the answer of its condition. */
module GraphTurns {
  import opened Workflow
  import opened Validate
  import opened Visits
  import opened Graph
  import opened GraphShape
  import opened GraphWalks
  import opened GraphLabels
  import Machine
  import OutcomesExact

  /** What follows an `if` step in a visit order: the first step of the branch it goes to,
      or, where there is no else-branch, something outside it. */
  predicate Turns(o: seq<string>, s: Step, taken: set<string>) {
    forall i | 0 <= i < |o| && o[i] == s.id :: TurnsAt(o, s, taken, i)
  }

  predicate TurnsAt(o: seq<string>, s: Step, taken: set<string>, i: nat)
    requires i < |o|
  {
    s.node.If? ==>
      if s.id in taken then s.node.thn != [] && i + 1 < |o| && o[i + 1] == s.node.thn[0].id
      else if s.node.els != [] then i + 1 < |o| && o[i + 1] == s.node.els[0].id
      else i + 1 < |o| ==> o[i + 1] !in IdsOf(s)
  }

  /** The ids of a step inside another are among its ids. */
  lemma {:induction false} InnerIds(s: Step, t: Step)
    requires t in StepsIn(s)
    ensures forall id | id in IdsOf(t) :: id in IdsOf(s)
    decreases s, 0
  {
    if t != s {
      match s.node
      case If(_, thn, els) => if t in AllSteps(thn) { IdsWithin(thn, t); } else { IdsWithin(els, t); }
      case Foreach(_, _, body) => IdsWithin(body, t);
      case Parallel(branches) => BranchIdsWithin(branches, t);
    }
  }

  lemma {:induction false} IdsWithin(steps: seq<Step>, t: Step)
    requires t in AllSteps(steps)
    ensures forall id | id in IdsOf(t) :: id in Ids(steps)
    decreases steps, 0
  {
    if t in StepsIn(steps[0]) { InnerIds(steps[0], t); } else { IdsWithin(steps[1..], t); }
  }

  lemma {:induction false} BranchIdsWithin(branches: seq<Block>, t: Step)
    requires t in BranchSteps(branches)
    ensures forall id | id in IdsOf(t) :: id in BranchIds(branches)
    decreases branches, 0
  {
    if t in AllSteps(branches[0].steps) { IdsWithin(branches[0].steps, t); }
    else { BranchIdsWithin(branches[1..], t); }
  }

  lemma {:induction false} OrderIds(steps: seq<Step>, taken: set<string>)
    requires NoParallels(steps)
    ensures forall id | id in Order(steps, taken) :: id in Ids(steps)
    ensures steps != [] ==> |Order(steps, taken)| > 0 && Order(steps, taken)[0] == steps[0].id
    decreases steps, 0
  {
    if steps != [] {
      OrderOfIds(steps[0], taken);
      OrderIds(steps[1..], taken);
    }
  }

  lemma {:induction false} OrderOfIds(s: Step, taken: set<string>)
    requires NoParallel(s)
    ensures forall id | id in OrderOf(s, taken) :: id in IdsOf(s)
    ensures |OrderOf(s, taken)| > 0 && OrderOf(s, taken)[0] == s.id
    decreases s, 0
  {
    assert IdsOf(s)[0] == s.id;
    match s.node
    case If(_, thn, els) =>
      OrderIds(thn, taken);
      OrderIds(els, taken);
    case Foreach(_, _, body) => OrderIds(body, taken);
    case _ =>
  }

  lemma {:induction false} StepsTurn(steps: seq<Step>, taken: set<string>, s: Step)
    requires Sound(steps) && NoParallels(steps) && Separate(Ids(steps), []) && s in AllSteps(steps)
    ensures Turns(Order(steps, taken), s, taken)
    decreases steps, 0
  {
    var head, rest := steps[0], steps[1..];
    assert SoundStep(head) by { assert head in steps; }
    SeparateParts(IdsOf(head), Ids(rest), []);
    OrderOfIds(head, taken);
    OrderIds(rest, taken);
    if s in StepsIn(head) {
      StepTurns(head, taken, s);
      InnerIds(head, s);
      InnerIdsAreIds(head);
      TurnsBefore(OrderOf(head, taken), Order(rest, taken), s, taken);
    } else {
      StepsTurn(rest, taken, s);
      StepIdsAreIds(rest);
      TurnsAfter(OrderOf(head, taken), Order(rest, taken), s, taken);
    }
  }

  lemma TurnsBefore(a: seq<string>, b: seq<string>, s: Step, taken: set<string>)
    requires Turns(a, s, taken) && s.id !in b && forall id | id in b :: id !in IdsOf(s)
    ensures Turns(a + b, s, taken)
  {
    var o := a + b;
    assert forall i | |a| <= i < |o| :: o[i] == b[i - |a|] && o[i] in b;
    assert forall i | 0 <= i < |a| :: o[i] == a[i];
    forall i | 0 <= i < |o| && o[i] == s.id ensures TurnsAt(o, s, taken, i) { assert TurnsAt(a, s, taken, i); }
  }

  lemma TurnsAfter(a: seq<string>, b: seq<string>, s: Step, taken: set<string>)
    requires Turns(b, s, taken) && s.id !in a
    ensures Turns(a + b, s, taken)
  {
    var o := a + b;
    assert forall i | 0 <= i < |a| :: o[i] == a[i] && o[i] in a;
    assert forall i | |a| <= i < |o| :: o[i] == b[i - |a|];
    forall i | 0 <= i < |o| && o[i] == s.id ensures TurnsAt(o, s, taken, i) { assert TurnsAt(b, s, taken, i - |a|); }
  }

  lemma {:induction false} StepTurns(s: Step, taken: set<string>, t: Step)
    requires SoundStep(s) && NoParallel(s) && Separate(IdsOf(s), []) && t in StepsIn(s)
    ensures Turns(OrderOf(s, taken), t, taken)
    decreases s, 0
  {
    var inner, o := IdsOf(s)[1..], OrderOf(s, taken);
    assert IdsOf(s) == [s.id] + inner && o == [s.id] + o[1..];
    SeparateParts([s.id], inner, []);
    assert s.id in [s.id] && s.id !in inner;
    assert Separate(inner, [s.id]);
    match s.node
    case If(_, thn, els) =>
      assert inner == Ids(thn) + Ids(els);
      SeparateParts(Ids(thn), Ids(els), [s.id]);
      assert s.id !in Ids(thn) && s.id !in Ids(els);
      if t == s {
        OrderIds(thn, taken);
        OrderIds(els, taken);
        OnlyFirst(s.id, o[1..]);
      } else if s.id in taken { InnerTurns(s.id, thn, els, taken, t); }
      else { InnerTurns(s.id, els, thn, taken, t); }
    case Foreach(_, _, body) =>
      assert inner == Ids(body) && o[1..] == Order(body, taken);
      if t != s { InnerTurns(s.id, body, [], taken, t); }
    case _ =>
  }

  lemma {:induction false} InnerTurns(id: string, branch: seq<Step>, other: seq<Step>, taken: set<string>, t: Step)
    requires Sound(branch) && NoParallels(branch) && Separate(Ids(branch), [id])
    requires (t in AllSteps(branch) || t in AllSteps(other)) && id !in Ids(other)
    requires forall x | x in Ids(other) :: x !in Ids(branch)
    ensures Turns([id] + Order(branch, taken), t, taken)
    decreases branch, 1
  {
    OrderIds(branch, taken);
    StepIdsAreIds(branch);
    StepIdsAreIds(other);
    if t in AllSteps(branch) {
      StepsTurn(branch, taken, t);
      TurnsAfter([id], Order(branch, taken), t, taken);
    }
  }

  lemma OnlyFirst(id: string, rest: seq<string>)
    requires id !in rest
    ensures forall i | 0 <= i < |[id] + rest| && ([id] + rest)[i] == id :: i == 0
  {
    var o := [id] + rest;
    forall i | 0 < i < |o| ensures o[i] != id { assert o[i] == rest[i - 1]; }
  }

  /** For a valid document without `parallel` and a completed run over one-element lists:
      the walk of the run leaves an `if` step along the edge labelled `then` exactly when
      the condition came out true, and along the edge labelled `else` exactly when it came
      out false and there is an else-branch. */
  lemma RunsTurnAsLabelled(doc: Doc, limits: Limits, env: Env, schedule: seq<Machine.Event>, p: string, s: Step, i: nat)
    requires ValidDoc(doc, limits) && NoParallels(doc.steps) && p in Entries(doc)
    requires Machine.Run(env, Machine.Start(doc.steps), schedule).Some?
    requires var g := Machine.Run(env, Machine.Start(doc.steps), schedule).value;
      && g.single && g.proc == Machine.Ret(None)
      && i + 1 < |Path(doc, p, g.visited)| && Path(doc, p, g.visited)[i] == s.id
    requires s in AllSteps(doc.steps) && s.node.If?
    ensures var g := Machine.Run(env, Machine.Start(doc.steps), schedule).value;
      var w, wasTrue := Path(doc, p, g.visited), s.id in OutcomesExact.Took(env, Machine.Start(doc.steps), schedule);
      && (exists e :: e in GraphOf(doc).edges && e.src == w[i] && e.dst == w[i + 1])
      && (forall e | e in GraphOf(doc).edges && e.src == w[i] && e.dst == w[i + 1] ::
            && (e.tag == ThenLabel <==> wasTrue)
            && (e.tag == ElseLabel <==> !wasTrue && s.node.els != []))
  {
    var g := Machine.Run(env, Machine.Start(doc.steps), schedule).value;
    var taken, w := OutcomesExact.Took(env, Machine.Start(doc.steps), schedule), Path(doc, p, g.visited);
    DocParts(doc, limits);
    FreshMeansDistinct(Ids(doc.steps), {});
    OutcomesExact.RunIsOutcome(env, doc.steps, schedule);
    StepsTurn(doc.steps, taken, s);
    GraphAndRunAgree(doc, limits, env, schedule, p);
    EdgesSayWhere(doc, limits);
    OrderIds(doc.steps, taken);
    StepIdsAreIds(doc.steps);
    var k := InVisits(doc, limits, p, g.visited, s.id, i);
    assert (w[i], w[i + 1]) in PairsOf(GraphOf(doc).edges);
    forall e | e in GraphOf(doc).edges && e.src == w[i] && e.dst == w[i + 1]
      ensures (e.tag == ThenLabel <==> s.id in taken) && (e.tag == ElseLabel <==> s.id !in taken && s.node.els != [])
    {
      assert Leaves(s, e);
      LabelIs(doc, limits, s, e, taken, g.visited, k);
    }
  }

  /** Where a step's id stands in a path, it stands in the visit order. */
  lemma InVisits(doc: Doc, limits: Limits, p: string, v: seq<string>, id: string, i: nat) returns (k: nat)
    requires ValidDoc(doc, limits) && p in Entries(doc) && id in Ids(doc.steps)
    requires i < |Path(doc, p, v)| && Path(doc, p, v)[i] == id
    ensures k < |v| && v[k] == id
    ensures i + 1 < |Path(doc, p, v)| && Path(doc, p, v)[i + 1] == if k + 1 < |v| then v[k + 1] else END
  {
    DocParts(doc, limits);
    var pre := if doc.triggers == [] then [START] else [START, p];
    var w := Path(doc, p, v);
    assert w == pre + (v + [END]);
    assert forall j | 0 <= j < |pre| :: w[j] == pre[j] && w[j] !in Ids(doc.steps);
    k := i - |pre|;
  }

  lemma LabelIs(doc: Doc, limits: Limits, s: Step, e: GEdge, taken: set<string>, v: seq<string>, k: nat)
    requires ValidDoc(doc, limits) && s in AllSteps(doc.steps) && s.node.If? && Leaves(s, e)
    requires Turns(v, s, taken) && k < |v| && v[k] == s.id && e.dst == if k + 1 < |v| then v[k + 1] else END
    ensures (e.tag == ThenLabel <==> s.id in taken) && (e.tag == ElseLabel <==> s.id !in taken && s.node.els != [])
  {
    assert s in StepsIn(s) by { SelfInside(s); }
    HeadsInside(s, s);
    HeadsOfAll(doc.steps, s);
    assert TurnsAt(v, s, taken, k);
    var thn, els := s.node.thn, s.node.els;
    if s.id in taken { assert thn != [] && e.dst == thn[0].id; }
    else if els != [] { assert e.dst == els[0].id; }
    else { assert thn != [] ==> e.dst != thn[0].id; }
  }

  lemma SelfInside(s: Step)
    ensures s in StepsIn(s)
  {
  }
}
