/** Parallel refines sequential. `EvalSteps` runs a step list with the branches of every
    group one after another; every schedule of a non-interfering tree ends where it does. */
module Confluence {
  import opened Workflow
  import opened Machine

  /** The scope and the number of leaf steps run. */
  datatype Final = Final(cells: Cells, leaves: nat)

  function Plus(o: Option<Final>, n: nat): Option<Final> {
    match o
    case None => None
    case Some(f) => Some(Final(f.cells, f.leaves + n))
  }

  /** All templates of a map, evaluated in the same scope. */
  function ResolveAll(env: Env, ts: map<string, Template>, cells: Cells): Option<map<string, Value>> {
    if forall k | k in ts :: env.eval(ts[k], cells).Ok? then
      Some(map k | k in ts :: env.eval(ts[k], cells).value)
    else None
  }

  function VarCells(vals: map<string, Value>): Cells {
    map k | k in vals :: Var(k) := Val(vals[k])
  }

  function AssignAll(env: Env, ts: map<string, Template>, cells: Cells): Option<Final> {
    match ResolveAll(env, ts, cells)
    case None => None
    case Some(vals) => Some(Final(cells + VarCells(vals), 0))
  }

  function FinishTool(env: Env, s: Step, args: map<string, Value>, cells: Cells): Option<Final>
    requires s.node.Tool?
  {
    match CallTool(env, s.node.use, args)
    case Ok(v) => Some(Final(cells[StepRec(s.id) := Rec(v, "")], 0))
    case Error(e) =>
      if s.node.onError.Continue? then Some(Final(cells[StepRec(s.id) := Rec(Null, StepText(s.id, e))], 0))
      else None
  }

  function FinishArgs(env: Env, s: Step, pending: map<string, Template>, got: map<string, Value>, cells: Cells)
    : Option<Final>
    requires s.node.Tool?
  {
    match ResolveAll(env, pending, cells)
    case None => None
    case Some(vals) => FinishTool(env, s, got + vals, cells)
  }

  /** The sequential meaning of steps; None when a step fails (a tool error under
      `on_error: continue` is not a failure, a bad template always is). */
  function EvalStep(env: Env, s: Step, cells: Cells): Option<Final>
    decreases s, 0, 0
  {
    match s.node
    case Tool(_, args, _) => Plus(FinishArgs(env, s, args, map[], cells), 1)
    case Assign(bindings) => Plus(AssignAll(env, bindings, cells), 1)
    case Wait(_) => Some(Final(cells, 1))
    case If(cond, thn, els) =>
      (match env.eval(cond, cells)
       case Ok(v) => if Truthy(v) then EvalSteps(env, thn, cells) else EvalSteps(env, els, cells)
       case Error(_) => None)
    case Foreach(source, item, body) =>
      (match env.eval(source, cells)
       case Ok(v) => if v.List? then EvalLoop(env, item, v.items, body, cells) else None
       case Error(_) => None)
    case Parallel(branches) => EvalBranches(env, branches, cells)
  }

  function EvalSteps(env: Env, steps: seq<Step>, cells: Cells): Option<Final>
    decreases steps, 0, 0
  {
    if steps == [] then Some(Final(cells, 0))
    else
      match EvalStep(env, steps[0], cells)
      case None => None
      case Some(f) => Plus(EvalSteps(env, steps[1..], f.cells), f.leaves)
  }

  function EvalLoop(env: Env, item: string, items: seq<Value>, body: seq<Step>, cells: Cells): Option<Final>
    decreases body, 1, |items|
  {
    if items == [] then Some(Final(cells, 0))
    else
      match EvalSteps(env, body, cells[Var(item) := Val(items[0])])
      case None => None
      case Some(f) => Plus(EvalLoop(env, item, items[1..], body, f.cells), f.leaves)
  }

  function EvalBranches(env: Env, branches: seq<Block>, cells: Cells): Option<Final>
    decreases branches, 0, 0
  {
    if branches == [] then Some(Final(cells, 0))
    else
      match EvalSteps(env, branches[0].steps, cells)
      case None => None
      case Some(f) => Plus(EvalBranches(env, branches[1..], f.cells), f.leaves)
  }

  /** What is left of a goroutine, run alone to its end, branches in order. */
  function Rest(env: Env, p: Proc, cells: Cells): Option<Final>
    requires WellShaped(p)
    decreases p, 0
  {
    match p
    case Ret(err) => if err.None? then Some(Final(cells, 0)) else None
    case Todo(steps) => EvalSteps(env, steps, cells)
    case Then(cur, rest) =>
      (match Rest(env, cur, cells)
       case None => None
       case Some(f) => Plus(EvalSteps(env, rest, f.cells), f.leaves))
    case Enter(s) => EvalStep(env, s, cells)
    case Args(s, pending, got) => FinishArgs(env, s, pending, got, cells)
    case Call(s, args) => FinishTool(env, s, args, cells)
    case Write(loc, cell, next) => Rest(env, next, cells[loc := cell])
    case Bind(_, pending) => AssignAll(env, pending, cells)
    case Sleep(_) => Some(Final(cells, 0))
    case Loop(item, items, body) => EvalLoop(env, item, items, body, cells)
    case Iter(cur, item, items, body) =>
      (match Rest(env, cur, cells)
       case None => None
       case Some(f) => Plus(EvalLoop(env, item, items, body, f.cells), f.leaves))
    case Par(bs, first) => if first.Some? then None else RestAll(env, bs, cells)
  }

  function RestAll(env: Env, bs: seq<Proc>, cells: Cells): Option<Final>
    requires forall i | 0 <= i < |bs| :: WellShaped(bs[i])
    decreases bs, 0
  {
    if bs == [] then Some(Final(cells, 0))
    else
      match Rest(env, bs[0], cells)
      case None => None
      case Some(f) => Plus(RestAll(env, bs[1..], f.cells), f.leaves)
  }

  // ---- Footprints ----

  ghost function TemplateReads(env: Env, ts: map<string, Template>): iset<Loc> {
    iset k, l | k in ts && l in env.footprint(ts[k]) :: l
  }

  ghost function Targets(ts: map<string, Template>): iset<Loc> { iset k | k in ts :: Var(k) }

  ghost function StepWrites(s: Step): iset<Loc>
    decreases s, 0
  {
    match s.node
    case Tool(_, _, _) => iset{StepRec(s.id)}
    case Assign(bindings) => Targets(bindings)
    case Wait(_) => iset{}
    case If(_, thn, els) => StepsWrites(thn) + StepsWrites(els)
    case Foreach(_, item, body) => iset{Var(item)} + StepsWrites(body)
    case Parallel(branches) => BranchesWrites(branches)
  }

  ghost function StepsWrites(steps: seq<Step>): iset<Loc>
    decreases steps, 0
  {
    if steps == [] then iset{} else StepWrites(steps[0]) + StepsWrites(steps[1..])
  }

  ghost function BranchesWrites(branches: seq<Block>): iset<Loc>
    decreases branches, 0
  {
    if branches == [] then iset{} else StepsWrites(branches[0].steps) + BranchesWrites(branches[1..])
  }

  ghost function StepReads(env: Env, s: Step): iset<Loc>
    decreases s, 0
  {
    match s.node
    case Tool(_, args, _) => TemplateReads(env, args)
    case Assign(bindings) => TemplateReads(env, bindings)
    case Wait(_) => iset{}
    case If(cond, thn, els) => env.footprint(cond) + StepsReads(env, thn) + StepsReads(env, els)
    case Foreach(source, _, body) => env.footprint(source) + StepsReads(env, body)
    case Parallel(branches) => BranchesReads(env, branches)
  }

  ghost function StepsReads(env: Env, steps: seq<Step>): iset<Loc>
    decreases steps, 0
  {
    if steps == [] then iset{} else StepReads(env, steps[0]) + StepsReads(env, steps[1..])
  }

  ghost function BranchesReads(env: Env, branches: seq<Block>): iset<Loc>
    decreases branches, 0
  {
    if branches == [] then iset{} else StepsReads(env, branches[0].steps) + BranchesReads(env, branches[1..])
  }

  ghost function Writes(p: Proc): iset<Loc>
    decreases p, 0
  {
    match p
    case Ret(_) => iset{}
    case Todo(steps) => StepsWrites(steps)
    case Then(cur, rest) => Writes(cur) + StepsWrites(rest)
    case Enter(s) => StepWrites(s)
    case Args(s, _, _) => iset{StepRec(s.id)}
    case Call(s, _) => iset{StepRec(s.id)}
    case Write(loc, _, next) => iset{loc} + Writes(next)
    case Bind(_, pending) => Targets(pending)
    case Sleep(_) => iset{}
    case Loop(item, _, body) => iset{Var(item)} + StepsWrites(body)
    case Iter(cur, item, _, body) => Writes(cur) + iset{Var(item)} + StepsWrites(body)
    case Par(bs, _) => AllWrites(bs)
  }

  ghost function AllWrites(bs: seq<Proc>): iset<Loc>
    decreases bs, 0
  {
    if bs == [] then iset{} else Writes(bs[0]) + AllWrites(bs[1..])
  }

  ghost function Reads(env: Env, p: Proc): iset<Loc>
    decreases p, 0
  {
    match p
    case Todo(steps) => StepsReads(env, steps)
    case Then(cur, rest) => Reads(env, cur) + StepsReads(env, rest)
    case Enter(s) => StepReads(env, s)
    case Args(_, pending, _) => TemplateReads(env, pending)
    case Write(_, _, next) => Reads(env, next)
    case Bind(_, pending) => TemplateReads(env, pending)
    case Loop(_, _, body) => StepsReads(env, body)
    case Iter(cur, _, _, body) => Reads(env, cur) + StepsReads(env, body)
    case Par(bs, _) => AllReads(env, bs)
    case _ => iset{}
  }

  ghost function AllReads(env: Env, bs: seq<Proc>): iset<Loc>
    decreases bs, 0
  {
    if bs == [] then iset{} else Reads(env, bs[0]) + AllReads(env, bs[1..])
  }

  /** Neither of two pieces of work writes what the other reads or writes. */
  ghost predicate Apart(w1: iset<Loc>, r1: iset<Loc>, w2: iset<Loc>, r2: iset<Loc>) {
    w1 !! (w2 + r2) && w2 !! (w1 + r1)
  }

  // ---- Non-interference ----

  /** A binding may read its own target, but not those of the others. */
  ghost predicate ReadsNoOther(env: Env, ts: map<string, Template>, k: string)
    requires k in ts
  {
    Targets(ts - {k}) !! env.footprint(ts[k])
  }

  ghost predicate SelfIndependent(env: Env, ts: map<string, Template>) {
    forall k | k in ts :: ReadsNoOther(env, ts, k)
  }

  /** No branch writes what another branch reads or writes, at any depth, and no binding
      of an assignment reads the target of another binding of it. */
  ghost predicate StepSafe(env: Env, s: Step)
    decreases s, 0
  {
    match s.node
    case Assign(bindings) => SelfIndependent(env, bindings)
    case If(_, thn, els) => StepsSafe(env, thn) && StepsSafe(env, els)
    case Foreach(_, _, body) => StepsSafe(env, body)
    case Parallel(branches) => BranchesSafe(env, branches)
    case _ => true
  }

  ghost predicate StepsSafe(env: Env, steps: seq<Step>)
    decreases steps, 0
  {
    steps != [] ==> StepSafe(env, steps[0]) && StepsSafe(env, steps[1..])
  }

  ghost predicate BranchesSafe(env: Env, branches: seq<Block>)
    decreases branches, 0
  {
    branches != [] ==>
      && StepsSafe(env, branches[0].steps)
      && Apart(StepsWrites(branches[0].steps), StepsReads(env, branches[0].steps),
               BranchesWrites(branches[1..]), BranchesReads(env, branches[1..]))
      && BranchesSafe(env, branches[1..])
  }

  ghost predicate Safe(env: Env, p: Proc)
    decreases p, 0
  {
    match p
    case Todo(steps) => StepsSafe(env, steps)
    case Then(cur, rest) => Safe(env, cur) && StepsSafe(env, rest)
    case Enter(s) => StepSafe(env, s)
    case Write(_, _, next) => Safe(env, next)
    case Bind(_, pending) => SelfIndependent(env, pending)
    case Loop(_, _, body) => StepsSafe(env, body)
    case Iter(cur, _, _, body) => Safe(env, cur) && StepsSafe(env, body)
    case Par(bs, _) => AllSafe(env, bs)
    case _ => true
  }

  ghost predicate AllSafe(env: Env, bs: seq<Proc>)
    decreases bs, 0
  {
    bs != [] ==>
      && Safe(env, bs[0])
      && Apart(Writes(bs[0]), Reads(env, bs[0]), AllWrites(bs[1..]), AllReads(env, bs[1..]))
      && AllSafe(env, bs[1..])
  }

  // ---- What a piece of work depends on and changes ----

  ghost predicate Similar(o1: Option<Final>, o2: Option<Final>, r: iset<Loc>) {
    match (o1, o2)
    case (None, None) => true
    case (Some(f1), Some(f2)) => f1.leaves == f2.leaves && Agree(f1.cells, f2.cells, r)
    case _ => false
  }

  lemma ResolveFrame(env: Env, t: Template, c1: Cells, c2: Cells, r: iset<Loc>)
    requires HasFootprints(env) && env.footprint(t) <= r && Agree(c1, c2, r)
    ensures env.eval(t, c1) == env.eval(t, c2)
  {
    assert Agree(c1, c2, env.footprint(t));
  }

  lemma ResolveAllFrame(env: Env, ts: map<string, Template>, c1: Cells, c2: Cells, r: iset<Loc>)
    requires HasFootprints(env) && TemplateReads(env, ts) <= r && Agree(c1, c2, r)
    ensures ResolveAll(env, ts, c1) == ResolveAll(env, ts, c2)
  {
    forall k | k in ts ensures env.eval(ts[k], c1) == env.eval(ts[k], c2) {
      assert env.footprint(ts[k]) <= TemplateReads(env, ts);
      ResolveFrame(env, ts[k], c1, c2, r);
    }
    var o1, o2 := ResolveAll(env, ts, c1), ResolveAll(env, ts, c2);
    if o1.Some? { assert o1.value == o2.value; }
  }

  lemma AgreeWrite(c1: Cells, c2: Cells, r: iset<Loc>, w: Cells)
    requires Agree(c1, c2, r)
    ensures Agree(c1 + w, c2 + w, r)
  {
    forall l | l in r ensures Look(c1 + w, l) == Look(c2 + w, l) {
      assert Look(c1, l) == Look(c2, l);
    }
  }

  lemma AgreePut(c1: Cells, c2: Cells, r: iset<Loc>, l: Loc, cell: Cell)
    requires Agree(c1, c2, r)
    ensures Agree(c1[l := cell], c2[l := cell], r)
  {
    AgreeWrite(c1, c2, r, map[l := cell]);
    assert c1[l := cell] == c1 + map[l := cell] && c2[l := cell] == c2 + map[l := cell];
  }

  lemma FinishToolFrame(env: Env, s: Step, args: map<string, Value>, c1: Cells, c2: Cells, r: iset<Loc>)
    requires s.node.Tool? && Agree(c1, c2, r)
    ensures Similar(FinishTool(env, s, args, c1), FinishTool(env, s, args, c2), r)
  {
    match CallTool(env, s.node.use, args)
    case Ok(v) => AgreePut(c1, c2, r, StepRec(s.id), Rec(v, ""));
    case Error(e) => AgreePut(c1, c2, r, StepRec(s.id), Rec(Null, StepText(s.id, e)));
  }

  lemma FinishArgsFrame(env: Env, s: Step, pending: map<string, Template>, got: map<string, Value>,
                        c1: Cells, c2: Cells, r: iset<Loc>)
    requires HasFootprints(env) && s.node.Tool? && Agree(c1, c2, r) && TemplateReads(env, pending) <= r
    ensures Similar(FinishArgs(env, s, pending, got, c1), FinishArgs(env, s, pending, got, c2), r)
  {
    ResolveAllFrame(env, pending, c1, c2, r);
    match ResolveAll(env, pending, c1)
    case None =>
    case Some(vals) => FinishToolFrame(env, s, got + vals, c1, c2, r);
  }

  lemma AssignAllFrame(env: Env, ts: map<string, Template>, c1: Cells, c2: Cells, r: iset<Loc>)
    requires HasFootprints(env) && Agree(c1, c2, r) && TemplateReads(env, ts) <= r
    ensures Similar(AssignAll(env, ts, c1), AssignAll(env, ts, c2), r)
  {
    ResolveAllFrame(env, ts, c1, c2, r);
    match ResolveAll(env, ts, c1)
    case None =>
    case Some(vals) => AgreeWrite(c1, c2, r, VarCells(vals));
  }

  lemma {:induction false} StepFrame(env: Env, s: Step, c1: Cells, c2: Cells, r: iset<Loc>)
    requires HasFootprints(env) && Agree(c1, c2, r) && StepReads(env, s) <= r
    ensures Similar(EvalStep(env, s, c1), EvalStep(env, s, c2), r)
    decreases s, 0, 0
  {
    match s.node
    case Tool(_, args, _) => FinishArgsFrame(env, s, args, map[], c1, c2, r);
    case Assign(bindings) => AssignAllFrame(env, bindings, c1, c2, r);
    case Wait(_) =>
    case If(cond, thn, els) =>
      ResolveFrame(env, cond, c1, c2, r);
      StepsFrame(env, thn, c1, c2, r);
      StepsFrame(env, els, c1, c2, r);
    case Foreach(source, item, body) =>
      ResolveFrame(env, source, c1, c2, r);
      match env.eval(source, c1) {
        case Ok(v) => if v.List? { LoopFrame(env, item, v.items, body, c1, c2, r); }
        case Error(_) =>
      }
    case Parallel(branches) => BranchesFrame(env, branches, c1, c2, r);
  }

  lemma {:induction false} StepsFrame(env: Env, steps: seq<Step>, c1: Cells, c2: Cells, r: iset<Loc>)
    requires HasFootprints(env) && Agree(c1, c2, r) && StepsReads(env, steps) <= r
    ensures Similar(EvalSteps(env, steps, c1), EvalSteps(env, steps, c2), r)
    decreases steps, 0, 0
  {
    if steps != [] {
      StepFrame(env, steps[0], c1, c2, r);
      var o1, o2 := EvalStep(env, steps[0], c1), EvalStep(env, steps[0], c2);
      if o1.Some? { StepsFrame(env, steps[1..], o1.value.cells, o2.value.cells, r); }
    }
  }

  lemma {:induction false} LoopFrame(env: Env, item: string, items: seq<Value>, body: seq<Step>,
                                     c1: Cells, c2: Cells, r: iset<Loc>)
    requires HasFootprints(env) && Agree(c1, c2, r) && StepsReads(env, body) <= r
    ensures Similar(EvalLoop(env, item, items, body, c1), EvalLoop(env, item, items, body, c2), r)
    decreases body, 1, |items|
  {
    if items != [] {
      AgreePut(c1, c2, r, Var(item), Val(items[0]));
      var d1, d2 := c1[Var(item) := Val(items[0])], c2[Var(item) := Val(items[0])];
      StepsFrame(env, body, d1, d2, r);
      var o1, o2 := EvalSteps(env, body, d1), EvalSteps(env, body, d2);
      if o1.Some? { LoopFrame(env, item, items[1..], body, o1.value.cells, o2.value.cells, r); }
    }
  }

  lemma {:induction false} BranchesFrame(env: Env, branches: seq<Block>, c1: Cells, c2: Cells, r: iset<Loc>)
    requires HasFootprints(env) && Agree(c1, c2, r) && BranchesReads(env, branches) <= r
    ensures Similar(EvalBranches(env, branches, c1), EvalBranches(env, branches, c2), r)
    decreases branches, 0, 0
  {
    if branches != [] {
      StepsFrame(env, branches[0].steps, c1, c2, r);
      var o1, o2 := EvalSteps(env, branches[0].steps, c1), EvalSteps(env, branches[0].steps, c2);
      if o1.Some? { BranchesFrame(env, branches[1..], o1.value.cells, o2.value.cells, r); }
    }
  }

  /** The rest of a goroutine depends on nothing but what it reads. */
  lemma {:induction false} RestFrame(env: Env, p: Proc, c1: Cells, c2: Cells, r: iset<Loc>)
    requires HasFootprints(env) && WellShaped(p) && Agree(c1, c2, r) && Reads(env, p) <= r
    ensures Similar(Rest(env, p, c1), Rest(env, p, c2), r)
    decreases p, 0
  {
    match p
    case Ret(_) =>
    case Todo(steps) => StepsFrame(env, steps, c1, c2, r);
    case Then(cur, rest) =>
      RestFrame(env, cur, c1, c2, r);
      var o1, o2 := Rest(env, cur, c1), Rest(env, cur, c2);
      if o1.Some? { StepsFrame(env, rest, o1.value.cells, o2.value.cells, r); }
    case Enter(s) => StepFrame(env, s, c1, c2, r);
    case Args(s, pending, got) => FinishArgsFrame(env, s, pending, got, c1, c2, r);
    case Call(s, args) => FinishToolFrame(env, s, args, c1, c2, r);
    case Write(loc, cell, next) =>
      AgreePut(c1, c2, r, loc, cell);
      RestFrame(env, next, c1[loc := cell], c2[loc := cell], r);
    case Bind(_, pending) => AssignAllFrame(env, pending, c1, c2, r);
    case Sleep(_) =>
    case Loop(item, items, body) => LoopFrame(env, item, items, body, c1, c2, r);
    case Iter(cur, item, items, body) =>
      RestFrame(env, cur, c1, c2, r);
      var o1, o2 := Rest(env, cur, c1), Rest(env, cur, c2);
      if o1.Some? { LoopFrame(env, item, items, body, o1.value.cells, o2.value.cells, r); }
    case Par(bs, _) => RestAllFrame(env, bs, c1, c2, r);
  }

  lemma {:induction false} RestAllFrame(env: Env, bs: seq<Proc>, c1: Cells, c2: Cells, r: iset<Loc>)
    requires HasFootprints(env) && (forall i | 0 <= i < |bs| :: WellShaped(bs[i]))
    requires Agree(c1, c2, r) && AllReads(env, bs) <= r
    ensures Similar(RestAll(env, bs, c1), RestAll(env, bs, c2), r)
    decreases bs, 0
  {
    if bs != [] {
      RestFrame(env, bs[0], c1, c2, r);
      var o1, o2 := Rest(env, bs[0], c1), Rest(env, bs[0], c2);
      if o1.Some? { RestAllFrame(env, bs[1..], o1.value.cells, o2.value.cells, r); }
    }
  }

  ghost predicate Keeps(o: Option<Final>, c: Cells, l: Loc) {
    o.Some? ==> Look(o.value.cells, l) == Look(c, l)
  }

  lemma {:induction false} StepKeeps(env: Env, s: Step, c: Cells, l: Loc)
    requires l !in StepWrites(s)
    ensures Keeps(EvalStep(env, s, c), c, l)
    decreases s, 0, 0
  {
    match s.node
    case If(cond, thn, els) =>
      StepsKeep(env, thn, c, l);
      StepsKeep(env, els, c, l);
    case Foreach(source, item, body) =>
      match env.eval(source, c) {
        case Ok(v) => if v.List? { LoopKeeps(env, item, v.items, body, c, l); }
        case Error(_) =>
      }
    case Parallel(branches) => BranchesKeep(env, branches, c, l);
    case _ =>
  }

  lemma {:induction false} StepsKeep(env: Env, steps: seq<Step>, c: Cells, l: Loc)
    requires l !in StepsWrites(steps)
    ensures Keeps(EvalSteps(env, steps, c), c, l)
    decreases steps, 0, 0
  {
    if steps != [] {
      StepKeeps(env, steps[0], c, l);
      var o := EvalStep(env, steps[0], c);
      if o.Some? { StepsKeep(env, steps[1..], o.value.cells, l); }
    }
  }

  lemma {:induction false} LoopKeeps(env: Env, item: string, items: seq<Value>, body: seq<Step>, c: Cells, l: Loc)
    requires l !in StepsWrites(body) && l != Var(item)
    ensures Keeps(EvalLoop(env, item, items, body, c), c, l)
    decreases body, 1, |items|
  {
    if items != [] {
      var d := c[Var(item) := Val(items[0])];
      StepsKeep(env, body, d, l);
      var o := EvalSteps(env, body, d);
      if o.Some? { LoopKeeps(env, item, items[1..], body, o.value.cells, l); }
    }
  }

  lemma {:induction false} BranchesKeep(env: Env, branches: seq<Block>, c: Cells, l: Loc)
    requires l !in BranchesWrites(branches)
    ensures Keeps(EvalBranches(env, branches, c), c, l)
    decreases branches, 0, 0
  {
    if branches != [] {
      StepsKeep(env, branches[0].steps, c, l);
      var o := EvalSteps(env, branches[0].steps, c);
      if o.Some? { BranchesKeep(env, branches[1..], o.value.cells, l); }
    }
  }

  /** ... and changes nothing but what it writes. */
  lemma {:induction false} RestKeeps(env: Env, p: Proc, c: Cells, l: Loc)
    requires WellShaped(p) && l !in Writes(p)
    ensures Keeps(Rest(env, p, c), c, l)
    decreases p, 0
  {
    match p
    case Todo(steps) => StepsKeep(env, steps, c, l);
    case Then(cur, rest) =>
      RestKeeps(env, cur, c, l);
      var o := Rest(env, cur, c);
      if o.Some? { StepsKeep(env, rest, o.value.cells, l); }
    case Enter(s) => StepKeeps(env, s, c, l);
    case Write(loc, cell, next) => RestKeeps(env, next, c[loc := cell], l);
    case Loop(item, items, body) => LoopKeeps(env, item, items, body, c, l);
    case Iter(cur, item, items, body) =>
      RestKeeps(env, cur, c, l);
      var o := Rest(env, cur, c);
      if o.Some? { LoopKeeps(env, item, items, body, o.value.cells, l); }
    case Par(bs, _) => RestAllKeeps(env, bs, c, l);
    case _ =>
  }

  lemma {:induction false} RestAllKeeps(env: Env, bs: seq<Proc>, c: Cells, l: Loc)
    requires (forall i | 0 <= i < |bs| :: WellShaped(bs[i])) && l !in AllWrites(bs)
    ensures Keeps(RestAll(env, bs, c), c, l)
    decreases bs, 0
  {
    if bs != [] {
      RestKeeps(env, bs[0], c, l);
      var o := Rest(env, bs[0], c);
      if o.Some? { RestAllKeeps(env, bs[1..], o.value.cells, l); }
    }
  }

  // ---- One move, seen by the goroutine that makes it ----

  /** A move reads only what the goroutine reads. */
  lemma {:induction false} MoveFrame(env: Env, done: bool, room: bool, p: Proc, c: Choice, c1: Cells, c2: Cells)
    requires HasFootprints(env) && Agree(c1, c2, Reads(env, p))
    ensures Advance(env, done, room, c1, p, c) == Advance(env, done, room, c2, p, c)
    decreases p
  {
    match p
    case Then(cur, rest) =>
      assert Agree(c1, c2, Reads(env, cur));
      if !cur.Ret? { MoveFrame(env, done, room, cur, c, c1, c2); }
    case Iter(cur, _, _, body) =>
      assert Agree(c1, c2, Reads(env, cur));
      if !cur.Ret? { MoveFrame(env, done, room, cur, c, c1, c2); }
    case Enter(s) => DispatchFrame(env, s, c1, c2);
    case Args(s, pending, _) =>
      if c.Act? && c.key in pending {
        assert env.footprint(pending[c.key]) <= TemplateReads(env, pending);
        ResolveFrame(env, pending[c.key], c1, c2, Reads(env, p));
      }
    case Bind(s, pending) =>
      if c.Act? && c.key in pending {
        assert env.footprint(pending[c.key]) <= TemplateReads(env, pending);
        ResolveFrame(env, pending[c.key], c1, c2, Reads(env, p));
      }
    case Par(bs, first) =>
      if c.Branch? && c.i < |bs| {
        MemberReads(env, bs, c.i);
        MoveFrame(env, done || first.Some?, room, bs[c.i], c.sub, c1, c2);
      }
    case _ =>
  }

  lemma DispatchFrame(env: Env, s: Step, c1: Cells, c2: Cells)
    requires HasFootprints(env) && Agree(c1, c2, StepReads(env, s))
    ensures Dispatch(env, c1, s) == Dispatch(env, c2, s)
  {
    match s.node
    case If(cond, _, _) => ResolveFrame(env, cond, c1, c2, StepReads(env, s));
    case Foreach(source, _, _) => ResolveFrame(env, source, c1, c2, StepReads(env, s));
    case _ =>
  }

  lemma {:induction false} MemberReads(env: Env, bs: seq<Proc>, i: nat)
    requires i < |bs|
    ensures Reads(env, bs[i]) <= AllReads(env, bs) && Writes(bs[i]) <= AllWrites(bs)
    decreases i
  {
    if i > 0 { assert bs[i] == bs[1..][i - 1]; MemberReads(env, bs[1..], i - 1); }
  }

  /** A goroutine's reads and writes only shrink as it moves, and what it writes at
      once is among its writes. */
  ghost predicate Shrinks(env: Env, p: Proc, next: Proc, write: Cells) {
    Reads(env, next) <= Reads(env, p) && Writes(next) <= Writes(p) && forall l | l in write :: l in Writes(p)
  }

  lemma {:induction false} MoveShrinks(env: Env, done: bool, room: bool, cells: Cells, p: Proc, c: Choice)
    requires Advance(env, done, room, cells, p, c).Some?
    ensures var m := Advance(env, done, room, cells, p, c).value; Shrinks(env, p, m.next, m.write)
    decreases p
  {
    match p
    case Then(cur, rest) =>
      if !cur.Ret? {
        MoveShrinks(env, done, room, cells, cur, c);
        var m := Advance(env, done, room, cells, cur, c).value;
        ThenShrinks(env, cur, m.next, m.write, rest);
      }
    case Iter(cur, item, items, body) =>
      if !cur.Ret? {
        MoveShrinks(env, done, room, cells, cur, c);
        var m := Advance(env, done, room, cells, cur, c).value;
        IterShrinks(env, cur, m.next, m.write, item, items, body);
      }
    case Par(bs, first) =>
      if c.Branch? {
        MoveShrinks(env, done || first.Some?, room, cells, bs[c.i], c.sub);
        var m := Advance(env, done || first.Some?, room, cells, bs[c.i], c.sub).value;
        GroupShrinks(env, bs, first, first, c.i, m.next, m.write);
      } else if c.Collect? {
        GroupShrinks(env, bs, first, if first.None? then bs[c.i].err else first, c.i, Ret(None), map[]);
      }
    case _ => ActShrinks(env, done, room, cells, p, c);
  }

  lemma ThenShrinks(env: Env, cur: Proc, next: Proc, write: Cells, rest: seq<Step>)
    requires Shrinks(env, cur, next, write)
    ensures Shrinks(env, Then(cur, rest), Then(next, rest), write)
  {
  }

  lemma IterShrinks(env: Env, cur: Proc, next: Proc, write: Cells, item: string, items: seq<Value>, body: seq<Step>)
    requires Shrinks(env, cur, next, write)
    ensures Shrinks(env, Iter(cur, item, items, body), Iter(next, item, items, body), write)
  {
  }

  lemma GroupShrinks(env: Env, bs: seq<Proc>, first: Option<Err>, first': Option<Err>, i: nat, next: Proc, write: Cells)
    requires i < |bs| && Shrinks(env, bs[i], next, write)
    ensures Shrinks(env, Par(bs, first), Par(bs[i := next], first'), write)
  {
    MemberReads(env, bs, i);
    ReplaceShrinks(env, bs, i, next);
  }

  lemma ActShrinks(env: Env, done: bool, room: bool, cells: Cells, p: Proc, c: Choice)
    requires !p.Then? && !p.Iter? && !p.Par? && Advance(env, done, room, cells, p, c).Some?
    ensures var m := Advance(env, done, room, cells, p, c).value; Shrinks(env, p, m.next, m.write)
  {
    match p
    case Enter(s) => DispatchShrinks(env, s, cells);
    case Bind(s, pending) =>
      if c.key in pending { assert Reads(env, Bind(s, pending - {c.key})) <= Reads(env, p); }
    case Loop(item, items, body) =>
      if items != [] {
        var first := Write(Var(item), Val(items[0]), Todo(body));
        assert Reads(env, first.next) == StepsReads(env, body) && Writes(first.next) == StepsWrites(body);
        assert Reads(env, first) == StepsReads(env, body) && Writes(first) == iset{Var(item)} + StepsWrites(body);
      }
    case _ =>
  }

  lemma {:induction false} ReplaceShrinks(env: Env, bs: seq<Proc>, i: nat, q: Proc)
    requires i < |bs| && Reads(env, q) <= Reads(env, bs[i]) && Writes(q) <= Writes(bs[i])
    ensures AllReads(env, bs[i := q]) <= AllReads(env, bs) && AllWrites(bs[i := q]) <= AllWrites(bs)
    decreases i
  {
    if i == 0 { assert bs[0 := q][1..] == bs[1..]; }
    else {
      assert bs[i := q][1..] == bs[1..][i - 1 := q];
      ReplaceShrinks(env, bs[1..], i - 1, q);
    }
  }

  function Spawn(branches: seq<Block>): seq<Proc> {
    seq(|branches|, i requires 0 <= i < |branches| => Todo(branches[i].steps))
  }

  lemma {:induction false} SpawnIs(env: Env, branches: seq<Block>)
    ensures AllReads(env, Spawn(branches)) == BranchesReads(env, branches)
    ensures AllWrites(Spawn(branches)) == BranchesWrites(branches)
    ensures BranchesSafe(env, branches) ==> AllSafe(env, Spawn(branches))
    ensures forall cells :: RestAll(env, Spawn(branches), cells) == EvalBranches(env, branches, cells)
    decreases |branches|
  {
    if branches != [] {
      assert Spawn(branches)[1..] == Spawn(branches[1..]);
      SpawnIs(env, branches[1..]);
    }
  }

  lemma DispatchShrinks(env: Env, s: Step, cells: Cells)
    ensures var m := Dispatch(env, cells, s);
      Reads(env, m.next) <= StepReads(env, s) && Writes(m.next) <= StepWrites(s)
  {
    match s.node
    case Parallel(branches) => SpawnIs(env, branches);
    case _ =>
  }

  lemma FewerIndependent(env: Env, ts: map<string, Template>, key: string)
    requires SelfIndependent(env, ts)
    ensures SelfIndependent(env, ts - {key})
  {
    forall k | k in ts - {key} ensures ReadsNoOther(env, ts - {key}, k) {
      assert ReadsNoOther(env, ts, k) && Targets(ts - {key} - {k}) <= Targets(ts - {k});
    }
  }

  /** Non-interference survives every move. */
  lemma {:induction false} StaysSafe(env: Env, done: bool, room: bool, cells: Cells, p: Proc, c: Choice)
    requires Safe(env, p) && Advance(env, done, room, cells, p, c).Some?
    ensures Safe(env, Advance(env, done, room, cells, p, c).value.next)
    decreases p
  {
    match p
    case Then(cur, rest) => if !cur.Ret? { StaysSafe(env, done, room, cells, cur, c); }
    case Iter(cur, _, _, body) => if !cur.Ret? { StaysSafe(env, done, room, cells, cur, c); }
    case Par(bs, first) =>
      if c.Branch? {
        MemberSafe(env, bs, c.i);
        StaysSafe(env, done || first.Some?, room, cells, bs[c.i], c.sub);
        MoveShrinks(env, done || first.Some?, room, cells, bs[c.i], c.sub);
        ReplaceSafe(env, bs, c.i, Advance(env, done || first.Some?, room, cells, bs[c.i], c.sub).value.next);
      } else if c.Collect? {
        ReplaceSafe(env, bs, c.i, Ret(None));
      }
    case _ => ActSafe(env, done, room, cells, p, c);
  }

  lemma DispatchSafe(env: Env, s: Step, cells: Cells)
    requires StepSafe(env, s)
    ensures Safe(env, Dispatch(env, cells, s).next)
  {
    match s.node
    case Parallel(branches) => SpawnIs(env, branches);
    case _ =>
  }

  lemma ActSafe(env: Env, done: bool, room: bool, cells: Cells, p: Proc, c: Choice)
    requires !p.Then? && !p.Iter? && !p.Par? && Safe(env, p) && Advance(env, done, room, cells, p, c).Some?
    ensures Safe(env, Advance(env, done, room, cells, p, c).value.next)
  {
    match p
    case Enter(s) => DispatchSafe(env, s, cells);
    case Bind(s, pending) =>
      if c.key in pending { FewerIndependent(env, pending, c.key); }
    case Loop(item, items, body) => assert Safe(env, Todo(body));
    case _ =>
  }

  lemma {:induction false} MemberSafe(env: Env, bs: seq<Proc>, i: nat)
    requires i < |bs| && AllSafe(env, bs)
    ensures Safe(env, bs[i])
    decreases i
  {
    if i > 0 { assert bs[i] == bs[1..][i - 1]; MemberSafe(env, bs[1..], i - 1); }
  }

  lemma {:induction false} ReplaceSafe(env: Env, bs: seq<Proc>, i: nat, q: Proc)
    requires i < |bs| && AllSafe(env, bs) && Safe(env, q)
    requires Reads(env, q) <= Reads(env, bs[i]) && Writes(q) <= Writes(bs[i])
    ensures AllSafe(env, bs[i := q])
    decreases i
  {
    if i == 0 { assert bs[0 := q][1..] == bs[1..]; }
    else {
      assert bs[i := q][1..] == bs[1..][i - 1 := q];
      ReplaceShrinks(env, bs[1..], i - 1, q);
      ReplaceSafe(env, bs[1..], i - 1, q);
    }
  }

  // ---- Every move keeps the final state ----

  function Leaves(m: Move): nat { if m.tick then 1 else 0 }

  lemma ArgsMove(env: Env, s: Step, pending: map<string, Template>, got: map<string, Value>, cells: Cells, key: string)
    requires s.node.Tool? && key in pending && env.eval(pending[key], cells).Ok?
    ensures FinishArgs(env, s, pending, got, cells)
         == FinishArgs(env, s, pending - {key}, got[key := env.eval(pending[key], cells).value], cells)
  {
    var v := env.eval(pending[key], cells).value;
    var fewer := pending - {key};
    var all, most := ResolveAll(env, pending, cells), ResolveAll(env, fewer, cells);
    if all.Some? {
      assert got + all.value == got[key := v] + most.value;
    } else {
      var k :| k in pending && !env.eval(pending[k], cells).Ok?;
      assert k in fewer;
    }
  }

  lemma PutFirst(cells: Cells, vals: map<string, Value>, key: string)
    requires key in vals
    ensures cells + VarCells(vals) == cells[Var(key) := Val(vals[key])] + VarCells(vals - {key})
  {
    var c1, c2 := cells + VarCells(vals), cells[Var(key) := Val(vals[key])] + VarCells(vals - {key});
    forall l ensures Look(c1, l) == Look(c2, l) {
      match l
      case Var(name) =>
        assert (l in VarCells(vals) <==> name in vals) && (l in VarCells(vals - {key}) <==> name in vals - {key});
      case StepRec(_) => assert l !in VarCells(vals) && l !in VarCells(vals - {key});
    }
    EqualCells(c1, c2);
  }

  lemma BindMove(env: Env, pending: map<string, Template>, cells: Cells, key: string)
    requires HasFootprints(env) && SelfIndependent(env, pending)
    requires key in pending && env.eval(pending[key], cells).Ok?
    ensures AssignAll(env, pending, cells)
         == AssignAll(env, pending - {key}, cells[Var(key) := Val(env.eval(pending[key], cells).value)])
  {
    var v := env.eval(pending[key], cells).value;
    var fewer := pending - {key};
    var cells' := cells[Var(key) := Val(v)];
    assert ResolveAll(env, fewer, cells) == ResolveAll(env, fewer, cells') by {
      forall l | l in TemplateReads(env, fewer) ensures Look(cells, l) == Look(cells', l) {
        var k :| k in fewer && l in env.footprint(fewer[k]);
        assert ReadsNoOther(env, pending, k) && Var(key) in Targets(pending - {k});
      }
      ResolveAllFrame(env, fewer, cells, cells', TemplateReads(env, fewer));
    }
    var all, most := ResolveAll(env, pending, cells), ResolveAll(env, fewer, cells);
    if all.Some? {
      assert all.value - {key} == most.value;
      PutFirst(cells, all.value, key);
    } else {
      var k :| k in pending && !env.eval(pending[k], cells).Ok?;
      assert k in fewer;
    }
  }

  lemma {:induction false} AllReturned(env: Env, bs: seq<Proc>, cells: Cells)
    requires forall i | 0 <= i < |bs| :: bs[i] == Ret(None)
    ensures RestAll(env, bs, cells) == Some(Final(cells, 0))
    decreases |bs|
  {
    if bs != [] { AllReturned(env, bs[1..], cells); }
  }

  lemma {:induction false} FailedMember(env: Env, bs: seq<Proc>, i: nat, cells: Cells)
    requires (forall k | 0 <= k < |bs| :: WellShaped(bs[k])) && i < |bs| && bs[i].Ret? && bs[i].err.Some?
    ensures RestAll(env, bs, cells) == None
    decreases i
  {
    if i > 0 {
      var o := Rest(env, bs[0], cells);
      if o.Some? { assert bs[1..][i - 1] == bs[i]; FailedMember(env, bs[1..], i - 1, o.value.cells); }
    }
  }

  /** Work untouched by some writes commutes with them. */
  lemma Commutes(env: Env, p: Proc, cells: Cells, w: Cells)
    requires HasFootprints(env) && WellShaped(p)
    requires forall l | l in w :: l !in Reads(env, p) && l !in Writes(p)
    ensures Rest(env, p, cells + w)
         == match Rest(env, p, cells) case None => None case Some(f) => Some(Final(f.cells + w, f.leaves))
  {
    var r := iset l | l !in w;
    assert Agree(cells, cells + w, r);
    RestFrame(env, p, cells, cells + w, r);
    var o1, o2 := Rest(env, p, cells), Rest(env, p, cells + w);
    if o1.Some? {
      forall l ensures Look(o2.value.cells, l) == Look(o1.value.cells + w, l) {
        if l in w { RestKeeps(env, p, cells + w, l); }
        else { assert l in r; assert Look(o1.value.cells, l) == Look(o2.value.cells, l); }
      }
      EqualCells(o2.value.cells, o1.value.cells + w);
    }
  }

  /** A move in which nothing fails leaves the sequential outcome as it was. */
  lemma {:induction false} MoveKeepsRest(env: Env, done: bool, room: bool, cells: Cells, p: Proc, c: Choice, m: Move)
    requires HasFootprints(env) && WellShaped(p) && Safe(env, p)
    requires Advance(env, done, room, cells, p, c) == Some(m) && !m.failed
    ensures WellShaped(m.next) && Rest(env, p, cells) == Plus(Rest(env, m.next, cells + m.write), Leaves(m))
    decreases p, 0
  {
    StaysWellShaped(env, done, room, cells, p, c);
    match p
    case Then(cur, rest) =>
      if cur.Ret? { assert m.write == map[] && cells + m.write == cells; }
      else {
        var m' := Advance(env, done, room, cells, cur, c).value;
        MoveKeepsRest(env, done, room, cells, cur, c, m');
        ThenRest(env, cur, m'.next, rest, cells, cells + m.write, Leaves(m));
      }
    case Iter(cur, item, items, body) =>
      if cur.Ret? { assert m.write == map[] && cells + m.write == cells; }
      else {
        var m' := Advance(env, done, room, cells, cur, c).value;
        MoveKeepsRest(env, done, room, cells, cur, c, m');
        IterRest(env, cur, m'.next, item, items, body, cells, cells + m.write, Leaves(m));
      }
    case Par(bs, first) =>
      if c.Branch? {
        var m' := Advance(env, done || first.Some?, room, cells, bs[c.i], c.sub).value;
        BranchMove(env, done || first.Some?, room, cells, bs, c.i, c.sub, m');
        assert m.next == Par(bs[c.i := m'.next], first);
      } else { GroupMove(env, bs, first, cells, c, m); }
    case Args(_, _, _) => ArgsStep(env, done, room, cells, p, c, m);
    case Call(_, _) => CallStep(env, done, room, cells, p, c, m);
    case Bind(_, _) => BindStep(env, done, room, cells, p, c, m);
    case _ => SimpleMove(env, done, room, cells, p, c, m);
  }

  lemma ThenRest(env: Env, p: Proc, p': Proc, rest: seq<Step>, c: Cells, c': Cells, n: nat)
    requires WellShaped(p) && WellShaped(p') && Rest(env, p, c) == Plus(Rest(env, p', c'), n)
    ensures Rest(env, Then(p, rest), c) == Plus(Rest(env, Then(p', rest), c'), n)
  {
  }

  lemma IterRest(env: Env, p: Proc, p': Proc, item: string, items: seq<Value>, body: seq<Step>,
                 c: Cells, c': Cells, n: nat)
    requires WellShaped(p) && WellShaped(p') && Rest(env, p, c) == Plus(Rest(env, p', c'), n)
    ensures Rest(env, Iter(p, item, items, body), c) == Plus(Rest(env, Iter(p', item, items, body), c'), n)
  {
    match Rest(env, p', c')
    case None => assert Rest(env, Iter(p, item, items, body), c).None?;
    case Some(f) => PlusTwice(EvalLoop(env, item, items, body, f.cells), f.leaves, n);
  }

  lemma GroupMove(env: Env, bs: seq<Proc>, first: Option<Err>, cells: Cells, c: Choice, m: Move)
    requires (forall k | 0 <= k < |bs| :: WellShaped(bs[k])) && !c.Branch? && WellShaped(m.next)
    requires Advance(env, false, true, cells, Par(bs, first), c) == Some(m)
    ensures Rest(env, Par(bs, first), cells) == Plus(Rest(env, m.next, cells + m.write), Leaves(m))
  {
    assert cells + m.write == cells;
    if c.Act? { AllReturned(env, bs, cells); }
    else { FailedMember(env, bs, c.i, cells); }
  }

  lemma SimpleMove(env: Env, done: bool, room: bool, cells: Cells, p: Proc, c: Choice, m: Move)
    requires p.Ret? || p.Todo? || p.Enter? || p.Write? || p.Sleep? || p.Loop?
    requires WellShaped(p) && Advance(env, done, room, cells, p, c) == Some(m) && !m.failed && WellShaped(m.next)
    ensures Rest(env, p, cells) == Plus(Rest(env, m.next, cells + m.write), Leaves(m))
  {
    if m.write == map[] { assert cells + m.write == cells; }
    match p
    case Todo(steps) => if steps != [] { assert Rest(env, Enter(steps[0]), cells) == EvalStep(env, steps[0], cells); }
    case Loop(item, items, body) => if items != [] { LoopMove(env, item, items, body, cells); }
    case Enter(s) => EnterMove(env, s, cells);
    case Write(loc, cell, next) => assert cells + map[loc := cell] == cells[loc := cell];
    case _ =>
  }

  lemma ArgsStep(env: Env, done: bool, room: bool, cells: Cells, p: Proc, c: Choice, m: Move)
    requires HasFootprints(env) && WellShaped(p) && Safe(env, p) && p.Args?
    requires Advance(env, done, room, cells, p, c) == Some(m) && !m.failed && WellShaped(m.next)
    ensures Rest(env, p, cells) == Plus(Rest(env, m.next, cells + m.write), Leaves(m))
  {
    assert cells + m.write == cells;
    if p.pending == map[] { assert p.got + map[] == p.got; }
    else { ArgsMove(env, p.s, p.pending, p.got, cells, c.key); }
  }

  lemma CallStep(env: Env, done: bool, room: bool, cells: Cells, p: Proc, c: Choice, m: Move)
    requires HasFootprints(env) && WellShaped(p) && Safe(env, p) && p.Call?
    requires Advance(env, done, room, cells, p, c) == Some(m) && !m.failed && WellShaped(m.next)
    ensures Rest(env, p, cells) == Plus(Rest(env, m.next, cells + m.write), Leaves(m))
  {
    assert cells + m.write == cells;
    CallMove(env, p.s, p.args, cells, m.next);
  }

  lemma BindStep(env: Env, done: bool, room: bool, cells: Cells, p: Proc, c: Choice, m: Move)
    requires HasFootprints(env) && WellShaped(p) && Safe(env, p) && p.Bind?
    requires Advance(env, done, room, cells, p, c) == Some(m) && !m.failed && WellShaped(m.next)
    ensures Rest(env, p, cells) == Plus(Rest(env, m.next, cells + m.write), Leaves(m))
  {
    assert cells + m.write == cells;
    if p.pending == map[] { assert cells + VarCells(map[]) == cells; }
    else {
      BindMove(env, p.pending, cells, c.key);
      var fewer := Bind(p.s, p.pending - {c.key});
      assert Rest(env, fewer, cells[m.next.loc := m.next.cell])
        == AssignAll(env, fewer.pending, cells[m.next.loc := m.next.cell]);
    }
  }

  lemma CallMove(env: Env, s: Step, args: map<string, Value>, cells: Cells, next: Proc)
    requires s.node.Tool? && WellShaped(next)
    requires match CallTool(env, s.node.use, args)
      case Ok(v) => next == Write(StepRec(s.id), Rec(v, ""), Ret(None))
      case Error(e) => s.node.onError.Continue? && next == Write(StepRec(s.id), Rec(Null, StepText(s.id, e)), Ret(None))
    ensures FinishTool(env, s, args, cells) == Rest(env, next, cells)
  {
  }

  lemma LoopMove(env: Env, item: string, items: seq<Value>, body: seq<Step>, cells: Cells)
    requires items != []
    ensures EvalLoop(env, item, items, body, cells)
         == Rest(env, Iter(Write(Var(item), Val(items[0]), Todo(body)), item, items[1..], body), cells)
  {
    var first := Write(Var(item), Val(items[0]), Todo(body));
    assert Rest(env, first.next, cells[Var(item) := Val(items[0])])
        == EvalSteps(env, body, cells[Var(item) := Val(items[0])]);
    assert Rest(env, first, cells) == EvalSteps(env, body, cells[Var(item) := Val(items[0])]);
  }

  lemma EnterMove(env: Env, s: Step, cells: Cells)
    requires !Dispatch(env, cells, s).failed && WellShaped(Dispatch(env, cells, s).next)
    ensures EvalStep(env, s, cells)
         == Plus(Rest(env, Dispatch(env, cells, s).next, cells), if IsLeaf(s) then 1 else 0)
  {
    if s.node.Parallel? { SpawnIs(env, s.node.branches); }
  }

  /** The move of one branch commutes with the whole work of the branches before it. */
  lemma {:induction false} BranchMove(env: Env, done: bool, room: bool, cells: Cells, bs: seq<Proc>, i: nat,
                                      c: Choice, m: Move)
    requires HasFootprints(env) && (forall k | 0 <= k < |bs| :: WellShaped(bs[k])) && AllSafe(env, bs) && i < |bs|
    requires Advance(env, done, room, cells, bs[i], c) == Some(m) && !m.failed
    ensures WellShaped(m.next)
    ensures RestAll(env, bs, cells) == Plus(RestAll(env, bs[i := m.next], cells + m.write), Leaves(m))
    decreases bs, 1
  {
    StaysWellShaped(env, done, room, cells, bs[i], c);
    if i == 0 {
      MoveKeepsRest(env, done, room, cells, bs[0], c, m);
      FirstMove(env, bs, m.next, cells, cells + m.write, Leaves(m));
    } else {
      LaterMove(env, done, room, cells, bs, i, c, m);
    }
  }

  lemma FirstMove(env: Env, bs: seq<Proc>, next: Proc, cells: Cells, cells': Cells, n: nat)
    requires (forall k | 0 <= k < |bs| :: WellShaped(bs[k])) && bs != [] && WellShaped(next)
    requires Rest(env, bs[0], cells) == Plus(Rest(env, next, cells'), n)
    ensures RestAll(env, bs, cells) == Plus(RestAll(env, bs[0 := next], cells'), n)
  {
    assert bs[0 := next][1..] == bs[1..];
  }

  lemma {:induction false} LaterMove(env: Env, done: bool, room: bool, cells: Cells, bs: seq<Proc>, i: nat,
                                     c: Choice, m: Move)
    requires HasFootprints(env) && (forall k | 0 <= k < |bs| :: WellShaped(bs[k])) && AllSafe(env, bs)
    requires 0 < i < |bs| && WellShaped(m.next)
    requires Advance(env, done, room, cells, bs[i], c) == Some(m) && !m.failed
    ensures RestAll(env, bs, cells) == Plus(RestAll(env, bs[i := m.next], cells + m.write), Leaves(m))
    decreases bs, 0
  {
    var bs' := bs[i := m.next];
    assert bs'[1..] == bs[1..][i - 1 := m.next];
    MoveAfter(env, done, room, cells, bs, i, c, m);
    TailShaped(env, bs);
    match Rest(env, bs[0], cells)
    case None => assert RestAll(env, bs, cells) == None && RestAll(env, bs', cells + m.write) == None;
    case Some(f) =>
      BranchMove(env, done, room, f.cells, bs[1..], i - 1, c, m);
      AfterFirst(env, cells, bs, bs', f, m.write, Leaves(m));
  }

  lemma AfterFirst(env: Env, cells: Cells, bs: seq<Proc>, bs': seq<Proc>, f: Final, w: Cells, n: nat)
    requires bs != [] && bs' != [] && bs'[0] == bs[0]
    requires (forall k | 0 <= k < |bs| :: WellShaped(bs[k])) && (forall k | 0 <= k < |bs'| :: WellShaped(bs'[k]))
    requires Rest(env, bs[0], cells) == Some(f) && Rest(env, bs[0], cells + w) == Some(Final(f.cells + w, f.leaves))
    requires RestAll(env, bs[1..], f.cells) == Plus(RestAll(env, bs'[1..], f.cells + w), n)
    ensures RestAll(env, bs, cells) == Plus(RestAll(env, bs', cells + w), n)
  {
    FirstOf(env, bs, cells, f);
    FirstOf(env, bs', cells + w, Final(f.cells + w, f.leaves));
    PlusTwice(RestAll(env, bs'[1..], f.cells + w), n, f.leaves);
  }

  lemma FirstOf(env: Env, bs: seq<Proc>, cells: Cells, f: Final)
    requires bs != [] && (forall k | 0 <= k < |bs| :: WellShaped(bs[k])) && Rest(env, bs[0], cells) == Some(f)
    ensures RestAll(env, bs, cells) == Plus(RestAll(env, bs[1..], f.cells), f.leaves)
  {
  }

  lemma PlusTwice(o: Option<Final>, a: nat, b: nat)
    ensures Plus(Plus(o, a), b) == Plus(Plus(o, b), a)
  {
  }

  lemma TailShaped(env: Env, bs: seq<Proc>)
    requires bs != [] && (forall k | 0 <= k < |bs| :: WellShaped(bs[k])) && AllSafe(env, bs)
    ensures (forall k | 0 <= k < |bs[1..]| :: WellShaped(bs[1..][k])) && AllSafe(env, bs[1..])
  {
  }

  lemma MoveAfter(env: Env, done: bool, room: bool, cells: Cells, bs: seq<Proc>, i: nat, c: Choice, m: Move)
    requires HasFootprints(env) && AllSafe(env, bs) && 0 < i < |bs| && WellShaped(bs[0])
    requires Advance(env, done, room, cells, bs[i], c) == Some(m)
    ensures match Rest(env, bs[0], cells)
      case None => Rest(env, bs[0], cells + m.write) == None
      case Some(f) =>
        && Rest(env, bs[0], cells + m.write) == Some(Final(f.cells + m.write, f.leaves))
        && Advance(env, done, room, f.cells, bs[i], c) == Some(m)
  {
    MoveShrinks(env, done, room, cells, bs[i], c);
    assert bs[i] == bs[1..][i - 1];
    MemberReads(env, bs[1..], i - 1);
    Commutes(env, bs[0], cells, m.write);
    var o := Rest(env, bs[0], cells);
    if o.Some? {
      forall l | l in Reads(env, bs[i]) ensures Look(cells, l) == Look(o.value.cells, l) {
        RestKeeps(env, bs[0], cells, l);
      }
      MoveFrame(env, done, room, bs[i], c, cells, o.value.cells);
    }
  }

  // ---- When the sequential run succeeds, no schedule can fail ----

  lemma {:induction false} MemberRest(env: Env, bs: seq<Proc>, i: nat, cells: Cells)
    requires HasFootprints(env) && (forall k | 0 <= k < |bs| :: WellShaped(bs[k])) && AllSafe(env, bs) && i < |bs|
    requires RestAll(env, bs, cells).Some?
    ensures Rest(env, bs[i], cells).Some?
    ensures Rest(env, bs[i], cells).value.leaves <= RestAll(env, bs, cells).value.leaves
    decreases i
  {
    if i > 0 {
      assert bs[i] == bs[1..][i - 1];
      var f := Rest(env, bs[0], cells).value;
      MemberRest(env, bs[1..], i - 1, f.cells);
      MemberReads(env, bs[1..], i - 1);
      forall l | l in Reads(env, bs[i]) ensures Look(cells, l) == Look(f.cells, l) {
        RestKeeps(env, bs[0], cells, l);
      }
      RestFrame(env, bs[i], cells, f.cells, Reads(env, bs[i]));
    }
  }

  lemma {:induction false} MoveSucceeds(env: Env, room: bool, cells: Cells, p: Proc, c: Choice, m: Move)
    requires HasFootprints(env) && WellShaped(p) && Safe(env, p)
    requires Rest(env, p, cells).Some? && (room || Rest(env, p, cells).value.leaves == 0)
    requires Advance(env, false, room, cells, p, c) == Some(m)
    ensures !m.failed
    decreases p
  {
    match p
    case Then(cur, _) =>
      if !cur.Ret? { MoveSucceeds(env, room, cells, cur, c, Advance(env, false, room, cells, cur, c).value); }
    case Iter(cur, _, _, _) =>
      if !cur.Ret? { MoveSucceeds(env, room, cells, cur, c, Advance(env, false, room, cells, cur, c).value); }
    case Par(bs, _) =>
      if c.Branch? {
        MemberRest(env, bs, c.i, cells);
        MemberSafe(env, bs, c.i);
        MoveSucceeds(env, room, cells, bs[c.i], c.sub, Advance(env, false, room, cells, bs[c.i], c.sub).value);
      }
    case _ =>
  }

  // ---- The theorems ----

  ghost predicate Tracks(env: Env, g: Config, goal: Option<Final>) {
    && WellShaped(g.proc)
    && Safe(env, g.proc)
    && Plus(Rest(env, g.proc, g.cells), g.count) == goal
  }

  lemma {:induction false} RunTracks(env: Env, g: Config, schedule: seq<Event>, goal: Option<Final>)
    requires HasFootprints(env) && Tracks(env, g, goal)
    requires Run(env, g, schedule).Some? && !Run(env, g, schedule).value.failed
    ensures Tracks(env, Run(env, g, schedule).value, goal)
    decreases |schedule|
  {
    if schedule != [] {
      var g' := Next(env, g, schedule[0]).value;
      if g'.failed { FailedStays(env, g', schedule[1..]); }
      match schedule[0]
      case CallerEnds => RunTracks(env, g', schedule[1..], goal);
      case Moves(c) =>
        TracksMove(env, g, c, goal);
        RunTracks(env, g', schedule[1..], goal);
    }
  }

  lemma TracksMove(env: Env, g: Config, c: Choice, goal: Option<Final>)
    requires HasFootprints(env) && Tracks(env, g, goal)
    requires Next(env, g, Moves(c)).Some? && !Next(env, g, Moves(c)).value.failed
    ensures Tracks(env, Next(env, g, Moves(c)).value, goal)
  {
    var room := g.count < env.maxSteps;
    var m := Advance(env, g.ended, room, g.cells, g.proc, c).value;
    StaysSafe(env, g.ended, room, g.cells, g.proc, c);
    MoveKeepsRest(env, g.ended, room, g.cells, g.proc, c, m);
    ApplyTracks(env, g, m, goal);
  }

  lemma ApplyTracks(env: Env, g: Config, m: Move, goal: Option<Final>)
    requires Tracks(env, g, goal) && WellShaped(m.next) && Safe(env, m.next)
    requires Rest(env, g.proc, g.cells) == Plus(Rest(env, m.next, g.cells + m.write), Leaves(m))
    ensures Tracks(env, Apply(env, g, m), goal)
  {
  }

  lemma {:induction false} FailedStays(env: Env, g: Config, schedule: seq<Event>)
    requires Run(env, g, schedule).Some? && g.failed
    ensures Run(env, g, schedule).value.failed
    decreases |schedule|
  {
    if schedule != [] { FailedStays(env, Next(env, g, schedule[0]).value, schedule[1..]); }
  }

  /** Every schedule of a non-interfering tree in which nothing fails and which runs to
      its end leaves the scope and the counter of the sequential run. */
  lemma ParallelRefinesSequential(env: Env, steps: seq<Step>, schedule: seq<Event>)
    requires HasFootprints(env) && StepsSafe(env, steps)
    requires Run(env, Start(steps), schedule).Some?
    requires var g := Run(env, Start(steps), schedule).value; g.proc == Ret(None) && !g.failed
    ensures var g := Run(env, Start(steps), schedule).value;
      EvalSteps(env, steps, map[]) == Some(Final(g.cells, g.count))
  {
    RunTracks(env, Start(steps), schedule, EvalSteps(env, steps, map[]));
  }

  ghost predicate CallerStays(schedule: seq<Event>) { forall e | e in schedule :: e.Moves? }

  lemma NextSucceeds(env: Env, g: Config, c: Choice, f: Final)
    requires HasFootprints(env) && Tracks(env, g, Some(f)) && !g.failed && !g.ended && f.leaves <= env.maxSteps
    requires Next(env, g, Moves(c)).Some?
    ensures var g' := Next(env, g, Moves(c)).value; !g'.failed && !g'.ended && Tracks(env, g', Some(f))
  {
    var room := g.count < env.maxSteps;
    MoveSucceeds(env, room, g.cells, g.proc, c, Advance(env, false, room, g.cells, g.proc, c).value);
    TracksMove(env, g, c, Some(f));
  }

  lemma {:induction false} RunSucceeds(env: Env, g: Config, schedule: seq<Event>, f: Final)
    requires HasFootprints(env) && Tracks(env, g, Some(f)) && !g.failed && !g.ended && f.leaves <= env.maxSteps
    requires CallerStays(schedule) && Run(env, g, schedule).Some?
    ensures var g' := Run(env, g, schedule).value; !g'.failed && Tracks(env, g', Some(f))
    decreases |schedule|
  {
    if schedule != [] {
      assert schedule[0].Moves?;
      NextSucceeds(env, g, schedule[0].c, f);
      RunSucceeds(env, Next(env, g, schedule[0]).value, schedule[1..], f);
    }
  }

  /** When the sequential run of a non-interfering tree succeeds within the cap and the
      caller stays, no schedule fails anywhere, and a schedule that returns, returns
      without error in the sequential run's state. */
  lemma SequentialDecidesParallel(env: Env, steps: seq<Step>, schedule: seq<Event>)
    requires HasFootprints(env) && StepsSafe(env, steps)
    requires EvalSteps(env, steps, map[]).Some? && EvalSteps(env, steps, map[]).value.leaves <= env.maxSteps
    requires CallerStays(schedule) && Run(env, Start(steps), schedule).Some?
    ensures var g := Run(env, Start(steps), schedule).value;
      && !g.failed
      && (g.proc.Ret? ==>
          g.proc == Ret(None) && EvalSteps(env, steps, map[]) == Some(Final(g.cells, g.count)))
  {
    RunSucceeds(env, Start(steps), schedule, EvalSteps(env, steps, map[]).value);
  }
}
