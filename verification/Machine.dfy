/** Running a step tree. A run is a tree of goroutines sharing one scope; a move of
    the run is one lock-protected access to the shared state, one check of a
    context, one tool call or one piece of bookkeeping between two of these. Moves of
    parallel branches interleave freely, and every map is visited in any order. */
module Machine {
  import opened Workflow

  /** Why a goroutine stops: the step cap, its context, or an error of a step's own. */
  datatype Err = MaxSteps | Cancelled | Own(id: string, text: string)

  /** What a goroutine still has to do. */
  datatype Proc =
    | Ret(err: Option<Err>)
    // the step-list loop, before its context check
    | Todo(steps: seq<Step>)
    // inside one step of the list
    | Then(cur: Proc, rest: seq<Step>)
    // a step about to be counted and dispatched
    | Enter(s: Step)
    // a tool: argument leaves to resolve, then the call
    | Args(s: Step, pending: map<string, Template>, got: map<string, Value>)
    | Call(s: Step, args: map<string, Value>)
    // one locked write, then go on
    | Write(loc: Loc, cell: Cell, next: Proc)
    // an assignment: bindings not yet evaluated
    | Bind(s: Step, pending: map<string, Template>)
    | Sleep(s: Step)
    // the iteration loop, before its context check, and inside one iteration
    | Loop(item: string, items: seq<Value>, body: seq<Step>)
    | Iter(cur: Proc, item: string, items: seq<Value>, body: seq<Step>)
    // an error group: one goroutine per branch, and the first error recorded
    | Par(branches: seq<Proc>, first: Option<Err>)

  /** Which move is made: by the goroutine itself (`key` picks the map entry to visit,
      `interrupted` says whether an ended context cuts a call or a wait short), by branch i
      of its group, or by the group recording the error branch i returned. */
  datatype Choice =
    | Act(key: string, interrupted: bool)
    | Branch(i: nat, sub: Choice)
    | Collect(i: nat)

  /** The effect of one move. `leaf`, `failed`, `raised`, `entered` and `single` are
      history: whether a leaf step was dispatched, whether an operation failed, the error a
      step raised, the step entered, and whether a list other than a one-element list was
      iterated. */
  datatype Move = Move(
    next: Proc,
    write: Cells,
    tick: bool,
    leaf: bool,
    failed: bool,
    raised: set<Err>,
    entered: seq<string>,
    single: bool)

  function Quiet(p: Proc): Move { Move(p, map[], false, false, false, {}, [], true) }

  function Failing(p: Proc, raised: set<Err>): Move { Move(p, map[], false, false, true, raised, [], true) }

  function Envelope(use: string, args: map<string, Value>): Value {
    Obj(map["dry_run" := Bool(true), "tool" := Str(use), "input" := Obj(args)])
  }

  /** A tool call; a dry run never reaches a mutating tool. */
  function CallTool(env: Env, use: string, args: map<string, Value>): Result<Value> {
    if env.dryRun && env.mutating(use) then Ok(Envelope(use, args)) else env.call(use, args)
  }

  function StepText(id: string, text: string): string { "step " + id + ": " + text }

  /** Record a tool step's error; `on_error: continue` stops it here. */
  function RecordErr(s: Step, err: Err, text: string): Proc
    requires s.node.Tool?
  {
    Write(StepRec(s.id), Rec(Null, text), Ret(if s.node.onError.Continue? then None else Some(err)))
  }

  /** Dispatch of a step that has been counted (or needs no counting). */
  function Dispatch(env: Env, cells: Cells, s: Step): Move {
    match s.node
    case Tool(_, args, _) => Quiet(Args(s, args, map[])).(leaf := true)
    case Assign(bindings) => Quiet(Bind(s, bindings)).(leaf := true)
    case Wait(_) => Quiet(Sleep(s)).(leaf := true)
    case If(cond, thn, els) =>
      (match env.eval(cond, cells)
       case Ok(v) => Quiet(Todo(if Truthy(v) then thn else els))
       case Error(e) =>
         var err := Own(s.id, "step " + s.id + ".if: " + e);
         Failing(Ret(Some(err)), {err}))
    case Foreach(source, item, body) =>
      (match env.eval(source, cells)
       case Ok(v) =>
         if v.List? then Quiet(Loop(item, v.items, body)).(single := |v.items| == 1)
         else
           var err := Own(s.id, "step " + s.id + ".foreach: expected list");
           Failing(Ret(Some(err)), {err})
       case Error(e) =>
         var err := Own(s.id, "step " + s.id + ".foreach: " + e);
         Failing(Ret(Some(err)), {err}))
    case Parallel(branches) =>
      Quiet(Par(seq(|branches|, i requires 0 <= i < |branches| => Todo(branches[i].steps)), None))
  }

  /** One move of goroutine p. `done` says its context has ended, `room` that the step
      counter is still below the cap. None when the choice is not enabled. */
  function Advance(env: Env, done: bool, room: bool, cells: Cells, p: Proc, c: Choice): Option<Move>
    decreases p
  {
    match p
    case Ret(_) => None
    case Todo(steps) =>
      if !c.Act? then None
      else if |steps| == 0 then Some(Quiet(Ret(None)))
      else if done then Some(Failing(Ret(Some(Cancelled)), {}))
      else Some(Quiet(Then(Enter(steps[0]), steps[1..])))
    case Then(cur, rest) =>
      if cur.Ret? then
        if !c.Act? then None
        else Some(Quiet(if cur.err.None? then Todo(rest) else cur))
      else
        (match Advance(env, done, room, cells, cur, c)
         case None => None
         case Some(m) => Some(m.(next := Then(m.next, rest))))
    case Enter(s) =>
      if !c.Act? then None
      else if IsLeaf(s) && !room then
        Some(Move(Ret(Some(MaxSteps)), map[], true, false, true, {MaxSteps}, [], true))
      else
        var m := Dispatch(env, cells, s);
        Some(m.(tick := IsLeaf(s), entered := [s.id]))
    case Args(s, pending, got) =>
      if !c.Act? || !s.node.Tool? then None
      else if pending == map[] then Some(Quiet(Call(s, got)))
      else if c.key !in pending then None
      else
        (match env.eval(pending[c.key], cells)
         case Ok(v) => Some(Quiet(Args(s, pending - {c.key}, got[c.key := v])))
         case Error(e) =>
           var text := StepText(s.id, "args." + c.key + ": " + e);
           Some(Failing(RecordErr(s, Own(s.id, text), text), {Own(s.id, text)})))
    case Call(s, args) =>
      if !c.Act? || !s.node.Tool? then None
      else if done && c.interrupted && !(env.dryRun && env.mutating(s.node.use)) then
        Some(Failing(RecordErr(s, Cancelled, StepText(s.id, "context canceled")), {}))
      else
        (match CallTool(env, s.node.use, args)
         case Ok(v) => Some(Quiet(Write(StepRec(s.id), Rec(v, ""), Ret(None))))
         case Error(e) =>
           var text := StepText(s.id, e);
           Some(Failing(RecordErr(s, Own(s.id, text), text), {Own(s.id, text)})
                .(failed := s.node.onError.Fail?)))
    case Write(loc, cell, next) =>
      if !c.Act? then None else Some(Quiet(next).(write := map[loc := cell]))
    case Bind(s, pending) =>
      if !c.Act? then None
      else if pending == map[] then Some(Quiet(Ret(None)))
      else if c.key !in pending then None
      else
        (match env.eval(pending[c.key], cells)
         case Ok(v) => Some(Quiet(Write(Var(c.key), Val(v), Bind(s, pending - {c.key}))))
         case Error(e) =>
           var err := Own(s.id, "step " + s.id + ".assign." + c.key + ": " + e);
           Some(Failing(Ret(Some(err)), {err})))
    case Sleep(_) =>
      if !c.Act? then None
      else if done && c.interrupted then Some(Failing(Ret(Some(Cancelled)), {}))
      else Some(Quiet(Ret(None)))
    case Loop(item, items, body) =>
      if !c.Act? then None
      else if |items| == 0 then Some(Quiet(Ret(None)))
      else if done then Some(Failing(Ret(Some(Cancelled)), {}))
      else Some(Quiet(Iter(Write(Var(item), Val(items[0]), Todo(body)), item, items[1..], body)))
    case Iter(cur, item, items, body) =>
      if cur.Ret? then
        if !c.Act? then None
        else Some(Quiet(if cur.err.None? then Loop(item, items, body) else cur))
      else
        (match Advance(env, done, room, cells, cur, c)
         case None => None
         case Some(m) => Some(m.(next := Iter(m.next, item, items, body))))
    case Par(bs, first) =>
      match c
      case Act(_, _) =>
        // the group's Wait returns once every branch has returned and been recorded
        if forall i | 0 <= i < |bs| :: bs[i] == Ret(None) then Some(Quiet(Ret(first))) else None
      case Branch(i, sub) =>
        if i >= |bs| then None
        else
          (match Advance(env, done || first.Some?, room, cells, bs[i], sub)
           case None => None
           case Some(m) => Some(m.(next := Par(bs[i := m.next], first))))
      case Collect(i) =>
        if i >= |bs| || !bs[i].Ret? || bs[i].err.None? then None
        else Some(Quiet(Par(bs[i := Ret(None)], if first.None? then bs[i].err else first)))
  }

  /** A run: the goroutine tree, the shared scope and counter, and history: leaf steps
      dispatched, errors raised by steps, steps entered in order, whether something
      failed, and whether every list iterated so far had one element. `ended` says the
      caller's context has ended. */
  datatype Config = Config(
    proc: Proc,
    cells: Cells,
    count: nat,
    dispatched: nat,
    raised: set<Err>,
    visited: seq<string>,
    failed: bool,
    single: bool,
    ended: bool)

  function Start(steps: seq<Step>): Config {
    Config(Todo(steps), map[], 0, 0, {}, [], false, true, false)
  }

  /** An event of a run: a move, or the end of the caller's context. */
  datatype Event = Moves(c: Choice) | CallerEnds

  function Apply(env: Env, g: Config, m: Move): Config {
    Config(
      m.next,
      g.cells + m.write,
      if m.tick then g.count + 1 else g.count,
      if m.leaf then g.dispatched + 1 else g.dispatched,
      g.raised + m.raised,
      g.visited + m.entered,
      g.failed || m.failed,
      g.single && m.single,
      g.ended)
  }

  function Next(env: Env, g: Config, e: Event): Option<Config> {
    match e
    case CallerEnds => Some(g.(ended := true))
    case Moves(c) =>
      match Advance(env, g.ended, g.count < env.maxSteps, g.cells, g.proc, c)
      case None => None
      case Some(m) => Some(Apply(env, g, m))
  }

  /** The run a schedule produces, when every event of it is enabled. */
  function Run(env: Env, g: Config, schedule: seq<Event>): Option<Config>
    decreases |schedule|
  {
    if |schedule| == 0 then Some(g)
    else
      match Next(env, g, schedule[0])
      case None => None
      case Some(g') => Run(env, g', schedule[1..])
  }

  /** A goroutine that has not returned can move, whatever its context says: a run stops
      only by returning. */
  lemma {:induction false} NeverStuck(env: Env, done: bool, room: bool, cells: Cells, p: Proc)
    requires !p.Ret? && WellShaped(p)
    ensures exists c :: Advance(env, done, room, cells, p, c).Some?
    decreases p
  {
    var go := Act("", false);
    match p
    case Then(cur, rest) =>
      if cur.Ret? { assert Advance(env, done, room, cells, p, go).Some?; }
      else {
        NeverStuck(env, done, room, cells, cur);
        var c :| Advance(env, done, room, cells, cur, c).Some?;
        assert Advance(env, done, room, cells, p, c).Some?;
      }
    case Iter(cur, item, items, body) =>
      if cur.Ret? { assert Advance(env, done, room, cells, p, go).Some?; }
      else {
        NeverStuck(env, done, room, cells, cur);
        var c :| Advance(env, done, room, cells, cur, c).Some?;
        assert Advance(env, done, room, cells, p, c).Some?;
      }
    case Args(s, pending, got) =>
      if pending == map[] { assert Advance(env, done, room, cells, p, go).Some?; }
      else {
        assert pending.Keys != {};
        var k :| k in pending;
        assert Advance(env, done, room, cells, p, Act(k, false)).Some?;
      }
    case Bind(s, pending) =>
      if pending == map[] { assert Advance(env, done, room, cells, p, go).Some?; }
      else {
        assert pending.Keys != {};
        var k :| k in pending;
        assert Advance(env, done, room, cells, p, Act(k, false)).Some?;
      }
    case Par(bs, first) =>
      if i :| 0 <= i < |bs| && bs[i] != Ret(None) {
        if bs[i].Ret? { assert Advance(env, done, room, cells, p, Collect(i)).Some?; }
        else {
          NeverStuck(env, done || first.Some?, room, cells, bs[i]);
          var c :| Advance(env, done || first.Some?, room, cells, bs[i], c).Some?;
          assert Advance(env, done, room, cells, p, Branch(i, c)).Some?;
        }
      } else { assert Advance(env, done, room, cells, p, go).Some?; }
    case Ret(_) =>
    case _ => assert Advance(env, done, room, cells, p, go).Some?;
  }

  /** A wait can always run its time; it can be cut short exactly when its context has
      ended, and nothing else becomes of it. */
  lemma WaitEnds(env: Env, done: bool, room: bool, cells: Cells, s: Step)
    ensures exists c :: Advance(env, done, room, cells, Sleep(s), c) == Some(Quiet(Ret(None)))
    ensures done <==>
      exists c :: Advance(env, done, room, cells, Sleep(s), c) == Some(Failing(Ret(Some(Cancelled)), {}))
    ensures forall c | Advance(env, done, room, cells, Sleep(s), c).Some? ::
      Advance(env, done, room, cells, Sleep(s), c).value in {Quiet(Ret(None)), Failing(Ret(Some(Cancelled)), {})}
  {
    assert Advance(env, done, room, cells, Sleep(s), Act("", false)) == Some(Quiet(Ret(None)));
    assert done ==>
      Advance(env, done, room, cells, Sleep(s), Act("", true)) == Some(Failing(Ret(Some(Cancelled)), {}));
  }

  /** Tool phases belong to tool steps. */
  predicate WellShaped(p: Proc) {
    match p
    case Then(cur, _) => WellShaped(cur)
    case Iter(cur, _, _, _) => WellShaped(cur)
    case Args(s, _, _) => s.node.Tool?
    case Call(s, _) => s.node.Tool?
    case Write(_, _, next) => WellShaped(next)
    case Par(bs, _) => forall i | 0 <= i < |bs| :: WellShaped(bs[i])
    case _ => true
  }

  lemma {:induction false} StaysWellShaped(env: Env, done: bool, room: bool, cells: Cells, p: Proc, c: Choice)
    requires WellShaped(p) && Advance(env, done, room, cells, p, c).Some?
    ensures WellShaped(Advance(env, done, room, cells, p, c).value.next)
    decreases p
  {
    match p
    case Then(cur, _) => if !cur.Ret? { StaysWellShaped(env, done, room, cells, cur, c); }
    case Iter(cur, _, _, _) => if !cur.Ret? { StaysWellShaped(env, done, room, cells, cur, c); }
    case Par(bs, first) =>
      if c.Branch? { StaysWellShaped(env, done || first.Some?, room, cells, bs[c.i], c.sub); }
    case _ =>
  }
}
