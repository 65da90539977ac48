/** What tool steps do in every run: which tools a dry run calls, and what the records of
    steps hold. */
module ToolSteps {
  import opened Workflow
  import opened Machine
  import opened Validate

  // ---- What a run cannot tell apart ----

  lemma {:induction false} SameMoves(e1: Env, e2: Env, done: bool, room: bool, cells: Cells, p: Proc, c: Choice)
    requires e2 == e1.(call := e2.call, mutating := e2.mutating) && SameTools(e1, e2)
    ensures Advance(e1, done, room, cells, p, c) == Advance(e2, done, room, cells, p, c)
    decreases p
  {
    match p
    case Then(cur, _) => if !cur.Ret? { SameMoves(e1, e2, done, room, cells, cur, c); }
    case Iter(cur, _, _, _) => if !cur.Ret? { SameMoves(e1, e2, done, room, cells, cur, c); }
    case Par(bs, first) =>
      if c.Branch? && c.i < |bs| { SameMoves(e1, e2, done || first.Some?, room, cells, bs[c.i], c.sub); }
    case Call(s, args) =>
      if s.node.Tool? { assert SameTool(e1, e2, s.node.use, args); }
    case _ =>
  }

  predicate SameTool(e1: Env, e2: Env, use: string, args: map<string, Value>) {
    if e1.dryRun then
      e1.mutating(use) == e2.mutating(use) && (!e1.mutating(use) ==> e1.call(use, args) == e2.call(use, args))
    else e1.call(use, args) == e2.call(use, args)
  }

  ghost predicate SameTools(e1: Env, e2: Env) { forall use, args :: SameTool(e1, e2, use, args) }

  lemma {:induction false} SameRuns(e1: Env, e2: Env, g: Config, schedule: seq<Event>)
    requires e2 == e1.(call := e2.call, mutating := e2.mutating) && SameTools(e1, e2)
    ensures Run(e1, g, schedule) == Run(e2, g, schedule)
    decreases |schedule|
  {
    if |schedule| > 0 {
      if schedule[0].Moves? {
        SameMoves(e1, e2, g.ended, g.count < e1.maxSteps, g.cells, g.proc, schedule[0].c);
      }
      var next := Next(e1, g, schedule[0]);
      if next.Some? { SameRuns(e1, e2, next.value, schedule[1..]); }
    }
  }

  /** In a dry run nothing a mutating tool would do can be seen: it is never called. */
  lemma DryRunCallsNoMutatingTool(env: Env, call: (string, map<string, Value>) -> Result<Value>, g: Config,
                                  schedule: seq<Event>)
    requires env.dryRun && forall use, args | !env.mutating(use) :: call(use, args) == env.call(use, args)
    ensures Run(env.(call := call), g, schedule) == Run(env, g, schedule)
  {
    forall use, args ensures SameTool(env, env.(call := call), use, args) { }
    SameRuns(env, env.(call := call), g, schedule);
  }

  /** Outside a dry run it makes no difference which tools are mutating. */
  lemma LiveRunCallsEveryTool(env: Env, mutating: string -> bool, g: Config, schedule: seq<Event>)
    requires !env.dryRun
    ensures Run(env.(mutating := mutating), g, schedule) == Run(env, g, schedule)
  {
    forall use, args ensures SameTool(env, env.(mutating := mutating), use, args) { }
    SameRuns(env, env.(mutating := mutating), g, schedule);
  }

  // ---- Records ----

  /** Arguments: every leaf of the step's, each with a value its template had in some scope. */
  ghost predicate Resolved(env: Env, s: Step, args: map<string, Value>)
    requires s.node.Tool?
  {
    args.Keys == s.node.args.Keys && forall k | k in args :: WasValue(env, s.node.args[k], args[k])
  }

  ghost predicate WasValue(env: Env, t: Template, v: Value) { exists c :: env.eval(t, c) == Ok(v) }

  ghost predicate WasError(env: Env, t: Template, e: string) { exists c :: env.eval(t, c) == Error(e) }

  /** The output of a step that succeeded: in a dry run of a mutating tool what would have
      been called, otherwise what the tool answered. */
  predicate IsOutput(env: Env, use: string, args: map<string, Value>, v: Value) {
    if env.dryRun && env.mutating(use) then
      v.Obj? && v.fields.Keys == {"dry_run", "tool", "input"}
      && v.fields["dry_run"] == Bool(true) && v.fields["tool"] == Str(use) && v.fields["input"] == Obj(args)
    else env.call(use, args) == Ok(v)
  }

  /** The reason of a step that failed: an argument, the tool, or a context that ended. */
  ghost predicate IsReason(env: Env, s: Step, e: string)
    requires s.node.Tool?
  {
    || (exists k, x :: k in s.node.args && WasError(env, s.node.args[k], x) && e == "args." + k + ": " + x)
    || (!(env.dryRun && env.mutating(s.node.use))
        && exists args :: Resolved(env, s, args) && env.call(s.node.use, args) == Error(e))
    || e == "context canceled"
  }

  ghost predicate IsRecord(env: Env, s: Step, cell: Cell) {
    s.node.Tool? && cell.Rec? &&
    if cell.error == "" then exists args :: Resolved(env, s, args) && IsOutput(env, s.node.use, args, cell.output)
    else cell.output == Null && exists e :: IsReason(env, s, e) && cell.error == "step " + s.id + ": " + e
  }

  /** The goroutine has failed, or will once it has recorded why. */
  predicate Failing(p: Proc) {
    match p
    case Ret(err) => err.Some?
    case Then(cur, _) => Failing(cur)
    case Iter(cur, _, _, _) => Failing(cur)
    case Write(_, _, next) => Failing(next)
    case Par(bs, first) => first.Some? || exists i :: 0 <= i < |bs| && Failing(bs[i])
    case _ => false
  }

  /** The ids of steps entered and not yet recorded. */
  function Owed(p: Proc): set<string> {
    match p
    case Args(s, _, _) => {s.id}
    case Call(s, _) => {s.id}
    case Write(loc, _, next) => (if loc.StepRec? then {loc.id} else {}) + Owed(next)
    case Then(cur, _) => Owed(cur)
    case Iter(cur, _, _, _) => Owed(cur)
    case Par(bs, _) => set i, id | 0 <= i < |bs| && id in Owed(bs[i]) :: id
    case _ => {}
  }

  /** The goroutine works on steps of `all`, and what it is about to record is right. */
  ghost predicate Fits(env: Env, all: set<Step>, p: Proc) {
    match p
    case Todo(steps) => AllSteps(steps) <= all
    case Then(cur, rest) => Fits(env, all, cur) && AllSteps(rest) <= all
    case Enter(s) => StepsIn(s) <= all
    case Args(s, pending, got) =>
      && s in all && s.node.Tool? && pending.Keys + got.Keys == s.node.args.Keys
      && (forall k | k in pending :: pending[k] == s.node.args[k])
      && (forall k | k in got :: WasValue(env, s.node.args[k], got[k]))
    case Call(s, args) => s in all && s.node.Tool? && Resolved(env, s, args)
    case Write(loc, cell, next) =>
      && Fits(env, all, next)
      && (loc.StepRec? ==> exists s :: s in all && s.id == loc.id && RecordFits(env, s, cell, next))
    case Loop(_, _, body) => AllSteps(body) <= all
    case Iter(cur, _, _, body) => Fits(env, all, cur) && AllSteps(body) <= all
    case Par(bs, _) => forall i | 0 <= i < |bs| :: Fits(env, all, bs[i])
    case _ => true
  }

  ghost predicate RecordFits(env: Env, s: Step, cell: Cell, next: Proc) {
    IsRecord(env, s, cell) && (cell.error != "" && s.node.onError.Fail? ==> Failing(next))
  }

  lemma {:induction false} MoveFits(env: Env, all: set<Step>, done: bool, room: bool, cells: Cells, p: Proc, c: Choice,
                                    m: Move)
    requires Fits(env, all, p) && Advance(env, done, room, cells, p, c) == Some(m)
    ensures Fits(env, all, m.next)
    decreases p
  {
    match p
    case Then(cur, _) =>
      if !cur.Ret? { MoveFits(env, all, done, room, cells, cur, c, Advance(env, done, room, cells, cur, c).value); }
    case Iter(cur, _, _, _) =>
      if !cur.Ret? { MoveFits(env, all, done, room, cells, cur, c, Advance(env, done, room, cells, cur, c).value); }
    case Par(bs, first) =>
      if c.Branch? {
        MoveFits(env, all, done || first.Some?, room, cells, bs[c.i], c.sub,
                 Advance(env, done || first.Some?, room, cells, bs[c.i], c.sub).value);
      }
    case Args(_, _, _) => ArgsFit(env, all, done, room, cells, p, c, m);
    case Call(_, _) => CallFits(env, all, done, room, cells, p, c, m);
    case Enter(s) => DispatchFits(env, all, cells, s);
    case Loop(item, items, body) => if items != [] { assert Fits(env, all, Todo(body)); }
    case _ =>
  }

  lemma ArgsFit(env: Env, all: set<Step>, done: bool, room: bool, cells: Cells, p: Proc, c: Choice, m: Move)
    requires p.Args? && Fits(env, all, p) && Advance(env, done, room, cells, p, c) == Some(m)
    ensures Fits(env, all, m.next)
  {
    var s := p.s;
    if p.pending != map[] {
      match env.eval(p.pending[c.key], cells)
      case Ok(v) => assert WasValue(env, s.node.args[c.key], v);
      case Error(e) =>
        assert WasError(env, s.node.args[c.key], e);
        ErrorFits(env, all, s, "args." + c.key + ": " + e, m.next);
    }
  }

  /** A step's error is recorded, and ends the goroutine unless the step goes on. */
  lemma ErrorFits(env: Env, all: set<Step>, s: Step, e: string, next: Proc)
    requires s in all && s.node.Tool? && IsReason(env, s, e)
    requires next.Write? && next.loc == StepRec(s.id) && next.cell == Rec(Null, "step " + s.id + ": " + e)
    requires next.next.Ret? && (s.node.onError.Fail? ==> next.next.err.Some?)
    ensures Fits(env, all, next)
  {
    var cell := next.cell;
    assert cell.error != "" by { assert cell.error[0] == 's'; }
    assert RecordFits(env, s, cell, next.next);
  }

  lemma CallFits(env: Env, all: set<Step>, done: bool, room: bool, cells: Cells, p: Proc, c: Choice, m: Move)
    requires p.Call? && Fits(env, all, p) && Advance(env, done, room, cells, p, c) == Some(m)
    ensures Fits(env, all, m.next)
  {
    var s, dry := p.s, env.dryRun && env.mutating(p.s.node.use);
    if done && c.interrupted && !dry { ErrorFits(env, all, s, "context canceled", m.next); }
    else {
      match CallTool(env, s.node.use, p.args)
      case Ok(v) =>
        assert IsOutput(env, s.node.use, p.args, v);
        assert RecordFits(env, s, Rec(v, ""), m.next.next);
      case Error(e) => ErrorFits(env, all, s, e, m.next);
    }
  }

  lemma DispatchFits(env: Env, all: set<Step>, cells: Cells, s: Step)
    requires StepsIn(s) <= all
    ensures Fits(env, all, Dispatch(env, cells, s).next)
  {
    assert s in StepsIn(s);
    if s.node.Parallel? {
      forall i | 0 <= i < |s.node.branches| ensures AllSteps(s.node.branches[i].steps) <= all {
        BranchIn(s.node.branches, i);
      }
    }
  }

  lemma {:induction false} BranchIn(branches: seq<Block>, i: nat)
    requires i < |branches|
    ensures AllSteps(branches[i].steps) <= BranchSteps(branches)
    decreases i
  {
    if i > 0 { BranchIn(branches[1..], i - 1); }
  }

  lemma {:induction false} StaysFailing(env: Env, done: bool, room: bool, cells: Cells, p: Proc, c: Choice, m: Move)
    requires Failing(p) && Advance(env, done, room, cells, p, c) == Some(m)
    ensures Failing(m.next)
    decreases p
  {
    match p
    case Then(cur, _) =>
      if !cur.Ret? { StaysFailing(env, done, room, cells, cur, c, Advance(env, done, room, cells, cur, c).value); }
    case Iter(cur, _, _, _) =>
      if !cur.Ret? { StaysFailing(env, done, room, cells, cur, c, Advance(env, done, room, cells, cur, c).value); }
    case Par(bs, first) =>
      if first.None? {
        var i :| 0 <= i < |bs| && Failing(bs[i]);
        if c.Branch? {
          var m' := Advance(env, done, room, cells, bs[c.i], c.sub).value;
          if c.i == i { StaysFailing(env, done, room, cells, bs[i], c.sub, m'); }
          assert Failing(m.next.branches[i]);
        }
      }
    case _ =>
  }

  /** What a move writes to the records is right. */
  lemma {:induction false} MoveRecords(env: Env, all: set<Step>, done: bool, room: bool, cells: Cells, p: Proc,
                                       c: Choice, m: Move)
    requires Fits(env, all, p) && Advance(env, done, room, cells, p, c) == Some(m)
    ensures forall l | l in m.write && l.StepRec? ::
      exists s :: s in all && s.id == l.id && RecordFits(env, s, m.write[l], m.next)
    decreases p
  {
    match p
    case Then(cur, rest) =>
      if !cur.Ret? {
        var m' := Advance(env, done, room, cells, cur, c).value;
        MoveRecords(env, all, done, room, cells, cur, c, m');
        LaterFails(env, all, m'.write, m'.next, m.next);
      }
    case Iter(cur, _, _, _) =>
      if !cur.Ret? {
        var m' := Advance(env, done, room, cells, cur, c).value;
        MoveRecords(env, all, done, room, cells, cur, c, m');
        LaterFails(env, all, m'.write, m'.next, m.next);
      }
    case Par(bs, first) =>
      if c.Branch? {
        var m' := Advance(env, done || first.Some?, room, cells, bs[c.i], c.sub).value;
        MoveRecords(env, all, done || first.Some?, room, cells, bs[c.i], c.sub, m');
        assert m.next.branches[c.i] == m'.next;
        LaterFails(env, all, m'.write, m'.next, m.next);
      }
    case _ =>
  }

  lemma LaterFails(env: Env, all: set<Step>, write: Cells, p: Proc, q: Proc)
    requires Failing(p) ==> Failing(q)
    requires forall l | l in write && l.StepRec? ::
      exists s :: s in all && s.id == l.id && RecordFits(env, s, write[l], p)
    ensures forall l | l in write && l.StepRec? ::
      exists s :: s in all && s.id == l.id && RecordFits(env, s, write[l], q)
  {
    forall l | l in write && l.StepRec?
      ensures exists s :: s in all && s.id == l.id && RecordFits(env, s, write[l], q)
    {
      var s :| s in all && s.id == l.id && RecordFits(env, s, write[l], p);
      assert RecordFits(env, s, write[l], q);
    }
  }

  /** A step that was entered is owed a record until it is written. */
  lemma {:induction false} MoveOwes(env: Env, all: set<Step>, done: bool, room: bool, cells: Cells, p: Proc, c: Choice,
                                    m: Move)
    requires OneStepAnId(all) && Fits(env, all, p) && Advance(env, done, room, cells, p, c) == Some(m)
    ensures forall id | id in Owed(p) :: id in Owed(m.next) || StepRec(id) in m.write
    ensures forall s | s in all && s.node.Tool? && s.id in m.entered :: s.id in Owed(m.next)
    decreases p
  {
    match p
    case Then(cur, _) =>
      if !cur.Ret? { MoveOwes(env, all, done, room, cells, cur, c, Advance(env, done, room, cells, cur, c).value); }
    case Iter(cur, _, _, _) =>
      if !cur.Ret? { MoveOwes(env, all, done, room, cells, cur, c, Advance(env, done, room, cells, cur, c).value); }
    case Par(bs, first) =>
      if c.Branch? {
        var m' := Advance(env, done || first.Some?, room, cells, bs[c.i], c.sub).value;
        MoveOwes(env, all, done || first.Some?, room, cells, bs[c.i], c.sub, m');
        BranchOwes(bs, first, c.i, m'.next);
      } else if c.Collect? { BranchOwes(bs, first, c.i, Ret(None)); }
    case Enter(s) => assert s in StepsIn(s);
    case _ =>
  }

  lemma BranchOwes(bs: seq<Proc>, first: Option<Err>, i: nat, q: Proc)
    requires i < |bs|
    ensures forall id | id in Owed(Par(bs, first)) && id !in Owed(bs[i]) :: id in Owed(Par(bs[i := q], first))
    ensures Owed(q) <= Owed(Par(bs[i := q], first))
    ensures forall f, g :: Owed(Par(bs, f)) == Owed(Par(bs, g))
  {
    var cs := bs[i := q];
    forall id | id in Owed(Par(bs, first)) && id !in Owed(bs[i]) ensures id in Owed(Par(cs, first)) {
      var k :| 0 <= k < |bs| && id in Owed(bs[k]);
      assert cs[k] == bs[k];
    }
    forall id | id in Owed(q) ensures id in Owed(Par(cs, first)) { assert cs[i] == q; }
  }

  // ---- Whole runs ----

  ghost predicate RecordsFit(env: Env, all: set<Step>, g: Config) {
    && (forall l | l in g.cells && l.StepRec? ::
          exists s :: s in all && s.id == l.id && RecordFits(env, s, g.cells[l], g.proc))
    && (forall s | s in all && s.node.Tool? && s.id in g.visited :: StepRec(s.id) in g.cells || s.id in Owed(g.proc))
  }

  lemma NextRecords(env: Env, all: set<Step>, g: Config, c: Choice)
    requires OneStepAnId(all) && Fits(env, all, g.proc) && RecordsFit(env, all, g) && Next(env, g, Moves(c)).Some?
    ensures var g' := Next(env, g, Moves(c)).value; Fits(env, all, g'.proc) && RecordsFit(env, all, g')
  {
    var room := g.count < env.maxSteps;
    var m := Advance(env, g.ended, room, g.cells, g.proc, c).value;
    var g' := Next(env, g, Moves(c)).value;
    MoveFits(env, all, g.ended, room, g.cells, g.proc, c, m);
    MoveRecords(env, all, g.ended, room, g.cells, g.proc, c, m);
    MoveOwes(env, all, g.ended, room, g.cells, g.proc, c, m);
    if Failing(g.proc) { StaysFailing(env, g.ended, room, g.cells, g.proc, c, m); }
    LaterFails(env, all, g.cells, g.proc, m.next);
    assert forall l | l in g'.cells :: if l in m.write then g'.cells[l] == m.write[l] else g'.cells[l] == g.cells[l];
  }

  lemma {:induction false} RunRecords(env: Env, all: set<Step>, g: Config, schedule: seq<Event>)
    requires OneStepAnId(all) && Fits(env, all, g.proc) && RecordsFit(env, all, g) && Run(env, g, schedule).Some?
    ensures var g' := Run(env, g, schedule).value; Fits(env, all, g'.proc) && RecordsFit(env, all, g')
    decreases |schedule|
  {
    if |schedule| > 0 {
      if schedule[0].Moves? { NextRecords(env, all, g, schedule[0].c); }
      RunRecords(env, all, Next(env, g, schedule[0]).value, schedule[1..]);
    }
  }

  /** In every run, at any moment: each record is that of a tool step of the tree, and holds
      what its tool answered for arguments resolved from its templates (in a dry run, for a
      mutating tool, what would have been called), or why it failed. Once the run has
      returned, every tool step it entered has a record; and if it returned without error,
      only steps that go on have failed. */
  lemma RecordsAreAnswers(env: Env, steps: seq<Step>, schedule: seq<Event>)
    requires OneStepAnId(AllSteps(steps)) && Run(env, Start(steps), schedule).Some?
    ensures var g := Run(env, Start(steps), schedule).value;
      && (forall id | StepRec(id) in g.cells ::
            exists s :: s in AllSteps(steps) && s.id == id && IsRecord(env, s, g.cells[StepRec(id)]))
      && (g.proc.Ret? ==>
          forall s | s in AllSteps(steps) && s.node.Tool? && s.id in g.visited :: StepRec(s.id) in g.cells)
      && (g.proc == Ret(None) ==>
          forall s | s in AllSteps(steps) && StepRec(s.id) in g.cells && s.node.Tool? && s.node.onError.Fail? ::
            g.cells[StepRec(s.id)].Rec? && g.cells[StepRec(s.id)].error == "")
  {
    var all := AllSteps(steps);
    RunRecords(env, all, Start(steps), schedule);
    var g := Run(env, Start(steps), schedule).value;
    forall id | StepRec(id) in g.cells
      ensures exists s :: s in all && s.id == id && IsRecord(env, s, g.cells[StepRec(id)])
    {
      var s :| s in all && s.id == id && RecordFits(env, s, g.cells[StepRec(id)], g.proc);
    }
    forall s | s in all && StepRec(s.id) in g.cells && s.node.Tool? && s.node.onError.Fail? && g.proc == Ret(None)
      ensures g.cells[StepRec(s.id)].Rec? && g.cells[StepRec(s.id)].error == ""
    {
      var t :| t in all && t.id == s.id && RecordFits(env, t, g.cells[StepRec(s.id)], g.proc);
      assert t == s;
    }
  }
}
