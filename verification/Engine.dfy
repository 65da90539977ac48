/** The engine as it is written: methods recursing over the tree and changing a shared
    run state. Dafny has no goroutines, so `RunParallel` runs its branches one after
    another; each method is proved to be one way of driving the machine, whose other
    schedules the theorems about runs cover. */
module Engine {
  import opened Workflow
  import opened Machine
  import opened Driving
  import Confluence
  import ErrorAttribution
  import StepCap

  datatype StepResult = StepResult(output: Value, error: string)

  class RunState {
    const maxSteps: nat
    var vars: map<string, Value>
    var steps: map<string, StepResult>
    var stepCount: nat

    constructor (maxSteps: nat)
      ensures this.maxSteps == maxSteps && Now() == State(map[], 0)
    {
      this.maxSteps := maxSteps;
      vars, steps, stepCount := map[], map[], 0;
      new;
      assert Scope() == map[];
    }

    /** What expressions see. */
    function Scope(): Cells
      reads this
    {
      (map k | k in vars :: Var(k) := Val(vars[k]))
      + (map k | k in steps :: StepRec(k) := Rec(steps[k].output, steps[k].error))
    }

    ghost function Now(): State
      reads this
    {
      State(Scope(), stepCount)
    }

    method SetVar(k: string, v: Value)
      modifies this
      ensures Now() == State(old(Scope())[Var(k) := Val(v)], old(stepCount))
    {
      vars := vars[k := v];
      forall l ensures Look(Scope(), l) == Look(old(Scope())[Var(k) := Val(v)], l) {
        assert l.Var? ==> (l in Scope() <==> l.name in vars);
        assert l.StepRec? ==> (l in Scope() <==> l.id in steps);
      }
      EqualCells(Scope(), old(Scope())[Var(k) := Val(v)]);
    }

    method SetStepResult(id: string, r: StepResult)
      modifies this
      ensures Now() == State(old(Scope())[StepRec(id) := Rec(r.output, r.error)], old(stepCount))
    {
      steps := steps[id := r];
      forall l ensures Look(Scope(), l) == Look(old(Scope())[StepRec(id) := Rec(r.output, r.error)], l) {
        assert l.Var? ==> (l in Scope() <==> l.name in vars);
        assert l.StepRec? ==> (l in Scope() <==> l.id in steps);
      }
      EqualCells(Scope(), old(Scope())[StepRec(id) := Rec(r.output, r.error)]);
    }

    /** Counts a leaf step; false says the cap does not let it be dispatched. */
    method IncSteps() returns (ok: bool)
      modifies this
      ensures Now() == State(old(Scope()), old(stepCount) + 1)
      ensures ok <==> old(stepCount) < maxSteps
    {
      stepCount := stepCount + 1;
      ok := stepCount <= maxSteps;
      assert Scope() == old(Scope());
    }
  }

  datatype Execution = Execution(status: ErrorAttribution.Status, outputs: map<string, Value>, steps: nat)

  class Engine {
    const env: Env
    // whether calls and waits made under an ended context are cut short
    const interrupts: bool

    constructor (env: Env, interrupts: bool)
      ensures this.env == env && this.interrupts == interrupts
    {
      this.env, this.interrupts := env, interrupts;
    }

    method RunSteps(done: bool, st: RunState, steps: seq<Step>) returns (err: Option<Err>)
      requires st.maxSteps == env.maxSteps
      modifies st
      ensures Drives(env, done, Todo(steps), old(st.Now()), Ret(err), st.Now())
      decreases steps, 0, 0
    {
      var i := 0;
      ghost var p := Todo(steps);
      DrivesSelf(env, done, p, st.Now());
      while i < |steps|
        invariant i <= |steps| && Drives(env, done, p, old(st.Now()), Todo(steps[i..]), st.Now())
      {
        ghost var q := Todo(steps[i..]);
        assert steps[i..][0] == steps[i] && steps[i..][1..] == steps[i + 1..];
        if done {
          DrivesOnMove(env, done, p, old(st.Now()), q, st.Now(), Act("", false), Failing(Ret(Some(Cancelled)), {}));
          return Some(Cancelled);
        }
        ghost var before := st.Now();
        DrivesOnMove(env, done, p, old(st.Now()), q, before, Act("", false),
                     Quiet(Then(Enter(steps[i]), steps[i + 1..])));
        err := RunStep(done, st, steps[i]);
        StepEnds(env, done, p, old(st.Now()), steps[i], before, steps[i + 1..], err, st.Now());
        if err.Some? { return; }
        i := i + 1;
      }
      DrivesOnMove(env, done, p, old(st.Now()), Todo(steps[i..]), st.Now(), Act("", false), Quiet(Ret(None)));
      err := None;
    }

    method RunStep(done: bool, st: RunState, s: Step) returns (err: Option<Err>)
      requires st.maxSteps == env.maxSteps
      modifies st
      ensures Drives(env, done, Enter(s), old(st.Now()), Ret(err), st.Now())
      decreases s, 1, 0
    {
      ghost var next := Dispatch(env, st.Scope(), s).next;
      var ok := Count(done, st, s, next);
      if !ok { return Some(MaxSteps); }
      ghost var now := st.Now();
      err := RunKind(done, st, s, next);
      DrivesOn(env, done, Enter(s), old(st.Now()), next, now, Ret(err), st.Now());
    }

    /** Counts a leaf step; past the cap it is not dispatched. */
    method Count(done: bool, st: RunState, s: Step, ghost next: Proc) returns (ok: bool)
      requires st.maxSteps == env.maxSteps && next == Dispatch(env, st.Scope(), s).next
      modifies st
      ensures Drives(env, done, Enter(s), old(st.Now()), if ok then next else Ret(Some(MaxSteps)), st.Now())
      ensures st.Scope() == old(st.Scope())
    {
      ghost var now := st.Now();
      ok := true;
      if IsLeaf(s) {
        LeafEnters(env, done, s, now, next);
        ok := st.IncSteps();
        assert st.Now() == State(now.cells, now.count + 1);
      } else { OtherEnters(env, done, s, now, next); }
    }

    method RunKind(done: bool, st: RunState, s: Step, ghost next: Proc) returns (err: Option<Err>)
      requires st.maxSteps == env.maxSteps && next == Dispatch(env, st.Scope(), s).next
      modifies st
      ensures Drives(env, done, next, old(st.Now()), Ret(err), st.Now())
      decreases s, 0, 1
    {
      DispatchNext(env, st.Scope(), s);
      match s.node {
        case Tool(_, _, _) => err := RunTool(done, st, s);
        case Assign(bindings) => err := RunAssign(done, st, s, bindings);
        case If(cond, thn, els) => err := RunIf(done, st, s);
        case Foreach(_, _, _) => err := RunForeach(done, st, s);
        case Parallel(branches) => err := RunParallel(done, st, branches);
        case Wait(_) => err := RunWait(done, st, s);
      }
    }

    method RecordStepErr(done: bool, st: RunState, s: Step, e: Err, text: string) returns (err: Option<Err>)
      requires s.node.Tool?
      modifies st
      ensures Drives(env, done, RecordErr(s, e, text), old(st.Now()), Ret(err), st.Now())
    {
      st.SetStepResult(s.id, StepResult(Null, text));
      err := if s.node.onError.Continue? then None else Some(e);
      DrivesSelf(env, done, RecordErr(s, e, text), old(st.Now()));
      DrivesWrite(env, done, RecordErr(s, e, text), old(st.Now()), StepRec(s.id), Rec(Null, text), Ret(err),
                  old(st.Now()));
    }

    method RunTool(done: bool, st: RunState, s: Step) returns (err: Option<Err>)
      requires s.node.Tool?
      modifies st
      ensures Drives(env, done, Args(s, s.node.args, map[]), old(st.Now()), Ret(err), st.Now())
    {
      ghost var p := Args(s, s.node.args, map[]);
      var r := ResolveArgs(done, st, s);
      match r {
        case Error(text) =>
          err := RecordStepErr(done, st, s, Own(s.id, text), text);
          DrivesOn(env, done, p, old(st.Now()), RecordErr(s, Own(s.id, text), text), old(st.Now()), Ret(err), st.Now());
        case Ok(args) =>
          err := InvokeTool(done, st, s, args);
          DrivesOn(env, done, p, old(st.Now()), Call(s, args), old(st.Now()), Ret(err), st.Now());
      }
    }

    method ResolveArgs(done: bool, st: RunState, s: Step) returns (r: Result<map<string, Value>>)
      requires s.node.Tool?
      ensures r.Ok? ==> Drives(env, done, Args(s, s.node.args, map[]), st.Now(), Call(s, r.value), st.Now())
      ensures r.Error? ==>
        Drives(env, done, Args(s, s.node.args, map[]), st.Now(), RecordErr(s, Own(s.id, r.text), r.text), st.Now())
    {
      ghost var p, now := Args(s, s.node.args, map[]), st.Now();
      var pending, got := s.node.args, map[];
      DrivesSelf(env, done, p, now);
      while pending != map[]
        invariant Drives(env, done, p, now, Args(s, pending, got), now)
        decreases |pending|
      {
        assert pending.Keys != {};
        var k :| k in pending;
        ghost var q := Args(s, pending, got);
        var v := env.eval(pending[k], st.Scope());
        if v.Error? {
          var text := StepText(s.id, "args." + k + ": " + v.text);
          ArgResolved(env, done, now, s, pending, got, k);
          DrivesOn(env, done, p, now, q, now, RecordErr(s, Own(s.id, text), text), now);
          return Error(text);
        }
        ArgResolved(env, done, now, s, pending, got, k);
        pending, got := pending - {k}, got[k := v.value];
        DrivesOn(env, done, p, now, q, now, Args(s, pending, got), now);
      }
      ArgsResolved(env, done, now, s, got);
      DrivesOn(env, done, p, now, Args(s, map[], got), now, Call(s, got), now);
      r := Ok(got);
    }

    method InvokeTool(done: bool, st: RunState, s: Step, args: map<string, Value>) returns (err: Option<Err>)
      requires s.node.Tool?
      modifies st
      ensures Drives(env, done, Call(s, args), old(st.Now()), Ret(err), st.Now())
    {
      ghost var c := Act("", interrupts);
      ghost var m := Advance(env, done, st.stepCount < env.maxSteps, st.Scope(), Call(s, args), c).value;
      DrivesMove(env, done, Call(s, args), st.Now(), c, m);
      if env.dryRun && env.mutating(s.node.use) {
        st.SetStepResult(s.id, StepResult(Envelope(s.node.use, args), ""));
        err := None;
        DrivesWrite(env, done, Call(s, args), old(st.Now()), StepRec(s.id), Rec(Envelope(s.node.use, args), ""),
                    Ret(None), old(st.Now()));
        return;
      }
      if done && interrupts {
        err := RecordStepErr(done, st, s, Cancelled, StepText(s.id, "context canceled"));
      } else {
        var out := env.call(s.node.use, args);
        match out {
          case Ok(v) =>
            st.SetStepResult(s.id, StepResult(v, ""));
            err := None;
            DrivesWrite(env, done, Call(s, args), old(st.Now()), StepRec(s.id), Rec(v, ""), Ret(None), old(st.Now()));
            return;
          case Error(e) =>
            err := RecordStepErr(done, st, s, Own(s.id, StepText(s.id, e)), StepText(s.id, e));
        }
      }
      DrivesOn(env, done, Call(s, args), old(st.Now()), m.next, old(st.Now()), Ret(err), st.Now());
    }

    method RunAssign(done: bool, st: RunState, s: Step, bindings: map<string, Template>) returns (err: Option<Err>)
      modifies st
      ensures Drives(env, done, Bind(s, bindings), old(st.Now()), Ret(err), st.Now())
    {
      ghost var p, s0 := Bind(s, bindings), st.Now();
      var pending := bindings;
      DrivesSelf(env, done, p, s0);
      while pending != map[]
        invariant Drives(env, done, p, s0, Bind(s, pending), st.Now())
        decreases |pending|
      {
        assert pending.Keys != {};
        var k :| k in pending;
        err := RunBinding(done, st, s, k, pending[k], pending, p, s0);
        if err.Some? { return; }
        pending := pending - {k};
      }
      BindDone(env, done, p, s0, st.Now(), s);
      err := None;
    }

    /** One binding, evaluated and stored. */
    method RunBinding(done: bool, st: RunState, s: Step, k: string, expr: Template,
                      ghost pending: map<string, Template>, ghost p: Proc, ghost s0: State)
      returns (err: Option<Err>)
      requires k in pending && pending[k] == expr && Drives(env, done, p, s0, Bind(s, pending), st.Now())
      modifies st
      ensures Drives(env, done, p, s0, if err.None? then Bind(s, pending - {k}) else Ret(err), st.Now())
    {
      BindResolved(env, done, p, s0, st.Now(), s, pending, k);
      var v := env.eval(expr, st.Scope());
      match v {
        case Ok(x) =>
          st.SetVar(k, x);
          err := None;
        case Error(e) =>
          err := Some(AssignErr(s, k, e));
      }
    }

    method RunIf(done: bool, st: RunState, s: Step) returns (err: Option<Err>)
      requires s.node.If? && st.maxSteps == env.maxSteps
      modifies st
      ensures Drives(env, done, Dispatch(env, old(st.Scope()), s).next, old(st.Now()), Ret(err), st.Now())
      decreases s, 0, 0
    {
      var v := env.eval(s.node.cond, st.Scope());
      match v {
        case Error(e) =>
          err := Some(Own(s.id, "step " + s.id + ".if: " + e));
          DrivesSelf(env, done, Ret(err), st.Now());
        case Ok(x) =>
          if Truthy(x) { err := RunSteps(done, st, s.node.thn); }
          else { err := RunSteps(done, st, s.node.els); }
      }
    }

    method RunForeach(done: bool, st: RunState, s: Step) returns (err: Option<Err>)
      requires s.node.Foreach? && st.maxSteps == env.maxSteps
      modifies st
      ensures Drives(env, done, Dispatch(env, old(st.Scope()), s).next, old(st.Now()), Ret(err), st.Now())
      decreases s, 0, 0
    {
      var v := env.eval(s.node.source, st.Scope());
      match v {
        case Error(e) =>
          err := Some(Own(s.id, "step " + s.id + ".foreach: " + e));
          DrivesSelf(env, done, Ret(err), st.Now());
        case Ok(x) =>
          if !x.List? {
            err := Some(Own(s.id, "step " + s.id + ".foreach: expected list"));
            DrivesSelf(env, done, Ret(err), st.Now());
          } else {
            err := Iterate(done, st, s.node.item, x.items, s.node.body);
          }
      }
    }

    method Iterate(done: bool, st: RunState, item: string, items: seq<Value>, body: seq<Step>)
      returns (err: Option<Err>)
      requires st.maxSteps == env.maxSteps
      modifies st
      ensures Drives(env, done, Loop(item, items, body), old(st.Now()), Ret(err), st.Now())
      decreases body, 1, 0
    {
      var i := 0;
      ghost var p := Loop(item, items, body);
      DrivesSelf(env, done, p, st.Now());
      while i < |items|
        invariant i <= |items| && Drives(env, done, p, old(st.Now()), Loop(item, items[i..], body), st.Now())
      {
        ghost var before := st.Now();
        if done {
          LoopCancelled(env, p, old(st.Now()), item, items[i..], body, before);
          return Some(Cancelled);
        }
        st.SetVar(item, items[i]);
        ghost var bound := st.Now();
        err := RunSteps(done, st, body);
        OneIteration(env, p, old(st.Now()), item, items, i, body, before, bound, err, st.Now());
        if err.Some? { return; }
        i := i + 1;
      }
      LoopDone(env, done, p, old(st.Now()), item, items[i..], body, st.Now());
      err := None;
    }

    /** The branches in order; once one has failed the others find their context ended. */
    method RunParallel(done: bool, st: RunState, branches: seq<Block>) returns (err: Option<Err>)
      requires st.maxSteps == env.maxSteps
      modifies st
      ensures Drives(env, done, Par(Confluence.Spawn(branches), None), old(st.Now()), Ret(err), st.Now())
      decreases branches, 0, 0
    {
      var first: Option<Err> := None;
      var i := 0;
      ghost var p := Par(Confluence.Spawn(branches), None);
      ghost var bs := Confluence.Spawn(branches);
      DrivesSelf(env, done, p, st.Now());
      while i < |branches|
        invariant i <= |branches| == |bs|
        invariant forall k | 0 <= k < |bs| :: bs[k] == if k < i then Ret(None) else Todo(branches[k].steps)
        invariant Drives(env, done, p, old(st.Now()), Par(bs, first), st.Now())
      {
        ghost var before, was, q := st.Now(), bs, first;
        var e := RunSteps(done || first.Some?, st, branches[i].steps);
        DrivesBranch(env, done, before, st.Now(), bs, first, i, Ret(e));
        if first.None? { first := e; }
        bs := bs[i := Ret(None)];
        BranchEnds(env, done, p, old(st.Now()), was, q, i, e, before, st.Now());
        i := i + 1;
      }
      DrivesOnMove(env, done, p, old(st.Now()), Par(bs, first), st.Now(), Act("", false), Quiet(Ret(first)));
      err := first;
    }

    method RunWait(done: bool, st: RunState, s: Step) returns (err: Option<Err>)
      modifies st
      ensures Drives(env, done, Sleep(s), old(st.Now()), Ret(err), st.Now())
    {
      err := if done && interrupts then Some(Cancelled) else None;
      DrivesMove(env, done, Sleep(s), st.Now(), Act("", interrupts),
                 if err.Some? then Failing(Ret(err), {}) else Quiet(Ret(err)));
    }

    method ResolveOutputs(st: RunState, outs: map<string, Template>) returns (r: Option<map<string, Value>>)
      ensures r == Confluence.ResolveAll(env, outs, st.Scope())
    {
      var pending, res := outs, map[];
      while pending != map[]
        invariant forall k | k in pending :: k in outs && pending[k] == outs[k] && k !in res
        invariant forall k | k in outs :: k in pending || (k in res && env.eval(outs[k], st.Scope()) == Ok(res[k]))
        invariant forall k | k in res :: k in outs
        decreases |pending|
      {
        assert pending.Keys != {};
        var k :| k in pending;
        var v := env.eval(pending[k], st.Scope());
        if v.Error? { return None; }
        pending, res := pending - {k}, res[k := v.value];
      }
      r := Some(res);
      Resolved(env, outs, st.Scope(), res);
    }

    /** A whole run. The result is that of one of the machine's runs: its status and step
        count, and the outputs resolved in the scope it leaves. */
    method Execute(done: bool, caller: ErrorAttribution.CallerCtx, steps: seq<Step>, outs: map<string, Template>)
      returns (x: Execution)
      requires done <==> !caller.Active?
      ensures exists schedule :: ResultOf(env, done, caller, steps, outs, schedule, x)
    {
      var st := new RunState(env.maxSteps);
      ghost var s0 := st.Now();
      label L:
      var err := RunSteps(done, st, steps);
      assert Drives(env, done, Todo(steps), s0, Ret(err), st.Now());
      var outputs := map[];
      var resolved := true;
      if err.None? {
        var r := ResolveOutputs(st, outs);
        resolved := r.Some?;
        if resolved { outputs := r.value; }
      }
      x := Execution(ErrorAttribution.StatusOf(err, caller, resolved), outputs, st.stepCount);
      ghost var schedule := DrivenRun(env, done, steps, err, st.Now());
      assert ResultOf(env, done, caller, steps, outs, schedule, x);
    }
  }

  lemma LeafEnters(env: Env, done: bool, s: Step, now: State, next: Proc)
    requires next == Dispatch(env, now.cells, s).next && IsLeaf(s)
    ensures Drives(env, done, Enter(s), now, if now.count < env.maxSteps then next else Ret(Some(MaxSteps)),
                   State(now.cells, now.count + 1))
  {
    DrivesMove(env, done, Enter(s), now, Act("", false),
               Advance(env, done, now.count < env.maxSteps, now.cells, Enter(s), Act("", false)).value);
  }

  lemma OtherEnters(env: Env, done: bool, s: Step, now: State, next: Proc)
    requires next == Dispatch(env, now.cells, s).next && !IsLeaf(s)
    ensures Drives(env, done, Enter(s), now, next, now)
  {
    DrivesMove(env, done, Enter(s), now, Act("", false),
               Advance(env, done, now.count < env.maxSteps, now.cells, Enter(s), Act("", false)).value);
  }

  lemma DispatchNext(env: Env, cells: Cells, s: Step)
    ensures s.node.Tool? ==> Dispatch(env, cells, s).next == Args(s, s.node.args, map[])
    ensures s.node.Assign? ==> Dispatch(env, cells, s).next == Bind(s, s.node.bindings)
    ensures s.node.Wait? ==> Dispatch(env, cells, s).next == Sleep(s)
    ensures s.node.Parallel? ==> Dispatch(env, cells, s).next == Par(Confluence.Spawn(s.node.branches), None)
  {
  }

  function AfterArg(env: Env, cells: Cells, s: Step, pending: map<string, Template>, got: map<string, Value>,
                    k: string): Proc
    requires s.node.Tool? && k in pending
  {
    match env.eval(pending[k], cells)
    case Ok(v) => Args(s, pending - {k}, got[k := v])
    case Error(e) =>
      var text := StepText(s.id, "args." + k + ": " + e);
      RecordErr(s, Own(s.id, text), text)
  }

  lemma ArgResolved(env: Env, done: bool, now: State, s: Step, pending: map<string, Template>,
                    got: map<string, Value>, k: string)
    requires s.node.Tool? && k in pending
    ensures Drives(env, done, Args(s, pending, got), now, AfterArg(env, now.cells, s, pending, got, k), now)
  {
    assert pending != map[];
    DrivesMove(env, done, Args(s, pending, got), now, Act(k, false),
               Advance(env, done, now.count < env.maxSteps, now.cells, Args(s, pending, got), Act(k, false)).value);
  }

  function AssignErr(s: Step, k: string, e: string): Err { Own(s.id, "step " + s.id + ".assign." + k + ": " + e) }

  lemma BindResolved(env: Env, done: bool, p: Proc, s0: State, now: State, s: Step, pending: map<string, Template>,
                     k: string)
    requires Drives(env, done, p, s0, Bind(s, pending), now) && k in pending
    ensures match env.eval(pending[k], now.cells)
      case Ok(x) => Drives(env, done, p, s0, Bind(s, pending - {k}), State(now.cells[Var(k) := Val(x)], now.count))
      case Error(e) => Drives(env, done, p, s0, Ret(Some(AssignErr(s, k, e))), now)
  {
    assert pending != map[];
    match env.eval(pending[k], now.cells)
    case Ok(x) =>
      var w := Write(Var(k), Val(x), Bind(s, pending - {k}));
      DrivesOnMove(env, done, p, s0, Bind(s, pending), now, Act(k, false), Quiet(w));
      DrivesWrite(env, done, p, s0, Var(k), Val(x), Bind(s, pending - {k}), now);
    case Error(e) =>
      var err := AssignErr(s, k, e);
      DrivesOnMove(env, done, p, s0, Bind(s, pending), now, Act(k, false), Failing(Ret(Some(err)), {err}));
  }

  lemma BindDone(env: Env, done: bool, p: Proc, s0: State, now: State, s: Step)
    requires Drives(env, done, p, s0, Bind(s, map[]), now)
    ensures Drives(env, done, p, s0, Ret(None), now)
  {
    DrivesOnMove(env, done, p, s0, Bind(s, map[]), now, Act("", false), Quiet(Ret(None)));
  }

  lemma ArgsResolved(env: Env, done: bool, now: State, s: Step, got: map<string, Value>)
    requires s.node.Tool?
    ensures Drives(env, done, Args(s, map[], got), now, Call(s, got), now)
  {
    DrivesMove(env, done, Args(s, map[], got), now, Act("", false), Quiet(Call(s, got)));
  }

  lemma Resolved(env: Env, outs: map<string, Template>, cells: Cells, res: map<string, Value>)
    requires forall k :: k in res <==> k in outs
    requires forall k | k in outs :: env.eval(outs[k], cells) == Ok(res[k])
    ensures Confluence.ResolveAll(env, outs, cells) == Some(res)
  {
    assert (map k | k in outs :: env.eval(outs[k], cells).value) == res;
  }

  function StartAt(steps: seq<Step>, done: bool): Config { Start(steps).(ended := done) }

  ghost predicate ResultOf(env: Env, done: bool, caller: ErrorAttribution.CallerCtx, steps: seq<Step>,
                           outs: map<string, Template>, schedule: seq<Event>, x: Execution)
  {
    && Run(env, StartAt(steps, done), schedule).Some?
    && var g := Run(env, StartAt(steps, done), schedule).value;
    && g.proc.Ret? && g.ended == done && x.steps == g.count
    && var r := if g.proc.err.None? then Confluence.ResolveAll(env, outs, g.cells) else Some(map[]);
    && x.status == ErrorAttribution.StatusOf(g.proc.err, caller, r.Some?)
    && x.outputs == if r.Some? then r.value else map[]
  }

  /** A whole execution while the caller waits: the status is ok, failed or max_steps, the
      last only past the cap, and the count stays within the cap and the tree's width. */
  lemma ExecutionIsBounded(env: Env, steps: seq<Step>, outs: map<string, Template>, schedule: seq<Event>, x: Execution)
    requires ResultOf(env, false, ErrorAttribution.Active, steps, outs, schedule, x)
    ensures x.status in {ErrorAttribution.StatusOk, ErrorAttribution.StatusFailed, ErrorAttribution.StatusMaxSteps}
    ensures x.status == ErrorAttribution.StatusMaxSteps ==> x.steps > env.maxSteps
    ensures x.status == ErrorAttribution.StatusOk ==> x.steps <= env.maxSteps
    ensures x.steps <= env.maxSteps + StepCap.WidthOf(steps)
  {
    assert StartAt(steps, false) == Start(steps);
    var g := Run(env, Start(steps), schedule).value;
    var r := if g.proc.err.None? then Confluence.ResolveAll(env, outs, g.cells) else Some(map[]);
    StepCap.StepCapHolds(env, steps, schedule);
    ErrorAttribution.StatusWithActiveCaller(env, steps, schedule, r.Some?);
  }

  lemma DrivenRun(env: Env, done: bool, steps: seq<Step>, err: Option<Err>, s: State) returns (schedule: seq<Event>)
    requires Drives(env, done, Todo(steps), State(map[], 0), Ret(err), s)
    ensures Run(env, StartAt(steps, done), schedule).Some?
    ensures var g := Run(env, StartAt(steps, done), schedule).value;
      g.proc == Ret(err) && g.cells == s.cells && g.count == s.count && g.ended == done
  {
    var cs :| Drive(env, done, State(map[], 0), Todo(steps), cs) == Some((Ret(err), s));
    schedule := Events(cs);
    DriveIsRun(env, StartAt(steps, done), cs);
  }

  lemma StepEnds(env: Env, done: bool, p: Proc, s0: State, s: Step, before: State, rest: seq<Step>,
                 err: Option<Err>, now: State)
    requires Drives(env, done, p, s0, Then(Enter(s), rest), before)
      && Drives(env, done, Enter(s), before, Ret(err), now)
    ensures Drives(env, done, p, s0, if err.None? then Todo(rest) else Ret(err), now)
  {
    DrivesThen(env, done, Enter(s), before, Ret(err), now, rest);
    DrivesOn(env, done, p, s0, Then(Enter(s), rest), before, Then(Ret(err), rest), now);
    DrivesOnMove(env, done, p, s0, Then(Ret(err), rest), now, Act("", false),
                 Quiet(if err.None? then Todo(rest) else Ret(err)));
  }

  lemma LoopDone(env: Env, done: bool, p: Proc, s0: State, item: string, items: seq<Value>, body: seq<Step>, now: State)
    requires |items| == 0 && Drives(env, done, p, s0, Loop(item, items, body), now)
    ensures Drives(env, done, p, s0, Ret(None), now)
  {
    DrivesOnMove(env, done, p, s0, Loop(item, items, body), now, Act("", false), Quiet(Ret(None)));
  }

  lemma LoopCancelled(env: Env, p: Proc, s0: State, item: string, items: seq<Value>, body: seq<Step>, now: State)
    requires items != [] && Drives(env, true, p, s0, Loop(item, items, body), now)
    ensures Drives(env, true, p, s0, Ret(Some(Cancelled)), now)
  {
    DrivesOnMove(env, true, p, s0, Loop(item, items, body), now, Act("", false), Failing(Ret(Some(Cancelled)), {}));
  }

  lemma OneIteration(env: Env, p: Proc, s0: State, item: string, items: seq<Value>, i: nat, body: seq<Step>,
                     before: State, bound: State, err: Option<Err>, now: State)
    requires i < |items| && Drives(env, false, p, s0, Loop(item, items[i..], body), before)
    requires bound == State(before.cells[Var(item) := Val(items[i])], before.count)
    requires Drives(env, false, Todo(body), bound, Ret(err), now)
    ensures Drives(env, false, p, s0, if err.None? then Loop(item, items[i + 1..], body) else Ret(err), now)
  {
    var w := Write(Var(item), Val(items[i]), Todo(body));
    assert items[i..][0] == items[i] && items[i..][1..] == items[i + 1..];
    DrivesOnMove(env, false, p, s0, Loop(item, items[i..], body), before, Act("", false),
                 Quiet(Iter(w, item, items[i + 1..], body)));
    IterationDrives(env, false, before, item, items[i], body, bound, err, now);
    IterationEnds(env, false, p, s0, w, before, item, items[i + 1..], body, err, now);
  }

  lemma IterationDrives(env: Env, done: bool, before: State, item: string, v: Value, body: seq<Step>, bound: State,
                        err: Option<Err>, now: State)
    requires bound == State(before.cells[Var(item) := Val(v)], before.count)
    requires Drives(env, done, Todo(body), bound, Ret(err), now)
    ensures Drives(env, done, Write(Var(item), Val(v), Todo(body)), before, Ret(err), now)
  {
    var w := Write(Var(item), Val(v), Todo(body));
    DrivesSelf(env, done, w, before);
    DrivesWrite(env, done, w, before, Var(item), Val(v), Todo(body), before);
    DrivesOn(env, done, w, before, Todo(body), bound, Ret(err), now);
  }

  lemma IterationEnds(env: Env, done: bool, p: Proc, s0: State, w: Proc, before: State, item: string,
                      items: seq<Value>, body: seq<Step>, err: Option<Err>, now: State)
    requires Drives(env, done, p, s0, Iter(w, item, items, body), before) && Drives(env, done, w, before, Ret(err), now)
    ensures Drives(env, done, p, s0, if err.None? then Loop(item, items, body) else Ret(err), now)
  {
    DrivesIter(env, done, w, before, Ret(err), now, item, items, body);
    DrivesOn(env, done, p, s0, Iter(w, item, items, body), before, Iter(Ret(err), item, items, body), now);
    IterReturns(env, done, p, s0, item, items, body, err, now);
  }

  lemma IterReturns(env: Env, done: bool, p: Proc, s0: State, item: string, items: seq<Value>, body: seq<Step>,
                    err: Option<Err>, now: State)
    requires Drives(env, done, p, s0, Iter(Ret(err), item, items, body), now)
    ensures Drives(env, done, p, s0, if err.None? then Loop(item, items, body) else Ret(err), now)
  {
    DrivesOnMove(env, done, p, s0, Iter(Ret(err), item, items, body), now, Act("", false),
                 Quiet(if err.None? then Loop(item, items, body) else Ret(err)));
  }

  lemma BranchEnds(env: Env, done: bool, p: Proc, s0: State, bs: seq<Proc>, first: Option<Err>, i: nat,
                   e: Option<Err>, before: State, now: State)
    requires i < |bs| && Drives(env, done, p, s0, Par(bs, first), before)
    requires Drives(env, done, Par(bs, first), before, Par(bs[i := Ret(e)], first), now)
    ensures Drives(env, done, p, s0, Par(bs[i := Ret(None)], if first.None? then e else first), now)
  {
    DrivesOn(env, done, p, s0, Par(bs, first), before, Par(bs[i := Ret(e)], first), now);
    if e.Some? {
      var cs := bs[i := Ret(e)];
      assert cs[i := Ret(None)] == bs[i := Ret(None)];
      DrivesOnMove(env, done, p, s0, Par(cs, first), now, Collect(i),
                   Quiet(Par(cs[i := Ret(None)], if first.None? then e else first)));
    }
  }
}
