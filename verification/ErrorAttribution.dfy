/** What a finished run reports: the status Execute derives, and whose error it is. */
module ErrorAttribution {
  import opened Workflow
  import opened Machine
  import StepCap
  import Visits

  datatype Status = StatusOk | StatusFailed | StatusMaxSteps | StatusTimeout | StatusCancelled

  /** How the caller's context stands when the run has returned. */
  datatype CallerCtx = Active | DeadlineExceeded | Canceled

  /** The status of a finished run; `outputs` says whether the outputs resolve. */
  function StatusOf(err: Option<Err>, caller: CallerCtx, outputs: bool): Status {
    if err.None? then if outputs then StatusOk else StatusFailed
    else if err.value.MaxSteps? then StatusMaxSteps
    else if caller.DeadlineExceeded? then StatusTimeout
    else if caller.Canceled? then StatusCancelled
    else StatusFailed
  }

  /** The statuses, each exactly when: a run that returned is ok when its outputs resolve;
      the cap comes first among errors, then how the caller's context ended. */
  lemma StatusExactly(err: Option<Err>, caller: CallerCtx, outputs: bool)
    ensures var s := StatusOf(err, caller, outputs);
      && (s == StatusOk <==> err == None && outputs)
      && (s == StatusMaxSteps <==> err == Some(MaxSteps))
      && (s == StatusTimeout <==> err.Some? && err != Some(MaxSteps) && caller == DeadlineExceeded)
      && (s == StatusCancelled <==> err.Some? && err != Some(MaxSteps) && caller == Canceled)
  {
  }

  /** Every error but a cancellation was raised by a step; a cancellation only stands
      where the context really has ended. */
  predicate Attributed(done: bool, raised: set<Err>, err: Option<Err>) {
    err.Some? ==> if err.value.Cancelled? then done else err.value in raised
  }

  predicate Clean(done: bool, raised: set<Err>, p: Proc)
    decreases p
  {
    match p
    case Ret(err) => Attributed(done, raised, err)
    case Then(cur, _) => Clean(done, raised, cur)
    case Iter(cur, _, _, _) => Clean(done, raised, cur)
    case Write(_, _, next) => Clean(done, raised, next)
    case Par(bs, first) =>
      && Attributed(done, raised, first)
      && forall i | 0 <= i < |bs| :: Clean(done || first.Some?, raised, bs[i])
    case _ => true
  }

  lemma {:induction false} CleanGrows(done: bool, done': bool, raised: set<Err>, raised': set<Err>, p: Proc)
    requires Clean(done, raised, p) && (done ==> done') && raised <= raised'
    ensures Clean(done', raised', p)
    decreases p
  {
    match p
    case Then(cur, _) => CleanGrows(done, done', raised, raised', cur);
    case Iter(cur, _, _, _) => CleanGrows(done, done', raised, raised', cur);
    case Write(_, _, next) => CleanGrows(done, done', raised, raised', next);
    case Par(bs, first) =>
      forall i | 0 <= i < |bs| ensures Clean(done' || first.Some?, raised', bs[i]) {
        CleanGrows(done || first.Some?, done' || first.Some?, raised, raised', bs[i]);
      }
    case _ =>
  }

  /** The moves a goroutine makes itself. */
  lemma ActClean(env: Env, done: bool, room: bool, cells: Cells, p: Proc, c: Choice, m: Move, raised: set<Err>)
    requires !p.Then? && !p.Iter? && !p.Par? && Advance(env, done, room, cells, p, c) == Some(m)
      && Clean(done, raised, p)
    ensures Clean(done, raised + m.raised, m.next)
  {
    var all := raised + m.raised;
    match p
    case Write(_, _, next) => CleanGrows(done, done, raised, all, next);
    case Loop(item, items, body) =>
      if m.next.Iter? { assert Clean(done, all, Write(Var(item), Val(items[0]), Todo(body)).next); }
    case _ =>
  }

  /** The first error of a group is never a sibling's cancellation: a group cancels its
      branches only once it has recorded an error. */
  lemma {:induction false} MoveClean(env: Env, done: bool, room: bool, cells: Cells, p: Proc, c: Choice, m: Move,
                                     raised: set<Err>)
    requires Advance(env, done, room, cells, p, c) == Some(m) && Clean(done, raised, p)
    ensures Clean(done, raised + m.raised, m.next)
    decreases p
  {
    var all := raised + m.raised;
    match p
    case Then(cur, _) =>
      if !cur.Ret? { MoveClean(env, done, room, cells, cur, c, Advance(env, done, room, cells, cur, c).value, raised); }
    case Iter(cur, _, _, _) =>
      if !cur.Ret? { MoveClean(env, done, room, cells, cur, c, Advance(env, done, room, cells, cur, c).value, raised); }
    case Par(bs, first) =>
      var done' := done || first.Some?;
      if c.Branch? {
        var m' := Advance(env, done', room, cells, bs[c.i], c.sub).value;
        MoveClean(env, done', room, cells, bs[c.i], c.sub, m', raised);
      }
      forall i | 0 <= i < |bs| ensures Clean(done', all, bs[i]) { CleanGrows(done', done', raised, all, bs[i]); }
      if c.Collect? {
        assert Clean(done', all, bs[c.i]);
        var first' := m.next.first;
        forall i | 0 <= i < |bs| ensures Clean(done || first'.Some?, all, m.next.branches[i]) {
          CleanGrows(done', done || first'.Some?, all, all, bs[i]);
        }
      }
    case _ => ActClean(env, done, room, cells, p, c, m, raised);
  }

  lemma {:induction false} RunClean(env: Env, g: Config, schedule: seq<Event>)
    requires Clean(g.ended, g.raised, g.proc) && Run(env, g, schedule).Some?
    ensures var g' := Run(env, g, schedule).value; Clean(g'.ended, g'.raised, g'.proc)
    ensures var g' := Run(env, g, schedule).value; g.raised <= g'.raised
    decreases |schedule|
  {
    if schedule != [] {
      var g' := Next(env, g, schedule[0]).value;
      match schedule[0] {
        case CallerEnds => CleanGrows(g.ended, true, g.raised, g.raised, g.proc);
        case Moves(c) =>
          var room := g.count < env.maxSteps;
          MoveClean(env, g.ended, room, g.cells, g.proc, c,
                    Advance(env, g.ended, room, g.cells, g.proc, c).value, g.raised);
      }
      RunClean(env, g', schedule[1..]);
    }
  }

  /** Steps raise their own errors or the cap, never a cancellation. */
  lemma {:induction false} MoveRaises(env: Env, done: bool, room: bool, cells: Cells, p: Proc, c: Choice, m: Move)
    requires Advance(env, done, room, cells, p, c) == Some(m)
    ensures Cancelled !in m.raised && (MaxSteps in m.raised <==> m.tick && !room)
    decreases p
  {
    match p
    case Then(cur, _) =>
      if !cur.Ret? { MoveRaises(env, done, room, cells, cur, c, Advance(env, done, room, cells, cur, c).value); }
    case Iter(cur, _, _, _) =>
      if !cur.Ret? { MoveRaises(env, done, room, cells, cur, c, Advance(env, done, room, cells, cur, c).value); }
    case Par(bs, first) =>
      if c.Branch? {
        MoveRaises(env, done || first.Some?, room, cells, bs[c.i], c.sub,
                   Advance(env, done || first.Some?, room, cells, bs[c.i], c.sub).value);
      }
    case _ =>
  }

  lemma {:induction false} RunRaises(env: Env, g: Config, schedule: seq<Event>)
    requires Run(env, g, schedule).Some?
    requires Cancelled !in g.raised && (MaxSteps in g.raised <==> g.count > env.maxSteps)
    ensures var g' := Run(env, g, schedule).value;
      Cancelled !in g'.raised && (MaxSteps in g'.raised <==> g'.count > env.maxSteps)
    decreases |schedule|
  {
    if schedule != [] {
      if schedule[0].Moves? {
        var room := g.count < env.maxSteps;
        MoveRaises(env, g.ended, room, g.cells, g.proc, schedule[0].c,
                   Advance(env, g.ended, room, g.cells, g.proc, schedule[0].c).value);
      }
      RunRaises(env, Next(env, g, schedule[0]).value, schedule[1..]);
    }
  }

  /** However groups nest: while the caller's context lasts, the error of a finished run
      is one a step raised itself, never a cancellation. The cap is never hidden: a run
      that ran into it ends in an error, and a run reporting the cap did run into it. */
  lemma ErrorIsAStepsOwn(env: Env, steps: seq<Step>, schedule: seq<Event>)
    requires Run(env, Start(steps), schedule).Some? && Run(env, Start(steps), schedule).value.proc.Ret?
    ensures var g := Run(env, Start(steps), schedule).value;
      && (g.proc.err.Some? && !g.ended ==> g.proc.err.value in g.raised && !g.proc.err.value.Cancelled?)
      && (g.count > env.maxSteps ==> g.proc.err.Some?)
      && (g.proc.err == Some(MaxSteps) ==> g.count > env.maxSteps)
  {
    RunClean(env, Start(steps), schedule);
    RunRaises(env, Start(steps), schedule);
    StepCap.StepCapHolds(env, steps, schedule);
  }

  /** With a caller that stays, the status is ok, failed or max_steps; it is max_steps
      exactly when the error is the cap, only once the counter passed the cap, and never
      ok then. */
  lemma StatusWithActiveCaller(env: Env, steps: seq<Step>, schedule: seq<Event>, outputs: bool)
    requires Run(env, Start(steps), schedule).Some? && Run(env, Start(steps), schedule).value.proc.Ret?
    requires !Run(env, Start(steps), schedule).value.ended
    ensures var g := Run(env, Start(steps), schedule).value;
      var status := StatusOf(g.proc.err, Active, outputs);
      && status in {StatusOk, StatusFailed, StatusMaxSteps}
      && (g.count > env.maxSteps ==> status != StatusOk)
      && (status == StatusMaxSteps <==> g.proc.err == Some(MaxSteps))
      && (status == StatusMaxSteps ==> g.count > env.maxSteps)
      && (status == StatusOk <==> g.proc.err.None? && outputs)
  {
    ErrorIsAStepsOwn(env, steps, schedule);
  }

  // ---- Without parallel steps ----

  /** The cap's error is on its way up and nothing else can happen. */
  predicate CapRises(p: Proc) {
    match p
    case Ret(err) => err == Some(MaxSteps)
    case Then(cur, _) => CapRises(cur)
    case Iter(cur, _, _, _) => CapRises(cur)
    case _ => false
  }

  lemma {:induction false} MoveRises(env: Env, done: bool, room: bool, cells: Cells, p: Proc, c: Choice, m: Move)
    requires Visits.Single(p) && Advance(env, done, room, cells, p, c) == Some(m)
    ensures CapRises(p) || (m.tick && !room) ==> CapRises(m.next)
    decreases p
  {
    if p.Then? || p.Iter? { assert CapRises(p) == CapRises(p.cur); }
    match p
    case Then(cur, _) =>
      if !cur.Ret? {
        var m' := Advance(env, done, room, cells, cur, c).value;
        MoveRises(env, done, room, cells, cur, c, m');
        assert CapRises(m.next) == CapRises(m'.next);
      }
    case Iter(cur, _, _, _) =>
      if !cur.Ret? {
        var m' := Advance(env, done, room, cells, cur, c).value;
        MoveRises(env, done, room, cells, cur, c, m');
        assert CapRises(m.next) == CapRises(m'.next);
      }
    case _ =>
  }

  lemma {:induction false} RunRises(env: Env, g: Config, schedule: seq<Event>)
    requires Visits.Single(g.proc) && Run(env, g, schedule).Some?
    requires g.count > env.maxSteps ==> CapRises(g.proc)
    ensures var g' := Run(env, g, schedule).value; g'.count > env.maxSteps ==> CapRises(g'.proc)
    decreases |schedule|
  {
    if schedule != [] {
      if schedule[0].Moves? {
        var room, c := g.count < env.maxSteps, schedule[0].c;
        var m := Advance(env, g.ended, room, g.cells, g.proc, c).value;
        MoveRises(env, g.ended, room, g.cells, g.proc, c, m);
        Visits.StaysSingle(env, g.ended, room, g.cells, g.proc, c, m);
      }
      RunRises(env, Next(env, g, schedule[0]).value, schedule[1..]);
    }
  }

  /** Without parallel steps no other error can hide the cap: the status is max_steps
      exactly when the counter passed it, even if the caller left meanwhile. */
  lemma MaxStepsExactly(env: Env, steps: seq<Step>, schedule: seq<Event>, caller: CallerCtx, outputs: bool)
    requires Visits.NoParallels(steps)
    requires Run(env, Start(steps), schedule).Some? && Run(env, Start(steps), schedule).value.proc.Ret?
    ensures var g := Run(env, Start(steps), schedule).value;
      StatusOf(g.proc.err, caller, outputs) == StatusMaxSteps <==> g.count > env.maxSteps
  {
    RunRises(env, Start(steps), schedule);
    ErrorIsAStepsOwn(env, steps, schedule);
  }
}
