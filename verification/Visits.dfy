/** The order in which a run without parallel steps visits its steps. */
module Visits {
  import opened Workflow
  import opened Machine

  predicate NoParallel(s: Step)
    decreases s, 0
  {
    match s.node
    case If(_, thn, els) => NoParallels(thn) && NoParallels(els)
    case Foreach(_, _, body) => NoParallels(body)
    case Parallel(_) => false
    case _ => true
  }

  predicate NoParallels(steps: seq<Step>)
    decreases steps, 0
  {
    steps != [] ==> NoParallel(steps[0]) && NoParallels(steps[1..])
  }

  /** t is a visit order of a step: the step, then one branch of an `if` or the body of
      a `foreach` once. */
  ghost predicate StepVisit(s: Step, t: seq<string>)
    decreases s, 1
  {
    t != [] && t[0] == s.id && InnerVisit(s, t[1..])
  }

  ghost predicate InnerVisit(s: Step, t: seq<string>)
    decreases s, 0
  {
    match s.node
    case If(_, thn, els) => StepsVisit(thn, t) || StepsVisit(els, t)
    case Foreach(_, _, body) => StepsVisit(body, t)
    case Parallel(_) => false
    case _ => t == []
  }

  ghost predicate StepsVisit(steps: seq<Step>, t: seq<string>)
    decreases steps, 0
  {
    if steps == [] then t == [] else exists k: nat :: VisitSplit(steps, t, k)
  }

  /** The first step visits t[..k], the others the rest. */
  ghost predicate VisitSplit(steps: seq<Step>, t: seq<string>, k: nat)
    requires steps != []
    decreases steps, 0, 0
  {
    k <= |t| && StepVisit(steps[0], t[..k]) && StepsVisit(steps[1..], t[k..])
  }

  ghost predicate LoopVisit(n: nat, body: seq<Step>, t: seq<string>)
    decreases n, 1
  {
    if n == 0 then t == [] else exists k: nat :: LoopSplit(n, body, t, k)
  }

  ghost predicate LoopSplit(n: nat, body: seq<Step>, t: seq<string>, k: nat)
    requires n > 0
    decreases n, 0
  {
    k <= |t| && StepsVisit(body, t[..k]) && LoopVisit(n - 1, body, t[k..])
  }

  /** t is a way the rest of a goroutine can visit steps and return without error. */
  ghost predicate Completes(p: Proc, t: seq<string>)
    decreases p, 1
  {
    match p
    case Ret(err) => err.None? && t == []
    case Todo(steps) => StepsVisit(steps, t)
    case Then(cur, rest) => exists k: nat :: ThenSplit(cur, rest, t, k)
    case Enter(s) => StepVisit(s, t)
    case Write(_, _, next) => Completes(next, t)
    case Loop(_, items, body) => LoopVisit(|items|, body, t)
    case Iter(cur, _, items, body) => exists k: nat :: IterSplit(cur, |items|, body, t, k)
    case Par(_, _) => false
    case _ => t == []
  }

  ghost predicate ThenSplit(cur: Proc, rest: seq<Step>, t: seq<string>, k: nat)
    decreases cur, 2
  {
    k <= |t| && Completes(cur, t[..k]) && StepsVisit(rest, t[k..])
  }

  ghost predicate IterSplit(cur: Proc, n: nat, body: seq<Step>, t: seq<string>, k: nat)
    decreases cur, 2
  {
    k <= |t| && Completes(cur, t[..k]) && LoopVisit(n, body, t[k..])
  }

  predicate Single(p: Proc) {
    match p
    case Todo(steps) => NoParallels(steps)
    case Then(cur, rest) => Single(cur) && NoParallels(rest)
    case Enter(s) => NoParallel(s)
    case Write(_, _, next) => Single(next)
    case Loop(_, _, body) => NoParallels(body)
    case Iter(cur, _, _, body) => Single(cur) && NoParallels(body)
    case Par(_, _) => false
    case _ => true
  }

  lemma {:induction false} StaysSingle(env: Env, done: bool, room: bool, cells: Cells, p: Proc, c: Choice, m: Move)
    requires Single(p) && Advance(env, done, room, cells, p, c) == Some(m)
    ensures Single(m.next)
    decreases p
  {
    match p
    case Then(cur, _) =>
      if !cur.Ret? { StaysSingle(env, done, room, cells, cur, c, Advance(env, done, room, cells, cur, c).value); }
    case Iter(cur, _, _, _) =>
      if !cur.Ret? { StaysSingle(env, done, room, cells, cur, c, Advance(env, done, room, cells, cur, c).value); }
    case Loop(item, items, body) =>
      if m.next.Iter? { assert Single(Todo(body)); }
    case _ =>
  }

  lemma OnceAround(body: seq<Step>, t: seq<string>)
    requires LoopVisit(1, body, t)
    ensures StepsVisit(body, t)
  {
    var k: nat :| LoopSplit(1, body, t, k);
    assert t[..k] == t;
  }

  lemma Shift(a: seq<string>, t: seq<string>, k: nat)
    requires k <= |t|
    ensures (a + t)[..|a| + k] == a + t[..k] && (a + t)[|a| + k..] == t[k..]
  {
  }

  lemma ThenVisits(cur: Proc, rest: seq<Step>, a: seq<string>, t: seq<string>, k: nat)
    requires k <= |t| && Completes(cur, a + t[..k]) && StepsVisit(rest, t[k..])
    ensures Completes(Then(cur, rest), a + t)
  {
    Shift(a, t, k);
    assert ThenSplit(cur, rest, a + t, |a| + k);
  }

  lemma IterVisits(cur: Proc, item: string, items: seq<Value>, body: seq<Step>, a: seq<string>, t: seq<string>, k: nat)
    requires k <= |t| && Completes(cur, a + t[..k]) && LoopVisit(|items|, body, t[k..])
    ensures Completes(Iter(cur, item, items, body), a + t)
  {
    Shift(a, t, k);
    assert IterSplit(cur, |items|, body, a + t, |a| + k);
  }

  lemma EnterMeans(s: Step, t: seq<string>)
    requires Completes(Enter(s), t)
    ensures StepVisit(s, t)
  {
  }

  lemma IterationMeans(p: Proc, t: seq<string>)
    requires p.Write? && p.next.Todo? && Completes(p, t)
    ensures StepsVisit(p.next.steps, t)
  {
    assert Completes(p.next, t);
  }

  /** A move puts what it enters in front of what is still to be visited. */
  lemma {:induction false} MoveVisits(env: Env, done: bool, room: bool, cells: Cells, p: Proc, c: Choice, m: Move,
                                      t: seq<string>)
    requires Single(p) && Advance(env, done, room, cells, p, c) == Some(m) && m.single && Completes(m.next, t)
    ensures Completes(p, m.entered + t)
    decreases p
  {
    match p
    case Then(cur, rest) =>
      if cur.Ret? { ReturnVisits(p, m, t); }
      else {
        var m' := Advance(env, done, room, cells, cur, c).value;
        var k: nat :| ThenSplit(m'.next, rest, t, k);
        MoveVisits(env, done, room, cells, cur, c, m', t[..k]);
        ThenVisits(cur, rest, m.entered, t, k);
      }
    case Iter(cur, item, items, body) =>
      if cur.Ret? { ReturnVisits(p, m, t); }
      else {
        var m' := Advance(env, done, room, cells, cur, c).value;
        var k: nat :| IterSplit(m'.next, |items|, body, t, k);
        MoveVisits(env, done, room, cells, cur, c, m', t[..k]);
        IterVisits(cur, item, items, body, m.entered, t, k);
      }
    case Enter(s) => EnterVisits(env, cells, s, m, t);
    case Todo(_) => TodoVisits(p, m, t);
    case Loop(_, _, _) => LoopVisits(p, m, t);
    case _ => PhaseVisits(env, done, room, cells, p, c, m, t);
  }

  lemma PhaseVisits(env: Env, done: bool, room: bool, cells: Cells, p: Proc, c: Choice, m: Move, t: seq<string>)
    requires !p.Then? && !p.Iter? && !p.Enter? && !p.Todo? && !p.Loop? && !p.Par?
    requires Advance(env, done, room, cells, p, c) == Some(m) && Completes(m.next, t)
    ensures Completes(p, m.entered + t)
  {
    assert m.entered + t == t;
    if p.Bind? && m.next.Write? { assert Completes(m.next.next, t); }
    if p.Args? && m.next.Write? { assert Completes(m.next.next, t); }
    if p.Call? && m.next.Write? { assert Completes(m.next.next, t); }
  }

  lemma ReturnVisits(p: Proc, m: Move, t: seq<string>)
    requires (p.Then? || p.Iter?) && p.cur.Ret? && m.entered == [] && Completes(m.next, t)
    requires m.next == if p.cur.err.Some? then p.cur else if p.Then? then Todo(p.rest)
      else Loop(p.item, p.items, p.body)
    ensures Completes(p, m.entered + t)
  {
    assert m.entered + t == t && t[..0] == [] && t[0..] == t;
    if p.Then? { assert ThenSplit(p.cur, p.rest, t, 0); } else { assert IterSplit(p.cur, |p.items|, p.body, t, 0); }
  }

  lemma EnterVisits(env: Env, cells: Cells, s: Step, m: Move, t: seq<string>)
    requires NoParallel(s) && Completes(m.next, t)
    requires (m.next.Ret? && m.next.err.Some?) || (m.entered == [s.id] && m.next == Dispatch(env, cells, s).next)
    requires Dispatch(env, cells, s).single || (m.next.Ret? && m.next.err.Some?)
    ensures Completes(Enter(s), m.entered + t)
  {
    assert ([s.id] + t)[1..] == t;
    if s.node.Foreach? && m.next.Loop? { OnceAround(s.node.body, t); }
  }

  lemma TodoVisits(p: Proc, m: Move, t: seq<string>)
    requires p.Todo? && m.entered == [] && Completes(m.next, t)
    requires if p.steps == [] then m.next == Ret(None) else
      m.next == Ret(Some(Cancelled)) || m.next == Then(Enter(p.steps[0]), p.steps[1..])
    ensures Completes(p, m.entered + t)
  {
    assert m.entered + t == t;
    if p.steps != [] {
      var k: nat :| ThenSplit(Enter(p.steps[0]), p.steps[1..], t, k);
      EnterMeans(p.steps[0], t[..k]);
      assert VisitSplit(p.steps, t, k);
    }
  }

  lemma LoopVisits(p: Proc, m: Move, t: seq<string>)
    requires p.Loop? && m.entered == [] && Completes(m.next, t)
    requires if p.items == [] then m.next == Ret(None) else
      || m.next == Ret(Some(Cancelled))
      || m.next == Iter(Write(Var(p.item), Val(p.items[0]), Todo(p.body)), p.item, p.items[1..], p.body)
    ensures Completes(p, m.entered + t)
  {
    assert m.entered + t == t;
    if p.items != [] {
      var first := Write(Var(p.item), Val(p.items[0]), Todo(p.body));
      var k: nat :| IterSplit(first, |p.items| - 1, p.body, t, k);
      IterationMeans(first, t[..k]);
      assert LoopSplit(|p.items|, p.body, t, k);
    }
  }

  lemma {:induction false} SingleStays(env: Env, g: Config, schedule: seq<Event>)
    requires Run(env, g, schedule).Some? && Run(env, g, schedule).value.single
    ensures g.single
    decreases |schedule|
  {
    if schedule != [] { SingleStays(env, Next(env, g, schedule[0]).value, schedule[1..]); }
  }

  lemma {:induction false} RunVisits(env: Env, g: Config, schedule: seq<Event>) returns (v: seq<string>)
    requires Single(g.proc) && Run(env, g, schedule).Some?
    requires var g' := Run(env, g, schedule).value; g'.single && g'.proc == Ret(None)
    ensures Run(env, g, schedule).value.visited == g.visited + v && Completes(g.proc, v)
    decreases |schedule|
  {
    if schedule == [] { v := []; }
    else {
      var g' := Next(env, g, schedule[0]).value;
      SingleStays(env, g', schedule[1..]);
      match schedule[0]
      case CallerEnds => v := RunVisits(env, g', schedule[1..]);
      case Moves(c) =>
        StaysSingle(env, g.ended, g.count < env.maxSteps, g.cells, g.proc, c,
                    Advance(env, g.ended, g.count < env.maxSteps, g.cells, g.proc, c).value);
        var rest := RunVisits(env, g', schedule[1..]);
        v := VisitsBefore(env, g, c, g', rest);
    }
  }

  lemma VisitsBefore(env: Env, g: Config, c: Choice, g': Config, rest: seq<string>) returns (v: seq<string>)
    requires Single(g.proc) && Next(env, g, Moves(c)) == Some(g') && g'.single && Completes(g'.proc, rest)
    ensures g'.visited + rest == g.visited + v && Completes(g.proc, v)
  {
    var room := g.count < env.maxSteps;
    var m := Advance(env, g.ended, room, g.cells, g.proc, c).value;
    MoveVisits(env, g.ended, room, g.cells, g.proc, c, m, rest);
    v := m.entered + rest;
  }

  /** The steps a completed run enters, in order, when every list iterated has one element. */
  lemma CompletedRunVisits(env: Env, steps: seq<Step>, schedule: seq<Event>)
    requires NoParallels(steps) && Run(env, Start(steps), schedule).Some?
    requires var g := Run(env, Start(steps), schedule).value; g.single && g.proc == Ret(None)
    ensures StepsVisit(steps, Run(env, Start(steps), schedule).value.visited)
  {
    var v := RunVisits(env, Start(steps), schedule);
    assert [] + v == v;
  }
}
