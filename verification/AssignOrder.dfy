/** The bindings of an assignment are visited in any order. This is when that order can
    be told from the outside. */
module AssignOrder {
  import opened Workflow
  import opened Machine
  import opened Confluence

  ghost predicate Completes(env: Env, s: Step, schedule: seq<Event>, cells: Cells) {
    var end := Run(env, Start([s]), schedule);
    end.Some? && end.value.proc == Ret(None) && !end.value.failed && end.value.cells == cells
  }

  /** Whatever the templates compute from what they can read, all runs that complete
      leave the same variables. */
  ghost predicate OrderIsHidden(footprint: Template -> iset<Loc>, s: Step) {
    forall env: Env, one, two, c1, c2 | env.footprint == footprint && HasFootprints(env)
        && Completes(env, s, one, c1) && Completes(env, s, two, c2) ::
      c1 == c2
  }

  /** A template that can see whether a variable is set. */
  function Sees(t: Template, x: string, footprint: Template -> iset<Loc>): Env {
    Env((u, c) => Ok(Bool(u == t && Var(x) in c)), footprint, (use, args) => Error(""), false, use => false, 1)
  }

  lemma SeesItsFootprint(t: Template, x: string, footprint: Template -> iset<Loc>)
    requires Var(x) in footprint(t)
    ensures HasFootprints(Sees(t, x, footprint))
  {
    var env := Sees(t, x, footprint);
    forall u, c1, c2 | Agree(c1, c2, env.footprint(u)) ensures env.eval(u, c1) == env.eval(u, c2) {
      if u == t { assert Look(c1, Var(x)) == Look(c2, Var(x)); }
    }
  }

  ghost predicate Binding(g: Config, s: Step, pending: map<string, Template>) {
    g.proc == Then(Bind(s, pending), []) && !g.failed && !g.ended
  }

  ghost predicate NeverFails(env: Env) { forall t, c :: env.eval(t, c).Ok? }

  lemma RunTwice(env: Env, g: Config, a: Event, b: Event, rest: seq<Event>)
    requires Next(env, g, a).Some? && Next(env, Next(env, g, a).value, b).Some?
    ensures Run(env, g, [a, b] + rest) == Run(env, Next(env, Next(env, g, a).value, b).value, rest)
  {
    var all := [a, b] + rest;
    assert all[1..][1..] == rest && all[1..][0] == b;
  }

  lemma Inside(env: Env, g: Config, cur: Proc, c: Choice, m: Move)
    requires g.proc == Then(cur, []) && !cur.Ret?
    requires Advance(env, g.ended, g.count < env.maxSteps, g.cells, cur, c) == Some(m)
    ensures Next(env, g, Moves(c)) == Some(Apply(env, g, m.(next := Then(m.next, []))))
  {
  }

  /** The run after one binding has been evaluated to v and written. */
  function Visited(g: Config, s: Step, pending: map<string, Template>, k: string, v: Value): Config {
    g.(proc := Then(Bind(s, pending - {k}), []), cells := g.cells + map[Var(k) := Val(v)])
  }

  function Visit(k: string): seq<Event> { [Moves(Act(k, false)), Moves(Act("", false))] }

  lemma VisitOne(env: Env, g: Config, s: Step, pending: map<string, Template>, k: string, rest: seq<Event>)
    requires Binding(g, s, pending) && k in pending && env.eval(pending[k], g.cells).Ok?
    ensures Run(env, g, Visit(k) + rest)
         == Run(env, Visited(g, s, pending, k, env.eval(pending[k], g.cells).value), rest)
  {
    var a, b := Moves(Act(k, false)), Moves(Act("", false));
    var v := env.eval(pending[k], g.cells).value;
    var fewer := Bind(s, pending - {k});
    var write := Write(Var(k), Val(v), fewer);
    Inside(env, g, Bind(s, pending), a.c, Quiet(write));
    var g1 := Next(env, g, a).value;
    assert g1 == g.(proc := Then(write, []));
    Inside(env, g1, write, b.c, Quiet(fewer).(write := map[write.loc := write.cell]));
    assert Next(env, g1, b) == Some(Visited(g, s, pending, k, v));
    RunTwice(env, g, a, b, rest);
  }

  lemma Finish(env: Env, g: Config, s: Step) returns (schedule: seq<Event>, end: Config)
    requires Binding(g, s, map[])
    ensures Run(env, g, schedule) == Some(end) && end.proc == Ret(None) && !end.failed && end.cells == g.cells
  {
    var go := Moves(Act("", false));
    Inside(env, g, Bind(s, map[]), go.c, Quiet(Ret(None)));
    var g1 := Next(env, g, go).value;
    var g2 := Next(env, g1, go).value;
    end := Next(env, g2, go).value;
    schedule := [go, go] + [go];
    RunTwice(env, g, go, go, [go]);
    assert Run(env, g2, [go]) == Some(end) by { assert [go][1..] == []; }
  }

  /** The remaining bindings can be visited, and write only their own targets. */
  lemma {:induction false} VisitRest(env: Env, g: Config, s: Step, pending: map<string, Template>)
    returns (schedule: seq<Event>, end: Config)
    requires Binding(g, s, pending) && NeverFails(env)
    ensures Run(env, g, schedule) == Some(end) && end.proc == Ret(None) && !end.failed
    ensures forall l | l !in Targets(pending) :: Look(end.cells, l) == Look(g.cells, l)
    decreases |pending|
  {
    if |pending| == 0 {
      assert pending == map[];
      schedule, end := Finish(env, g, s);
    } else {
      assert pending.Keys != {};
      var k :| k in pending;
      var fewer := pending - {k};
      assert |fewer| < |pending| by { assert fewer.Keys == pending.Keys - {k}; }
      var v := env.eval(pending[k], g.cells).value;
      var rest;
      rest, end := VisitRest(env, Visited(g, s, pending, k, v), s, fewer);
      schedule := Visit(k) + rest;
      VisitOne(env, g, s, pending, k, rest);
      forall l | l !in Targets(pending) ensures Look(end.cells, l) == Look(g.cells, l) {
        assert l !in Targets(fewer) && l != Var(k);
      }
    }
  }

  /** The run once the assignment has been counted and dispatched. */
  function Begun(s: Step): Config
    requires s.node.Assign?
  {
    Start([s]).(proc := Then(Bind(s, s.node.bindings), []), count := 1, dispatched := 1, visited := [s.id])
  }

  lemma Begin(env: Env, s: Step, rest: seq<Event>)
    requires s.node.Assign? && env.maxSteps > 0
    ensures Run(env, Start([s]), Visit("") + rest) == Run(env, Begun(s), rest)
  {
    var go := Moves(Act("", false));
    var g1 := Next(env, Start([s]), go).value;
    assert [s][1..] == [] && g1 == Start([s]).(proc := Then(Enter(s), []));
    Inside(env, g1, Enter(s), go.c, Quiet(Bind(s, s.node.bindings)).(leaf := true, tick := true, entered := [s.id]));
    var g2 := Next(env, g1, go).value;
    assert g2.cells == map[] && g2.raised == {} && g2.visited == [s.id];
    assert g2 == Begun(s);
    RunTwice(env, Start([s]), go, go, rest);
  }

  /** Two bindings first, in the given order, then the others. */
  lemma VisitTwo(env: Env, s: Step, j: string, k: string) returns (schedule: seq<Event>, cells: Cells)
    requires s.node.Assign? && j in s.node.bindings && k in s.node.bindings && j != k
    requires NeverFails(env) && env.maxSteps > 0
    ensures Completes(env, s, schedule, cells)
    ensures var v := env.eval(s.node.bindings[j], map[]).value;
      && Look(cells, Var(j)) == Some(Val(v))
      && Look(cells, Var(k)) == Some(Val(env.eval(s.node.bindings[k], map[Var(j) := Val(v)]).value))
  {
    var ts := s.node.bindings;
    var v := env.eval(ts[j], map[]).value;
    var g1 := Visited(Begun(s), s, ts, j, v);
    assert g1.cells == map[Var(j) := Val(v)];
    var w := env.eval((ts - {j})[k], g1.cells).value;
    var g2 := Visited(g1, s, ts - {j}, k, w);
    var rest, end := VisitRest(env, g2, s, ts - {j} - {k});
    VisitOne(env, g1, s, ts - {j}, k, rest);
    VisitOne(env, Begun(s), s, ts, j, Visit(k) + rest);
    Begin(env, s, Visit(j) + (Visit(k) + rest));
    schedule, cells := Visit("") + (Visit(j) + (Visit(k) + rest)), end.cells;
    assert Look(g2.cells, Var(j)) == Some(Val(v)) && Look(g2.cells, Var(k)) == Some(Val(w));
  }

  /** A binding that reads another's target: whichever goes first decides what it sees. */
  lemma OrderShows(env: Env, s: Step, k: string, x: string)
    requires s.node.Assign? && k in s.node.bindings && x in s.node.bindings && x != k
    requires Var(x) in env.footprint(s.node.bindings[k])
    ensures !OrderIsHidden(env.footprint, s)
  {
    var sees := Sees(s.node.bindings[k], x, env.footprint);
    SeesItsFootprint(s.node.bindings[k], x, env.footprint);
    var one, c1 := VisitTwo(sees, s, k, x);
    var two, c2 := VisitTwo(sees, s, x, k);
    assert Look(c1, Var(k)) == Some(Val(Bool(false))) && Look(c2, Var(k)) == Some(Val(Bool(true)));
  }

  /** The order of an assignment's bindings cannot be told exactly when no binding reads
      the target of another one. */
  lemma HiddenExactly(env: Env, s: Step)
    requires s.node.Assign?
    ensures OrderIsHidden(env.footprint, s) <==> SelfIndependent(env, s.node.bindings)
  {
    var ts := s.node.bindings;
    if SelfIndependent(env, ts) {
      forall e: Env, one, two, c1, c2 | e.footprint == env.footprint && HasFootprints(e)
          && Completes(e, s, one, c1) && Completes(e, s, two, c2)
        ensures c1 == c2
      {
        AssignSafe(env, e, s);
        ParallelRefinesSequential(e, [s], one);
        ParallelRefinesSequential(e, [s], two);
      }
    } else {
      var k :| k in ts && !ReadsNoOther(env, ts, k);
      var l :| l in Targets(ts - {k}) && l in env.footprint(ts[k]);
      var x :| x in ts - {k} && l == Var(x);
      OrderShows(env, s, k, x);
    }
  }

  lemma AssignSafe(env: Env, e: Env, s: Step)
    requires s.node.Assign? && e.footprint == env.footprint && SelfIndependent(env, s.node.bindings)
    ensures StepsSafe(e, [s])
  {
    forall k | k in s.node.bindings ensures ReadsNoOther(e, s.node.bindings, k) {
      assert ReadsNoOther(env, s.node.bindings, k);
    }
    assert [s][1..] == [];
  }

  /** An accumulator, a single binding over its own old value, is one such assignment. */
  lemma AccumulatorIsSafe(env: Env, s: Step)
    requires s.node.Assign? && |s.node.bindings| == 1
    ensures StepSafe(env, s) && OrderIsHidden(env.footprint, s)
  {
    var ts := s.node.bindings;
    forall k | k in ts ensures ReadsNoOther(env, ts, k) {
      assert ts.Keys - {k} == {} by { assert |ts.Keys - {k}| == 0; }
      assert (ts - {k}).Keys == {};
    }
    HiddenExactly(env, s);
  }
}
