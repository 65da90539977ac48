/** Every walk of the graph happens: surroundings that answer the conditions as the walk
    turns, and a schedule that visits it. */
module Outcomes {
  import opened Workflow
  import opened Machine
  import opened Validate
  import opened Visits
  import opened Graph
  import opened GraphShape
  import opened GraphWalks

  ghost predicate Goes(env: Env, g: Config, g': Config) { exists evs :: Run(env, g, evs) == Some(g') }

  lemma GoesMove(env: Env, g: Config, c: Choice, g': Config)
    requires Next(env, g, Moves(c)) == Some(g')
    ensures Goes(env, g, g')
  {
    var evs := [Moves(c)];
    assert evs[1..] == [];
    assert Run(env, g, evs) == Some(g');
  }

  lemma {:induction false} RunConcat(env: Env, g: Config, a: seq<Event>, b: seq<Event>)
    requires Run(env, g, a).Some?
    ensures Run(env, g, a + b) == Run(env, Run(env, g, a).value, b)
    decreases |a|
  {
    if a == [] { assert a + b == b; }
    else {
      assert (a + b)[1..] == a[1..] + b;
      RunConcat(env, Next(env, g, a[0]).value, a[1..], b);
    }
  }

  lemma GoesOn(env: Env, g: Config, g': Config, g'': Config)
    requires Goes(env, g, g') && Goes(env, g', g'')
    ensures Goes(env, g, g'')
  {
    var a :| Run(env, g, a) == Some(g');
    var b :| Run(env, g', b) == Some(g'');
    RunConcat(env, g, a, b);
    assert Run(env, g, a + b) == Some(g'');
  }

  /** A goroutine inside a list of steps, or inside an iteration. */
  datatype Frame = InThen(rest: seq<Step>) | InIter(item: string, items: seq<Value>, body: seq<Step>)

  function Inside(p: Proc, f: Frame): Proc {
    match f
    case InThen(rest) => Then(p, rest)
    case InIter(item, items, body) => Iter(p, item, items, body)
  }

  function Framed(g: Config, f: Frame): Config { g.(proc := Inside(g.proc, f)) }

  lemma {:induction false} RunInside(env: Env, g: Config, evs: seq<Event>, f: Frame)
    requires Run(env, g, evs).Some?
    ensures Run(env, Framed(g, f), evs) == Some(Framed(Run(env, g, evs).value, f))
    decreases |evs|
  {
    if evs != [] {
      NextInside(env, g, evs[0], f);
      RunInside(env, Next(env, g, evs[0]).value, evs[1..], f);
    }
  }

  lemma NextInside(env: Env, g: Config, ev: Event, f: Frame)
    requires Next(env, g, ev).Some?
    ensures Next(env, Framed(g, f), ev) == Some(Framed(Next(env, g, ev).value, f))
  {
    if ev.Moves? {
      var room := g.count < env.maxSteps;
      var m := Advance(env, g.ended, room, g.cells, g.proc, ev.c).value;
      assert Advance(env, g.ended, room, g.cells, Inside(g.proc, f), ev.c) == Some(m.(next := Inside(m.next, f)));
    }
  }

  lemma GoesInside(env: Env, g: Config, g': Config, f: Frame)
    requires Goes(env, g, g')
    ensures Goes(env, Framed(g, f), Framed(g', f))
  {
    var evs :| Run(env, g, evs) == Some(g');
    RunInside(env, g, evs, f);
  }

  // ---- What an outcome asks ----

  /** A text evaluated as a condition or as a list, the writes to the scope before it, and
      its answer; a list answers yes. */
  type Answer = (nat, string, bool)

  /** The time after w more writes; without a clock it stands still. */
  function Later(clock: bool, n: nat, w: nat): nat { if clock then n + w else n }

  /** The writes on the way through a step. */
  function WritesOf(s: Step, taken: set<string>): nat
    decreases s, 0
  {
    match s.node
    case Tool(_, _, _) => 1
    case Assign(bindings) => |bindings|
    case If(_, thn, els) => if s.id in taken then AllWrites(thn, taken) else AllWrites(els, taken)
    case Foreach(_, _, body) => 1 + AllWrites(body, taken)
    case _ => 0
  }

  function AllWrites(steps: seq<Step>, taken: set<string>): nat
    decreases steps, 0
  {
    if |steps| == 0 then 0 else WritesOf(steps[0], taken) + AllWrites(steps[1..], taken)
  }

  function Asked(clock: bool, s: Step, taken: set<string>, n: nat): set<Answer>
    decreases s, 0
  {
    match s.node
    case If(cond, thn, els) =>
      {(n, cond, s.id in taken)}
      + if s.id in taken then AllAsked(clock, thn, taken, n) else AllAsked(clock, els, taken, n)
    case Foreach(source, _, body) => {(n, source, true)} + AllAsked(clock, body, taken, Later(clock, n, 1))
    case _ => {}
  }

  function AllAsked(clock: bool, steps: seq<Step>, taken: set<string>, n: nat): set<Answer>
    decreases steps, 0
  {
    if |steps| == 0 then {}
    else
      Asked(clock, steps[0], taken, n)
      + AllAsked(clock, steps[1..], taken, Later(clock, n, WritesOf(steps[0], taken)))
  }

  /** No text gives both answers at the same time. */
  predicate OneAnswer(a: set<Answer>) { forall p | p in a && p.2 :: (p.0, p.1, false) !in a }

  /** The texts an assignment evaluates. */
  function Bound(s: Step): set<string>
    decreases s, 0
  {
    match s.node
    case Assign(bindings) => bindings.Values
    case If(_, thn, els) => AllBound(thn) + AllBound(els)
    case Foreach(_, _, body) => AllBound(body)
    case _ => {}
  }

  function AllBound(steps: seq<Step>): set<string>
    decreases steps, 0
  {
    if |steps| == 0 then {} else Bound(steps[0]) + AllBound(steps[1..])
  }

  predicate Refused(a: set<Answer>, t: string) { exists p :: p in a && p.1 == t && !p.2 }

  // ---- Telling the time from the scope ----

  function Stamp(c: Cell): nat {
    match c
    case Val(Int(k)) => if k < 0 then 0 else k
    case Val(List(items)) => if |items| == 1 && items[0].Int? && items[0].n >= 0 then items[0].n else 0
    case _ => 0
  }

  ghost predicate IsTop(c: Cells, k: nat) {
    && (forall x | Var(x) in c :: Stamp(c[Var(x)]) <= k)
    && (k > 0 ==> exists x :: Var(x) in c && Stamp(c[Var(x)]) == k)
  }

  lemma {:induction false} HasTop(c: Cells)
    ensures exists k: nat :: IsTop(c, k)
    decreases |c|
  {
    if |c| == 0 { assert IsTop(c, 0); }
    else {
      assert c.Keys != {};
      var l :| l in c;
      assert (c - {l}).Keys == c.Keys - {l};
      HasTop(c - {l});
      var k: nat :| IsTop(c - {l}, k);
      if l.Var? && Stamp(c[l]) > k {
        assert Var(l.name) in c && IsTop(c, Stamp(c[l]));
      } else {
        if k > 0 { var x :| Var(x) in c - {l} && Stamp((c - {l})[Var(x)]) == k; assert Var(x) in c; }
        assert IsTop(c, k);
      }
    }
  }

  /** The greatest stamp of a variable. */
  ghost function Top(c: Cells): (k: nat)
    ensures IsTop(c, k)
  {
    HasTop(c);
    var k: nat :| IsTop(c, k);
    k
  }

  function Recorded(c: Cells): set<string> { set l | l in c && l.StepRec? :: l.id }

  /** With the values the oracle gives, every write moves the clock on by one. */
  ghost function Now(clock: bool, c: Cells): nat { if clock then |Recorded(c)| + Top(c) else 0 }

  lemma WritesVar(clock: bool, c: Cells, x: string, cell: Cell)
    requires clock ==> Stamp(cell) == Top(c) + 1
    ensures Now(clock, c[Var(x) := cell]) == Later(clock, Now(clock, c), 1)
    ensures Recorded(c[Var(x) := cell]) == Recorded(c)
  {
    var c' := c[Var(x) := cell];
    assert Recorded(c') == Recorded(c);
    if clock {
      assert Var(x) in c' && c'[Var(x)] == cell;
      assert Top(c') >= Top(c) + 1;
      forall y | Var(y) in c' ensures Stamp(c'[Var(y)]) <= Top(c) + 1 {
        if y != x { assert Var(y) in c && c'[Var(y)] == c[Var(y)]; }
      }
    }
  }

  lemma WritesRec(clock: bool, c: Cells, id: string, cell: Cell)
    requires clock ==> id !in Recorded(c)
    ensures Now(clock, c[StepRec(id) := cell]) == Later(clock, Now(clock, c), 1)
    ensures Recorded(c[StepRec(id) := cell]) == Recorded(c) + {id}
  {
    var c' := c[StepRec(id) := cell];
    assert forall x :: Var(x) in c <==> Var(x) in c';
    if Top(c) > 0 { var y :| Var(y) in c && Stamp(c[Var(y)]) == Top(c); assert Var(y) in c'; }
    if Top(c') > 0 { var y :| Var(y) in c' && Stamp(c'[Var(y)]) == Top(c'); }
    assert Recorded(c') == Recorded(c) + {id};
  }

  // ---- Surroundings that answer as asked ----

  predicate Anywhere(l: Loc) { true }

  /** Texts that are to answer no now are false, all others a list of one number that was
      not written before; tools succeed. */
  ghost function Oracle(clock: bool, a: set<Answer>, max: nat): Env {
    Env((t, c) => Ok(if (Now(clock, c), t, false) in a then Bool(false) else List([Int(Top(c) + 1)])),
        t => iset l: Loc | Anywhere(l), (use, args) => Ok(Null), false, use => false, max)
  }

  lemma OracleHasFootprints(clock: bool, a: set<Answer>, max: nat)
    ensures HasFootprints(Oracle(clock, a, max))
  {
    var env := Oracle(clock, a, max);
    forall t, c1, c2 | Agree(c1, c2, env.footprint(t)) ensures env.eval(t, c1) == env.eval(t, c2) {
      forall l ensures Look(c1, l) == Look(c2, l) { assert l in env.footprint(t); }
      EqualCells(c1, c2);
    }
  }

  /** The run is at p at time n, nothing has ended, it has room for k more leaf steps, and
      has recorded none of the ids. */
  ghost predicate At(clock: bool, env: Env, g: Config, p: Proc, n: nat, k: nat, ids: seq<string>) {
    && g.proc == p && !g.ended && g.single && g.count + k <= env.maxSteps
    && Now(clock, g.cells) == n
    && (clock ==> forall id | id in ids :: id !in Recorded(g.cells))
  }

  /** From g the run can go to p, visiting v on the way, with w writes and records of ids
      only. */
  ghost predicate Leads(clock: bool, env: Env, g: Config, g': Config, p: Proc, v: seq<string>, w: nat, ids: seq<string>)
  {
    && Goes(env, g, g') && g'.proc == p && !g'.ended && g'.single
    && g'.visited == g.visited + v && g'.count <= g.count + |v|
    && Now(clock, g'.cells) == Later(clock, Now(clock, g.cells), w)
    && (forall id | id in Recorded(g'.cells) :: id in Recorded(g.cells) || id in ids)
  }

  lemma LeadsOn(clock: bool, env: Env, g: Config, g': Config, g'': Config, p: Proc, q: Proc,
                v: seq<string>, v': seq<string>, w: nat, w': nat, ids: seq<string>, ids': seq<string>)
    requires Leads(clock, env, g, g', p, v, w, ids) && Leads(clock, env, g', g'', q, v', w', ids')
    ensures Leads(clock, env, g, g'', q, v + v', w + w', ids + ids')
  {
    GoesOn(env, g, g', g'');
    assert g.visited + v + v' == g.visited + (v + v');
  }

  /** The same when one of the two visits and records nothing. */
  lemma LeadsAfter(clock: bool, env: Env, g: Config, g': Config, g'': Config, p: Proc, q: Proc, v: seq<string>, w: nat,
                   w': nat, ids: seq<string>)
    requires Leads(clock, env, g, g', p, [], w, []) && Leads(clock, env, g', g'', q, v, w', ids)
    ensures Leads(clock, env, g, g'', q, v, w + w', ids)
  {
    LeadsOn(clock, env, g, g', g'', p, q, [], v, w, w', [], ids);
    assert [] + v == v && [] + ids == ids;
  }

  lemma LeadsBefore(clock: bool, env: Env, g: Config, g': Config, g'': Config, p: Proc, q: Proc, v: seq<string>,
                    w: nat, w': nat, ids: seq<string>)
    requires Leads(clock, env, g, g', p, v, w, ids) && Leads(clock, env, g', g'', q, [], w', [])
    ensures Leads(clock, env, g, g'', q, v, w + w', ids)
  {
    LeadsOn(clock, env, g, g', g'', p, q, v, [], w, w', ids, []);
    assert v + [] == v && ids + [] == ids;
  }

  /** A move that enters no step and writes nothing. */
  lemma LeadsQuiet(clock: bool, env: Env, g: Config, c: Choice, m: Move) returns (g': Config)
    requires !g.ended && g.single && Advance(env, g.ended, g.count < env.maxSteps, g.cells, g.proc, c) == Some(m)
    requires m.single && m.entered == [] && !m.tick && m.write == map[]
    ensures Leads(clock, env, g, g', m.next, [], 0, []) && g'.count == g.count && g'.cells == g.cells
  {
    g' := Apply(env, g, m);
    assert g.cells + m.write == g.cells;
    GoesMove(env, g, c, g');
  }

  /** A write that moves the clock on. */
  lemma LeadsWrite(clock: bool, env: Env, g: Config, loc: Loc, cell: Cell, next: Proc, ids: seq<string>)
    returns (g': Config)
    requires !g.ended && g.single && g.proc == Write(loc, cell, next)
    requires Now(clock, g.cells[loc := cell]) == Later(clock, Now(clock, g.cells), 1)
    requires forall id | id in Recorded(g.cells[loc := cell]) :: id in Recorded(g.cells) || id in ids
    ensures Leads(clock, env, g, g', next, [], 1, ids) && g'.count == g.count && g'.cells == g.cells[loc := cell]
  {
    var m := Quiet(next).(write := map[loc := cell]);
    g' := Apply(env, g, m);
    assert g.cells + m.write == g.cells[loc := cell];
    GoesMove(env, g, GO, g');
  }

  lemma LeadsInside(clock: bool, env: Env, g: Config, g': Config, p: Proc, v: seq<string>, w: nat, ids: seq<string>,
                    f: Frame)
    requires Leads(clock, env, g, g', p, v, w, ids)
    ensures Leads(clock, env, Framed(g, f), Framed(g', f), Inside(p, f), v, w, ids)
  {
    GoesInside(env, g, g', f);
  }

  const GO: Choice := Act("", false)

  lemma CallHappens(clock: bool, a: set<Answer>, max: nat, g: Config, s: Step, args: map<string, Value>)
    returns (g': Config)
    requires s.node.Tool? && !g.ended && g.single && g.proc == Call(s, args)
    requires clock ==> s.id !in Recorded(g.cells)
    ensures Leads(clock, Oracle(clock, a, max), g, g', Ret(None), [], 1, [s.id]) && g'.count == g.count
  {
    var env := Oracle(clock, a, max);
    var g1 := LeadsQuiet(clock, env, g, GO, Quiet(Write(StepRec(s.id), Rec(Null, ""), Ret(None))));
    WritesRec(clock, g1.cells, s.id, Rec(Null, ""));
    g' := LeadsWrite(clock, env, g1, StepRec(s.id), Rec(Null, ""), Ret(None), [s.id]);
    LeadsOn(clock, env, g, g1, g', g1.proc, Ret(None), [], [], 0, 1, [], [s.id]);
  }

  lemma {:induction false} ArgsHappen(clock: bool, a: set<Answer>, max: nat, g: Config, s: Step,
                                      pending: map<string, Template>, got: map<string, Value>) returns (g': Config)
    requires s.node.Tool? && !g.ended && g.single && g.proc == Args(s, pending, got)
    requires clock ==> s.id !in Recorded(g.cells)
    ensures Leads(clock, Oracle(clock, a, max), g, g', Ret(None), [], 1, [s.id]) && g'.count == g.count
    decreases |pending|
  {
    var env := Oracle(clock, a, max);
    if |pending| == 0 {
      assert pending == map[];
      var g1 := LeadsQuiet(clock, env, g, GO, Quiet(Call(s, got)));
      g' := CallHappens(clock, a, max, g1, s, got);
      LeadsAfter(clock, env, g, g1, g', g1.proc, Ret(None), [], 0, 1, [s.id]);
    } else {
      assert pending.Keys != {};
      var k :| k in pending;
      assert (pending - {k}).Keys == pending.Keys - {k};
      var g1, more := ArgOne(clock, env, g, s, pending, got, k);
      g' := ArgsHappen(clock, a, max, g1, s, pending - {k}, more);
      LeadsAfter(clock, env, g, g1, g', g1.proc, Ret(None), [], 0, 1, [s.id]);
    }
  }

  lemma ArgOne(clock: bool, env: Env, g: Config, s: Step, pending: map<string, Template>, got: map<string, Value>,
               k: string)
    returns (g': Config, more: map<string, Value>)
    requires s.node.Tool? && !g.ended && g.single && g.proc == Args(s, pending, got) && k in pending
    requires env.eval(pending[k], g.cells).Ok?
    ensures Leads(clock, env, g, g', Args(s, pending - {k}, more), [], 0, []) && g'.count == g.count
      && g'.cells == g.cells
  {
    more := got[k := env.eval(pending[k], g.cells).value];
    g' := LeadsQuiet(clock, env, g, Act(k, false), Quiet(Args(s, pending - {k}, more)));
  }

  lemma {:induction false} BindHappens(clock: bool, a: set<Answer>, max: nat, g: Config, s: Step,
                                       pending: map<string, Template>) returns (g': Config)
    requires !g.ended && g.single && g.proc == Bind(s, pending)
    requires clock ==> forall k | k in pending :: !Refused(a, pending[k])
    ensures Leads(clock, Oracle(clock, a, max), g, g', Ret(None), [], |pending|, []) && g'.count == g.count
    decreases |pending|
  {
    var env := Oracle(clock, a, max);
    if |pending| == 0 { g' := BindEnds(clock, env, g, s, pending); }
    else {
      assert pending.Keys != {};
      var k :| k in pending;
      assert (pending - {k}).Keys == pending.Keys - {k} && |pending - {k}| == |pending| - 1;
      var g1 := BindOne(clock, a, max, g, s, pending, k);
      g' := BindHappens(clock, a, max, g1, s, pending - {k});
      LeadsOn(clock, env, g, g1, g', g1.proc, Ret(None), [], [], 1, |pending| - 1, [], []);
    }
  }

  lemma BindEnds(clock: bool, env: Env, g: Config, s: Step, pending: map<string, Template>) returns (g': Config)
    requires !g.ended && g.single && g.proc == Bind(s, pending) && |pending| == 0
    ensures Leads(clock, env, g, g', Ret(None), [], 0, []) && g'.count == g.count
  {
    assert pending == map[];
    g' := LeadsQuiet(clock, env, g, GO, Quiet(Ret(None)));
  }

  lemma BindOne(clock: bool, a: set<Answer>, max: nat, g: Config, s: Step, pending: map<string, Template>, k: string)
    returns (g': Config)
    requires !g.ended && g.single && g.proc == Bind(s, pending) && k in pending && (clock ==> !Refused(a, pending[k]))
    ensures Leads(clock, Oracle(clock, a, max), g, g', Bind(s, pending - {k}), [], 1, []) && g'.count == g.count
  {
    var env := Oracle(clock, a, max);
    var v, q := Val(env.eval(pending[k], g.cells).value), Bind(s, pending - {k});
    var g1 := LeadsQuiet(clock, env, g, Act(k, false), Quiet(Write(Var(k), v, q)));
    OracleStamps(clock, a, max, pending[k], g.cells);
    WritesVar(clock, g1.cells, k, v);
    g' := LeadsWrite(clock, env, g1, Var(k), v, q, []);
    LeadsOn(clock, env, g, g1, g', g1.proc, q, [], [], 0, 1, [], []);
  }

  lemma OracleStamps(clock: bool, a: set<Answer>, max: nat, t: Template, c: Cells)
    requires clock ==> !Refused(a, t)
    ensures clock ==> Stamp(Val(Oracle(clock, a, max).eval(t, c).value)) == Top(c) + 1
  {
  }

  /** Entering a step that has room. */
  lemma Entered(clock: bool, env: Env, g: Config, s: Step, n: nat, ids: seq<string>) returns (g': Config)
    requires At(clock, env, g, Enter(s), n, 1, ids) && Dispatch(env, g.cells, s).single
    ensures Leads(clock, env, g, g', Dispatch(env, g.cells, s).next, [s.id], 0, []) && g'.cells == g.cells
  {
    var m := Dispatch(env, g.cells, s).(tick := IsLeaf(s), entered := [s.id]);
    g' := Apply(env, g, m);
    assert m.write == map[] && g.cells + m.write == g.cells;
    GoesMove(env, g, GO, g');
  }


  /** The assignments of steps bind no text that is refused, if there is a clock. */
  predicate Free(clock: bool, a: set<Answer>, bound: set<string>) {
    clock ==> forall t | t in bound :: !Refused(a, t)
  }

  lemma {:induction false} StepHappens(clock: bool, a: set<Answer>, max: nat, g: Config, s: Step, taken: set<string>,
                                       n: nat)
    returns (g': Config)
    requires NoParallel(s) && OneAnswer(a) && Asked(clock, s, taken, n) <= a && Free(clock, a, Bound(s))
    requires (clock ==> Separate(IdsOf(s), []))
      && At(clock, Oracle(clock, a, max), g, Enter(s), n, |OrderOf(s, taken)|, IdsOf(s))
    ensures Leads(clock, Oracle(clock, a, max), g, g', Ret(None), OrderOf(s, taken), WritesOf(s, taken), IdsOf(s))
    decreases s, 1
  {
    var env := Oracle(clock, a, max);
    assert IdsOf(s)[0] == s.id;
    var inner, w, ids := OrderOf(s, taken)[1..], WritesOf(s, taken), IdsOf(s)[1..];
    assert IdsOf(s) == [s.id] + ids && OrderOf(s, taken) == [s.id] + inner;
    if clock { SeparateParts([s.id], ids, []); }
    match s.node {
      case Tool(_, args, _) =>
        var g1 := Entered(clock, env, g, s, n, IdsOf(s));
        g' := ArgsHappen(clock, a, max, g1, s, args, map[]);
        LeadsOn(clock, env, g, g1, g', g1.proc, Ret(None), [s.id], [], 0, 1, [], [s.id]);
      case Assign(bindings) =>
        var g1 := Entered(clock, env, g, s, n, IdsOf(s));
        assert forall k | k in bindings :: bindings[k] in bindings.Values;
        g' := BindHappens(clock, a, max, g1, s, bindings);
        LeadsOn(clock, env, g, g1, g', g1.proc, Ret(None), [s.id], [], 0, w, [], []);
      case Wait(_) =>
        var g1 := Entered(clock, env, g, s, n, IdsOf(s));
        g' := LeadsQuiet(clock, env, g1, GO, Quiet(Ret(None)));
        LeadsOn(clock, env, g, g1, g', g1.proc, Ret(None), [s.id], [], 0, 0, [], []);
      case If(cond, thn, els) => g' := IfHappens(clock, a, max, g, s, taken, n);
      case Foreach(source, item, body) =>
        assert (n, source, true) in Asked(clock, s, taken, n);
        var g1 := Entered(clock, env, g, s, n, IdsOf(s));
        g' := LoopHappens(clock, a, max, g1, item, g1.proc.items[0], body, taken, n);
        LeadsOn(clock, env, g, g1, g', g1.proc, Ret(None), [s.id], inner, 0, w, [], ids);
    }
  }

  lemma {:induction false} IfHappens(clock: bool, a: set<Answer>, max: nat, g: Config, s: Step, taken: set<string>,
                                     n: nat)
    returns (g': Config)
    requires NoParallel(s) && OneAnswer(a) && Asked(clock, s, taken, n) <= a && Free(clock, a, Bound(s)) && s.node.If?
    requires (clock ==> Separate(IdsOf(s), []))
      && At(clock, Oracle(clock, a, max), g, Enter(s), n, |OrderOf(s, taken)|, IdsOf(s))
    ensures Leads(clock, Oracle(clock, a, max), g, g', Ret(None), OrderOf(s, taken), WritesOf(s, taken), IdsOf(s))
    decreases s, 0
  {
    var env, thn, els := Oracle(clock, a, max), s.node.thn, s.node.els;
    var branch := if s.id in taken then thn else els;
    assert (n, s.node.cond, s.id in taken) in Asked(clock, s, taken, n);
    var g1 := Entered(clock, env, g, s, n, IdsOf(s));
    assert g1.proc == Todo(branch);
    assert IdsOf(s) == [s.id] + (Ids(thn) + Ids(els));
    if clock {
      SeparateParts([s.id], Ids(thn) + Ids(els), []);
      SeparateParts(Ids(thn), Ids(els), []);
    }
    g' := StepsHappen(clock, a, max, g1, branch, taken, n);
    LeadsOn(clock, env, g, g1, g', g1.proc, Ret(None), [s.id], Order(branch, taken), 0, AllWrites(branch, taken),
            [], Ids(branch));
  }

  lemma {:induction false} LoopHappens(clock: bool, a: set<Answer>, max: nat, g: Config, item: string, v: Value,
                                       body: seq<Step>, taken: set<string>, n: nat) returns (g': Config)
    requires NoParallels(body) && OneAnswer(a) && AllAsked(clock, body, taken, Later(clock, n, 1)) <= a
    requires Free(clock, a, AllBound(body)) && (clock ==> Separate(Ids(body), [])) && Stamp(Val(v)) == Top(g.cells) + 1
    requires At(clock, Oracle(clock, a, max), g, Loop(item, [v], body), n, |Order(body, taken)|, Ids(body))
    ensures Leads(clock, Oracle(clock, a, max), g, g', Ret(None), Order(body, taken), 1 + AllWrites(body, taken),
                  Ids(body))
    decreases body, 3
  {
    var env, o, w, f := Oracle(clock, a, max), Order(body, taken), AllWrites(body, taken), InIter(item, [], body);
    var first := Write(Var(item), Val(v), Todo(body));
    var g1 := LoopBegins(clock, env, g, item, v, body);
    var h1 := g1.(proc := first);
    var h2 := IterationHappens(clock, a, max, h1, item, v, body, taken, n);
    LeadsInside(clock, env, h1, h2, Ret(None), o, 1 + w, Ids(body), f);
    assert Framed(h1, f) == g1;
    var g2 := Framed(h2, f);
    g' := LoopEnds(clock, env, g2, item, body);
    LeadsAfter(clock, env, g, g1, g2, g1.proc, g2.proc, o, 0, 1 + w, Ids(body));
    LeadsBefore(clock, env, g, g2, g', g2.proc, Ret(None), o, 1 + w, 0, Ids(body));
  }

  lemma {:induction false} IterationHappens(clock: bool, a: set<Answer>, max: nat, g: Config, item: string, v: Value,
                                            body: seq<Step>, taken: set<string>, n: nat) returns (g': Config)
    requires NoParallels(body) && OneAnswer(a) && AllAsked(clock, body, taken, Later(clock, n, 1)) <= a
    requires Free(clock, a, AllBound(body)) && (clock ==> Separate(Ids(body), [])) && Stamp(Val(v)) == Top(g.cells) + 1
    requires At(clock, Oracle(clock, a, max), g, Write(Var(item), Val(v), Todo(body)), n, |Order(body, taken)|,
                Ids(body))
    ensures Leads(clock, Oracle(clock, a, max), g, g', Ret(None), Order(body, taken), 1 + AllWrites(body, taken),
                  Ids(body))
    decreases body, 2
  {
    var env, o, w := Oracle(clock, a, max), Order(body, taken), AllWrites(body, taken);
    var g1 := ItemBound(clock, env, g, item, v, body, n, |o|, Ids(body));
    g' := StepsHappen(clock, a, max, g1, body, taken, Later(clock, n, 1));
    LeadsAfter(clock, env, g, g1, g', Todo(body), Ret(None), o, 1, w, Ids(body));
  }

  lemma ItemBound(clock: bool, env: Env, g: Config, item: string, v: Value, body: seq<Step>, n: nat, k: nat,
                  ids: seq<string>)
    returns (g': Config)
    requires Stamp(Val(v)) == Top(g.cells) + 1 && At(clock, env, g, Write(Var(item), Val(v), Todo(body)), n, k, ids)
    ensures Leads(clock, env, g, g', Todo(body), [], 1, [])
    ensures At(clock, env, g', Todo(body), Later(clock, n, 1), k, ids)
  {
    WritesVar(clock, g.cells, item, Val(v));
    g' := LeadsWrite(clock, env, g, Var(item), Val(v), Todo(body), []);
  }

  lemma LoopBegins(clock: bool, env: Env, g: Config, item: string, v: Value, body: seq<Step>) returns (g': Config)
    requires !g.ended && g.single && g.proc == Loop(item, [v], body)
    ensures Leads(clock, env, g, g', Iter(Write(Var(item), Val(v), Todo(body)), item, [], body), [], 0, [])
    ensures g'.count == g.count && g'.cells == g.cells
  {
    assert [v][1..] == [];
    g' := LeadsQuiet(clock, env, g, GO, Quiet(Iter(Write(Var(item), Val(v), Todo(body)), item, [], body)));
  }

  lemma LoopEnds(clock: bool, env: Env, g: Config, item: string, body: seq<Step>) returns (g': Config)
    requires !g.ended && g.single && g.proc == Iter(Ret(None), item, [], body)
    ensures Leads(clock, env, g, g', Ret(None), [], 0, [])
  {
    var g1 := LeadsQuiet(clock, env, g, GO, Quiet(Loop(item, [], body)));
    g' := LeadsQuiet(clock, env, g1, GO, Quiet(Ret(None)));
    LeadsOn(clock, env, g, g1, g', g1.proc, Ret(None), [], [], 0, 0, [], []);
  }

  lemma {:induction false} HeadHappens(clock: bool, a: set<Answer>, max: nat, g: Config, steps: seq<Step>,
                                       taken: set<string>, n: nat) returns (g': Config)
    requires |steps| > 0 && NoParallel(steps[0]) && OneAnswer(a) && Asked(clock, steps[0], taken, n) <= a
    requires Free(clock, a, Bound(steps[0])) && (clock ==> Separate(IdsOf(steps[0]), []))
    requires At(clock, Oracle(clock, a, max), g, Todo(steps), n, |OrderOf(steps[0], taken)|, IdsOf(steps[0]))
    ensures var s := steps[0];
      Leads(clock, Oracle(clock, a, max), g, g', Todo(steps[1..]), OrderOf(s, taken), WritesOf(s, taken), IdsOf(s))
    decreases steps, 0
  {
    var env, s, rest, f := Oracle(clock, a, max), steps[0], steps[1..], InThen(steps[1..]);
    var v, w := OrderOf(s, taken), WritesOf(s, taken);
    var g1 := LeadsQuiet(clock, env, g, GO, Quiet(Then(Enter(s), rest)));
    var h1 := g1.(proc := Enter(s));
    var h2 := StepHappens(clock, a, max, h1, s, taken, n);
    LeadsInside(clock, env, h1, h2, Ret(None), v, w, IdsOf(s), f);
    assert Framed(h1, f) == g1;
    var g2 := Framed(h2, f);
    g' := LeadsQuiet(clock, env, g2, GO, Quiet(Todo(rest)));
    LeadsOn(clock, env, g, g1, g2, g1.proc, g2.proc, [], v, 0, w, [], IdsOf(s));
    LeadsOn(clock, env, g, g2, g', g2.proc, Todo(rest), [] + v, [], w, 0, [] + IdsOf(s), []);
    assert [] + v + [] == v && [] + IdsOf(s) + [] == IdsOf(s);
  }

  lemma {:induction false} StepsHappen(clock: bool, a: set<Answer>, max: nat, g: Config, steps: seq<Step>,
                                       taken: set<string>, n: nat) returns (g': Config)
    requires NoParallels(steps) && OneAnswer(a) && AllAsked(clock, steps, taken, n) <= a
    requires Free(clock, a, AllBound(steps)) && (clock ==> Separate(Ids(steps), []))
    requires At(clock, Oracle(clock, a, max), g, Todo(steps), n, |Order(steps, taken)|, Ids(steps))
    ensures Leads(clock, Oracle(clock, a, max), g, g', Ret(None), Order(steps, taken), AllWrites(steps, taken),
                  Ids(steps))
    decreases steps, 1
  {
    var env := Oracle(clock, a, max);
    if |steps| == 0 { g' := LeadsQuiet(clock, env, g, GO, Quiet(Ret(None))); }
    else {
      var s, rest := steps[0], steps[1..];
      if clock { SeparateParts(IdsOf(s), Ids(rest), []); }
      var g1 := HeadHappens(clock, a, max, g, steps, taken, n);
      g' := StepsHappen(clock, a, max, g1, rest, taken, Later(clock, n, WritesOf(s, taken)));
      LeadsOn(clock, env, g, g1, g', Todo(rest), Ret(None), OrderOf(s, taken), Order(rest, taken),
              WritesOf(s, taken), AllWrites(rest, taken), IdsOf(s), Ids(rest));
    }
  }

  // ---- Which outcomes happen ----

  /** A run that completes, visits v, and iterates lists of one element only. */
  ghost predicate Realises(env: Env, steps: seq<Step>, schedule: seq<Event>, v: seq<string>) {
    var end := Run(env, Start(steps), schedule);
    HasFootprints(env) && end.Some? && end.value.proc == Ret(None) && end.value.single && end.value.visited == v
  }

  /** An outcome in which no text answers both ways happens; with ids that differ and no
      refused text in an assignment it is enough that no text answers both ways between two
      writes. */
  lemma OutcomeHappens(clock: bool, steps: seq<Step>, taken: set<string>) returns (env: Env, schedule: seq<Event>)
    requires NoParallels(steps) && OneAnswer(AllAsked(clock, steps, taken, 0))
    requires clock ==> Separate(Ids(steps), [])
    requires Free(clock, AllAsked(clock, steps, taken, 0), AllBound(steps))
    ensures Realises(env, steps, schedule, Order(steps, taken))
  {
    var a, max := AllAsked(clock, steps, taken, 0), |Order(steps, taken)|;
    env := Oracle(clock, a, max);
    OracleHasFootprints(clock, a, max);
    NothingYet(clock);
    var g := StepsHappen(clock, a, max, Start(steps), steps, taken, 0);
    schedule :| Run(env, Start(steps), schedule) == Some(g);
    assert [] + Order(steps, taken) == Order(steps, taken);
  }

  lemma NothingYet(clock: bool)
    ensures Recorded(map[]) == {} && Now(clock, map[]) == 0
  {
  }

  // ---- Documents whose texts differ ----

  /** The condition of each `if` step, by the step's id, and the lists that are iterated. */
  function Conditions(s: Step): set<(string, string)>
    decreases s, 0
  {
    match s.node
    case If(cond, thn, els) => {(s.id, cond)} + AllConditions(thn) + AllConditions(els)
    case Foreach(_, _, body) => AllConditions(body)
    case _ => {}
  }

  function AllConditions(steps: seq<Step>): set<(string, string)>
    decreases steps, 0
  {
    if steps == [] then {} else Conditions(steps[0]) + AllConditions(steps[1..])
  }

  function Sources(s: Step): set<string>
    decreases s, 0
  {
    match s.node
    case If(_, thn, els) => AllSources(thn) + AllSources(els)
    case Foreach(source, _, body) => {source} + AllSources(body)
    case _ => {}
  }

  function AllSources(steps: seq<Step>): set<string>
    decreases steps, 0
  {
    if steps == [] then {} else Sources(steps[0]) + AllSources(steps[1..])
  }

  /** No two `if` steps share their condition's text, and none has the text of a list. */
  predicate TextsDiffer(steps: seq<Step>) {
    && (forall a, b | a in AllConditions(steps) && b in AllConditions(steps) && a.1 == b.1 :: a == b)
    && forall a | a in AllConditions(steps) :: a.1 !in AllSources(steps)
  }

  /** What is refused is a condition; without a clock it is always the same time. */
  lemma {:induction false} AllAskedAre(clock: bool, steps: seq<Step>, taken: set<string>, n: nat, p: Answer)
    requires p in AllAsked(clock, steps, taken, n)
    ensures !clock ==> p.0 == n
    ensures (exists a :: a in AllConditions(steps) && p.1 == a.1 && (p.2 <==> a.0 in taken))
      || (p.1 in AllSources(steps) && p.2)
    decreases steps, 0
  {
    if p in Asked(clock, steps[0], taken, n) { AskedAre(clock, steps[0], taken, n, p); }
    else { AllAskedAre(clock, steps[1..], taken, Later(clock, n, WritesOf(steps[0], taken)), p); }
  }

  lemma {:induction false} AskedAre(clock: bool, s: Step, taken: set<string>, n: nat, p: Answer)
    requires p in Asked(clock, s, taken, n)
    ensures !clock ==> p.0 == n
    ensures (exists a :: a in Conditions(s) && p.1 == a.1 && (p.2 <==> a.0 in taken)) || (p.1 in Sources(s) && p.2)
    decreases s, 0
  {
    match s.node
    case If(cond, thn, els) =>
      if p == (n, cond, s.id in taken) { assert (s.id, cond) in Conditions(s); }
      else { AllAskedAre(clock, if s.id in taken then thn else els, taken, n, p); }
    case Foreach(source, _, body) =>
      if p != (n, source, true) { AllAskedAre(clock, body, taken, Later(clock, n, 1), p); }
    case _ =>
  }

  /** For steps without `parallel` whose condition texts differ: every outcome of the
      conditions is the visit order of a completed run. */
  lemma EveryOutcomeHappens(steps: seq<Step>, taken: set<string>) returns (env: Env, schedule: seq<Event>)
    requires NoParallels(steps) && TextsDiffer(steps)
    ensures Realises(env, steps, schedule, Order(steps, taken))
  {
    var a := AllAsked(false, steps, taken, 0);
    forall p | p in a && p.2 ensures (p.0, p.1, false) !in a {
      AllAskedAre(false, steps, taken, 0, p);
      if (p.0, p.1, false) in a { AllAskedAre(false, steps, taken, 0, (p.0, p.1, false)); }
    }
    env, schedule := OutcomeHappens(false, steps, taken);
  }

  /** So every walk of the graph from the start or a trigger to the end happens. */
  lemma EveryWalkHappens(doc: Doc, limits: Limits, w: seq<string>)
    returns (p: string, v: seq<string>, env: Env, schedule: seq<Event>)
    requires ValidDoc(doc, limits) && NoParallels(doc.steps) && TextsDiffer(doc.steps)
    requires WalkBetween(PairsOf(GraphOf(doc).edges), w, START, END)
    ensures p in Entries(doc) && Realises(env, doc.steps, schedule, v) && w == Path(doc, p, v)
  {
    EveryWalkIsAnOutcome(doc, limits, w);
    var q, taken :| q in Entries(doc) && w == Path(doc, q, Order(doc.steps, taken));
    p, v := q, Order(doc.steps, taken);
    env, schedule := EveryOutcomeHappens(doc.steps, taken);
  }
}
