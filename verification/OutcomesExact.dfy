/** Which outcomes happen at all: those of completed runs are the ones in which no text
    answers both ways without a write in between. */
module OutcomesExact {
  import opened Workflow
  import opened Machine
  import opened Validate
  import opened Visits
  import opened Graph
  import opened GraphShape
  import opened GraphWalks
  import opened Outcomes

  // ---- What is left of a goroutine, for an outcome ----

  /** No parallel steps, and lists of one element at most. */
  predicate Narrow(p: Proc) {
    match p
    case Todo(steps) => NoParallels(steps)
    case Then(cur, rest) => Narrow(cur) && NoParallels(rest)
    case Enter(s) => NoParallel(s)
    case Write(_, _, next) => Narrow(next)
    case Loop(_, items, body) => |items| <= 1 && NoParallels(body)
    case Iter(cur, _, items, body) => Narrow(cur) && |items| == 0 && NoParallels(body)
    case Par(_, _) => false
    case _ => true
  }

  predicate NoErr(p: Proc) {
    match p
    case Ret(err) => err.None?
    case Then(cur, _) => NoErr(cur)
    case Write(_, _, next) => NoErr(next)
    case Iter(cur, _, _, _) => NoErr(cur)
    case _ => true
  }

  function OrderLeft(p: Proc, taken: set<string>): seq<string> {
    match p
    case Todo(steps) => Order(steps, taken)
    case Then(cur, rest) => OrderLeft(cur, taken) + Order(rest, taken)
    case Enter(s) => OrderOf(s, taken)
    case Write(_, _, next) => OrderLeft(next, taken)
    case Loop(_, items, body) => if |items| == 0 then [] else Order(body, taken)
    case Iter(cur, _, _, _) => OrderLeft(cur, taken)
    case _ => []
  }

  function WritesLeft(p: Proc, taken: set<string>): nat {
    match p
    case Todo(steps) => AllWrites(steps, taken)
    case Then(cur, rest) => WritesLeft(cur, taken) + AllWrites(rest, taken)
    case Enter(s) => WritesOf(s, taken)
    case Args(_, _, _) => 1
    case Call(_, _) => 1
    case Write(_, _, next) => 1 + WritesLeft(next, taken)
    case Bind(_, pending) => |pending|
    case Loop(_, items, body) => if |items| == 0 then 0 else 1 + AllWrites(body, taken)
    case Iter(cur, _, _, _) => WritesLeft(cur, taken)
    case _ => 0
  }

  function AskedLeft(p: Proc, taken: set<string>, n: nat): set<Answer> {
    match p
    case Todo(steps) => AllAsked(true, steps, taken, n)
    case Then(cur, rest) => AskedLeft(cur, taken, n) + AllAsked(true, rest, taken, n + WritesLeft(cur, taken))
    case Enter(s) => Asked(true, s, taken, n)
    case Write(_, _, next) => AskedLeft(next, taken, n + 1)
    case Loop(_, items, body) => if |items| == 0 then {} else AllAsked(true, body, taken, n + 1)
    case Iter(cur, _, _, _) => AskedLeft(cur, taken, n)
    case _ => {}
  }

  /** The step a goroutine is about to enter. */
  function Entering(p: Proc): Option<Step> {
    match p
    case Enter(s) => Some(s)
    case Then(cur, _) => Entering(cur)
    case Iter(cur, _, _, _) => Entering(cur)
    case _ => None
  }

  predicate Says(env: Env, cells: Cells, t: string, answer: bool) {
    env.eval(t, cells).Ok? && Truthy(env.eval(t, cells).value) == answer
  }

  /** The `if` step that is about to go to its then-branch, if any. */
  function Turns(env: Env, cells: Cells, p: Proc): set<string> {
    match Entering(p)
    case Some(Step(id, If(cond, _, _))) => if Says(env, cells, cond, true) then {id} else {}
    case _ => {}
  }

  predicate Agrees(env: Env, cells: Cells, p: Proc, taken: set<string>) {
    Entering(p).Some? && Entering(p).value.node.If? ==>
      (Entering(p).value.id in taken <==> Entering(p).value.id in Turns(env, cells, p))
  }

  // ---- One move ----

  function Time(m: Move, n: nat): nat { if m.write == map[] then n else n + 1 }

  /** What a move does to what is left. */
  ghost predicate Follows(env: Env, cells: Cells, p: Proc, m: Move, taken: set<string>, n: nat) {
    && NoErr(p)
    && OrderLeft(p, taken) == m.entered + OrderLeft(m.next, taken)
    && n + WritesLeft(p, taken) == Time(m, n) + WritesLeft(m.next, taken)
    && forall q | q in AskedLeft(p, taken, n) ::
         q in AskedLeft(m.next, taken, Time(m, n)) || (q.0 == n && Says(env, cells, q.1, q.2))
  }

  lemma {:induction false} MoveFollows(env: Env, done: bool, room: bool, cells: Cells, p: Proc, c: Choice, m: Move,
                                       taken: set<string>, n: nat)
    requires Narrow(p) && Advance(env, done, room, cells, p, c) == Some(m) && m.single && NoErr(m.next)
    requires Agrees(env, cells, p, taken)
    ensures Narrow(m.next) && Follows(env, cells, p, m, taken, n)
    decreases p
  {
    match p
    case Then(cur, rest) =>
      if !cur.Ret? {
        var m' := Advance(env, done, room, cells, cur, c).value;
        MoveFollows(env, done, room, cells, cur, c, m', taken, n);
        ThenFollows(env, cells, cur, rest, m', taken, n);
      } else { ReturnFollows(env, cells, p, m, taken, n); }
    case Iter(cur, item, items, body) =>
      if !cur.Ret? {
        var m' := Advance(env, done, room, cells, cur, c).value;
        MoveFollows(env, done, room, cells, cur, c, m', taken, n);
        IterFollows(env, cells, cur, item, items, body, m', taken, n);
      } else { ReturnFollows(env, cells, p, m, taken, n); }
    case Enter(s) => EnterFollows(env, room, cells, s, m, taken, n);
    case Todo(_) => TodoFollows(env, cells, p, m, taken, n);
    case Loop(_, _, _) => LoopFollows(env, cells, p, m, taken, n);
    case _ => PhaseFollows(env, done, room, cells, p, c, m, taken, n);
  }

  lemma ThenFollows(env: Env, cells: Cells, cur: Proc, rest: seq<Step>, m: Move, taken: set<string>, n: nat)
    requires Follows(env, cells, cur, m, taken, n)
    ensures Follows(env, cells, Then(cur, rest), m.(next := Then(m.next, rest)), taken, n)
  {
  }

  lemma IterFollows(env: Env, cells: Cells, cur: Proc, item: string, items: seq<Value>, body: seq<Step>, m: Move,
                    taken: set<string>, n: nat)
    requires Follows(env, cells, cur, m, taken, n)
    ensures Follows(env, cells, Iter(cur, item, items, body), m.(next := Iter(m.next, item, items, body)), taken, n)
  {
  }

  lemma ReturnFollows(env: Env, cells: Cells, p: Proc, m: Move, taken: set<string>, n: nat)
    requires (p.Then? || p.Iter?) && p.cur.Ret? && Narrow(p) && NoErr(m.next) && m.entered == [] && m.write == map[]
    requires m.next == if p.cur.err.Some? then p.cur else if p.Then? then Todo(p.rest)
      else Loop(p.item, p.items, p.body)
    ensures Narrow(m.next) && Follows(env, cells, p, m, taken, n)
  {
  }

  lemma TodoFollows(env: Env, cells: Cells, p: Proc, m: Move, taken: set<string>, n: nat)
    requires p.Todo? && Narrow(p) && NoErr(m.next) && m.entered == [] && m.write == map[]
    requires if p.steps == [] then m.next == Ret(None) else
      m.next == Ret(Some(Cancelled)) || m.next == Then(Enter(p.steps[0]), p.steps[1..])
    ensures Narrow(m.next) && Follows(env, cells, p, m, taken, n)
  {
    if p.steps != [] {
      var first := Enter(p.steps[0]);
      assert OrderLeft(first, taken) == OrderOf(p.steps[0], taken)
        && WritesLeft(first, taken) == WritesOf(p.steps[0], taken);
      assert AskedLeft(first, taken, n) == Asked(true, p.steps[0], taken, n);
    }
  }

  lemma LoopFollows(env: Env, cells: Cells, p: Proc, m: Move, taken: set<string>, n: nat)
    requires p.Loop? && Narrow(p) && NoErr(m.next) && m.entered == [] && m.write == map[]
    requires if p.items == [] then m.next == Ret(None) else
      || m.next == Ret(Some(Cancelled))
      || m.next == Iter(Write(Var(p.item), Val(p.items[0]), Todo(p.body)), p.item, p.items[1..], p.body)
    ensures Narrow(m.next) && Follows(env, cells, p, m, taken, n)
  {
    if p.items != [] {
      var body, first := Todo(p.body), Write(Var(p.item), Val(p.items[0]), Todo(p.body));
      assert Narrow(body) && Narrow(first) && NoErr(first);
      assert OrderLeft(body, taken) == Order(p.body, taken) && OrderLeft(first, taken) == OrderLeft(body, taken);
      assert WritesLeft(body, taken) == AllWrites(p.body, taken)
        && WritesLeft(first, taken) == 1 + WritesLeft(body, taken);
      assert AskedLeft(body, taken, n + 1) == AllAsked(true, p.body, taken, n + 1);
      assert AskedLeft(first, taken, n) == AskedLeft(body, taken, n + 1);
    }
  }

  lemma EnterFollows(env: Env, room: bool, cells: Cells, s: Step, m: Move, taken: set<string>, n: nat)
    requires NoParallel(s) && Advance(env, false, room, cells, Enter(s), Act("", false)) == Some(m)
    requires m.single && NoErr(m.next) && Agrees(env, cells, Enter(s), taken)
    ensures Narrow(m.next) && Follows(env, cells, Enter(s), m, taken, n)
  {
  }

  lemma PhaseFollows(env: Env, done: bool, room: bool, cells: Cells, p: Proc, c: Choice, m: Move, taken: set<string>,
                     n: nat)
    requires p.Ret? || p.Args? || p.Call? || p.Write? || p.Bind? || p.Sleep?
    requires Narrow(p) && Advance(env, done, room, cells, p, c) == Some(m) && NoErr(m.next)
    ensures Narrow(m.next) && Follows(env, cells, p, m, taken, n)
  {
    match p
    case Args(_, _, _) => ToolFollows(env, done, room, cells, p, c, m, taken, n);
    case Call(_, _) => ToolFollows(env, done, room, cells, p, c, m, taken, n);
    case Bind(_, pending) => if pending != map[] { BindFollows(env, cells, p, c.key, m, taken, n); }
    case Write(loc, _, _) => assert loc in m.write;
    case _ =>
  }

  lemma ToolFollows(env: Env, done: bool, room: bool, cells: Cells, p: Proc, c: Choice, m: Move, taken: set<string>,
                    n: nat)
    requires (p.Args? || p.Call?) && Advance(env, done, room, cells, p, c) == Some(m) && NoErr(m.next)
    ensures Narrow(m.next) && Follows(env, cells, p, m, taken, n)
  {
    assert m.entered == [] && m.write == map[];
    if m.next.Write? {
      var ret := m.next.next;
      assert ret.Ret? && WritesLeft(ret, taken) == 0 && OrderLeft(ret, taken) == []
        && AskedLeft(ret, taken, n + 1) == {};
    }
  }

  lemma BindFollows(env: Env, cells: Cells, p: Proc, k: string, m: Move, taken: set<string>, n: nat)
    requires p.Bind? && NoErr(m.next) && m.entered == [] && m.write == map[] && k in p.pending
    requires match env.eval(p.pending[k], cells)
      case Ok(v) => m.next == Write(Var(k), Val(v), Bind(p.s, p.pending - {k}))
      case Error(_) => m.next.Ret? && m.next.err.Some?
    ensures Narrow(m.next) && Follows(env, cells, p, m, taken, n)
  {
    if m.next.Write? { BindLeft(m.next, p.s, p.pending, k, taken, n); }
  }

  lemma BindLeft(write: Proc, s: Step, pending: map<string, Template>, k: string, taken: set<string>, n: nat)
    requires k in pending && write.Write? && write.next == Bind(s, pending - {k})
    ensures OrderLeft(write, taken) == [] && WritesLeft(write, taken) == |pending| && AskedLeft(write, taken, n) == {}
    ensures Narrow(write)
  {
    assert (pending - {k}).Keys == pending.Keys - {k};
    var bind := write.next;
    assert WritesLeft(bind, taken) == |pending - {k}| && OrderLeft(bind, taken) == [];
    assert AskedLeft(bind, taken, n + 1) == {} && Narrow(bind);
  }

  // ---- Whole runs ----

  /** The answers at time n are those the scope gives now, others come later, and no text
      answers both ways at one time. */
  ghost predicate Honest(env: Env, cells: Cells, n: nat, a: set<Answer>) {
    OneAnswer(a) && forall q | q in a :: q.0 >= n && (q.0 == n ==> Says(env, cells, q.1, q.2))
  }

  lemma HonestBefore(env: Env, cells: Cells, p: Proc, m: Move, taken: set<string>, n: nat)
    requires Follows(env, cells, p, m, taken, n)
    requires Honest(env, cells + m.write, Time(m, n), AskedLeft(m.next, taken, Time(m, n)))
    ensures Honest(env, cells, n, AskedLeft(p, taken, n))
  {
    var a, b := AskedLeft(p, taken, n), AskedLeft(m.next, taken, Time(m, n));
    if m.write == map[] { assert cells + m.write == cells; }
    forall q | q in a ensures q.0 >= n && (q.0 == n ==> Says(env, cells, q.1, q.2)) { }
    forall q | q in a && q.2 ensures (q.0, q.1, false) !in a { }
  }

  /** The `if` steps a run sends to their then-branches, and the steps it enters. */
  function Took(env: Env, g: Config, schedule: seq<Event>): set<string>
    requires Run(env, g, schedule).Some?
    decreases |schedule|
  {
    if |schedule| == 0 then {}
    else
      (if schedule[0].Moves? then Turns(env, g.cells, g.proc) else {})
      + Took(env, Next(env, g, schedule[0]).value, schedule[1..])
  }

  function Entered(env: Env, g: Config, schedule: seq<Event>): seq<string>
    requires Run(env, g, schedule).Some?
    decreases |schedule|
  {
    if |schedule| == 0 then []
    else
      (match schedule[0]
       case CallerEnds => []
       case Moves(c) => Advance(env, g.ended, g.count < env.maxSteps, g.cells, g.proc, c).value.entered)
      + Entered(env, Next(env, g, schedule[0]).value, schedule[1..])
  }

  lemma {:induction false} EnteredIs(env: Env, g: Config, schedule: seq<Event>)
    requires Run(env, g, schedule).Some?
    ensures Run(env, g, schedule).value.visited == g.visited + Entered(env, g, schedule)
    decreases |schedule|
  {
    if |schedule| > 0 { EnteredIs(env, Next(env, g, schedule[0]).value, schedule[1..]); }
  }

  /** A step is entered by the move that takes its turn. */
  lemma {:induction false} EntersWhatTurns(env: Env, done: bool, room: bool, cells: Cells, p: Proc, c: Choice, m: Move)
    requires Advance(env, done, room, cells, p, c) == Some(m)
    requires Entering(p).Some? && Entering(p).value.node.If?
    ensures m.entered == [Entering(p).value.id]
    decreases p
  {
    match p
    case Then(cur, _) => EntersWhatTurns(env, done, room, cells, cur, c, Advance(env, done, room, cells, cur, c).value);
    case Iter(cur, _, _, _) =>
      EntersWhatTurns(env, done, room, cells, cur, c, Advance(env, done, room, cells, cur, c).value);
    case _ =>
  }

  lemma {:induction false} TookIsEntered(env: Env, g: Config, schedule: seq<Event>)
    requires Run(env, g, schedule).Some?
    ensures forall id | id in Took(env, g, schedule) :: id in Entered(env, g, schedule)
    decreases |schedule|
  {
    if |schedule| > 0 {
      TookIsEntered(env, Next(env, g, schedule[0]).value, schedule[1..]);
      match schedule[0]
      case CallerEnds =>
      case Moves(c) =>
        if Turns(env, g.cells, g.proc) != {} {
          var m := Advance(env, g.ended, g.count < env.maxSteps, g.cells, g.proc, c).value;
          EntersWhatTurns(env, g.ended, g.count < env.maxSteps, g.cells, g.proc, c, m);
        }
    }
  }

  ghost predicate AgreesWith(env: Env, g: Config, schedule: seq<Event>, taken: set<string>)
    requires Run(env, g, schedule).Some?
  {
    && Separate(Entered(env, g, schedule), [])
    && forall id | id in Entered(env, g, schedule) :: id in taken <==> id in Took(env, g, schedule)
  }

  lemma AgreesAfter(env: Env, g: Config, schedule: seq<Event>, taken: set<string>)
    requires Run(env, g, schedule).Some? && |schedule| > 0 && AgreesWith(env, g, schedule, taken)
    ensures AgreesWith(env, Next(env, g, schedule[0]).value, schedule[1..], taken)
    ensures schedule[0].Moves? ==> Agrees(env, g.cells, g.proc, taken)
  {
    var g', rest := Next(env, g, schedule[0]).value, schedule[1..];
    match schedule[0] {
      case CallerEnds => assert [] + Entered(env, g', rest) == Entered(env, g', rest);
      case Moves(c) =>
        var m := Advance(env, g.ended, g.count < env.maxSteps, g.cells, g.proc, c).value;
        var v := Entered(env, g', rest);
        SeparateParts(m.entered, v, []);
        TookIsEntered(env, g', rest);
        if Entering(g.proc).Some? && Entering(g.proc).value.node.If? {
          EntersWhatTurns(env, g.ended, g.count < env.maxSteps, g.cells, g.proc, c, m);
          assert m.entered[0] in m.entered + v;
        }
        forall id | id in v ensures id in taken <==> id in Took(env, g', rest) {
          assert id in m.entered + v && id !in m.entered;
        }
    }
  }

  /** What a completed run enters and asks is what its outcome says. */
  lemma {:induction false} RunFollows(env: Env, g: Config, schedule: seq<Event>, taken: set<string>, n: nat)
    requires Narrow(g.proc) && Run(env, g, schedule).Some? && AgreesWith(env, g, schedule, taken)
    requires var end := Run(env, g, schedule).value; end.single && end.proc == Ret(None)
    ensures NoErr(g.proc) && Entered(env, g, schedule) == OrderLeft(g.proc, taken)
    ensures Honest(env, g.cells, n, AskedLeft(g.proc, taken, n))
    decreases |schedule|
  {
    if |schedule| > 0 {
      var g', rest := Next(env, g, schedule[0]).value, schedule[1..];
      SingleStays(env, g', rest);
      AgreesAfter(env, g, schedule, taken);
      match schedule[0]
      case CallerEnds => RunFollows(env, g', rest, taken, n);
      case Moves(c) =>
        var m := Advance(env, g.ended, g.count < env.maxSteps, g.cells, g.proc, c).value;
        StaysNarrow(env, g.ended, g.count < env.maxSteps, g.cells, g.proc, c, m);
        RunFollows(env, g', rest, taken, Time(m, n));
        MoveFollows(env, g.ended, g.count < env.maxSteps, g.cells, g.proc, c, m, taken, n);
        HonestBefore(env, g.cells, g.proc, m, taken, n);
    }
  }

  lemma {:induction false} StaysNarrow(env: Env, done: bool, room: bool, cells: Cells, p: Proc, c: Choice, m: Move)
    requires Narrow(p) && Advance(env, done, room, cells, p, c) == Some(m) && m.single
    ensures Narrow(m.next)
    decreases p
  {
    match p
    case Then(cur, _) =>
      if !cur.Ret? { StaysNarrow(env, done, room, cells, cur, c, Advance(env, done, room, cells, cur, c).value); }
    case Iter(cur, _, _, _) =>
      if !cur.Ret? { StaysNarrow(env, done, room, cells, cur, c, Advance(env, done, room, cells, cur, c).value); }
    case Loop(item, items, body) =>
      if m.next.Iter? { assert Narrow(Todo(body)); }
    case _ =>
  }

  // ---- Which visit orders happen ----

  lemma JoinDistinct(a: seq<string>, b: seq<string>)
    requires Separate(a, []) && Separate(b, []) && forall id | id in a :: id !in b
    ensures Separate(a + b, [])
  {
    var c := a + b;
    forall i, j | 0 <= i < j < |c| ensures c[i] != c[j] {
      if i < |a| <= j { assert c[i] in a && c[j] == b[j - |a|]; }
      else if j < |a| { assert c[i] == a[i] && c[j] == a[j]; }
      else { assert c[i] == b[i - |a|] && c[j] == b[j - |a|]; }
    }
  }

  lemma {:induction false} OrderDistinct(steps: seq<Step>, taken: set<string>)
    requires Separate(Ids(steps), [])
    ensures Separate(Order(steps, taken), []) && forall id | id in Order(steps, taken) :: id in Ids(steps)
    decreases steps, 0
  {
    if steps != [] {
      SeparateParts(IdsOf(steps[0]), Ids(steps[1..]), []);
      OrderOfDistinct(steps[0], taken);
      OrderDistinct(steps[1..], taken);
      JoinDistinct(OrderOf(steps[0], taken), Order(steps[1..], taken));
    }
  }

  lemma {:induction false} OrderOfDistinct(s: Step, taken: set<string>)
    requires Separate(IdsOf(s), [])
    ensures Separate(OrderOf(s, taken), []) && forall id | id in OrderOf(s, taken) :: id in IdsOf(s)
    decreases s, 0
  {
    var inner := IdsOf(s)[1..];
    assert IdsOf(s) == [s.id] + inner;
    SeparateParts([s.id], inner, []);
    match s.node
    case If(_, thn, els) =>
      assert inner == Ids(thn) + Ids(els);
      SeparateParts(Ids(thn), Ids(els), []);
      var branch := if s.id in taken then thn else els;
      OrderDistinct(branch, taken);
      JoinDistinct([s.id], Order(branch, taken));
    case Foreach(_, _, body) =>
      assert inner == Ids(body);
      OrderDistinct(body, taken);
      JoinDistinct([s.id], Order(body, taken));
    case _ =>
  }

  /** A completed run over one-element lists visits the order of the outcome it took. */
  lemma RunIsOutcome(env: Env, steps: seq<Step>, schedule: seq<Event>)
    requires NoParallels(steps) && Separate(Ids(steps), []) && Run(env, Start(steps), schedule).Some?
    requires var end := Run(env, Start(steps), schedule).value; end.single && end.proc == Ret(None)
    ensures var taken := Took(env, Start(steps), schedule);
      && Run(env, Start(steps), schedule).value.visited == Order(steps, taken)
      && OneAnswer(AllAsked(true, steps, taken, 0))
  {
    var g := Start(steps);
    var v := Run(env, g, schedule).value.visited;
    CompletedRunVisits(env, steps, schedule);
    var some := VisitIsOrder(steps, v);
    OrderDistinct(steps, some);
    EnteredIs(env, g, schedule);
    assert Entered(env, g, schedule) == v;
    RunFollows(env, g, schedule, Took(env, g, schedule), 0);
  }

  /** In that outcome no text answers both ways between two writes. */
  lemma OutcomeIsConsistent(env: Env, steps: seq<Step>, schedule: seq<Event>, v: seq<string>)
    returns (taken: set<string>)
    requires NoParallels(steps) && Separate(Ids(steps), []) && Realises(env, steps, schedule, v)
    ensures v == Order(steps, taken) && OneAnswer(AllAsked(true, steps, taken, 0))
  {
    RunIsOutcome(env, steps, schedule);
    taken := Took(env, Start(steps), schedule);
  }

  predicate BindsNoCondition(steps: seq<Step>) { forall a | a in AllConditions(steps) :: a.1 !in AllBound(steps) }

  ghost predicate Happens(steps: seq<Step>, v: seq<string>) {
    exists env, schedule :: Realises(env, steps, schedule, v)
  }

  ghost predicate Consistent(steps: seq<Step>, v: seq<string>) {
    exists taken :: v == Order(steps, taken) && OneAnswer(AllAsked(true, steps, taken, 0))
  }

  /** Where no assignment binds a condition's text: a visit order happens exactly when it is
      that of an outcome in which no text answers both ways between two writes. */
  lemma VisitHappensExactly(steps: seq<Step>, v: seq<string>)
    requires NoParallels(steps) && Separate(Ids(steps), []) && BindsNoCondition(steps)
    ensures Happens(steps, v) <==> Consistent(steps, v)
  {
    if env, schedule :| Realises(env, steps, schedule, v) {
      var taken := OutcomeIsConsistent(env, steps, schedule, v);
    }
    if taken :| v == Order(steps, taken) && OneAnswer(AllAsked(true, steps, taken, 0)) {
      var a := AllAsked(true, steps, taken, 0);
      forall t | t in AllBound(steps) ensures !Refused(a, t) {
        if p :| p in a && p.1 == t && !p.2 { AllAskedAre(true, steps, taken, 0, p); }
      }
      var env, schedule := OutcomeHappens(true, steps, taken);
    }
  }

  /** So a walk of the graph of a valid document is that of a run exactly when it is that of
      such an outcome. */
  lemma WalkHappensExactly(doc: Doc, limits: Limits, w: seq<string>)
    requires ValidDoc(doc, limits) && NoParallels(doc.steps) && BindsNoCondition(doc.steps)
    ensures (exists p, v :: p in Entries(doc) && w == Path(doc, p, v) && Happens(doc.steps, v))
      <==> exists p, v :: p in Entries(doc) && w == Path(doc, p, v) && Consistent(doc.steps, v)
  {
    FreshMeansDistinct(Ids(doc.steps), {});
    forall v ensures Happens(doc.steps, v) <==> Consistent(doc.steps, v) { VisitHappensExactly(doc.steps, v); }
  }
}
