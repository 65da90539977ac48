/** The step cap, over every schedule: how many leaf steps are dispatched, how far the
    counter can overshoot, and that reaching the cap always ends the run in an error. */
module StepCap {
  import opened Workflow
  import opened Machine

  function Max(a: nat, b: nat): nat { if a < b then b else a }

  /** How many leaf steps can be in flight at once: the maximum over a list, the sum
      over parallel branches. */
  function Width(s: Step): nat
    decreases s, 0
  {
    match s.node
    case If(_, thn, els) => Max(WidthOf(thn), WidthOf(els))
    case Foreach(_, _, body) => WidthOf(body)
    case Parallel(branches) => WidthSum(branches)
    case _ => 1
  }

  function WidthOf(steps: seq<Step>): nat
    decreases steps, 0
  {
    if steps == [] then 0 else Max(Width(steps[0]), WidthOf(steps[1..]))
  }

  function WidthSum(branches: seq<Block>): nat
    decreases branches, 0
  {
    if branches == [] then 0 else WidthOf(branches[0].steps) + WidthSum(branches[1..])
  }

  /** An error is certain: some goroutine has returned one, or is about to. */
  predicate Doomed(p: Proc) {
    match p
    case Ret(err) => err.Some?
    case Then(cur, _) => Doomed(cur)
    case Iter(cur, _, _, _) => Doomed(cur)
    case Write(_, _, next) => Doomed(next)
    case Par(bs, first) => first.Some? || exists i | 0 <= i < |bs| :: Doomed(bs[i])
    case _ => false
  }

  /** How many more times a goroutine tree can run into the cap. */
  function Live(p: Proc): nat
    decreases p, 0
  {
    match p
    case Todo(steps) => WidthOf(steps)
    case Then(cur, rest) => if Doomed(cur) then Live(cur) else Max(Live(cur), WidthOf(rest))
    case Enter(s) => Width(s)
    case Write(_, _, next) => Live(next)
    case Loop(_, _, body) => WidthOf(body)
    case Iter(cur, _, _, body) => if Doomed(cur) then Live(cur) else Max(Live(cur), WidthOf(body))
    case Par(bs, _) => LiveSum(bs)
    case _ => 0
  }

  function LiveSum(bs: seq<Proc>): nat
    decreases bs, 0
  {
    if bs == [] then 0 else Live(bs[0]) + LiveSum(bs[1..])
  }

  lemma {:induction false} LiveReplaced(bs: seq<Proc>, i: nat, q: Proc)
    requires i < |bs|
    ensures LiveSum(bs[i := q]) == LiveSum(bs) - Live(bs[i]) + Live(q)
    ensures Live(bs[i]) <= LiveSum(bs)
    decreases i
  {
    if i == 0 { assert bs[0 := q][1..] == bs[1..]; }
    else {
      assert bs[i := q][1..] == bs[1..][i - 1 := q];
      LiveReplaced(bs[1..], i - 1, q);
    }
  }

  lemma {:induction false} SpawnLive(branches: seq<Block>, bs: seq<Proc>)
    requires |bs| == |branches| && forall i | 0 <= i < |bs| :: bs[i] == Todo(branches[i].steps)
    ensures LiveSum(bs) == WidthSum(branches)
    decreases |bs|
  {
    if bs != [] { SpawnLive(branches[1..], bs[1..]); }
  }

  lemma BranchLive(bs: seq<Proc>, first: Option<Err>, i: nat, q: Proc)
    requires i < |bs| && Live(q) <= Live(bs[i]) && (Doomed(bs[i]) ==> Doomed(q))
    ensures Doomed(q) || Doomed(Par(bs, first)) ==> Doomed(Par(bs[i := q], first))
    ensures Live(Par(bs[i := q], first)) == Live(Par(bs, first)) - Live(bs[i]) + Live(q)
    ensures Live(bs[i]) <= Live(Par(bs, first))
  {
    LiveReplaced(bs, i, q);
    var bs' := bs[i := q];
    if Doomed(q) { assert Doomed(bs'[i]); }
    if k :| 0 <= k < |bs| && Doomed(bs[k]) { assert Doomed(bs'[k]); }
  }

  lemma CollectLive(bs: seq<Proc>, first: Option<Err>, i: nat)
    requires i < |bs| && bs[i].Ret? && bs[i].err.Some?
    ensures var p := Par(bs[i := Ret(None)], if first.None? then bs[i].err else first);
      Doomed(p) && Live(p) <= Live(Par(bs, first))
  {
    LiveReplaced(bs, i, Ret(None));
  }

  lemma IterationLive(p: Proc)
    requires p.Write? && p.next.Todo?
    ensures Live(p) == WidthOf(p.next.steps) && !Doomed(p)
  {
    assert Live(p.next) == WidthOf(p.next.steps) && !Doomed(p.next);
  }

  lemma DispatchLive(env: Env, cells: Cells, s: Step)
    ensures var q := Dispatch(env, cells, s).next;
      if IsLeaf(s) then Live(q) == 0 && Live(q) < Width(s) else Live(q) <= Width(s)
  {
    if s.node.Parallel? { SpawnLive(s.node.branches, Dispatch(env, cells, s).next.branches); }
  }

  /** The moves a goroutine makes itself. */
  lemma ActLive(env: Env, done: bool, room: bool, cells: Cells, p: Proc, c: Choice, m: Move)
    requires !p.Then? && !p.Iter? && !p.Par? && Advance(env, done, room, cells, p, c) == Some(m)
    ensures Live(m.next) <= Live(p)
    ensures Doomed(p) ==> Doomed(m.next)
    ensures m.tick && !room ==> Doomed(m.next) && Live(m.next) < Live(p)
  {
    match p
    case Enter(s) => DispatchLive(env, cells, s);
    case Loop(item, items, body) =>
      if m.next.Iter? { IterationLive(Write(Var(item), Val(items[0]), Todo(body))); }
    case _ =>
  }

  /** A move never adds to what is live, an error once certain stays certain, and a move
      that runs into the cap makes one certain and uses up one of the live counts. */
  lemma {:induction false} MoveLive(env: Env, done: bool, room: bool, cells: Cells, p: Proc, c: Choice, m: Move)
    requires Advance(env, done, room, cells, p, c) == Some(m)
    ensures Live(m.next) <= Live(p)
    ensures Doomed(p) ==> Doomed(m.next)
    ensures m.tick && !room ==> Doomed(m.next) && Live(m.next) < Live(p)
    decreases p
  {
    match p
    case Then(cur, _) =>
      if !cur.Ret? { MoveLive(env, done, room, cells, cur, c, Advance(env, done, room, cells, cur, c).value); }
    case Iter(cur, _, _, _) =>
      if !cur.Ret? { MoveLive(env, done, room, cells, cur, c, Advance(env, done, room, cells, cur, c).value); }
    case Par(bs, first) =>
      if c.Branch? {
        var m' := Advance(env, done || first.Some?, room, cells, bs[c.i], c.sub).value;
        assert m == m'.(next := Par(bs[c.i := m'.next], first));
        MoveLive(env, done || first.Some?, room, cells, bs[c.i], c.sub, m');
        BranchLive(bs, first, c.i, m'.next);
      } else if c.Collect? {
        CollectLive(bs, first, c.i);
      }
    case _ => ActLive(env, done, room, cells, p, c, m);
  }

  /** A leaf step is dispatched by the moves that count it below the cap, and by no other. */
  lemma {:induction false} MoveDispatches(env: Env, done: bool, room: bool, cells: Cells, p: Proc, c: Choice, m: Move)
    requires Advance(env, done, room, cells, p, c) == Some(m)
    ensures m.leaf <==> m.tick && room
    decreases p
  {
    match p
    case Then(cur, _) =>
      if !cur.Ret? { MoveDispatches(env, done, room, cells, cur, c, Advance(env, done, room, cells, cur, c).value); }
    case Iter(cur, _, _, _) =>
      if !cur.Ret? { MoveDispatches(env, done, room, cells, cur, c, Advance(env, done, room, cells, cur, c).value); }
    case Par(bs, first) =>
      if c.Branch? {
        MoveDispatches(env, done || first.Some?, room, cells, bs[c.i], c.sub,
                       Advance(env, done || first.Some?, room, cells, bs[c.i], c.sub).value);
      }
    case _ =>
  }

  function Over(env: Env, g: Config): nat { if g.count > env.maxSteps then g.count - env.maxSteps else 0 }

  predicate Capped(env: Env, steps: seq<Step>, g: Config) {
    && g.dispatched == (if g.count < env.maxSteps then g.count else env.maxSteps)
    && Over(env, g) + Live(g.proc) <= WidthOf(steps)
    && (g.count > env.maxSteps ==> Doomed(g.proc))
  }

  lemma {:induction false} RunCapped(env: Env, steps: seq<Step>, g: Config, schedule: seq<Event>)
    requires Capped(env, steps, g) && Run(env, g, schedule).Some?
    ensures Capped(env, steps, Run(env, g, schedule).value)
    decreases |schedule|
  {
    if schedule != [] {
      if schedule[0].Moves? {
        var room := g.count < env.maxSteps;
        var m := Advance(env, g.ended, room, g.cells, g.proc, schedule[0].c).value;
        MoveLive(env, g.ended, room, g.cells, g.proc, schedule[0].c, m);
        MoveDispatches(env, g.ended, room, g.cells, g.proc, schedule[0].c, m);
      }
      RunCapped(env, steps, Next(env, g, schedule[0]).value, schedule[1..]);
    }
  }

  /** At every moment of every schedule the leaf steps dispatched are exactly
      min(count, MaxSteps), and the counter is at most MaxSteps plus the static width of the tree;
      a run whose counter passed the cap does not return success. */
  lemma StepCapHolds(env: Env, steps: seq<Step>, schedule: seq<Event>)
    requires Run(env, Start(steps), schedule).Some?
    ensures var g := Run(env, Start(steps), schedule).value;
      && g.dispatched == (if g.count < env.maxSteps then g.count else env.maxSteps)
      && g.count <= env.maxSteps + WidthOf(steps)
      && (g.proc == Ret(None) ==> g.count <= env.maxSteps)
  {
    RunCapped(env, steps, Start(steps), schedule);
  }
}
