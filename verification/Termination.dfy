/** Every run of a step tree ends, whatever the schedule and however long the lists that
    are iterated: lists are known only when they are reached, so the measure is a
    polynomial in an infinite unit, one power for each level of nested iteration. */
module Termination {
  import opened Workflow
  import opened Machine

  // ---- Polynomials, by their coefficients ----

  /** f is below g, comparing the coefficients of degrees under n from the highest on. */
  predicate Below(f: nat -> nat, g: nat -> nat, n: nat) {
    n > 0 && (f(n - 1) < g(n - 1) || (f(n - 1) == g(n - 1) && Below(f, g, n - 1)))
  }

  predicate Same(f: nat -> nat, g: nat -> nat, n: nat) { forall d | 0 <= d < n :: f(d) == g(d) }

  function Unit(d: nat): nat { if d < 1 then 1 else 0 }

  /** At degree d f is not above g, and below it at degree 0. */
  predicate LessAt(f: nat -> nat, g: nat -> nat, d: nat) { f(d) + Unit(d) <= g(d) }

  lemma {:induction false} Smaller(f: nat -> nat, g: nat -> nat, n: nat)
    requires n > 0 && forall d: nat :: LessAt(f, g, d)
    ensures Below(f, g, n)
    decreases n
  {
    assert LessAt(f, g, n - 1);
    if n > 1 { Smaller(f, g, n - 1); }
  }

  lemma {:induction false} SmallerAt(f: nat -> nat, g: nat -> nat, n: nat, k: nat)
    requires k < n && f(k) < g(k) && forall d | k < d < n :: f(d) <= g(d)
    ensures Below(f, g, n)
    decreases n
  {
    if k < n - 1 { SmallerAt(f, g, n - 1, k); }
  }

  /** f' is to g' at degree d as f is to g. */
  predicate SameGap(f: nat -> nat, g: nat -> nat, f': nat -> nat, g': nat -> nat, d: nat) {
    f'(d) + g(d) == g'(d) + f(d)
  }

  /** Adding the same to both sides. */
  lemma {:induction false} Plus(f: nat -> nat, g: nat -> nat, f': nat -> nat, g': nat -> nat, n: nat)
    requires Below(f, g, n) && forall d: nat :: SameGap(f, g, f', g', d)
    ensures Below(f', g', n)
    decreases n
  {
    assert SameGap(f, g, f', g', n - 1);
    if f(n - 1) == g(n - 1) { Plus(f, g, f', g', n - 1); }
  }

  // ---- No infinite descent ----

  ghost predicate Descends(r: nat -> nat -> nat, moves: nat -> bool, n: nat) {
    forall k: nat :: DescendsAt(r, moves, n, k)
  }

  predicate DescendsAt(r: nat -> nat -> nat, moves: nat -> bool, n: nat, k: nat) {
    if moves(k) then Below(r(k + 1), r(k), n) else Same(r(k + 1), r(k), n)
  }

  ghost predicate Endless(moves: nat -> bool) { forall k: nat :: MovesAfter(moves, k) }

  ghost predicate MovesAfter(moves: nat -> bool, k: nat) { exists j: nat :: j >= k && moves(j) }

  lemma {:induction false} TopFalls(r: nat -> nat -> nat, moves: nat -> bool, n: nat, a: nat, b: nat)
    requires n > 0 && Descends(r, moves, n) && a <= b
    ensures r(b)(n - 1) <= r(a)(n - 1)
    decreases b - a
  {
    if a < b {
      TopFalls(r, moves, n, a, b - 1);
      assert DescendsAt(r, moves, n, b - 1);
    }
  }

  lemma {:induction false} TopSettles(r: nat -> nat -> nat, moves: nat -> bool, n: nat, a: nat) returns (m: nat)
    requires n > 0 && Descends(r, moves, n)
    ensures forall k: nat | k >= m :: r(k)(n - 1) == r(m)(n - 1)
    decreases r(a)(n - 1)
  {
    if k: nat :| k >= a && r(k)(n - 1) != r(a)(n - 1) {
      TopFalls(r, moves, n, a, k);
      m := TopSettles(r, moves, n, k);
    } else { m := a; }
  }

  lemma {:induction false} NoDescent(r: nat -> nat -> nat, moves: nat -> bool, n: nat)
    requires Descends(r, moves, n)
    ensures !Endless(moves)
    decreases n
  {
    if n == 0 {
      forall k: nat ensures !moves(k) { assert DescendsAt(r, moves, 0, k); }
      assert !MovesAfter(moves, 0);
    } else {
      var m := TopSettles(r, moves, n, 0);
      var r', moves', low := (k: nat) => r(k + m), (k: nat) => moves(k + m), n - 1;
      forall k: nat ensures DescendsAt(r', moves', low, k) {
        assert DescendsAt(r, moves, n, k + m);
        assert r'(k + 1) == r(k + m + 1) && r'(k) == r(k + m);
      }
      if Endless(moves) {
        forall k: nat ensures MovesAfter(moves', k) {
          assert MovesAfter(moves, k + m);
          var j: nat :| j >= k + m && moves(j);
          assert moves'(j - m);
        }
      }
      NoDescent(r', moves', low);
    }
  }

  // ---- The measure ----

  function Max(a: nat, b: nat): nat { if a < b then b else a }

  /** How deep iterations nest. */
  function Nest(s: Step): nat
    decreases s, 0
  {
    match s.node
    case If(_, thn, els) => Max(NestOf(thn), NestOf(els))
    case Foreach(_, _, body) => 1 + NestOf(body)
    case Parallel(branches) => NestIn(branches)
    case _ => 0
  }

  function NestOf(steps: seq<Step>): nat
    decreases steps, 0
  {
    if |steps| < 1 then 0 else Max(Nest(steps[0]), NestOf(steps[1..]))
  }

  function NestIn(branches: seq<Block>): nat
    decreases branches, 0
  {
    if |branches| < 1 then 0 else Max(NestOf(branches[0].steps), NestIn(branches[1..]))
  }

  /** The constant n, as a coefficient of degree d. */
  function Const(n: nat, d: nat): nat { if d < 1 then n else 0 }

  /** The coefficient of degree d of a step that is about to be entered: an iteration is
      above any multiple of its body. */
  function StepRank(s: Step, d: nat): nat
    decreases s, 0
  {
    match s.node
    case Tool(_, args, _) => Const(|args|, d) + 5 * Unit(d)
    case Assign(bindings) => Const(2 * |bindings|, d) + 2 * Unit(d)
    case Wait(_) => 3 * Unit(d)
    case If(_, thn, els) => StepsRank(thn, d) + StepsRank(els, d) + Unit(d)
    case Foreach(_, _, body) => if d == NestOf(body) + 1 then 1 else 0
    case Parallel(branches) => BranchesRank(branches, 0, d) + 3 * Unit(d)
  }

  function StepsRank(steps: seq<Step>, d: nat): nat
    decreases steps, 0
  {
    if |steps| < 1 then Unit(d) else StepRank(steps[0], d) + StepsRank(steps[1..], d) + 2 * Unit(d)
  }

  function BranchesRank(branches: seq<Block>, i: nat, d: nat): nat
    requires i <= |branches|
    decreases branches, |branches| - i
  {
    if i >= |branches| then 0 else StepsRank(branches[i].steps, d) + BranchesRank(branches, i + 1, d)
  }

  function LoopRank(n: nat, body: seq<Step>, d: nat): nat {
    if n > 0 then StepsRank(body, d) + 4 * Unit(d) + LoopRank(n - 1, body, d) else Unit(d)
  }

  lemma {:induction false} LoopDegree(n: nat, body: seq<Step>, d: nat)
    requires d > 0 && StepsRank(body, d) == 0
    ensures LoopRank(n, body, d) == 0
    decreases n
  {
    if n > 0 { LoopDegree(n - 1, body, d); }
  }

  function RankAt(p: Proc, d: nat): nat
    decreases p, 0
  {
    match p
    case Ret(err) => if err.Some? then Unit(d) else 0
    case Todo(steps) => StepsRank(steps, d)
    case Then(cur, rest) => RankAt(cur, d) + StepsRank(rest, d) + Unit(d)
    case Enter(s) => StepRank(s, d)
    case Args(_, pending, _) => Const(|pending|, d) + 4 * Unit(d)
    case Call(_, _) => 3 * Unit(d)
    case Write(_, _, next) => RankAt(next, d) + Unit(d)
    case Bind(_, pending) => Const(2 * |pending|, d) + Unit(d)
    case Sleep(_) => 2 * Unit(d)
    case Loop(_, items, body) => LoopRank(|items|, body, d)
    case Iter(cur, _, items, body) => RankAt(cur, d) + LoopRank(|items|, body, d) + Unit(d)
    case Par(bs, _) => RanksAt(bs, 0, d) + 2 * Unit(d)
  }

  /** The branches from i on. */
  function RanksAt(bs: seq<Proc>, i: nat, d: nat): nat
    requires i <= |bs|
    decreases bs, |bs| - i
  {
    if i >= |bs| then 0 else RankAt(bs[i], d) + RanksAt(bs, i + 1, d)
  }

  function Rank(p: Proc): nat -> nat { d => RankAt(p, d) }

  /** The iterations still to come nest less deep than n. */
  predicate Fits(p: Proc, n: nat) {
    match p
    case Todo(steps) => NestOf(steps) < n
    case Then(cur, rest) => Fits(cur, n) && NestOf(rest) < n
    case Enter(s) => Nest(s) < n
    case Write(_, _, next) => Fits(next, n)
    case Loop(_, _, body) => NestOf(body) + 1 < n
    case Iter(cur, _, _, body) => Fits(cur, n) && NestOf(body) + 1 < n
    case Par(bs, _) => forall i | 0 <= i < |bs| :: Fits(bs[i], n)
    case _ => n > 0
  }

  /** Nothing has a degree above its nesting. */
  lemma {:induction false} StepDegree(s: Step, d: nat)
    requires d > Nest(s)
    ensures StepRank(s, d) == 0
    decreases s, 0
  {
    match s.node
    case If(_, thn, els) => StepsDegree(thn, d); StepsDegree(els, d);
    case Parallel(branches) => BranchesDegree(branches, 0, d);
    case _ =>
  }

  lemma {:induction false} StepsDegree(steps: seq<Step>, d: nat)
    requires d > NestOf(steps)
    ensures StepsRank(steps, d) == 0
    decreases steps, 0
  {
    if steps != [] {
      StepDegree(steps[0], d);
      StepsDegree(steps[1..], d);
    }
  }

  lemma {:induction false} BranchesDegree(branches: seq<Block>, i: nat, d: nat)
    requires i <= |branches| && d > NestIn(branches)
    ensures BranchesRank(branches, i, d) == 0
    decreases branches, |branches| - i
  {
    if i < |branches| {
      SpawnFits(branches, i);
      StepsDegree(branches[i].steps, d);
      BranchesDegree(branches, i + 1, d);
    }
  }

  lemma RanksSplit(bs: seq<Proc>, k: nat, d: nat)
    requires k < |bs|
    ensures RanksAt(bs, k, d) == RankAt(bs[k], d) + RanksAt(bs, k + 1, d)
  {
  }

  lemma {:induction false} RanksReplaced(bs: seq<Proc>, i: nat, q: Proc, k: nat, d: nat)
    requires k <= |bs| && i < |bs|
    ensures RanksAt(bs[i := q], k, d) + (if k <= i then RankAt(bs[i], d) else 0)
      == RanksAt(bs, k, d) + (if k <= i then RankAt(q, d) else 0)
    decreases |bs| - k
  {
    if k < |bs| {
      RanksReplaced(bs, i, q, k + 1, d);
      RanksSplit(bs, k, d);
      RanksSplit(bs[i := q], k, d);
    }
  }

  lemma {:induction false} SpawnRank(branches: seq<Block>, bs: seq<Proc>, k: nat, d: nat)
    requires |bs| == |branches| && (forall i | 0 <= i < |bs| :: bs[i] == Todo(branches[i].steps)) && k <= |bs|
    ensures RanksAt(bs, k, d) == BranchesRank(branches, k, d)
    decreases |bs| - k
  {
    if k < |bs| {
      SpawnRank(branches, bs, k + 1, d);
      assert RankAt(Todo(branches[k].steps), d) == StepsRank(branches[k].steps, d);
    }
  }

  lemma {:induction false} SpawnFits(branches: seq<Block>, i: nat)
    requires i < |branches|
    ensures NestOf(branches[i].steps) <= NestIn(branches)
    decreases i
  {
    if i > 0 { SpawnFits(branches[1..], i - 1); }
  }

  /** q is below p at degree d: strictly at degree 0. */
  predicate Lower(q: Proc, p: Proc, d: nat) { RankAt(q, d) + Unit(d) <= RankAt(p, d) }

  /** At every degree, so also in all. */
  ghost predicate Sinks(q: Proc, p: Proc) { forall d: nat :: Lower(q, p, d) }

  lemma SinksBelow(q: Proc, p: Proc, n: nat)
    requires n > 0 && Sinks(q, p)
    ensures Below(Rank(q), Rank(p), n)
  {
    forall d: nat ensures LessAt(Rank(q), Rank(p), d) { LowerIs(q, p, d); }
    Smaller(Rank(q), Rank(p), n);
  }

  lemma LowerIs(q: Proc, p: Proc, d: nat)
    requires Sinks(q, p)
    ensures LessAt(Rank(q), Rank(p), d)
  {
    assert Lower(q, p, d);
  }

  // ---- What each move does to the measure ----

  lemma LeafLower(s: Step, q: Proc, d: nat)
    requires match s.node
      case Tool(_, args, _) => q == Args(s, args, map[])
      case Assign(bindings) => q == Bind(s, bindings)
      case Wait(_) => q == Sleep(s)
      case _ => false
    ensures Lower(q, Enter(s), d)
  {
  }

  lemma IfLower(s: Step, q: Proc, d: nat)
    requires s.node.If? && (q == Todo(s.node.thn) || q == Todo(s.node.els) || (q.Ret? && q.err.Some?))
    ensures Lower(q, Enter(s), d)
  {
    Positive(s.node.thn);
  }

  lemma Positive(steps: seq<Step>)
    ensures StepsRank(steps, 0) >= 1
  {
  }

  lemma SpawnLower(s: Step, q: Proc, d: nat)
    requires s.node.Parallel? && q.Par? && |q.branches| == |s.node.branches|
    requires forall i | 0 <= i < |q.branches| :: q.branches[i] == Todo(s.node.branches[i].steps)
    ensures Lower(q, Enter(s), d)
  {
    SpawnRank(s.node.branches, q.branches, 0, d);
  }

  lemma CapLower(s: Step, q: Proc, d: nat)
    requires IsLeaf(s) && q.Ret?
    ensures Lower(q, Enter(s), d)
  {
  }

  lemma TodoLower(steps: seq<Step>, q: Proc, d: nat)
    requires if steps == [] then q == Ret(None)
      else q == Ret(Some(Cancelled)) || q == Then(Enter(steps[0]), steps[1..])
    ensures Lower(q, Todo(steps), d)
  {
  }

  lemma LeaveLower(p: Proc, q: Proc, d: nat)
    requires (p.Then? || p.Iter?) && p.cur.Ret?
    requires q == if p.cur.err.Some? then p.cur else if p.Then? then Todo(p.rest) else Loop(p.item, p.items, p.body)
    ensures Lower(q, p, d)
  {
  }

  lemma LoopLower(p: Proc, q: Proc, d: nat)
    requires p.Loop?
    requires if p.items == [] then q == Ret(None)
      else
        || q == Ret(Some(Cancelled))
        || q == Iter(Write(Var(p.item), Val(p.items[0]), Todo(p.body)), p.item, p.items[1..], p.body)
    ensures Lower(q, p, d)
  {
    if q.Iter? { assert RankAt(q.cur, d) == RankAt(q.cur.next, d) + Unit(d); }
  }

  lemma OneFewer(m: map<string, Template>, k: string)
    requires k in m
    ensures |m - {k}| == |m| - 1
  {
    assert (m - {k}).Keys == m.Keys - {k};
  }

  /** Inside one leaf step. */
  lemma PhaseLower(env: Env, done: bool, room: bool, cells: Cells, p: Proc, c: Choice, m: Move, d: nat)
    requires (p.Args? || p.Call? || p.Bind? || p.Sleep?) && Advance(env, done, room, cells, p, c) == Some(m)
    ensures Lower(m.next, p, d)
  {
    match p
    case Args(s, pending, got) => ArgsLower(env, done, room, cells, s, pending, got, c, m, d);
    case Bind(s, pending) => BindLower(env, done, room, cells, s, pending, c, m, d);
    case _ => if m.next.Write? { WriteRank(m.next, d); }
  }

  lemma WriteRank(p: Proc, d: nat)
    requires p.Write?
    ensures RankAt(p, d) == RankAt(p.next, d) + Unit(d)
  {
  }

  lemma ArgsLower(env: Env, done: bool, room: bool, cells: Cells, s: Step, pending: map<string, Template>,
                  got: map<string, Value>, c: Choice, m: Move, d: nat)
    requires Advance(env, done, room, cells, Args(s, pending, got), c) == Some(m)
    ensures Lower(m.next, Args(s, pending, got), d)
  {
    if m.next.Args? { OneFewer(pending, c.key); }
    if m.next.Write? { RecordRank(m.next, d); }
  }

  /** A write after which the goroutine returns. */
  lemma RecordRank(p: Proc, d: nat)
    requires p.Write? && p.next.Ret?
    ensures RankAt(p, d) <= 2 * Unit(d)
  {
  }

  lemma BindLower(env: Env, done: bool, room: bool, cells: Cells, s: Step, pending: map<string, Template>, c: Choice,
                  m: Move, d: nat)
    requires Advance(env, done, room, cells, Bind(s, pending), c) == Some(m)
    ensures Lower(m.next, Bind(s, pending), d)
  {
    if c.key in pending { OneFewer(pending, c.key); }
    if m.next.Write? { WriteRank(m.next, d); }
  }

  /** The moves a goroutine makes itself, but for a step that is dispatched. */
  lemma ActLower(env: Env, done: bool, room: bool, cells: Cells, p: Proc, c: Choice, m: Move, d: nat)
    requires !p.Par? && ((p.Then? || p.Iter?) ==> p.cur.Ret?) && (p.Enter? ==> !room && IsLeaf(p.s))
    requires Advance(env, done, room, cells, p, c) == Some(m)
    ensures Lower(m.next, p, d)
  {
    match p
    case Enter(s) => CapLower(s, m.next, d);
    case Loop(_, _, _) => LoopLower(p, m.next, d);
    case Then(_, _) => LeaveLower(p, m.next, d);
    case Iter(_, _, _, _) => LeaveLower(p, m.next, d);
    case Todo(steps) => TodoLower(steps, m.next, d);
    case Write(_, _, _) =>
    case Ret(_) =>
    case _ => PhaseLower(env, done, room, cells, p, c, m, d);
  }

  lemma ActFits(env: Env, done: bool, room: bool, cells: Cells, p: Proc, c: Choice, m: Move, n: nat)
    requires !p.Par? && ((p.Then? || p.Iter?) ==> p.cur.Ret?) && (p.Enter? ==> !room && IsLeaf(p.s))
    requires n > 0 && Fits(p, n) && Advance(env, done, room, cells, p, c) == Some(m)
    ensures Fits(m.next, n)
  {
    if m.next.Write? { assert Fits(m.next.next, n); }
    if m.next.Then? { assert Fits(m.next.cur, n); }
    if p.Loop? && m.next.Iter? { assert Fits(m.next.cur.next, n); }
  }

  lemma GroupLower(p: Proc, q: Proc, i: nat, d: nat)
    requires p.Par?
    requires q.Ret? || (q.Par? && i < |p.branches| && p.branches[i].Ret? && p.branches[i].err.Some?
                        && q.branches == p.branches[i := Ret(None)])
    ensures Lower(q, p, d)
  {
    if q.Par? {
      RanksReplaced(p.branches, i, Ret(None), 0, d);
    }
  }

  lemma DispatchSinks(env: Env, cells: Cells, s: Step, n: nat)
    requires Nest(s) < n
    ensures var q := Dispatch(env, cells, s).next; Below(Rank(q), Rank(Enter(s)), n) && Fits(q, n)
  {
    var q := Dispatch(env, cells, s).next;
    match s.node
    case Foreach(_, _, body) => ForeachSinks(s, q, n);
    case Parallel(branches) =>
      forall i | 0 <= i < |q.branches| ensures Fits(q.branches[i], n) { SpawnFits(branches, i); }
      forall d: nat ensures Lower(q, Enter(s), d) { SpawnLower(s, q, d); }
      SinksBelow(q, Enter(s), n);
    case If(_, _, _) =>
      forall d: nat ensures Lower(q, Enter(s), d) { IfLower(s, q, d); }
      SinksBelow(q, Enter(s), n);
    case _ =>
      forall d: nat ensures Lower(q, Enter(s), d) { LeafLower(s, q, d); }
      SinksBelow(q, Enter(s), n);
  }

  lemma ForeachSinks(s: Step, q: Proc, n: nat)
    requires s.node.Foreach? && Nest(s) < n
    requires (q.Loop? && q.body == s.node.body) || (q.Ret? && q.err.Some?)
    ensures Below(Rank(q), Rank(Enter(s)), n) && Fits(q, n)
  {
    var k := NestOf(s.node.body) + 1;
    forall d | k <= d < n ensures Rank(q)(d) == 0 {
      StepsDegree(s.node.body, d);
      if q.Loop? { LoopDegree(|q.items|, q.body, d); }
    }
    forall d | k <= d < n ensures Rank(Enter(s))(d) == if d == k then 1 else 0 { }
    SmallerAt(Rank(q), Rank(Enter(s)), n, k);
  }

  lemma ActSinks(env: Env, done: bool, room: bool, cells: Cells, p: Proc, c: Choice, m: Move, n: nat)
    requires !p.Par? && ((p.Then? || p.Iter?) ==> p.cur.Ret?) && n > 0
    requires Fits(p, n) && Advance(env, done, room, cells, p, c) == Some(m)
    ensures Below(Rank(m.next), Rank(p), n) && Fits(m.next, n)
  {
    if p.Enter? && (room || !IsLeaf(p.s)) { DispatchSinks(env, cells, p.s, n); }
    else {
      forall d: nat ensures Lower(m.next, p, d) { ActLower(env, done, room, cells, p, c, m, d); }
      ActFits(env, done, room, cells, p, c, m, n);
      SinksBelow(m.next, p, n);
    }
  }

  lemma GroupSinks(env: Env, done: bool, room: bool, cells: Cells, p: Proc, c: Choice, m: Move, n: nat)
    requires p.Par? && !c.Branch? && n > 0 && Fits(p, n) && Advance(env, done, room, cells, p, c) == Some(m)
    ensures Below(Rank(m.next), Rank(p), n) && Fits(m.next, n)
  {
    var i := if c.Collect? then c.i else 0;
    forall d: nat ensures Lower(m.next, p, d) { GroupLower(p, m.next, i, d); }
    SinksBelow(m.next, p, n);
  }

  // ---- Moves inside a goroutine tree ----

  lemma BranchSinks(bs: seq<Proc>, first: Option<Err>, i: nat, q: Proc, n: nat)
    requires i < |bs| && Below(Rank(q), Rank(bs[i]), n)
    ensures Below(Rank(Par(bs[i := q], first)), Rank(Par(bs, first)), n)
  {
    var p, p' := Par(bs, first), Par(bs[i := q], first);
    forall d: nat ensures SameGap(Rank(q), Rank(bs[i]), Rank(p'), Rank(p), d) { BranchGap(bs, first, i, q, d); }
    Plus(Rank(q), Rank(bs[i]), Rank(p'), Rank(p), n);
  }

  lemma BranchGap(bs: seq<Proc>, first: Option<Err>, i: nat, q: Proc, d: nat)
    requires i < |bs|
    ensures SameGap(Rank(q), Rank(bs[i]), Rank(Par(bs[i := q], first)), Rank(Par(bs, first)), d)
  {
    RanksReplaced(bs, i, q, 0, d);
  }

  lemma InnerSinks(p: Proc, p': Proc, n: nat)
    requires (p.Then? && p'.Then? && p'.rest == p.rest)
      || (p.Iter? && p'.Iter? && p'.items == p.items && p'.body == p.body)
    requires Below(Rank(p'.cur), Rank(p.cur), n)
    ensures Below(Rank(p'), Rank(p), n)
  {
    forall d: nat ensures SameGap(Rank(p'.cur), Rank(p.cur), Rank(p'), Rank(p), d) { InnerGap(p, p', d); }
    Plus(Rank(p'.cur), Rank(p.cur), Rank(p'), Rank(p), n);
  }

  lemma InnerGap(p: Proc, p': Proc, d: nat)
    requires (p.Then? && p'.Then? && p'.rest == p.rest)
      || (p.Iter? && p'.Iter? && p'.items == p.items && p'.body == p.body)
    ensures SameGap(Rank(p'.cur), Rank(p.cur), Rank(p'), Rank(p), d)
  {
    if p.Then? { }
  }

  /** Every move sinks. */
  lemma {:induction false} MoveSinks(env: Env, done: bool, room: bool, cells: Cells, p: Proc, c: Choice, m: Move,
                                     n: nat)
    requires n > 0 && Fits(p, n) && Advance(env, done, room, cells, p, c) == Some(m)
    ensures Below(Rank(m.next), Rank(p), n) && Fits(m.next, n)
    decreases p
  {
    if (p.Then? || p.Iter?) && !p.cur.Ret? {
      MoveSinks(env, done, room, cells, p.cur, c, Advance(env, done, room, cells, p.cur, c).value, n);
      InnerSinks(p, m.next, n);
    } else if p.Par? && c.Branch? {
      var done', q := done || p.first.Some?, p.branches[c.i];
      var m' := Advance(env, done', room, cells, q, c.sub).value;
      assert m.next == Par(p.branches[c.i := m'.next], p.first);
      MoveSinks(env, done', room, cells, q, c.sub, m', n);
      BranchSinks(p.branches, p.first, c.i, m'.next, n);
    } else if p.Par? {
      GroupSinks(env, done, room, cells, p, c, m, n);
    } else {
      ActSinks(env, done, room, cells, p, c, m, n);
    }
  }

  // ---- Schedules ----

  /** The run after the first n events. */
  function After(env: Env, g: Config, f: nat -> Event, n: nat): Option<Config> {
    if n == 0 then Some(g)
    else
      match After(env, g, f, n - 1)
      case None => None
      case Some(g') => Next(env, g', f(n - 1))
  }

  lemma {:induction false} StaysFitting(env: Env, g: Config, f: nat -> Event, n: nat, k: nat)
    requires n > 0 && Fits(g.proc, n) && After(env, g, f, k).Some?
    ensures Fits(After(env, g, f, k).value.proc, n)
    decreases k
  {
    if k > 0 {
      StaysFitting(env, g, f, n, k - 1);
      var g' := After(env, g, f, k - 1).value;
      if f(k - 1).Moves? {
        var room, c := g'.count < env.maxSteps, f(k - 1).c;
        MoveSinks(env, g'.ended, room, g'.cells, g'.proc, c,
                  Advance(env, g'.ended, room, g'.cells, g'.proc, c).value, n);
      }
    }
  }

  ghost predicate EndsBy(env: Env, g: Config, f: nat -> Event, n: nat) {
    After(env, g, f, n).None? || forall k: nat | k >= n :: f(k).CallerEnds?
  }

  /** Every schedule makes finitely many moves: at some point the next event is not enabled,
      or nothing but the end of the caller's context is repeated from there on. */
  lemma EveryScheduleEnds(env: Env, steps: seq<Step>, f: nat -> Event)
    ensures exists n: nat :: EndsBy(env, Start(steps), f, n)
  {
    var g, n := Start(steps), NestOf(steps) + 1;
    if forall k: nat :: !EndsBy(env, g, f, k) {
      var r := (k: nat) => if After(env, g, f, k).Some? then Rank(After(env, g, f, k).value.proc) else Rank(g.proc);
      var moves := (k: nat) => f(k).Moves?;
      forall k: nat ensures DescendsAt(r, moves, n, k) {
        assert !EndsBy(env, g, f, k) && !EndsBy(env, g, f, k + 1);
        StaysFitting(env, g, f, n, k);
        var g' := After(env, g, f, k).value;
        if f(k).Moves? {
          var room, c := g'.count < env.maxSteps, f(k).c;
          MoveSinks(env, g'.ended, room, g'.cells, g'.proc, c,
                    Advance(env, g'.ended, room, g'.cells, g'.proc, c).value, n);
        }
      }
      forall k: nat ensures MovesAfter(moves, k) {
        assert !EndsBy(env, g, f, k);
        var j: nat :| j >= k && !f(j).CallerEnds?;
        assert moves(j);
      }
      NoDescent(r, moves, n);
    }
  }

  lemma {:induction false} ShapeStays(env: Env, g: Config, schedule: seq<Event>)
    requires WellShaped(g.proc) && Run(env, g, schedule).Some?
    ensures WellShaped(Run(env, g, schedule).value.proc)
    decreases |schedule|
  {
    if schedule != [] {
      if schedule[0].Moves? { StaysWellShaped(env, g.ended, g.count < env.maxSteps, g.cells, g.proc, schedule[0].c); }
      ShapeStays(env, Next(env, g, schedule[0]).value, schedule[1..]);
    }
  }

  /** And a run in which no move is left has returned: no schedule deadlocks. */
  lemma StuckHasReturned(env: Env, steps: seq<Step>, schedule: seq<Event>)
    requires Run(env, Start(steps), schedule).Some?
    ensures var g := Run(env, Start(steps), schedule).value;
      g.proc.Ret? <==> forall c :: Next(env, g, Moves(c)).None?
  {
    ShapeStays(env, Start(steps), schedule);
    var g := Run(env, Start(steps), schedule).value;
    if !g.proc.Ret? {
      NeverStuck(env, g.ended, g.count < env.maxSteps, g.cells, g.proc);
      var c :| Advance(env, g.ended, g.count < env.maxSteps, g.cells, g.proc, c).Some?;
      assert Next(env, g, Moves(c)).Some?;
    }
  }
}
