/** One goroutine driven while its context stays as it is: which states the machine can
    take it to. The imperative engine is proved against these. */
module Driving {
  import opened Workflow
  import opened Machine

  datatype State = State(cells: Cells, count: nat)

  function Drive(env: Env, done: bool, s: State, p: Proc, cs: seq<Choice>): Option<(Proc, State)>
    decreases |cs|
  {
    if |cs| == 0 then Some((p, s))
    else
      match Advance(env, done, s.count < env.maxSteps, s.cells, p, cs[0])
      case None => None
      case Some(m) => Drive(env, done, After(s, m), m.next, cs[1..])
  }

  function After(s: State, m: Move): State {
    State(if m.write == map[] then s.cells else s.cells + m.write, if m.tick then s.count + 1 else s.count)
  }

  ghost predicate Drives(env: Env, done: bool, p: Proc, s: State, p': Proc, s': State) {
    exists cs :: Drive(env, done, s, p, cs) == Some((p', s'))
  }

  lemma DrivesSelf(env: Env, done: bool, p: Proc, s: State)
    ensures Drives(env, done, p, s, p, s)
  {
    assert Drive(env, done, s, p, []) == Some((p, s));
  }

  lemma DrivesMove(env: Env, done: bool, p: Proc, s: State, c: Choice, m: Move)
    requires Advance(env, done, s.count < env.maxSteps, s.cells, p, c) == Some(m)
    ensures Drives(env, done, p, s, m.next, After(s, m))
  {
    assert Drive(env, done, s, p, [c]) == Some((m.next, After(s, m))) by { assert [c][1..] == []; }
  }

  /** The first move of a drive. */
  lemma DriveFirst(env: Env, done: bool, s: State, p: Proc, cs: seq<Choice>) returns (m: Move)
    requires |cs| > 0 && Drive(env, done, s, p, cs).Some?
    ensures Advance(env, done, s.count < env.maxSteps, s.cells, p, cs[0]) == Some(m)
    ensures Drive(env, done, After(s, m), m.next, cs[1..]) == Drive(env, done, s, p, cs)
  {
    m := Advance(env, done, s.count < env.maxSteps, s.cells, p, cs[0]).value;
  }

  lemma DriveFrom(env: Env, done: bool, s: State, p: Proc, c: Choice, cs: seq<Choice>, m: Move)
    requires Advance(env, done, s.count < env.maxSteps, s.cells, p, c) == Some(m)
    ensures Drive(env, done, s, p, [c] + cs) == Drive(env, done, After(s, m), m.next, cs)
  {
    assert ([c] + cs)[1..] == cs;
  }

  /** Driven on from where a drive led. */
  function OnFrom(env: Env, done: bool, at: Option<(Proc, State)>, cs: seq<Choice>): Option<(Proc, State)> {
    match at
    case None => None
    case Some((p, s)) => Drive(env, done, s, p, cs)
  }

  ghost predicate Concats(env: Env, done: bool, s: State, p: Proc, a: seq<Choice>, b: seq<Choice>) {
    Drive(env, done, s, p, a + b) == OnFrom(env, done, Drive(env, done, s, p, a), b)
  }

  lemma ConcatsFirst(env: Env, done: bool, s: State, p: Proc, c: Choice, a: seq<Choice>, b: seq<Choice>, m: Move)
    requires Advance(env, done, s.count < env.maxSteps, s.cells, p, c) == Some(m)
    requires Concats(env, done, After(s, m), m.next, a, b)
    ensures Concats(env, done, s, p, [c] + a, b)
  {
    DriveFrom(env, done, s, p, c, a, m);
    DriveFrom(env, done, s, p, c, a + b, m);
    assert [c] + a + b == [c] + (a + b);
  }

  lemma {:induction false} DriveConcat(env: Env, done: bool, s: State, p: Proc, a: seq<Choice>, b: seq<Choice>)
    requires Drive(env, done, s, p, a).Some?
    ensures Concats(env, done, s, p, a, b)
    decreases |a|
  {
    if |a| == 0 { assert a + b == b; }
    else {
      var m := DriveFirst(env, done, s, p, a);
      DriveConcat(env, done, After(s, m), m.next, a[1..], b);
      ConcatsFirst(env, done, s, p, a[0], a[1..], b, m);
      assert a == [a[0]] + a[1..];
    }
  }

  lemma DrivesOn(env: Env, done: bool, p: Proc, s: State, p': Proc, s': State, p'': Proc, s'': State)
    requires Drives(env, done, p, s, p', s') && Drives(env, done, p', s', p'', s'')
    ensures Drives(env, done, p, s, p'', s'')
  {
    var a :| Drive(env, done, s, p, a) == Some((p', s'));
    var b :| Drive(env, done, s', p', b) == Some((p'', s''));
    DriveConcat(env, done, s, p, a, b);
  }

  /** First driven somewhere, then one move. */
  lemma DrivesOnMove(env: Env, done: bool, p: Proc, s: State, p': Proc, s': State, c: Choice, m: Move)
    requires Drives(env, done, p, s, p', s')
    requires Advance(env, done, s'.count < env.maxSteps, s'.cells, p', c) == Some(m)
    ensures Drives(env, done, p, s, m.next, After(s', m))
  {
    DrivesMove(env, done, p', s', c, m);
    DrivesOn(env, done, p, s, p', s', m.next, After(s', m));
  }

  lemma DrivesWrite(env: Env, done: bool, p: Proc, s: State, loc: Loc, cell: Cell, next: Proc, s': State)
    requires Drives(env, done, p, s, Write(loc, cell, next), s')
    ensures Drives(env, done, p, s, next, State(s'.cells[loc := cell], s'.count))
  {
    var m := Quiet(next).(write := map[loc := cell]);
    DrivesOnMove(env, done, p, s, Write(loc, cell, next), s', Act("", false), m);
    assert m.write != map[] by { assert loc in m.write; }
    assert s'.cells + m.write == s'.cells[loc := cell];
  }

  lemma {:induction false} DriveThen(env: Env, done: bool, s: State, p: Proc, rest: seq<Step>, cs: seq<Choice>)
    requires Drive(env, done, s, p, cs).Some?
    ensures var (p', s') := Drive(env, done, s, p, cs).value;
      Drive(env, done, s, Then(p, rest), cs) == Some((Then(p', rest), s'))
    decreases |cs|
  {
    if |cs| > 0 {
      var m := DriveFirst(env, done, s, p, cs);
      DriveThen(env, done, After(s, m), m.next, rest, cs[1..]);
      ThenFirst(env, done, s, p, rest, cs, m);
    }
  }

  lemma ThenFirst(env: Env, done: bool, s: State, p: Proc, rest: seq<Step>, cs: seq<Choice>, m: Move)
    requires |cs| > 0 && Advance(env, done, s.count < env.maxSteps, s.cells, p, cs[0]) == Some(m)
    ensures Drive(env, done, s, Then(p, rest), cs) == Drive(env, done, After(s, m), Then(m.next, rest), cs[1..])
  {
    assert After(s, m.(next := Then(m.next, rest))) == After(s, m);
  }

  lemma DrivesThen(env: Env, done: bool, p: Proc, s: State, p': Proc, s': State, rest: seq<Step>)
    requires Drives(env, done, p, s, p', s')
    ensures Drives(env, done, Then(p, rest), s, Then(p', rest), s')
  {
    var cs :| Drive(env, done, s, p, cs) == Some((p', s'));
    DriveThen(env, done, s, p, rest, cs);
  }

  lemma {:induction false} DriveIter(env: Env, done: bool, s: State, p: Proc, item: string, items: seq<Value>,
                                     body: seq<Step>, cs: seq<Choice>)
    requires Drive(env, done, s, p, cs).Some?
    ensures var (p', s') := Drive(env, done, s, p, cs).value;
      Drive(env, done, s, Iter(p, item, items, body), cs) == Some((Iter(p', item, items, body), s'))
    decreases |cs|
  {
    if |cs| > 0 {
      var m := DriveFirst(env, done, s, p, cs);
      DriveIter(env, done, After(s, m), m.next, item, items, body, cs[1..]);
      IterFirst(env, done, s, p, item, items, body, cs, m);
    }
  }

  lemma IterFirst(env: Env, done: bool, s: State, p: Proc, item: string, items: seq<Value>, body: seq<Step>,
                  cs: seq<Choice>, m: Move)
    requires |cs| > 0 && Advance(env, done, s.count < env.maxSteps, s.cells, p, cs[0]) == Some(m)
    ensures Drive(env, done, s, Iter(p, item, items, body), cs)
      == Drive(env, done, After(s, m), Iter(m.next, item, items, body), cs[1..])
  {
    assert After(s, m.(next := Iter(m.next, item, items, body))) == After(s, m);
  }

  lemma DrivesIter(env: Env, done: bool, p: Proc, s: State, p': Proc, s': State, item: string, items: seq<Value>,
                   body: seq<Step>)
    requires Drives(env, done, p, s, p', s')
    ensures Drives(env, done, Iter(p, item, items, body), s, Iter(p', item, items, body), s')
  {
    var cs :| Drive(env, done, s, p, cs) == Some((p', s'));
    DriveIter(env, done, s, p, item, items, body, cs);
  }

  /** The choices of branch i. */
  function OfBranch(i: nat, cs: seq<Choice>): seq<Choice> {
    seq(|cs|, k requires 0 <= k < |cs| => Branch(i, cs[k]))
  }

  lemma {:induction false} DriveBranch(env: Env, done: bool, s: State, bs: seq<Proc>, first: Option<Err>, i: nat,
                                       cs: seq<Choice>, q: Proc, s': State)
    requires i < |bs| && Drive(env, done || first.Some?, s, bs[i], cs) == Some((q, s'))
    ensures Drive(env, done, s, Par(bs, first), OfBranch(i, cs)) == Some((Par(bs[i := q], first), s'))
    decreases |cs|
  {
    if cs == [] { assert bs[i := bs[i]] == bs; }
    else {
      var m := Advance(env, done || first.Some?, s.count < env.maxSteps, s.cells, bs[i], cs[0]).value;
      DriveBranch(env, done, After(s, m), bs[i := m.next], first, i, cs[1..], q, s');
      DriveBranchFirst(env, done, s, bs, first, i, cs, m);
      assert bs[i := m.next][i := q] == bs[i := q];
    }
  }

  lemma DriveBranchFirst(env: Env, done: bool, s: State, bs: seq<Proc>, first: Option<Err>, i: nat,
                         cs: seq<Choice>, m: Move)
    requires i < |bs| && cs != []
    requires Advance(env, done || first.Some?, s.count < env.maxSteps, s.cells, bs[i], cs[0]) == Some(m)
    ensures Drive(env, done, s, Par(bs, first), OfBranch(i, cs))
      == Drive(env, done, After(s, m), Par(bs[i := m.next], first), OfBranch(i, cs[1..]))
  {
    assert OfBranch(i, cs)[1..] == OfBranch(i, cs[1..]) && OfBranch(i, cs)[0] == Branch(i, cs[0]);
  }

  lemma DrivesBranch(env: Env, done: bool, s: State, s': State, bs: seq<Proc>, first: Option<Err>, i: nat, q: Proc)
    requires i < |bs| && Drives(env, done || first.Some?, bs[i], s, q, s')
    ensures Drives(env, done, Par(bs, first), s, Par(bs[i := q], first), s')
  {
    var cs :| Drive(env, done || first.Some?, s, bs[i], cs) == Some((q, s'));
    DriveBranch(env, done, s, bs, first, i, cs, q, s');
  }

  /** The moves of a driven goroutine, as the events of a run. */
  function Events(cs: seq<Choice>): seq<Event> {
    seq(|cs|, k requires 0 <= k < |cs| => Moves(cs[k]))
  }

  lemma {:induction false} DriveIsRun(env: Env, g: Config, cs: seq<Choice>)
    requires Drive(env, g.ended, State(g.cells, g.count), g.proc, cs).Some?
    ensures Run(env, g, Events(cs)).Some?
    ensures var (p, s) := Drive(env, g.ended, State(g.cells, g.count), g.proc, cs).value;
      var g' := Run(env, g, Events(cs)).value;
      g'.proc == p && g'.cells == s.cells && g'.count == s.count && g'.ended == g.ended
    decreases |cs|
  {
    if |cs| > 0 {
      var m := Advance(env, g.ended, g.count < env.maxSteps, g.cells, g.proc, cs[0]).value;
      ApplyIsAfter(env, g, m);
      DriveIsRun(env, Apply(env, g, m), cs[1..]);
      assert Events(cs)[1..] == Events(cs[1..]) && Events(cs)[0] == Moves(cs[0]);
    }
  }

  lemma ApplyIsAfter(env: Env, g: Config, m: Move)
    ensures var g' := Apply(env, g, m); State(g'.cells, g'.count) == After(State(g.cells, g.count), m)
  {
    if m.write == map[] { assert g.cells + m.write == g.cells; }
  }
}
