/** One sandbox: a Create racing any number of Destroys over its row, its container and a
    leased lock. Every call to the database, Redis or Docker is one step, and steps of
    different calls interleave freely. */
module Sandbox {
  import opened Workflow

  datatype Status = Pending | Running | Destroying | Destroyed | Failed

  datatype Session = Session(tenant: nat, status: Status, cid: Option<nat>)

  /** What became of a write: done, applied although an error came back, or refused. */
  datatype Outcome = Done | Lost | Refused

  /** Where Create is, named by what it does next; the numbers are container ids. */
  datatype Creation =
    | NotStarted
    | Inserting(tenant: nat)
    | Creating
    | Starting(c: nat)
    | Recording(c: nat)
    | MarkingFailed
    | Dropping(c: nat)
    | Returned

  datatype Phase = Locking | Waiting | Looking | Marking | Reading | Removing(cid: Option<nat>) | Finishing | Releasing

  /** Each Destroy draws a lock value of its own. */
  datatype Destruction = Destruction(tenant: nat, phase: Phase, token: nat)

  /** `lock` is the value stored under the lock key, `holder` the Destroy that stored it
      (history only). Neither call numbers nor lock values are used twice. */
  datatype State = State(
    row: Option<Session>,
    live: set<nat>,
    create: Creation,
    lock: Option<nat>,
    destroys: map<nat, Destruction>,
    used: set<nat>,
    drawn: set<nat>,
    holder: Option<nat>)

  datatype Event =
    | CallCreate(tenant: nat)
    | InsertRow(out: Outcome)
    | CreateContainer(c: nat, ok: bool)
    | StartContainer(ok: bool)
    | RecordContainer(out: Outcome)
    | MarkFailed(out: Outcome)
    | DropContainer
    | CallDestroy(pid: nat, tenant: nat, token: nat)
    | TryLock(pid: nat, out: Outcome)
    | GiveUp(pid: nat)
    | Look(pid: nat, ok: bool)
    | Mark(pid: nat, out: Outcome)
    | ReadContainer(pid: nat, ok: bool)
    | RemoveContainer(pid: nat)
    | Finish(pid: nat, out: Outcome)
    | Release(pid: nat, ok: bool)
    | Expire

  // ---- Row operations ----

  function Inserted(row: Option<Session>, tenant: nat, out: Outcome): Option<Session> {
    if out.Refused? then row else Some(Session(tenant, Pending, None))
  }

  /** Compare-and-set from pending. */
  function Recorded(row: Option<Session>, c: nat, out: Outcome): Option<Session> {
    if out.Refused? || row.None? || row.value.status != Pending then row
    else Some(row.value.(status := Running, cid := Some(c)))
  }

  function Updated(row: Option<Session>, status: Status, out: Outcome): Option<Session> {
    if out.Refused? || row.None? then row else Some(row.value.(status := status))
  }

  function Found(row: Option<Session>, tenant: nat): Option<Session> {
    if row.Some? && row.value.tenant == tenant then row else None
  }

  // ---- Steps ----

  function At(s: State, pid: nat, phase: Phase): State
    requires pid in s.destroys
  {
    s.(destroys := s.destroys[pid := s.destroys[pid].(phase := phase)])
  }

  function Gone(s: State, pid: nat): State { s.(destroys := s.destroys - {pid}) }

  function Next(s: State, ev: Event): Option<State> {
    match ev
    case CallCreate(t) => if s.create.NotStarted? then Some(s.(create := Inserting(t))) else None
    case InsertRow(out) =>
      if !s.create.Inserting? then None
      else Some(s.(row := Inserted(s.row, s.create.tenant, out), create := if out.Done? then Creating else Returned))
    case CreateContainer(c, ok) =>
      if !s.create.Creating? then None
      else if ok then Some(s.(live := s.live + {c}, create := Starting(c)))
      else Some(s.(create := MarkingFailed))
    case StartContainer(ok) =>
      if !s.create.Starting? then None
      else if ok then Some(s.(create := Recording(s.create.c)))
      else Some(s.(live := s.live - {s.create.c}, create := MarkingFailed))
    case RecordContainer(out) =>
      if !s.create.Recording? then None
      else
        var taken := s.row.Some? && s.row.value.status == Pending && out.Done?;
        Some(s.(row := Recorded(s.row, s.create.c, out), create := if taken then Returned else Dropping(s.create.c)))
    case MarkFailed(out) =>
      if !s.create.MarkingFailed? then None else Some(s.(row := Updated(s.row, Failed, out), create := Returned))
    case DropContainer =>
      if !s.create.Dropping? then None else Some(s.(live := s.live - {s.create.c}, create := Returned))
    case CallDestroy(pid, t, token) =>
      if pid in s.used || token in s.drawn then None
      else
        Some(s.(destroys := s.destroys[pid := Destruction(t, Locking, token)], used := s.used + {pid},
                drawn := s.drawn + {token}))
    case Expire => Some(s.(lock := None, holder := None))
    case _ => if ev.pid in s.destroys then DestroyNext(s, ev, s.destroys[ev.pid]) else None
  }

  function DestroyNext(s: State, ev: Event, d: Destruction): Option<State>
    requires ev.TryLock? || ev.GiveUp? || ev.Look? || ev.Mark? || ev.ReadContainer? || ev.RemoveContainer?
      || ev.Finish? || ev.Release?
    requires ev.pid in s.destroys
  {
    match ev
    case TryLock(pid, out) =>
      if d.phase != Locking && d.phase != Waiting then None
      else if out.Refused? then Some(Gone(s, pid))
      else if s.lock.None? then
        var s' := s.(lock := Some(d.token), holder := Some(pid));
        Some(if out.Done? then At(s', pid, Looking) else Gone(s', pid))
      else Some(if d.phase == Locking && out.Done? then At(s, pid, Waiting) else Gone(s, pid))
    case GiveUp(pid) => if d.phase == Waiting then Some(Gone(s, pid)) else None
    case Look(pid, ok) =>
      if d.phase != Looking then None
      else
        var found := Found(s.row, d.tenant);
        Some(At(s, pid, if ok && found.Some? && found.value.status != Destroyed then Marking else Releasing))
    case Mark(pid, out) =>
      if d.phase != Marking then None
      else Some(At(s.(row := Updated(s.row, Destroying, out)), pid, if out.Done? then Reading else Releasing))
    case ReadContainer(pid, ok) =>
      if d.phase != Reading then None
      else
        var found := Found(s.row, d.tenant);
        Some(At(s, pid, Removing(if ok && found.Some? then found.value.cid else None)))
    case RemoveContainer(pid) =>
      if !d.phase.Removing? then None
      else Some(At(s.(live := if d.phase.cid.Some? then s.live - {d.phase.cid.value} else s.live), pid, Finishing))
    case Finish(pid, out) =>
      if d.phase != Finishing then None
      else Some(At(s.(row := Updated(s.row, Destroyed, out)), pid, Releasing))
    case Release(pid, ok) =>
      if d.phase != Releasing then None
      // the script deletes the key only while it holds this call's value
      else Some(Gone(if ok && s.lock == Some(d.token) then s.(lock := None, holder := None) else s, pid))
  }

  const INIT: State := State(None, {}, NotStarted, None, map[], {}, {}, None)

  function Run(s: State, evs: seq<Event>): Option<State>
    decreases |evs|
  {
    if evs == [] then Some(s)
    else
      match Next(s, evs[0])
      case None => None
      case Some(s') => Run(s', evs[1..])
  }

  lemma {:induction false} RunConcat(s: State, a: seq<Event>, b: seq<Event>)
    requires Run(s, a).Some?
    ensures Run(s, a + b) == Run(Run(s, a).value, b)
    decreases |a|
  {
    if a == [] { assert a + b == b; }
    else {
      assert (a + b)[1..] == a[1..] + b;
      RunConcat(Next(s, a[0]).value, a[1..], b);
    }
  }

  // ---- No container leaks ----

  /** Which faults occur: reads of the container id may fail, errors may come back for
      writes that were applied. Refused writes are always possible. */
  datatype Faults = Faults(readsFail: bool, repliesLost: bool)

  predicate Allowed(f: Faults, ev: Event) {
    && (ev.ReadContainer? && !ev.ok ==> f.readsFail)
    && (ev.Mark? && ev.out.Lost? ==> f.repliesLost)
  }

  predicate Quiet(s: State) { s.destroys == map[] && (s.create.NotStarted? || s.create.Returned?) }

  /** A live container is one its running row knows. */
  predicate Tracked(s: State) {
    forall c | c in s.live :: s.row.Some? && s.row.value.status == Running && s.row.value.cid == Some(c)
  }

  predicate CreateHolds(s: State, c: nat) {
    (s.create.Starting? || s.create.Recording? || s.create.Dropping?) && s.create.c == c
  }

  predicate Knows(s: State, c: nat) { s.row.Some? && s.row.value.cid == Some(c) }

  /** A Destroy that will still remove container c. */
  predicate Removes(d: Destruction, c: nat) { d.phase == Reading || d.phase == Removing(Some(c)) }

  predicate Past(d: Destruction) { d.phase.Reading? || d.phase.Removing? || d.phase.Finishing? }

  predicate Owns(s: State, d: Destruction) {
    Past(d) || d.phase.Marking? ==> s.row.Some? && s.row.value.tenant == d.tenant
  }

  /** The container a Destroy is done with is not live. */
  predicate DoneWith(s: State, d: Destruction) {
    && (Past(d) ==> s.row.Some? && s.row.value.status != Pending)
    && (d.phase.Removing? && d.phase.cid.Some? ==> s.row.value.cid == d.phase.cid)
    && (d.phase == Removing(None) || d.phase == Finishing ==>
        s.row.Some? && forall c | c in s.live :: s.row.value.cid != Some(c))
  }

  predicate RowOk(s: State) {
    && (s.row.None? ==> s.live == {} && (s.create.NotStarted? || s.create.Inserting? || s.create.Returned?))
    && (s.row.Some? ==> !s.create.NotStarted? && !s.create.Inserting?)
    && (s.row.Some? && s.row.value.status == Pending ==> s.row.value.cid == None)
    && (s.create.Creating? || s.create.Starting? || s.create.Recording? || s.create.MarkingFailed? ==>
        s.row.Some? && s.row.value.cid == None)
    && (s.create.Creating? || s.create.MarkingFailed? || s.create.NotStarted? || s.create.Inserting? ==> s.live == {})
    && forall c | c in s.live :: CreateHolds(s, c) || Knows(s, c)
  }

  /** Which rows can know a live container once Create is done with it. */
  ghost predicate LiveOk(f: Faults, s: State) {
    forall c | c in s.live && Knows(s, c) && !CreateHolds(s, c) ::
      && s.row.value.status != Failed
      && (!f.readsFail ==> s.row.value.status != Destroyed)
      && (!f.readsFail && !f.repliesLost && s.row.value.status != Running ==>
          exists pid :: pid in s.destroys && Removes(s.destroys[pid], c))
  }

  ghost predicate Inv(f: Faults, s: State) {
    && RowOk(s)
    && LiveOk(f, s)
    && (forall pid | pid in s.destroys :: Owns(s, s.destroys[pid]) && pid in s.used)
    && (!f.readsFail ==> forall pid | pid in s.destroys :: DoneWith(s, s.destroys[pid]))
    && (s.create.Dropping? ==> s.row.Some? && (s.row.value.status != Pending || s.row.value.cid == None))
  }

  lemma CreateStepKeeps(f: Faults, s: State, ev: Event)
    requires Inv(f, s) && Allowed(f, ev) && Next(s, ev).Some?
    requires ev.CallCreate? || ev.InsertRow? || ev.CreateContainer? || ev.StartContainer? || ev.MarkFailed?
      || ev.DropContainer?
    ensures Inv(f, Next(s, ev).value)
  {
    var s' := Next(s, ev).value;
    forall pid | pid in s'.destroys
      ensures Owns(s', s'.destroys[pid]) && (!f.readsFail ==> DoneWith(s', s'.destroys[pid]))
    {
      assert Owns(s, s.destroys[pid]);
      if !f.readsFail { assert DoneWith(s, s.destroys[pid]); }
    }
  }

  lemma RecordKeeps(f: Faults, s: State, ev: Event)
    requires Inv(f, s) && ev.RecordContainer? && Next(s, ev).Some?
    ensures Inv(f, Next(s, ev).value)
  {
    var s' := Next(s, ev).value;
    forall pid | pid in s'.destroys
      ensures Owns(s', s'.destroys[pid]) && (!f.readsFail ==> DoneWith(s', s'.destroys[pid]))
    {
      assert Owns(s, s.destroys[pid]);
      if !f.readsFail { assert DoneWith(s, s.destroys[pid]); }
    }
  }

  /** A step of one Destroy leaves the others as they are. */
  lemma OthersKeep(f: Faults, s: State, s': State, pid: nat)
    requires Inv(f, s) && s'.create == s.create && s'.live <= s.live && s'.row.Some? == s.row.Some?
    requires s.row.Some? ==> s'.row.value.tenant == s.row.value.tenant && s'.row.value.cid == s.row.value.cid
    requires s.row.Some? && s.row.value.status != Pending ==> s'.row.value.status != Pending
    requires forall q | q in s'.destroys && q != pid :: q in s.destroys && s'.destroys[q] == s.destroys[q]
    requires s.used <= s'.used
    ensures forall q | q in s'.destroys && q != pid :: Owns(s', s'.destroys[q]) && q in s'.used
    ensures !f.readsFail ==> forall q | q in s'.destroys && q != pid :: DoneWith(s', s'.destroys[q])
  {
    forall q | q in s'.destroys && q != pid
      ensures Owns(s', s'.destroys[q]) && q in s'.used && (!f.readsFail ==> DoneWith(s', s'.destroys[q]))
    {
      assert Owns(s, s.destroys[q]) && q in s.used;
      if !f.readsFail { assert DoneWith(s, s.destroys[q]); }
    }
  }

  /** Steps of a Destroy that leave row and containers alone and cancel no removal. */
  lemma PlainStepKeeps(f: Faults, s: State, s': State, pid: nat)
    requires Inv(f, s) && s'.create == s.create && s'.live == s.live && s'.row == s.row && s.used <= s'.used
    requires forall q | q in s.destroys && q != pid :: q in s'.destroys && s'.destroys[q] == s.destroys[q]
    requires forall q | q in s'.destroys && q != pid :: q in s.destroys
    requires pid in s.destroys && pid in s'.destroys && !f.readsFail ==>
      forall c | c in s.live && Knows(s, c) :: Removes(s.destroys[pid], c) ==> Removes(s'.destroys[pid], c)
    requires pid in s.destroys && pid !in s'.destroys ==> forall c :: !Removes(s.destroys[pid], c)
    requires pid in s'.destroys ==> pid in s'.used && Owns(s', s'.destroys[pid])
    requires pid in s'.destroys && !f.readsFail ==> DoneWith(s', s'.destroys[pid])
    ensures Inv(f, s')
  {
    OthersKeep(f, s, s', pid);
    forall c | c in s'.live && Knows(s', c) && !CreateHolds(s', c)
      && !f.readsFail && !f.repliesLost && s'.row.value.status != Running
      ensures exists q :: q in s'.destroys && Removes(s'.destroys[q], c)
    {
      var q :| q in s.destroys && Removes(s.destroys[q], c);
      assert q in s'.destroys && Removes(s'.destroys[q], c);
    }
  }

  lemma DestroyStepKeeps(f: Faults, s: State, ev: Event)
    requires Inv(f, s) && Allowed(f, ev) && Next(s, ev).Some?
    requires ev.CallDestroy? || ev.TryLock? || ev.GiveUp? || ev.Look? || ev.ReadContainer? || ev.Release?
    ensures Inv(f, Next(s, ev).value)
  {
    if ev.pid in s.destroys {
      assert Owns(s, s.destroys[ev.pid]) && ev.pid in s.used;
      if !f.readsFail { assert DoneWith(s, s.destroys[ev.pid]); }
    }
    PlainStepKeeps(f, s, Next(s, ev).value, ev.pid);
  }

  lemma MarkKeeps(f: Faults, s: State, ev: Event)
    requires Inv(f, s) && Allowed(f, ev) && ev.Mark? && Next(s, ev).Some?
    ensures Inv(f, Next(s, ev).value)
  {
    var s', pid := Next(s, ev).value, ev.pid;
    assert Owns(s, s.destroys[pid]);
    OthersKeep(f, s, s', pid);
    forall c | c in s'.live && Knows(s', c) && !CreateHolds(s', c)
      && !f.readsFail && !f.repliesLost && s'.row.value.status != Running
      ensures exists q :: q in s'.destroys && Removes(s'.destroys[q], c)
    {
      assert Knows(s, c) && !CreateHolds(s, c);
      if ev.out.Done? { assert Removes(s'.destroys[pid], c); }
      else {
        var q :| q in s.destroys && Removes(s.destroys[q], c);
        assert q != pid && s'.destroys[q] == s.destroys[q];
      }
    }
  }

  lemma RemoveKeeps(f: Faults, s: State, ev: Event)
    requires Inv(f, s) && ev.RemoveContainer? && Next(s, ev).Some?
    ensures Inv(f, Next(s, ev).value)
  {
    var s', pid := Next(s, ev).value, ev.pid;
    assert Owns(s, s.destroys[pid]);
    OthersKeep(f, s, s', pid);
    if !f.readsFail {
      assert DoneWith(s, s.destroys[pid]);
      assert forall c | c in s'.live :: !Knows(s', c);
    }
  }

  lemma FinishKeeps(f: Faults, s: State, ev: Event)
    requires Inv(f, s) && ev.Finish? && Next(s, ev).Some?
    ensures Inv(f, Next(s, ev).value)
  {
    var s', pid := Next(s, ev).value, ev.pid;
    assert Owns(s, s.destroys[pid]);
    if !f.readsFail { assert DoneWith(s, s.destroys[pid]); }
    OthersKeep(f, s, s', pid);
    forall c | c in s'.live && Knows(s', c) && !CreateHolds(s', c)
      ensures s'.row.value.status != Failed && f.readsFail
    {
      assert Knows(s, c) && !CreateHolds(s, c);
    }
  }

  lemma NextKeeps(f: Faults, s: State, ev: Event)
    requires Inv(f, s) && Allowed(f, ev) && Next(s, ev).Some?
    ensures Inv(f, Next(s, ev).value)
  {
    match ev
    case RecordContainer(_) => RecordKeeps(f, s, ev);
    case Mark(_, _) => MarkKeeps(f, s, ev);
    case RemoveContainer(_) => RemoveKeeps(f, s, ev);
    case Finish(_, _) => FinishKeeps(f, s, ev);
    case Expire =>
      var s' := Next(s, ev).value;
      assert s'.destroys == s.destroys;
      forall pid | pid in s'.destroys
        ensures Owns(s', s'.destroys[pid]) && (!f.readsFail ==> DoneWith(s', s'.destroys[pid]))
      {
        assert Owns(s, s.destroys[pid]);
        if !f.readsFail { assert DoneWith(s, s.destroys[pid]); }
      }
    case CallDestroy(_, _, _) => DestroyStepKeeps(f, s, ev);
    case TryLock(_, _) => DestroyStepKeeps(f, s, ev);
    case GiveUp(_) => DestroyStepKeeps(f, s, ev);
    case Look(_, _) => DestroyStepKeeps(f, s, ev);
    case ReadContainer(_, _) => DestroyStepKeeps(f, s, ev);
    case Release(_, _) => DestroyStepKeeps(f, s, ev);
    case _ => CreateStepKeeps(f, s, ev);
  }

  lemma {:induction false} RunKeeps(f: Faults, s: State, evs: seq<Event>)
    requires Inv(f, s) && (forall e | e in evs :: Allowed(f, e)) && Run(s, evs).Some?
    ensures Inv(f, Run(s, evs).value)
    decreases |evs|
  {
    if evs != [] {
      NextKeeps(f, s, evs[0]);
      RunKeeps(f, Next(s, evs[0]).value, evs[1..]);
    }
  }

  /** Whatever fails: once no call is in flight, every live container is the one the row
      stores, and the row is not failed; it is not destroyed either unless a read of the
      container id failed. So a further Destroy can always find it. */
  lemma LiveIsStored(f: Faults, evs: seq<Event>, c: nat)
    requires (forall e | e in evs :: Allowed(f, e)) && Run(INIT, evs).Some?
    requires Quiet(Run(INIT, evs).value) && c in Run(INIT, evs).value.live
    ensures var s := Run(INIT, evs).value;
      && s.row.Some? && s.row.value.cid == Some(c) && s.row.value.status in {Running, Destroying, Destroyed}
      && (!f.readsFail ==> s.row.value.status != Destroyed)
      && (!f.readsFail && !f.repliesLost ==> s.row.value.status == Running)
  {
    RunKeeps(f, INIT, evs);
  }

  predicate Reaches(f: Faults, evs: seq<Event>, s: State) {
    Run(INIT, evs) == Some(s) && forall e | e in evs :: Allowed(f, e)
  }

  lemma OneStep(f: Faults, evs: seq<Event>, s: State, e: Event) returns (evs': seq<Event>, s': State)
    requires Reaches(f, evs, s) && Allowed(f, e) && Next(s, e).Some?
    ensures s' == Next(s, e).value && evs' == evs + [e] && Reaches(f, evs', s')
  {
    evs', s' := evs + [e], Next(s, e).value;
    RunConcat(INIT, evs, [e]);
    assert Run(s, [e]) == Some(s') by { assert [e][1..] == []; }
  }

  const UP: State := State(Some(Session(0, Running, Some(7))), {7}, Returned, None, map[], {}, {}, None)

  /** A sandbox that is up. */
  lemma Created(f: Faults) returns (evs: seq<Event>)
    ensures Reaches(f, evs, UP)
  {
    var s := INIT;
    evs := [];
    evs, s := OneStep(f, evs, s, CallCreate(0));
    evs, s := OneStep(f, evs, s, InsertRow(Done));
    evs, s := OneStep(f, evs, s, CreateContainer(7, true));
    evs, s := OneStep(f, evs, s, StartContainer(true));
    evs, s := OneStep(f, evs, s, RecordContainer(Done));
    assert s == UP;
  }

  const MARKING: State :=
    UP.(lock := Some(5), destroys := map[1 := Destruction(0, Marking, 5)], used := {1}, drawn := {5}, holder := Some(1))

  /** A Destroy of it, up to the first write. */
  lemma BeginDestroy(f: Faults) returns (evs: seq<Event>)
    ensures Reaches(f, evs, MARKING)
  {
    evs := Created(f);
    var s := UP;
    evs, s := OneStep(f, evs, s, CallDestroy(1, 0, 5));
    assert s.destroys == map[1 := Destruction(0, Locking, 5)];
    evs, s := OneStep(f, evs, s, TryLock(1, Done));
    assert s.destroys == map[1 := Destruction(0, Looking, 5)];
    evs, s := OneStep(f, evs, s, Look(1, true));
    assert s.destroys == map[1 := Destruction(0, Marking, 5)] && s.used == {1} && s.drawn == {5};
    assert s == MARKING;
  }

  /** A failed read of the container id is logged and taken for no container: the row ends
      destroyed, the container stays. */
  lemma BlindLeaks(f: Faults) returns (evs: seq<Event>, s: State)
    requires f.readsFail
    ensures Reaches(f, evs, s) && Quiet(s) && 7 in s.live && s.row.Some? && s.row.value.status == Destroyed
  {
    evs := BeginDestroy(f);
    s := MARKING;
    evs, s := OneStep(f, evs, s, Mark(1, Done));
    assert s.destroys == map[1 := Destruction(0, Reading, 5)];
    evs, s := OneStep(f, evs, s, ReadContainer(1, false));
    assert s.destroys == map[1 := Destruction(0, Removing(None), 5)];
    evs, s := OneStep(f, evs, s, RemoveContainer(1));
    assert s.destroys == map[1 := Destruction(0, Finishing, 5)];
    evs, s := OneStep(f, evs, s, Finish(1, Done));
    assert s.destroys == map[1 := Destruction(0, Releasing, 5)];
    evs, s := OneStep(f, evs, s, Release(1, true));
    assert s.destroys == map[];
  }

  /** A write of `destroying` that is applied but reported as failed leaves the container
      behind a row that is neither running nor destroyed. */
  lemma UnansweredLeaks(f: Faults) returns (evs: seq<Event>, s: State)
    requires f.repliesLost
    ensures Reaches(f, evs, s) && Quiet(s) && 7 in s.live && s.row.Some? && s.row.value.status == Destroying
  {
    evs := BeginDestroy(f);
    s := MARKING;
    evs, s := OneStep(f, evs, s, Mark(1, Lost));
    assert s.destroys == map[1 := Destruction(0, Releasing, 5)];
    evs, s := OneStep(f, evs, s, Release(1, true));
    assert s.destroys == map[];
  }

  ghost predicate LeakFree(f: Faults) {
    forall evs | (forall e | e in evs :: Allowed(f, e)) && Run(INIT, evs).Some? && Quiet(Run(INIT, evs).value) ::
      Tracked(Run(INIT, evs).value)
  }

  /** No run leaks a container exactly when container ids can always be read and writes
      that were applied are answered. */
  lemma LeakFreeExactly(f: Faults)
    ensures LeakFree(f) <==> !f.readsFail && !f.repliesLost
  {
    if !f.readsFail && !f.repliesLost {
      forall evs | (forall e | e in evs :: Allowed(f, e)) && Run(INIT, evs).Some? && Quiet(Run(INIT, evs).value)
        ensures Tracked(Run(INIT, evs).value)
      {
        RunKeeps(f, INIT, evs);
      }
    }
    if f.readsFail {
      var evs, s := BlindLeaks(f);
      assert !Tracked(Run(INIT, evs).value);
    } else if f.repliesLost {
      var evs, s := UnansweredLeaks(f);
      assert !Tracked(Run(INIT, evs).value);
    }
  }

  // ---- The lock ----

  /** A Destroy between taking the lock and releasing it. */
  predicate Inside(d: Destruction) { d.phase != Locking && d.phase != Waiting }

  /** Calls in flight have drawn different values, and only the holder has the stored one. */
  predicate TokensOk(s: State) {
    && (forall p | p in s.destroys :: p in s.used && s.destroys[p].token in s.drawn)
    && (forall p, q | p in s.destroys && q in s.destroys && s.destroys[p].token == s.destroys[q].token :: p == q)
    && (s.lock.Some? <==> s.holder.Some?)
    && (s.lock.Some? ==> s.lock.value in s.drawn)
    && (forall p | p in s.destroys && s.lock == Some(s.destroys[p].token) :: s.holder == Some(p))
  }

  lemma {:induction false} TokensKept(s: State, evs: seq<Event>)
    requires TokensOk(s) && Run(s, evs).Some?
    ensures TokensOk(Run(s, evs).value)
    decreases |evs|
  {
    if evs != [] {
      TokensStep(s, evs[0]);
      TokensKept(Next(s, evs[0]).value, evs[1..]);
    }
  }

  lemma TokensStep(s: State, ev: Event)
    requires TokensOk(s) && Next(s, ev).Some?
    ensures TokensOk(Next(s, ev).value)
  {
    DrawnOnce(s, ev);
    LockMoves(s, ev);
  }

  /** Calls keep the values they drew; a new call's is new. */
  lemma DrawnOnce(s: State, ev: Event)
    requires TokensOk(s) && Next(s, ev).Some?
    ensures var s' := Next(s, ev).value;
      && s.used <= s'.used && s.drawn <= s'.drawn
      && forall p | p in s'.destroys ::
        if p in s.destroys then s'.destroys[p].token == s.destroys[p].token
        else ev.CallDestroy? && ev.pid == p && s'.destroys[p].token == ev.token
             && ev.token !in s.drawn && ev.token in s'.drawn && p in s'.used
  {
  }

  /** The lock is taken when free, and given up by the lease or by the call with its value. */
  lemma LockMoves(s: State, ev: Event)
    requires Next(s, ev).Some?
    ensures var s' := Next(s, ev).value;
      || (s'.lock == s.lock && s'.holder == s.holder)
      || (s'.lock == None && s'.holder == None
          && (ev.Expire? || (ev.Release? && ev.pid in s.destroys && s.lock == Some(s.destroys[ev.pid].token))))
      || (s.lock == None && ev.TryLock? && ev.pid in s.destroys
          && s'.lock == Some(s.destroys[ev.pid].token) && s'.holder == Some(ev.pid))
  {
  }

  /** In every run, leases running out included: a stored lock value leaves only by its
      lease or by the release of the very call that stored it, and nothing replaces it. */
  lemma OnlyHolderUnlocks(evs: seq<Event>, ev: Event)
    requires Run(INIT, evs).Some? && Next(Run(INIT, evs).value, ev).Some? && Run(INIT, evs).value.lock.Some?
    ensures var s := Run(INIT, evs).value; var s' := Next(s, ev).value;
      || (s'.lock == s.lock && s'.holder == s.holder)
      || (s'.lock == None && (ev == Expire || (ev.Release? && s.holder == Some(ev.pid))))
  {
    TokensKept(INIT, evs);
    LockMoves(Run(INIT, evs).value, ev);
  }

  predicate LockInv(s: State) {
    TokensOk(s) && forall pid | pid in s.destroys :: Inside(s.destroys[pid]) ==> s.lock == Some(s.destroys[pid].token)
  }

  lemma LockStep(s: State, ev: Event)
    requires LockInv(s) && ev != Expire && Next(s, ev).Some?
    ensures LockInv(Next(s, ev).value)
  {
    var s' := Next(s, ev).value;
    TokensStep(s, ev);
    forall pid | pid in s'.destroys && Inside(s'.destroys[pid]) ensures s'.lock == Some(s'.destroys[pid].token) { }
  }

  lemma {:induction false} LockKept(s: State, evs: seq<Event>)
    requires LockInv(s) && Expire !in evs && Run(s, evs).Some?
    ensures LockInv(Run(s, evs).value)
    decreases |evs|
  {
    if evs != [] {
      assert evs[0] != Expire;
      LockStep(s, evs[0]);
      LockKept(Next(s, evs[0]).value, evs[1..]);
    }
  }

  /** While no lease runs out, one Destroy at a time is past the lock. */
  lemma OneDestroyAtATime(evs: seq<Event>, p: nat, q: nat)
    requires Expire !in evs && Run(INIT, evs).Some?
    requires var d := Run(INIT, evs).value.destroys; p in d && q in d && Inside(d[p]) && Inside(d[q])
    ensures p == q
  {
    LockKept(INIT, evs);
  }
}
