/** Create and Destroy as they are written, acting on a session row, a set of containers
    and a lock key. Each call, run without others in between, is a run of the protocol. */
module SandboxDriver {
  import opened Workflow
  import opened Sandbox

  class SessionRepo {
    var row: Option<Session>

    constructor ()
      ensures row == None
    {
      row := None;
    }

    method Insert(tenant: nat, out: Outcome) returns (ok: bool)
      modifies this
      ensures row == Inserted(old(row), tenant, out) && ok == out.Done?
    {
      if !out.Refused? { row := Some(Session(tenant, Pending, None)); }
      ok := out.Done?;
    }

    /** Succeeds only from pending. */
    method SetContainerID(c: nat, out: Outcome) returns (ok: bool)
      modifies this
      ensures row == Recorded(old(row), c, out)
      ensures ok <==> old(row).Some? && old(row).value.status == Pending && out.Done?
    {
      if out.Refused? { return false; }
      var affected := 0;
      if row.Some? && row.value.status == Pending {
        row := Some(row.value.(status := Running, cid := Some(c)));
        affected := 1;
      }
      ok := out.Done? && affected == 1;
    }

    method UpdateStatus(status: Status, out: Outcome) returns (ok: bool)
      modifies this
      ensures row == Updated(old(row), status, out) && ok == out.Done?
    {
      if !out.Refused? && row.Some? { row := Some(row.value.(status := status)); }
      ok := out.Done?;
    }

    method Get(tenant: nat) returns (r: Option<Session>)
      ensures r == Found(row, tenant)
    {
      if row.Some? && row.value.tenant == tenant { return row; }
      r := None;
    }

    method GetContainerID(tenant: nat, ok: bool) returns (cid: Option<nat>)
      ensures cid == if ok && Found(row, tenant).Some? then row.value.cid else None
    {
      if !ok { return None; }
      var r := Get(tenant);
      cid := if r.Some? then r.value.cid else None;
    }
  }

  /** How each call of one Create turns out. */
  datatype CreateFaults = CreateFaults(insert: Outcome, create: bool, start: bool, record: Outcome, mark: Outcome)

  datatype DestroyFaults = DestroyFaults(lock: Outcome, retry: Outcome, cancelled: bool, look: bool, mark: Outcome,
                                         read: bool, finish: Outcome, release: bool)

  ghost predicate Leads(s: State, s': State) { exists evs :: Run(s, evs) == Some(s') }

  lemma LeadsSelf(s: State)
    ensures Leads(s, s)
  {
    assert Run(s, []) == Some(s);
  }

  lemma LeadsOn(s0: State, s: State, e: Event)
    requires Leads(s0, s) && Next(s, e).Some?
    ensures Leads(s0, Next(s, e).value)
  {
    var evs :| Run(s0, evs) == Some(s);
    RunConcat(s0, evs, [e]);
    assert Run(s, [e]) == Next(s, e) by { assert [e][1..] == []; }
  }

  class DockerDriver {
    const repo: SessionRepo
    var live: set<nat>
    var lock: Option<nat>
    // the protocol state, with the calls in flight
    ghost var st: State

    ghost predicate Valid()
      reads this, repo
    {
      st.row == repo.row && st.live == live && st.lock == lock
    }

    constructor ()
      ensures Valid() && st == INIT && fresh(repo)
    {
      repo := new SessionRepo();
      live, lock, st := {}, None, INIT;
    }

    /** Notes one step of the protocol. */
    ghost method Step(e: Event, s0: State)
      requires Leads(s0, st) && Next(st, e).Some?
      modifies this`st
      ensures st == Next(old(st), e).value && Leads(s0, st)
    {
      LeadsOn(s0, st, e);
      st := Next(st, e).value;
    }

    method Create(tenant: nat, c: nat, f: CreateFaults) returns (ok: bool)
      requires Valid() && st.create.NotStarted? && c !in live
      modifies this, repo
      ensures Valid() && Leads(old(st), st) && st.create.Returned? && lock == old(lock)
      ensures ok ==> live == old(live) + {c} && repo.row == Some(Session(tenant, Running, Some(c)))
      ensures !ok ==> live == old(live)
      ensures ok <==> f.insert.Done? && f.create && f.start && f.record.Done?
    {
      ghost var s0 := st;
      LeadsSelf(s0);
      Step(CallCreate(tenant), s0);
      ok := repo.Insert(tenant, f.insert);
      Step(InsertRow(f.insert), s0);
      if !ok { return; }
      var started := CreateAndStartContainer(c, f, s0);
      if !started {
        var marked := repo.UpdateStatus(Failed, f.mark);
        Step(MarkFailed(f.mark), s0);
        return false;
      }
      ok := repo.SetContainerID(c, f.record);
      Step(RecordContainer(f.record), s0);
      if !ok {
        live := live - {c};
        Step(DropContainer, s0);
        assert live == old(live);
      }
    }

    method CreateAndStartContainer(c: nat, f: CreateFaults, ghost s0: State) returns (ok: bool)
      requires Valid() && Leads(s0, st) && st.create.Creating? && c !in live
      modifies this
      ensures Valid() && Leads(s0, st) && lock == old(lock)
      ensures ok <==> f.create && f.start
      ensures st == old(st).(live := live, create := if ok then Recording(c) else MarkingFailed)
      ensures live == if ok then old(live) + {c} else old(live)
    {
      if !f.create {
        Step(CreateContainer(c, false), s0);
        return false;
      }
      live := live + {c};
      Step(CreateContainer(c, true), s0);
      ok := f.start;
      if !ok { live := live - {c}; }
      Step(StartContainer(ok), s0);
    }

    /** SetNX, with one retry. */
    method Acquire(ghost pid: nat, token: nat, f: DestroyFaults, ghost s0: State) returns (ok: bool)
      requires Valid() && Leads(s0, st) && pid in st.destroys && st.destroys[pid].phase == Locking
      requires st.destroys[pid].token == token
      modifies this
      ensures Valid() && Leads(s0, st) && live == old(live) && st.row == old(st).row
      ensures ok <==> old(lock) == None && f.lock.Done?
      ensures ok ==> lock == Some(token) && st == At(old(st).(lock := lock, holder := Some(pid)), pid, Looking)
      ensures !ok ==> pid !in st.destroys && (old(lock).Some? ==> lock == old(lock))
    {
      ok := f.lock.Done? && lock == None;
      if !f.lock.Refused? && lock == None { lock := Some(token); }
      Step(TryLock(pid, f.lock), s0);
      if ok || !f.lock.Done? { return; }
      // held by another: wait, then try once more
      if f.cancelled {
        Step(GiveUp(pid), s0);
        return;
      }
      Step(TryLock(pid, f.retry), s0);
    }

    method Destroy(ghost pid: nat, tenant: nat, token: nat, f: DestroyFaults) returns (ok: bool)
      requires Valid() && pid !in st.used && token !in st.drawn
      modifies this, repo
      ensures Valid() && Leads(old(st), st) && pid !in st.destroys
      ensures ok ==> old(repo.row).Some? && repo.row == Some(old(repo.row).value.(status := Destroyed))
      ensures ok && f.read && old(repo.row).value.status != Destroyed && old(repo.row).value.cid.Some? ==>
        live == old(live) - {repo.row.value.cid.value}
      ensures old(lock) == None && f.lock.Done? ==>
        (f.look && f.mark.Done? && f.finish.Done? && Found(old(repo.row), tenant).Some? ==> ok)
      ensures old(lock).Some? ==> !ok && lock == old(lock) && live == old(live) && repo.row == old(repo.row)
    {
      ghost var s0 := st;
      LeadsSelf(s0);
      Step(CallDestroy(pid, tenant, token), s0);
      var locked := Acquire(pid, token, f, s0);
      if !locked { return false; }
      ok := DestroyLocked(pid, tenant, token, f, s0);
      Unlock(pid, token, f.release, s0);
    }

    /** The script that deletes the key while it holds this call's value. */
    method Unlock(ghost pid: nat, token: nat, answered: bool, ghost s0: State)
      requires Valid() && Leads(s0, st) && pid in st.destroys
      requires st.destroys[pid].token == token && st.destroys[pid].phase == Releasing
      modifies this
      ensures Valid() && Leads(s0, st) && pid !in st.destroys && live == old(live)
    {
      if answered && lock == Some(token) { lock := None; }
      Step(Release(pid, answered), s0);
    }

    method DestroyLocked(ghost pid: nat, tenant: nat, ghost token: nat, f: DestroyFaults, ghost s0: State)
      returns (ok: bool)
      requires Valid() && Leads(s0, st) && pid in st.destroys && st.destroys[pid] == Destruction(tenant, Looking, token)
      modifies this, repo
      ensures Valid() && Leads(s0, st) && lock == old(lock)
      ensures pid in st.destroys && st.destroys[pid] == Destruction(tenant, Releasing, token)
      ensures ok ==> old(repo.row).Some? && repo.row == Some(old(repo.row).value.(status := Destroyed))
      ensures ok && f.read && old(repo.row).value.status != Destroyed && old(repo.row).value.cid.Some? ==>
        live == old(live) - {old(repo.row).value.cid.value}
      ensures f.look && f.mark.Done? && f.finish.Done? && Found(old(repo.row), tenant).Some? ==> ok
    {
      Step(Look(pid, f.look), s0);
      if !f.look { return false; }
      var sb := repo.Get(tenant);
      if sb.None? { return false; }
      if sb.value.status == Destroyed { return true; }
      ok := Teardown(pid, tenant, token, f, s0);
    }

    method Teardown(ghost pid: nat, tenant: nat, ghost token: nat, f: DestroyFaults, ghost s0: State) returns (ok: bool)
      requires Valid() && Leads(s0, st) && pid in st.destroys && st.destroys[pid] == Destruction(tenant, Marking, token)
      requires Found(repo.row, tenant).Some?
      modifies this, repo
      ensures Valid() && Leads(s0, st) && lock == old(lock)
      ensures pid in st.destroys && st.destroys[pid] == Destruction(tenant, Releasing, token)
      ensures ok <==> f.mark.Done? && f.finish.Done?
      ensures ok ==> repo.row == Some(old(repo.row).value.(status := Destroyed))
      ensures ok && f.read && old(repo.row).value.cid.Some? ==> live == old(live) - {old(repo.row).value.cid.value}
    {
      ok := repo.UpdateStatus(Destroying, f.mark);
      Step(Mark(pid, f.mark), s0);
      if !ok { return; }
      StopAndRemove(pid, tenant, token, f, s0);
      ok := repo.UpdateStatus(Destroyed, f.finish);
      Step(Finish(pid, f.finish), s0);
    }

    method StopAndRemove(ghost pid: nat, tenant: nat, ghost token: nat, f: DestroyFaults, ghost s0: State)
      requires Valid() && Leads(s0, st) && pid in st.destroys && st.destroys[pid] == Destruction(tenant, Reading, token)
      requires Found(repo.row, tenant).Some?
      modifies this
      ensures Valid() && Leads(s0, st) && lock == old(lock)
      ensures pid in st.destroys && st.destroys[pid] == Destruction(tenant, Finishing, token)
      ensures f.read && repo.row.value.cid.Some? ==> live == old(live) - {repo.row.value.cid.value}
    {
      var cid := repo.GetContainerID(tenant, f.read);
      Step(ReadContainer(pid, f.read), s0);
      if cid.Some? { live := live - {cid.value}; }
      Step(RemoveContainer(pid), s0);
    }
  }
}
