/** The job repository and the worker as they are written. A worker's calls, run without
    other workers in between, are runs of the queue protocol. */
module ReflectionWorker {
  import opened Workflow
  import opened Reflection
  import opened Query

  function DueIds(jobs: Jobs, now: int): set<nat> { set id | id in jobs && Due(jobs[id], now) }

  function NextRunOf(jobs: Jobs): nat -> int { id => if id in jobs then jobs[id].nextRun else 0 }

  function Limit(limit: int): nat { if limit <= 0 || limit > 64 then 32 else limit }

  /** As many different rows as there are: all of them. */
  lemma {:induction false} AllListed<K>(rows: set<K>, out: seq<K>)
    requires Distinct(out) && |out| == |rows| && forall x | x in out :: x in rows
    ensures forall x | x in rows :: x in out
    decreases |out|
  {
    if |out| > 0 {
      var x, rest := out[0], out[1..];
      assert out == [x] + rest;
      forall y | y in rest ensures y in rows - {x} { }
      AllListed(rows - {x}, rest);
    }
  }

  datatype Enqueued = Created(id: nat) | Duplicate | NotStored

  class JobRepo {
    var jobs: Jobs
    var now: int

    constructor ()
      ensures jobs == map[] && now == 0
    {
      jobs, now := map[], 0;
    }

    /** One job a session: a second request is ignored. `id` is the generated key. */
    method Enqueue(id: nat, session: nat, maxAttempts: int, out: Outcome) returns (r: Enqueued)
      requires id !in jobs
      modifies this
      ensures jobs == Applied(out, old(jobs), Inserted(old(jobs), id, session, maxAttempts, now)) && now == old(now)
      ensures r == if !out.Done? then NotStored else if HasSession(old(jobs), session) then Duplicate else Created(id)
    {
      var max := if maxAttempts <= 0 then 3 else maxAttempts;
      if out.Refused? { return NotStored; }
      if exists x | x in jobs :: jobs[x].session == session {
        r := Duplicate;
      } else {
        jobs := jobs[id := Job(session, Pending, 0, max, now)];
        r := Created(id);
      }
      if out.Lost? { r := NotStored; }
    }

    /** The due jobs, longest due first, at most `limit`: pending, their time come, with
        attempts left; all of them when there is room. */
    method ListDue(limit: int) returns (out: seq<nat>)
      ensures FirstBy(DueIds(jobs, now), NextRunOf(jobs), Limit(limit), out)
      ensures var n := if 0 < limit <= 64 then limit else 32;
        |out| <= n && (|out| < n ==> forall id | id in jobs :: Waiting(jobs[id]) ==> id in out)
      ensures forall i | 0 <= i < |out| :: out[i] in jobs && Waiting(jobs[out[i]])
      ensures forall i, j | 0 <= i < j < |out| :: jobs[out[i]].nextRun <= jobs[out[j]].nextRun
    {
      var n := if limit <= 0 || limit > 64 then 32 else limit;
      var due := DueIds(jobs, now);
      out := Select(due, NextRunOf(jobs), n);
      if |out| < n { AllListed(due, out); }
      assert forall id | id in jobs && Waiting(jobs[id]) :: id in due;
      forall i | 0 <= i < |out| ensures out[i] in due && NextRunOf(jobs)(out[i]) == jobs[out[i]].nextRun { }
    }

    predicate Waiting(j: Job)
      reads this
    {
      j.status == Pending && j.nextRun <= now && j.attempts < j.maxAttempts
    }

    method MarkProcessing(id: nat, out: Outcome) returns (ok: bool)
      modifies this
      ensures jobs == Applied(out, old(jobs), Claimed(old(jobs), id)) && now == old(now)
      ensures ok <==> out.Done? && id in old(jobs) && old(jobs)[id].status == Pending
    {
      if out.Refused? { return false; }
      var affected := 0;
      if id in jobs && jobs[id].status == Pending {
        jobs := jobs[id := jobs[id].(status := Processing)];
        affected := 1;
      }
      ok := out.Done? && affected > 0;
    }

    method MarkCompleted(id: nat, out: Outcome)
      modifies this
      ensures jobs == Applied(out, old(jobs), Finished(old(jobs), id)) && now == old(now)
    {
      if !out.Refused? && id in jobs { jobs := jobs[id := jobs[id].(status := Completed)]; }
    }

    /** Reads the counts, then writes the retry or the terminal failure. */
    method MarkFailed(id: nat, retryBase: int, loaded: bool, out: Outcome)
      modifies this
      ensures now == old(now)
      ensures jobs == if !loaded || id !in old(jobs) then old(jobs)
        else Applied(out, old(jobs), Retried(old(jobs), id, old(jobs)[id].attempts + 1, old(jobs)[id].maxAttempts,
                                             retryBase, now))
    {
      if !loaded || id !in jobs { return; }
      var attempts, maxAttempts := jobs[id].attempts + 1, jobs[id].maxAttempts;
      var status, next := Pending, now;
      if attempts >= maxAttempts { status := Failed; }
      else { next := now + Delay(retryBase, attempts); }
      if out.Refused? { return; }
      jobs := jobs[id := jobs[id].(status := status, attempts := attempts, nextRun := next)];
    }
  }

  ghost predicate Leads(s: State, s': State) { exists evs :: Run(s, evs) == Some(s') }

  lemma LeadsSelf(s: State)
    ensures Leads(s, s)
  {
    assert Run(s, []) == Some(s);
  }

  lemma {:induction false} RunConcat(s: State, a: seq<Event>, b: seq<Event>)
    requires Run(s, a).Some?
    ensures Run(s, a + b) == Run(Run(s, a).value, b)
    decreases |a|
  {
    if a == [] { assert a + b == b; }
    else {
      assert (a + b)[1..] == a[1..] + b;
      RunConcat(Next(s, a[0]).value, a[1..], b);
    }
  }

  lemma LeadsOn(s0: State, s: State, e: Event)
    requires Leads(s0, s) && Next(s, e).Some?
    ensures Leads(s0, Next(s, e).value)
  {
    var evs :| Run(s0, evs) == Some(s);
    RunConcat(s0, evs, [e]);
    assert Run(s, [e]) == Next(s, e) by { assert [e][1..] == []; }
  }

  lemma {:induction false} QueuedStay(s: State, evs: seq<Event>)
    requires Run(s, evs).Some?
    ensures s.jobs.Keys <= Run(s, evs).value.jobs.Keys
    decreases |evs|
  {
    if evs != [] { QueuedStay(Next(s, evs[0]).value, evs[1..]); }
  }

  /** How handling one job turns out. */
  datatype Course = Course(claim: Outcome, reflectOk: bool, load: bool, fail: Outcome, complete: Outcome)

  class Worker {
    const repo: JobRepo
    const id: nat
    const buffer: nat
    const maxAttempts: int
    const retryBase: int
    var queue: seq<nat>
    var stopping: bool
    ghost var st: State

    constructor (repo: JobRepo, id: nat, buffer: int, maxAttempts: int, retryBase: int, ghost s0: State)
      requires s0.jobs == repo.jobs && s0.now == repo.now && id !in s0.workers
      ensures Valid() && Leads(s0, st) && queue == [] && this.repo == repo
    {
      this.repo, this.id := repo, id;
      this.buffer := if buffer <= 0 then 256 else buffer;
      this.maxAttempts := if maxAttempts <= 0 then 3 else maxAttempts;
      this.retryBase := if retryBase <= 0 then MINUTE else retryBase;
      queue, stopping := [], false;
      st := Next(s0, Join(id, if buffer <= 0 then 256 else buffer)).value;
      new;
      LeadsSelf(s0);
      LeadsOn(s0, s0, Join(id, this.buffer));
    }

    ghost predicate InPhase(p: Phase)
      reads this, repo
    {
      && st.jobs == repo.jobs && st.now == repo.now && id in st.workers
      && st.workers[id] == Reflection.Worker(p, queue, buffer, stopping)
    }

    ghost predicate Valid()
      reads this, repo
    {
      InPhase(Idle)
    }

    ghost method Step(e: Event, s0: State)
      requires Leads(s0, st) && Next(st, e).Some?
      modifies this`st
      ensures st == Next(old(st), e).value && Leads(s0, st)
    {
      LeadsOn(s0, st, e);
      st := Next(st, e).value;
    }

    /** Never blocks: a stopping worker or a full channel refuses. */
    method TryPush(job: nat) returns (ok: bool)
      requires Valid() && job in repo.jobs
      modifies this
      ensures Valid() && Leads(old(st), st) && stopping == old(stopping)
      ensures ok <==> !stopping && |old(queue)| < buffer
      ensures queue == if ok then old(queue) + [job] else old(queue)
    {
      LeadsSelf(st);
      if stopping || |queue| >= buffer { return false; }
      queue := queue + [job];
      Step(Push(id, job), st);
      ok := true;
    }

    /** The hook after a session is archived. A stored job counts as accepted even when
        the channel has no room: polling finds it. */
    method Enqueue(job: nat, session: nat, out: Outcome) returns (accepted: bool)
      requires Valid() && job !in repo.jobs
      modifies this, repo
      ensures Valid() && Leads(old(st), st)
      ensures accepted <==> out.Done?
      ensures accepted ==> HasSession(repo.jobs, session)
      ensures old(repo.jobs).Keys <= repo.jobs.Keys
    {
      ghost var s0 := st;
      LeadsSelf(s0);
      var r := repo.Enqueue(job, session, maxAttempts, out);
      Step(Persist(job, session, maxAttempts, out), s0);
      if r.NotStored? { return false; }
      if r.Duplicate? { return true; }
      assert repo.jobs[job].session == session;
      ghost var s1 := st;
      var pushed := TryPush(r.id);
      Chain(s0, s1, st);
      accepted := true;
    }

    static lemma Chain(a: State, b: State, c: State)
      requires Leads(a, b) && Leads(b, c)
      ensures Leads(a, c)
    {
      var x :| Run(a, x) == Some(b);
      var y :| Run(b, y) == Some(c);
      RunConcat(a, x, y);
    }

    /** Queues the due jobs in order until the channel is full. */
    method PollDue(listed: bool)
      requires Valid()
      modifies this
      ensures Valid() && Leads(old(st), st) && stopping == old(stopping)
      ensures !listed ==> queue == old(queue)
      ensures listed ==> exists due :: Polled(old(queue), due)
    {
      LeadsSelf(st);
      if !listed { return; }
      var due := repo.ListDue(32);
      var i := 0;
      while i < |due|
        invariant i <= |due| && Valid() && Leads(old(st), st) && stopping == old(stopping)
        invariant queue == old(queue) + due[..i]
      {
        ghost var s1 := st;
        assert due[i] in DueIds(repo.jobs, repo.now);
        var ok := TryPush(due[i]);
        Chain(old(st), s1, st);
        if !ok {
          assert Polled(old(queue), due);
          return;
        }
        i := i + 1;
      }
      assert due[..i] == due;
      assert Polled(old(queue), due);
    }

    /** The queue has grown by the first due jobs, all of them unless there was no room. */
    ghost predicate Polled(was: seq<nat>, due: seq<nat>)
      reads this, repo
    {
      && FirstBy(DueIds(repo.jobs, repo.now), NextRunOf(repo.jobs), 32, due)
      && was <= queue && queue[|was|..] <= due
      && (|queue| < |was| + |due| ==> stopping || |queue| >= buffer)
    }

    method Handle(job: nat, c: Course)
      requires InPhase(Claiming(job))
      modifies this`st, repo
      ensures Valid() && Leads(old(st), st)
      ensures repo.jobs == AfterHandling(old(repo.jobs), job, c, retryBase, repo.now) && repo.now == old(repo.now)
    {
      ghost var s0 := st;
      LeadsSelf(s0);
      var claimed := repo.MarkProcessing(job, c.claim);
      Step(Claim(id, c.claim), s0);
      if !claimed { return; }
      Settle(job, c, s0);
    }

    /** The reflection, and what its result does to the claimed job. */
    method Settle(job: nat, c: Course, ghost s0: State)
      requires InPhase(Reflecting(job)) && Leads(s0, st) && job in repo.jobs
      modifies this`st, repo
      ensures Valid() && Leads(s0, st) && repo.now == old(repo.now)
      ensures var jobs := old(repo.jobs);
        repo.jobs == if c.reflectOk then Applied(c.complete, jobs, Finished(jobs, job))
          else if !c.load then jobs
          else Applied(c.fail, jobs, Retried(jobs, job, jobs[job].attempts + 1, jobs[job].maxAttempts, retryBase,
                                             repo.now))
    {
      Step(Reflected(id, c.reflectOk), s0);
      if c.reflectOk {
        repo.MarkCompleted(job, c.complete);
        Step(Complete(id, c.complete), s0);
      } else {
        Step(Load(id, c.load), s0);
        repo.MarkFailed(job, retryBase, c.load, c.fail);
        if c.load { Step(Event.Fail(id, retryBase, c.fail), s0); }
      }
    }

    /** Drains what is queued. */
    method Shutdown(courses: nat -> Course)
      requires Valid()
      modifies this, repo
      ensures Valid() && Leads(old(st), st) && queue == []
      ensures repo.jobs == AfterAll(old(repo.jobs), old(queue), courses, retryBase, repo.now)
    {
      ghost var s0 := st;
      LeadsSelf(s0);
      while queue != []
        invariant Valid() && Leads(s0, st) && repo.now == old(repo.now)
        invariant AfterAll(repo.jobs, queue, courses, retryBase, repo.now)
          == AfterAll(old(repo.jobs), old(queue), courses, retryBase, repo.now)
        decreases |queue|
      {
        var job := queue[0];
        queue := queue[1..];
        Step(Take(id), s0);
        ghost var s1 := st;
        Handle(job, courses(job));
        Chain(s0, s1, st);
      }
    }
  }

  /** What handling one queued job does to the table: nothing unless it is pending. */
  function AfterHandling(jobs: Jobs, job: nat, c: Course, retryBase: int, now: int): Jobs {
    if job !in jobs || jobs[job].status != Pending || c.claim.Refused? then jobs
    else
      var j := jobs[job];
      var taken := jobs[job := j.(status := Processing)];
      if c.claim.Lost? then taken
      else if c.reflectOk then if c.complete.Refused? then taken else jobs[job := j.(status := Completed)]
      else if !c.load || c.fail.Refused? then taken
      else if j.attempts + 1 >= j.maxAttempts then
        jobs[job := j.(status := Failed, attempts := j.attempts + 1, nextRun := now)]
      else jobs[job := j.(attempts := j.attempts + 1, nextRun := now + Delay(retryBase, j.attempts + 1))]
  }

  function AfterAll(jobs: Jobs, queue: seq<nat>, courses: nat -> Course, retryBase: int, now: int): Jobs {
    if queue == [] then jobs
    else AfterAll(AfterHandling(jobs, queue[0], courses(queue[0]), retryBase, now), queue[1..], courses, retryBase, now)
  }
}
