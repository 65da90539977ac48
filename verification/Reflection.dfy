/** The reflection job queue: any number of workers with a channel each, over one table of
    jobs. Every statement on the table, every channel operation and every start and end of
    a reflection is one step. */
module Reflection {
  import opened Workflow

  datatype Status = Pending | Processing | Completed | Failed

  datatype Job = Job(session: nat, status: Status, attempts: nat, maxAttempts: nat, nextRun: int)

  type Jobs = map<nat, Job>

  /** What became of a write: done, applied although an error came back, or refused. */
  datatype Outcome = Done | Lost | Refused

  const HOUR: int := 3600000000000
  const MINUTE: int := 60000000000

  function Default(n: int, d: int): int { if n <= 0 then d else n }

  function Pow2(k: nat): nat { if k == 0 then 1 else 2 * Pow2(k - 1) }

  /** Exponential backoff: doubling at most ten times, at most an hour. */
  function Delay(retryBase: int, attempts: nat): int
    requires attempts > 0
  {
    var shift := if attempts - 1 > 10 then 10 else attempts - 1;
    var d := Default(retryBase, MINUTE) * Pow2(shift);
    if d > HOUR then HOUR else d
  }

  // ---- Statements on the table ----

  predicate HasSession(jobs: Jobs, session: nat) { exists id :: id in jobs && jobs[id].session == session }

  /** Insert, unless the session has a job already. */
  function Inserted(jobs: Jobs, id: nat, session: nat, maxAttempts: int, now: int): Jobs {
    if HasSession(jobs, session) then jobs
    else jobs[id := Job(session, Pending, 0, Default(maxAttempts, 3), now)]
  }

  /** Pending to processing, and nothing else. */
  function Claimed(jobs: Jobs, id: nat): Jobs {
    if id in jobs && jobs[id].status == Pending then jobs[id := jobs[id].(status := Processing)] else jobs
  }

  function Finished(jobs: Jobs, id: nat): Jobs {
    if id in jobs then jobs[id := jobs[id].(status := Completed)] else jobs
  }

  /** The retry or the terminal failure, from counts read earlier. */
  function Retried(jobs: Jobs, id: nat, attempts: nat, maxAttempts: nat, retryBase: int, now: int): Jobs
    requires attempts > 0
  {
    if id !in jobs then jobs
    else if attempts >= maxAttempts then
      jobs[id := jobs[id].(status := Failed, attempts := attempts, nextRun := now)]
    else
      jobs[id := jobs[id].(status := Pending, attempts := attempts, nextRun := now + Delay(retryBase, attempts))]
  }

  predicate Due(j: Job, now: int) { j.status == Pending && j.nextRun <= now && j.attempts < j.maxAttempts }

  // ---- Workers ----

  datatype Phase =
    | Idle
    | Claiming(id: nat)
    | Reflecting(id: nat)
    | Loading(id: nat)
    | Failing(id: nat, attempts: nat, maxAttempts: nat)
    | Completing(id: nat)

  datatype Worker = Worker(phase: Phase, queue: seq<nat>, buffer: nat, stopping: bool)

  /** `runs` counts the reflections started for each job. */
  datatype State = State(jobs: Jobs, workers: map<nat, Worker>, runs: map<nat, nat>, now: int)

  datatype Event =
    | Join(w: nat, buffer: nat)
    | Persist(id: nat, session: nat, maxAttempts: int, out: Outcome)
    | Push(w: nat, id: nat)
    | Take(w: nat)
    | Claim(w: nat, out: Outcome)
    | Reflected(w: nat, ok: bool)
    | Load(w: nat, ok: bool)
    | Fail(w: nat, retryBase: int, out: Outcome)
    | Complete(w: nat, out: Outcome)
    | StopWorker(w: nat)
    | Pass(t: nat)

  function RunsOf(s: State, id: nat): nat { if id in s.runs then s.runs[id] else 0 }

  function In(s: State, w: nat, phase: Phase): State
    requires w in s.workers
  {
    s.(workers := s.workers[w := s.workers[w].(phase := phase)])
  }

  function Applied(out: Outcome, jobs: Jobs, jobs': Jobs): Jobs { if out.Refused? then jobs else jobs' }

  function Next(s: State, ev: Event): Option<State> {
    match ev
    case Join(w, buffer) =>
      if w in s.workers then None else Some(s.(workers := s.workers[w := Worker(Idle, [], buffer, false)]))
    case Persist(id, session, max, out) =>
      if id in s.jobs then None
      else Some(s.(jobs := Applied(out, s.jobs, Inserted(s.jobs, id, session, max, s.now))))
    case Pass(t) => Some(s.(now := s.now + t))
    case _ => if ev.w in s.workers then WorkerNext(s, ev, s.workers[ev.w]) else None
  }

  function WorkerNext(s: State, ev: Event, x: Worker): Option<State>
    requires !ev.Join? && !ev.Persist? && !ev.Pass? && ev.w in s.workers && s.workers[ev.w] == x
  {
    match ev
    case Push(w, id) =>
      // any job, any number of times, unless the worker stops or its channel is full
      if x.stopping || |x.queue| >= x.buffer || id !in s.jobs then None
      else Some(s.(workers := s.workers[w := x.(queue := x.queue + [id])]))
    case Take(w) =>
      if !x.phase.Idle? || x.queue == [] then None
      else Some(s.(workers := s.workers[w := x.(phase := Claiming(x.queue[0]), queue := x.queue[1..])]))
    case Claim(w, out) =>
      if !x.phase.Claiming? then None
      else
        var id := x.phase.id;
        var got := out.Done? && id in s.jobs && s.jobs[id].status == Pending;
        var s' := s.(jobs := Applied(out, s.jobs, Claimed(s.jobs, id)));
        if got then Some(In(s', w, Reflecting(id)).(runs := s.runs[id := RunsOf(s, id) + 1])) else Some(In(s', w, Idle))
    case Reflected(w, ok) =>
      if !x.phase.Reflecting? then None
      else Some(In(s, w, if ok then Completing(x.phase.id) else Loading(x.phase.id)))
    case Load(w, ok) =>
      if !x.phase.Loading? then None
      else if !ok || x.phase.id !in s.jobs then Some(In(s, w, Idle))
      else var j := s.jobs[x.phase.id]; Some(In(s, w, Failing(x.phase.id, j.attempts + 1, j.maxAttempts)))
    case Fail(w, retryBase, out) =>
      if !x.phase.Failing? || x.phase.attempts == 0 then None
      else
        var p := x.phase;
        Some(In(s.(jobs := Applied(out, s.jobs, Retried(s.jobs, p.id, p.attempts, p.maxAttempts, retryBase, s.now))),
                w, Idle))
    case Complete(w, out) =>
      if !x.phase.Completing? then None
      else Some(In(s.(jobs := Applied(out, s.jobs, Finished(s.jobs, x.phase.id))), w, Idle))
    case StopWorker(w) => Some(s.(workers := s.workers[w := x.(stopping := true)]))
  }

  const INIT: State := State(map[], map[], map[], 0)

  function Run(s: State, evs: seq<Event>): Option<State>
    decreases |evs|
  {
    if evs == [] then Some(s)
    else
      match Next(s, evs[0])
      case None => None
      case Some(s') => Run(s', evs[1..])
  }

  // ---- Safety ----

  /** The worker has claimed the job and not yet settled it. */
  predicate Holds(x: Worker, id: nat) {
    match x.phase
    case Reflecting(j) => j == id
    case Loading(j) => j == id
    case Failing(j, _, _) => j == id
    case Completing(j) => j == id
    case _ => false
  }

  ghost predicate WorkerOk(s: State, w: nat)
    requires w in s.workers
  {
    var x := s.workers[w];
    && (forall id :: Holds(x, id) ==> id in s.jobs && s.jobs[id].status == Processing)
    && (x.phase.Failing? ==>
        x.phase.id in s.jobs && x.phase.attempts == s.jobs[x.phase.id].attempts + 1
        && x.phase.maxAttempts == s.jobs[x.phase.id].maxAttempts)
  }

  predicate JobOk(s: State, id: nat)
    requires id in s.jobs
  {
    var j := s.jobs[id];
    && j.maxAttempts > 0
    && (j.status == Pending ==> j.attempts < j.maxAttempts && RunsOf(s, id) <= j.attempts)
    && (j.status == Processing ==> j.attempts < j.maxAttempts && RunsOf(s, id) <= j.attempts + 1)
    && RunsOf(s, id) <= j.maxAttempts
  }

  ghost predicate Inv(s: State) {
    && (forall id | id in s.jobs :: JobOk(s, id))
    && (forall w | w in s.workers :: WorkerOk(s, w))
    && (forall v, w, id | v in s.workers && w in s.workers && Holds(s.workers[v], id) && Holds(s.workers[w], id) ::
          v == w)
    && (forall a, b | a in s.jobs && b in s.jobs && s.jobs[a].session == s.jobs[b].session :: a == b)
    && (forall id | id in s.runs :: id in s.jobs)
  }

  predicate Terminal(j: Job) { j.status == Completed || j.status == Failed }

  /** Jobs stay, their sessions and limits too, attempts only grow, and a terminal job does
      not change at all. */
  predicate Later(jobs: Jobs, jobs': Jobs) {
    forall id | id in jobs ::
      && id in jobs' && jobs'[id].session == jobs[id].session && jobs'[id].maxAttempts == jobs[id].maxAttempts
      && jobs[id].attempts <= jobs'[id].attempts
      && (Terminal(jobs[id]) ==> jobs'[id] == jobs[id])
  }

  /** One worker settles or claims one job; nobody else is touched. */
  lemma SettleKeeps(s: State, s': State, w: nat, id: nat)
    requires Inv(s) && w in s.workers && s'.workers.Keys == s.workers.Keys && s'.jobs.Keys == s.jobs.Keys
    requires forall v | v in s.workers && v != w :: s'.workers[v] == s.workers[v]
    requires forall a | a in s.jobs && a != id :: s'.jobs[a] == s.jobs[a] && RunsOf(s', a) == RunsOf(s, a)
    requires id in s.jobs ==> s'.jobs[id].session == s.jobs[id].session && JobOk(s', id)
    requires forall v | v in s.workers && v != w :: !Holds(s.workers[v], id)
    requires forall a :: Holds(s'.workers[w], a) ==> a == id
    requires WorkerOk(s', w) && forall a | a in s'.runs :: a in s'.jobs
    ensures Inv(s')
  {
    forall a | a in s'.jobs ensures JobOk(s', a) { assert JobOk(s, a); }
    forall v | v in s'.workers ensures WorkerOk(s', v) { assert WorkerOk(s, v); }
  }

  /** A worker that goes on with the job it holds, or holds none. */
  predicate GoesOn(s: State, p: Phase, p': Phase) {
    match p'
    case Idle => true
    case Claiming(_) => true
    case Reflecting(_) => p' == p
    case Loading(id) => p' == p || p == Reflecting(id)
    case Completing(id) => p' == p || p == Reflecting(id)
    case Failing(id, n, m) =>
      p' == p || (p == Loading(id) && id in s.jobs && n == s.jobs[id].attempts + 1 && m == s.jobs[id].maxAttempts)
  }

  /** Steps that leave the table alone. */
  lemma TableUntouched(s: State, s': State)
    requires Inv(s) && s'.jobs == s.jobs && s'.runs == s.runs
    requires forall v | v in s'.workers ::
      GoesOn(s, if v in s.workers then s.workers[v].phase else Idle, s'.workers[v].phase)
    ensures Inv(s')
  {
    forall a | a in s'.jobs ensures JobOk(s', a) { assert JobOk(s, a); }
    forall v, id | v in s'.workers && Holds(s'.workers[v], id) ensures v in s.workers && Holds(s.workers[v], id) { }
    forall v | v in s'.workers ensures WorkerOk(s', v) {
      if v in s.workers { assert WorkerOk(s, v); }
    }
  }

  lemma ClaimKeeps(s: State, ev: Event)
    requires Inv(s) && ev.Claim? && Next(s, ev).Some?
    ensures Inv(Next(s, ev).value) && Later(s.jobs, Next(s, ev).value.jobs)
  {
    var s', w, out := Next(s, ev).value, ev.w, ev.out;
    var id := s.workers[w].phase.id;
    if id in s.jobs && s.jobs[id].status == Pending && !out.Refused? {
      assert s'.jobs == s.jobs[id := s.jobs[id].(status := Processing)];
      assert s'.workers == s.workers[w := s.workers[w].(phase := if out.Done? then Reflecting(id) else Idle)];
      assert s'.runs == if out.Done? then s.runs[id := RunsOf(s, id) + 1] else s.runs;
      ClaimTakes(s, s', w, id, out.Done?);
    } else {
      assert s'.jobs == s.jobs;
      TableUntouched(s, s');
    }
  }

  /** A pending job is taken; `told` says whether the worker knows. */
  lemma ClaimTakes(s: State, s': State, w: nat, id: nat, told: bool)
    requires Inv(s) && w in s.workers && s.workers[w].phase == Claiming(id)
    requires id in s.jobs && s.jobs[id].status == Pending && s'.jobs == s.jobs[id := s.jobs[id].(status := Processing)]
    requires s'.workers == s.workers[w := s.workers[w].(phase := if told then Reflecting(id) else Idle)]
    requires s'.runs == if told then s.runs[id := RunsOf(s, id) + 1] else s.runs
    ensures Inv(s') && Later(s.jobs, s'.jobs)
  {
    assert JobOk(s, id);
    forall v | v in s.workers ensures !Holds(s.workers[v], id) { assert WorkerOk(s, v); }
    SettleKeeps(s, s', w, id);
  }

  lemma SettleStep(s: State, ev: Event)
    requires Inv(s) && (ev.Fail? || ev.Complete?) && Next(s, ev).Some?
    ensures Inv(Next(s, ev).value) && Later(s.jobs, Next(s, ev).value.jobs)
  {
    var s', w, id := Next(s, ev).value, ev.w, s.workers[ev.w].phase.id;
    assert WorkerOk(s, w) && Holds(s.workers[w], id) && JobOk(s, id);
    assert s'.workers == s.workers[w := s.workers[w].(phase := Idle)] && s'.runs == s.runs;
    Settles(s, s', ev, id);
    SettleKeeps(s, s', w, id);
  }

  /** Only the worker's job changes, to a state its counts allow. */
  lemma Settles(s: State, s': State, ev: Event, id: nat)
    requires (ev.Fail? || ev.Complete?) && Next(s, ev) == Some(s') && s.workers[ev.w].phase.id == id
    requires id in s.jobs && s.jobs[id].status == Processing && JobOk(s, id) && WorkerOk(s, ev.w)
    ensures s'.jobs.Keys == s.jobs.Keys && (forall a | a in s.jobs && a != id :: s'.jobs[a] == s.jobs[a])
    ensures s'.jobs[id].session == s.jobs[id].session && JobOk(s', id) && Later(s.jobs, s'.jobs)
  {
    if ev.Complete? {
      assert s'.jobs == Applied(ev.out, s.jobs, s.jobs[id := s.jobs[id].(status := Completed)]);
    } else {
      var p := s.workers[ev.w].phase;
      assert s'.jobs == Applied(ev.out, s.jobs, Retried(s.jobs, id, p.attempts, p.maxAttempts, ev.retryBase, s.now));
    }
  }

  lemma OtherStep(s: State, ev: Event)
    requires Inv(s) && !ev.Claim? && !ev.Fail? && !ev.Complete? && !ev.Persist? && Next(s, ev).Some?
    ensures Inv(Next(s, ev).value) && Later(s.jobs, Next(s, ev).value.jobs)
  {
    TableUntouched(s, Next(s, ev).value);
  }

  lemma PersistKeeps(s: State, ev: Event)
    requires Inv(s) && ev.Persist? && Next(s, ev).Some?
    ensures Inv(Next(s, ev).value) && Later(s.jobs, Next(s, ev).value.jobs)
  {
    var s' := Next(s, ev).value;
    forall a | a in s'.jobs ensures JobOk(s', a) { if a in s.jobs { assert JobOk(s, a); } }
    forall v | v in s'.workers ensures WorkerOk(s', v) { assert WorkerOk(s, v); }
  }

  lemma {:induction false} RunKeeps(s: State, evs: seq<Event>)
    requires Inv(s) && Run(s, evs).Some?
    ensures Inv(Run(s, evs).value) && Later(s.jobs, Run(s, evs).value.jobs)
    decreases |evs|
  {
    if evs != [] {
      var ev := evs[0];
      if ev.Claim? { ClaimKeeps(s, ev); }
      else if ev.Fail? || ev.Complete? { SettleStep(s, ev); }
      else if ev.Persist? { PersistKeeps(s, ev); }
      else { OtherStep(s, ev); }
      RunKeeps(Next(s, ev).value, evs[1..]);
    }
  }

  /** With any number of workers, polls, duplicate channel entries and failing statements:
      one job a session, one worker at a time on a job, no more reflections of a job than
      its maximum, and pending jobs have attempts left. */
  lemma QueueIsSafe(evs: seq<Event>)
    requires Run(INIT, evs).Some?
    ensures var s := Run(INIT, evs).value;
      && (forall a, b | a in s.jobs && b in s.jobs && s.jobs[a].session == s.jobs[b].session :: a == b)
      && (forall v, w | v in s.workers && w in s.workers && s.workers[v].phase.Reflecting?
            && s.workers[v].phase == s.workers[w].phase :: v == w)
      && (forall id | id in s.jobs :: RunsOf(s, id) <= s.jobs[id].maxAttempts
            && (s.jobs[id].status == Pending ==> s.jobs[id].attempts < s.jobs[id].maxAttempts))
  {
    RunKeeps(INIT, evs);
    var s := Run(INIT, evs).value;
    forall id | id in s.jobs ensures JobOk(s, id) { }
    forall v, w | v in s.workers && w in s.workers && s.workers[v].phase.Reflecting?
      && s.workers[v].phase == s.workers[w].phase ensures v == w
    {
      assert Holds(s.workers[v], s.workers[v].phase.id) && Holds(s.workers[w], s.workers[v].phase.id);
    }
  }

  /** Completed and failed are never left. */
  lemma TerminalIsFinal(evs: seq<Event>, more: seq<Event>, id: nat)
    requires Run(INIT, evs).Some? && Run(Run(INIT, evs).value, more).Some?
    requires var s := Run(INIT, evs).value; id in s.jobs && Terminal(s.jobs[id])
    ensures var s, s' := Run(INIT, evs).value, Run(Run(INIT, evs).value, more).value;
      id in s'.jobs && s'.jobs[id] == s.jobs[id]
  {
    RunKeeps(INIT, evs);
    RunKeeps(Run(INIT, evs).value, more);
  }
}
