/** What the table of jobs says: each row tells the attempts that failed, the success, and
    when the job runs next. */
module ReflectionRetries {
  import opened Workflow
  import opened Reflection

  function Least(a: int, b: int): int { if a < b then a else b }

  /** The wait after failures: the base, a minute without one, doubled by each further
      failure up to the eleventh, and never more than an hour. */
  lemma DelayDoubles(base: int, n: nat)
    requires n > 0
    ensures 0 < Delay(base, n) <= 60 * MINUTE && MINUTE == 60 * 1000000000
    ensures n == 1 ==> Delay(base, n) == Least(if base > 0 then base else MINUTE, 60 * MINUTE)
    ensures n <= 10 ==> Delay(base, n + 1) == Least(2 * Delay(base, n), 60 * MINUTE)
    ensures n >= 11 ==> Delay(base, n + 1) == Delay(base, n)
  {
    var b, k := Default(base, MINUTE), if n - 1 > 10 then 10 else n - 1;
    Positive(b, k);
    Positive(b, k + 1);
    assert Pow2(k + 1) == 2 * Pow2(k) && b * (2 * Pow2(k)) == 2 * (b * Pow2(k));
  }

  lemma {:induction false} Positive(b: int, k: nat)
    requires b > 0
    ensures b * Pow2(k) > 0
    decreases k
  {
    if k > 0 { Positive(b, k - 1); }
  }

  /** What has happened to one job: its making, the attempts that failed, and whether one
      succeeded. `at` is when it was made or failed last. */
  datatype Past = NotMade | Past(session: nat, max: int, failures: nat, at: int, base: int, succeeded: bool)

  /** The event makes the job: applied, and no job has the session yet. */
  predicate Makes(s: State, ev: Event, id: nat) {
    ev.Persist? && ev.id == id && !ev.out.Refused? && forall j | j in s.jobs :: s.jobs[j].session != ev.session
  }

  /** The event stores a failed attempt of the job. */
  predicate StoresFailure(s: State, ev: Event, id: nat) {
    && ev.Fail? && !ev.out.Refused?
    && ev.w in s.workers && s.workers[ev.w].phase.Failing? && s.workers[ev.w].phase.id == id
  }

  predicate StoresSuccess(s: State, ev: Event, id: nat) {
    ev.Complete? && !ev.out.Refused? && ev.w in s.workers && s.workers[ev.w].phase == Completing(id)
  }

  function Then(p: Past, s: State, ev: Event, id: nat): Past {
    if p.NotMade? then if Makes(s, ev, id) then Past(ev.session, ev.maxAttempts, 0, s.now, 0, false) else p
    else if StoresFailure(s, ev, id) then p.(failures := p.failures + 1, at := s.now, base := ev.retryBase)
    else if StoresSuccess(s, ev, id) then p.(succeeded := true)
    else p
  }

  function PastOf(evs: seq<Event>, id: nat): Past
    requires Run(INIT, evs).Some?
    decreases |evs|
  {
    if |evs| == 0 then NotMade
    else
      var n := |evs| - 1;
      RunSplits(evs);
      Then(PastOf(evs[..n], id), Run(INIT, evs[..n]).value, evs[n], id)
  }

  lemma RunSplits(evs: seq<Event>)
    requires |evs| > 0 && Run(INIT, evs).Some?
    ensures var n := |evs| - 1;
      Run(INIT, evs[..n]).Some? && Next(Run(INIT, evs[..n]).value, evs[n]) == Run(INIT, evs)
  {
    SplitsFrom(INIT, evs);
  }

  lemma {:induction false} SplitsFrom(s: State, evs: seq<Event>)
    requires |evs| > 0 && Run(s, evs).Some?
    ensures var n := |evs| - 1; Run(s, evs[..n]).Some? && Next(Run(s, evs[..n]).value, evs[n]) == Run(s, evs)
    decreases |evs|
  {
    var n := |evs| - 1;
    if n == 0 { assert evs[1..] == []; }
    else {
      SplitsFrom(Next(s, evs[0]).value, evs[1..]);
      assert evs[..n][0] == evs[0] && evs[..n][1..] == evs[1..][..n - 1];
    }
  }

  /** The row tells the job's past. */
  predicate Tells(s: State, id: nat, p: Past) {
    if p.NotMade? then id !in s.jobs
    else
      && id in s.jobs
      && var j := s.jobs[id];
      && j.session == p.session && j.attempts == p.failures
      && j.maxAttempts == (if p.max > 0 then p.max else 3)
      && (j.status == Completed <==> p.succeeded)
      && (j.status == Failed <==> j.attempts == j.maxAttempts)
      && (j.status == Pending ==> j.nextRun == p.at + if p.failures == 0 then 0 else Delay(p.base, p.failures))
  }

  lemma StepTells(s: State, ev: Event, id: nat, p: Past)
    requires Inv(s) && Tells(s, id, p) && Next(s, ev).Some?
    ensures Tells(Next(s, ev).value, id, Then(p, s, ev, id))
  {
    if ev.Fail? || ev.Complete? { SettlingTells(s, ev, id, p); }
    else if !ev.Persist? { OthersTell(s, ev, id, p); }
  }

  lemma SettlingTells(s: State, ev: Event, id: nat, p: Past)
    requires Inv(s) && Tells(s, id, p) && Next(s, ev).Some? && (ev.Fail? || ev.Complete?)
    ensures Tells(Next(s, ev).value, id, Then(p, s, ev, id))
  {
    var held := s.workers[ev.w].phase.id;
    assert WorkerOk(s, ev.w);
    if held == id {
      assert Holds(s.workers[ev.w], id);
      assert JobOk(s, id);
    }
    if ev.Complete? { CompletionTells(s, ev, id, p, held); } else { FailureTells(s, ev, id, p, held); }
  }

  lemma CompletionTells(s: State, ev: Event, id: nat, p: Past, held: nat)
    requires Tells(s, id, p) && Next(s, ev).Some? && ev.Complete? && s.workers[ev.w].phase == Completing(held)
    requires held == id ==> id in s.jobs && s.jobs[id].status == Processing && JobOk(s, id)
    ensures Tells(Next(s, ev).value, id, Then(p, s, ev, id))
  {
    assert Next(s, ev).value.jobs == Applied(ev.out, s.jobs, Finished(s.jobs, held));
  }

  lemma FailureTells(s: State, ev: Event, id: nat, p: Past, held: nat)
    requires Tells(s, id, p) && Next(s, ev).Some? && ev.Fail? && s.workers[ev.w].phase.id == held
    requires held == id ==> id in s.jobs && s.jobs[id].status == Processing && JobOk(s, id) && WorkerOk(s, ev.w)
    ensures Tells(Next(s, ev).value, id, Then(p, s, ev, id))
  {
    var x := s.workers[ev.w].phase;
    assert Next(s, ev).value.jobs
      == Applied(ev.out, s.jobs, Retried(s.jobs, held, x.attempts, x.maxAttempts, ev.retryBase, s.now));
  }

  /** Claims and channels change no more than whether a job is pending. */
  lemma OthersTell(s: State, ev: Event, id: nat, p: Past)
    requires Tells(s, id, p) && Next(s, ev).Some? && !ev.Fail? && !ev.Complete? && !ev.Persist?
    ensures Tells(Next(s, ev).value, id, Then(p, s, ev, id))
  {
    var jobs := Next(s, ev).value.jobs;
    assert jobs == s.jobs || (ev.Claim? && jobs == Claimed(s.jobs, s.workers[ev.w].phase.id));
  }

  /** Whatever the workers, polls and failing statements: a job's row holds the session it
      was made for, as many attempts as failures were stored, completed exactly after a
      success was, failed exactly when the attempts are used up; and a pending job runs at
      once at first, later after the wait its failures have earned. */
  lemma {:induction false} RowsTellThePast(evs: seq<Event>, id: nat)
    requires Run(INIT, evs).Some?
    ensures Tells(Run(INIT, evs).value, id, PastOf(evs, id))
    decreases |evs|
  {
    if |evs| > 0 {
      var n := |evs| - 1;
      RunSplits(evs);
      RowsTellThePast(evs[..n], id);
      RunKeeps(INIT, evs[..n]);
      StepTells(Run(INIT, evs[..n]).value, evs[n], id, PastOf(evs[..n], id));
    }
  }
}
