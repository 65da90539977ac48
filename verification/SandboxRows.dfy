/** What a Destroy can do to a row: nothing to another tenant's, and nothing once it is
    destroyed. */
module SandboxRows {
  import opened Workflow
  import opened Sandbox
  import SandboxLeaks

  /** The step of a Destroy. */
  predicate OfDestroy(s: State, ev: Event) {
    !SandboxLeaks.OfCreate(ev) && !ev.CallDestroy? && !ev.Expire? && ev.pid in s.destroys
  }

  /** In every run: a Destroy of another tenant than the row's changes neither the row nor
      a container. */
  lemma OtherTenantsChangeNothing(evs: seq<Event>, ev: Event)
    requires Run(INIT, evs).Some? && Next(Run(INIT, evs).value, ev).Some?
    requires var s := Run(INIT, evs).value;
      OfDestroy(s, ev) && s.row.Some? && s.row.value.tenant != s.destroys[ev.pid].tenant
    ensures var s := Run(INIT, evs).value; Next(s, ev).value.row == s.row && Next(s, ev).value.live == s.live
  {
    SandboxLeaks.RunHolds(evs);
  }

  /** Past looking at the row and before giving the lock back. */
  predicate Busy(d: Destruction) { d.phase.Marking? || d.phase.Reading? || d.phase.Removing? || d.phase.Finishing? }

  predicate IsDestroyed(s: State) { s.row.Some? && s.row.value.status == Destroyed }

  /** Nobody is busy with a destroyed row. */
  predicate AtRest(s: State) {
    IsDestroyed(s) ==> forall pid | pid in s.destroys :: !Busy(s.destroys[pid])
  }

  /** A row becomes destroyed by the write of a Destroy that is then done with it. */
  lemma BecomesDestroyed(s: State, ev: Event)
    requires Next(s, ev).Some? && IsDestroyed(Next(s, ev).value) && !IsDestroyed(s)
    ensures ev.Finish? && ev.pid in s.destroys && Inside(s.destroys[ev.pid])
    ensures var s' := Next(s, ev).value; s'.destroys == s.destroys[ev.pid := s.destroys[ev.pid].(phase := Releasing)]
  {
  }

  /** Nobody becomes busy with a destroyed row. */
  lemma BecomesBusy(s: State, ev: Event, pid: nat)
    requires Next(s, ev).Some? && pid in Next(s, ev).value.destroys && Busy(Next(s, ev).value.destroys[pid])
    ensures pid in s.destroys && (Busy(s.destroys[pid]) || !IsDestroyed(s))
  {
  }

  lemma StepRests(s: State, ev: Event)
    requires LockInv(s) && AtRest(s) && ev != Expire && Next(s, ev).Some?
    ensures LockInv(Next(s, ev).value) && AtRest(Next(s, ev).value)
  {
    var s' := Next(s, ev).value;
    LockStep(s, ev);
    if IsDestroyed(s') {
      if !IsDestroyed(s) { BecomesDestroyed(s, ev); }
      forall pid | pid in s'.destroys ensures !Busy(s'.destroys[pid]) {
        if Busy(s'.destroys[pid]) { BecomesBusy(s, ev, pid); }
      }
    }
  }

  lemma StepStays(s: State, ev: Event)
    requires AtRest(s) && Next(s, ev).Some? && IsDestroyed(s) && s.create.Returned?
    ensures var s' := Next(s, ev).value; s'.row == s.row && s'.live == s.live && s'.create == s.create
  {
  }

  lemma {:induction false} RunRests(s: State, evs: seq<Event>)
    requires LockInv(s) && AtRest(s) && Expire !in evs && Run(s, evs).Some?
    ensures LockInv(Run(s, evs).value) && AtRest(Run(s, evs).value)
    ensures IsDestroyed(s) && s.create.Returned? ==>
      var s' := Run(s, evs).value; s'.row == s.row && s'.live == s.live && s'.create == s.create
    decreases |evs|
  {
    if |evs| > 0 {
      assert evs[0] in evs && Expire !in evs[1..];
      StepRests(s, evs[0]);
      if IsDestroyed(s) && s.create.Returned? { StepStays(s, evs[0]); }
      RunRests(Next(s, evs[0]).value, evs[1..]);
    }
  }

  /** While no lease runs out, a destroyed row stays as it is once Create has returned, and
      so do the containers, whatever calls come. */
  lemma DestroyedIsFinal(evs: seq<Event>, more: seq<Event>)
    requires Expire !in evs && Expire !in more && Run(INIT, evs).Some? && Run(Run(INIT, evs).value, more).Some?
    requires var s := Run(INIT, evs).value; s.row.Some? && s.row.value.status == Destroyed && s.create.Returned?
    ensures var s := Run(INIT, evs).value; var s' := Run(s, more).value; s'.row == s.row && s'.live == s.live
  {
    RunRests(INIT, evs);
    RunRests(Run(INIT, evs).value, more);
  }
}
