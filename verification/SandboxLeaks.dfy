/** Which runs leak: the exact condition on the events of a run. */
module SandboxLeaks {
  import opened Workflow
  import opened Sandbox

  // ---- The three things that decide ----

  /** Create's compare-and-set takes a pending row and says so. */
  predicate Takes(s: State, ev: Event) {
    ev == RecordContainer(Done) && s.row.Some? && s.row.value.status == Pending
  }

  predicate Marks(ev: Event) { ev.Mark? && !ev.out.Refused? }

  predicate ReadsId(ev: Event) { ev.ReadContainer? && ev.ok }

  predicate TakesAfter(before: seq<Event>, ev: Event) {
    Run(INIT, before).Some? && Takes(Run(INIT, before).value, ev)
  }

  /** Create recorded its container in the row. */
  predicate RowTaken(evs: seq<Event>) { exists i | 0 <= i < |evs| :: TakesAfter(evs[..i], evs[i]) }

  /** Some Destroy's write of `destroying` was applied, answered or not. */
  predicate RowMarked(evs: seq<Event>) { exists e | e in evs :: Marks(e) }

  /** Some Destroy read the container id. */
  predicate IdRead(evs: seq<Event>) { exists e | e in evs :: ReadsId(e) }

  // ---- What holds on the way ----

  datatype History = History(taken: bool, marked: bool, read: bool)

  function Seen(h: History, s: State, ev: Event): History {
    History(h.taken || Takes(s, ev), h.marked || Marks(ev), h.read || ReadsId(ev))
  }

  predicate CreateOk(s: State, h: History) {
    match s.create
    case NotStarted => s.row.None? && s.live == {}
    case Inserting(_) => s.row.None? && s.live == {}
    case Creating => s.row.Some? && s.row.value.cid.None? && s.live == {}
    case MarkingFailed => s.row.Some? && s.row.value.cid.None? && s.live == {}
    case Starting(c) => s.row.Some? && s.row.value.cid.None? && s.live == {c}
    case Recording(c) => s.row.Some? && s.row.value.cid.None? && s.live == {c}
    case Dropping(c) => s.row.Some? && s.live <= {c}
    case Returned => h.taken || s.live == {}
  }

  predicate RowOkFor(s: State, h: History) {
    && (h.marked ==> s.row.Some? && s.row.value.status != Pending)
    && (h.taken ==>
        && s.create.Returned?
        && s.row.Some?
        && s.row.value.cid.Some?
        && (if h.marked then s.row.value.status in {Destroying, Destroyed} else s.row.value.status == Running))
  }

  /** A Destroy past its write has it in the history; one about to remove a container
      has read the row's id. */
  predicate DestroyOk(s: State, h: History, d: Destruction) {
    && Owns(s, d)
    && (Past(d) ==> h.marked)
    && (d.phase.Removing? && d.phase.cid.Some? ==> h.read && s.row.Some? && s.row.value.cid == d.phase.cid)
  }

  /** A container the row took lives until a Destroy that read its id removes it. */
  ghost predicate LiveOkFor(s: State, h: History) {
    h.taken ==>
      && s.row.Some?
      && s.row.value.cid.Some?
      && if h.read then
           && s.live <= {s.row.value.cid.value}
           && (s.live != {} ==> exists pid :: pid in s.destroys && s.destroys[pid].phase == Removing(s.row.value.cid))
         else s.live == {s.row.value.cid.value}
  }

  ghost predicate Holds(s: State, h: History) {
    && CreateOk(s, h)
    && RowOkFor(s, h)
    && (h.read ==> h.marked)
    && (forall pid | pid in s.destroys :: pid in s.used && DestroyOk(s, h, s.destroys[pid]))
    && LiveOkFor(s, h)
  }

  predicate OfCreate(ev: Event) {
    || ev.CallCreate? || ev.InsertRow? || ev.CreateContainer? || ev.StartContainer?
    || ev.RecordContainer? || ev.MarkFailed? || ev.DropContainer?
  }

  lemma CreateKeepsHistory(s: State, h: History, ev: Event)
    requires Holds(s, h) && OfCreate(ev) && Next(s, ev).Some?
    ensures Holds(Next(s, ev).value, Seen(h, s, ev))
  {
    var s', h' := Next(s, ev).value, Seen(h, s, ev);
    forall pid | pid in s'.destroys ensures pid in s'.used && DestroyOk(s', h', s'.destroys[pid]) {
      assert pid in s.used && DestroyOk(s, h, s.destroys[pid]);
    }
  }

  /** A step of one Destroy cancels no removal of another. */
  lemma OthersRemove(s: State, s': State, h: History, moved: nat)
    requires LiveOkFor(s, h) && s'.live == s.live && s.row.Some? == s'.row.Some?
    requires s.row.Some? ==> s'.row.value.cid == s.row.value.cid
    requires moved in s.destroys && s.destroys[moved].phase.Removing? ==> s'.destroys == s.destroys
    requires forall q | q in s.destroys && q != moved :: q in s'.destroys && s'.destroys[q] == s.destroys[q]
    ensures LiveOkFor(s', h)
  {
    if h.taken && h.read && s'.live != {} {
      var pid :| pid in s.destroys && s.destroys[pid].phase == Removing(s.row.value.cid);
      assert pid in s'.destroys && s'.destroys[pid] == s.destroys[pid];
    }
  }

  /** Steps of a Destroy that change neither the row nor the containers. */
  predicate Plain(ev: Event) {
    ev.CallDestroy? || ev.TryLock? || ev.GiveUp? || ev.Look? || ev.Release? || ev.Expire?
  }

  lemma PlainKeepsHistory(s: State, h: History, ev: Event)
    requires Holds(s, h) && Plain(ev) && Next(s, ev).Some?
    ensures Holds(Next(s, ev).value, Seen(h, s, ev))
  {
    var s' := Next(s, ev).value;
    assert Seen(h, s, ev) == h;
    forall pid | pid in s'.destroys ensures pid in s'.used && DestroyOk(s', h, s'.destroys[pid]) {
      if pid in s.destroys { assert pid in s.used && DestroyOk(s, h, s.destroys[pid]); }
    }
    OthersRemove(s, s', h, if ev.Expire? then 0 else ev.pid);
  }

  lemma WriteKeepsHistory(s: State, h: History, ev: Event)
    requires Holds(s, h) && (ev.Mark? || ev.Finish?) && Next(s, ev).Some?
    ensures Holds(Next(s, ev).value, Seen(h, s, ev))
  {
    var s', h' := Next(s, ev).value, Seen(h, s, ev);
    assert DestroyOk(s, h, s.destroys[ev.pid]);
    forall pid | pid in s'.destroys ensures pid in s'.used && DestroyOk(s', h', s'.destroys[pid]) {
      assert pid in s.used && DestroyOk(s, h, s.destroys[pid]);
    }
    OthersRemove(s, s', h, ev.pid);
  }

  lemma ReadKeepsHistory(s: State, h: History, ev: Event)
    requires Holds(s, h) && ev.ReadContainer? && Next(s, ev).Some?
    ensures Holds(Next(s, ev).value, Seen(h, s, ev))
  {
    var s', h' := Next(s, ev).value, Seen(h, s, ev);
    assert DestroyOk(s, h, s.destroys[ev.pid]);
    forall pid | pid in s'.destroys ensures pid in s'.used && DestroyOk(s', h', s'.destroys[pid]) {
      assert pid in s.used && DestroyOk(s, h, s.destroys[pid]);
    }
    if h.taken && h'.read && s'.live != {} {
      if ev.ok { assert s'.destroys[ev.pid].phase == Removing(s'.row.value.cid); }
      else {
        var pid :| pid in s.destroys && s.destroys[pid].phase == Removing(s.row.value.cid);
        assert pid in s'.destroys && s'.destroys[pid] == s.destroys[pid];
      }
    }
  }

  lemma RemoveKeepsHistory(s: State, h: History, ev: Event)
    requires Holds(s, h) && ev.RemoveContainer? && Next(s, ev).Some?
    ensures Holds(Next(s, ev).value, Seen(h, s, ev))
  {
    var s', d := Next(s, ev).value, s.destroys[ev.pid];
    assert Seen(h, s, ev) == h && DestroyOk(s, h, d);
    forall pid | pid in s'.destroys ensures pid in s'.used && DestroyOk(s', h, s'.destroys[pid]) {
      assert pid in s.used && DestroyOk(s, h, s.destroys[pid]);
    }
    if h.taken && h.read && s'.live != {} {
      assert d.phase.cid.None?;
      var pid :| pid in s.destroys && s.destroys[pid].phase == Removing(s.row.value.cid);
      assert pid in s'.destroys && s'.destroys[pid] == s.destroys[pid];
    }
  }

  lemma NextKeepsHistory(s: State, h: History, ev: Event)
    requires Holds(s, h) && Next(s, ev).Some?
    ensures Holds(Next(s, ev).value, Seen(h, s, ev))
  {
    if OfCreate(ev) { CreateKeepsHistory(s, h, ev); }
    else if Plain(ev) { PlainKeepsHistory(s, h, ev); }
    else if ev.ReadContainer? { ReadKeepsHistory(s, h, ev); }
    else if ev.RemoveContainer? { RemoveKeepsHistory(s, h, ev); }
    else { WriteKeepsHistory(s, h, ev); }
  }

  function Of(evs: seq<Event>): History { History(RowTaken(evs), RowMarked(evs), IdRead(evs)) }

  lemma TakenSnoc(evs: seq<Event>, e: Event)
    ensures RowTaken(evs + [e]) <==> RowTaken(evs) || TakesAfter(evs, e)
  {
    var all, n := evs + [e], |evs|;
    assert all[..n] == evs && all[n] == e;
    forall i | 0 <= i < n ensures all[..i] == evs[..i] && all[i] == evs[i] { }
    if i :| 0 <= i < n && TakesAfter(evs[..i], evs[i]) { assert TakesAfter(all[..i], all[i]); }
    if TakesAfter(evs, e) { assert TakesAfter(all[..n], all[n]); }
  }

  lemma OfSnoc(evs: seq<Event>, e: Event)
    requires Run(INIT, evs).Some?
    ensures Of(evs + [e]) == Seen(Of(evs), Run(INIT, evs).value, e)
  {
    TakenSnoc(evs, e);
    assert forall x :: x in evs + [e] <==> x in evs || x == e;
    assert e in evs + [e];
  }

  lemma {:induction false} PrefixRuns(s: State, a: seq<Event>, b: seq<Event>)
    requires Run(s, a + b).Some?
    ensures Run(s, a).Some?
    decreases |a|
  {
    if |a| > 0 {
      assert (a + b)[0] == a[0] && (a + b)[1..] == a[1..] + b;
      PrefixRuns(Next(s, a[0]).value, a[1..], b);
    }
  }

  lemma {:induction false} RunHolds(evs: seq<Event>)
    requires Run(INIT, evs).Some?
    ensures Holds(Run(INIT, evs).value, Of(evs))
    decreases |evs|
  {
    if |evs| > 0 {
      var most, e := evs[..|evs| - 1], evs[|evs| - 1];
      assert evs == most + [e];
      PrefixRuns(INIT, most, [e]);
      RunConcat(INIT, most, [e]);
      RunHolds(most);
      NextKeepsHistory(Run(INIT, most).value, Of(most), e);
      OfSnoc(most, e);
      assert [e][1..] == [];
    }
  }

  /** A run that has come to rest has leaked a container exactly when the row took it, a
      write of `destroying` was applied after that, and no Destroy read its id. Then the
      row still has it, destroying or destroyed. */
  lemma LeaksExactly(evs: seq<Event>)
    requires Run(INIT, evs).Some? && Quiet(Run(INIT, evs).value)
    ensures var s := Run(INIT, evs).value;
      && (!Tracked(s) <==> RowTaken(evs) && RowMarked(evs) && !IdRead(evs))
      && (!Tracked(s) ==>
          && s.row.Some?
          && s.row.value.status in {Destroying, Destroyed}
          && s.row.value.cid.Some?
          && s.live == {s.row.value.cid.value})
  {
    RunHolds(evs);
  }
}
