/** Cron claims: how far apart they are, and how long a due trigger waits. */
module Cron {
  import opened Workflow
  import opened Query
  import opened Triggers

  /** `next` is the first scheduled instant after a time. */
  ghost predicate Scheduled(cr: Crons) {
    forall e, z, t, u {:trigger cr.next(e, z, t), cr.next(e, z, u)} ::
      cr.next(e, z, t) > t && (cr.next(e, z, u) > t ==> cr.next(e, z, t) <= cr.next(e, z, u))
  }

  ghost predicate IsInstant(cr: Crons, e: string, z: string, at: int) { exists u :: cr.next(e, z, u) == at }

  /** A scheduled instant lies after `from`, up to and including `to`. */
  ghost predicate InstantBetween(cr: Crons, x: Trig, from: int, to: int) {
    exists at :: from < at <= to && IsInstant(cr, x.expr, x.timezone, at)
  }

  lemma InstantBetweenIs(cr: Crons, x: Trig, from: int, to: int)
    requires Scheduled(cr)
    ensures InstantBetween(cr, x, from, to) <==> cr.next(x.expr, x.timezone, from) <= to
  {
    var first := cr.next(x.expr, x.timezone, from);
    assert IsInstant(cr, x.expr, x.timezone, first);
    if at :| from < at <= to && IsInstant(cr, x.expr, x.timezone, at) {
      var u :| cr.next(x.expr, x.timezone, u) == at;
    }
  }

  // ---- Runs: claims of any scheduler, syncs in progress, and the rest ----

  /** `last` is when each trigger was last claimed. */
  datatype State = State(table: Table, published: set<nat>, clock: int, last: map<Key, int>)

  /** Replicas compute the same instants but need not load the same time zones: `valid` is
      what the acting replica can compute. */
  datatype Event =
    // the query runs at `selected`, the new times are computed at `now`
    | Claim(valid: (string, string) -> bool, selected: int, now: int, picked: seq<Key>)
    // one row of a sync that read the clock at `captured`, maybe long ago
    | Upsert(valid: (string, string) -> bool, wf: nat, spec: Spec, newToken: string, captured: int)
    | Disable(wf: nat, wanted: set<string>)
    | SetPublished(wf: nat, published: bool)
    | Drop(wf: nat)
    | Pass(t: nat)

  function OfWorkflow<V>(m: map<Key, V>, wf: nat): map<Key, V> { map k | k in m && k.0 != wf :: m[k] }

  function Among(published: set<nat>): nat -> bool { wf => wf in published }

  function At(cr: Crons, valid: (string, string) -> bool): Crons { cr.(valid := valid) }

  function Claimed(cr: Crons, s: State, picked: seq<Key>, now: int): map<Key, int> {
    s.last + map k | k in picked && k in s.table && IsValid(cr, s.table[k]) :: now
  }

  function Next(cr: Crons, s: State, ev: Event): Option<State> {
    match ev
    case Claim(valid, selected, now, picked) =>
      if selected < s.clock || now < selected || !Distinct(picked)
         || exists k :: k in picked && k !in DueKeys(s.table, Among(s.published), selected) then None
      else
        var cr' := At(cr, valid);
        Some(s.(table := Advanced(cr', s.table, picked, now), clock := now, last := Claimed(cr', s, picked, now)))
    case Upsert(valid, wf, spec, newToken, captured) =>
      if captured > s.clock then None
      else
        (match Upserted(At(cr, valid), s.table, wf, spec, newToken, captured)
         case None => Some(s)
         case Some(t) => Some(s.(table := t)))
    case Disable(wf, wanted) => Some(s.(table := DisabledBut(s.table, wf, wanted)))
    case SetPublished(wf, p) => Some(s.(published := if p then s.published + {wf} else s.published - {wf}))
    case Drop(wf) =>
      Some(s.(table := OfWorkflow(s.table, wf), last := OfWorkflow(s.last, wf), published := s.published - {wf}))
    case Pass(t) => Some(s.(clock := s.clock + t))
  }

  function Run(cr: Crons, s: State, evs: seq<Event>): Option<State>
    decreases |evs|
  {
    if evs == [] then Some(s)
    else
      match Next(cr, s, evs[0])
      case None => None
      case Some(s') => Run(cr, s', evs[1..])
  }

  const INIT: State := State(map[], {}, 0, map[])

  /** A claim takes enabled cron rows of published workflows whose time has come. Rows whose
      next instant the replica can compute move on to the first one after the claim; the
      others are marked and stay due; nothing else changes. */
  lemma ClaimTakesDueRows(cr: Crons, s: State, ev: Event)
    requires ev.Claim? && Next(cr, s, ev).Some?
    ensures forall k | k in ev.picked ::
      && k in s.table && k.0 in s.published && s.table[k].kind == Kind.Cron && s.table[k].enabled
      && s.table[k].nextRun.Some? && s.table[k].nextRun.value <= ev.selected <= ev.now
    ensures var s' := Next(cr, s, ev).value;
      && s'.table.Keys == s.table.Keys && s'.published == s.published
      && forall k | k in s.table :: var x := s.table[k];
        s'.table[k] ==
          if k !in ev.picked then x
          else if ev.valid(x.expr, x.timezone) then x.(nextRun := Some(cr.next(x.expr, x.timezone, ev.now)))
          else x.(lastFailed := true)
  {
    assert forall k | k in ev.picked :: k in DueKeys(s.table, Among(s.published), ev.selected);
  }

  // ---- Between two claims ----

  /** A sync does harm when the instant it computed is not after the trigger's last claim
      and the one after that claim has not come yet. */
  predicate Harmful(cr: Crons, s: State, ev: Event) {
    && ev.Upsert? && ev.spec.cron != "" && ev.valid(ev.spec.cron, Zone(ev.spec))
    && var k := (ev.wf, ev.spec.id);
    && k in s.last
    && cr.next(ev.spec.cron, Zone(ev.spec), ev.captured) <= s.last[k]
    && s.clock < cr.next(ev.spec.cron, Zone(ev.spec), s.last[k])
  }

  ghost predicate ClaimSpaced(cr: Crons, s: State, ev: Event) {
    ev.Claim? ==> forall k | k in ev.picked && k in s.table && k in s.last && IsValid(At(cr, ev.valid), s.table[k]) ::
      InstantBetween(cr, s.table[k], s.last[k], ev.selected)
  }

  /** Between two claims of a trigger in the run lies a scheduled instant of its cron. */
  ghost predicate Spaced(cr: Crons, s: State, evs: seq<Event>)
    requires Run(cr, s, evs).Some?
    decreases |evs|
  {
    evs != [] ==> ClaimSpaced(cr, s, evs[0]) && Spaced(cr, Next(cr, s, evs[0]).value, evs[1..])
  }

  predicate Harmless(cr: Crons, s: State, evs: seq<Event>)
    requires Run(cr, s, evs).Some?
    decreases |evs|
  {
    evs != [] ==> !Harmful(cr, s, evs[0]) && Harmless(cr, Next(cr, s, evs[0]).value, evs[1..])
  }

  /** However the run goes on without a harmful sync, its claims are spaced. */
  ghost predicate Sound(cr: Crons, s: State) {
    forall evs | Run(cr, s, evs).Some? && Harmless(cr, s, evs) :: Spaced(cr, s, evs)
  }

  /** The state is sound, now and after each event. */
  ghost predicate SoundAlong(cr: Crons, s: State, evs: seq<Event>)
    requires Run(cr, s, evs).Some?
    decreases |evs|
  {
    Sound(cr, s) && (evs != [] ==> SoundAlong(cr, Next(cr, s, evs[0]).value, evs[1..]))
  }

  /** What a row promises about its next run: it is not too early, or no longer. */
  predicate RowSpaced(cr: Crons, s: State, k: Key)
    requires k in s.table
  {
    var x := s.table[k];
    x.kind == Cron && x.enabled && x.nextRun.Some? && k in s.last ==>
      var due := cr.next(x.expr, x.timezone, s.last[k]); due <= x.nextRun.value || due <= s.clock
  }

  ghost predicate Inv(cr: Crons, s: State) { forall k | k in s.table :: RowSpaced(cr, s, k) }

  lemma NextKeeps(cr: Crons, s: State, ev: Event)
    requires Scheduled(cr) && Inv(cr, s) && Next(cr, s, ev).Some? && !Harmful(cr, s, ev)
    ensures Inv(cr, Next(cr, s, ev).value) && ClaimSpaced(cr, s, ev)
  {
    var s' := Next(cr, s, ev).value;
    forall k | k in s'.table ensures RowSpaced(cr, s', k) {
      if k in s.table { assert RowSpaced(cr, s, k); }
      if ev.Upsert? && k == (ev.wf, ev.spec.id) && k in s.last && ev.spec.cron != "" {
        var z := Zone(ev.spec);
        var written := cr.next(ev.spec.cron, z, ev.captured);
        assert written > s.last[k] ==> cr.next(ev.spec.cron, z, s.last[k]) <= written;
      }
    }
    if ev.Claim? {
      forall k | k in ev.picked && k in s.table && k in s.last && IsValid(At(cr, ev.valid), s.table[k])
        ensures InstantBetween(cr, s.table[k], s.last[k], ev.selected)
      {
        assert RowSpaced(cr, s, k) && k in DueKeys(s.table, Among(s.published), ev.selected);
        InstantBetweenIs(cr, s.table[k], s.last[k], ev.selected);
      }
    }
  }

  lemma {:induction false} RunSpaced(cr: Crons, s: State, evs: seq<Event>)
    requires Scheduled(cr) && Inv(cr, s) && Run(cr, s, evs).Some? && Harmless(cr, s, evs)
    ensures Spaced(cr, s, evs)
    decreases |evs|
  {
    if evs != [] {
      NextKeeps(cr, s, evs[0]);
      RunSpaced(cr, Next(cr, s, evs[0]).value, evs[1..]);
    }
  }

  /** A row that broke its promise can be claimed too early: once its workflow is
      published, at its next run or now. */
  lemma ClaimedTooEarly(cr: Crons, s: State, k: Key)
    requires Scheduled(cr) && k in s.table && !RowSpaced(cr, s, k)
    ensures !Sound(cr, s)
  {
    var x := s.table[k];
    var at := if x.nextRun.value < s.clock then s.clock else x.nextRun.value;
    var publish, claim := SetPublished(k.0, true), Claim((e, z) => true, at, at, [k]);
    var s1 := s.(published := s.published + {k.0});
    assert k in DueKeys(s1.table, Among(s1.published), at);
    var evs := [publish, claim];
    assert evs[1..] == [claim] && [claim][1..] == [];
    assert Run(cr, s1, [claim]) == Next(cr, s1, claim);
    assert Next(cr, s, publish) == Some(s1) && Run(cr, s, evs) == Run(cr, s1, evs[1..]);
    InstantBetweenIs(cr, x, s.last[k], at);
    assert k in claim.picked && !ClaimSpaced(cr, s1, claim);
    var s2 := Next(cr, s1, claim).value;
    assert Run(cr, s2, []) == Some(s2) && Harmless(cr, s2, []);
    assert Harmless(cr, s1, [claim]) && !Spaced(cr, s1, [claim]);
    assert Harmless(cr, s, evs) && !Spaced(cr, s, evs);
  }

  lemma SoundIs(cr: Crons, s: State)
    requires Scheduled(cr)
    ensures Sound(cr, s) <==> Inv(cr, s)
  {
    if Inv(cr, s) {
      forall evs | Run(cr, s, evs).Some? && Harmless(cr, s, evs) ensures Spaced(cr, s, evs) { RunSpaced(cr, s, evs); }
    } else {
      var k :| k in s.table && !RowSpaced(cr, s, k);
      ClaimedTooEarly(cr, s, k);
    }
  }

  /** One event from a sound state: the next is sound exactly when the event is no harmful
      sync. */
  lemma HarmExactly(cr: Crons, s: State, ev: Event)
    requires Scheduled(cr) && Sound(cr, s) && Next(cr, s, ev).Some?
    ensures Sound(cr, Next(cr, s, ev).value) <==> !Harmful(cr, s, ev)
  {
    var s' := Next(cr, s, ev).value;
    SoundIs(cr, s);
    SoundIs(cr, s');
    if Harmful(cr, s, ev) {
      var k := (ev.wf, ev.spec.id);
      assert cr.next(ev.spec.cron, Zone(ev.spec), s.last[k]) > s.last[k];
      assert !RowSpaced(cr, s', k);
    } else {
      NextKeeps(cr, s, ev);
    }
  }

  lemma {:induction false} SoundAlongExactly(cr: Crons, s: State, evs: seq<Event>)
    requires Scheduled(cr) && Sound(cr, s) && Run(cr, s, evs).Some?
    ensures SoundAlong(cr, s, evs) <==> Harmless(cr, s, evs)
    decreases |evs|
  {
    if evs != [] {
      HarmExactly(cr, s, evs[0]);
      var s' := Next(cr, s, evs[0]).value;
      if Sound(cr, s') { SoundAlongExactly(cr, s', evs[1..]); } else { assert !SoundAlong(cr, s', evs[1..]); }
    }
  }

  /** Across schedulers, replicas and republishing: a run has no harmful sync exactly when,
      wherever it is left, no way to go on without one claims a trigger twice with no
      scheduled instant between. A run without harmful syncs has its own claims spaced. */
  lemma SpacingExactly(cr: Crons, evs: seq<Event>)
    requires Scheduled(cr) && Run(cr, INIT, evs).Some?
    ensures Harmless(cr, INIT, evs) <==> SoundAlong(cr, INIT, evs)
    ensures Harmless(cr, INIT, evs) ==> Spaced(cr, INIT, evs)
  {
    SoundIs(cr, INIT);
    SoundAlongExactly(cr, INIT, evs);
  }

  // ---- A run that fires twice ----

  /** Every tenth instant. */
  function Tens(): Crons { Crons((e, z) => true, (e, z, t) => 10 * (t / 10 + 1)) }

  function Anywhere(): (string, string) -> bool { (e, z) => true }

  const SPEC: Spec := Spec("t", "*/10", "UTC")

  const DOUBLE: seq<Event> := [
    SetPublished(0, true), Upsert(Anywhere(), 0, SPEC, "", 0), Pass(12), Claim(Anywhere(), 12, 12, [(0, "t")]),
    // a sync that read the clock at 5 writes its row only now
    Upsert(Anywhere(), 0, SPEC, "", 5), Claim(Anywhere(), 13, 13, [(0, "t")])]

  lemma TensScheduled()
    ensures Scheduled(Tens())
  {
  }

  const KEY: Key := (0, "t")
  const ROW: Trig := Trig(Kind.Cron, "*/10", "UTC", "", true, Some(10), false)

  lemma FirstClaim()
    ensures Next(Tens(), State(map[KEY := ROW], {0}, 12, map[]), DOUBLE[3])
      == Some(State(map[KEY := ROW.(nextRun := Some(20))], {0}, 12, map[KEY := 12]))
  {
    var s, cr := State(map[KEY := ROW], {0}, 12, map[]), At(Tens(), Anywhere());
    assert KEY in DueKeys(s.table, Among(s.published), 12);
    assert Advanced(cr, s.table, [KEY], 12) == map[KEY := ROW.(nextRun := Some(20))];
    assert Claimed(cr, s, [KEY], 12) == map[KEY := 12];
  }

  lemma SecondClaim()
    ensures var s := State(map[KEY := ROW], {0}, 12, map[KEY := 12]);
      Next(Tens(), s, DOUBLE[5]).Some? && !ClaimSpaced(Tens(), s, DOUBLE[5])
  {
    var s := State(map[KEY := ROW], {0}, 12, map[KEY := 12]);
    assert KEY in DueKeys(s.table, Among(s.published), 13);
    TensScheduled();
    InstantBetweenIs(Tens(), ROW, 12, 13);
    assert KEY in DOUBLE[5].picked;
  }

  /** The trigger fires at 12 for instant 10, and at 13 for instant 10 again. */
  lemma StaleSyncFiresTwice()
    ensures Scheduled(Tens()) && Run(Tens(), INIT, DOUBLE).Some? && !Spaced(Tens(), INIT, DOUBLE)
  {
    var cr := Tens();
    TensScheduled();
    var s1, s2 := INIT.(published := {0}), State(map[KEY := ROW], {0}, 0, map[]);
    assert INIT.published + {0} == {0};
    var s3, s4 := s2.(clock := 12), State(map[KEY := ROW.(nextRun := Some(20))], {0}, 12, map[KEY := 12]);
    var s5 := State(map[KEY := ROW], {0}, 12, map[KEY := 12]);
    SecondClaim();
    assert Run(cr, Next(cr, s5, DOUBLE[5]).value, DOUBLE[5..][1..]).Some?;
    Unfold(cr, s5, DOUBLE[5..]);
    assert Next(cr, s4, DOUBLE[4]) == Some(s5) by { assert s4.table[KEY := ROW] == s5.table; }
    Unfold(cr, s4, DOUBLE[4..]);
    FirstClaim();
    Unfold(cr, s3, DOUBLE[3..]);
    Unfold(cr, s2, DOUBLE[2..]);
    Unfold(cr, s1, DOUBLE[1..]);
    Unfold(cr, INIT, DOUBLE);
  }

  lemma Unfold(cr: Crons, s: State, evs: seq<Event>)
    requires evs != [] && Next(cr, s, evs[0]).Some? && Run(cr, Next(cr, s, evs[0]).value, evs[1..]).Some?
    requires !ClaimSpaced(cr, s, evs[0]) || !Spaced(cr, Next(cr, s, evs[0]).value, evs[1..])
    ensures Run(cr, s, evs).Some? && !Spaced(cr, s, evs)
  {
  }

  // ---- Waiting for a claim ----

  /** One tick of a scheduler. */
  datatype Tick = Tick(selected: int, now: int, picked: seq<Key>)

  ghost predicate TickOk(t: Table, published: nat -> bool, limit: nat, k: Tick) {
    k.selected <= k.now && FirstBy(DueKeys(t, published, k.selected), NextOf(t), limit, k.picked)
  }

  /** The ticks follow one another, none of them picking trigger i. */
  ghost predicate Waits(cr: Crons, t: Table, published: nat -> bool, limit: nat, clock: int, ticks: seq<Tick>, i: Key)
    decreases |ticks|
  {
    ticks == [] ||
    (&& clock <= ticks[0].selected && TickOk(t, published, limit, ticks[0]) && i !in ticks[0].picked
     && Waits(cr, Advanced(cr, t, ticks[0].picked, ticks[0].now), published, limit, ticks[0].now, ticks[1..], i))
  }

  /** The due rows ordered before trigger i, or tied with it. */
  function Ahead(t: Table, published: nat -> bool, i: Key): set<Key>
    requires i in t && t[i].nextRun.Some?
  {
    DueKeys(t, published, t[i].nextRun.value) - {i}
  }

  function InvalidOf(cr: Crons, t: Table, ks: set<Key>): set<Key> { set k | k in ks && k in t && !IsValid(cr, t[k]) }

  lemma Cards<K>(a: set<K>, b: set<K>)
    requires a <= b
    ensures |a| <= |b| && |b - a| == |b| - |a|
  {
    assert b == a + (b - a);
  }

  lemma {:induction false} SeqCard<K>(s: seq<K>)
    requires Distinct(s)
    ensures |set k | k in s| == |s|
    decreases |s|
  {
    if s != [] {
      var last, front := s[|s| - 1], s[..|s| - 1];
      SeqCard(front);
      assert forall k | k in front :: exists j :: 0 <= j < |s| - 1 && s[j] == k;
      assert s == front + [last];
      assert (set k | k in s) == (set k | k in front) + {last};
      assert last !in (set k | k in front);
    }
  }

  /** A tick that passes over a due trigger picks only rows ahead of it. */
  lemma TickPicksAhead(t: Table, published: nat -> bool, limit: nat, k: Tick, i: Key)
    requires TickOk(t, published, limit, k) && i !in k.picked
    requires i in t && IsDue(t[i], published(i.0), k.selected)
    ensures var out := set x | x in k.picked; out <= Ahead(t, published, i) && |out| == limit
  {
    var out := set x | x in k.picked;
    var due := DueKeys(t, published, k.selected);
    SeqCard(k.picked);
    assert i in due && i !in out;
    assert out <= due - {i};
    Cards(out, due - {i});
    forall x | x in out ensures x in Ahead(t, published, i) {
      assert x in k.picked && x in due;
      assert NextOf(t)(x) <= NextOf(t)(i);
    }
  }

  /** The valid ones among them leave. */
  lemma PickedLeave(cr: Crons, t: Table, published: nat -> bool, k: Tick, i: Key)
    requires Scheduled(cr) && i in t && i !in k.picked && t[i].nextRun.Some? && t[i].nextRun.value <= k.now
    ensures var t' := Advanced(cr, t, k.picked, k.now);
      var a, out := Ahead(t, published, i), set x | x in k.picked;
      && i in t' && t'[i] == t[i]
      && Ahead(t', published, i) == (a - out) + (InvalidOf(cr, t, a) * out)
      && InvalidOf(cr, t', Ahead(t', published, i)) == InvalidOf(cr, t, a)
  {
    var t' := Advanced(cr, t, k.picked, k.now);
    var a, a', out := Ahead(t, published, i), Ahead(t', published, i), set x | x in k.picked;
    var bad := InvalidOf(cr, t, a);
    forall x ensures x in a' <==> x in a && (x !in out || x in bad) {
      if x in t && x in out && IsValid(cr, t[x]) { assert t'[x].nextRun.value > k.now; }
    }
    assert a' == (a - out) + (bad * out);
    forall x ensures x in InvalidOf(cr, t', a') <==> x in bad { }
    assert InvalidOf(cr, t', a') == bad;
  }

  lemma TickShrinks(cr: Crons, t: Table, published: nat -> bool, limit: nat, k: Tick, i: Key)
    requires Scheduled(cr) && TickOk(t, published, limit, k) && i !in k.picked
    requires i in t && IsDue(t[i], published(i.0), k.selected)
    ensures var t' := Advanced(cr, t, k.picked, k.now);
      && i in t' && t'[i] == t[i]
      && InvalidOf(cr, t', Ahead(t', published, i)) == InvalidOf(cr, t, Ahead(t, published, i))
      && |Ahead(t', published, i)| <= |Ahead(t, published, i)| - limit + |InvalidOf(cr, t, Ahead(t, published, i))|
  {
    TickPicksAhead(t, published, limit, k, i);
    PickedLeave(cr, t, published, k, i);
    var a, bad, out := Ahead(t, published, i), InvalidOf(cr, t, Ahead(t, published, i)), set x | x in k.picked;
    Cards(out, a);
    Cards(bad * out, bad);
    assert |(a - out) + (bad * out)| <= |a - out| + |bad * out|;
  }

  lemma OneMore(n: nat, d: nat, k: int)
    requires n > 0 && (n - 1) * d <= k - d
    ensures n * d <= k
  {
    assert n * d == (n - 1) * d + d;
  }

  /** A due trigger with k due rows ahead of it or tied with it, b of them with a cron that
      cannot be computed, is passed over by at most (k - b) / (limit - b) ticks: it is
      picked by tick floor((k - b) / (limit - b)) + 1. With valid crons b is 0. */
  lemma ClaimedInTime(cr: Crons, t: Table, published: nat -> bool, limit: nat, clock: int, ticks: seq<Tick>, i: Key)
    requires Scheduled(cr) && Waits(cr, t, published, limit, clock, ticks, i)
    requires i in t && IsDue(t[i], published(i.0), clock)
    requires |InvalidOf(cr, t, Ahead(t, published, i))| < limit
    ensures var k, b := |Ahead(t, published, i)|, |InvalidOf(cr, t, Ahead(t, published, i))|;
      |ticks| * (limit - b) <= k - b
  {
    var b := |InvalidOf(cr, t, Ahead(t, published, i))|;
    PassedOver(cr, t, published, limit, clock, ticks, i, limit - b, |Ahead(t, published, i)| - b);
  }

  lemma {:induction false} PassedOver(cr: Crons, t: Table, published: nat -> bool, limit: nat, clock: int,
                                      ticks: seq<Tick>, i: Key, d: nat, r: int)
    requires Scheduled(cr) && Waits(cr, t, published, limit, clock, ticks, i)
    requires i in t && IsDue(t[i], published(i.0), clock)
    requires d > 0 && |InvalidOf(cr, t, Ahead(t, published, i))| == limit - d
      && |Ahead(t, published, i)| - (limit - d) <= r
    ensures |ticks| * d <= r
    decreases |ticks|
  {
    if ticks == [] { Cards(InvalidOf(cr, t, Ahead(t, published, i)), Ahead(t, published, i)); }
    else {
      TickShrinks(cr, t, published, limit, ticks[0], i);
      PassedOver(cr, Advanced(cr, t, ticks[0].picked, ticks[0].now), published, limit, ticks[0].now, ticks[1..], i, d,
                 r - d);
      assert |ticks[1..]| == |ticks| - 1;
      OneMore(|ticks|, d, r);
    }
  }

  // ---- Waiting for ever ----

  lemma {:induction false} LeastExists<K>(rows: set<K>, key: K -> int) returns (m: K)
    requires rows != {}
    ensures m in rows && forall x | x in rows :: key(m) <= key(x)
    decreases |rows|
  {
    m :| m in rows;
    var rest := rows - {m};
    if rest != {} {
      var n := LeastExists(rest, key);
      if key(n) < key(m) { m := n; }
    }
  }

  lemma {:induction false} FirstExists<K>(rows: set<K>, key: K -> int, limit: nat) returns (out: seq<K>)
    ensures FirstBy(rows, key, limit, out)
    decreases limit
  {
    if limit == 0 || rows == {} { out := []; }
    else {
      var m := LeastExists(rows, key);
      var rest := FirstExists(rows - {m}, key, limit - 1);
      out := [m] + rest;
      assert |rows - {m}| == |rows| - 1;
      forall x | x in out ensures x in rows { }
    }
  }

  /** The first rows but i are also the first rows with i, when enough come before it or
      are tied with it. */
  lemma FirstWithout(due: set<Key>, ahead: set<Key>, key: Key -> int, limit: nat, i: Key, out: seq<Key>)
    requires FirstBy(due - {i}, key, limit, out) && i in due && ahead <= due - {i} && |ahead| >= limit
    requires forall x | x in ahead :: key(x) <= key(i)
    ensures FirstBy(due, key, limit, out) && i !in out
  {
    Cards(ahead, due - {i});
    Cards(due - {i}, due);
    SeqCard(out);
    var picked := set x | x in out;
    if z :| z in ahead && z !in out {
      forall y | y in out ensures key(y) <= key(i) { assert key(y) <= key(z); }
    } else {
      assert ahead <= picked;
      Cards(ahead, picked);
      assert picked == ahead + (picked - ahead);
      forall y | y in out ensures key(y) <= key(i) { assert y in ahead; }
    }
  }

  /** With enough rows ahead of trigger i there is an order in which it is passed over. */
  lemma PassOver(t: Table, published: nat -> bool, limit: nat, at: int, i: Key) returns (k: Tick)
    requires i in t && IsDue(t[i], published(i.0), at) && |Ahead(t, published, i)| >= limit
    ensures k.selected == k.now == at && TickOk(t, published, limit, k) && i !in k.picked
  {
    var due, ahead := DueKeys(t, published, at), Ahead(t, published, i);
    var out := FirstExists(due - {i}, NextOf(t), limit);
    k := Tick(at, at, out);
    FirstWithout(due, ahead, NextOf(t), limit, i, out);
  }

  lemma {:induction false} WaitsOn(cr: Crons, t: Table, published: nat -> bool, limit: nat, clock: int, i: Key, n: nat)
    returns (ticks: seq<Tick>)
    requires Scheduled(cr) && i in t && IsDue(t[i], published(i.0), clock)
    requires |InvalidOf(cr, t, Ahead(t, published, i))| >= limit
    ensures |ticks| == n && Waits(cr, t, published, limit, clock, ticks, i)
    decreases n
  {
    if n == 0 { ticks := []; }
    else {
      Cards(InvalidOf(cr, t, Ahead(t, published, i)), Ahead(t, published, i));
      var k := PassOver(t, published, limit, clock, i);
      TickShrinks(cr, t, published, limit, k, i);
      var rest := WaitsOn(cr, Advanced(cr, t, k.picked, k.now), published, limit, clock, i, n - 1);
      ticks := [k] + rest;
      assert ticks[1..] == rest;
    }
  }

  /** Trigger i can be passed over by n ticks. */
  ghost predicate WaitsFor(cr: Crons, t: Table, published: nat -> bool, limit: nat, clock: int, i: Key, n: nat) {
    exists ticks :: |ticks| == n && Waits(cr, t, published, limit, clock, ticks, i)
  }

  ghost predicate WaitsForEver(cr: Crons, t: Table, published: nat -> bool, limit: nat, clock: int, i: Key) {
    forall n: nat :: WaitsFor(cr, t, published, limit, clock, i, n)
  }

  /** A due trigger may wait for ever exactly when, of the due rows ahead of it or tied
      with it, as many as the limit have a cron the claiming replica cannot compute. */
  lemma StarvesExactly(cr: Crons, t: Table, published: nat -> bool, limit: nat, clock: int, i: Key)
    requires Scheduled(cr) && i in t && IsDue(t[i], published(i.0), clock)
    ensures WaitsForEver(cr, t, published, limit, clock, i) <==> |InvalidOf(cr, t, Ahead(t, published, i))| >= limit
  {
    if |InvalidOf(cr, t, Ahead(t, published, i))| >= limit {
      forall n: nat ensures WaitsFor(cr, t, published, limit, clock, i, n) {
        var ticks := WaitsOn(cr, t, published, limit, clock, i, n);
      }
    } else {
      NotThatLong(cr, t, published, limit, clock, i);
    }
  }

  lemma NotThatLong(cr: Crons, t: Table, published: nat -> bool, limit: nat, clock: int, i: Key)
    requires Scheduled(cr) && i in t && IsDue(t[i], published(i.0), clock)
    requires |InvalidOf(cr, t, Ahead(t, published, i))| < limit
    ensures !WaitsFor(cr, t, published, limit, clock, i, |Ahead(t, published, i)| + 1)
  {
    var k := |Ahead(t, published, i)|;
    if WaitsFor(cr, t, published, limit, clock, i, k + 1) {
      var ticks :| |ticks| == k + 1 && Waits(cr, t, published, limit, clock, ticks, i);
      ClaimedSoon(cr, t, published, limit, clock, ticks, i);
    }
  }

  lemma ClaimedSoon(cr: Crons, t: Table, published: nat -> bool, limit: nat, clock: int, ticks: seq<Tick>, i: Key)
    requires Scheduled(cr) && Waits(cr, t, published, limit, clock, ticks, i)
    requires i in t && IsDue(t[i], published(i.0), clock)
    requires |InvalidOf(cr, t, Ahead(t, published, i))| < limit
    ensures |ticks| <= |Ahead(t, published, i)|
  {
    ClaimedInTime(cr, t, published, limit, clock, ticks, i);
    var k, b := |Ahead(t, published, i)|, |InvalidOf(cr, t, Ahead(t, published, i))|;
    AtLeast(|ticks|, limit - b, k - b);
  }

  lemma AtLeast(n: nat, d: nat, r: int)
    requires d > 0 && n * d <= r
    ensures n <= r
  {
  }

  /** A row with a cron that cannot be computed stays due; when as many of them as the
      limit are due strictly before trigger i, one tick cannot pick it in any order. */
  lemma InvalidRowsBlock(cr: Crons, t: Table, published: nat -> bool, limit: nat, k: Tick, i: Key, bad: set<Key>)
    requires TickOk(t, published, limit, k) && |bad| >= limit && i in t && t[i].nextRun.Some?
    requires forall x | x in bad ::
      && x in t && !IsValid(cr, t[x]) && IsDue(t[x], published(x.0), k.selected)
      && t[x].nextRun.value < t[i].nextRun.value
    ensures i !in k.picked
    ensures var t' := Advanced(cr, t, k.picked, k.now);
      && i in t' && t'[i] == t[i]
      && forall x | x in bad :: x in t' && t'[x] in {t[x], t[x].(lastFailed := true)}
  {
    var out := set x | x in k.picked;
    SeqCard(k.picked);
    if i in k.picked {
      forall x | x in bad ensures x in k.picked { assert NextOf(t)(x) < NextOf(t)(i); }
      assert bad + {i} <= out;
      Cards(bad + {i}, out);
    }
  }

  /** Ticks of a scheduler one after another. */
  ghost predicate Ticking(cr: Crons, t: Table, published: nat -> bool, limit: nat, clock: int, ticks: seq<Tick>)
    decreases |ticks|
  {
    ticks == [] ||
    (&& clock <= ticks[0].selected && TickOk(t, published, limit, ticks[0])
     && Ticking(cr, Advanced(cr, t, ticks[0].picked, ticks[0].now), published, limit, ticks[0].now, ticks[1..]))
  }

  /** Then no order of ties helps either: the trigger is never picked. */
  lemma {:induction false} InvalidRowsStarve(cr: Crons, t: Table, published: nat -> bool, limit: nat, clock: int,
                                             ticks: seq<Tick>, i: Key, bad: set<Key>)
    requires Ticking(cr, t, published, limit, clock, ticks) && |bad| >= limit && i in t && t[i].nextRun.Some?
    requires forall x | x in bad ::
      && x in t && !IsValid(cr, t[x]) && IsDue(t[x], published(x.0), clock)
      && t[x].nextRun.value < t[i].nextRun.value
    ensures Waits(cr, t, published, limit, clock, ticks, i)
    decreases |ticks|
  {
    if ticks != [] {
      var k := ticks[0];
      InvalidRowsBlock(cr, t, published, limit, k, i, bad);
      InvalidRowsStarve(cr, Advanced(cr, t, k.picked, k.now), published, limit, k.now, ticks[1..], i, bad);
    }
  }

  // ---- How rows come to be invalid ----

  /** A replica without the time zone `Far`. */
  function Near(): (string, string) -> bool { (e, z) => z != "Far" }

  function Name(j: nat): string { seq(j, x => 'x') }

  function FarSpec(j: nat): Spec { Spec(Name(j), "*/10", "Far") }

  const FAR: Trig := Trig(Kind.Cron, "*/10", "Far", "", true, Some(10), false)

  /** The upserts of n triggers in the far time zone, by a replica that knows it. */
  function FarUpserts(j: nat, n: nat): seq<Event>
    requires j <= n
    decreases n - j
  {
    if j == n then [] else [Upsert(Anywhere(), 0, FarSpec(j), "", 0)] + FarUpserts(j + 1, n)
  }

  function FarKeys(n: nat): set<Key> { set j | 0 <= j < n :: (0, Name(j)) }

  function FarTable(n: nat): Table { map k | k in FarKeys(n) :: FAR }

  lemma NamesDiffer(i: nat, j: nat)
    requires i != j
    ensures Name(i) != Name(j)
  {
    assert |Name(i)| == i && |Name(j)| == j;
  }

  lemma {:induction false} FarKeysCount(n: nat)
    ensures |FarKeys(n)| == n
    decreases n
  {
    if n > 0 {
      FarKeysCount(n - 1);
      assert FarKeys(n) == FarKeys(n - 1) + {(0, Name(n - 1))};
      forall j | 0 <= j < n - 1 ensures (0, Name(j)) != (0, Name(n - 1)) { NamesDiffer(j, n - 1); }
    }
  }

  lemma {:induction false} FarRun(j: nat, n: nat, more: seq<Event>)
    requires j <= n
    ensures Run(Tens(), State(FarTable(j), {0}, 0, map[]), FarUpserts(j, n) + more)
         == Run(Tens(), State(FarTable(n), {0}, 0, map[]), more)
    decreases n - j
  {
    if j == n { assert FarUpserts(j, n) + more == more; }
    else {
      var evs := FarUpserts(j, n) + more;
      assert evs[1..] == FarUpserts(j + 1, n) + more;
      var k := (0, Name(j));
      assert k !in FarTable(j) by {
        forall i | 0 <= i < j ensures (0, Name(i)) != k { NamesDiffer(i, j); }
      }
      assert FarKeys(j + 1) == FarKeys(j) + {k};
      assert FarTable(j)[k := FAR] == FarTable(j + 1);
      assert Next(Tens(), State(FarTable(j), {0}, 0, map[]), evs[0]) == Some(State(FarTable(j + 1), {0}, 0, map[]));
      FarRun(j + 1, n, more);
    }
  }

  /** Publishing `limit` triggers in a time zone, and later one more elsewhere. */
  function Crowd(limit: nat): seq<Event> {
    [SetPublished(0, true)]
      + (FarUpserts(0, limit) + [Pass(10), Upsert(Anywhere(), 1, SPEC, "", 10), SetPublished(1, true), Pass(10)])
  }

  const LATER: Key := (1, "t")

  function Crowded(limit: nat): State {
    State(FarTable(limit)[LATER := ROW.(nextRun := Some(20))], {0, 1}, 20, map[])
  }

  lemma CrowdRuns(limit: nat)
    ensures Run(Tens(), INIT, Crowd(limit)) == Some(Crowded(limit))
  {
    var evs, cr := Crowd(limit), Tens();
    var more := [Pass(10), Upsert(Anywhere(), 1, SPEC, "", 10), SetPublished(1, true), Pass(10)];
    assert evs[1..] == FarUpserts(0, limit) + more;
    assert FarKeys(0) == {} && FarTable(0) == map[] && INIT.published + {0} == {0};
    assert Next(cr, INIT, evs[0]) == Some(State(FarTable(0), {0}, 0, map[]));
    FarRun(0, limit, more);
    var s1 := State(FarTable(limit), {0}, 10, map[]);
    var s2 := s1.(table := FarTable(limit)[LATER := ROW.(nextRun := Some(20))]);
    assert LATER !in FarTable(limit);
    var s3 := s2.(published := {0, 1});
    assert s2.published + {1} == {0, 1};
    assert Run(cr, State(FarTable(limit), {0}, 0, map[]), more) == Run(cr, s1, more[1..]);
    assert Run(cr, s1, more[1..]) == Run(cr, s2, more[1..][1..]) by { assert more[1..][0] == more[1]; }
    assert Run(cr, s2, more[2..]) == Run(cr, s3, more[3..]) by {
      assert more[2..][0] == more[2] && more[2..][1..] == more[3..];
    }
    assert Run(cr, s3, more[3..]) == Some(Crowded(limit)) by { assert more[3..][0] == more[3] && more[3..][1..] == []; }
    assert more[1..][1..] == more[2..];
  }

  /** For every limit there is such a run: rows written by a replica that knows a time zone,
      claimed by one that does not. From then on its ticks never pick the trigger that is
      due in a zone it does know, whatever their number and the order of ties. */
  lemma StarvationIsReached(limit: nat, ticks: seq<Tick>)
    requires limit > 0
    ensures Scheduled(Tens()) && Run(Tens(), INIT, Crowd(limit)) == Some(Crowded(limit))
    ensures var s, cr := Crowded(limit), At(Tens(), Near());
      && LATER in s.table && IsDue(s.table[LATER], LATER.0 in s.published, s.clock) && IsValid(cr, s.table[LATER])
      && WaitsForEver(cr, s.table, Among(s.published), limit, s.clock, LATER)
      && (Ticking(cr, s.table, Among(s.published), limit, s.clock, ticks)
          ==> Waits(cr, s.table, Among(s.published), limit, s.clock, ticks, LATER))
  {
    var s, cr, published := Crowded(limit), At(Tens(), Near()), Among({0, 1});
    TensScheduled();
    CrowdRuns(limit);
    FarKeysCount(limit);
    var bad := FarKeys(limit);
    assert LATER !in bad;
    assert bad <= InvalidOf(cr, s.table, Ahead(s.table, published, LATER));
    Cards(bad, InvalidOf(cr, s.table, Ahead(s.table, published, LATER)));
    StarvesExactly(cr, s.table, published, limit, s.clock, LATER);
    if Ticking(cr, s.table, published, limit, s.clock, ticks) {
      InvalidRowsStarve(cr, s.table, published, limit, s.clock, ticks, LATER, bad);
    }
  }
}
