/** The trigger table: rows synced from published documents, disabled, rotated and
    claimed. */
module Triggers {
  import opened Workflow
  import opened Query

  datatype Kind = Cron | Webhook

  /** A trigger of a document: a cron expression, or none for a webhook. */
  datatype Spec = Spec(id: string, cron: string, timezone: string)

  /** A stored trigger; the empty token stands for none. */
  datatype Trig = Trig(kind: Kind, expr: string, timezone: string, token: string, enabled: bool,
                       nextRun: Option<int>, lastFailed: bool)

  // the workflow and the trigger id
  type Key = (nat, string)

  type Table = map<Key, Trig>

  /** Cron expressions: which are valid with which time zone, and the first instant after
      a given one. */
  datatype Crons = Crons(valid: (string, string) -> bool, next: (string, string, int) -> int)

  function Zone(spec: Spec): string { if spec.timezone == "" then "UTC" else spec.timezone }

  function TokenOf(t: Table, k: Key): string { if k in t then t[k].token else "" }

  /** Insert or update; a stored token is never replaced. */
  function Upserted(cr: Crons, t: Table, wf: nat, spec: Spec, newToken: string, now: int): Option<Table> {
    var k := (wf, spec.id);
    var failed := k in t && t[k].lastFailed;
    if spec.cron == "" then
      var token := if TokenOf(t, k) != "" then TokenOf(t, k) else newToken;
      Some(t[k := Trig(Webhook, "", Zone(spec), token, true, None, failed)])
    else if !cr.valid(spec.cron, Zone(spec)) then None
    else
      Some(t[k := Trig(Cron, spec.cron, Zone(spec), TokenOf(t, k), true,
                       Some(cr.next(spec.cron, Zone(spec), now)), failed)])
  }

  datatype SyncResult = SyncResult(table: Table, ok: bool)

  /** The document's triggers one after another; an invalid one stops the rest. */
  function UpsertedAll(cr: Crons, t: Table, wf: nat, specs: seq<Spec>, tokens: string -> string, now: int): SyncResult
    decreases |specs|
  {
    if |specs| == 0 then SyncResult(t, true)
    else
      match Upserted(cr, t, wf, specs[0], tokens(specs[0].id), now)
      case None => SyncResult(t, false)
      case Some(t') => UpsertedAll(cr, t', wf, specs[1..], tokens, now)
  }

  function Ids(specs: seq<Spec>): set<string> { set s | s in specs :: s.id }

  /** Rows of the workflow that are not wanted any more. */
  function DisabledBut(t: Table, wf: nat, wanted: set<string>): Table {
    map k | k in t :: if k.0 == wf && k.1 !in wanted then t[k].(enabled := false) else t[k]
  }

  function Synced(cr: Crons, t: Table, wf: nat, specs: seq<Spec>, tokens: string -> string, now: int): SyncResult {
    var r := UpsertedAll(cr, t, wf, specs, tokens, now);
    if r.ok then SyncResult(DisabledBut(r.table, wf, Ids(specs)), true) else r
  }

  function Rotated(t: Table, k: Key, token: string): Table {
    if k in t && t[k].kind == Webhook then t[k := t[k].(token := token)] else t
  }

  // ---- Claims ----

  /** An enabled cron row of a published workflow whose time has come. */
  predicate IsDue(x: Trig, published: bool, now: int) {
    x.kind == Cron && x.enabled && published && x.nextRun.Some? && x.nextRun.value <= now
  }

  function DueKeys(t: Table, published: nat -> bool, now: int): set<Key> {
    set k | k in t && IsDue(t[k], published(k.0), now)
  }

  function NextOf(t: Table): Key -> int {
    k => if k in t && t[k].nextRun.Some? then t[k].nextRun.value else 0
  }

  function Cap(limit: int): nat { if limit <= 0 || limit > 64 then 32 else limit }

  predicate IsValid(cr: Crons, x: Trig) { cr.valid(x.expr, x.timezone) }

  /** A claimed row moves on to its next instant; an invalid one stays due. */
  function AdvancedRow(cr: Crons, x: Trig, now: int): Trig {
    if IsValid(cr, x) then x.(nextRun := Some(cr.next(x.expr, x.timezone, now))) else x.(lastFailed := true)
  }

  function Advanced(cr: Crons, t: Table, claims: seq<Key>, now: int): Table {
    map k | k in t :: if k in claims then AdvancedRow(cr, t[k], now) else t[k]
  }

  function ValidOf(cr: Crons, t: Table, claims: seq<Key>): seq<Key> {
    if claims == [] then []
    else (if claims[0] in t && IsValid(cr, t[claims[0]]) then [claims[0]] else []) + ValidOf(cr, t, claims[1..])
  }

  lemma {:induction false} ValidOfIs(cr: Crons, t: Table, claims: seq<Key>)
    ensures forall k :: k in ValidOf(cr, t, claims) <==> k in claims && k in t && IsValid(cr, t[k])
    decreases |claims|
  {
    if claims != [] {
      assert claims == [claims[0]] + claims[1..];
      ValidOfIs(cr, t, claims[1..]);
    }
  }

  lemma ValidOfStep(cr: Crons, t: Table, claims: seq<Key>, i: nat, done: seq<Key>)
    requires i < |claims| && claims[i] in t
    ensures done + ValidOf(cr, t, claims[i..])
      == (if IsValid(cr, t[claims[i]]) then done + [claims[i]] else done) + ValidOf(cr, t, claims[i + 1..])
  {
    assert claims[i..][0] == claims[i] && claims[i..][1..] == claims[i + 1..];
  }

  lemma {:induction false} NoMoreValid(cr: Crons, t: Table, claims: seq<Key>)
    ensures |ValidOf(cr, t, claims)| <= |claims|
    decreases |claims|
  {
    if claims != [] { NoMoreValid(cr, t, claims[1..]); }
  }

  /** Rows other than these of the workflow are as they were. */
  ghost predicate OnlyThese(t: Table, t': Table, wf: nat, ids: set<string>) {
    forall k: Key :: (k.0 == wf && k.1 in ids) || SameRow(t', t, k)
  }

  lemma NextId(specs: seq<Spec>, i: nat)
    requires i < |specs|
    ensures Ids(specs[..i + 1]) == Ids(specs[..i]) + {specs[i].id} && Ids(specs[..i]) <= Ids(specs)
    ensures DistinctIds(specs) ==> specs[i].id !in Ids(specs[..i])
  {
    assert specs[..i + 1] == specs[..i] + [specs[i]];
    forall s | s in specs[..i] ensures s in specs { }
  }

  lemma OneMoreRow(t: Table, before: Table, t': Table, wf: nat, specs: seq<Spec>, i: nat)
    requires i < |specs| && OnlyThese(t, before, wf, Ids(specs[..i])) && OnlyThese(before, t', wf, {specs[i].id})
    ensures OnlyThese(t, t', wf, Ids(specs[..i + 1]))
  {
    NextId(specs, i);
  }

  class TriggerRepo {
    const crons: Crons
    var table: Table

    constructor (crons: Crons)
      ensures this.crons == crons && table == map[]
    {
      this.crons, table := crons, map[];
    }

    method DisableAllForWorkflow(wf: nat)
      modifies this
      ensures table == DisabledBut(old(table), wf, {})
      ensures table.Keys == old(table).Keys && forall k | k in table ::
        table[k] == old(table)[k].(enabled := k.0 != wf && old(table)[k].enabled)
    {
      table := map k | k in table :: if k.0 == wf then table[k].(enabled := false) else table[k];
    }

    /** `known` are the tokens listed before the sync began. */
    method UpsertTrigger(wf: nat, spec: Spec, known: map<string, string>, newToken: string, now: int) returns (ok: bool)
      requires spec.id in known <==> (wf, spec.id) in table
      requires spec.id in known ==> known[spec.id] == table[(wf, spec.id)].token
      modifies this
      ensures var r := Upserted(crons, old(table), wf, spec, newToken, now);
        ok == r.Some? && table == if ok then r.value else old(table)
      ensures OnlyThese(old(table), table, wf, {spec.id})
    {
      var kind, expr, token, next := Webhook, "", "", None;
      var zone := if spec.timezone == "" then "UTC" else spec.timezone;
      if spec.cron != "" {
        kind, expr := Cron, spec.cron;
        if !crons.valid(expr, zone) { return false; }
        next := Some(crons.next(expr, zone, now));
      } else if spec.id in known && known[spec.id] != "" {
        token := known[spec.id];
      } else {
        token := newToken;
      }
      var k := (wf, spec.id);
      if k in table {
        // on conflict the stored token stays when there is one
        var was := table[k];
        table := table[k := Trig(kind, expr, zone, if was.token != "" then was.token else token, true, next,
                                 was.lastFailed)];
      } else {
        table := table[k := Trig(kind, expr, zone, token, true, next, false)];
      }
      ok := true;
    }

    method SyncTriggersFromDoc(wf: nat, specs: seq<Spec>, tokens: string -> string, now: int) returns (ok: bool)
      requires DistinctIds(specs)
      modifies this
      ensures var r := Synced(crons, old(table), wf, specs, tokens, now); ok == r.ok && table == r.table
    {
      var known := KnownTokens(table, wf);
      ok := UpsertListed(wf, specs, known, tokens, now);
      if !ok { return; }
      DisableRemoved(wf, known.Keys, Ids(specs));
    }

    /** The triggers one after another; an invalid one stops the rest. */
    method UpsertListed(wf: nat, specs: seq<Spec>, known: map<string, string>, tokens: string -> string, now: int)
      returns (ok: bool)
      requires DistinctIds(specs) && known == KnownTokens(table, wf)
      modifies this
      ensures var r := UpsertedAll(crons, old(table), wf, specs, tokens, now); ok == r.ok && table == r.table
      ensures ok ==> forall k | k in table && k.0 == wf :: k.1 in known || k.1 in Ids(specs)
    {
      var i := 0;
      while i < |specs|
        invariant i <= |specs|
        invariant UpsertedAll(crons, table, wf, specs[i..], tokens, now)
          == UpsertedAll(crons, old(table), wf, specs, tokens, now)
        invariant OnlyThese(old(table), table, wf, Ids(specs[..i]))
      {
        assert specs[i..][0] == specs[i] && specs[i..][1..] == specs[i + 1..];
        NextId(specs, i);
        assert SameRow(table, old(table), (wf, specs[i].id));
        ghost var before := table;
        ok := UpsertTrigger(wf, specs[i], known, tokens(specs[i].id), now);
        if !ok { return; }
        OneMoreRow(old(table), before, table, wf, specs, i);
        i := i + 1;
      }
      assert specs[..i] == specs;
      ok := true;
    }

    /** One statement for each listed row that is no longer wanted. */
    method DisableRemoved(wf: nat, listed: set<string>, wanted: set<string>)
      requires forall k | k in table && k.0 == wf :: k.1 in listed || k.1 in wanted
      modifies this
      ensures table == DisabledBut(old(table), wf, wanted)
    {
      var rest := listed;
      while rest != {}
        invariant table.Keys == old(table).Keys && rest <= listed
        invariant forall k | k in table ::
          table[k] == (if k.0 == wf && k.1 !in wanted && k.1 in listed - rest then old(table)[k].(enabled := false)
                       else old(table)[k])
        decreases |rest|
      {
        var id :| id in rest;
        rest := rest - {id};
        if id !in wanted && (wf, id) in table {
          table := table[(wf, id) := table[(wf, id)].(enabled := false)];
        }
      }
    }

    method RotateWebhookToken(wf: nat, id: string, token: string) returns (ok: bool)
      modifies this
      ensures table == Rotated(old(table), (wf, id), token)
      ensures ok <==> (wf, id) in old(table) && old(table)[(wf, id)].kind == Webhook
      ensures table.Keys == old(table).Keys && forall k | k in table ::
        table[k] == if ok && k == (wf, id) then old(table)[k].(token := token) else old(table)[k]
    {
      var k := (wf, id);
      ok := k in table && table[k].kind == Webhook;
      if ok { table := table[k := table[k].(token := token)]; }
    }

    /** Claims the first due rows, `selected` being when the query ran and `now` the time
        read after it. */
    method ClaimDueCron(limit: int, published: nat -> bool, selected: int, now: int) returns (claims: seq<Key>)
      modifies this
      ensures exists picked ::
        && FirstBy(DueKeys(old(table), published, selected), NextOf(old(table)), Cap(limit), picked)
        && table == Advanced(crons, old(table), picked, now) && claims == ValidOf(crons, old(table), picked)
      ensures |claims| <= if 0 < limit <= 64 then limit else 32
    {
      var n := if limit <= 0 || limit > 64 then 32 else limit;
      var picked := Select(DueKeys(table, published, selected), NextOf(table), n);
      claims := AdvanceAll(picked, now);
      NoMoreValid(crons, old(table), picked);
    }

    method AdvanceAll(picked: seq<Key>, now: int) returns (claims: seq<Key>)
      requires Distinct(picked) && forall k | k in picked :: k in table
      modifies this
      ensures table == Advanced(crons, old(table), picked, now) && claims == ValidOf(crons, old(table), picked)
    {
      claims := [];
      var i := 0;
      while i < |picked|
        invariant i <= |picked| && table.Keys == old(table).Keys
        invariant forall k | k in table && k !in picked[..i] :: table[k] == old(table)[k]
        invariant forall j | 0 <= j < i :: table[picked[j]] == AdvancedRow(crons, old(table)[picked[j]], now)
        invariant claims + ValidOf(crons, old(table), picked[i..]) == ValidOf(crons, old(table), picked)
      {
        var k := picked[i];
        assert k !in picked[..i] && k in table;
        ValidOfStep(crons, old(table), picked, i, claims);
        assert picked[..i + 1] == picked[..i] + [k];
        var x := table[k];
        var valid := crons.valid(x.expr, x.timezone);
        if valid { claims := claims + [k]; }
        var y := if valid then x.(nextRun := Some(crons.next(x.expr, x.timezone, now))) else x.(lastFailed := true);
        assert y == AdvancedRow(crons, old(table)[k], now);
        table := table[k := y];
        i := i + 1;
      }
      assert picked[..i] == picked;
      assert table == Advanced(crons, old(table), picked, now);
    }
  }

  predicate DistinctIds(specs: seq<Spec>) { forall i, j | 0 <= i < j < |specs| :: specs[i].id != specs[j].id }

  function KnownTokens(t: Table, wf: nat): map<string, string> {
    map k | k in t && k.0 == wf :: k.1 := t[k].token
  }

  predicate SameRow(t: Table, t': Table, k: Key) { (k in t <==> k in t') && (k in t ==> t[k] == t'[k]) }
}
