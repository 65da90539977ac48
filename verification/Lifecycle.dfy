/** Through which sequences of calls rows, bus and triggers stay consistent. */
module Lifecycle {
  import opened Workflow
  import opened Triggers
  import opened Publish

  // ---- Which calls are safe ----

  /** Another published workflow has this one's slug. */
  ghost predicate Shared(s: State, k: RowKey) { exists l :: l != k && IsPublished(s, l) && l.1 == k.1 }

  /** The name is this workflow's to register and unregister. */
  ghost predicate Free(site: Site, s: State, k: RowKey) { ToolName(k.1) !in site.builtIns && !Shared(s, k) }

  /** Publishing and unpublishing touch the workflow's tool name whoever has it. */
  ghost predicate Guard(site: Site, s: State, c: Call) {
    match c
    case Publish(k, _, _) => k in s.rows ==> s.rows[k].doc.compiles && Free(site, s, k)
    case Unpublish(k) => k in s.rows ==> Free(site, s, k)
    case _ => true
  }

  // ---- The bus ----

  /** While all is consistent, published workflows have their names to themselves. */
  lemma PublishedIsFree(site: Site, s: State, k: RowKey)
    requires BusOk(site, s) && IsPublished(s, k)
    ensures Free(site, s, k)
  {
    forall l | IsPublished(s, l) ensures l == k || l.1 != k.1 {
      assert s.bus.tools[ToolName(l.1)] == ToolOf(l, s.rows[l].doc);
    }
  }

  ghost predicate SameButRow(s: State, s': State, k: RowKey) {
    forall l | l != k :: (l in s'.rows <==> l in s.rows) && (l in s.rows ==> s'.rows[l] == s.rows[l])
  }

  /** Other tool names are in use as before. */
  lemma OtherNames(s: State, s': State, k: RowKey, n: string)
    requires SameButRow(s, s', k) && n != ToolName(k.1)
    ensures PublishedAs(s', n) <==> PublishedAs(s, n)
  {
    if l :| IsPublished(s', l) && ToolName(l.1) == n { assert l != k && IsPublished(s, l); }
    if l :| IsPublished(s, l) && ToolName(l.1) == n { assert l != k && IsPublished(s', l); }
  }

  lemma OtherSlug(s: State, s': State, k: RowKey, l: RowKey)
    requires !Shared(s, k) && SameButRow(s, s', k) && l != k && IsPublished(s', l)
    ensures IsPublished(s, l) && s'.rows[l] == s.rows[l] && ToolName(l.1) != ToolName(k.1)
  {
    NamesDiffer(l.1, k.1);
  }

  lemma BusRemoved(site: Site, s: State, s': State, k: RowKey)
    requires BusOk(site, s) && Free(site, s, k) && SameButRow(s, s', k) && !IsPublished(s', k)
    requires s'.bus == Unregistered(s.bus, ToolName(k.1))
    ensures BusOk(site, s')
  {
    forall n ensures n in s'.bus.tools <==> n in site.builtIns || PublishedAs(s', n) {
      if n != ToolName(k.1) { OtherNames(s, s', k, n); }
      else if l :| IsPublished(s', l) && ToolName(l.1) == n { OtherSlug(s, s', k, l); }
    }
    forall l | IsPublished(s', l)
      ensures ToolName(l.1) in s'.bus.tools && s'.bus.tools[ToolName(l.1)] == ToolOf(l, s'.rows[l].doc)
    {
      OtherSlug(s, s', k, l);
    }
  }

  /** The name's old tool and schema make room for the new ones. */
  lemma SwappedIs(b: BusState, t: Tool)
    requires b.schemas == b.tools.Keys && Compiles(t)
    ensures Swapped(b, t) == BusState(b.tools[NameOf(t) := t], b.schemas + {NameOf(t)})
  {
    var n := NameOf(t);
    assert (b.tools - {n})[n := t] == b.tools[n := t];
    if n !in b.tools { assert b.tools - {n} == b.tools; }
  }

  lemma BusAdded(site: Site, s: State, s': State, k: RowKey)
    requires BusOk(site, s) && Free(site, s, k) && SameButRow(s, s', k)
    requires IsPublished(s', k) && s'.rows[k].doc.compiles
    requires s'.bus == Swapped(s.bus, ToolOf(k, s'.rows[k].doc))
    ensures BusOk(site, s')
  {
    SwappedIs(s.bus, ToolOf(k, s'.rows[k].doc));
    forall n ensures n in s'.bus.tools <==> n in site.builtIns || PublishedAs(s', n) {
      if n != ToolName(k.1) { OtherNames(s, s', k, n); } else { assert IsPublished(s', k); }
    }
    forall l | IsPublished(s', l)
      ensures ToolName(l.1) in s'.bus.tools && s'.bus.tools[ToolName(l.1)] == ToolOf(l, s'.rows[l].doc)
    {
      if l != k { OtherSlug(s, s', k, l); }
    }
  }

  /** Only which rows are published matters to the bus. */
  lemma BusSame(site: Site, s: State, s': State)
    requires BusOk(site, s) && s'.bus == s.bus
    requires forall k :: IsPublished(s', k) <==> IsPublished(s, k)
    requires forall k | IsPublished(s, k) && k in s'.rows :: s'.rows[k].doc == s.rows[k].doc
    ensures BusOk(site, s')
  {
    forall n ensures PublishedAs(s', n) <==> PublishedAs(s, n) {
      if k :| IsPublished(s, k) && ToolName(k.1) == n { assert IsPublished(s', k); }
      if k :| IsPublished(s', k) && ToolName(k.1) == n { assert IsPublished(s, k); }
    }
    forall k | IsPublished(s', k)
      ensures ToolName(k.1) in s'.bus.tools && s'.bus.tools[ToolName(k.1)] == ToolOf(k, s'.rows[k].doc)
    {
      assert IsPublished(s, k);
    }
  }

  /** Published workflows have different slugs, and schemas that compile. */
  ghost predicate Listed(s: State, order: seq<RowKey>) {
    && (forall k | k in order :: k in s.rows && s.rows[k].doc.compiles)
    && (forall k, l | k in order && l in order && k.1 == l.1 :: k == l)
  }

  /** What republishing leaves under one name. */
  lemma {:induction false} RepublishedAt(site: Site, s: State, order: seq<RowKey>, b: BusState, n: string)
    requires RowsOk(site, s) && Listed(s, order) && b.schemas == b.tools.Keys
    ensures var r := Republished(site, s.rows, order, b);
      && r.schemas == r.tools.Keys
      && (n in r.tools <==> n in b.tools || exists k :: k in order && ToolName(k.1) == n)
      && (forall k | k in order && ToolName(k.1) == n :: r.tools[n] == ToolOf(k, s.rows[k].doc))
      && (n in b.tools && (forall k | k in order :: ToolName(k.1) != n) ==> r.tools[n] == b.tools[n])
    decreases |order|
  {
    if order != [] {
      var k := order[0];
      var b' := Swapped(b, ToolOf(k, s.rows[k].doc));
      assert k in order && order == [k] + order[1..];
      assert forall l | l in order[1..] :: l in order;
      SwappedIs(b, ToolOf(k, s.rows[k].doc));
      RepublishedAt(site, s, order[1..], b', n);
      forall l | l in order && ToolName(l.1) == n && ToolName(k.1) == n ensures l == k { NamesDiffer(l.1, k.1); }
    }
  }

  lemma BootOk(site: Site, s: State, order: seq<RowKey>)
    requires BusOk(site, s) && RowsOk(site, s) && ListsPublished(s, order)
    ensures BusOk(site, s.(bus := Republished(site, s.rows, order, BootBus(site.builtIns))))
  {
    var b := BootBus(site.builtIns);
    var s' := s.(bus := Republished(site, s.rows, order, b));
    forall k | k in order ensures IsPublished(s, k) && Free(site, s, k) { PublishedIsFree(site, s, k); }
    RepublishedAt(site, s, order, b, "");
    forall n
      ensures n in s'.bus.tools <==> n in site.builtIns || PublishedAs(s', n)
      ensures n in site.builtIns && n in s'.bus.tools ==> s'.bus.tools[n] == BuiltIn(n)
    {
      RepublishedAt(site, s, order, b, n);
      if k :| IsPublished(s', k) && ToolName(k.1) == n { assert k in order; }
      if k :| k in order && ToolName(k.1) == n { assert IsPublished(s', k); }
    }
    forall k | IsPublished(s', k)
      ensures ToolName(k.1) in s'.bus.tools && s'.bus.tools[ToolName(k.1)] == ToolOf(k, s'.rows[k].doc)
    {
      assert k in order;
      RepublishedAt(site, s, order, b, ToolName(k.1));
    }
  }

  lemma BusKept(site: Site, s: State, c: Call)
    requires BusOk(site, s) && RowsOk(site, s) && Guard(site, s, c)
    ensures BusOk(site, Next(site, s, c))
  {
    if c.Reboot? { if ListsPublished(s, c.order) { BootOk(site, s, c.order); } }
    else if c.Create? { BusSame(site, s, Next(site, s, c)); }
    else if c.key in s.rows {
      if c.Rotate? { BusSame(site, s, Next(site, s, c)); }
      else if c.Publish? { PublishBus(site, s, c); }
      else { RemoveBus(site, s, c); }
    }
  }

  lemma PublishBus(site: Site, s: State, c: Call)
    requires BusOk(site, s) && RowsOk(site, s) && Guard(site, s, c) && c.Publish? && c.key in s.rows
    ensures BusOk(site, Next(site, s, c))
  {
    assert Registers(Unregistered(s.bus, ToolName(c.key.1)), ToolOf(c.key, s.rows[c.key].doc));
    BusAdded(site, s, Next(site, s, c), c.key);
  }

  lemma RemoveBus(site: Site, s: State, c: Call)
    requires BusOk(site, s) && Guard(site, s, c) && (c.Update? || c.Unpublish? || c.Delete?) && c.key in s.rows
    ensures BusOk(site, Next(site, s, c))
  {
    var s' := Next(site, s, c);
    if s' != s {
      if s.rows[c.key].published { PublishedIsFree(site, s, c.key); }
      if s.rows[c.key].published || c.Unpublish? { BusRemoved(site, s, s', c.key); }
      else { BusSame(site, s, s'); }
    }
  }

  /** An unsafe call always leaves the bus wrong: a tool without schema, a built-in tool
      gone or replaced, or a published workflow without its tool. */
  lemma BusBroken(site: Site, s: State, c: Call)
    requires BusOk(site, s) && RowsOk(site, s) && !Guard(site, s, c)
    ensures !BusOk(site, Next(site, s, c))
  {
    var s', n := Next(site, s, c), ToolName(c.key.1);
    if c.Publish? && !s.rows[c.key].doc.compiles {
      assert n in s'.bus.tools && n !in s'.bus.schemas;
    } else {
      assert if c.Publish? then s'.bus.tools[n] == ToolOf(c.key, s.rows[c.key].doc) else n !in s'.bus.tools;
      if l :| l != c.key && IsPublished(s, l) && l.1 == c.key.1 { OthersToolGone(site, s, s', c.key, l); }
    }
  }

  /** A published workflow's name with another workflow's tool, or none. */
  lemma OthersToolGone(site: Site, s: State, s': State, k: RowKey, l: RowKey)
    requires l != k && l.1 == k.1 && IsPublished(s, l) && l in s'.rows && s'.rows[l] == s.rows[l]
    requires var n := ToolName(k.1); n in s'.bus.tools ==> k in s.rows && s'.bus.tools[n] == ToolOf(k, s.rows[k].doc)
    ensures !BusOk(site, s')
  {
    assert IsPublished(s', l) && (k in s.rows ==> ToolOf(l, s'.rows[l].doc) != ToolOf(k, s.rows[k].doc));
  }

  // ---- Triggers ----

  /** Only a workflow's own rows matter to it. */
  lemma OwnTriggers(t: Table, t': Table, wf: nat, specs: seq<Spec>)
    requires EnabledAre(t, wf, specs) && forall id :: RowAt(t', (wf, id)) == RowAt(t, (wf, id))
    ensures EnabledAre(t', wf, specs)
  {
    forall id ensures (wf, id) in t' <==> (wf, id) in t { assert RowAt(t', (wf, id)) == RowAt(t, (wf, id)); }
    forall id | (wf, id) in t' ensures t'[(wf, id)] == t[(wf, id)] { assert RowAt(t', (wf, id)) == RowAt(t, (wf, id)); }
  }

  ghost predicate OthersSame(t: Table, t': Table, wf: nat) {
    forall k: Key | k.0 != wf :: RowAt(t', k) == RowAt(t, k)
  }

  predicate DistinctRows(rows: map<RowKey, Wf>) {
    forall k, l | k in rows && l in rows && rows[k].id == rows[l].id :: k == l
  }

  /** One workflow changes, with the triggers it should have then. */
  lemma TriggersChange(rows: map<RowKey, Wf>, rows': map<RowKey, Wf>, t: Table, t': Table, k: RowKey)
    requires TriggersOk(rows, t) && DistinctRows(rows) && k in rows && OthersSame(t, t', rows[k].id)
    requires rows'.Keys - {k} == rows.Keys - {k} && forall l | l in rows && l in rows' && l != k :: rows'[l] == rows[l]
    requires k in rows' ==> rows'[k].id == rows[k].id && EnabledAre(t', rows[k].id, Wanted(rows'[k]))
    requires k !in rows' ==> forall id :: (rows[k].id, id) !in t'
    ensures TriggersOk(rows', t')
  {
    forall l | l in rows' ensures EnabledAre(t', rows'[l].id, Wanted(rows'[l])) {
      if l != k {
        assert l in rows'.Keys - {k};
        forall id ensures RowAt(t', (rows[l].id, id)) == RowAt(t, (rows[l].id, id)) { }
        OwnTriggers(t, t', rows[l].id, Wanted(rows[l]));
      }
    }
    forall x | x in t' ensures HasOwner(rows', x.0) {
      if x.0 == rows[k].id { assert k in rows'; }
      else {
        assert RowAt(t', x) == RowAt(t, x);
        assert HasOwner(rows, x.0);
        var l :| l in rows && rows[l].id == x.0;
        assert l in rows.Keys - {k};
      }
    }
  }

  lemma TriggersKept(site: Site, s: State, c: Call)
    requires TriggersOk(s.rows, s.triggers) && RowsOk(site, s)
    ensures TriggersOk(Next(site, s, c).rows, Next(site, s, c).triggers)
  {
    if c.Create? { CreateTriggers(site, s, c); }
    else if !c.Reboot? && c.key in s.rows {
      var wf := s.rows[c.key];
      if c.Publish? { PublishTriggers(site, s, c, wf); }
      else if c.Rotate? { RotateTriggers(site, s, c, wf); }
      else { DisableTriggers(site, s, c, wf); }
    }
  }

  lemma PublishTriggers(site: Site, s: State, c: Call, wf: Wf)
    requires TriggersOk(s.rows, s.triggers) && RowsOk(site, s) && c.Publish? && c.key in s.rows && s.rows[c.key] == wf
    ensures TriggersOk(Next(site, s, c).rows, Next(site, s, c).triggers)
  {
    var t' := Synced(site.crons, s.triggers, wf.id, wf.doc.triggers, c.tokens, c.now).table;
    var rows' := s.rows[c.key := wf.(published := true)];
    assert Accepts(site, wf.doc, c.key.1);
    SyncedChange(site.crons, s.rows, s.triggers, c.key, c.tokens, c.now);
    assert Next(site, s, c).rows in {s.rows, rows'};
  }

  lemma SyncedChange(cr: Crons, rows: map<RowKey, Wf>, t: Table, k: RowKey, tokens: string -> string, now: int)
    requires TriggersOk(rows, t) && DistinctRows(rows) && k in rows
    requires DistinctIds(rows[k].doc.triggers) && ValidSpecs(cr, rows[k].doc.triggers)
    ensures TriggersOk(rows[k := rows[k].(published := true)],
                       Synced(cr, t, rows[k].id, rows[k].doc.triggers, tokens, now).table)
  {
    var wf := rows[k];
    var t' := Synced(cr, t, wf.id, wf.doc.triggers, tokens, now).table;
    SyncedIs(cr, t, wf.id, wf.doc.triggers, tokens, now);
    OthersAre(t, t', wf.id, Ids(wf.doc.triggers));
    TriggersChange(rows, rows[k := wf.(published := true)], t, t', k);
  }

  lemma OthersAre(t: Table, t': Table, wf: nat, ids: set<string>)
    requires forall k :: k in t' <==> k in t || (k.0 == wf && k.1 in ids)
    requires forall k | k in t && k.0 != wf :: t'[k] == t[k]
    ensures OthersSame(t, t', wf)
  {
  }

  lemma DisabledTable(t: Table, wf: nat)
    ensures OthersSame(t, DisabledBut(t, wf, {}), wf) && EnabledAre(DisabledBut(t, wf, {}), wf, [])
  {
  }

  lemma WithoutTable(t: Table, wf: nat)
    ensures OthersSame(t, Without(t, wf), wf) && forall id :: (wf, id) !in Without(t, wf)
  {
  }

  lemma DisableTriggers(site: Site, s: State, c: Call, wf: Wf)
    requires c.Update? || c.Unpublish? || c.Delete?
    requires TriggersOk(s.rows, s.triggers) && DistinctRows(s.rows) && c.key in s.rows && s.rows[c.key] == wf
    ensures TriggersOk(Next(site, s, c).rows, Next(site, s, c).triggers)
  {
    var s' := Next(site, s, c);
    if c.Delete? {
      WithoutTable(s.triggers, wf.id);
      assert s'.rows == s.rows - {c.key} && s'.triggers == Without(s.triggers, wf.id);
    } else if s' != s {
      DisabledTable(s.triggers, wf.id);
      assert s'.rows == s.rows[c.key := s'.rows[c.key]] && s'.triggers == DisabledBut(s.triggers, wf.id, {});
      assert s'.rows[c.key].id == wf.id && Wanted(s'.rows[c.key]) == [];
    }
    if s' != s { TriggersChange(s.rows, s'.rows, s.triggers, s'.triggers, c.key); }
  }

  lemma RotateTriggers(site: Site, s: State, c: Call, wf: Wf)
    requires TriggersOk(s.rows, s.triggers) && RowsOk(site, s) && c.Rotate? && c.key in s.rows && s.rows[c.key] == wf
    ensures TriggersOk(Next(site, s, c).rows, Next(site, s, c).triggers)
  {
    RotatedEnabled(s.triggers, (wf.id, c.trigger), c.token, wf.id, Wanted(wf));
    TriggersChange(s.rows, s.rows, s.triggers, Next(site, s, c).triggers, c.key);
  }

  lemma RotatedEnabled(t: Table, k: Key, token: string, wf: nat, specs: seq<Spec>)
    requires EnabledAre(t, wf, specs)
    ensures EnabledAre(Rotated(t, k, token), wf, specs)
  {
  }

  lemma CreateTriggers(site: Site, s: State, c: Call)
    requires TriggersOk(s.rows, s.triggers) && RowsOk(site, s) && c.Create?
    ensures TriggersOk(Next(site, s, c).rows, Next(site, s, c).triggers)
  {
    if Next(site, s, c) != s { NewRowTriggers(s.rows, s.triggers, c.key, Wf(s.nextId, c.doc, 1, false)); }
  }

  /** A new workflow with an id of its own has no triggers. */
  lemma NewRowTriggers(rows: map<RowKey, Wf>, t: Table, k: RowKey, wf: Wf)
    requires TriggersOk(rows, t) && k !in rows && Wanted(wf) == [] && forall l | l in rows :: rows[l].id < wf.id
    ensures TriggersOk(rows[k := wf], t)
  {
    var rows' := rows[k := wf];
    forall x | x in t ensures HasOwner(rows', x.0) && x.0 < wf.id {
      assert HasOwner(rows, x.0);
      var l :| l in rows && rows[l].id == x.0;
      assert l in rows';
    }
    forall l | l in rows' ensures EnabledAre(t, rows'[l].id, Wanted(rows'[l])) {
      if l != k { assert l in rows; }
    }
  }

  // ---- Calls ----

  /** One call from a consistent state: rows, bus and triggers agree afterwards exactly when
      the call is safe. */
  lemma GuardExactly(site: Site, s: State, c: Call)
    requires Consistent(site, s)
    ensures Consistent(site, Next(site, s, c)) <==> Guard(site, s, c)
  {
    TriggersKept(site, s, c);
    RowsOkKept(site, s, c);
    if Guard(site, s, c) { BusKept(site, s, c); } else { BusBroken(site, s, c); }
  }

  lemma RowsKept(site: Site, s: State, c: Call)
    requires RowsOk(site, s) && Orderly(site, s) && Allowed(site, s, c)
    ensures RowsOk(site, Next(site, s, c)) && Orderly(site, Next(site, s, c))
  {
    RowsOkKept(site, s, c);
    if Next(site, s, c).rows != s.rows {
      OneRow(site, s, c);
      StaysOrderly(site, s, Next(site, s, c), c.key);
    }
  }

  /** A call changes its own row only, and only creation and update give it a document. */
  lemma OneRow(site: Site, s: State, c: Call)
    requires Next(site, s, c).rows != s.rows
    ensures !c.Reboot? && Next(site, s, c).rows - {c.key} == s.rows - {c.key}
    ensures var rows' := Next(site, s, c).rows;
      c.key in rows' ==>
        if c.Create? || c.Update? then rows'[c.key].doc == c.doc
        else c.key in s.rows && rows'[c.key].doc == s.rows[c.key].doc
  {
  }

  lemma StaysOrderly(site: Site, s: State, s': State, k: RowKey)
    requires Orderly(site, s)
    requires s'.rows - {k} == s.rows - {k}
    requires k in s'.rows ==> ToolName(k.1) !in site.builtIns && s'.rows[k].doc.compiles
    requires k in s'.rows ==> forall l | l in s.rows && l.1 == k.1 :: l == k
    ensures Orderly(site, s')
  {
    forall l | l in s'.rows && l != k ensures l in s.rows && s'.rows[l] == s.rows[l] {
      assert l in s'.rows - {k};
      assert (s'.rows - {k})[l] == (s.rows - {k})[l];
    }
    forall l, m | l in s'.rows && m in s'.rows && l.1 == m.1 ensures l == m {
      if l != k { assert l in s.rows; }
      if m != k { assert m in s.rows; }
    }
  }

  function Boot(site: Site): State { State(map[], 1, BootBus(site.builtIns), map[]) }

  /** Now and after each call. */
  ghost predicate StaysConsistent(site: Site, s: State, calls: seq<Call>)
    decreases |calls|
  {
    Consistent(site, s) && (calls != [] ==> StaysConsistent(site, Next(site, s, calls[0]), calls[1..]))
  }

  ghost predicate Guarded(site: Site, s: State, calls: seq<Call>)
    decreases |calls|
  {
    calls != [] ==> Guard(site, s, calls[0]) && Guarded(site, Next(site, s, calls[0]), calls[1..])
  }

  lemma {:induction false} CallsExactly(site: Site, s: State, calls: seq<Call>)
    requires Consistent(site, s)
    ensures StaysConsistent(site, s, calls) <==> Guarded(site, s, calls)
    decreases |calls|
  {
    if calls != [] {
      GuardExactly(site, s, calls[0]);
      var s' := Next(site, s, calls[0]);
      if Consistent(site, s') {
        CallsExactly(site, s', calls[1..]);
      } else {
        assert !StaysConsistent(site, s', calls[1..]);
      }
    }
  }

  /** From boot on, rows, bus and triggers agree after every call exactly when every
      publish has a schema that compiles, and every publish and unpublish a tool name that
      is no built-in tool's and no other published workflow's. */
  lemma ConsistentExactly(site: Site, calls: seq<Call>)
    ensures StaysConsistent(site, Boot(site), calls) <==> Guarded(site, Boot(site), calls)
  {
    CallsExactly(site, Boot(site), calls);
  }

  /** The calls give workflows slugs of their own, unlike built-in names, and schemas that
      compile. */
  predicate AllAllowed(site: Site, s: State, calls: seq<Call>)
    decreases |calls|
  {
    calls != [] ==> Allowed(site, s, calls[0]) && AllAllowed(site, Next(site, s, calls[0]), calls[1..])
  }

  lemma {:induction false} OrderlyIsGuarded(site: Site, s: State, calls: seq<Call>)
    requires RowsOk(site, s) && Orderly(site, s) && AllAllowed(site, s, calls)
    ensures Guarded(site, s, calls)
    decreases |calls|
  {
    if calls != [] {
      RowsKept(site, s, calls[0]);
      OrderlyIsGuarded(site, Next(site, s, calls[0]), calls[1..]);
    }
  }

  /** That much is a matter of creations and updates alone. */
  lemma OwnSlugsSuffice(site: Site, calls: seq<Call>)
    requires AllAllowed(site, Boot(site), calls)
    ensures StaysConsistent(site, Boot(site), calls)
  {
    OrderlyIsGuarded(site, Boot(site), calls);
    ConsistentExactly(site, calls);
  }

  // ---- What goes wrong otherwise ----

  function AnyCrons(): Crons { Crons((e, z) => true, (e, z, t) => t + 1) }

  function Plain(slug: string, compiles: bool): Doc { Doc(slug, true, compiles, []) }

  /** Publishing the second tenant's workflow takes over the first one's tool. */
  lemma SharedSlugBreaks()
    ensures !StaysConsistent(Site(AnyCrons(), {}), Boot(Site(AnyCrons(), {})), [
      Create((1, "a"), Plain("a", true)), Publish((1, "a"), x => x, 0),
      Create((2, "a"), Plain("a", true)), Publish((2, "a"), x => x, 0)])
  {
    var site := Site(AnyCrons(), {});
    var d := Plain("a", true);
    var calls := [Create((1, "a"), d), Publish((1, "a"), x => x, 0), Create((2, "a"), d), Publish((2, "a"), x => x, 0)];
    var s0 := Boot(site);
    var s1 := Next(site, s0, calls[0]);
    var s2 := Next(site, s1, calls[1]);
    var s3 := Next(site, s2, calls[2]);
    var s4 := Next(site, s3, calls[3]);
    assert s4.bus.tools[ToolName("a")] == ToolOf((2, "a"), d);
    assert IsPublished(s4, (1, "a"));
    assert !Consistent(site, s4);
    Broken(site, s3, calls[3..]);
    Broken(site, s2, calls[2..]);
    Broken(site, s1, calls[1..]);
    Broken(site, s0, calls);
  }

  lemma Broken(site: Site, s: State, calls: seq<Call>)
    requires calls != [] && !StaysConsistent(site, Next(site, s, calls[0]), calls[1..])
    ensures !StaysConsistent(site, s, calls)
  {
  }

  /** Unpublishing a workflow named like a built-in tool removes the built-in tool. */
  lemma ClashBreaks()
    ensures !StaysConsistent(Site(AnyCrons(), {ToolName("a")}), Boot(Site(AnyCrons(), {ToolName("a")})), [
      Create((1, "a"), Plain("a", true)), Unpublish((1, "a"))])
  {
    var site := Site(AnyCrons(), {ToolName("a")});
    var calls := [Create((1, "a"), Plain("a", true)), Unpublish((1, "a"))];
    var s0 := Boot(site);
    var s1 := Next(site, s0, calls[0]);
    var s2 := Next(site, s1, calls[1]);
    assert ToolName("a") !in s2.bus.tools;
    assert !Consistent(site, s2);
    Broken(site, s1, calls[1..]);
    Broken(site, s0, calls);
  }

  /** A schema that does not compile leaves a tool in the registry without a schema, and
      the row unpublished. */
  lemma BadSchemaBreaks()
    ensures !StaysConsistent(Site(AnyCrons(), {}), Boot(Site(AnyCrons(), {})), [
      Create((1, "a"), Plain("a", false)), Publish((1, "a"), x => x, 0)])
  {
    var site := Site(AnyCrons(), {});
    var calls := [Create((1, "a"), Plain("a", false)), Publish((1, "a"), x => x, 0)];
    var s0 := Boot(site);
    var s1 := Next(site, s0, calls[0]);
    var s2 := Next(site, s1, calls[1]);
    assert ToolName("a") in s2.bus.tools && ToolName("a") !in s2.bus.schemas;
    assert !Consistent(site, s2);
    Broken(site, s1, calls[1..]);
    Broken(site, s0, calls);
  }

  // ---- Tokens ----

  /** A webhook token, once there, changes by rotation only, for as long as the row lives;
      nothing is assumed about slugs, names or schemas. */
  lemma TokenChangesByRotationOnly(site: Site, s: State, c: Call, k: Key)
    requires k in s.triggers && s.triggers[k].token != "" && RowsOk(site, s)
    requires !(c.Rotate? && c.key in s.rows && k == (s.rows[c.key].id, c.trigger))
    ensures var s' := Next(site, s, c); k in s'.triggers ==> s'.triggers[k].token == s.triggers[k].token
    ensures k !in Next(site, s, c).triggers ==> c.Delete? && c.key in s.rows && s.rows[c.key].id == k.0
  {
    if c.Publish? && c.key in s.rows {
      var wf := s.rows[c.key];
      SyncedIs(site.crons, s.triggers, wf.id, wf.doc.triggers, c.tokens, c.now);
    }
  }
}
