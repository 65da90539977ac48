/** The life of workflows: rows, the tool bus and the triggers, changed together by each
    call of the service. */
module Publish {
  import opened Workflow
  import opened Triggers

  /** A document as far as publishing goes: its id, whether the rest of it validates,
      whether the schema of its inputs compiles, and its triggers. */
  datatype Doc = Doc(id: string, sound: bool, compiles: bool, triggers: seq<Spec>)

  datatype Wf = Wf(id: nat, doc: Doc, version: nat, published: bool)

  // the tenant and the slug
  type RowKey = (nat, string)

  datatype Tool = BuiltIn(name: string) | OfWorkflow(tenant: nat, slug: string, compiles: bool)

  function ToolName(slug: string): string { "workflow." + slug }

  function NameOf(t: Tool): string { if t.BuiltIn? then t.name else ToolName(t.slug) }

  predicate Compiles(t: Tool) { t.BuiltIn? || t.compiles }

  /** The registry and, beside it, the names with a compiled schema. */
  datatype BusState = BusState(tools: map<string, Tool>, schemas: set<string>)

  function Unregistered(b: BusState, name: string): BusState {
    if name in b.tools then BusState(b.tools - {name}, b.schemas - {name}) else b
  }

  /** A duplicate name is refused; a schema that does not compile is an error after the
      tool went into the registry. */
  function Registered(b: BusState, t: Tool): BusState {
    var name := NameOf(t);
    if name in b.tools then b
    else BusState(b.tools[name := t], if Compiles(t) then b.schemas + {name} else b.schemas)
  }

  predicate Registers(b: BusState, t: Tool) { NameOf(t) !in b.tools && Compiles(t) }

  function Swapped(b: BusState, t: Tool): BusState { Registered(Unregistered(b, NameOf(t)), t) }

  datatype Site = Site(crons: Crons, builtIns: set<string>)

  datatype State = State(rows: map<RowKey, Wf>, nextId: nat, bus: BusState, triggers: Table)

  /** Parsing and validation, including the triggers and the id against the slug. */
  predicate Accepts(site: Site, d: Doc, slug: string) {
    d.sound && d.id == slug && DistinctIds(d.triggers) && ValidSpecs(site.crons, d.triggers)
  }

  datatype Call =
    | Create(key: RowKey, doc: Doc)
    | Update(key: RowKey, doc: Doc)
    | Publish(key: RowKey, tokens: string -> string, now: int)
    | Unpublish(key: RowKey)
    | Delete(key: RowKey)
    | Rotate(key: RowKey, trigger: string, token: string)
    | Reboot(order: seq<RowKey>)

  function ToolOf(key: RowKey, d: Doc): Tool { OfWorkflow(key.0, key.1, d.compiles) }

  function BootBus(builtIns: set<string>): BusState {
    BusState(map n | n in builtIns :: BuiltIn(n), builtIns)
  }

  function Republished(site: Site, rows: map<RowKey, Wf>, order: seq<RowKey>, b: BusState): BusState
    decreases |order|
  {
    if order == [] then b
    else
      var k := order[0];
      var b' := if k in rows && Accepts(site, rows[k].doc, k.1) then Swapped(b, ToolOf(k, rows[k].doc)) else b;
      Republished(site, rows, order[1..], b')
  }

  function Without(t: Table, wf: nat): Table { map k | k in t && k.0 != wf :: t[k] }

  predicate ListsPublished(s: State, order: seq<RowKey>) {
    && (forall k | k in order :: k in s.rows && s.rows[k].published)
    && (forall k | k in s.rows && s.rows[k].published :: k in order)
  }

  /** One call; a call that fails may still have changed something. */
  function Next(site: Site, s: State, c: Call): State {
    match c
    case Create(k, d) =>
      if !Accepts(site, d, k.1) || k in s.rows then s
      else s.(rows := s.rows[k := Wf(s.nextId, d, 1, false)], nextId := s.nextId + 1)
    case Reboot(order) =>
      if ListsPublished(s, order) then s.(bus := Republished(site, s.rows, order, BootBus(site.builtIns))) else s
    case _ => if c.key in s.rows then RowCall(site, s, c, s.rows[c.key]) else s
  }

  function RowCall(site: Site, s: State, c: Call, wf: Wf): State
    requires !c.Create? && !c.Reboot? && c.key in s.rows && s.rows[c.key] == wf
  {
    match c
    case Update(k, d) =>
      if !Accepts(site, d, k.1) then s
      else
        s.(rows := s.rows[k := Wf(wf.id, d, wf.version + 1, false)],
           bus := if wf.published then Unregistered(s.bus, ToolName(k.1)) else s.bus,
           triggers := DisabledBut(s.triggers, wf.id, {}))
    case Publish(k, tokens, now) =>
      if !Accepts(site, wf.doc, k.1) then s
      else
        var t := ToolOf(k, wf.doc);
        var s' := s.(bus := Swapped(s.bus, t));
        if !Registers(Unregistered(s.bus, NameOf(t)), t) then s'
        else
          s'.(rows := s.rows[k := wf.(published := true)],
              triggers := Synced(site.crons, s.triggers, wf.id, wf.doc.triggers, tokens, now).table)
    case Unpublish(k) =>
      s.(rows := s.rows[k := wf.(published := false)],
         bus := Unregistered(s.bus, ToolName(k.1)),
         triggers := DisabledBut(s.triggers, wf.id, {}))
    case Delete(k) =>
      s.(rows := s.rows - {k},
         bus := if wf.published then Unregistered(s.bus, ToolName(k.1)) else s.bus,
         triggers := Without(s.triggers, wf.id))
    case Rotate(k, id, token) => s.(triggers := Rotated(s.triggers, (wf.id, id), token))
  }

  // ---- Consistency ----

  predicate IsPublished(s: State, k: RowKey) { k in s.rows && s.rows[k].published }

  ghost predicate PublishedAs(s: State, name: string) { exists k :: IsPublished(s, k) && ToolName(k.1) == name }

  /** The bus holds the built-in tools and the tools of published workflows, each with its
      schema, which compiles; a published workflow's tool is its own. */
  ghost predicate BusOk(site: Site, s: State) {
    && (forall k | IsPublished(s, k) :: s.rows[k].doc.compiles)
    && s.bus.schemas == s.bus.tools.Keys
    && (forall n :: n in s.bus.tools <==> n in site.builtIns || PublishedAs(s, n))
    && (forall k | IsPublished(s, k) ::
          ToolName(k.1) in s.bus.tools && s.bus.tools[ToolName(k.1)] == ToolOf(k, s.rows[k].doc))
    && (forall n | n in site.builtIns && n in s.bus.tools :: s.bus.tools[n] == BuiltIn(n))
  }

  predicate Matches(x: Trig, spec: Spec) {
    x.kind == (if spec.cron == "" then Webhook else Cron) && x.expr == spec.cron && x.timezone == Zone(spec)
  }

  function Wanted(wf: Wf): seq<Spec> { if wf.published then wf.doc.triggers else [] }

  predicate HasOwner(rows: map<RowKey, Wf>, id: nat) { exists k :: k in rows && rows[k].id == id }

  /** The enabled triggers of a workflow are those of its document, when it is published,
      and none otherwise. */
  ghost predicate TriggersOk(rows: map<RowKey, Wf>, triggers: Table) {
    && (forall k | k in rows :: EnabledAre(triggers, rows[k].id, Wanted(rows[k])))
    && (forall x | x in triggers :: HasOwner(rows, x.0))
  }

  ghost predicate EnabledAre(t: Table, wf: nat, specs: seq<Spec>) {
    && (forall id | (wf, id) in t && t[(wf, id)].enabled :: id in Ids(specs))
    && (forall spec | spec in specs ::
          (wf, spec.id) in t && t[(wf, spec.id)].enabled && Matches(t[(wf, spec.id)], spec))
  }

  predicate RowsOk(site: Site, s: State) {
    && (forall k | k in s.rows :: s.rows[k].id < s.nextId && Accepts(site, s.rows[k].doc, k.1))
    && (forall k, l | k in s.rows && l in s.rows && s.rows[k].id == s.rows[l].id :: k == l)
  }

  ghost predicate Consistent(site: Site, s: State) {
    BusOk(site, s) && TriggersOk(s.rows, s.triggers) && RowsOk(site, s)
  }

  // ---- What may happen ----

  /** Creations and updates with a slug no other tenant has, unlike any built-in tool's
      name, and with a schema that compiles. */
  predicate Allowed(site: Site, s: State, c: Call) {
    c.Create? || c.Update? ==>
      && (forall k | k in s.rows && k.1 == c.key.1 :: k == c.key)
      && ToolName(c.key.1) !in site.builtIns
      && c.doc.compiles
  }

  predicate Orderly(site: Site, s: State) {
    && (forall k, l | k in s.rows && l in s.rows && k.1 == l.1 :: k == l)
    && (forall k | k in s.rows :: ToolName(k.1) !in site.builtIns && s.rows[k].doc.compiles)
  }

  lemma NamesDiffer(a: string, b: string)
    ensures ToolName(a) == ToolName(b) <==> a == b
  {
    if ToolName(a) == ToolName(b) { assert ToolName(a)[9..] == a && ToolName(b)[9..] == b; }
  }

  // ---- Syncs ----

  predicate ValidSpecs(cr: Crons, specs: seq<Spec>) {
    forall x | x in specs :: x.cron != "" ==> cr.valid(x.cron, Zone(x))
  }

  function RowAt(t: Table, k: Key): Option<Trig> { if k in t then Some(t[k]) else None }

  /** The row an upsert writes depends on the row it finds only. */
  lemma UpsertedRow(cr: Crons, t: Table, t': Table, wf: nat, x: Spec, newToken: string, now: int)
    requires x.cron != "" ==> cr.valid(x.cron, Zone(x))
    requires RowAt(t, (wf, x.id)) == RowAt(t', (wf, x.id))
    ensures Upserted(cr, t, wf, x, newToken, now).Some? && Upserted(cr, t', wf, x, newToken, now).Some?
    ensures RowAt(Upserted(cr, t, wf, x, newToken, now).value, (wf, x.id))
      == RowAt(Upserted(cr, t', wf, x, newToken, now).value, (wf, x.id))
  {
  }

  lemma {:induction false} SyncSkips(cr: Crons, t: Table, wf: nat, specs: seq<Spec>, tokens: string -> string,
                                     now: int, k: Key)
    requires ValidSpecs(cr, specs) && (k.0 == wf ==> forall j | 0 <= j < |specs| :: specs[j].id != k.1)
    ensures var r := UpsertedAll(cr, t, wf, specs, tokens, now); r.ok && RowAt(r.table, k) == RowAt(t, k)
    decreases |specs|
  {
    if specs != [] {
      assert specs[0] in specs;
      assert forall y | y in specs[1..] :: y in specs;
      SyncSkips(cr, Upserted(cr, t, wf, specs[0], tokens(specs[0].id), now).value, wf, specs[1..], tokens, now, k);
    }
  }

  lemma {:induction false} SyncWrites(cr: Crons, t: Table, wf: nat, specs: seq<Spec>, tokens: string -> string,
                                      now: int, j: nat)
    requires ValidSpecs(cr, specs) && DistinctIds(specs) && j < |specs|
    ensures var x := specs[j]; var u := Upserted(cr, t, wf, x, tokens(x.id), now);
      u.Some? && RowAt(UpsertedAll(cr, t, wf, specs, tokens, now).table, (wf, x.id)) == RowAt(u.value, (wf, x.id))
    decreases |specs|
  {
    var x, rest := specs[0], specs[1..];
    assert x in specs && forall y | y in rest :: y in specs;
    var t' := Upserted(cr, t, wf, x, tokens(x.id), now).value;
    if j == 0 { SyncSkips(cr, t', wf, rest, tokens, now, (wf, x.id)); }
    else {
      SyncWrites(cr, t', wf, rest, tokens, now, j - 1);
      assert specs[j] == rest[j - 1] && specs[j] in specs;
      UpsertedRow(cr, t, t', wf, specs[j], tokens(specs[j].id), now);
    }
  }

  lemma SyncedIs(cr: Crons, t: Table, wf: nat, specs: seq<Spec>, tokens: string -> string, now: int)
    requires DistinctIds(specs) && ValidSpecs(cr, specs)
    ensures var r := Synced(cr, t, wf, specs, tokens, now);
      && r.ok && EnabledAre(r.table, wf, specs)
      && (forall k :: k in r.table <==> k in t || (k.0 == wf && k.1 in Ids(specs)))
      && (forall k | k in t && k.0 != wf :: r.table[k] == t[k])
      && (forall k | k in t && t[k].token != "" :: r.table[k].token == t[k].token)
  {
    var u := UpsertedAll(cr, t, wf, specs, tokens, now);
    SyncSkips(cr, t, wf, specs, tokens, now, (wf + 1, ""));
    forall k
      ensures k in u.table <==> k in t || (k.0 == wf && k.1 in Ids(specs))
      ensures k in t && k.0 != wf ==> u.table[k] == t[k]
      ensures k in t && t[k].token != "" ==> u.table[k].token == t[k].token
    {
      if k.0 == wf && k.1 in Ids(specs) {
        var j :| 0 <= j < |specs| && specs[j].id == k.1;
        SyncWrites(cr, t, wf, specs, tokens, now, j);
      } else {
        SyncSkips(cr, t, wf, specs, tokens, now, k);
      }
      assert RowAt(u.table, k).Some? <==> k in u.table;
    }
    forall j | 0 <= j < |specs|
      ensures var k := (wf, specs[j].id); k in u.table && u.table[k].enabled && Matches(u.table[k], specs[j])
    {
      SyncWrites(cr, t, wf, specs, tokens, now, j);
      assert RowAt(u.table, (wf, specs[j].id)).Some?;
    }
    forall x | x in specs ensures x.id in Ids(specs) { }
  }

  lemma OneRowChanged(site: Site, s: State, s': State, k: RowKey)
    requires RowsOk(site, s) && s.nextId <= s'.nextId
    requires forall l | l in s'.rows && l != k :: l in s.rows && s'.rows[l] == s.rows[l]
    requires k in s'.rows ==>
      && Accepts(site, s'.rows[k].doc, k.1)
      && (if k in s.rows then s'.rows[k].id == s.rows[k].id else s'.rows[k].id == s.nextId < s'.nextId)
    ensures RowsOk(site, s')
  {
    forall l, m | l in s'.rows && m in s'.rows && s'.rows[l].id == s'.rows[m].id ensures l == m {
      if l != k { assert l in s.rows; }
      if m != k { assert m in s.rows; }
    }
  }

  /** Rows keep accepted documents and different ids, whatever the call. */
  lemma RowsOkKept(site: Site, s: State, c: Call)
    requires RowsOk(site, s)
    ensures RowsOk(site, Next(site, s, c))
  {
    if !c.Reboot? && Next(site, s, c).rows != s.rows { OneRowChanged(site, s, Next(site, s, c), c.key); }
  }
}
