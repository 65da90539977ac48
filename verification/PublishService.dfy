/** The registry, the bus and the workflow service as they are written: each call changes
    several of them in turn, and comes to what `Next` says. */
module PublishService {
  import opened Workflow
  import opened Triggers
  import opened Publish

  class Registry {
    var tools: map<string, Tool>

    constructor (tools: map<string, Tool>)
      ensures this.tools == tools
    {
      this.tools := tools;
    }

    method Register(t: Tool) returns (ok: bool)
      modifies this
      ensures ok <==> NameOf(t) !in old(tools)
      ensures tools == if ok then old(tools)[NameOf(t) := t] else old(tools)
    {
      var name := NameOf(t);
      if name in tools { return false; }
      tools := tools[name := t];
      ok := true;
    }

    method Unregister(name: string) returns (ok: bool)
      modifies this
      ensures ok <==> name in old(tools)
      ensures tools == old(tools) - {name}
    {
      if name !in tools {
        assert tools - {name} == tools;
        return false;
      }
      tools := tools - {name};
      ok := true;
    }

    method Get(name: string) returns (t: Option<Tool>)
      ensures t == if name in tools then Some(tools[name]) else None
    {
      t := if name in tools then Some(tools[name]) else None;
    }
  }

  class Bus {
    const reg: Registry
    var schemas: set<string>

    constructor (builtIns: set<string>)
      ensures fresh(reg) && Now() == BootBus(builtIns)
    {
      reg := new Registry(map n | n in builtIns :: BuiltIn(n));
      schemas := builtIns;
    }

    ghost function Now(): BusState
      reads this, reg
    {
      BusState(reg.tools, schemas)
    }

    /** The registry first, then the schema. */
    method Register(t: Tool) returns (ok: bool)
      modifies this, reg
      ensures Now() == Registered(old(Now()), t) && ok == Registers(old(Now()), t)
    {
      ok := reg.Register(t);
      if !ok { return; }
      if !Compiles(t) { return false; }
      schemas := schemas + {NameOf(t)};
    }

    method Unregister(name: string) returns (ok: bool)
      modifies this, reg
      ensures Now() == Unregistered(old(Now()), name) && ok == (name in old(reg.tools))
    {
      ok := reg.Unregister(name);
      if !ok {
        assert reg.tools == old(reg.tools);
        return;
      }
      schemas := schemas - {name};
    }
  }

  class Service {
    const site: Site
    var bus: Bus
    const triggers: TriggerRepo
    var rows: map<RowKey, Wf>
    var nextId: nat

    constructor (site: Site)
      ensures Valid() && fresh(bus) && fresh(bus.reg) && fresh(triggers)
      ensures this.site == site && Now() == State(map[], 1, BootBus(site.builtIns), map[])
    {
      this.site := site;
      bus := new Bus(site.builtIns);
      triggers := new TriggerRepo(site.crons);
      rows, nextId := map[], 1;
    }

    ghost predicate Valid()
      reads this, bus, bus.reg, triggers
    {
      triggers.crons == site.crons && RowsOk(site, Now())
    }

    ghost function Now(): State
      reads this, bus, bus.reg, triggers
    {
      State(rows, nextId, bus.Now(), triggers.table)
    }

    method ParseValidate(d: Doc, slug: string) returns (ok: bool)
      ensures ok == Accepts(site, d, slug)
    {
      if !d.sound || !DistinctIds(d.triggers) { return false; }
      if exists t :: t in d.triggers && t.cron != "" && !site.crons.valid(t.cron, Zone(t)) { return false; }
      ok := d.id == slug;
    }

    method RegisterTool(key: RowKey, d: Doc) returns (ok: bool)
      modifies bus, bus.reg
      ensures bus == old(bus) && bus.reg == old(bus.reg)
      ensures bus.Now() == Swapped(old(bus.Now()), ToolOf(key, d))
      ensures ok == Registers(Unregistered(old(bus.Now()), ToolName(key.1)), ToolOf(key, d))
    {
      var t := ToolOf(key, d);
      var _ := bus.Unregister(NameOf(t));
      ok := bus.Register(t);
    }

    method Create(key: RowKey, d: Doc) returns (ok: bool)
      requires Valid()
      modifies this`rows, this`nextId
      ensures Valid() && Now() == Next(site, old(Now()), Call.Create(key, d))
      ensures ok <==> Accepts(site, d, key.1) && key !in old(rows)
    {
      RowsOkKept(site, Now(), Call.Create(key, d));
      ok := ParseValidate(d, key.1);
      if !ok { return; }
      if key in rows { return false; }
      rows := rows[key := Wf(nextId, d, 1, false)];
      nextId := nextId + 1;
    }

    method Update(key: RowKey, d: Doc) returns (ok: bool)
      requires Valid()
      modifies this`rows, bus, bus.reg, triggers
      ensures bus == old(bus) && bus.reg == old(bus.reg)
      ensures Valid() && Now() == Next(site, old(Now()), Call.Update(key, d))
      ensures ok <==> Accepts(site, d, key.1) && key in old(rows)
    {
      RowsOkKept(site, Now(), Call.Update(key, d));
      ok := ParseValidate(d, key.1);
      if !ok { return; }
      if key !in rows { return false; }
      var prev := rows[key];
      UpdateIs(site, Now(), key, d, prev);
      rows := rows[key := Wf(prev.id, d, prev.version + 1, false)];
      if prev.published { var _ := bus.Unregister(ToolName(key.1)); }
      triggers.DisableAllForWorkflow(prev.id);
    }

    method Delete(key: RowKey) returns (ok: bool)
      requires Valid()
      modifies this`rows, bus, bus.reg, triggers
      ensures bus == old(bus) && bus.reg == old(bus.reg)
      ensures Valid() && Now() == Next(site, old(Now()), Call.Delete(key))
      ensures ok <==> key in old(rows)
    {
      RowsOkKept(site, Now(), Call.Delete(key));
      if key !in rows { return false; }
      var prev := rows[key];
      if prev.published { var _ := bus.Unregister(ToolName(key.1)); }
      rows := rows - {key};
      // the foreign key cascades
      triggers.table := Without(triggers.table, prev.id);
      ok := true;
    }

    method Publish(key: RowKey, tokens: string -> string, now: int) returns (ok: bool)
      requires Valid()
      modifies this`rows, bus, bus.reg, triggers
      ensures bus == old(bus) && bus.reg == old(bus.reg)
      ensures Valid() && Now() == Next(site, old(Now()), Call.Publish(key, tokens, now))
      ensures ok ==> IsPublished(Now(), key)
    {
      RowsOkKept(site, Now(), Call.Publish(key, tokens, now));
      if key !in rows { return false; }
      var wf := rows[key];
      ok := ParseValidate(wf.doc, key.1);
      if !ok { return; }
      ok := RegisterTool(key, wf.doc);
      if !ok { return; }
      rows := rows[key := wf.(published := true)];
      ok := triggers.SyncTriggersFromDoc(wf.id, wf.doc.triggers, tokens, now);
    }

    method Unpublish(key: RowKey) returns (ok: bool)
      requires Valid()
      modifies this`rows, bus, bus.reg, triggers
      ensures bus == old(bus) && bus.reg == old(bus.reg)
      ensures Valid() && Now() == Next(site, old(Now()), Call.Unpublish(key))
      ensures ok <==> key in old(rows)
    {
      RowsOkKept(site, Now(), Call.Unpublish(key));
      if key !in rows { return false; }
      var wf := rows[key];
      var _ := bus.Unregister(ToolName(key.1));
      rows := rows[key := wf.(published := false)];
      triggers.DisableAllForWorkflow(wf.id);
      ok := true;
    }

    method RotateWebhookToken(key: RowKey, id: string, token: string) returns (ok: bool)
      requires Valid()
      modifies triggers
      ensures Valid() && Now() == Next(site, old(Now()), Call.Rotate(key, id, token))
    {
      RowsOkKept(site, Now(), Call.Rotate(key, id, token));
      if key !in rows { return false; }
      ok := triggers.RotateWebhookToken(rows[key].id, id, token);
    }

    /** A new process: a bus of built-in tools, then every published workflow again. */
    method RepublishAll(order: seq<RowKey>)
      requires Valid() && ListsPublished(Now(), order)
      modifies this`bus
      ensures fresh(bus) && fresh(bus.reg)
      ensures Valid() && Now() == Next(site, old(Now()), Call.Reboot(order))
    {
      RowsOkKept(site, Now(), Call.Reboot(order));
      bus := new Bus(site.builtIns);
      var i := 0;
      while i < |order|
        invariant i <= |order| && fresh(bus) && fresh(bus.reg)
        invariant rows == old(rows) && nextId == old(nextId)
        invariant triggers.table == old(triggers.table)
        invariant Republished(site, rows, order[i..], bus.Now())
          == Republished(site, rows, order, BootBus(site.builtIns))
      {
        var k := order[i];
        assert order[i..][0] == k && order[i..][1..] == order[i + 1..] && k in order;
        var ok := ParseValidate(rows[k].doc, k.1);
        if ok { ok := RegisterTool(k, rows[k].doc); }
        i := i + 1;
      }
    }
  }

  /** An accepted update, field by field. */
  lemma UpdateIs(site: Site, s: State, key: RowKey, d: Doc, prev: Wf)
    requires key in s.rows && s.rows[key] == prev && Accepts(site, d, key.1)
    ensures Next(site, s, Call.Update(key, d)) ==
      s.(rows := s.rows[key := Wf(prev.id, d, prev.version + 1, false)],
         bus := if prev.published then Unregistered(s.bus, ToolName(key.1)) else s.bus,
         triggers := DisabledBut(s.triggers, prev.id, {}))
  {
    assert Next(site, s, Call.Update(key, d)) == RowCall(site, s, Call.Update(key, d), prev);
  }
}
