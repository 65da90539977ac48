/** What a workflow's row says of the calls that were made: its document, its version and
    whether it is published follow from its own calls alone. */
module RowHistory {
  import opened Workflow
  import opened Triggers
  import opened Publish
  import Lifecycle

  /** A document that may be stored under a slug: sound, with the slug as its id, different
      trigger ids and cron expressions that are valid in their time zone. */
  predicate Fits(site: Site, d: Doc, slug: string) {
    && d.sound && d.id == slug
    && (forall i, j | 0 <= i < j < |d.triggers| :: d.triggers[i].id != d.triggers[j].id)
    && forall x | x in d.triggers && x.cron != "" ::
      site.crons.valid(x.cron, if x.timezone == "" then "UTC" else x.timezone)
  }

  /** The documents stored for a workflow since it was created, and whether it is
      published. */
  datatype Past = NoRow | Stored(docs: seq<Doc>, published: bool)

  function Then(site: Site, p: Past, c: Call, k: RowKey): Past {
    if c.Reboot? || c.key != k then p
    else
      match (c, p)
      case (Create(_, d), NoRow) => if Fits(site, d, k.1) then Stored([d], false) else p
      case (Update(_, d), Stored(docs, _)) => if Fits(site, d, k.1) then Stored(docs + [d], false) else p
      case (Publish(_, _, _), Stored(docs, _)) =>
        if docs != [] && docs[|docs| - 1].compiles then Stored(docs, true) else p
      case (Unpublish(_), Stored(docs, _)) => Stored(docs, false)
      case (Delete(_), _) => NoRow
      case _ => p
  }

  function PastOf(site: Site, p: Past, calls: seq<Call>, k: RowKey): Past
    decreases |calls|
  {
    if |calls| == 0 then p else PastOf(site, Then(site, p, calls[0], k), calls[1..], k)
  }

  function After(site: Site, s: State, calls: seq<Call>): State
    decreases |calls|
  {
    if |calls| == 0 then s else After(site, Next(site, s, calls[0]), calls[1..])
  }

  /** The row holds the document stored last, the number of documents stored, and whether
      it is published. */
  predicate Tells(s: State, k: RowKey, p: Past) {
    if p.NoRow? then k !in s.rows
    else
      && p.docs != [] && k in s.rows
      && s.rows[k].doc == p.docs[|p.docs| - 1] && s.rows[k].version == |p.docs| && s.rows[k].published == p.published
  }

  lemma FitsIs(site: Site, d: Doc, slug: string)
    ensures Fits(site, d, slug) <==> Accepts(site, d, slug)
  {
  }

  lemma CallTells(site: Site, s: State, c: Call, k: RowKey, p: Past)
    requires RowsOk(site, s) && Tells(s, k, p)
    ensures Tells(Next(site, s, c), k, Then(site, p, c, k))
  {
    if c.Create? || c.Update? { FitsIs(site, c.doc, c.key.1); }
    if !c.Reboot? && c.key != k { OtherRow(site, s, c, k); }
  }

  lemma OtherRow(site: Site, s: State, c: Call, k: RowKey)
    requires !c.Reboot? && c.key != k
    ensures var rows' := Next(site, s, c).rows; (k in rows' <==> k in s.rows) && (k in s.rows ==> rows'[k] == s.rows[k])
  {
  }

  lemma {:induction false} CallsTell(site: Site, s: State, calls: seq<Call>, k: RowKey, p: Past)
    requires RowsOk(site, s) && Tells(s, k, p)
    ensures Tells(After(site, s, calls), k, PastOf(site, p, calls, k))
    decreases |calls|
  {
    if |calls| > 0 {
      RowsOkKept(site, s, calls[0]);
      CallTells(site, s, calls[0], k, p);
      CallsTell(site, Next(site, s, calls[0]), calls[1..], k, Then(site, p, calls[0], k));
    }
  }

  /** From boot on, whatever the calls and whether they succeed: a row's version counts the
      documents stored since it was created, its document is the last of them, and it is
      published exactly when publishing came after the last change that unpublishes. No
      other workflow's calls and no reboot matter. */
  lemma RowsTellTheirCalls(site: Site, calls: seq<Call>, k: RowKey)
    ensures Tells(After(site, Lifecycle.Boot(site), calls), k, PastOf(site, NoRow, calls, k))
  {
    CallsTell(site, Lifecycle.Boot(site), calls, k, NoRow);
  }

  // ---- What publishing gives ----

  lemma {:induction false} GuardedStays(site: Site, s: State, calls: seq<Call>)
    requires Lifecycle.StaysConsistent(site, s, calls)
    ensures Consistent(site, After(site, s, calls))
    decreases |calls|
  {
    if |calls| > 0 { GuardedStays(site, Next(site, s, calls[0]), calls[1..]); }
  }

  /** After guarded calls the tool under a published workflow's name is its tenant's own,
      with its schema, and enabled triggers are the last stored document's. */
  lemma PublishedIsServed(site: Site, calls: seq<Call>, k: RowKey)
    requires Lifecycle.Guarded(site, Lifecycle.Boot(site), calls)
    requires var p := PastOf(site, NoRow, calls, k); p.Stored? && p.published
    ensures var s, p := After(site, Lifecycle.Boot(site), calls), PastOf(site, NoRow, calls, k);
      && k in s.rows && "workflow." + k.1 in s.bus.tools && "workflow." + k.1 in s.bus.schemas
      && s.bus.tools["workflow." + k.1] == OfWorkflow(k.0, k.1, true)
      && p.docs != []
      && var specs, wf := p.docs[|p.docs| - 1].triggers, s.rows[k].id;
      && (forall id | (wf, id) in s.triggers && s.triggers[(wf, id)].enabled :: exists x :: x in specs && x.id == id)
      && (forall x | x in specs :: (wf, x.id) in s.triggers && Serves(s.triggers[(wf, x.id)], x))
  {
    RowsTellTheirCalls(site, calls, k);
    Lifecycle.ConsistentExactly(site, calls);
    GuardedStays(site, Lifecycle.Boot(site), calls);
    var s := After(site, Lifecycle.Boot(site), calls);
    assert IsPublished(s, k) && EnabledAre(s.triggers, s.rows[k].id, s.rows[k].doc.triggers);
  }

  predicate Serves(row: Trig, x: Spec) {
    && row.enabled && (row.kind == Webhook <==> x.cron == "") && row.expr == x.cron
    && row.timezone == if x.timezone == "" then "UTC" else x.timezone
  }

  /** What a sync writes for a trigger of the document: a webhook keeps its token or gets
      the new one and has no next run; a cron trigger runs next at the first instant after
      the sync's time. */
  lemma SyncedRow(cr: Crons, t: Table, wf: nat, specs: seq<Spec>, tokens: string -> string, now: int, j: nat)
    requires DistinctIds(specs) && ValidSpecs(cr, specs) && j < |specs|
    ensures var x, u := specs[j], Synced(cr, t, wf, specs, tokens, now).table;
      && (wf, x.id) in u && Serves(u[(wf, x.id)], x)
      && var row, was := u[(wf, x.id)], if (wf, x.id) in t then t[(wf, x.id)].token else "";
      && row.lastFailed == ((wf, x.id) in t && t[(wf, x.id)].lastFailed)
      && (if x.cron == "" then row.nextRun == None && row.token == (if was != "" then was else tokens(x.id))
          else row.nextRun == Some(cr.next(row.expr, row.timezone, now)) && row.token == was)
  {
    SyncWrites(cr, t, wf, specs, tokens, now, j);
    SyncedIs(cr, t, wf, specs, tokens, now);
    var k := (wf, specs[j].id);
    assert specs[j].id in Ids(specs);
    assert RowAt(UpsertedAll(cr, t, wf, specs, tokens, now).table, k).Some?;
    assert Synced(cr, t, wf, specs, tokens, now).table[k] == UpsertedAll(cr, t, wf, specs, tokens, now).table[k];
  }
}
