/** What the appended rows hold: each commit stores the entry its transaction began with. */
module AuditStored {
  import opened Workflow
  import opened AuditBytes
  import opened AuditChain
  import opened AuditAppend

  /** t cut to the microsecond. */
  predicate ToMicrosecond(t: Time, cut: Time) {
    && cut.year == t.year && cut.month == t.month && cut.day == t.day
    && cut.hour == t.hour && cut.minute == t.minute && cut.second == t.second
    && cut.nanos <= t.nanos < cut.nanos + 1000 && cut.nanos % 1000 == 0
  }

  /** The row of an entry given at a time: every column is the entry's, the time filled in
      when there is none and cut, metadata that cannot be encoded left out. */
  predicate StoredFrom(e: Entry, now: Time, row: Entry) {
    && row.tenant == e.tenant && row.user == e.user
    && row.action == e.action && row.target == e.target && row.meth == e.meth && row.path == e.path
    && row.status == e.status && row.durationMS == e.durationMS
    && ToMicrosecond(if e.at == NO_TIME then now else e.at, row.at)
    && row.meta == (if e.meta.Unmarshalable? then Empty else e.meta)
  }

  function EntryIn(tx: Tx): Entry { if tx.Inserted? then tx.row.entry else tx.e }

  /** Where the open transaction of a writer began: its last Begin, with no end since. */
  predicate BeganAt(evs: seq<Event>, pid: nat, i: nat) {
    && i < |evs| && evs[i].Begin? && evs[i].pid == pid
    && forall j | i < j < |evs| && evs[j].pid == pid :: !evs[j].Begin? && !evs[j].Commit? && !evs[j].Abort?
  }

  ghost predicate Holds(evs: seq<Event>, pid: nat, tx: Tx) {
    exists i: nat :: BeganAt(evs, pid, i) && StoredFrom(evs[i].e, evs[i].now, EntryIn(tx))
  }

  /** The row a commit appends stores what the transaction began with. */
  ghost predicate CommitStores(evs: seq<Event>, k: nat, row: Row)
    requires k < |evs| && evs[k].Commit?
  {
    exists i: nat :: BeganAt(evs[..k], evs[k].pid, i) && StoredFrom(evs[i].e, evs[i].now, row.entry)
  }

  ghost predicate Tracked(first: Log, evs: seq<Event>, s: Log) {
    && (forall pid | pid in s.txs :: Holds(evs, pid, s.txs[pid]))
    && |s.rows| == |first.rows| + Commits(evs) && first.rows <= s.rows
    && forall k | 0 <= k < |evs| && evs[k].Commit? :: Appended(first, evs, s.rows, k)
  }

  /** The row of the commit at k: as many places after the first ones as there were commits. */
  ghost predicate Appended(first: Log, evs: seq<Event>, rows: seq<Row>, k: nat)
    requires k < |evs| && evs[k].Commit?
  {
    var n := |first.rows| + Commits(evs[..k]);
    n < |rows| && CommitStores(evs, k, rows[n])
  }

  lemma {:induction false} CommitsSnoc(evs: seq<Event>, e: Event)
    ensures Commits(evs + [e]) == Commits(evs) + if e.Commit? then 1 else 0
    decreases |evs|
  {
    if evs == [] { assert ([] + [e])[1..] == []; }
    else {
      assert (evs + [e])[1..] == evs[1..] + [e];
      CommitsSnoc(evs[1..], e);
    }
  }

  lemma BeganEarlier(evs: seq<Event>, e: Event, pid: nat, i: nat)
    requires BeganAt(evs, pid, i) && (e.pid == pid ==> !e.Begin? && !e.Commit? && !e.Abort?)
    ensures BeganAt(evs + [e], pid, i)
  {
  }

  lemma TxsTracked(w: World, evs: seq<Event>, s: Log, e: Event)
    requires Next(w, s, e).Some? && forall pid | pid in s.txs :: Holds(evs, pid, s.txs[pid])
    ensures var s' := Next(w, s, e).value; forall pid | pid in s'.txs :: Holds(evs + [e], pid, s'.txs[pid])
  {
    var s', all := Next(w, s, e).value, evs + [e];
    forall pid | pid in s'.txs ensures Holds(all, pid, s'.txs[pid]) {
      if e.Begin? && e.pid == pid {
        assert all[|evs|] == e;
        assert BeganAt(all, pid, |evs|);
      } else {
        var i: nat :| BeganAt(evs, pid, i) && StoredFrom(evs[i].e, evs[i].now, EntryIn(s.txs[pid]));
        BeganEarlier(evs, e, pid, i);
        assert all[i] == evs[i];
      }
    }
  }

  lemma RowsTracked(w: World, first: Log, evs: seq<Event>, s: Log, e: Event)
    requires Tracked(first, evs, s) && Next(w, s, e).Some?
    ensures Tracked(first, evs + [e], Next(w, s, e).value)
  {
    var s', all := Next(w, s, e).value, evs + [e];
    TxsTracked(w, evs, s, e);
    CommitsSnoc(evs, e);
    forall k | 0 <= k < |all| && all[k].Commit? ensures Appended(first, all, s'.rows, k) {
      if k < |evs| { AppendedStill(first, evs, s.rows, s'.rows, e, k); }
      else {
        NewRowStores(w, evs, s, e);
        assert all[..k] == evs;
      }
    }
  }

  lemma AppendedStill(first: Log, evs: seq<Event>, rows: seq<Row>, more: seq<Row>, e: Event, k: nat)
    requires k < |evs| && (evs + [e])[k].Commit? && rows <= more
    requires evs[k].Commit? ==> Appended(first, evs, rows, k)
    ensures Appended(first, evs + [e], more, k)
  {
    var n := |first.rows| + Commits(evs[..k]);
    assert (evs + [e])[..k] == evs[..k];
    StoresStill(evs, e, k, rows[n]);
  }

  lemma StoresStill(evs: seq<Event>, e: Event, k: nat, row: Row)
    requires k < |evs| && evs[k].Commit? && CommitStores(evs, k, row)
    ensures (evs + [e])[k] == evs[k] && CommitStores(evs + [e], k, row)
  {
    var all := evs + [e];
    assert all[..k] == evs[..k] && all[k] == evs[k];
    var i: nat :| BeganAt(evs[..k], evs[k].pid, i) && StoredFrom(evs[i].e, evs[i].now, row.entry);
    assert all[i] == evs[i];
    assert BeganAt(all[..k], all[k].pid, i);
  }

  lemma NewRowStores(w: World, evs: seq<Event>, s: Log, e: Event)
    requires e.Commit? && Next(w, s, e).Some? && forall pid | pid in s.txs :: Holds(evs, pid, s.txs[pid])
    ensures (evs + [e])[|evs|] == e && CommitStores(evs + [e], |evs|, Next(w, s, e).value.rows[|s.rows|])
  {
    var all := evs + [e];
    assert all[..|evs|] == evs && all[|evs|] == e;
    var i: nat :| BeganAt(evs, e.pid, i) && StoredFrom(evs[i].e, evs[i].now, EntryIn(s.txs[e.pid]));
    assert all[i] == evs[i];
  }

  lemma {:induction false} RunConcat(w: World, s: Log, a: seq<Event>, b: seq<Event>)
    ensures Run(w, s, a + b) == match Run(w, s, a) case None => None case Some(s') => Run(w, s', b)
    decreases |a|
  {
    if a == [] { assert a + b == b; }
    else {
      assert (a + b)[0] == a[0] && (a + b)[1..] == a[1..] + b;
      var next := Next(w, s, a[0]);
      if next.Some? { RunConcat(w, next.value, a[1..], b); }
    }
  }

  /** However writers interleave: with every commit, in order, the log grows by one row, and
      that row stores, column by column, the entry the committing transaction began with. */
  lemma {:induction false} CommitsStoreTheirEntries(w: World, first: Log, evs: seq<Event>)
    requires first.txs == map[] && Run(w, first, evs).Some?
    ensures Tracked(first, evs, Run(w, first, evs).value)
    decreases |evs|
  {
    if |evs| > 0 {
      var most, e := evs[..|evs| - 1], evs[|evs| - 1];
      assert evs == most + [e];
      RunConcat(w, first, most, [e]);
      CommitsStoreTheirEntries(w, first, most);
      RowsTracked(w, first, most, Run(w, first, most).value, e);
      assert [e][1..] == [];
    }
  }
}
