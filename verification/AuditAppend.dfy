/** Appending to the audit log: any number of writers, transactions that abort, and one
    chain all the same. */
module AuditAppend {
  import opened Workflow
  import opened AuditBytes
  import opened AuditCanonical
  import opened AuditChain
  import AuditDetects

  const NO_TIME: Time := Time(1, 1, 1, 0, 0, 0, 0)

  /** What is stored: the time to the microsecond, a missing time filled in, metadata that
      cannot be encoded dropped. */
  function Prepared(e: Entry, now: Time): Entry {
    var at := if e.at == NO_TIME then now else e.at;
    e.(at := at.(nanos := at.nanos - at.nanos % 1000), meta := if e.meta.Unmarshalable? then Empty else e.meta)
  }

  function Tip(rows: seq<Row>): Bytes {
    if rows == [] || |rows[|rows| - 1].entryHash| != HASH_SIZE then ZERO else rows[|rows| - 1].entryHash
  }

  function NewRow(w: World, prev: Bytes, id: nat, e: Entry): Row {
    Row(id, e, prev, w.hash(Canonical(prev, e)))
  }

  // ---- Many writers ----

  /** How far a writer's transaction has come. */
  datatype Tx = Begun(e: Entry) | Locked(e: Entry) | HasTip(e: Entry, prev: Bytes) | Inserted(row: Row)

  /** The committed rows, the id sequence (which aborts do not give back), the holder of
      the advisory lock and the open transactions. */
  datatype Log = Log(rows: seq<Row>, nextId: nat, holder: Option<nat>, txs: map<nat, Tx>)

  datatype Event =
    | Begin(pid: nat, e: Entry, now: Time)
    | Lock(pid: nat)
    | ReadTip(pid: nat)
    | Insert(pid: nat)
    | Commit(pid: nat)
    | Abort(pid: nat)

  function Next(w: World, s: Log, ev: Event): Option<Log> {
    if ev.Begin? then
      if ev.pid in s.txs then None else Some(s.(txs := s.txs[ev.pid := Begun(Prepared(ev.e, ev.now))]))
    else if ev.pid !in s.txs then None
    else
      var tx := s.txs[ev.pid];
      match ev
      case Lock(pid) =>
        if !tx.Begun? || s.holder.Some? then None
        else Some(s.(holder := Some(pid), txs := s.txs[pid := Locked(tx.e)]))
      case ReadTip(pid) =>
        if !tx.Locked? then None else Some(s.(txs := s.txs[pid := HasTip(tx.e, Tip(s.rows))]))
      case Insert(pid) =>
        if !tx.HasTip? then None
        else Some(s.(nextId := s.nextId + 1, txs := s.txs[pid := Inserted(NewRow(w, tx.prev, s.nextId, tx.e))]))
      case Commit(pid) =>
        if !tx.Inserted? then None
        else Some(s.(rows := s.rows + [tx.row], holder := None, txs := s.txs - {pid}))
      case Abort(pid) =>
        Some(s.(holder := if s.holder == Some(pid) then None else s.holder, txs := s.txs - {pid}))
  }

  function Run(w: World, s: Log, evs: seq<Event>): Option<Log>
    decreases |evs|
  {
    if evs == [] then Some(s)
    else
      match Next(w, s, evs[0])
      case None => None
      case Some(s') => Run(w, s', evs[1..])
  }

  // ---- One writer, start to end ----

  /** Where a transaction fails. An insert that fails may have spent an id, and a commit
      that fails may have been applied. */
  datatype Fault = NoFault | AtBegin | AtLock | AtRead | AtInsert(spent: bool) | AtCommit(applied: bool)

  predicate Lands(fault: Fault) { fault.NoFault? || (fault.AtCommit? && fault.applied) }

  predicate SpendsId(fault: Fault) { fault.NoFault? || fault.AtCommit? || (fault.AtInsert? && fault.spent) }

  function Script(pid: nat, e: Entry, now: Time, fault: Fault): seq<Event> {
    match fault
    case NoFault => [Begin(pid, e, now), Lock(pid), ReadTip(pid), Insert(pid), Commit(pid)]
    case AtBegin => []
    case AtLock => [Begin(pid, e, now), Abort(pid)]
    case AtRead => [Begin(pid, e, now), Lock(pid), Abort(pid)]
    case AtInsert(spent) =>
      if spent then [Begin(pid, e, now), Lock(pid), ReadTip(pid), Insert(pid), Abort(pid)]
      else [Begin(pid, e, now), Lock(pid), ReadTip(pid), Abort(pid)]
    case AtCommit(applied) =>
      [Begin(pid, e, now), Lock(pid), ReadTip(pid), Insert(pid), if applied then Commit(pid) else Abort(pid)]
  }

  function Resting(rows: seq<Row>, nextId: nat): Log { Log(rows, nextId, None, map[]) }

  /** A writer on its own: what its transaction leaves, wherever it fails. */
  lemma ScriptRuns(w: World, rows: seq<Row>, nextId: nat, pid: nat, e: Entry, now: Time, fault: Fault)
    ensures Run(w, Resting(rows, nextId), Script(pid, e, now, fault)) == Some(Resting(
      if Lands(fault) then rows + [NewRow(w, Tip(rows), nextId, Prepared(e, now))] else rows,
      if SpendsId(fault) then nextId + 1 else nextId))
  {
    var e', row := Prepared(e, now), NewRow(w, Tip(rows), nextId, Prepared(e, now));
    var s0 := Resting(rows, nextId);
    var s1 := s0.(txs := map[pid := Begun(e')]);
    var s2 := s1.(holder := Some(pid), txs := map[pid := Locked(e')]);
    var s3 := s2.(txs := map[pid := HasTip(e', Tip(rows))]);
    var s4 := s3.(nextId := nextId + 1, txs := map[pid := Inserted(row)]);
    assert Next(w, s0, Begin(pid, e, now)) == Some(s1) by { assert s0.txs[pid := Begun(e')] == s1.txs; }
    assert Next(w, s1, Lock(pid)) == Some(s2) by { assert s1.txs[pid := Locked(e')] == s2.txs; }
    assert Next(w, s2, ReadTip(pid)) == Some(s3) by { assert s2.txs[pid := HasTip(e', Tip(rows))] == s3.txs; }
    assert Next(w, s3, Insert(pid)) == Some(s4) by { assert s3.txs[pid := Inserted(row)] == s4.txs; }
    Gone(pid);
    match fault
    case NoFault =>
      FiveSteps(w, s0, s1, s2, s3, s4, Begin(pid, e, now), Lock(pid), ReadTip(pid), Insert(pid), Commit(pid));
    case AtBegin =>
    case AtLock => TwoSteps(w, s0, s1, Begin(pid, e, now), Abort(pid));
    case AtRead => ThreeSteps(w, s0, s1, s2, Begin(pid, e, now), Lock(pid), Abort(pid));
    case AtInsert(spent) =>
      if spent {
        FiveSteps(w, s0, s1, s2, s3, s4, Begin(pid, e, now), Lock(pid), ReadTip(pid), Insert(pid), Abort(pid));
      }
      else { FourSteps(w, s0, s1, s2, s3, Begin(pid, e, now), Lock(pid), ReadTip(pid), Abort(pid)); }
    case AtCommit(applied) =>
      FiveSteps(w, s0, s1, s2, s3, s4, Begin(pid, e, now), Lock(pid), ReadTip(pid), Insert(pid),
                if applied then Commit(pid) else Abort(pid));
  }

  lemma Gone(pid: nat)
    ensures forall tx: Tx :: map[pid := tx] - {pid} == map[]
  {
  }

  lemma Step(w: World, s: Log, ev: Event, evs: seq<Event>)
    requires Next(w, s, ev).Some?
    ensures Run(w, s, [ev] + evs) == Run(w, Next(w, s, ev).value, evs)
  {
    assert ([ev] + evs)[1..] == evs;
  }

  lemma TwoSteps(w: World, s0: Log, s1: Log, e0: Event, e1: Event)
    requires Next(w, s0, e0) == Some(s1) && Next(w, s1, e1).Some?
    ensures Run(w, s0, [e0, e1]) == Next(w, s1, e1)
  {
    Step(w, s0, e0, [e1]);
    Step(w, s1, e1, []);
    assert [e0] + [e1] == [e0, e1] && [e1] + [] == [e1];
  }

  lemma ThreeSteps(w: World, s0: Log, s1: Log, s2: Log, e0: Event, e1: Event, e2: Event)
    requires Next(w, s0, e0) == Some(s1) && Next(w, s1, e1) == Some(s2) && Next(w, s2, e2).Some?
    ensures Run(w, s0, [e0, e1, e2]) == Next(w, s2, e2)
  {
    Step(w, s0, e0, [e1, e2]);
    TwoSteps(w, s1, s2, e1, e2);
    assert [e0] + [e1, e2] == [e0, e1, e2];
  }

  lemma FourSteps(w: World, s0: Log, s1: Log, s2: Log, s3: Log, e0: Event, e1: Event, e2: Event, e3: Event)
    requires Next(w, s0, e0) == Some(s1) && Next(w, s1, e1) == Some(s2) && Next(w, s2, e2) == Some(s3)
      && Next(w, s3, e3).Some?
    ensures Run(w, s0, [e0, e1, e2, e3]) == Next(w, s3, e3)
  {
    Step(w, s0, e0, [e1, e2, e3]);
    ThreeSteps(w, s1, s2, s3, e1, e2, e3);
    assert [e0] + [e1, e2, e3] == [e0, e1, e2, e3];
  }

  lemma FiveSteps(w: World, s0: Log, s1: Log, s2: Log, s3: Log, s4: Log, e0: Event, e1: Event, e2: Event, e3: Event,
                  e4: Event)
    requires Next(w, s0, e0) == Some(s1) && Next(w, s1, e1) == Some(s2) && Next(w, s2, e2) == Some(s3)
    requires Next(w, s3, e3) == Some(s4) && Next(w, s4, e4).Some?
    ensures Run(w, s0, [e0, e1, e2, e3, e4]) == Next(w, s4, e4)
  {
    Step(w, s0, e0, [e1, e2, e3, e4]);
    FourSteps(w, s1, s2, s3, s4, e1, e2, e3, e4);
    assert [e0] + [e1, e2, e3, e4] == [e0, e1, e2, e3, e4];
  }

  class AuditRepo {
    const world: World
    var rows: seq<Row>
    var nextId: nat

    constructor (world: World)
      ensures this.world == world && rows == [] && nextId == 1
    {
      this.world, rows, nextId := world, [], 1;
    }

    /** One transaction, run as the many writers' are. */
    method Append(e: Entry, now: Time, fault: Fault, ghost pid: nat) returns (ok: bool)
      modifies this
      ensures Run(world, Resting(old(rows), old(nextId)), Script(pid, e, now, fault)) == Some(Resting(rows, nextId))
      ensures rows == if Lands(fault) then old(rows) + [NewRow(world, Tip(old(rows)), old(nextId), Prepared(e, now))]
        else old(rows)
      ensures ok <==> fault.NoFault?
    {
      var entry := Prepare(e, now);
      ok := Transact(entry, fault);
      ScriptRuns(world, old(rows), old(nextId), pid, e, now, fault);
    }

    /** Lock, tip, insert, commit. */
    method Transact(entry: Entry, fault: Fault) returns (ok: bool)
      modifies this
      ensures rows == if Lands(fault) then old(rows) + [NewRow(world, Tip(old(rows)), old(nextId), entry)]
        else old(rows)
      ensures nextId == if SpendsId(fault) then old(nextId) + 1 else old(nextId)
      ensures ok <==> fault.NoFault?
    {
      if fault.AtBegin? || fault.AtLock? || fault.AtRead? { return false; }
      var prev: Bytes := [];
      if rows != [] { prev := rows[|rows| - 1].entryHash; }
      if |prev| != HASH_SIZE { prev := ZERO; }
      var msg := WriteCanonical(prev, entry);
      var row := Row(nextId, entry, prev, world.hash(msg));
      if fault.AtInsert? {
        if fault.spent { nextId := nextId + 1; }
        return false;
      }
      nextId := nextId + 1;
      if fault.NoFault? || fault.applied { rows := rows + [row]; }
      ok := fault.NoFault?;
    }

    method Prepare(e: Entry, now: Time) returns (entry: Entry)
      ensures entry == Prepared(e, now)
    {
      entry := e;
      if entry.at == NO_TIME { entry := entry.(at := now); }
      entry := entry.(at := entry.at.(nanos := entry.at.nanos - entry.at.nanos % 1000));
      if entry.meta.Unmarshalable? { entry := entry.(meta := Empty); }
    }
  }

  // ---- One chain ----

  function Commits(evs: seq<Event>): nat {
    if evs == [] then 0 else (if evs[0].Commit? then 1 else 0) + Commits(evs[1..])
  }

  /** The link between rows at the time they are written. */
  function WriteLink(w: World): Link { (prev, e) => w.hash(Canonical(prev, e)) }

  /** A log of pre-chain rows only, with nobody writing. */
  predicate Initial(s: Log) {
    && s.holder == None && s.txs == map[] && Sorted(s.rows)
    && (forall r | r in s.rows :: Unchained(r) && r.id < s.nextId)
  }

  predicate HoldsLock(tx: Tx) { !tx.Begun? }

  /** An open transaction holding the lock works on the current tip. */
  predicate TxOk(w: World, s: Log, pid: nat)
    requires pid in s.txs
  {
    var tx := s.txs[pid];
    && (HoldsLock(tx) <==> s.holder == Some(pid))
    && (tx.HasTip? ==> tx.prev == Tip(s.rows))
    && (tx.Inserted? ==>
        && tx.row == NewRow(w, Tip(s.rows), tx.row.id, tx.row.entry) && tx.row.id < s.nextId
        && forall r | r in s.rows :: r.id < tx.row.id)
  }

  /** Below `pre` the rows the log started with, above it the chain. */
  predicate Inv(w: World, s: Log, pre: seq<Row>) {
    && |pre| <= |s.rows| && s.rows[..|pre|] == pre
    && (forall r | r in pre :: Unchained(r))
    && Linked(WriteLink(w), ZERO, s.rows, |pre|)
    && Sorted(s.rows) && (forall r | r in s.rows :: r.id < s.nextId)
    && (s.holder.Some? ==> s.holder.value in s.txs)
    && forall pid | pid in s.txs :: TxOk(w, s, pid)
  }

  lemma NextKeeps(w: World, s: Log, ev: Event, pre: seq<Row>)
    requires Inv(w, s, pre) && Next(w, s, ev).Some?
    ensures Inv(w, Next(w, s, ev).value, pre)
  {
    var s' := Next(w, s, ev).value;
    if ev.Commit? { CommitKeeps(w, s, ev.pid, pre); }
    else {
      assert s'.rows == s.rows;
      forall pid | pid in s'.txs ensures TxOk(w, s', pid) {
        if pid in s.txs { assert TxOk(w, s, pid); }
        if ev.pid in s.txs { assert TxOk(w, s, ev.pid); }
      }
    }
  }

  lemma CommitKeeps(w: World, s: Log, pid: nat, pre: seq<Row>)
    requires Inv(w, s, pre) && Next(w, s, Commit(pid)).Some?
    ensures Inv(w, Next(w, s, Commit(pid)).value, pre)
  {
    var s', row := Next(w, s, Commit(pid)).value, s.txs[pid].row;
    assert TxOk(w, s, pid);
    LinkedOneMore(w, s.rows, row, pre);
    assert s'.rows[..|pre|] == s.rows[..|pre|];
    forall i, j | 0 <= i < j < |s'.rows| ensures s'.rows[i].id < s'.rows[j].id {
      if j == |s.rows| { assert s.rows[i] in s.rows; }
    }
    forall q | q in s'.txs ensures TxOk(w, s', q) { assert TxOk(w, s, q); }
  }

  lemma LinkedOneMore(w: World, rows: seq<Row>, row: Row, pre: seq<Row>)
    requires |pre| <= |rows| && rows[..|pre|] == pre && (forall r | r in pre :: Unchained(r))
    requires Linked(WriteLink(w), ZERO, rows, |pre|) && row == NewRow(w, Tip(rows), row.id, row.entry)
    ensures Linked(WriteLink(w), ZERO, rows + [row], |pre|)
  {
    var h, all := WriteLink(w), rows + [row];
    forall i | |pre| <= i < |all| ensures SoundAt(h, ZERO, all, |pre|, i) {
      if i < |rows| { assert SoundAt(h, ZERO, rows, |pre|, i); }
      else if i > |pre| { assert SoundAt(h, ZERO, rows, |pre|, i - 1); }
      else if i > 0 { assert rows[i - 1] == pre[i - 1] && pre[i - 1] in pre; }
    }
  }

  lemma {:induction false} RunKeeps(w: World, s: Log, evs: seq<Event>, pre: seq<Row>)
    requires Inv(w, s, pre) && Run(w, s, evs).Some?
    ensures var s' := Run(w, s, evs).value;
      Inv(w, s', pre) && s.rows <= s'.rows && |s'.rows| == |s.rows| + Commits(evs)
    decreases |evs|
  {
    if evs != [] {
      NextKeeps(w, s, evs[0], pre);
      RunKeeps(w, Next(w, s, evs[0]).value, evs[1..], pre);
    }
  }

  lemma InitialInv(w: World, s: Log)
    requires Initial(s)
    ensures Inv(w, s, s.rows)
  {
    assert s.rows[..|s.rows|] == s.rows;
  }

  /** Whether an entry encodes the same once the database has stored its metadata. */
  predicate Survives(w: World, e: Entry) { MetaText(Reread(w, e).meta) == MetaText(e.meta) }

  lemma SurvivesMeans(w: World, prev: Bytes, e: Entry)
    ensures Survives(w, e) <==> Canonical(prev, Reread(w, e)) == Canonical(prev, e)
  {
    var e' := Reread(w, e);
    var front := Head(e) + Texts(e) + [Itoa(e.status), Itoa(e.durationMS)];
    assert Fields(e) == front + [MetaText(e.meta)] && Fields(e') == front + [MetaText(e'.meta)];
    JoinedConcat(front, [MetaText(e.meta)]);
    JoinedConcat(front, [MetaText(e'.meta)]);
    SameCanonical(prev, e, prev, e');
    if Canonical(prev, e') == Canonical(prev, e) {
      var f := Joined(front) + [RS];
      SameFirst(f, MetaText(e.meta), f, MetaText(e'.meta));
    }
  }

  ghost function WrittenAndRead(w: World, rows: seq<Row>): set<Bytes> {
    (set r | r in rows :: Canonical(r.prevHash, r.entry))
      + (set r | r in rows :: Canonical(r.prevHash, Reread(w, r.entry)))
  }

  lemma RowVerifies(w: World, rows: seq<Row>, pre: nat, i: nat)
    requires pre <= i < |rows| && Linked(WriteLink(w), ZERO, rows, pre)
    requires AuditDetects.NoBreak(w, WrittenAndRead(w, rows[pre..]))
    ensures SoundAt(HashLink(w), ZERO, rows, pre, i) <==> Survives(w, rows[i].entry)
    ensures rows[i].entryHash != ZERO
  {
    var r := rows[i];
    assert SoundAt(WriteLink(w), ZERO, rows, pre, i);
    SurvivesMeans(w, r.prevHash, r.entry);
    assert r == rows[pre..][i - pre] && r in rows[pre..];
    assert Canonical(r.prevHash, r.entry) in WrittenAndRead(w, rows[pre..]);
    assert Canonical(r.prevHash, Reread(w, r.entry)) in WrittenAndRead(w, rows[pre..]);
  }

  /** The rows after the first ones. */
  function Added(first: seq<Row>, rows: seq<Row>): seq<Row> {
    if |first| <= |rows| then rows[|first|..] else []
  }

  /** Whatever the writers do, the log is the rows it began with and one row for each
      commit, in id order; and as long as the hash is not broken full verification skips
      exactly the former and is OK exactly when every appended entry's metadata survives
      being stored, and else names the first that does not. */
  lemma AppendKeepsOneChain(w: World, s: Log, evs: seq<Event>)
    requires Initial(s) && Run(w, s, evs).Some?
    requires AuditDetects.NoBreak(w, WrittenAndRead(w, Added(s.rows, Run(w, s, evs).value.rows)))
    ensures var rows := Run(w, s, evs).value.rows; var v := VerdictOf(HashLink(w), rows, false);
      && s.rows <= rows && |rows| == |s.rows| + Commits(evs) && Sorted(rows)
      && v.preChainRows == |s.rows|
      && (v.ok <==> forall i | |s.rows| <= i < |rows| :: Survives(w, rows[i].entry))
      && (v.ok ==> v.rowsChecked == Commits(evs))
      && (!v.ok ==> exists k :: BrokenAt(w, rows, |s.rows|, k, v))
  {
    InitialInv(w, s);
    RunKeeps(w, s, evs, s.rows);
    var rows, pre := Run(w, s, evs).value.rows, |s.rows|;
    AppendedVerdict(w, rows, pre);
  }

  predicate BrokenAt(w: World, rows: seq<Row>, pre: nat, k: nat, v: Verdict) {
    && pre <= k < |rows| && !Survives(w, rows[k].entry)
    && (forall i | pre <= i < k :: Survives(w, rows[i].entry))
    && v.rowsChecked == k - pre && v.broken.Some? && v.broken.value.id == rows[k].id
    && v.broken.value.reason == EntryMismatch
  }

  lemma AppendedVerdict(w: World, rows: seq<Row>, pre: nat)
    requires pre <= |rows| && Linked(WriteLink(w), ZERO, rows, pre) && forall i | 0 <= i < pre :: Unchained(rows[i])
    requires AuditDetects.NoBreak(w, WrittenAndRead(w, rows[pre..]))
    ensures var v := VerdictOf(HashLink(w), rows, false);
      && v.preChainRows == pre
      && (v.ok <==> forall i | pre <= i < |rows| :: Survives(w, rows[i].entry))
      && (v.ok ==> v.rowsChecked == |rows| - pre)
      && (!v.ok ==> exists k :: BrokenAt(w, rows, pre, k, v))
  {
    var h := HashLink(w);
    forall i | pre <= i < |rows|
      ensures SoundAt(h, ZERO, rows, pre, i) <==> Survives(w, rows[i].entry)
      ensures rows[i].entryHash != ZERO
    {
      RowVerifies(w, rows, pre, i);
    }
    AuditDetects.PreLenIs(rows, pre);
    OkMeans(h, rows, false);
    var v, k := VerdictOf(h, rows, false), FirstBad(h, ZERO, rows, pre);
    FirstBadIs(h, ZERO, rows, pre);
    if !v.ok {
      assert SoundAt(WriteLink(w), ZERO, rows, pre, k);
      forall i | pre <= i < k ensures Survives(w, rows[i].entry) { assert SoundAt(h, ZERO, rows, pre, i); }
      assert BrokenAt(w, rows, pre, k, v);
    }
  }

  // ---- Where verification fails, and where it cannot see ----

  /** The JSON texts {"n":9007199254740993} and {"n":9007199254740992}: an integer that no
      double holds, and the double it is read back as. */
  const EXACT: Bytes := [123, 34, 110, 34, 58, 57, 48, 48, 55, 49, 57, 57, 50, 53, 52, 55, 52, 48, 57, 57, 51, 125]
  const ROUNDED: Bytes := [123, 34, 110, 34, 58, 57, 48, 48, 55, 49, 57, 57, 50, 53, 52, 55, 52, 48, 57, 57, 50, 125]

  /** One committed entry whose metadata is read back as another text: nobody tampered,
      and verification reports its row. */
  lemma LossyMetadataBreaks(w: World, e: Entry, now: Time, id: nat)
    requires e.meta.Json? && w.reread(e.meta.text) != e.meta.text
    requires AuditDetects.NoBreak(w, WrittenAndRead(w, [NewRow(w, ZERO, id, Prepared(e, now))]))
    ensures var row := NewRow(w, ZERO, id, Prepared(e, now)); var v := VerdictOf(HashLink(w), [row], false);
      && Run(w, Resting([], id), Script(0, e, now, NoFault)) == Some(Resting([row], id + 1))
      && !v.ok && v.preChainRows == 0 && v.broken.Some? && v.broken.value.id == id
        && v.broken.value.reason == EntryMismatch
  {
    OneRowVerdict(w, e, now, id);
    assert !Survives(w, Prepared(e, now));
  }

  /** Such a text: an integer beyond the doubles. */
  lemma RoundedMetadataBreaks(w: World, e: Entry, now: Time, id: nat)
    requires w.reread(EXACT) == ROUNDED && e.meta == Json(EXACT)
    requires AuditDetects.NoBreak(w, WrittenAndRead(w, [NewRow(w, ZERO, id, Prepared(e, now))]))
    ensures !VerdictOf(HashLink(w), [NewRow(w, ZERO, id, Prepared(e, now))], false).ok
  {
    assert EXACT[20] != ROUNDED[20];
    LossyMetadataBreaks(w, e, now, id);
  }

  /** An aborted insert spends an id: two logs of the same entry, both verified, with equal
      last hashes, differ in the row's id. */
  lemma IdsAreNotChained(w: World, e: Entry, now: Time, id: nat)
    requires Survives(w, Prepared(e, now))
    requires AuditDetects.NoBreak(w, WrittenAndRead(w, [NewRow(w, ZERO, id, Prepared(e, now))]))
    requires AuditDetects.NoBreak(w, WrittenAndRead(w, [NewRow(w, ZERO, id + 1, Prepared(e, now))]))
    ensures var a, b := NewRow(w, ZERO, id, Prepared(e, now)), NewRow(w, ZERO, id + 1, Prepared(e, now));
      && Run(w, Resting([], id), Script(0, e, now, NoFault)) == Some(Resting([a], id + 1))
      && Run(w, Resting([], id), Script(0, e, now, AtInsert(true))) == Some(Resting([], id + 1))
      && Run(w, Resting([], id + 1), Script(0, e, now, NoFault)) == Some(Resting([b], id + 2))
      && VerdictOf(HashLink(w), [a], false).ok && VerdictOf(HashLink(w), [b], false).ok
      && a.entryHash == b.entryHash && a != b
  {
    OneRowVerdict(w, e, now, id);
    OneRowVerdict(w, e, now, id + 1);
    ScriptRuns(w, [], id, 0, e, now, AtInsert(true));
  }

  /** A log of one committed entry. */
  lemma OneRowVerdict(w: World, e: Entry, now: Time, id: nat)
    requires AuditDetects.NoBreak(w, WrittenAndRead(w, [NewRow(w, ZERO, id, Prepared(e, now))]))
    ensures var row := NewRow(w, ZERO, id, Prepared(e, now)); var v := VerdictOf(HashLink(w), [row], false);
      && Run(w, Resting([], id), Script(0, e, now, NoFault)) == Some(Resting([row], id + 1))
      && v.preChainRows == 0 && (v.ok <==> Survives(w, row.entry))
      && (!v.ok ==> v.broken.Some? && v.broken.value.id == id && v.broken.value.reason == EntryMismatch)
  {
    var row := NewRow(w, ZERO, id, Prepared(e, now));
    ScriptRuns(w, [], id, 0, e, now, NoFault);
    OneRowLinked(w, row);
    AppendedVerdict(w, [row], 0);
  }

  lemma OneRowLinked(w: World, row: Row)
    requires row == NewRow(w, ZERO, row.id, row.entry)
    ensures Linked(WriteLink(w), ZERO, [row], 0) && [row][0..] == [row] && [] + [row] == [row]
  {
    assert SoundAt(WriteLink(w), ZERO, [row], 0, 0);
  }
}
