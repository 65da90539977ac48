/** Walking the hash chain of the audit log, and what a walk detects. */
module AuditChain {
  import opened Workflow
  import opened AuditBytes

  /** A stored row. The hash columns are byte strings of any length. */
  datatype Row = Row(id: nat, entry: Entry, prevHash: Bytes, entryHash: Bytes)

  /** How a row's hash is recomputed from its predecessor's hash and its columns. */
  type Link = (Bytes, Entry) -> Digest

  /** The hash function, and what metadata text becomes when the database has stored it
      as JSONB and it is read and encoded again. */
  datatype World = World(hash: Bytes -> Digest, reread: Bytes -> Bytes)

  function Reread(w: World, e: Entry): Entry {
    if e.meta.Json? then e.(meta := Json(w.reread(e.meta.text))) else e
  }

  /** The hash of the canonical bytes of the row as it is read back. */
  function HashLink(w: World): Link {
    (prev, e) => w.hash(Canonical(prev, Reread(w, e)))
  }

  datatype Reason = PrevMismatch | EntryMismatch

  datatype Break = Break(id: nat, reason: Reason, expected: Bytes, actual: Bytes)

  datatype Verdict = Verdict(ok: bool, rowsChecked: nat, preChainRows: nat, chainStart: Option<nat>,
                             chainEnd: Option<nat>, broken: Option<Break>)

  // ---- What a verdict says ----

  /** A row written before the chain was introduced. */
  predicate Unchained(r: Row) { r.prevHash == ZERO && r.entryHash == ZERO }

  /** The number of pre-chain rows before the chain. */
  function PreLen(rows: seq<Row>): (n: nat)
    ensures n <= |rows| && (forall i | 0 <= i < n :: Unchained(rows[i])) && (n < |rows| ==> !Unchained(rows[n]))
  {
    FirstChained(rows, 0)
  }

  function FirstChained(rows: seq<Row>, i: nat): (n: nat)
    requires i <= |rows|
    ensures i <= n <= |rows| && (forall k | i <= k < n :: Unchained(rows[k])) && (n < |rows| ==> !Unchained(rows[n]))
    decreases |rows| - i
  {
    if i == |rows| || !Unchained(rows[i]) then i else FirstChained(rows, i + 1)
  }

  predicate Sound(h: Link, running: Bytes, r: Row) {
    r.prevHash == running && h(running, r.entry) == r.entryHash
  }

  /** The hash expected as predecessor of row i, in a chain starting at row pre. */
  function RunningAt(seed: Bytes, rows: seq<Row>, pre: nat, i: nat): Bytes
    requires pre <= i <= |rows|
  {
    if i == pre then seed else rows[i - 1].entryHash
  }

  predicate SoundAt(h: Link, seed: Bytes, rows: seq<Row>, pre: nat, i: nat)
    requires pre <= i < |rows|
  {
    Sound(h, RunningAt(seed, rows, pre, i), rows[i])
  }

  predicate Linked(h: Link, seed: Bytes, rows: seq<Row>, pre: nat) {
    forall i | pre <= i < |rows| :: SoundAt(h, seed, rows, pre, i)
  }

  /** The first row from i on that does not fit, or the end. */
  function FirstBad(h: Link, running: Bytes, rows: seq<Row>, i: nat): (k: nat)
    requires i <= |rows|
    ensures i <= k <= |rows|
    decreases |rows| - i
  {
    if i == |rows| || !Sound(h, running, rows[i]) then i
    else FirstBad(h, rows[i].entryHash, rows, i + 1)
  }

  lemma {:induction false} FirstBadIs(h: Link, seed: Bytes, rows: seq<Row>, pre: nat)
    requires pre <= |rows|
    ensures var k := FirstBad(h, seed, rows, pre);
      && (forall i | pre <= i < k :: SoundAt(h, seed, rows, pre, i))
      && (k < |rows| ==> !SoundAt(h, seed, rows, pre, k))
    decreases |rows| - pre
  {
    if pre < |rows| && Sound(h, seed, rows[pre]) {
      var next := rows[pre].entryHash;
      FirstBadIs(h, next, rows, pre + 1);
      var k := FirstBad(h, seed, rows, pre);
      forall i | pre <= i < k ensures SoundAt(h, seed, rows, pre, i) {
        if i > pre { assert SoundAt(h, next, rows, pre + 1, i); }
      }
      if k < |rows| { assert !SoundAt(h, next, rows, pre + 1, k); }
    }
  }

  lemma FirstBadAt(h: Link, seed: Bytes, rows: seq<Row>, pre: nat, k: nat)
    requires pre <= k <= |rows| && forall i | pre <= i < k :: SoundAt(h, seed, rows, pre, i)
    requires k < |rows| ==> !SoundAt(h, seed, rows, pre, k)
    ensures FirstBad(h, seed, rows, pre) == k
  {
    FirstBadIs(h, seed, rows, pre);
  }

  function BreakOf(h: Link, running: Bytes, r: Row): Break {
    if r.prevHash != running then Break(r.id, PrevMismatch, running, r.prevHash)
    else Break(r.id, EntryMismatch, h(running, r.entry), r.entryHash)
  }

  function SeedOf(rows: seq<Row>, suffix: bool): Bytes {
    var pre := PreLen(rows);
    if suffix && pre < |rows| then rows[pre].prevHash else ZERO
  }

  function VerdictOf(h: Link, rows: seq<Row>, suffix: bool): Verdict {
    var pre, seed := PreLen(rows), SeedOf(rows, suffix);
    var k := FirstBad(h, seed, rows, pre);
    Verdict(k == |rows|, k - pre, pre,
            if pre == |rows| then None else Some(rows[pre].id),
            if k == pre then None else Some(rows[k - 1].id),
            if k == |rows| then None else Some(BreakOf(h, RunningAt(seed, rows, pre, k), rows[k])))
  }

  predicate Sorted(table: seq<Row>) { forall i, j | 0 <= i < j < |table| :: table[i].id < table[j].id }

  /** The rows from an id on. */
  function From(table: seq<Row>, fromID: nat): (rows: seq<Row>)
    ensures |rows| <= |table| && rows == table[|table| - |rows|..]
  {
    if table == [] || table[0].id >= fromID then table else From(table[1..], fromID)
  }

  method Verify(h: Link, table: seq<Row>, fromID: nat) returns (v: Verdict)
    ensures v == VerdictOf(h, From(table, fromID), fromID > 0)
  {
    v := Walk(h, From(table, fromID), fromID > 0);
  }

  /** The verifier's loop over the rows the query returns. */
  method Walk(h: Link, rows: seq<Row>, suffix: bool) returns (v: Verdict)
    ensures v == VerdictOf(h, rows, suffix)
  {
    var running: Bytes := ZERO;
    var inChain := false;
    var checked, preChain := 0, 0;
    var start, end: Option<nat> := None, None;
    ghost var pre, seed := PreLen(rows), SeedOf(rows, suffix);
    ghost var bad := FirstBad(h, seed, rows, pre);
    var i := 0;
    while i < |rows|
      invariant i <= |rows| && preChain == if inChain then pre else i
      invariant !inChain ==> i <= pre && checked == 0 && start == None && end == None && running == ZERO
      invariant inChain ==> pre < i && checked == i - pre
      invariant inChain ==> start == Some(rows[pre].id) && end == Some(rows[i - 1].id)
      invariant inChain ==> running == rows[i - 1].entryHash && bad == FirstBad(h, running, rows, i)
    {
      var r := rows[i];
      if !inChain {
        var zeroPrev := IsZeroHash(r.prevHash);
        var zeroEntry := IsZeroHash(r.entryHash);
        if zeroPrev && zeroEntry {
          preChain := preChain + 1;
          i := i + 1;
          continue;
        }
        inChain := true;
        start := Some(r.id);
        if suffix { running := r.prevHash; }
      }
      var expected := h(running, r.entry);
      if r.prevHash != running {
        v := Verdict(false, checked, preChain, start, end, Some(Break(r.id, PrevMismatch, running, r.prevHash)));
        Stopped(h, rows, suffix, i, running, v);
        return;
      }
      if expected != r.entryHash {
        v := Verdict(false, checked, preChain, start, end, Some(Break(r.id, EntryMismatch, expected, r.entryHash)));
        Stopped(h, rows, suffix, i, running, v);
        return;
      }
      assert Sound(h, running, r);
      running := r.entryHash;
      checked, end := checked + 1, Some(r.id);
      i := i + 1;
    }
    v := Verdict(true, checked, preChain, start, end, None);
    Completed(h, rows, suffix, v);
  }

  lemma Stopped(h: Link, rows: seq<Row>, suffix: bool, i: nat, running: Bytes, v: Verdict)
    requires PreLen(rows) <= i < |rows| && FirstBad(h, SeedOf(rows, suffix), rows, PreLen(rows)) == i
    requires running == RunningAt(SeedOf(rows, suffix), rows, PreLen(rows), i)
    requires v == Verdict(false, i - PreLen(rows), PreLen(rows), Some(rows[PreLen(rows)].id),
                          if i == PreLen(rows) then None else Some(rows[i - 1].id), Some(BreakOf(h, running, rows[i])))
    ensures v == VerdictOf(h, rows, suffix)
  {
  }

  lemma Completed(h: Link, rows: seq<Row>, suffix: bool, v: Verdict)
    requires FirstBad(h, SeedOf(rows, suffix), rows, PreLen(rows)) == |rows|
    requires var pre := PreLen(rows);
      v == Verdict(true, |rows| - pre, pre, if pre == |rows| then None else Some(rows[pre].id),
                   if pre == |rows| then None else Some(rows[|rows| - 1].id), None)
    ensures v == VerdictOf(h, rows, suffix)
  {
  }

  /** OK means: past the pre-chain rows every row links to its predecessor and carries the
      hash of its content. */
  lemma OkMeans(h: Link, rows: seq<Row>, suffix: bool)
    ensures VerdictOf(h, rows, suffix).ok <==> Linked(h, SeedOf(rows, suffix), rows, PreLen(rows))
    ensures VerdictOf(h, rows, suffix).ok ==> VerdictOf(h, rows, suffix).rowsChecked == |rows| - PreLen(rows)
  {
    FirstBadIs(h, SeedOf(rows, suffix), rows, PreLen(rows));
  }

  /** Row i carries the hash expected of it: the last row's as its predecessor's, the seed's
      at the start of the chain, and the hash of both and its columns as its own. */
  predicate Carries(h: Link, rows: seq<Row>, suffix: bool, pre: nat, i: nat)
    requires pre <= i < |rows|
  {
    && rows[i].prevHash == Expected(rows, suffix, pre, i)
    && rows[i].entryHash == h(Expected(rows, suffix, pre, i), rows[i].entry)
  }

  function Expected(rows: seq<Row>, suffix: bool, pre: nat, i: nat): Bytes
    requires pre <= i < |rows|
  {
    if i > pre then rows[i - 1].entryHash else if suffix then rows[i].prevHash else ZERO
  }

  /** Everything a verdict reports: the rows before the chain, which carry two zero hashes,
      and the first row that does not; the rows of the chain that carry their hashes, all of
      them when it is OK; and the first that does not, with the column that differs, what
      was expected there and what was found. */
  lemma VerdictSays(h: Link, rows: seq<Row>, suffix: bool)
    ensures var v := VerdictOf(h, rows, suffix);
      var pre, k := v.preChainRows, v.preChainRows + v.rowsChecked;
      && k <= |rows| && (forall i | 0 <= i < pre :: rows[i].prevHash == rows[i].entryHash == ZeroBytes(32))
      && (if pre == |rows| then v.chainStart == None
          else v.chainStart == Some(rows[pre].id) && !(rows[pre].prevHash == rows[pre].entryHash == ZeroBytes(32)))
      && v.chainEnd == (if k == pre then None else Some(rows[k - 1].id))
      && (forall i | pre <= i < k :: Carries(h, rows, suffix, pre, i))
      && (v.ok <==> k == |rows|) && (v.ok <==> v.broken == None)
      && (!v.ok ==>
            && !Carries(h, rows, suffix, pre, k)
            && Breaks(h, rows[k], Expected(rows, suffix, pre, k), v.broken.value))
  {
    var pre, seed := PreLen(rows), SeedOf(rows, suffix);
    FirstBadIs(h, seed, rows, pre);
    forall i | pre <= i < |rows|
      ensures RunningAt(seed, rows, pre, i) == Expected(rows, suffix, pre, i)
      ensures SoundAt(h, seed, rows, pre, i) <==> Carries(h, rows, suffix, pre, i)
    {
    }
  }

  predicate Breaks(h: Link, r: Row, expected: Bytes, b: Break) {
    && b.id == r.id
    && if r.prevHash != expected then b.reason == PrevMismatch && b.expected == expected && b.actual == r.prevHash
       else b.reason == EntryMismatch && b.expected == h(expected, r.entry) && b.actual == r.entryHash
  }

  /** The rows from an id on are those with that id or a greater one. */
  lemma {:induction false} FromIs(table: seq<Row>, fromID: nat)
    requires Sorted(table)
    ensures forall r :: r in From(table, fromID) <==> r in table && r.id >= fromID
    decreases |table|
  {
    if table != [] {
      assert table == [table[0]] + table[1..];
      if table[0].id < fromID { FromIs(table[1..], fromID); }
      else { forall r | r in table ensures r.id >= fromID { var i :| 0 <= i < |table| && table[i] == r; } }
    }
  }

  // ---- What a walk detects ----

  type Contents = (Bytes, Entry)

  ghost function ContentsOf(rows: seq<Row>): set<Contents> { set r | r in rows :: (r.prevHash, r.entry) }

  /** Nothing has been found among these contents that breaks the hash: equal hashes mean
      equal predecessors, and none is zero. */
  ghost predicate Trusted(h: Link, cs: set<Contents>) {
    && (forall a, b | a in cs && b in cs && h(a.0, a.1) == h(b.0, b.1) :: Seed(a.0) == Seed(b.0))
    && (forall a | a in cs :: h(a.0, a.1) != ZERO)
  }

  /** A fully verified log without pre-chain rows. */
  predicate Verified(h: Link, rows: seq<Row>) {
    PreLen(rows) == 0 && VerdictOf(h, rows, false).ok
  }

  lemma VerifiedRow(h: Link, rows: seq<Row>, i: nat)
    requires Verified(h, rows) && i < |rows|
    ensures rows[i].prevHash == RunningAt(ZERO, rows, 0, i) && |rows[i].prevHash| == HASH_SIZE
    ensures h(rows[i].prevHash, rows[i].entry) == rows[i].entryHash
    ensures (rows[i].prevHash, rows[i].entry) in ContentsOf(rows)
  {
    OkMeans(h, rows, false);
    assert SoundAt(h, ZERO, rows, 0, i);
    if i > 0 { assert SoundAt(h, ZERO, rows, 0, i - 1); }
    assert rows[i] in rows;
  }

  /** All hashes of a verified chain are different, and none is zero. */
  lemma {:induction false} HashesDistinct(h: Link, rows: seq<Row>, i: nat, j: nat)
    requires Verified(h, rows) && Trusted(h, ContentsOf(rows)) && i < j < |rows|
    ensures rows[i].entryHash != rows[j].entryHash
    ensures rows[i].entryHash != ZERO && rows[j].entryHash != ZERO
    decreases i
  {
    VerifiedRow(h, rows, i);
    VerifiedRow(h, rows, j);
    VerifiedRow(h, rows, j - 1);
    if i > 0 { HashesDistinct(h, rows, i - 1, j - 1); }
  }
}
