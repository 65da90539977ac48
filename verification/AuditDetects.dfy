/** What walking the chain detects: one changed or deleted row, and where. */
module AuditDetects {
  import opened Workflow
  import opened AuditBytes
  import opened AuditCanonical
  import opened AuditChain

  predicate FullOk(h: Link, rows: seq<Row>) { VerdictOf(h, rows, false).ok }

  lemma FullOkMeans(h: Link, rows: seq<Row>)
    requires FullOk(h, rows)
    ensures Linked(h, ZERO, rows, PreLen(rows))
    ensures PreLen(rows) < |rows| ==> rows[PreLen(rows)].entryHash != ZERO
  {
    OkMeans(h, rows, false);
    if PreLen(rows) < |rows| { assert SoundAt(h, ZERO, rows, PreLen(rows), PreLen(rows)); }
  }

  lemma BreaksAt(h: Link, rows: seq<Row>, pre: nat, k: nat)
    requires PreLen(rows) == pre <= k < |rows| && (forall i | pre <= i < k :: SoundAt(h, ZERO, rows, pre, i))
    requires !SoundAt(h, ZERO, rows, pre, k)
    ensures var v := VerdictOf(h, rows, false);
      && !v.ok && v.rowsChecked == k - pre && v.preChainRows == pre
      && v.broken == Some(BreakOf(h, RunningAt(ZERO, rows, pre, k), rows[k]))
  {
    FirstBadAt(h, ZERO, rows, pre, k);
  }

  lemma PreLenIs(rows: seq<Row>, n: nat)
    requires n <= |rows| && (forall i | 0 <= i < n :: Unchained(rows[i])) && (n < |rows| ==> !Unchained(rows[n]))
    ensures PreLen(rows) == n
  {
  }

  /** Rows that agree below k are sound alike below k. */
  lemma SoundBelow(h: Link, rows: seq<Row>, rows': seq<Row>, pre: nat, k: nat)
    requires pre <= k <= |rows| && k <= |rows'| && rows[..k] == rows'[..k]
    requires forall i | pre <= i < k :: SoundAt(h, ZERO, rows, pre, i)
    ensures forall i | pre <= i < k :: SoundAt(h, ZERO, rows', pre, i)
  {
    forall i | 0 <= i < k ensures rows[i] == rows'[i] { assert rows[..k][i] == rows'[..k][i]; }
    forall i | pre <= i < k ensures SoundAt(h, ZERO, rows', pre, i) { assert SoundAt(h, ZERO, rows, pre, i); }
  }

  /** Changing the fields of one row, so that its recomputed hash changes, breaks the walk
      at exactly that row. */
  lemma ChangedEntry(h: Link, rows: seq<Row>, k: nat, e: Entry)
    requires FullOk(h, rows) && PreLen(rows) <= k < |rows| && h(rows[k].prevHash, e) != rows[k].entryHash
    ensures var v := VerdictOf(h, rows[k := rows[k].(entry := e)], false);
      && !v.ok && v.rowsChecked == k - PreLen(rows)
      && v.broken == Some(Break(rows[k].id, EntryMismatch, h(rows[k].prevHash, e), rows[k].entryHash))
  {
    var pre, rows' := PreLen(rows), rows[k := rows[k].(entry := e)];
    FullOkMeans(h, rows);
    PreLenIs(rows', pre);
    SoundBelow(h, rows, rows', pre, k);
    assert SoundAt(h, ZERO, rows, pre, k);
    BreaksAt(h, rows', pre, k);
  }

  /** Changing one predecessor column breaks the walk at exactly that row. */
  lemma ChangedPrev(h: Link, rows: seq<Row>, k: nat, x: Bytes)
    requires FullOk(h, rows) && PreLen(rows) <= k < |rows| && x != rows[k].prevHash
    ensures var v := VerdictOf(h, rows[k := rows[k].(prevHash := x)], false);
      && !v.ok && v.rowsChecked == k - PreLen(rows)
      && v.broken == Some(Break(rows[k].id, PrevMismatch, rows[k].prevHash, x))
  {
    var pre, rows' := PreLen(rows), rows[k := rows[k].(prevHash := x)];
    FullOkMeans(h, rows);
    assert SoundAt(h, ZERO, rows, pre, k);
    PreLenIs(rows', pre);
    SoundBelow(h, rows, rows', pre, k);
    BreaksAt(h, rows', pre, k);
  }

  /** Changing one hash column breaks the walk at exactly that row, unless it makes the
      first chain row look pre-chain. */
  lemma ChangedHash(h: Link, rows: seq<Row>, k: nat, x: Bytes)
    requires FullOk(h, rows) && PreLen(rows) <= k < |rows| && x != rows[k].entryHash
    requires !(k == PreLen(rows) && x == ZERO)
    ensures var v := VerdictOf(h, rows[k := rows[k].(entryHash := x)], false);
      && !v.ok && v.rowsChecked == k - PreLen(rows)
      && v.broken == Some(Break(rows[k].id, EntryMismatch, rows[k].entryHash, x))
  {
    var pre, rows' := PreLen(rows), rows[k := rows[k].(entryHash := x)];
    FullOkMeans(h, rows);
    assert SoundAt(h, ZERO, rows, pre, k);
    PreLenIs(rows', pre);
    SoundBelow(h, rows, rows', pre, k);
    BreaksAt(h, rows', pre, k);
  }

  /** A zeroed hash in the first chain row hides that row: the walk breaks at the next
      one, or is OK when there is none. */
  lemma ZeroedFirstHash(h: Link, rows: seq<Row>)
    requires FullOk(h, rows) && PreLen(rows) < |rows|
    ensures var k := PreLen(rows);
      var v := VerdictOf(h, rows[k := rows[k].(entryHash := ZERO)], false);
      && v.preChainRows == k + 1 && v.rowsChecked == 0
      && v.ok == (k + 1 == |rows|)
      && (k + 1 < |rows| ==> v.broken == Some(Break(rows[k + 1].id, PrevMismatch, ZERO, rows[k].entryHash)))
  {
    var k := PreLen(rows);
    var rows' := rows[k := rows[k].(entryHash := ZERO)];
    FullOkMeans(h, rows);
    assert SoundAt(h, ZERO, rows, k, k);
    if k + 1 < |rows| { assert SoundAt(h, ZERO, rows, k, k + 1); }
    PreLenIs(rows', k + 1);
    if k + 1 < |rows| { BreaksAt(h, rows', k + 1, k + 1); }
  }

  function Without(rows: seq<Row>, k: nat): seq<Row>
    requires k < |rows|
  {
    rows[..k] + rows[k + 1..]
  }

  ghost function Chain(rows: seq<Row>): seq<Row> { rows[PreLen(rows)..] }

  lemma ChainVerified(h: Link, rows: seq<Row>)
    requires FullOk(h, rows)
    ensures Verified(h, Chain(rows))
  {
    var pre, chain := PreLen(rows), Chain(rows);
    FullOkMeans(h, rows);
    PreLenIs(chain, 0);
    forall i | 0 <= i < |chain| ensures SoundAt(h, ZERO, chain, 0, i) { assert SoundAt(h, ZERO, rows, pre, pre + i); }
    OkMeans(h, chain, false);
  }

  /** Deleting a chain row that is not the last breaks the walk at the next one. */
  lemma Deleted(h: Link, rows: seq<Row>, k: nat)
    requires FullOk(h, rows) && PreLen(rows) <= k < |rows| - 1 && Trusted(h, ContentsOf(Chain(rows)))
    ensures var v := VerdictOf(h, Without(rows, k), false);
      && !v.ok && v.rowsChecked == k - PreLen(rows)
      && v.broken == Some(Break(rows[k + 1].id, PrevMismatch, rows[k].prevHash, rows[k].entryHash))
  {
    var pre, rows' := PreLen(rows), Without(rows, k);
    FullOkMeans(h, rows);
    ChainVerified(h, rows);
    assert SoundAt(h, ZERO, rows, pre, k) && SoundAt(h, ZERO, rows, pre, k + 1);
    if k > pre { NeighboursDiffer(h, rows, k); }
    assert rows'[k] == rows[k + 1];
    PreLenIs(rows', pre);
    SoundBelow(h, rows, rows', pre, k);
    BreaksAt(h, rows', pre, k);
  }

  lemma NeighboursDiffer(h: Link, rows: seq<Row>, k: nat)
    requires Verified(h, Chain(rows)) && PreLen(rows) < k < |rows| && Trusted(h, ContentsOf(Chain(rows)))
    ensures rows[k - 1].entryHash != rows[k].entryHash
  {
    var pre := PreLen(rows);
    HashesDistinct(h, Chain(rows), k - 1 - pre, k - pre);
    ChainAt(rows, k - 1);
    ChainAt(rows, k);
  }

  lemma ChainAt(rows: seq<Row>, k: nat)
    requires PreLen(rows) <= k < |rows|
    ensures k - PreLen(rows) < |Chain(rows)| && Chain(rows)[k - PreLen(rows)] == rows[k]
  {
  }

  /** Deleting the last row goes unnoticed. */
  lemma DeletedLast(h: Link, rows: seq<Row>)
    requires FullOk(h, rows) && PreLen(rows) < |rows|
    ensures FullOk(h, Without(rows, |rows| - 1))
    ensures VerdictOf(h, Without(rows, |rows| - 1), false).rowsChecked == |rows| - 1 - PreLen(rows)
  {
    var pre, k := PreLen(rows), |rows| - 1;
    var rows' := Without(rows, k);
    FullOkMeans(h, rows);
    assert rows' == rows[..k];
    PreLenIs(rows', pre);
    SoundBelow(h, rows, rows', pre, k);
    OkMeans(h, rows', false);
  }

  /** When the whole table verifies, so does every suffix. */
  lemma SuffixVerifies(h: Link, table: seq<Row>, fromID: nat)
    requires FullOk(h, table) && Trusted(h, ContentsOf(Chain(table)))
    ensures VerdictOf(h, From(table, fromID), true).ok
  {
    var rows := From(table, fromID);
    SuffixPreLen(h, table, rows);
    SuffixLinked(h, table, rows);
    OkMeans(h, rows, true);
  }

  lemma ChainedNotZero(h: Link, rows: seq<Row>, k: nat)
    requires FullOk(h, rows) && Trusted(h, ContentsOf(Chain(rows))) && PreLen(rows) <= k < |rows|
    ensures rows[k].entryHash != ZERO
  {
    FullOkMeans(h, rows);
    assert SoundAt(h, ZERO, rows, PreLen(rows), k);
    assert Chain(rows)[k - PreLen(rows)] == rows[k];
    assert rows[k] in Chain(rows) && (rows[k].prevHash, rows[k].entry) in ContentsOf(Chain(rows));
  }

  lemma SuffixPreLen(h: Link, table: seq<Row>, rows: seq<Row>)
    requires FullOk(h, table) && Trusted(h, ContentsOf(Chain(table)))
    requires |rows| <= |table| && rows == table[|table| - |rows|..]
    ensures var n := |table| - |rows|; PreLen(rows) == if n < PreLen(table) then PreLen(table) - n else 0
  {
    var n, pre := |table| - |rows|, PreLen(table);
    if n >= pre && rows != [] { ChainedNotZero(h, table, n); }
    PreLenIs(rows, if n < pre then pre - n else 0);
  }

  lemma SuffixLinked(h: Link, table: seq<Row>, rows: seq<Row>)
    requires FullOk(h, table) && |rows| <= |table| && rows == table[|table| - |rows|..]
    requires var n := |table| - |rows|; PreLen(rows) == if n < PreLen(table) then PreLen(table) - n else 0
    ensures Linked(h, SeedOf(rows, true), rows, PreLen(rows))
  {
    var n, pre, own := |table| - |rows|, PreLen(table), PreLen(rows);
    FullOkMeans(h, table);
    forall i | own <= i < |rows| ensures SoundAt(h, SeedOf(rows, true), rows, own, i) {
      assert SoundAt(h, ZERO, table, pre, n + i);
    }
  }

  /** Equal hashes in two fully verified logs have equal pasts. */
  lemma {:induction false} EqualPasts(h: Link, a: seq<Row>, b: seq<Row>, m: nat, n: nat)
    requires Verified(h, a) && Verified(h, b) && Trusted(h, ContentsOf(a) + ContentsOf(b))
    requires m < |a| && n < |b| && a[m].entryHash == b[n].entryHash
    ensures m == n && SameHashes(a[..m + 1], b[..n + 1])
    decreases m
  {
    SamePrev(h, a, b, m, n);
    if m > 0 { EqualPasts(h, a, b, m - 1, n - 1); }
    OneMore(a, b, m);
  }

  /** Two fully verified logs that end in the same hash agree in all hash columns. */
  lemma EqualTips(h: Link, a: seq<Row>, b: seq<Row>)
    requires Verified(h, a) && Verified(h, b) && Trusted(h, ContentsOf(a) + ContentsOf(b))
    requires a != [] && b != [] && a[|a| - 1].entryHash == b[|b| - 1].entryHash
    ensures SameHashes(a, b)
  {
    EqualPasts(h, a, b, |a| - 1, |b| - 1);
    WholeLogs(a, b);
  }

  lemma WholeLogs(a: seq<Row>, b: seq<Row>)
    requires SameHashes(a[..|a|], b[..|b|])
    ensures SameHashes(a, b)
  {
    assert a[..|a|] == a && b[..|b|] == b;
  }

  predicate SameHashes(a: seq<Row>, b: seq<Row>) {
    |a| == |b| && forall i | 0 <= i < |a| :: a[i].prevHash == b[i].prevHash && a[i].entryHash == b[i].entryHash
  }

  lemma SamePrev(h: Link, a: seq<Row>, b: seq<Row>, m: nat, n: nat)
    requires Verified(h, a) && Verified(h, b) && Trusted(h, ContentsOf(a) + ContentsOf(b))
    requires m < |a| && n < |b| && a[m].entryHash == b[n].entryHash
    ensures a[m].prevHash == b[n].prevHash
    ensures m == 0 <==> n == 0
    ensures m > 0 ==> a[m - 1].entryHash == b[n - 1].entryHash
  {
    VerifiedRow(h, a, m);
    VerifiedRow(h, b, n);
    if m > 0 { VerifiedRow(h, a, m - 1); }
    if n > 0 { VerifiedRow(h, b, n - 1); }
  }

  lemma OneMore(a: seq<Row>, b: seq<Row>, m: nat)
    requires m < |a| && m < |b| && SameHashes(a[..m], b[..m])
    requires a[m].prevHash == b[m].prevHash && a[m].entryHash == b[m].entryHash
    ensures SameHashes(a[..m + 1], b[..m + 1])
  {
    forall i | 0 <= i < m ensures a[i].prevHash == b[i].prevHash && a[i].entryHash == b[i].entryHash {
      assert a[..m][i] == a[i] && b[..m][i] == b[i];
    }
  }

  // ---- The hash over canonical bytes ----

  ghost function Messages(w: World, cs: set<Contents>): set<Bytes> { set c | c in cs :: Canonical(c.0, Reread(w, c.1)) }

  /** No two of these messages collide and none hashes to zero. (No function from byte
      strings to 32 bytes does this for all messages.) */
  ghost predicate NoBreak(w: World, ms: set<Bytes>) {
    && (forall a, b | a in ms && b in ms && w.hash(a) == w.hash(b) :: a == b)
    && (forall a | a in ms :: w.hash(a) != ZERO)
  }

  lemma HashIsTrusted(w: World, cs: set<Contents>)
    requires NoBreak(w, Messages(w, cs))
    ensures Trusted(HashLink(w), cs)
  {
    var h := HashLink(w);
    forall a, b | a in cs && b in cs && h(a.0, a.1) == h(b.0, b.1) ensures Seed(a.0) == Seed(b.0) {
      assert Canonical(a.0, Reread(w, a.1)) in Messages(w, cs) && Canonical(b.0, Reread(w, b.1)) in Messages(w, cs);
      SameCanonical(a.0, Reread(w, a.1), b.0, Reread(w, b.1));
    }
    forall a | a in cs ensures h(a.0, a.1) != ZERO { assert Canonical(a.0, Reread(w, a.1)) in Messages(w, cs); }
  }

  /** Two fully verified logs that end in the same hash, whose entries hold no separator,
      are equal row for row: hash columns, and entries as they are read back. */
  lemma EqualTipsEqualLogs(w: World, a: seq<Row>, b: seq<Row>)
    requires Verified(HashLink(w), a) && Verified(HashLink(w), b)
    requires NoBreak(w, Messages(w, ContentsOf(a) + ContentsOf(b)))
    requires (forall r | r in a :: CleanRow(w, r)) && forall r | r in b :: Real(Reread(w, r.entry))
    requires a != [] && b != [] && a[|a| - 1].entryHash == b[|b| - 1].entryHash
    ensures SameHashes(a, b)
    ensures forall i | 0 <= i < |a| :: Norm(Reread(w, a[i].entry)) == Norm(Reread(w, b[i].entry))
  {
    HashIsTrusted(w, ContentsOf(a) + ContentsOf(b));
    EqualTips(HashLink(w), a, b);
    forall i | 0 <= i < |a| ensures Norm(Reread(w, a[i].entry)) == Norm(Reread(w, b[i].entry)) {
      assert a[i] in a && CleanRow(w, a[i]) && b[i] in b;
      SameEntry(w, a, b, i);
    }
  }

  predicate CleanRow(w: World, r: Row) { Real(Reread(w, r.entry)) && !HasSeparator(r.entry) }

  lemma SameEntry(w: World, a: seq<Row>, b: seq<Row>, i: nat)
    requires Verified(HashLink(w), a) && Verified(HashLink(w), b) && i < |a| && SameHashes(a, b)
    requires NoBreak(w, Messages(w, ContentsOf(a) + ContentsOf(b)))
    requires Real(Reread(w, a[i].entry)) && !HasSeparator(a[i].entry) && Real(Reread(w, b[i].entry))
    ensures Norm(Reread(w, a[i].entry)) == Norm(Reread(w, b[i].entry))
  {
    var cs := ContentsOf(a) + ContentsOf(b);
    VerifiedRow(HashLink(w), a, i);
    VerifiedRow(HashLink(w), b, i);
    var p, x, y := a[i].prevHash, a[i].entry, b[i].entry;
    assert (p, x) in cs && (p, y) in cs;
    assert Canonical(p, Reread(w, x)) in Messages(w, cs) && Canonical(p, Reread(w, y)) in Messages(w, cs);
    CanonicalInjective(p, Reread(w, x), p, Reread(w, y));
  }

  /** Any change of the fields of a row without separators changes its recomputed hash, so
      the walk breaks there. */
  lemma ChangeIsLocated(w: World, rows: seq<Row>, k: nat, e: Entry)
    requires FullOk(HashLink(w), rows) && PreLen(rows) <= k < |rows|
    requires NoBreak(w, Messages(w, {(rows[k].prevHash, rows[k].entry), (rows[k].prevHash, e)}))
    requires Real(Reread(w, rows[k].entry)) && !HasSeparator(rows[k].entry) && Real(Reread(w, e))
    requires Norm(Reread(w, e)) != Norm(Reread(w, rows[k].entry))
    ensures var v := VerdictOf(HashLink(w), rows[k := rows[k].(entry := e)], false);
      && !v.ok && v.rowsChecked == k - PreLen(rows)
      && v.broken.Some? && v.broken.value.id == rows[k].id && v.broken.value.reason == EntryMismatch
  {
    var h, p, was := HashLink(w), rows[k].prevHash, rows[k].entry;
    var cs := {(p, was), (p, e)};
    assert (p, was) in cs && (p, e) in cs;
    assert Canonical(p, Reread(w, was)) in Messages(w, cs) && Canonical(p, Reread(w, e)) in Messages(w, cs);
    if Canonical(p, Reread(w, was)) == Canonical(p, Reread(w, e)) {
      CanonicalInjective(p, Reread(w, was), p, Reread(w, e));
    }
    FullOkMeans(h, rows);
    assert SoundAt(h, ZERO, rows, PreLen(rows), k);
    ChangedEntry(h, rows, k, e);
  }
}
