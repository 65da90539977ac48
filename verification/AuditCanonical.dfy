/** When the canonical bytes determine the entry. The source relies on the record
    separator never occurring in text fields; nothing keeps it out of them. */
module AuditCanonical {
  import opened Workflow
  import opened AuditBytes

  predicate HasSeparator(e: Entry) { RS in e.action || RS in e.target || RS in e.meth || RS in e.path }

  /** Metadata that encodes like an empty object is an empty object. */
  function Norm(e: Entry): Entry { e.(meta := if e.meta.Json? then e.meta else Empty) }

  function Split(s: Bytes): (r: seq<Bytes>)
    ensures r != [] && forall f | f in r :: RS !in f
  {
    if s == [] then [[]]
    else
      var r := Split(s[1..]);
      if s[0] == RS then [[]] + r else [[s[0]] + r[0]] + r[1..]
  }

  lemma {:induction false} JoinedConcat(a: seq<Bytes>, b: seq<Bytes>)
    requires a != [] && b != []
    ensures Joined(a + b) == Joined(a) + [RS] + Joined(b)
    decreases |a|
  {
    assert (a + b)[1..] == a[1..] + b;
    if |a| > 1 { JoinedConcat(a[1..], b); }
  }

  lemma {:induction false} JoinedSplit(s: Bytes)
    ensures Joined(Split(s)) == s
    decreases |s|
  {
    if s != [] {
      var r := Split(s[1..]);
      JoinedSplit(s[1..]);
      assert s == [s[0]] + s[1..];
      if s[0] == RS { JoinedConcat([[]], r); }
      else {
        assert r == [r[0]] + r[1..];
        if |r| > 1 {
          JoinedConcat([r[0]], r[1..]);
          JoinedConcat([[s[0]] + r[0]], r[1..]);
        }
      }
    }
  }

  lemma {:induction false} SplitConcat(a: Bytes, b: Bytes)
    ensures Split(a + [RS] + b) == Split(a) + Split(b)
    decreases |a|
  {
    var s := a + [RS] + b;
    if a == [] { assert s[1..] == b; }
    else {
      assert s[1..] == a[1..] + [RS] + b;
      SplitConcat(a[1..], b);
    }
  }

  lemma {:induction false} SplitPlain(s: Bytes)
    ensures RS !in s ==> Split(s) == [s]
    ensures RS in s ==> |Split(s)| > 1
    decreases |s|
  {
    if s != [] {
      assert s == [s[0]] + s[1..];
      SplitPlain(s[1..]);
    }
  }

  function Segments(fields: seq<Bytes>): (r: seq<Bytes>)
    ensures |r| >= |fields|
  {
    if fields == [] then [] else Split(fields[0]) + Segments(fields[1..])
  }

  lemma {:induction false} SplitJoined(fields: seq<Bytes>)
    requires fields != []
    ensures Split(Joined(fields)) == Segments(fields)
    decreases |fields|
  {
    if |fields| == 1 { assert |Segments(fields[1..])| == 0; }
    else {
      SplitJoined(fields[1..]);
      SplitConcat(fields[0], Joined(fields[1..]));
    }
  }

  lemma {:induction false} SegmentsConcat(a: seq<Bytes>, b: seq<Bytes>)
    ensures Segments(a + b) == Segments(a) + Segments(b)
    decreases |a|
  {
    if a == [] { assert a + b == b; }
    else {
      assert (a + b)[1..] == a[1..] + b;
      SegmentsConcat(a[1..], b);
    }
  }

  lemma {:induction false} SegmentsPlain(fields: seq<Bytes>)
    requires forall f | f in fields :: RS !in f
    ensures Segments(fields) == fields
    decreases |fields|
  {
    if fields != [] {
      assert fields[0] in fields;
      SplitPlain(fields[0]);
      forall f | f in fields[1..] ensures RS !in f { assert f in fields; }
      SegmentsPlain(fields[1..]);
    }
  }

  /** Only the four text fields can hold a separator. */
  lemma HeadAndTailPlain(e: Entry)
    requires Real(e)
    ensures forall f | f in Head(e) + Tail(e) :: RS !in f
  {
    TimePlain(e.at);
    UuidPlain(e.tenant);
    UuidPlain(e.user);
  }

  lemma {:induction false} HexPlain(u: Bytes)
    ensures RS !in Hex(u)
    decreases |u|
  {
    if u != [] { HexPlain(u[1..]); }
  }

  lemma UuidPlain(u: Option<Uuid>)
    ensures RS !in UuidStr(u)
  {
    if u.Some? {
      HexPlain(u.value[..4]);
      HexPlain(u.value[4..6]);
      HexPlain(u.value[6..8]);
      HexPlain(u.value[8..10]);
      HexPlain(u.value[10..]);
    }
  }

  lemma TimePlain(t: Time)
    ensures RS !in TimeText(t)
  {
    ClockPlain(t);
    FractionPlain(t.nanos);
    PadPlain(t.year, 4);
  }

  lemma PadPlain(n: nat, width: nat)
    ensures RS !in Pad(n, width)
  {
  }

  lemma FractionPlain(nanos: nat)
    ensures RS !in Fraction(nanos)
  {
    TrimDigits(Pad(nanos, 9));
  }

  lemma ClockPlain(t: Time)
    ensures RS !in Clock(t)
  {
    PadPlain(t.month, 2);
    PadPlain(t.day, 2);
    PadPlain(t.hour, 2);
    PadPlain(t.minute, 2);
    PadPlain(t.second, 2);
  }

  lemma CanonicalSegments(e: Entry)
    requires Real(e)
    ensures Split(Joined(Fields(e))) == Head(e) + Segments(Texts(e)) + Tail(e)
  {
    HeadAndTailPlain(e);
    SplitJoined(Fields(e));
    SegmentsConcat(Head(e) + Texts(e), Tail(e));
    SegmentsConcat(Head(e), Texts(e));
    forall f | f in Head(e) ensures RS !in f { assert f in Head(e) + Tail(e); }
    forall f | f in Tail(e) ensures RS !in f { assert f in Head(e) + Tail(e); }
    SegmentsPlain(Head(e));
    SegmentsPlain(Tail(e));
  }

  lemma SameCanonical(prev: Bytes, e: Entry, prev': Bytes, e': Entry)
    ensures Canonical(prev, e) == Canonical(prev', e') <==>
      Seed(prev) == Seed(prev') && Joined(Fields(e)) == Joined(Fields(e'))
  {
    SeedAndRest(Seed(prev), Joined(Fields(e)), Seed(prev'), Joined(Fields(e')));
  }

  lemma SeedAndRest(p: Bytes, x: Bytes, q: Bytes, y: Bytes)
    requires |p| == |q|
    ensures p + [RS] + x == q + [RS] + y <==> p == q && x == y
  {
    if p + [RS] + x == q + [RS] + y {
      assert p + [RS] + x == p + ([RS] + x) && q + [RS] + y == q + ([RS] + y);
      SameFirst(p, [RS] + x, q, [RS] + y);
      SameFirst([RS], x, [RS], y);
    }
  }

  lemma TextsPlain(e: Entry)
    ensures |Segments(Texts(e))| == 4 <==> !HasSeparator(e)
    ensures !HasSeparator(e) ==> Segments(Texts(e)) == Texts(e)
  {
    SegmentsConcat([e.action, e.target], [e.meth, e.path]);
    assert [e.action, e.target] + [e.meth, e.path] == Texts(e);
    SegmentsOfTwo(e.action, e.target);
    SegmentsOfTwo(e.meth, e.path);
  }

  lemma SegmentsOfTwo(a: Bytes, b: Bytes)
    ensures |Segments([a, b])| >= 2 && (|Segments([a, b])| == 2 <==> RS !in a && RS !in b)
    ensures RS !in a && RS !in b ==> Segments([a, b]) == [a, b]
  {
    SegmentsConcat([a], [b]);
    assert [a] + [b] == [a, b];
    SegmentsOfOne(a);
    SegmentsOfOne(b);
    SplitPlain(a);
    SplitPlain(b);
  }

  lemma SegmentsOfOne(a: Bytes)
    ensures Segments([a]) == Split(a)
  {
    assert Segments([a][1..]) == [];
  }

  lemma FieldsInjective(e: Entry, e': Entry)
    requires Real(e) && Real(e') && Head(e) == Head(e') && Texts(e) == Texts(e') && Tail(e) == Tail(e')
    ensures Norm(e) == Norm(e')
  {
    assert Head(e)[0] == TimeText(e.at) && Head(e')[0] == TimeText(e'.at);
    assert Head(e)[1] == UuidStr(e.tenant) && Head(e')[1] == UuidStr(e'.tenant);
    assert Head(e)[2] == UuidStr(e.user) && Head(e')[2] == UuidStr(e'.user);
    assert Tail(e)[0] == Itoa(e.status) && Tail(e')[0] == Itoa(e'.status);
    assert Tail(e)[1] == Itoa(e.durationMS) && Tail(e')[1] == Itoa(e'.durationMS);
    assert Tail(e)[2] == MetaText(e.meta) && Tail(e')[2] == MetaText(e'.meta);
    assert Texts(e)[0] == e.action && Texts(e)[1] == e.target && Texts(e)[2] == e.meth && Texts(e)[3] == e.path;
    assert Texts(e')[0] == e'.action && Texts(e')[1] == e'.target && Texts(e')[2] == e'.meth && Texts(e')[3] == e'.path;
    TimeInjective(e.at, e'.at);
    UuidInjective(e.tenant, e'.tenant);
    UuidInjective(e.user, e'.user);
    ItoaInjective(e.status, e'.status);
    ItoaInjective(e.durationMS, e'.durationMS);
  }

  /** An entry without separators in its text fields is determined by its canonical
      bytes, and so is the 32-byte predecessor, against entries of any kind. */
  lemma CanonicalInjective(prev: Bytes, e: Entry, prev': Bytes, e': Entry)
    requires Real(e) && Real(e') && !HasSeparator(e)
    requires Canonical(prev, e) == Canonical(prev', e')
    ensures Seed(prev) == Seed(prev') && Norm(e) == Norm(e')
  {
    SameCanonical(prev, e, prev', e');
    CanonicalSegments(e);
    CanonicalSegments(e');
    TextsPlain(e);
    TextsPlain(e');
    var a, b := Head(e) + Segments(Texts(e)) + Tail(e), Head(e') + Segments(Texts(e')) + Tail(e');
    assert a == b && |a| == 6 + |Segments(Texts(e))| && |b| == 6 + |Segments(Texts(e'))|;
    assert a[..3] == Head(e) && b[..3] == Head(e') && a[3..7] == Texts(e) && b[3..7] == Texts(e');
    assert a[7..] == Tail(e) && b[7..] == Tail(e');
    FieldsInjective(e, e');
  }

  /** The first three segments and the rest as one field. */
  function GroupedLate(e: Entry, segs: seq<Bytes>): Entry
    requires |segs| > 4
  {
    e.(action := segs[0], target := segs[1], meth := segs[2], path := Joined(segs[3..]))
  }

  function GroupedEarly(e: Entry, segs: seq<Bytes>): Entry
    requires |segs| > 4
  {
    var n := |segs| - 3;
    e.(action := Joined(segs[..n]), target := segs[n], meth := segs[n + 1], path := segs[n + 2])
  }

  lemma LateJoins(segs: seq<Bytes>)
    requires |segs| > 4
    ensures Joined([segs[0], segs[1], segs[2], Joined(segs[3..])]) == Joined(segs)
  {
    var rest := Joined(segs[3..]);
    assert segs == segs[..3] + segs[3..];
    JoinedConcat(segs[..3], segs[3..]);
    JoinedConcat(segs[..3], [rest]);
    assert segs[..3] + [rest] == [segs[0], segs[1], segs[2], rest];
  }

  lemma EarlyJoins(segs: seq<Bytes>)
    requires |segs| > 4
    ensures var n := |segs| - 3; Joined([Joined(segs[..n]), segs[n], segs[n + 1], segs[n + 2]]) == Joined(segs)
  {
    var n := |segs| - 3;
    var first := Joined(segs[..n]);
    assert segs == segs[..n] + segs[n..];
    JoinedConcat(segs[..n], segs[n..]);
    JoinedConcat([first], segs[n..]);
    assert [first] + segs[n..] == [first, segs[n], segs[n + 1], segs[n + 2]];
  }

  lemma SameTexts(e: Entry, e': Entry)
    requires Head(e) == Head(e') && Tail(e) == Tail(e') && Joined(Texts(e)) == Joined(Texts(e'))
    ensures Joined(Fields(e)) == Joined(Fields(e'))
  {
    JoinedConcat(Head(e) + Texts(e), Tail(e));
    JoinedConcat(Head(e), Texts(e));
    JoinedConcat(Head(e') + Texts(e'), Tail(e'));
    JoinedConcat(Head(e'), Texts(e'));
  }

  /** With a separator in a text field there is always another entry with the same
      canonical bytes: the segments can be grouped into four fields differently. */
  lemma AnotherEntry(prev: Bytes, e: Entry) returns (e': Entry)
    requires Real(e) && HasSeparator(e)
    ensures Real(e') && Norm(e') != Norm(e) && Canonical(prev, e') == Canonical(prev, e)
  {
    var segs := Segments(Texts(e));
    TextsPlain(e);
    SplitJoined(Texts(e));
    JoinedSplit(Joined(Texts(e)));
    assert Joined(segs) == Joined(Texts(e));
    LateJoins(segs);
    EarlyJoins(segs);
    var late, early := GroupedLate(e, segs), GroupedEarly(e, segs);
    SameTexts(late, e);
    SameTexts(early, e);
    JoinedConcat(segs[3..4], segs[4..]);
    assert segs[3..] == segs[3..4] + segs[4..];
    assert RS in late.path;
    assert early.path in Split(Joined(Texts(e)));
    assert RS !in early.path;
    e' := if e.path == late.path then early else late;
  }

  /** The canonical bytes of an entry belong to no other entry exactly when no text field
      contains the record separator. */
  lemma AmbiguousExactlyWithSeparator(prev: Bytes, e: Entry)
    requires Real(e)
    ensures (exists prev', e' :: Real(e') && Norm(e') != Norm(e) && Canonical(prev', e') == Canonical(prev, e))
      <==> HasSeparator(e)
  {
    if prev', e' :| Real(e') && Norm(e') != Norm(e) && Canonical(prev', e') == Canonical(prev, e) {
      if !HasSeparator(e) { CanonicalInjective(prev, e, prev', e'); }
    }
    if HasSeparator(e) { var e' := AnotherEntry(prev, e); }
  }

  /** Two different valid entries with equal canonical bytes: the separator is a
      character of valid UTF-8. */
  lemma SeparatorCollision(e: Entry)
    requires Real(e)
    ensures var a, b := e.(action := [97, RS, 98], target := [99]), e.(action := [97], target := [98, RS, 99]);
      a.action != b.action && forall prev :: Canonical(prev, a) == Canonical(prev, b)
  {
    var a, b := e.(action := [97, RS, 98], target := [99]), e.(action := [97], target := [98, RS, 99]);
    var rest := [e.meth, e.path];
    assert Texts(a) == [[97, RS, 98], [99]] + rest && Texts(b) == [[97], [98, RS, 99]] + rest;
    JoinedConcat([[97, RS, 98], [99]], rest);
    JoinedConcat([[97], [98, RS, 99]], rest);
    JoinedConcat([[97, RS, 98]], [[99]]);
    JoinedConcat([[97]], [[98, RS, 99]]);
    SameTexts(a, b);
    assert a.action[1] == RS;
  }

  /** The documented layout: the predecessor's 32 bytes, zeros for anything else, then ten
      fields after a separator each, which can be read off an entry without separators. */
  lemma LayoutReadsOff(prev: Bytes, e: Entry)
    requires Real(e) && !HasSeparator(e)
    ensures var b := Canonical(prev, e);
      && |b| > 32 && b[32] == 0x1E && b[..32] == (if |prev| == 32 then prev else seq(32, _ => 0))
      && Split(b[33..]) == [TimeText(e.at), UuidStr(e.tenant), UuidStr(e.user), e.action, e.target, e.meth, e.path,
                            Itoa(e.status), Itoa(e.durationMS), if e.meta.Json? then e.meta.text else [123, 125]]
  {
    Parts(prev, e);
    CanonicalSegments(e);
    TextsPlain(e);
    assert Head(e) + Texts(e) + Tail(e)
      == [TimeText(e.at), UuidStr(e.tenant), UuidStr(e.user), e.action, e.target, e.meth, e.path, Itoa(e.status),
          Itoa(e.durationMS), MetaText(e.meta)];
  }

  lemma Parts(prev: Bytes, e: Entry)
    ensures var b := Canonical(prev, e);
      |b| > 32 && b[32] == RS && b[..32] == Seed(prev) && b[33..] == Joined(Fields(e)) && ZERO == seq(32, _ => 0)
  {
    assert Canonical(prev, e) == Seed(prev) + ([RS] + Joined(Fields(e)));
  }
}
