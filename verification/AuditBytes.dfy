/** The bytes an audit entry is hashed over, and when they determine the entry. */
module AuditBytes {
  import opened Workflow

  type Byte = b: int | 0 <= b < 256
  type Bytes = seq<Byte>

  type Digest = d: Bytes | |d| == 32 witness ZeroBytes(32)
  type Uuid = u: Bytes | |u| == 16 witness ZeroBytes(16)

  const HASH_SIZE: nat := 32
  const RS: Byte := 0x1E
  const DASH: Byte := 45
  const ZERO: Digest := ZeroBytes(32)

  function ZeroBytes(n: nat): (r: Bytes)
    ensures |r| == n && forall i | 0 <= i < n :: r[i] == 0
  {
    seq(n, _ => 0)
  }

  // Instants in UTC, as civil time; `nanos` counts the second's nanoseconds.
  datatype Time = Time(year: nat, month: nat, day: nat, hour: nat, minute: nat, second: nat, nanos: nat)

  // Metadata is known by its JSON text. An unmarshalable map never reaches the store.
  datatype Meta = Empty | Json(text: Bytes) | Unmarshalable

  datatype Entry = Entry(at: Time, tenant: Option<Uuid>, user: Option<Uuid>, action: Bytes, target: Bytes,
                         meth: Bytes, path: Bytes, status: int, durationMS: int, meta: Meta)

  const EMPTY_OBJECT: Bytes := [123, 125]

  predicate RealTime(t: Time) {
    t.month < 100 && t.day < 100 && t.hour < 100 && t.minute < 100 && t.second < 100 && t.nanos < 1000000000
  }

  /** JSON text escapes control characters, and the text of a non-empty object is not `{}`. */
  predicate RealMeta(m: Meta) { m.Json? ==> RS !in m.text && m.text != EMPTY_OBJECT }

  predicate Real(e: Entry) { RealTime(e.at) && RealMeta(e.meta) }

  // ---- The encoding ----

  function Zeros(n: nat): (r: Bytes)
    ensures |r| == n && forall i | 0 <= i < n :: r[i] == 48
  {
    if n == 0 then [] else [48] + Zeros(n - 1)
  }

  /** Decimal digits, padded with zeros to the width. */
  function Pad(n: nat, width: nat): (r: Bytes)
    ensures r != [] && forall b | b in r :: 48 <= b < 58
  {
    var w := if width == 0 then 0 else width - 1;
    (if n < 10 then Zeros(w) else Pad(n / 10, w)) + [48 + n % 10]
  }

  function Itoa(n: int): Bytes { if n < 0 then [DASH] + Pad(-n, 1) else Pad(n, 1) }

  function TrimZeros(s: Bytes): Bytes {
    if s != [] && s[|s| - 1] == 48 then TrimZeros(s[..|s| - 1]) else s
  }

  function Fraction(nanos: nat): Bytes { if nanos == 0 then [] else [46] + TrimZeros(Pad(nanos, 9)) }

  /** RFC 3339, section 5.6, with fractional seconds to the nanosecond, trailing zeros
      dropped. */
  function TimeText(t: Time): Bytes {
    Pad(t.year, 4) + [DASH] + Clock(t) + Fraction(t.nanos) + [90]
  }

  function Clock(t: Time): Bytes {
    Pad(t.month, 2) + [DASH] + Pad(t.day, 2) + [84] + Pad(t.hour, 2) + [58] + Pad(t.minute, 2) + [58] + Pad(t.second, 2)
  }

  function Nibble(n: nat): Byte
    requires n < 16
  {
    if n < 10 then 48 + n else 87 + n
  }

  function Hex(u: Bytes): (r: Bytes)
    ensures |r| == 2 * |u|
  {
    if u == [] then [] else [Nibble(u[0] / 16), Nibble(u[0] % 16)] + Hex(u[1..])
  }

  function UuidStr(u: Option<Uuid>): Bytes {
    match u
    case None => []
    case Some(x) =>
      Hex(x[..4]) + [DASH] + Hex(x[4..6]) + [DASH] + Hex(x[6..8]) + [DASH] + Hex(x[8..10]) + [DASH] + Hex(x[10..])
  }

  function MetaText(m: Meta): Bytes { if m.Json? then m.text else EMPTY_OBJECT }

  /** Anything but a 32-byte predecessor counts as the zero hash. */
  function Seed(prev: Bytes): Digest { if |prev| == HASH_SIZE then prev else ZERO }

  /** Fields joined with record separators between them. */
  function Joined(fields: seq<Bytes>): Bytes {
    if fields == [] then [] else if |fields| == 1 then fields[0] else fields[0] + [RS] + Joined(fields[1..])
  }

  function Head(e: Entry): seq<Bytes> { [TimeText(e.at), UuidStr(e.tenant), UuidStr(e.user)] }

  function Texts(e: Entry): seq<Bytes> { [e.action, e.target, e.meth, e.path] }

  function Tail(e: Entry): seq<Bytes> { [Itoa(e.status), Itoa(e.durationMS), MetaText(e.meta)] }

  function Fields(e: Entry): seq<Bytes> { Head(e) + Texts(e) + Tail(e) }

  function Canonical(prev: Bytes, e: Entry): Bytes { Seed(prev) + [RS] + Joined(Fields(e)) }

  /** The buffer, written field by field. */
  method WriteCanonical(prev: Bytes, e: Entry) returns (b: Bytes)
    ensures b == Canonical(prev, e)
  {
    b := if |prev| != HASH_SIZE then ZERO else prev;
    var fields := Fields(e);
    var i := 0;
    ghost var head := b;
    while i < |fields|
      invariant i <= |fields|
      invariant i < |fields| ==> b + [RS] + Joined(fields[i..]) == head + [RS] + Joined(fields)
      invariant i == |fields| ==> b == head + [RS] + Joined(fields)
    {
      assert fields[i..][0] == fields[i] && fields[i..][1..] == fields[i + 1..];
      b := b + [RS];
      b := b + fields[i];
      i := i + 1;
    }
  }

  /** Whether h is the 32-byte zero hash. */
  method IsZeroHash(h: Bytes) returns (zero: bool)
    ensures zero <==> h == ZERO
  {
    if |h| != HASH_SIZE { return false; }
    var i := 0;
    while i < |h|
      invariant i <= |h| && forall k | 0 <= k < i :: h[k] == 0
    {
      if h[i] != 0 { return false; }
      i := i + 1;
    }
    assert h == ZERO;
    zero := true;
  }

  // ---- Decoding, field by field ----

  function ParseNat(s: Bytes): int {
    if s == [] then 0 else 10 * ParseNat(s[..|s| - 1]) + (s[|s| - 1] as int - 48)
  }

  lemma {:induction false} ZerosParse(n: nat)
    ensures ParseNat(Zeros(n)) == 0
  {
    if n > 0 { assert Zeros(n)[..n - 1] == Zeros(n - 1); ZerosParse(n - 1); }
  }

  lemma {:induction false} PadParses(n: nat, width: nat)
    ensures ParseNat(Pad(n, width)) == n
    decreases n
  {
    var w := if width == 0 then 0 else width - 1;
    var front := if n < 10 then Zeros(w) else Pad(n / 10, w);
    if n < 10 { ZerosParse(w); } else { PadParses(n / 10, w); }
    OneMoreDigit(front, n % 10);
    assert ParseNat(front) == n / 10;
  }

  lemma OneMoreDigit(front: Bytes, digit: nat)
    requires digit < 10
    ensures ParseNat(front + [48 + digit]) == 10 * ParseNat(front) + digit
  {
    var s := front + [48 + digit];
    assert s[..|s| - 1] == front;
  }

  lemma PadInjective(a: nat, b: nat, width: nat)
    requires Pad(a, width) == Pad(b, width)
    ensures a == b
  {
    PadParses(a, width);
    PadParses(b, width);
  }

  function Pow10(w: nat): nat { if w == 0 then 1 else 10 * Pow10(w - 1) }

  lemma {:induction false} PadLength(n: nat, width: nat)
    requires width > 0 && n < Pow10(width)
    ensures |Pad(n, width)| == width
    decreases width
  {
    if n >= 10 {
      assert width > 1 by { assert Pow10(1) == 10 by { assert Pow10(0) == 1; } }
      PadLength(n / 10, width - 1);
    }
  }

  lemma ItoaInjective(a: int, b: int)
    requires Itoa(a) == Itoa(b)
    ensures a == b
  {
    assert a >= 0 ==> Itoa(a)[0] in Pad(a, 1);
    assert b >= 0 ==> Itoa(b)[0] in Pad(b, 1);
    if a < 0 && b < 0 {
      assert Itoa(a)[1..] == Pad(-a, 1) && Itoa(b)[1..] == Pad(-b, 1);
      PadInjective(-a, -b, 1);
    } else if a >= 0 && b >= 0 { PadInjective(a, b, 1); }
  }

  lemma {:induction false} HexInjective(a: Bytes, b: Bytes)
    requires Hex(a) == Hex(b)
    ensures a == b
    decreases |a|
  {
    if a != [] {
      assert Hex(a)[0] == Nibble(a[0] / 16) && Hex(a)[1] == Nibble(a[0] % 16) && Hex(a)[2..] == Hex(a[1..]);
      assert Hex(b)[0] == Nibble(b[0] / 16) && Hex(b)[1] == Nibble(b[0] % 16) && Hex(b)[2..] == Hex(b[1..]);
      HexInjective(a[1..], b[1..]);
      assert a == [a[0]] + a[1..] && b == [b[0]] + b[1..];
    }
  }

  /** Two concatenations whose first parts have the same length. */
  lemma SameFirst(a: Bytes, x: Bytes, b: Bytes, y: Bytes)
    requires |a| == |b| && a + x == b + y
    ensures a == b && x == y
  {
    assert a == (a + x)[..|a|] && x == (a + x)[|a|..];
    assert b == (b + y)[..|b|] && y == (b + y)[|b|..];
  }

  /** Two concatenations whose first parts end before the first separator d. */
  lemma SameUpTo(d: Byte, a: Bytes, x: Bytes, b: Bytes, y: Bytes)
    requires d !in a && d !in b && a + [d] + x == b + [d] + y
    ensures a == b && x == y
  {
    var s := a + [d] + x;
    assert s[|a|] == d && s[|b|] == d;
    assert forall i | 0 <= i < |a| :: s[i] == a[i] && a[i] in a;
    assert forall i | 0 <= i < |b| :: s[i] == b[i] && b[i] in b;
    assert s == a + ([d] + x) && s == b + ([d] + y);
    SameFirst(a, [d] + x, b, [d] + y);
    assert ([d] + x)[1..] == x && ([d] + y)[1..] == y;
  }

  lemma UuidInjective(a: Option<Uuid>, b: Option<Uuid>)
    requires UuidStr(a) == UuidStr(b)
    ensures a == b
  {
    if a.Some? && b.Some? {
      var x, y := a.value, b.value;
      var s := UuidStr(a);
      assert s[..8] == Hex(x[..4]) && s[9..13] == Hex(x[4..6]) && s[14..18] == Hex(x[6..8])
        && s[19..23] == Hex(x[8..10]) && s[24..] == Hex(x[10..]);
      assert s[..8] == Hex(y[..4]) && s[9..13] == Hex(y[4..6]) && s[14..18] == Hex(y[6..8])
        && s[19..23] == Hex(y[8..10]) && s[24..] == Hex(y[10..]);
      HexInjective(x[..4], y[..4]);
      HexInjective(x[4..6], y[4..6]);
      HexInjective(x[6..8], y[6..8]);
      HexInjective(x[8..10], y[8..10]);
      HexInjective(x[10..], y[10..]);
      assert x == x[..4] + x[4..6] + x[6..8] + x[8..10] + x[10..];
      assert y == y[..4] + y[4..6] + y[6..8] + y[8..10] + y[10..];
    }
  }

  lemma {:induction false} TrimRestores(s: Bytes)
    ensures |TrimZeros(s)| <= |s| && s == TrimZeros(s) + Zeros(|s| - |TrimZeros(s)|)
    decreases |s|
  {
    if s != [] && s[|s| - 1] == 48 {
      TrimRestores(s[..|s| - 1]);
      assert s == s[..|s| - 1] + [48];
      var t := TrimZeros(s);
      assert Zeros(|s| - |t|) == Zeros(|s| - 1 - |t|) + [48];
    }
  }

  lemma {:induction false} TrimDigits(s: Bytes)
    requires forall b | b in s :: 48 <= b < 58
    ensures forall b | b in TrimZeros(s) :: 48 <= b < 58
    decreases |s|
  {
    if s != [] && s[|s| - 1] == 48 {
      var t := s[..|s| - 1];
      forall b | b in t ensures 48 <= b < 58 { assert b in s; }
      TrimDigits(t);
    }
  }

  lemma TrimInjective(s: Bytes, t: Bytes)
    requires |s| == |t| && TrimZeros(s) == TrimZeros(t)
    ensures s == t
  {
    TrimRestores(s);
    TrimRestores(t);
  }

  lemma NineDigits(n: nat)
    requires n < 1000000000
    ensures |Pad(n, 9)| == 9
  {
    Pow10Nine();
    PadLength(n, 9);
  }

  lemma FractionInjective(a: nat, b: nat)
    requires a < 1000000000 && b < 1000000000 && Fraction(a) == Fraction(b)
    ensures a == b
  {
    if a != 0 && b != 0 {
      assert Fraction(a)[1..] == TrimZeros(Pad(a, 9)) && Fraction(b)[1..] == TrimZeros(Pad(b, 9));
      NineDigits(a);
      NineDigits(b);
      TrimInjective(Pad(a, 9), Pad(b, 9));
      PadInjective(a, b, 9);
    }
  }

  lemma Pow10Nine()
    ensures Pow10(9) == 1000000000 && Pow10(2) == 100
  {
    assert Pow10(3) == 1000 && Pow10(6) == 1000000 by { assert Pow10(4) == 10000; assert Pow10(5) == 100000; }
    assert Pow10(7) == 10000000;
    assert Pow10(8) == 100000000;
  }

  lemma ClockInjective(a: Time, b: Time)
    requires RealTime(a) && RealTime(b) && Clock(a) == Clock(b)
    ensures a.month == b.month && a.day == b.day && a.hour == b.hour && a.minute == b.minute && a.second == b.second
  {
    ClockSlices(a);
    ClockSlices(b);
    PadInjective(a.month, b.month, 2);
    PadInjective(a.day, b.day, 2);
    PadInjective(a.hour, b.hour, 2);
    PadInjective(a.minute, b.minute, 2);
    PadInjective(a.second, b.second, 2);
  }

  lemma ClockSlices(t: Time)
    requires RealTime(t)
    ensures var c := Clock(t);
      && |c| == 14
      && c[..2] == Pad(t.month, 2) && c[3..5] == Pad(t.day, 2) && c[6..8] == Pad(t.hour, 2)
      && c[9..11] == Pad(t.minute, 2) && c[12..] == Pad(t.second, 2)
  {
    Pow10Nine();
    PadLength(t.month, 2);
    PadLength(t.day, 2);
    PadLength(t.hour, 2);
    PadLength(t.minute, 2);
    PadLength(t.second, 2);
  }

  lemma TimeInjective(a: Time, b: Time)
    requires RealTime(a) && RealTime(b) && TimeText(a) == TimeText(b)
    ensures a == b
  {
    TimeParts(a);
    TimeParts(b);
    var x, y := Clock(a) + (Fraction(a.nanos) + [90]), Clock(b) + (Fraction(b.nanos) + [90]);
    SameUpTo(DASH, Pad(a.year, 4), x, Pad(b.year, 4), y);
    PadInjective(a.year, b.year, 4);
    ClockSlices(a);
    ClockSlices(b);
    SameFirst(Clock(a), Fraction(a.nanos) + [90], Clock(b), Fraction(b.nanos) + [90]);
    ClockInjective(a, b);
    LastByte(Fraction(a.nanos), Fraction(b.nanos));
    FractionInjective(a.nanos, b.nanos);
  }

  lemma LastByte(a: Bytes, b: Bytes)
    requires a + [90] == b + [90]
    ensures a == b
  {
    assert a == (a + [90])[..|a|] && |a + [90]| == |b + [90]|;
  }

  lemma TimeParts(t: Time)
    ensures TimeText(t) == Pad(t.year, 4) + [DASH] + (Clock(t) + (Fraction(t.nanos) + [90]))
  {
  }

  /** An instant reads back from its text: four digits, a dash, two digits, and so on to
      the Z; the digits after a point are the fraction, without zeros at its end. */
  lemma TimeReads(t: Time)
    requires RealTime(t) && t.year < 10000
    ensures var s := TimeText(t);
      && |s| >= 20 && s[4] == s[7] == DASH && s[10] == 84 && s[13] == s[16] == 58 && s[|s| - 1] == 90
      && ParseNat(s[..4]) == t.year && ParseNat(s[5..7]) == t.month && ParseNat(s[8..10]) == t.day
      && ParseNat(s[11..13]) == t.hour && ParseNat(s[14..16]) == t.minute && ParseNat(s[17..19]) == t.second
      && (t.nanos == 0 <==> |s| == 20)
      && (t.nanos > 0 ==>
            && 22 <= |s| <= 30 && s[19] == 46 && s[|s| - 2] != 48
            && ParseNat(s[20..|s| - 1] + Zeros(30 - |s|)) == t.nanos)
  {
    DateReads(t);
    NanosRead(t);
  }

  lemma DateReads(t: Time)
    requires RealTime(t) && t.year < 10000
    ensures var s := TimeText(t);
      && |s| >= 20 && s[4] == s[7] == DASH && s[10] == 84 && s[13] == s[16] == 58 && s[|s| - 1] == 90
      && ParseNat(s[..4]) == t.year && ParseNat(s[5..7]) == t.month && ParseNat(s[8..10]) == t.day
      && ParseNat(s[11..13]) == t.hour && ParseNat(s[14..16]) == t.minute && ParseNat(s[17..19]) == t.second
  {
    TimeSlices(t);
    PadParses(t.year, 4);
    PadParses(t.month, 2);
    PadParses(t.day, 2);
    PadParses(t.hour, 2);
    PadParses(t.minute, 2);
    PadParses(t.second, 2);
  }

  lemma NanosRead(t: Time)
    requires RealTime(t) && t.year < 10000
    ensures var s := TimeText(t);
      && |s| >= 20 && (t.nanos == 0 <==> |s| == 20)
      && (t.nanos > 0 ==>
            && 22 <= |s| <= 30 && s[19] == 46 && s[|s| - 2] != 48
            && ParseNat(s[20..|s| - 1] + Zeros(30 - |s|)) == t.nanos)
  {
    TimeSlices(t);
    FractionReads(t.nanos);
    if t.nanos > 0 { AroundFraction(TimeText(t), Fraction(t.nanos)); }
  }

  lemma AroundFraction(s: Bytes, f: Bytes)
    requires |f| > 1 && |s| == 20 + |f| && s[19..|s| - 1] == f
    ensures s[20..|s| - 1] == f[1..] && s[19] == f[0] && s[|s| - 2] == f[|f| - 1] && 30 - |s| == 10 - |f|
  {
  }

  lemma TimeSlices(t: Time)
    requires RealTime(t) && t.year < 10000
    ensures var s := TimeText(t);
      && |s| == 20 + |Fraction(t.nanos)| && s[19..|s| - 1] == Fraction(t.nanos)
      && s[4] == s[7] == DASH && s[10] == 84 && s[13] == s[16] == 58 && s[|s| - 1] == 90
      && s[..4] == Pad(t.year, 4) && s[5..7] == Pad(t.month, 2) && s[8..10] == Pad(t.day, 2)
      && s[11..13] == Pad(t.hour, 2) && s[14..16] == Pad(t.minute, 2) && s[17..19] == Pad(t.second, 2)
  {
    var s, c := TimeText(t), Clock(t);
    TimeParts(t);
    Pow10Nine();
    PadLength(t.year, 4) by { assert Pow10(4) == 10000 by { assert Pow10(3) == 1000; } }
    ClockSlices(t);
    assert c[2] == DASH && c[5] == 84 && c[8] == c[11] == 58 by {
      PadLength(t.month, 2);
      PadLength(t.day, 2);
      PadLength(t.hour, 2);
      PadLength(t.minute, 2);
    }
    InThree(Pad(t.year, 4) + [DASH], c, Fraction(t.nanos) + [90]);
    SlicesOf(s, c);
  }

  lemma SlicesOf(s: Bytes, c: Bytes)
    requires |c| == 14 && |s| >= 19 && s[5..19] == c
    ensures s[5..7] == c[..2] && s[8..10] == c[3..5] && s[11..13] == c[6..8] && s[14..16] == c[9..11]
    ensures s[17..19] == c[12..] && s[7] == c[2] && s[10] == c[5] && s[13] == c[8] && s[16] == c[11]
  {
    SliceOf(s, 5, 19, 0, 2);
    SliceOf(s, 5, 19, 3, 5);
    SliceOf(s, 5, 19, 6, 8);
    SliceOf(s, 5, 19, 9, 11);
    SliceOf(s, 5, 19, 12, 14);
    assert c[..2] == c[0..2] && c[12..] == c[12..14];
    assert s[7] == s[5..19][2] && s[10] == s[5..19][5] && s[13] == s[5..19][8] && s[16] == s[5..19][11];
  }

  lemma SliceOf(s: Bytes, a: nat, b: nat, i: nat, j: nat)
    requires a <= b <= |s| && i <= j <= b - a
    ensures s[a..b][i..j] == s[a + i..a + j]
  {
    var x, y := s[a..b][i..j], s[a + i..a + j];
    forall k | 0 <= k < j - i ensures x[k] == y[k] {
      assert x[k] == s[a..b][i + k] && y[k] == s[a + i + k];
    }
    assert x == y;
  }

  lemma InThree(a: Bytes, b: Bytes, c: Bytes)
    ensures var s := a + (b + c); s[..|a|] == a && s[|a|..|a| + |b|] == b && s[|a| + |b|..] == c
  {
  }

  lemma FractionReads(nanos: nat)
    requires nanos < 1000000000
    ensures var f := Fraction(nanos);
      if nanos == 0 then f == []
      else 2 <= |f| <= 10 && f[0] == 46 && f[|f| - 1] != 48 && ParseNat(f[1..] + Zeros(10 - |f|)) == nanos
  {
    if nanos > 0 {
      var digits := Pad(nanos, 9);
      NineDigits(nanos);
      TrimRestores(digits);
      TrimEnds(digits);
      PadParses(nanos, 9);
      var f := Fraction(nanos);
      assert f[1..] == TrimZeros(digits) && f[1..] + Zeros(10 - |f|) == digits;
      if f[1..] == [] {
        assert digits == Zeros(9);
        ZerosParse(9);
      }
      assert f[|f| - 1] == f[1..][|f| - 2];
    }
  }

  lemma {:induction false} TrimEnds(s: Bytes)
    ensures TrimZeros(s) != [] ==> TrimZeros(s)[|TrimZeros(s)| - 1] != 48
    decreases |s|
  {
    if s != [] && s[|s| - 1] == 48 { TrimEnds(s[..|s| - 1]); }
  }

  /** The value of a lower-case hexadecimal digit. */
  function HexValue(b: Byte): int { if 48 <= b < 58 then b - 48 else if 97 <= b < 103 then b - 87 else -1 }

  lemma {:induction false} HexReads(u: Bytes, i: nat)
    requires i < |u|
    ensures var a, b := HexValue(Hex(u)[2 * i]), HexValue(Hex(u)[2 * i + 1]); a >= 0 && b >= 0 && 16 * a + b == u[i]
    decreases |u|
  {
    if i > 0 {
      HexReads(u[1..], i - 1);
      assert Hex(u)[2 * i] == Hex(u[1..])[2 * (i - 1)] && Hex(u)[2 * i + 1] == Hex(u[1..])[2 * (i - 1) + 1];
    }
  }

  /** Where the digits of byte i begin: there are dashes after bytes 4, 6, 8 and 10. */
  function DigitsAt(i: nat): nat {
    2 * i + (if i < 4 then 0 else if i < 6 then 1 else if i < 8 then 2 else if i < 10 then 3 else 4)
  }

  /** A UUID reads back from its text of 36 characters, in groups of 8, 4, 4, 4 and 12. */
  lemma UuidReads(u: Uuid, i: nat)
    requires i < 16
    ensures var s := UuidStr(Some(u));
      && |s| == 36 && s[8] == s[13] == s[18] == s[23] == DASH
      && HexValue(s[DigitsAt(i)]) >= 0 && HexValue(s[DigitsAt(i) + 1]) >= 0
      && 16 * HexValue(s[DigitsAt(i)]) + HexValue(s[DigitsAt(i) + 1]) == u[i]
  {
    if i < 4 { HexReads(u[..4], i); }
    else if i < 6 { HexReads(u[4..6], i - 4); }
    else if i < 8 { HexReads(u[6..8], i - 6); }
    else if i < 10 { HexReads(u[8..10], i - 8); }
    else { HexReads(u[10..], i - 10); }
  }

  /** A number reads back from its decimal text. */
  lemma ItoaReads(n: int)
    ensures var s := Itoa(n); if n < 0 then s[0] == DASH && ParseNat(s[1..]) == -n else ParseNat(s) == n
  {
    if n < 0 {
      PadParses(-n, 1);
      assert Itoa(n)[1..] == Pad(-n, 1);
    } else { PadParses(n, 1); }
  }
}
