/** The string operations the design editor's compiler is written with. */
module Text {
  import opened Workflow

  predicate IsSpace(c: char) {
    || c == ' ' || '\t' <= c <= '\r' || c == '\U{85}' || c == '\U{A0}' || c == '\U{1680}'
    || '\U{2000}' <= c <= '\U{200A}' || c == '\U{2028}' || c == '\U{2029}' || c == '\U{202F}' || c == '\U{205F}'
    || c == '\U{3000}'
  }

  function TrimLeft(s: string): string { if s != "" && IsSpace(s[0]) then TrimLeft(s[1..]) else s }

  function TrimRight(s: string): string { if s != "" && IsSpace(s[|s| - 1]) then TrimRight(s[..|s| - 1]) else s }

  function TrimSpace(s: string): string { TrimRight(TrimLeft(s)) }

  /** Neither begins nor ends with a space. */
  predicate Trimmed(s: string) { s != "" ==> !IsSpace(s[0]) && !IsSpace(s[|s| - 1]) }

  lemma {:induction false} TrimLeftIs(s: string)
    ensures var t := TrimLeft(s); t != "" ==> !IsSpace(t[0])
    decreases |s|
  {
    if s != "" && IsSpace(s[0]) { TrimLeftIs(s[1..]); }
  }

  lemma {:induction false} TrimRightIs(s: string)
    ensures var t := TrimRight(s); t != "" ==> !IsSpace(t[|t| - 1]) && |t| <= |s| && t[0] == s[0]
    decreases |s|
  {
    if s != "" && IsSpace(s[|s| - 1]) { TrimRightIs(s[..|s| - 1]); }
  }

  lemma TrimSpaceIs(s: string)
    ensures Trimmed(TrimSpace(s))
  {
    TrimLeftIs(s);
    TrimRightIs(TrimLeft(s));
  }

  lemma TrimmedStays(s: string)
    requires Trimmed(s)
    ensures TrimSpace(s) == s
  {
  }

  lemma TrimAround(s: string)
    requires Trimmed(s) && s != ""
    ensures TrimSpace(s + " ") == s && TrimSpace(" " + s) == s
  {
    assert (s + " ")[0] == s[0] && (s + " ")[..|s + " "| - 1] == s;
    assert TrimRight(s + " ") == TrimRight(s);
    assert (" " + s)[1..] == s && (" " + s)[0] == ' ';
    assert TrimLeft(" " + s) == TrimLeft(s) == s;
  }

  predicate HasPrefix(s: string, p: string) { |p| <= |s| && s[..|p|] == p }

  predicate HasSuffix(s: string, p: string) { |p| <= |s| && s[|s| - |p|..] == p }

  predicate OccursAt(s: string, sub: string, i: nat) { i + |sub| <= |s| && s[i..i + |sub|] == sub }

  /** The first occurrence from i on. */
  function IndexFrom(s: string, sub: string, i: nat): (r: Option<nat>)
    ensures r.Some? ==> i <= r.value && OccursAt(s, sub, r.value) && forall j | i <= j < r.value :: !OccursAt(s, sub, j)
    ensures r.None? ==> forall j | i <= j :: !OccursAt(s, sub, j)
    decreases |s| - i
  {
    if i + |sub| > |s| then None else if s[i..i + |sub|] == sub then Some(i) else IndexFrom(s, sub, i + 1)
  }

  function Index(s: string, sub: string): Option<nat> { IndexFrom(s, sub, 0) }

  predicate Contains(s: string, sub: string) { Index(s, sub).Some? }

  function LowerChar(c: char): char { if 'A' <= c <= 'Z' then (c as int + 32) as char else c }

  function ToLower(s: string): string { if s == "" then "" else [LowerChar(s[0])] + ToLower(s[1..]) }

  predicate EqualFold(a: string, b: string) { ToLower(a) == ToLower(b) }

  function Replace(s: string, c: char, sub: string): string {
    if s == "" then "" else (if s[0] == c then sub else [s[0]]) + Replace(s[1..], c, sub)
  }

  lemma {:induction false} ReplaceNone(s: string, c: char, sub: string)
    requires c !in s
    ensures Replace(s, c, sub) == s
    decreases |s|
  {
    if s != "" {
      assert s == [s[0]] + s[1..] && s[0] in s;
      ReplaceNone(s[1..], c, sub);
    }
  }

  function TrimLeftChars(s: string, cut: set<char>): string {
    if s != "" && s[0] in cut then TrimLeftChars(s[1..], cut) else s
  }

  function TrimRightChars(s: string, cut: set<char>): string {
    if s != "" && s[|s| - 1] in cut then TrimRightChars(s[..|s| - 1], cut) else s
  }

  function Trim(s: string, cut: set<char>): string { TrimRightChars(TrimLeftChars(s, cut), cut) }

  // ---- Decimal integers of 64 bits ----

  predicate IsDigit(c: char) { '0' <= c <= '9' }

  predicate AllDigits(s: string) { s != "" && forall c | c in s :: IsDigit(c) }

  function DigitsValue(s: string): int {
    if s == "" then 0 else 10 * DigitsValue(s[..|s| - 1]) + (s[|s| - 1] as int - '0' as int)
  }

  predicate Fits(n: int) { -0x8000_0000_0000_0000 <= n < 0x8000_0000_0000_0000 }

  /** An optional sign and digits, in range. */
  function ParseInt(s: string): Option<int> {
    var signed := s != "" && (s[0] == '-' || s[0] == '+');
    var digits := if signed then s[1..] else s;
    if !AllDigits(digits) then None
    else
      var n := if signed && s[0] == '-' then -DigitsValue(digits) else DigitsValue(digits);
      if Fits(n) then Some(n) else None
  }

  function Digits(n: nat): (s: string)
    ensures AllDigits(s)
  {
    (if n < 10 then "" else Digits(n / 10)) + [(n % 10 + '0' as int) as char]
  }

  function Decimal(n: int): string { if n < 0 then "-" + Digits(-n) else Digits(n) }

  lemma {:induction false} DigitsParse(n: nat)
    ensures DigitsValue(Digits(n)) == n
    decreases n
  {
    var front, last := if n < 10 then "" else Digits(n / 10), (n % 10 + '0' as int) as char;
    if n >= 10 { DigitsParse(n / 10); }
    OneMoreDigit(front, last);
    TenTimes(n);
  }

  lemma OneMoreDigit(front: string, last: char)
    ensures DigitsValue(front + [last]) == 10 * DigitsValue(front) + (last as int - '0' as int)
  {
    var s := front + [last];
    assert s[..|s| - 1] == front;
  }

  lemma TenTimes(n: nat)
    ensures 10 * (n / 10) + n % 10 == n
  {
  }

  lemma DecimalParses(n: int)
    requires Fits(n)
    ensures ParseInt(Decimal(n)) == Some(n)
  {
    var abs := if n < 0 then -n else n;
    DigitsParse(abs);
    ParsesSigned(Digits(abs), abs, n);
  }

  lemma ParsesSigned(digits: string, abs: int, n: int)
    requires AllDigits(digits) && DigitsValue(digits) == abs && Fits(n)
    ensures n == abs ==> ParseInt(digits) == Some(n)
    ensures n == -abs ==> ParseInt("-" + digits) == Some(n)
  {
    assert digits[0] in digits;
    assert ("-" + digits)[1..] == digits;
  }

  lemma DecimalIs(n: int)
    ensures var s := Decimal(n); s != "" && Trimmed(s) && '$' !in s
  {
    var s := Decimal(n);
    var d := Digits(if n < 0 then -n else n);
    assert d[0] in d && d[|d| - 1] in d;
    assert s[|s| - 1] == d[|d| - 1];
    assert '$' !in d;
  }
}
