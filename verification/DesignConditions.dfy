/** Which conditions read back as they were written. */
module DesignConditions {
  import opened Workflow
  import opened Text
  import opened Design
  import opened DesignRoundTrip

  /** Unquoting drops the quotes at least, and quoting the rest again, trimmed, makes it no
      longer than it was. */
  ghost predicate SaneUnquote(lib: Lib) {
    forall s | lib.unquote(s).Some? ::
      |lib.unquote(s).value| + 2 <= |s| && |Quoted(TrimSpace(lib.unquote(s).value))| <= |s|
  }

  // ---- Operands ----

  function Again(lib: Lib, read: (string, string), preferPath: bool): string {
    FormatOperand(lib, read.0, read.1, preferPath)
  }

  /** A text in double quotes whose content u is empty, or text that must be quoted and
      is written like this again. */
  predicate Requotes(lib: Lib, s: string, u: string) {
    var v := TrimSpace(u);
    if v == "" then s == "\"\"" else !IsExprToken(v) && !IsBare(lib, v) && !IsQuoted(v) && Quoted(v) == s
  }

  /** What survives as a left side: text in double quotes that unquotes to what is quoted
      like it, or does not unquote at all; a path; a number or keyword. */
  predicate LeftSurvives(lib: Lib, s: string) {
    && s != ""
    && Trimmed(s)
    && if IsQuoted(s) then (match Unquote(lib, s) case None => true case Some(u) => Requotes(lib, s, u))
       else IsPathLike(s) || IsBare(lib, s)
  }

  /** As a right side, text in double quotes must unquote. */
  predicate RightSurvives(lib: Lib, s: string) {
    && s != ""
    && Trimmed(s)
    && if IsQuoted(s) then (match Unquote(lib, s) case None => false case Some(u) => Requotes(lib, s, u))
       else IsPathLike(s) || IsBare(lib, s)
  }

  lemma StripIsTrimmed(s: string)
    ensures Trimmed(StripExprWrapper(s))
  {
    TrimSpaceIs(s);
    var t := TrimSpace(s);
    if IsExprToken(t) && |t| > 2 { TrimSpaceIs(t[2..|t| - 1]); }
  }

  lemma NotQuoted(v: string)
    requires v != "" && '"' !in v
    ensures !IsQuoted(v)
  {
    assert v[0] in v && v[..1][0] == v[0];
  }

  lemma PathIsNotQuoted(p: string)
    requires IsPathLike(p)
    ensures p != "" && p[0] in {'i', 'v', 's'} && !IsQuoted(p) && !HasPrefix(p, "${")
  {
    if HasPrefix(p, "inputs.") { assert p[0] == p[..7][0] == 'i'; }
    else if HasPrefix(p, "vars.") { assert p[0] == p[..5][0] == 'v'; }
    else { assert p[0] == p[..6][0] == 's'; }
    assert p[..1][0] == p[0];
    if |p| >= 2 { assert p[..2][0] == p[0]; }
  }

  lemma {:induction false} TrimLeftNothing(s: string, cut: set<char>)
    requires forall c | c in s :: c !in cut
    ensures TrimLeftChars(s, cut) == s && TrimRightChars(s, cut) == s
  {
    if s != "" { assert s[0] in s && s[|s| - 1] in s; }
  }

  lemma {:induction false} LowerKeeps(s: string, i: nat)
    requires i < |s|
    ensures |ToLower(s)| == |s| && ToLower(s)[i] == LowerChar(s[i])
    decreases |s|
  {
    if i > 0 { LowerKeeps(s[1..], i - 1); }
    else if |s| > 1 { LowerKeeps(s[1..], 0); }
  }

  // ---- Lengths and parts ----

  lemma {:induction false} TrimLeftParts(s: string) returns (a: string)
    ensures s == a + TrimLeft(s)
    decreases |s|
  {
    a := "";
    if s != "" && IsSpace(s[0]) {
      a := TrimLeftParts(s[1..]);
      a := [s[0]] + a;
    }
  }

  lemma {:induction false} TrimRightParts(s: string) returns (b: string)
    ensures s == TrimRight(s) + b
    decreases |s|
  {
    b := "";
    if s != "" && IsSpace(s[|s| - 1]) {
      b := TrimRightParts(s[..|s| - 1]);
      b := b + [s[|s| - 1]];
    }
  }

  lemma TrimParts(s: string) returns (a: string, b: string)
    ensures s == a + TrimSpace(s) + b
  {
    a := TrimLeftParts(s);
    b := TrimRightParts(TrimLeft(s));
  }

  lemma {:induction false} CutLeftParts(s: string, cut: set<char>) returns (a: string)
    ensures s == a + TrimLeftChars(s, cut)
    decreases |s|
  {
    a := "";
    if s != "" && s[0] in cut {
      a := CutLeftParts(s[1..], cut);
      a := [s[0]] + a;
    }
  }

  lemma {:induction false} CutRightParts(s: string, cut: set<char>) returns (b: string)
    ensures s == TrimRightChars(s, cut) + b
    decreases |s|
  {
    b := "";
    if s != "" && s[|s| - 1] in cut {
      b := CutRightParts(s[..|s| - 1], cut);
      b := b + [s[|s| - 1]];
    }
  }

  lemma CutParts(s: string, cut: set<char>) returns (a: string, b: string)
    ensures s == a + Trim(s, cut) + b
  {
    a := CutLeftParts(s, cut);
    b := CutRightParts(TrimLeftChars(s, cut), cut);
  }

  lemma StripIsShorter(s: string)
    ensures |TrimSpace(s)| <= |s| && |StripExprWrapper(s)| <= |s|
    ensures IsExprToken(TrimSpace(s)) ==> |StripExprWrapper(s)| < |s|
  {
    var a, b := TrimParts(s);
    var t := TrimSpace(s);
    if IsExprToken(t) && |t| > 2 { var c, d := TrimParts(t[2..|t| - 1]); }
    if IsExprToken(t) { assert |t| > 2 by { assert t[1] == t[..2][1] == '{' && t[|t| - 1] == t[|t| - 1..][0] == '}'; } }
  }

  lemma {:induction false} ReplaceIsLonger(s: string, c: char, sub: string)
    requires sub != ""
    ensures |Replace(s, c, sub)| >= |s|
    decreases |s|
  {
    if s != "" { ReplaceIsLonger(s[1..], c, sub); }
  }

  /** A number or a keyword has no quotes and is no token. */
  lemma BareIs(lib: Lib, v: string)
    requires SaneFloats(lib) && IsBare(lib, v)
    ensures v != "" && '"' !in v && '\'' !in v && !IsExprToken(v) && !IsQuoted(v)
  {
    if IsKeyword(v) {
      assert v != "" by { assert ToLower("") == ""; }
      forall i | 0 <= i < |v| ensures v[i] != '"' && v[i] != '\'' && v[i] != '$' {
        LowerKeeps(v, i);
        var t := ToLower(v);
        assert t == "true" || t == "false" || t == "null" || t == "nil";
        assert 'a' <= t[i] <= 'z';
      }
      NoDollar(v);
    } else if ParseInt(v).Some? {
      assert v != "";
      forall i | 0 <= i < |v| ensures v[i] != '"' && v[i] != '\'' && v[i] != '$' {
        var digits := if v[0] == '-' || v[0] == '+' then v[1..] else v;
        if i > 0 || digits == v {
          var d := if digits == v then v[i] else v[1..][i - 1];
          assert d == v[i] && d in digits && IsDigit(d);
        }
      }
      NoDollar(v);
    }
    NotQuoted(v);
  }

  // ---- Which operands survive ----

  lemma QuotedAgain(lib: Lib, s: string, u: string, preferPath: bool)
    requires SaneUnquote(lib) && IsQuoted(s) && Unquote(lib, s) == Some(u)
    ensures FormatOperand(lib, u, "literal", preferPath) == s <==> Requotes(lib, s, u)
  {
    Kinds();
    StripIsShorter(u);
    var v := TrimSpace(u);
    TrimSpaceIs(u);
    TrimmedStays(v);
    StripIsShorter(v);
    assert |u| + 2 <= |s|;
  }

  /** Text in no double quotes and no path. */
  lemma PlainAgain(lib: Lib, s: string, u: string, preferPath: bool)
    requires SaneFloats(lib) && s != "" && Trimmed(s) && !IsQuoted(s)
    requires u == s || |u| < |s|
    ensures FormatOperand(lib, u, "literal", preferPath) == s <==> u == s && IsBare(lib, s)
  {
    Kinds();
    StripIsShorter(u);
    var v := TrimSpace(u);
    TrimmedStays(s);
    StripIsShorter(v);
    TrimSpaceIs(u);
    TrimmedStays(v);
    if IsBare(lib, s) { BareIs(lib, s); }
    if v != "" && !IsExprToken(v) && !IsBare(lib, v) && !IsQuoted(v) { QuotedEnds(v); }
    assert IsQuoted("\"\"");
  }

  lemma QuotedEnds(v: string)
    ensures IsQuoted(Quoted(v))
  {
    var q := Quoted(v);
    assert q[..1] == "\"" && q[|q| - 1..] == "\"";
  }

  lemma PathAgain(lib: Lib, s: string, preferPath: bool)
    requires IsPathLike(s) && Trimmed(s)
    ensures FormatOperand(lib, Wrapped(s), "expr", preferPath) == s
  {
    Kinds();
    PathIsNotQuoted(s);
    TokenIs(s);
  }

  lemma TrimmedOfQuotes(lib: Lib, s: string, cut: set<char>)
    requires SaneFloats(lib) && cut <= {'"', '\''}
    ensures |Trim(s, cut)| <= |s| && (IsBare(lib, s) ==> Trim(s, cut) == s)
  {
    var a, b := CutParts(s, cut);
    if IsBare(lib, s) {
      BareIs(lib, s);
      TrimLeftNothing(s, cut);
    }
  }

  lemma LeftExactly(lib: Lib, s: string)
    requires SaneFloats(lib) && SaneUnquote(lib) && Trimmed(s)
    ensures Again(lib, ReadLeft(lib, s), true) == s <==> LeftSurvives(lib, s)
  {
    if IsQuoted(s) {
      match Unquote(lib, s)
      case Some(u) => QuotedAgain(lib, s, u, true);
      case None => Unwrapped(lib, s, true);
    } else if IsPathLike(s) { PathAgain(lib, s, true); }
    else {
      var cut := {'"', '\''};
      var a, b := CutParts(s, cut);
      assert Trim(s, cut) == s || |Trim(s, cut)| < |s|;
      TrimmedOfQuotes(lib, s, cut);
      if s != "" { PlainAgain(lib, s, Trim(s, cut), true); }
    }
  }

  lemma Unwrapped(lib: Lib, s: string, preferPath: bool)
    requires IsQuoted(s) && Trimmed(s)
    ensures FormatOperand(lib, s, "expr", preferPath) == s
  {
    Kinds();
    TrimmedStays(s);
    assert s[0] == s[..1][0] == '"';
    if |s| >= 2 { assert s[..2][0] == s[0]; }
  }

  lemma RightExactly(lib: Lib, s: string)
    requires SaneFloats(lib) && SaneUnquote(lib) && Trimmed(s)
    ensures Again(lib, ReadRight(lib, s), false) == s <==> RightSurvives(lib, s)
  {
    Kinds();
    if IsQuoted(s) {
      match Unquote(lib, s)
      case Some(u) => QuotedAgain(lib, s, u, false);
      case None =>
    } else if |s| >= 2 && s[0] == '\'' && s[|s| - 1] == '\'' {
      var a, b := CutParts(s, {'\''});
      assert Trim(s, {'\''}) != s by { SingleQuotesGo(s); }
      assert s[0] in s;
      if IsBare(lib, s) { BareIs(lib, s); }
      if IsPathLike(s) { PathIsNotQuoted(s); }
      PlainAgain(lib, s, Trim(s, {'\''}), false);
    } else if IsPathLike(s) { PathAgain(lib, s, false); }
    else if s != "" { PlainAgain(lib, s, s, false); }
  }

  lemma SingleQuotesGo(s: string)
    requires |s| >= 2 && s[0] == '\''
    ensures |Trim(s, {'\''})| < |s|
  {
    var a := CutLeftParts(s[1..], {'\''});
    var b := CutRightParts(TrimLeftChars(s, {'\''}), {'\''});
  }

  // ---- The operator ----

  predicate IsOp(op: string) { op in {"==", "!=", "<", "<=", ">", ">="} }

  lemma OpIs(op: string)
    requires IsOp(op)
    ensures 1 <= |op| <= 2 && forall i | 0 <= i < |op| :: IsOpChar(op[i])
  {
  }

  /** Operator characters occur in a comparison at its operator only. */
  lemma OpCharsAt(l: string, op: string, r: string, j: nat)
    requires IsOp(op) && NoOps(l) && NoOps(r) && j < |Comparison(l, op, r)|
    ensures var k := |l| + 1;
      IsOpChar(Comparison(l, op, r)[j]) <==> k <= j < k + |op|
  {
    OpIs(op);
    var s := Comparison(l, op, r);
    if j < |l| { assert s[j] == l[j] && l[j] in l; }
    else if j == |l| { assert s[j] == ' '; }
    else if j < |l| + 1 + |op| { assert s[j] == op[j - |l| - 1]; }
    else if j == |l| + 1 + |op| { assert s[j] == ' '; }
    else { assert s[j] == r[j - |l| - |op| - 2] && r[j - |l| - |op| - 2] in r; }
  }

  lemma OpInside(l: string, op: string, r: string)
    ensures var s, k := Comparison(l, op, r), |l| + 1; k + |op| <= |s| && s[k..k + |op|] == op
  {
    assert Comparison(l, op, r) == (l + " ") + (op + (" " + r));
  }

  lemma OccursIs(l: string, op: string, r: string, sub: string, j: nat)
    requires IsOp(op) && IsOp(sub) && NoOps(l) && NoOps(r) && |sub| >= |op|
    ensures OccursAt(Comparison(l, op, r), sub, j) <==> j == |l| + 1 && sub == op
  {
    OpInside(l, op, r);
    if OccursAt(Comparison(l, op, r), sub, j) { OccursOnly(l, op, r, sub, j); }
  }

  /** An operator that occurs begins and ends inside the comparison's own. */
  lemma OccursOnly(l: string, op: string, r: string, sub: string, j: nat)
    requires IsOp(op) && IsOp(sub) && NoOps(l) && NoOps(r) && |sub| >= |op| && OccursAt(Comparison(l, op, r), sub, j)
    ensures j == |l| + 1 && |sub| == |op|
  {
    var s, last := Comparison(l, op, r), |sub| - 1;
    OpIs(op);
    OpIs(sub);
    assert s[j] == s[j..j + |sub|][0] && s[j + last] == s[j..j + |sub|][last];
    OpCharsAt(l, op, r, j);
    OpCharsAt(l, op, r, j + last);
  }

  lemma IndexIs(l: string, op: string, r: string, sub: string)
    requires IsOp(op) && IsOp(sub) && NoOps(l) && NoOps(r) && |sub| >= |op|
    ensures Index(Comparison(l, op, r), sub) == if sub == op then Some(|l| + 1) else None
  {
    var s := Comparison(l, op, r);
    OccursIs(l, op, r, sub, |l| + 1);
    if Index(s, sub).Some? { OccursIs(l, op, r, sub, Index(s, sub).value); }
  }

  /** The first operator found is the comparison's own, where it stands. */
  lemma {:induction false} FindsOp(l: string, op: string, r: string, ops: seq<(string, string)>, n: nat)
    requires IsOp(op) && NoOps(l) && NoOps(r) && n < |ops| && ops[n].0 == op
    requires forall i | 0 <= i < n :: IsOp(ops[i].0) && ops[i].0 != op && |ops[i].0| >= |op|
    ensures FindOp(Comparison(l, op, r), ops) == Some((ops[n], |l| + 1))
    decreases n
  {
    IndexIs(l, op, r, ops[0].0);
    if n > 0 { FindsOp(l, op, r, ops[1..], n - 1); }
  }

  /** The position of an operator in the order they are looked for. */
  function Position(op: string): nat
    requires IsOp(op)
  {
    if op == "==" then 0
    else if op == "!=" then 1
    else if op == "<=" then 2
    else if op == ">=" then 3
    else if op == "<" then 4
    else 5
  }

  lemma PositionIs(op: string)
    requires IsOp(op)
    ensures var n := Position(op);
      && OPS[n].0 == op
      && forall i | 0 <= i < n :: IsOp(OPS[i].0) && OPS[i].0 != op && |OPS[i].0| >= |op|
  {
  }

  lemma SymbolIsOp(op: string)
    requires OpSymbol(op).Some?
    ensures IsOp(OpSymbol(op).value)
  {
  }

  lemma KeyWord(key: string)
    requires |key| == 2 && 'a' <= key[0] <= 'z' && 'a' <= key[1] <= 'z'
    ensures ToLower(TrimSpace(key)) == key
  {
    WordIs(key);
  }

  /** A two-letter name is looked up letter by letter. */
  lemma NameMeans(key: string, op: string)
    requires (key, op) in {("eq", "=="), ("ne", "!="), ("le", "<="), ("ge", ">="), ("lt", "<"), ("gt", ">")}
    ensures OpSymbol(key) == Some(op)
  {
    var o := ToLower(TrimSpace(key));
    KeyWord(key);
    assert o[0] == key[0] && o[1] == key[1];
  }

  /** The names operators are read as stand for them. */
  lemma KeyIs(op: string)
    requires IsOp(op)
    ensures OpSymbol(OPS[Position(op)].1) == Some(op)
  {
    NameMeans(OPS[Position(op)].1, op);
  }

  // ---- The condition ----

  lemma InnerIs(l: string, op: string, r: string)
    requires l != "" && r != "" && Trimmed(l) && Trimmed(r)
    ensures StripExprWrapper(TrimSpace(Token(Comparison(l, op, r)))) == Comparison(l, op, r)
  {
    var c := Comparison(l, op, r);
    assert c[0] == l[0] && c[|c| - 1] == r[|r| - 1];
    TokenIs(c);
  }

  lemma Slices(l: string, op: string, r: string)
    requires l != "" && r != "" && Trimmed(l) && Trimmed(r)
    ensures var c, k := Comparison(l, op, r), |l| + 1;
      && k + |op| <= |c|
      && TrimSpace(c[..k]) == l && TrimSpace(c[k + |op|..]) == r
  {
    var c, k := Comparison(l, op, r), |l| + 1;
    assert c[..k] == l + " " && c[k + |op|..] == " " + r;
    TrimAround(l);
    TrimAround(r);
  }

  lemma OperatorIs(l: string, op: string, r: string)
    requires IsOp(op) && NoOps(l) && NoOps(r)
    ensures FindOp(Comparison(l, op, r), OPS) == Some((OPS[Position(op)], |l| + 1)) && OPS[Position(op)].0 == op
  {
    PositionIs(op);
    FindsOp(l, op, r, OPS, Position(op));
  }

  lemma CutAt(lib: Lib, s: string, inner: string, op: (string, string), i: nat)
    requires StripExprWrapper(TrimSpace(s)) == inner && FindOp(inner, OPS) == Some((op, i)) && i + |op.0| <= |inner|
    ensures ParseIfCondition(lib, s) == Some(ConditionAt(lib, inner, op, i))
  {
  }

  /** The operator found is one of those looked for, at its first occurrence. */
  lemma {:induction false} FoundIs(inner: string, ops: seq<(string, string)>)
    ensures FindOp(inner, ops).Some? ==>
      var (op, i) := FindOp(inner, ops).value; op in ops && Index(inner, op.0) == Some(i)
    ensures FindOp(inner, ops).None? ==> forall op | op in ops :: Index(inner, op.0).None?
    decreases |ops|
  {
    if ops != [] { FoundIs(inner, ops[1..]); }
  }

  /** A comparison that is cut at the operator it was built with, and whose sides survive. */
  predicate Survives(lib: Lib, l: string, op: string, r: string) {
    && LeftSurvives(lib, l)
    && RightSurvives(lib, r)
    && IsOp(op)
    && FindOp(Comparison(l, op, r), OPS) == Some((OPS[Position(op)], |l| + 1))
  }

  predicate RoundTrips(lib: Lib, s: string) {
    var c := ParseIfCondition(lib, s);
    c.Some? && CompileCondition(lib, c.value) == Some(s)
  }

  lemma SurvivorRoundTrips(lib: Lib, l: string, op: string, r: string)
    requires SaneFloats(lib) && SaneUnquote(lib) && Survives(lib, l, op, r)
    ensures RoundTrips(lib, Token(Comparison(l, op, r)))
  {
    PositionIs(op);
    InnerIs(l, op, r);
    Slices(l, op, r);
    CutAt(lib, Token(Comparison(l, op, r)), Comparison(l, op, r), OPS[Position(op)], |l| + 1);
    LeftExactly(lib, l);
    RightExactly(lib, r);
    KeyIs(op);
  }

  // ---- Only those round trip ----

  lemma ContainsInside(a: string, v: string, b: string, sub: string)
    requires Contains(v, sub)
    ensures Contains(a + v + b, sub)
  {
    var j := Index(v, sub).value;
    var s := a + v + b;
    assert s[|a| + j..|a| + j + |sub|] == v[j..j + |sub|];
    assert OccursAt(s, sub, |a| + j);
  }

  lemma OccursLater(a: string, b: string, sub: string, j: nat)
    requires OccursAt(a + b, sub, j) && j >= |a|
    ensures OccursAt(b, sub, j - |a|)
  {
    assert b[j - |a|..j - |a| + |sub|] == (a + b)[j..j + |sub|];
  }

  /** Escaping quotes makes no operator. */
  lemma {:induction false} EscapingMakesNoOp(v: string, op: string, j: nat)
    requires IsOp(op) && OccursAt(Replace(v, '"', "\\\""), op, j)
    ensures Contains(v, op)
    decreases |v|
  {
    OpIs(op);
    var rest := Replace(v[1..], '"', "\\\"");
    var first := if v[0] == '"' then "\\\"" else [v[0]];
    if j >= |first| {
      OccursLater(first, rest, op, j);
      EscapingMakesNoOp(v[1..], op, j - |first|);
      assert v == [v[0]] + v[1..] + "";
      ContainsInside([v[0]], v[1..], "", op);
    } else {
      StartsWithOp(v, op, j);
    }
  }

  lemma QuoteReplaced(v: string)
    requires v != ""
    ensures v[0] == '"' ==> var q := Replace(v, '"', "\\\""); |q| >= 2 && q[0] == '\\' && q[1] == '"'
  {
    if v[0] == '"' { assert Replace(v, '"', "\\\"") == "\\\"" + Replace(v[1..], '"', "\\\""); }
  }

  lemma StartsWithOp(v: string, op: string, j: nat)
    requires IsOp(op) && OccursAt(Replace(v, '"', "\\\""), op, j)
    requires v != "" && j < if v[0] == '"' then 2 else 1
    ensures Contains(v, op)
  {
    var q, r := Replace(v, '"', "\\\""), Replace(v[1..], '"', "\\\"");
    OpIs(op);
    assert q[j..j + |op|] == op;
    assert forall i | 0 <= i < |op| :: q[j + i] == op[i];
    assert q[j + 0] == op[0] && IsOpChar(q[j]);
    QuoteReplaced(v);
    assert v[0] != '"';
    assert q == [v[0]] + r && j == 0 && v[0] == op[0];
    if |op| == 2 {
      assert r[0] == q[1] == op[1] && |v| > 1;
      assert v[1] == v[1..][0] == r[0];
    }
    assert v[0..|op|] == op;
    assert OccursAt(v, op, 0);
  }

  lemma OccursEarlier(a: string, b: string, sub: string, j: nat)
    requires OccursAt(a + b, sub, j) && j + |sub| <= |a|
    ensures OccursAt(a, sub, j)
  {
    assert a[j..j + |sub|] == (a + b)[j..j + |sub|];
  }

  lemma OpCharIn(t: string, op: string, i: nat, k: nat)
    requires IsOp(op) && OccursAt(t, op, i) && i <= k < i + |op|
    ensures IsOpChar(t[k])
  {
    OpIs(op);
    assert t[k] == t[i..i + |op|][k - i];
  }

  lemma QuotingMakesNoOp(v: string, op: string)
    requires IsOp(op) && Contains(Quoted(v), op)
    ensures Contains(v, op)
  {
    var q, e := Quoted(v), Replace(v, '"', "\\\"");
    var j := Index(q, op).value;
    OpIs(op);
    OpCharIn(q, op, j, j);
    OpCharIn(q, op, j, j + |op| - 1);
    assert q == "\"" + (e + "\"") && q[0] == '"' && q[|q| - 1] == '"';
    OccursLater("\"", e + "\"", op, j);
    OccursEarlier(e, "\"", op, j - 1);
    EscapingMakesNoOp(v, op, j - 1);
  }

  /** What is formatted from one side contains no operator that the side does not, unless
      it is no longer than the side. */
  lemma FormatMakesNoOp(lib: Lib, u: string, preferPath: bool, op: string)
    requires IsOp(op) && Contains(FormatOperand(lib, u, "literal", preferPath), op)
    ensures Contains(u, op) || |FormatOperand(lib, u, "literal", preferPath)| <= |u|
  {
    Kinds();
    var v := TrimSpace(u);
    StripIsShorter(u);
    StripIsShorter(v);
    if v == "" { NoOpThere("\"\"", op); }
    else if FormatOperand(lib, u, "literal", preferPath) == Quoted(v) {
      QuotingMakesNoOp(v, op);
      var a, b := TrimParts(u);
      ContainsInside(a, v, b, op);
    }
  }

  lemma NoOpThere(s: string, op: string)
    requires IsOp(op) && NoOps(s)
    ensures !Contains(s, op)
  {
    OpIs(op);
    forall j | 0 <= j ensures !OccursAt(s, op, j) {
      if j + |op| <= |s| { assert s[j] in s && s[j..j + |op|][0] == s[j]; }
    }
  }

  lemma LeftMakesNoOp(lib: Lib, s: string, op: string)
    requires SaneFloats(lib) && SaneUnquote(lib) && Trimmed(s) && IsOp(op)
    requires Contains(Again(lib, ReadLeft(lib, s), true), op)
    ensures Contains(s, op) || |Again(lib, ReadLeft(lib, s), true)| <= |s|
  {
    if IsQuoted(s) {
      match Unquote(lib, s)
      case Some(u) => QuotedIsNoLonger(lib, s, u, true, op);
      case None => Unwrapped(lib, s, true);
    } else if IsPathLike(s) { PathAgain(lib, s, true); }
    else {
      var cut := {'"', '\''};
      FormatMakesNoOp(lib, Trim(s, cut), true, op);
      var a, b := CutParts(s, cut);
      if Contains(Trim(s, cut), op) { ContainsInside(a, Trim(s, cut), b, op); }
    }
  }

  lemma QuotedIsNoLonger(lib: Lib, s: string, u: string, preferPath: bool, op: string)
    requires SaneUnquote(lib) && IsQuoted(s) && Unquote(lib, s) == Some(u)
    ensures |FormatOperand(lib, u, "literal", preferPath)| <= |s|
  {
    Kinds();
    var v := TrimSpace(u);
    StripIsShorter(u);
    StripIsShorter(v);
    var t := s[1..|s| - 1];
    if '"' !in t && '\\' !in t && '\n' !in t {
      var a, b := TrimParts(u);
      assert forall c | c in v :: c in a + v + b;
      ReplaceNone(v, '"', "\\\"");
    }
  }

  /** The comparison of two sides, without the spaces an empty side leaves. */
  function Joined(f: string, op: string, g: string): string {
    (if f == "" then "" else f + " ") + op + if g == "" then "" else " " + g
  }

  lemma JoinedIsTrimmed(f: string, op: string, g: string)
    requires IsOp(op) && Trimmed(f) && Trimmed(g)
    ensures Joined(f, op, g) != "" && Trimmed(Joined(f, op, g))
  {
    OpIs(op);
    var t := Joined(f, op, g);
    assert t[0] == if f == "" then op[0] else f[0];
    assert t[|t| - 1] == if g == "" then op[|op| - 1] else g[|g| - 1];
  }

  lemma InnerOf(f: string, op: string, g: string)
    requires IsOp(op) && Trimmed(f) && Trimmed(g)
    ensures TrimSpace(Comparison(f, op, g)) == Joined(f, op, g)
  {
    var t, c := Joined(f, op, g), Comparison(f, op, g);
    JoinedIsTrimmed(f, op, g);
    if f != "" && g != "" { TrimmedStays(c); }
    else if f != "" { assert c == t + " "; TrimAround(t); }
    else if g != "" { assert c == " " + t; TrimAround(t); }
    else { assert c == " " + t + " "; TrimBothSides(t); }
  }

  lemma TrimBothSides(t: string)
    requires Trimmed(t) && t != ""
    ensures TrimSpace(" " + t + " ") == t
  {
    var c := " " + t + " ";
    assert c[1..] == t + " " && c[0] == ' ';
    assert TrimLeft(c) == TrimLeft(t + " ");
    TrimAround(t);
  }

  lemma FormattedIsTrimmed(lib: Lib, value: string, kind: string, preferPath: bool)
    ensures Trimmed(FormatOperand(lib, value, kind, preferPath))
  {
    TrimSpaceIs(value);
    StripIsTrimmed(TrimSpace(value));
  }

  lemma OpWithin(f: string, op: string, tail: string, i: nat)
    requires IsOp(op) && OccursAt(f + " " + op + tail, op, i) && i <= |f|
    ensures OccursAt(f, op, i)
  {
    var t := f + " " + op + tail;
    forall k: nat | i <= k < i + |op| ensures IsOpChar(t[k]) { OpCharIn(t, op, i, k); }
    assert !IsOpChar(t[|f|]);
    assert f[i..i + |op|] == t[i..i + |op|];
  }

  lemma NoneBefore(t: string, op: string, i: nat)
    requires IsOp(op) && Index(t, op) == Some(i)
    ensures !Contains(TrimSpace(t[..i]), op)
  {
    OpIs(op);
    var a, b := TrimParts(t[..i]);
    forall j: nat ensures OccursAt(t[..i], op, j) ==> j + |op| <= i && OccursAt(t, op, j) {
      if j + |op| <= i { assert t[j..j + |op|] == t[..i][j..j + |op|]; }
    }
    if Contains(TrimSpace(t[..i]), op) { ContainsInside(a, TrimSpace(t[..i]), b, op); }
  }

  /** Text built from f is cut right after f, unless what is before the cut has grown to f
      by getting an operator. */
  lemma FirstCut(t: string, f: string, op: string, tail: string, i: nat)
    requires IsOp(op) && f != "" && t == f + " " + op + tail && Index(t, op) == Some(i)
    requires Contains(f, op) ==> Contains(TrimSpace(t[..i]), op) || |f| <= |TrimSpace(t[..i])|
    ensures i == |f| + 1
  {
    OpIs(op);
    assert t[|f| + 1..|f| + 1 + |op|] == op;
    assert OccursAt(t, op, |f| + 1);
    NoneBefore(t, op, i);
    StripIsShorter(t[..i]);
    OpCharIn(t, op, i, i);
    assert !IsOpChar(t[|f|]);
    if i < |f| { OpWithin(f, op, tail, i); }
  }

  lemma AtOnce(op: string, tail: string)
    requires IsOp(op)
    ensures Index(op + tail, op) == Some(0)
  {
    assert (op + tail)[0..0 + |op|] == op;
    assert OccursAt(op + tail, op, 0);
  }

  lemma CutOff(t: string, f: string, op: string, g: string)
    requires f != "" && Trimmed(f) && Trimmed(g) && t == f + " " + op + if g == "" then "" else " " + g
    ensures TrimSpace(t[..|f| + 1]) == f && TrimSpace(t[|f| + 1 + |op|..]) == g
  {
    assert t[..|f| + 1] == f + " ";
    TrimAround(f);
    if g == "" { assert t[|f| + 1 + |op|..] == ""; }
    else {
      assert t[|f| + 1 + |op|..] == " " + g;
      TrimAround(g);
    }
  }

  lemma OpOf(op: (string, string))
    requires op in OPS
    ensures IsOp(op.0) && op == OPS[Position(op.0)] && OpSymbol(op.1) == Some(op.0)
  {
    KeyIs(op.0);
  }

  /** A text cut at i, with what was read from its sides formatted again. */
  function Recompiled(lib: Lib, inner: string, op: string, i: nat): string
    requires i + |op| <= |inner|
  {
    Comparison(Again(lib, ReadLeft(lib, TrimSpace(inner[..i])), true), op,
               Again(lib, ReadRight(lib, TrimSpace(inner[i + |op|..])), false))
  }

  lemma CompilesTo(lib: Lib, inner: string, o: (string, string), i: nat)
    requires o in OPS && i + |o.0| <= |inner|
    ensures CompileCondition(lib, ConditionAt(lib, inner, o, i)) == Some(Token(Recompiled(lib, inner, o.0, i)))
  {
    OpOf(o);
  }

  /** Where a text that compiles again is cut. */
  lemma CutOfRoundTrip(lib: Lib, c: string) returns (o: (string, string), i: nat)
    requires RoundTrips(lib, Token(c))
    ensures var inner := TrimSpace(c);
      && o in OPS && i + |o.0| <= |inner| && Index(inner, o.0) == Some(i)
      && FindOp(inner, OPS) == Some((o, i)) && c == Recompiled(lib, inner, o.0, i)
  {
    var inner := TrimSpace(c);
    TokenIs(c);
    assert Token(c)[2..|Token(c)| - 1] == c;
    FoundIs(inner, OPS);
    o, i := FindOp(inner, OPS).value.0, FindOp(inner, OPS).value.1;
    CutAt(lib, Token(c), inner, o, i);
    CompilesTo(lib, inner, o, i);
    SameText(c, Recompiled(lib, inner, o.0, i));
  }

  lemma SameText(c: string, d: string)
    requires Token(c) == Token(d)
    ensures c == d
  {
    assert Token(c)[2..|Token(c)| - 1] == c && Token(d)[2..|Token(d)| - 1] == d;
  }

  lemma SidesAre(lib: Lib, c: string, inner: string, f: string, op: string, g: string, i: nat)
    requires SaneFloats(lib) && SaneUnquote(lib) && IsOp(op)
    requires c == Comparison(f, op, g) && inner == TrimSpace(c) && Index(inner, op) == Some(i)
    requires f == Again(lib, ReadLeft(lib, TrimSpace(inner[..i])), true)
    requires g == Again(lib, ReadRight(lib, TrimSpace(inner[i + |op|..])), false)
    ensures i == |f| + 1 && f == TrimSpace(inner[..i]) && g == TrimSpace(inner[i + |op|..])
    ensures LeftSurvives(lib, f) && RightSurvives(lib, g) && inner == c
  {
    var l, r := TrimSpace(inner[..i]), TrimSpace(inner[i + |op|..]);
    FormattedIsTrimmed(lib, ReadLeft(lib, l).0, ReadLeft(lib, l).1, true);
    FormattedIsTrimmed(lib, ReadRight(lib, r).0, ReadRight(lib, r).1, false);
    TrimSpaceIs(inner[..i]);
    TrimSpaceIs(inner[i + |op|..]);
    LeftExactly(lib, l);
    RightExactly(lib, r);
    InnerOf(f, op, g);
    if f == "" { AtOnce(op, if g == "" then "" else " " + g); }
    else {
      if Contains(f, op) { LeftMakesNoOp(lib, l, op); }
      FirstCut(inner, f, op, if g == "" then "" else " " + g, i);
      CutOff(inner, f, op, g);
    }
  }

  lemma CutIsCanonical(lib: Lib, c: string, op: string, i: nat) returns (l: string, r: string)
    requires SaneFloats(lib) && SaneUnquote(lib) && IsOp(op)
    requires Index(TrimSpace(c), op) == Some(i) && c == Recompiled(lib, TrimSpace(c), op, i)
    ensures TrimSpace(c) == c && i == |l| + 1 && c == Comparison(l, op, r)
    ensures LeftSurvives(lib, l) && RightSurvives(lib, r)
  {
    var inner := TrimSpace(c);
    l := Again(lib, ReadLeft(lib, TrimSpace(inner[..i])), true);
    r := Again(lib, ReadRight(lib, TrimSpace(inner[i + |op|..])), false);
    SidesAre(lib, c, inner, l, op, r, i);
  }

  lemma SurvivesAt(lib: Lib, c: string, l: string, o: (string, string), r: string, i: nat)
    requires IsOp(o.0) && o == OPS[Position(o.0)] && c == Comparison(l, o.0, r)
    requires LeftSurvives(lib, l) && RightSurvives(lib, r) && FindOp(c, OPS) == Some((o, i)) && i == |l| + 1
    ensures Survives(lib, l, o.0, r)
  {
  }

  /** What compiles again to the text it was read from is the comparison it was cut into. */
  lemma RoundTripIsCanonical(lib: Lib, c: string) returns (l: string, op: string, r: string)
    requires SaneFloats(lib) && SaneUnquote(lib) && RoundTrips(lib, Token(c))
    ensures c == Comparison(l, op, r) && Survives(lib, l, op, r)
  {
    var o, i := CutOfRoundTrip(lib, c);
    OpOf(o);
    op := o.0;
    l, r := CutIsCanonical(lib, c, op, i);
    SurvivesAt(lib, c, l, o, r, i);
  }

  ghost predicate Canonical(lib: Lib, s: string) {
    exists l, op, r :: s == Token(Comparison(l, op, r)) && Survives(lib, l, op, r)
  }

  /** What a condition is formatted as. */
  function Sides(lib: Lib, c: Condition): (string, string) {
    (FormatOperand(lib, c.left, c.leftKind, true), FormatOperand(lib, c.right, c.rightKind, false))
  }

  /** A condition is read back and compiles to the same text again exactly when that text,
      cut at the operator that is looked for first, has sides that survive, each one space
      from the operator. */
  lemma ConditionRoundTrips(lib: Lib, c: Condition)
    requires SaneFloats(lib) && SaneUnquote(lib) && CompileCondition(lib, c).Some?
    ensures RoundTrips(lib, CompileCondition(lib, c).value) <==> Canonical(lib, CompileCondition(lib, c).value)
  {
    var s := CompileCondition(lib, c).value;
    if l, op, r :| s == Token(Comparison(l, op, r)) && Survives(lib, l, op, r) { SurvivorRoundTrips(lib, l, op, r); }
    if RoundTrips(lib, s) {
      var (f, g) := Sides(lib, c);
      var l, op, r := RoundTripIsCanonical(lib, Comparison(f, OpSymbol(c.op).value, g));
    }
  }

  /** Without operator characters in its sides, a condition round trips exactly when both
      sides survive. */
  lemma SidesDecide(lib: Lib, c: Condition)
    requires SaneFloats(lib) && SaneUnquote(lib) && CompileCondition(lib, c).Some?
    requires NoOps(Sides(lib, c).0) && NoOps(Sides(lib, c).1)
    ensures RoundTrips(lib, CompileCondition(lib, c).value) <==>
      LeftSurvives(lib, Sides(lib, c).0) && RightSurvives(lib, Sides(lib, c).1)
  {
    var (f, g) := Sides(lib, c);
    var o := OpSymbol(c.op).value;
    SymbolIsOp(c.op);
    OperatorIs(f, o, g);
    if LeftSurvives(lib, f) && RightSurvives(lib, g) { SurvivorRoundTrips(lib, f, o, g); }
    if RoundTrips(lib, Token(Comparison(f, o, g))) {
      var l, op, r := RoundTripIsCanonical(lib, Comparison(f, o, g));
      FoundOnce(lib, f, o, g, l, op, r);
    }
  }

  lemma FoundOnce(lib: Lib, f: string, o: string, g: string, l: string, op: string, r: string)
    requires IsOp(o) && FindOp(Comparison(f, o, g), OPS) == Some((OPS[Position(o)], |f| + 1))
    requires Comparison(f, o, g) == Comparison(l, op, r) && Survives(lib, l, op, r)
    ensures f == l && g == r
  {
    PositionIs(o);
    PositionIs(op);
    SameCut(f, o, g, l, op, r);
  }

  lemma SameCut(f: string, o: string, g: string, l: string, op: string, r: string)
    requires Comparison(f, o, g) == Comparison(l, op, r) && |f| == |l| && |o| == |op|
    ensures f == l && g == r
  {
    var c, n := Comparison(f, o, g), |f| + |o| + 2;
    assert c[..|f|] == f && c[..|l|] == l;
    assert c[n..] == g && Comparison(l, op, r)[n..] == r;
  }

  // ---- What a user may write ----

  predicate IsPathOperand(value: string, kind: string, preferPath: bool) {
    var v := TrimSpace(value);
    EqualFold(kind, "expr") || IsExprToken(v) || (preferPath && kind == "" && IsPathLike(StripExprWrapper(v)))
  }

  /** A path, or a literal; without operator characters; a literal also without double
      quotes, backslashes and line breaks. */
  predicate GoodOperand(value: string, kind: string, preferPath: bool) {
    var v := TrimSpace(value);
    if v == "" then true
    else if IsPathOperand(value, kind, preferPath) then IsPathLike(StripExprWrapper(v)) && NoOps(StripExprWrapper(v))
    else NoOps(v) && '"' !in v && '\\' !in v && '\n' !in v
  }

  lemma QuotedIs(lib: Lib, v: string)
    requires '"' !in v && '\\' !in v && '\n' !in v
    ensures IsQuoted("\"" + v + "\"") && Unquote(lib, "\"" + v + "\"") == Some(v)
  {
    var s := "\"" + v + "\"";
    assert s[..1] == "\"" && s[|s| - 1..] == "\"" && s[1..|s| - 1] == v;
  }

  lemma PathSurvives(lib: Lib, p: string)
    requires IsPathLike(p) && Trimmed(p)
    ensures LeftSurvives(lib, p) && RightSurvives(lib, p)
  {
    PathIsNotQuoted(p);
  }

  lemma LiteralSurvives(lib: Lib, v: string)
    requires SaneFloats(lib) && v != "" && Trimmed(v) && !IsExprToken(v) && '"' !in v && '\\' !in v && '\n' !in v
    ensures var s := if IsBare(lib, v) then v else "\"" + v + "\""; LeftSurvives(lib, s) && RightSurvives(lib, s)
  {
    NotQuoted(v);
    if !IsBare(lib, v) {
      var s := "\"" + v + "\"";
      ReplaceNone(v, '"', "\\\"");
      QuotedIs(lib, v);
      TrimmedStays(v);
      assert Requotes(lib, s, v);
      assert s[0] == '"' && s[|s| - 1] == '"';
    }
  }

  lemma GoodSurvives(lib: Lib, value: string, kind: string, preferPath: bool)
    requires SaneFloats(lib) && GoodOperand(value, kind, preferPath)
    ensures var s := FormatOperand(lib, value, kind, preferPath);
      NoOps(s) && LeftSurvives(lib, s) && RightSurvives(lib, s)
  {
    var v := TrimSpace(value);
    TrimSpaceIs(value);
    if v == "" {
      QuotedIs(lib, "");
      assert "\"" + "" + "\"" == "\"\"";
    } else if IsPathOperand(value, kind, preferPath) {
      StripIsTrimmed(v);
      PathSurvives(lib, StripExprWrapper(v));
    } else {
      LiteralSurvives(lib, v);
      NotQuoted(v);
      ReplaceNone(v, '"', "\\\"");
    }
  }

  /** Paths and literals without such characters always do. */
  lemma GoodConditionRoundTrips(lib: Lib, c: Condition)
    requires SaneFloats(lib) && SaneUnquote(lib) && CompileCondition(lib, c).Some?
    requires GoodOperand(c.left, c.leftKind, true) && GoodOperand(c.right, c.rightKind, false)
    ensures RoundTrips(lib, CompileCondition(lib, c).value)
  {
    GoodSurvives(lib, c.left, c.leftKind, true);
    GoodSurvives(lib, c.right, c.rightKind, false);
    SidesDecide(lib, c);
  }
}
