/** Compiling a design, reading the steps back and compiling again gives the same steps. */
module DesignRoundTrip {
  import opened Workflow
  import opened Text
  import opened Design

  predicate IsOpChar(c: char) { c == '=' || c == '<' || c == '>' || c == '!' }

  predicate NoOps(s: string) { forall c | c in s :: !IsOpChar(c) }

  /** Texts of floating-point numbers: not empty, no paths, no tokens, no booleans, no
      quotes. */
  ghost predicate SaneFloats(lib: Lib) {
    forall s | lib.isFloat(s) ::
      s != "" && !IsPathLike(s) && s != "true" && s != "false" && '"' !in s && '\'' !in s && !IsExprToken(s)
  }

  // ---- Arguments ----

  /** A value that reads back as itself: text that is no token must not contain `${`. */
  predicate Faithful(v: ArgValue) {
    match v
    case StrArg(s) => Contains(s, "${") ==> IsExprToken(s)
    case FloatArg(_) => false
    case _ => true
  }

  /** What compiling can give. */
  predicate Settled(lib: Lib, v: ArgValue) {
    match v
    case StrArg(s) =>
      && Trimmed(s)
      && (IsExprToken(s) || (ParseInt(s).None? && !lib.isFloat(s) && ToLower(s) != "true" && ToLower(s) != "false"))
    case IntArg(n) => Fits(n)
    case _ => true
  }

  lemma TokenIs(s: string)
    ensures IsExprToken(Token(s)) && Trimmed(Token(s)) && TrimSpace(Token(s)) == Token(s)
    ensures Trimmed(s) ==> StripExprWrapper(Token(s)) == s
  {
    var t := Token(s);
    assert t[..2] == "${" && t[|t| - 1..] == "}" && t[2..|t| - 1] == s;
    assert t[0] == '$' && t[|t| - 1] == '}';
    TrimmedStays(t);
    if Trimmed(s) { TrimmedStays(s); }
  }

  lemma NormalizedIs(s: string)
    ensures var n := NormalizeExpr(s); Trimmed(n) && (n == "" || IsExprToken(n)) && NormalizeExpr(n) == n
  {
    var t := TrimSpace(s);
    TrimSpaceIs(s);
    TokenIs(StripExprWrapper(t));
    TrimmedStays(NormalizeExpr(s));
  }

  lemma EmptyText()
    ensures ParseInt("").None? && ToLower("") == ""
  {
  }

  lemma CompiledIsSettled(lib: Lib, a: ArgField)
    requires SaneFloats(lib)
    ensures Settled(lib, CompileArgValue(lib, a))
  {
    var v := TrimSpace(a.value);
    if EqualFold(a.valueKind, "expr") || IsExprToken(v) {
      NormalizedIs(v);
      if NormalizeExpr(v) == "" { EmptyText(); }
    } else {
      TrimSpaceIs(a.value);
    }
  }

  lemma {:induction false} LowerStays(s: string)
    requires forall c | c in s :: !('A' <= c <= 'Z')
    ensures ToLower(s) == s
    decreases |s|
  {
    if s != "" {
      assert s[0] in s && forall c | c in s[1..] :: c in s;
      LowerStays(s[1..]);
    }
  }

  lemma NoDollar(s: string)
    requires '$' !in s
    ensures !IsExprToken(s)
  {
    if |s| >= 2 { assert s[..2][0] == s[0]; }
  }

  /** A word of lower-case letters. */
  lemma WordIs(s: string)
    requires s != "" && forall c | c in s :: 'a' <= c <= 'z'
    ensures ToLower(s) == s && ParseInt(s).None? && !IsExprToken(s) && TrimSpace(s) == s
  {
    LowerStays(s);
    NoDollar(s);
    assert s[0] in s && s[|s| - 1] in s;
    TrimmedStays(s);
  }

  lemma Kinds()
    ensures EqualFold("expr", "expr") && !EqualFold("literal", "expr")
  {
    assert ToLower("literal")[0] == 'l' && ToLower("expr")[0] == 'e';
  }

  lemma ValueReadsBack(lib: Lib, name: string, v: ArgValue)
    requires SaneFloats(lib) && Settled(lib, v) && !v.FloatArg?
    ensures CompileArgValue(lib, DecompileArg(name, v)) == v <==> Faithful(v)
  {
    match v
    case IntArg(n) => NumberReadsBack(lib, name, n);
    case BoolArg(b) => BoolReadsBack(lib, name, b);
    case StrArg(s) => TextReadsBack(lib, name, s);
  }

  lemma NumberReadsBack(lib: Lib, name: string, n: int)
    requires Fits(n)
    ensures CompileArgValue(lib, DecompileArg(name, IntArg(n))) == IntArg(n)
  {
    Kinds();
    DecimalIs(n);
    DecimalParses(n);
    TrimmedStays(Decimal(n));
    NoDollar(Decimal(n));
  }

  lemma BoolReadsBack(lib: Lib, name: string, b: bool)
    requires SaneFloats(lib)
    ensures CompileArgValue(lib, DecompileArg(name, BoolArg(b))) == BoolArg(b)
  {
    Kinds();
    if b { TrueIs(); } else { FalseIs(); }
  }

  lemma TrueIs()
    ensures ToLower("true") == "true" && ParseInt("true").None? && !IsExprToken("true") && TrimSpace("true") == "true"
  {
    WordIs("true");
  }

  lemma FalseIs()
    ensures ToLower("false") == "false" != "true" && ParseInt("false").None?
    ensures !IsExprToken("false") && TrimSpace("false") == "false"
  {
    WordIs("false");
    assert |"false"| != |"true"|;
  }

  lemma TextReadsBack(lib: Lib, name: string, s: string)
    requires SaneFloats(lib) && Settled(lib, StrArg(s))
    ensures CompileArgValue(lib, DecompileArg(name, StrArg(s))) == StrArg(s) <==> Faithful(StrArg(s))
  {
    Kinds();
    TrimmedStays(s);
    NormalizedIs(s);
    if Contains(s, "${") && !IsExprToken(s) {
      assert s != "";
      TokenIs(StripExprWrapper(s));
    }
  }

  /** An argument that is no floating-point literal reads back as itself, exactly when it
      is not text with `${` inside that is no whole token. */
  lemma ArgRoundTripsExactly(lib: Lib, a: ArgField)
    requires SaneFloats(lib) && !CompileArgValue(lib, a).FloatArg?
    ensures var v := CompileArgValue(lib, a);
      CompileArgValue(lib, DecompileArg(a.name, v)) == v <==> Faithful(v)
  {
    CompiledIsSettled(lib, a);
    ValueReadsBack(lib, a.name, CompileArgValue(lib, a));
  }

  lemma {:induction false} CompiledArg(lib: Lib, args: seq<ArgField>, k: string)
    requires SaneFloats(lib) && k in CompileArgs(lib, args)
    ensures k != "" && Settled(lib, CompileArgs(lib, args)[k])
    decreases |args|
  {
    var front, a := args[..|args| - 1], args[|args| - 1];
    CompiledIsSettled(lib, a);
    if a.name == "" || k != a.name { CompiledArg(lib, front, k); }
  }

  lemma {:induction false} FieldAbsent(lib: Lib, fields: seq<ArgField>, k: string)
    requires forall f | f in fields :: f.name != k
    ensures k !in CompileArgs(lib, fields)
    decreases |fields|
  {
    if fields != [] {
      var front := fields[..|fields| - 1];
      forall f | f in front ensures f.name != k { assert f in fields; }
      FieldAbsent(lib, front, k);
    }
  }

  /** Fields with different names compile to one entry each. */
  lemma {:induction false} FieldAt(lib: Lib, fields: seq<ArgField>, i: nat)
    requires forall i, j | 0 <= i < j < |fields| :: fields[i].name != fields[j].name
    requires i < |fields| && fields[i].name != ""
    ensures var k, c := fields[i].name, CompileArgs(lib, fields); k in c && c[k] == CompileArgValue(lib, fields[i])
    decreases |fields|
  {
    if i < |fields| - 1 { FieldAt(lib, fields[..|fields| - 1], i); }
  }

  lemma ArgsReadBack(lib: Lib, m: map<string, ArgValue>, fields: seq<ArgField>)
    requires SaneFloats(lib) && ReadsArgs(m, fields)
    requires forall k | k in m :: k != "" && Settled(lib, m[k]) && Faithful(m[k])
    ensures CompileArgs(lib, fields) == m
  {
    var c := CompileArgs(lib, fields);
    forall k ensures (k in c <==> k in m) && (k in m ==> c[k] == m[k]) {
      if k in m {
        var i :| 0 <= i < |fields| && fields[i] == DecompileArg(k, m[k]);
        FieldAt(lib, fields, i);
        ValueReadsBack(lib, k, m[k]);
      } else { FieldAbsent(lib, fields, k); }
    }
  }

  // ---- Assignments ----

  lemma {:induction false} CompiledAssign(assigns: seq<AssignField>, k: string)
    requires k in CompileAssigns(assigns)
    ensures k != "" && NormalizeExpr(CompileAssigns(assigns)[k]) == CompileAssigns(assigns)[k]
    decreases |assigns|
  {
    var front, a := assigns[..|assigns| - 1], assigns[|assigns| - 1];
    NormalizedIs(a.expr);
    if a.name == "" || k != a.name { CompiledAssign(front, k); }
  }

  lemma {:induction false} AssignAbsent(fields: seq<AssignField>, k: string)
    requires forall f | f in fields :: f.name != k
    ensures k !in CompileAssigns(fields)
    decreases |fields|
  {
    if fields != [] {
      var front := fields[..|fields| - 1];
      forall f | f in front ensures f.name != k { assert f in fields; }
      AssignAbsent(front, k);
    }
  }

  lemma {:induction false} AssignAt(fields: seq<AssignField>, i: nat)
    requires forall i, j | 0 <= i < j < |fields| :: fields[i].name != fields[j].name
    requires i < |fields| && fields[i].name != ""
    ensures var k, c := fields[i].name, CompileAssigns(fields); k in c && c[k] == NormalizeExpr(fields[i].expr)
    decreases |fields|
  {
    if i < |fields| - 1 { AssignAt(fields[..|fields| - 1], i); }
  }

  lemma AssignsReadBack(m: map<string, string>, fields: seq<AssignField>)
    requires ReadsAssigns(m, fields) && forall k | k in m :: k != "" && NormalizeExpr(m[k]) == m[k]
    ensures CompileAssigns(fields) == m
  {
    var c := CompileAssigns(fields);
    forall k ensures (k in c <==> k in m) && (k in m ==> c[k] == m[k]) {
      if k in m {
        var i :| 0 <= i < |fields| && fields[i] == AssignField(k, m[k]);
        AssignAt(fields, i);
      } else { AssignAbsent(fields, k); }
    }
  }
}
