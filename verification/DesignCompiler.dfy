/** The compiler and the reader as they are written: lists, maps and the set of ids seen,
    filled in loops. */
module DesignCompiler {
  import opened Workflow
  import opened Design

  method FillArgs(lib: Lib, args: seq<ArgField>) returns (m: map<string, ArgValue>)
    ensures m == CompileArgs(lib, args)
  {
    m := map[];
    var i := 0;
    while i < |args|
      invariant i <= |args| && m == CompileArgs(lib, args[..i])
    {
      var a := args[i];
      assert args[..i + 1][..i] == args[..i] && args[..i + 1][i] == a;
      if a.name != "" { m := m[a.name := CompileArgValue(lib, a)]; }
      i := i + 1;
    }
    assert args[..i] == args;
  }

  method FillAssigns(assigns: seq<AssignField>) returns (m: map<string, string>)
    ensures m == CompileAssigns(assigns)
  {
    m := map[];
    var i := 0;
    while i < |assigns|
      invariant i <= |assigns| && m == CompileAssigns(assigns[..i])
    {
      var a := assigns[i];
      assert assigns[..i + 1][..i] == assigns[..i] && assigns[..i + 1][i] == a;
      if a.name != "" { m := m[a.name := NormalizeExpr(a.expr)]; }
      i := i + 1;
    }
    assert assigns[..i] == assigns;
  }

  method CompileOne(lib: Lib, s: DesignStep) returns (r: Option<YamlStep>)
    ensures r == BuildStep(lib, s)
    decreases s, 0
  {
    var kind := KindOf(s.kind);
    match kind {
      case None => r := None;
      case Some(ToolKind) =>
        if s.tool == "" { return None; }
        var args := FillArgs(lib, s.args);
        r := Some(YamlStep(s.id, s.tool, args, map[], "", [], []));
      case Some(AssignKind) =>
        if s.assignments == [] { return None; }
        var assign := FillAssigns(s.assignments);
        r := Some(YamlStep(s.id, "", map[], assign, "", [], []));
      case Some(IfKind) =>
        if s.condition.None? { return None; }
        var cond := CompileCondition(lib, s.condition.value);
        if cond.None? { return None; }
        var thn := CompileList(lib, s.thn);
        if thn.None? { return None; }
        var els := CompileList(lib, s.els);
        if els.None? { return None; }
        r := Some(YamlStep(s.id, "", map[], map[], cond.value, thn.value, els.value));
    }
  }

  /** None as soon as a step is refused. */
  method CompileList(lib: Lib, steps: seq<DesignStep>) returns (r: Option<seq<YamlStep>>)
    ensures r == CompileSteps(lib, steps, {})
    decreases steps, 1
  {
    var out: seq<YamlStep>, seen := [], {};
    var i := 0;
    assert steps[0..] == steps;
    assert forall x: seq<YamlStep> :: out + x == x;
    while i < |steps|
      invariant i <= |steps|
      invariant var rest := CompileSteps(lib, steps[i..], seen);
        CompileSteps(lib, steps, {}) == if rest.None? then None else Some(out + rest.value)
    {
      var s := steps[i];
      assert steps[i..][0] == s && steps[i..][1..] == steps[i + 1..];
      if s.id == "" || s.id in seen { return None; }
      var y := CompileOne(lib, s);
      if y.None? { return None; }
      assert forall x: seq<YamlStep> :: out + ([y.value] + x) == out + [y.value] + x;
      seen := seen + {s.id};
      out := out + [y.value];
      i := i + 1;
    }
    assert out + [] == out;
    r := Some(out);
  }

  method ListArgs(m: map<string, ArgValue>) returns (fields: seq<ArgField>)
    ensures ReadsArgs(m, fields)
  {
    fields := [];
    var rest := m.Keys;
    while rest != {}
      invariant rest <= m.Keys
      invariant forall f | f in fields :: f.name in m && f.name !in rest && f == DecompileArg(f.name, m[f.name])
      invariant forall k | k in m && k !in rest :: DecompileArg(k, m[k]) in fields
      invariant forall i, j | 0 <= i < j < |fields| :: fields[i].name != fields[j].name
      decreases |rest|
    {
      var k :| k in rest;
      rest := rest - {k};
      assert forall i | 0 <= i < |fields| :: fields[i] in fields;
      fields := fields + [DecompileArg(k, m[k])];
    }
  }

  method ListAssigns(m: map<string, string>) returns (fields: seq<AssignField>)
    ensures ReadsAssigns(m, fields)
  {
    fields := [];
    var rest := m.Keys;
    while rest != {}
      invariant rest <= m.Keys
      invariant forall f | f in fields :: f.name in m && f.name !in rest && f.expr == m[f.name]
      invariant forall k | k in m && k !in rest :: AssignField(k, m[k]) in fields
      invariant forall i, j | 0 <= i < j < |fields| :: fields[i].name != fields[j].name
      decreases |rest|
    {
      var k :| k in rest;
      rest := rest - {k};
      assert forall i | 0 <= i < |fields| :: fields[i] in fields;
      fields := fields + [AssignField(k, m[k])];
    }
  }

  method ReadOne(lib: Lib, y: YamlStep) returns (r: Option<DesignStep>)
    requires Classified([y])
    ensures r.Some? <==> Readable(lib, y)
    ensures r.Some? ==> Reads(lib, y, r.value)
    decreases y, 1
  {
    assert y in [y];
    if y.use != "" {
      var args := ListArgs(y.args);
      return Some(DesignStep(y.id, "tool", y.use, args, [], None, [], []));
    }
    if y.assign != map[] {
      var assigns := ListAssigns(y.assign);
      return Some(DesignStep(y.id, "assign", "", [], assigns, None, [], []));
    }
    r := ReadIf(lib, y);
  }

  method ReadIf(lib: Lib, y: YamlStep) returns (r: Option<DesignStep>)
    requires y.use == "" && y.assign == map[] && y.cond != "" && Classified(y.thn) && Classified(y.els)
    ensures r.Some? <==> Readable(lib, y)
    ensures r.Some? ==> Reads(lib, y, r.value)
    decreases y, 0
  {
    var cond := ParseIfCondition(lib, y.cond);
    if cond.None? { return None; }
    var thn := ReadList(lib, y.thn);
    var els := ReadList(lib, y.els);
    r := Some(DesignStep(y.id, "if", "", [], [], cond, thn, els));
  }

  /** Steps that cannot be read are skipped with a warning. Parsing has classified them. */
  method ReadList(lib: Lib, ys: seq<YamlStep>) returns (ds: seq<DesignStep>)
    requires Classified(ys)
    ensures ReadsAll(lib, ys, ds)
    decreases ys, 1
  {
    ds := [];
    var i := 0;
    NothingRead(lib, ys);
    while i < |ys|
      invariant i <= |ys| && ReadSoFar(lib, ys, i, ds)
    {
      OneClassified(ys, ys[i]);
      var d := ReadOne(lib, ys[i]);
      ReadMore(lib, ys, i, ds, d);
      if d.Some? { ds := ds + [d.value]; }
      i := i + 1;
    }
    AllRead(lib, ys, ds);
  }

  /** Whatever the rest is read as goes after what has been read. */
  ghost predicate ReadSoFar(lib: Lib, ys: seq<YamlStep>, i: nat, ds: seq<DesignStep>)
    requires i <= |ys|
  {
    forall t :: ReadsAll(lib, ys[i..], t) ==> ReadsAll(lib, ys, ds + t)
  }

  lemma NothingRead(lib: Lib, ys: seq<YamlStep>)
    ensures ReadSoFar(lib, ys, 0, [])
  {
    assert ys[0..] == ys;
    forall t | ReadsAll(lib, ys, t) ensures ReadsAll(lib, ys, [] + t) { assert [] + t == t; }
  }

  lemma AllRead(lib: Lib, ys: seq<YamlStep>, ds: seq<DesignStep>)
    requires ReadSoFar(lib, ys, |ys|, ds)
    ensures ReadsAll(lib, ys, ds)
  {
    assert ReadsAll(lib, ys[|ys|..], []);
    assert ds + [] == ds;
  }

  lemma ReadMore(lib: Lib, ys: seq<YamlStep>, i: nat, ds: seq<DesignStep>, d: Option<DesignStep>)
    requires i < |ys| && ReadSoFar(lib, ys, i, ds)
    requires (d.Some? <==> Readable(lib, ys[i])) && (d.Some? ==> Reads(lib, ys[i], d.value))
    ensures ReadSoFar(lib, ys, i + 1, if d.Some? then ds + [d.value] else ds)
  {
    var y, rest := ys[i], ys[i + 1..];
    assert ys[i..] == [y] + rest && ([y] + rest)[1..] == rest;
    forall t | ReadsAll(lib, rest, t) ensures ReadsAll(lib, ys, (if d.Some? then ds + [d.value] else ds) + t) {
      var t' := if d.Some? then [d.value] + t else t;
      if d.Some? { assert t'[1..] == t; }
      assert ReadsAll(lib, ys[i..], t');
      assert ds + t' == (if d.Some? then ds + [d.value] else ds) + t;
    }
  }

  lemma OneClassified(ys: seq<YamlStep>, y: YamlStep)
    requires Classified(ys) && y in ys
    ensures Classified([y])
  {
  }
}
