/** The design round trip on whole step lists. */
module DesignSteps {
  import opened Workflow
  import opened Design
  import opened DesignRoundTrip
  import opened DesignConditions

  /** What a design must keep to, at every depth: arguments that are integers, booleans,
      whole tokens or text without `${`, and conditions that compile to canonical text. */
  ghost predicate GoodStep(lib: Lib, d: DesignStep)
    decreases d
  {
    match KindOf(d.kind)
    case Some(ToolKind) => forall k | k in CompileArgs(lib, d.args) :: Faithful(CompileArgs(lib, d.args)[k])
    case Some(IfKind) =>
      && GoodCondition(lib, d)
      && (forall x | x in d.thn :: GoodStep(lib, x))
      && (forall x | x in d.els :: GoodStep(lib, x))
    case _ => true
  }

  ghost predicate GoodCondition(lib: Lib, d: DesignStep) {
    d.condition.Some? ==>
      var s := CompileCondition(lib, d.condition.value); s.Some? ==> Canonical(lib, s.value)
  }

  /** No argument is a floating-point literal. */
  predicate NoFloats(lib: Lib, d: DesignStep)
    decreases d
  {
    match KindOf(d.kind)
    case Some(ToolKind) => forall k | k in CompileArgs(lib, d.args) :: !CompileArgs(lib, d.args)[k].FloatArg?
    case Some(IfKind) => (forall x | x in d.thn :: NoFloats(lib, x)) && (forall x | x in d.els :: NoFloats(lib, x))
    case _ => true
  }

  ghost predicate Sane(lib: Lib) { SaneFloats(lib) && SaneUnquote(lib) }

  lemma ArgComesBack(lib: Lib, m: map<string, ArgValue>, fields: seq<ArgField>, k: string)
    requires SaneFloats(lib) && ReadsArgs(m, fields) && CompileArgs(lib, fields) == m
    requires k in m && k != "" && Settled(lib, m[k]) && !m[k].FloatArg?
    ensures Faithful(m[k])
  {
    var i :| 0 <= i < |fields| && fields[i] == DecompileArg(k, m[k]);
    FieldAt(lib, fields, i);
    ValueReadsBack(lib, k, m[k]);
  }

  lemma ToolBack(lib: Lib, d: DesignStep, y: YamlStep, back: DesignStep)
    requires Sane(lib) && NoFloats(lib, d) && KindOf(d.kind) == Some(ToolKind)
    requires BuildStep(lib, d) == Some(y) && Reads(lib, y, back)
    ensures back.id == d.id && (BuildStep(lib, back) == Some(y) <==> GoodStep(lib, d))
  {
    WordIs("tool");
    forall k | k in y.args ensures k != "" && Settled(lib, y.args[k]) { CompiledArg(lib, d.args, k); }
    if GoodStep(lib, d) { ArgsReadBack(lib, y.args, back.args); }
    if CompileArgs(lib, back.args) == y.args {
      forall k | k in y.args ensures Faithful(y.args[k]) { ArgComesBack(lib, y.args, back.args, k); }
    }
  }

  lemma AssignBack(lib: Lib, d: DesignStep, y: YamlStep, back: DesignStep)
    requires KindOf(d.kind) == Some(AssignKind)
    requires BuildStep(lib, d) == Some(y) && y.assign != map[] && Reads(lib, y, back)
    ensures back.id == d.id && BuildStep(lib, back) == Some(y)
  {
    forall k | k in y.assign ensures k != "" && NormalizeExpr(y.assign[k]) == y.assign[k] {
      CompiledAssign(d.assignments, k);
    }
    AssignsReadBack(y.assign, back.assignments);
    assert back.assignments != [] by {
      assert y.assign.Keys != {};
      var k :| k in y.assign;
      assert AssignField(k, y.assign[k]) in back.assignments;
    }
    WordIs("assign");
  }

  lemma IfKindIs()
    ensures KindOf("if") == Some(IfKind)
  {
    WordIs("if");
  }

  lemma {:induction false} IfBack(lib: Lib, d: DesignStep, y: YamlStep, back: DesignStep)
    requires Sane(lib) && NoFloats(lib, d) && KindOf(d.kind) == Some(IfKind)
    requires BuildStep(lib, d) == Some(y) && Classified([y]) && Reads(lib, y, back)
    ensures back.id == d.id && (BuildStep(lib, back) == Some(y) <==> GoodStep(lib, d))
    decreases d, 0
  {
    ConditionRoundTrips(lib, d.condition.value);
    assert y in [y];
    StepsBack(lib, d.thn, {}, y.thn, back.thn);
    StepsBack(lib, d.els, {}, y.els, back.els);
    IfKindIs();
    IfCompiles(lib, y, back);
  }

  lemma IfCompiles(lib: Lib, y: YamlStep, back: DesignStep)
    requires y == YamlStep(y.id, "", map[], map[], y.cond, y.thn, y.els)
    requires KindOf(back.kind) == Some(IfKind) && back.id == y.id && back.condition.Some?
    ensures BuildStep(lib, back) == Some(y) <==>
      && CompileCondition(lib, back.condition.value) == Some(y.cond)
      && CompileSteps(lib, back.thn, {}) == Some(y.thn)
      && CompileSteps(lib, back.els, {}) == Some(y.els)
  {
  }

  lemma {:induction false} StepBack(lib: Lib, d: DesignStep, y: YamlStep, back: DesignStep)
    requires Sane(lib) && NoFloats(lib, d)
    requires BuildStep(lib, d) == Some(y) && Classified([y]) && Reads(lib, y, back)
    ensures back.id == d.id && (BuildStep(lib, back) == Some(y) <==> GoodStep(lib, d))
    decreases d, 1
  {
    assert y in [y];
    match KindOf(d.kind)
    case Some(ToolKind) => ToolBack(lib, d, y, back);
    case Some(AssignKind) => AssignBack(lib, d, y, back);
    case Some(IfKind) => IfBack(lib, d, y, back);
  }

  lemma StepReadable(lib: Lib, d: DesignStep, y: YamlStep)
    requires Sane(lib) && GoodStep(lib, d) && BuildStep(lib, d) == Some(y)
    ensures Readable(lib, y)
  {
    if KindOf(d.kind) == Some(IfKind) { ConditionRoundTrips(lib, d.condition.value); }
  }

  lemma {:induction false} SameLength(lib: Lib, ds: seq<DesignStep>, seen: set<string>)
    requires CompileSteps(lib, ds, seen).Some?
    ensures |CompileSteps(lib, ds, seen).value| == |ds|
    decreases |ds|
  {
    if ds != [] { SameLength(lib, ds[1..], seen + {ds[0].id}); }
  }

  lemma {:induction false} NoMoreRead(lib: Lib, ys: seq<YamlStep>, back: seq<DesignStep>)
    requires ReadsAll(lib, ys, back)
    ensures |back| <= |ys|
    decreases |ys|
  {
    if ys != [] { NoMoreRead(lib, ys[1..], if Readable(lib, ys[0]) then back[1..] else back); }
  }

  /** Steps compiled from a design and accepted by parsing, read back in any order of their
      maps and compiled again, are the same steps exactly when the design is good. */
  lemma {:induction false} StepsBack(lib: Lib, ds: seq<DesignStep>, seen: set<string>, ys: seq<YamlStep>,
                                     back: seq<DesignStep>)
    requires Sane(lib) && forall d | d in ds :: NoFloats(lib, d)
    requires CompileSteps(lib, ds, seen) == Some(ys) && Classified(ys) && ReadsAll(lib, ys, back)
    ensures CompileSteps(lib, back, seen) == Some(ys) <==> forall d | d in ds :: GoodStep(lib, d)
    decreases ds, 2
  {
    if |ds| > 0 {
      var d, y := ds[0], ys[0];
      assert d in ds && y in ys && ds == [d] + ds[1..] && ys == [y] + ys[1..];
      forall z | z in ys[1..] ensures z in ys { }
      if Readable(lib, y) {
        StepBack(lib, d, y, back[0]);
        StepsBack(lib, ds[1..], seen + {d.id}, ys[1..], back[1..]);
        ListCompiles(lib, y, ys[1..], back, seen);
      } else {
        TooFewBack(lib, ys, back, seen);
        if GoodStep(lib, d) { StepReadable(lib, d, y); }
      }
    }
  }

  /** A step that cannot be read is missing from what is compiled again. */
  lemma TooFewBack(lib: Lib, ys: seq<YamlStep>, back: seq<DesignStep>, seen: set<string>)
    requires ys != [] && !Readable(lib, ys[0]) && ReadsAll(lib, ys, back)
    ensures CompileSteps(lib, back, seen) != Some(ys)
  {
    NoMoreRead(lib, ys[1..], back);
    if CompileSteps(lib, back, seen).Some? { SameLength(lib, back, seen); }
  }

  lemma ListCompiles(lib: Lib, y: YamlStep, rest: seq<YamlStep>, back: seq<DesignStep>, seen: set<string>)
    requires back != [] && back[0].id == y.id && y.id != "" && y.id !in seen
    ensures CompileSteps(lib, back, seen) == Some([y] + rest) <==>
      BuildStep(lib, back[0]) == Some(y) && CompileSteps(lib, back[1..], seen + {y.id}) == Some(rest)
  {
    var c := CompileSteps(lib, back, seen);
    if c == Some([y] + rest) {
      assert c.value[0] == y && c.value[1..] == rest;
      var head, tail := BuildStep(lib, back[0]).value, CompileSteps(lib, back[1..], seen + {y.id}).value;
      assert c.value == [head] + tail;
      assert c.value[0] == head && c.value[1..] == tail;
    }
  }

  /** The design round trip, without floating-point arguments: it succeeds exactly for good
      designs. */
  lemma DesignRoundTripsExactly(lib: Lib, ds: seq<DesignStep>, back: seq<DesignStep>)
    requires Sane(lib) && forall d | d in ds :: NoFloats(lib, d)
    requires CompileSteps(lib, ds, {}).Some? && Classified(CompileSteps(lib, ds, {}).value)
    requires ReadsAll(lib, CompileSteps(lib, ds, {}).value, back)
    ensures CompileSteps(lib, back, {}) == CompileSteps(lib, ds, {}) <==> forall d | d in ds :: GoodStep(lib, d)
  {
    StepsBack(lib, ds, {}, CompileSteps(lib, ds, {}).value, back);
  }

  lemma {:induction false} GoodHasNoFloats(lib: Lib, d: DesignStep)
    requires GoodStep(lib, d)
    ensures NoFloats(lib, d)
    decreases d
  {
    if KindOf(d.kind) == Some(IfKind) {
      forall x | x in d.thn ensures NoFloats(lib, x) { GoodHasNoFloats(lib, x); }
      forall x | x in d.els ensures NoFloats(lib, x) { GoodHasNoFloats(lib, x); }
    }
  }

  /** Good designs always do. */
  lemma DesignRoundTrips(lib: Lib, ds: seq<DesignStep>, back: seq<DesignStep>)
    requires Sane(lib) && (forall d | d in ds :: GoodStep(lib, d))
    requires CompileSteps(lib, ds, {}).Some? && Classified(CompileSteps(lib, ds, {}).value)
    requires ReadsAll(lib, CompileSteps(lib, ds, {}).value, back)
    ensures CompileSteps(lib, back, {}) == CompileSteps(lib, ds, {})
  {
    forall d | d in ds ensures NoFloats(lib, d) { GoodHasNoFloats(lib, d); }
    DesignRoundTripsExactly(lib, ds, back);
  }

  /** Parsing takes what a design compiles to, unless an assignment step assigns nothing. */
  predicate AssignsSomething(d: DesignStep)
    decreases d
  {
    match KindOf(d.kind)
    case Some(AssignKind) => exists a :: a in d.assignments && a.name != ""
    case Some(IfKind) =>
      (forall x | x in d.thn :: AssignsSomething(x)) && (forall x | x in d.els :: AssignsSomething(x))
    case _ => true
  }

  lemma {:induction false} AssignsAny(assigns: seq<AssignField>)
    ensures CompileAssigns(assigns) == map[] <==> forall a | a in assigns :: a.name == ""
    decreases |assigns|
  {
    if assigns != [] {
      var front, a := assigns[..|assigns| - 1], assigns[|assigns| - 1];
      AssignsAny(front);
      assert assigns == front + [a];
      if a.name != "" { assert a.name in CompileAssigns(assigns); }
    }
  }

  lemma {:induction false} StepClassified(lib: Lib, d: DesignStep, y: YamlStep)
    requires BuildStep(lib, d) == Some(y)
    ensures Classified([y]) <==> AssignsSomething(d)
    decreases d, 0
  {
    assert y in [y];
    match KindOf(d.kind)
    case Some(ToolKind) =>
    case Some(AssignKind) => AssignsAny(d.assignments);
    case Some(IfKind) =>
      StepsClassified(lib, d.thn, {}, y.thn);
      StepsClassified(lib, d.els, {}, y.els);
  }

  /** Parsing accepts the compiled steps exactly when every assignment step names a
      variable. */
  lemma {:induction false} StepsClassified(lib: Lib, ds: seq<DesignStep>, seen: set<string>, ys: seq<YamlStep>)
    requires CompileSteps(lib, ds, seen) == Some(ys)
    ensures Classified(ys) <==> forall d | d in ds :: AssignsSomething(d)
    decreases ds, 1
  {
    if ds != [] {
      assert ds == [ds[0]] + ds[1..] && ys == [ys[0]] + ys[1..];
      StepClassified(lib, ds[0], ys[0]);
      StepsClassified(lib, ds[1..], seen + {ds[0].id}, ys[1..]);
      assert Classified(ys) <==> Classified([ys[0]]) && Classified(ys[1..]);
    }
  }
}
