/** What a design compiles to, said without the compiler: which designs are accepted, and
    which steps they stand for. */
module DesignMeaning {
  import opened Workflow
  import opened Text
  import opened Design

  /** The field at i is the last of its name. */
  predicate LastArg(args: seq<ArgField>, i: nat)
    requires i < |args|
  {
    forall j | i < j < |args| :: args[j].name != args[i].name
  }

  /** One entry for each name given, with the value of the last field of that name. */
  predicate ArgsMean(lib: Lib, args: seq<ArgField>, m: map<string, ArgValue>) {
    && (forall k | k in m :: k != "" && exists i :: 0 <= i < |args| && args[i].name == k)
    && forall i | 0 <= i < |args| && args[i].name != "" && LastArg(args, i) ::
      args[i].name in m && m[args[i].name] == CompileArgValue(lib, args[i])
  }

  predicate LastAssign(assigns: seq<AssignField>, i: nat)
    requires i < |assigns|
  {
    forall j | i < j < |assigns| :: assigns[j].name != assigns[i].name
  }

  predicate AssignsMean(assigns: seq<AssignField>, m: map<string, string>) {
    && (forall k | k in m :: k != "" && exists i :: 0 <= i < |assigns| && assigns[i].name == k)
    && forall i | 0 <= i < |assigns| && assigns[i].name != "" && LastAssign(assigns, i) ::
      assigns[i].name in m && m[assigns[i].name] == NormalizeExpr(assigns[i].expr)
  }

  /** The operators, by name or by symbol. */
  predicate OpMeans(op: string, symbol: string) {
    (ToLower(TrimSpace(op)), symbol) in {
      ("eq", "=="), ("ne", "!="), ("lt", "<"), ("le", "<="), ("gt", ">"), ("ge", ">="),
      ("==", "=="), ("!=", "!="), ("<", "<"), ("<=", "<="), (">", ">"), (">=", ">=")}
  }

  predicate ConditionMeans(lib: Lib, c: Condition, text: string) {
    exists symbol | symbol in {"==", "!=", "<", "<=", ">", ">="} ::
      && OpMeans(c.op, symbol)
      && text == "${" + FormatOperand(lib, c.left, c.leftKind, true) + " " + symbol + " "
                 + FormatOperand(lib, c.right, c.rightKind, false) + "}"
  }

  predicate IsKind(d: DesignStep, kind: string) {
    ToLower(TrimSpace(d.kind)) == kind || (kind == "tool" && ToLower(TrimSpace(d.kind)) == "")
  }

  /** The step a design step stands for: its id, and its kind's fields and no others. */
  predicate StepMeans(lib: Lib, d: DesignStep, y: YamlStep)
    decreases d, 0
  {
    && y.id == d.id
    && (if y.use != "" then IsKind(d, "tool") && y.use == d.tool && ArgsMean(lib, d.args, y.args) else y.args == map[])
    && (y.use == "" && y.cond == "" ==>
          IsKind(d, "assign") && d.assignments != [] && AssignsMean(d.assignments, y.assign))
    && (if y.cond != "" then
          && y.use == "" && IsKind(d, "if") && d.condition.Some? && ConditionMeans(lib, d.condition.value, y.cond)
          && ListMeans(lib, d.thn, y.thn) && ListMeans(lib, d.els, y.els)
        else y.thn == [] && y.els == [])
    && (y.use != "" || y.cond != "" ==> y.assign == map[])
  }

  /** Every step has an id, no two the same. */
  predicate Named(ds: seq<DesignStep>) {
    forall i | 0 <= i < |ds| :: ds[i].id != "" && forall j | 0 <= j < i :: ds[j].id != ds[i].id
  }

  predicate ListMeans(lib: Lib, ds: seq<DesignStep>, ys: seq<YamlStep>)
    decreases ds, 1
  {
    && |ys| == |ds| && Named(ds)
    && forall i | 0 <= i < |ds| :: StepMeans(lib, ds[i], ys[i])
  }

  lemma {:induction false} ArgsExactly(lib: Lib, args: seq<ArgField>, m: map<string, ArgValue>)
    ensures CompileArgs(lib, args) == m <==> ArgsMean(lib, args, m)
    decreases |args|
  {
    ArgsCompiled(lib, args);
    var c := CompileArgs(lib, args);
    if ArgsMean(lib, args, m) {
      forall k ensures (k in c <==> k in m) && (k in c ==> c[k] == m[k]) {
        if k in c || k in m { var i := LastNamed(args, k); }
      }
      assert c == m;
    }
  }

  /** The last field of a name that occurs. */
  lemma {:induction false} LastNamed(args: seq<ArgField>, k: string) returns (i: nat)
    requires exists i :: 0 <= i < |args| && args[i].name == k
    ensures i < |args| && args[i].name == k && LastArg(args, i)
    decreases |args|
  {
    var n := |args| - 1;
    if args[n].name == k { i := n; }
    else {
      assert exists j :: 0 <= j < |args[..n]| && args[..n][j].name == k by {
        var j :| 0 <= j < |args| && args[j].name == k;
        assert args[..n][j].name == k;
      }
      i := LastNamed(args[..n], k);
    }
  }

  lemma {:induction false} ArgsCompiled(lib: Lib, args: seq<ArgField>)
    ensures ArgsMean(lib, args, CompileArgs(lib, args))
    decreases |args|
  {
    var m := CompileArgs(lib, args);
    if |args| > 0 {
      var front, a := args[..|args| - 1], args[|args| - 1];
      ArgsCompiled(lib, front);
      forall k | k in m ensures k != "" && exists i :: 0 <= i < |args| && args[i].name == k {
        if k == a.name { assert args[|args| - 1].name == k; }
        else { EarlierArg(args, k); }
      }
      forall i | 0 <= i < |front| && args[i].name != "" && LastArg(args, i)
        ensures args[i].name in m && m[args[i].name] == CompileArgValue(lib, args[i])
      {
        LastBefore(args, i);
        assert front[i] == args[i];
      }
    }
  }

  /** The last of its name but not of all: so it is without the last field, too. */
  lemma LastBefore(args: seq<ArgField>, i: nat)
    requires i < |args| - 1 && LastArg(args, i)
    ensures args[i].name != args[|args| - 1].name && LastArg(args[..|args| - 1], i)
  {
  }

  lemma EarlierArg(args: seq<ArgField>, k: string)
    requires |args| > 0 && var front := args[..|args| - 1]; exists i :: 0 <= i < |front| && front[i].name == k
    ensures exists i :: 0 <= i < |args| && args[i].name == k
  {
    var i :| 0 <= i < |args| - 1 && args[..|args| - 1][i].name == k;
    assert args[i].name == k;
  }

  lemma {:induction false} AssignsExactly(assigns: seq<AssignField>, m: map<string, string>)
    ensures CompileAssigns(assigns) == m <==> AssignsMean(assigns, m)
    decreases |assigns|
  {
    AssignsCompiled(assigns);
    var c := CompileAssigns(assigns);
    if AssignsMean(assigns, m) {
      forall k ensures (k in c <==> k in m) && (k in c ==> c[k] == m[k]) {
        if k in c || k in m { var i := LastAssigned(assigns, k); }
      }
      assert c == m;
    }
  }

  lemma {:induction false} LastAssigned(assigns: seq<AssignField>, k: string) returns (i: nat)
    requires exists i :: 0 <= i < |assigns| && assigns[i].name == k
    ensures i < |assigns| && assigns[i].name == k && LastAssign(assigns, i)
    decreases |assigns|
  {
    var n := |assigns| - 1;
    if assigns[n].name == k { i := n; }
    else {
      assert exists j :: 0 <= j < |assigns[..n]| && assigns[..n][j].name == k by {
        var j :| 0 <= j < |assigns| && assigns[j].name == k;
        assert assigns[..n][j].name == k;
      }
      i := LastAssigned(assigns[..n], k);
    }
  }

  lemma {:induction false} AssignsCompiled(assigns: seq<AssignField>)
    ensures AssignsMean(assigns, CompileAssigns(assigns))
    decreases |assigns|
  {
    var m := CompileAssigns(assigns);
    if |assigns| > 0 {
      var front, a := assigns[..|assigns| - 1], assigns[|assigns| - 1];
      AssignsCompiled(front);
      forall k | k in m ensures k != "" && exists i :: 0 <= i < |assigns| && assigns[i].name == k {
        if k == a.name { assert assigns[|assigns| - 1].name == k; }
        else { EarlierAssign(assigns, k); }
      }
      forall i | 0 <= i < |front| && assigns[i].name != "" && LastAssign(assigns, i)
        ensures assigns[i].name in m && m[assigns[i].name] == NormalizeExpr(assigns[i].expr)
      {
        assert front[i] == assigns[i] && assigns[i].name != a.name && LastAssign(front, i);
      }
    }
  }

  lemma EarlierAssign(assigns: seq<AssignField>, k: string)
    requires |assigns| > 0 && var front := assigns[..|assigns| - 1]; exists i :: 0 <= i < |front| && front[i].name == k
    ensures exists i :: 0 <= i < |assigns| && assigns[i].name == k
  {
    var i :| 0 <= i < |assigns| - 1 && assigns[..|assigns| - 1][i].name == k;
    assert assigns[i].name == k;
  }

  lemma ConditionExactly(lib: Lib, c: Condition, text: string)
    ensures CompileCondition(lib, c) == Some(text) <==> ConditionMeans(lib, c, text)
    ensures CompileCondition(lib, c) == Some(text) ==> text != ""
  {
    OpExactly(c.op);
    var l, r := FormatOperand(lib, c.left, c.leftKind, true), FormatOperand(lib, c.right, c.rightKind, false);
    forall symbol ensures Token(Comparison(l, symbol, r)) == "${" + l + " " + symbol + " " + r + "}" {
      assert "${" + (l + " " + symbol + " " + r) + "}" == "${" + l + " " + symbol + " " + r + "}";
    }
  }

  lemma OpExactly(op: string)
    ensures forall symbol | symbol in {"==", "!=", "<", "<=", ">", ">="} ::
      OpSymbol(op) == Some(symbol) <==> OpMeans(op, symbol)
    ensures OpSymbol(op).Some? ==> OpSymbol(op).value in {"==", "!=", "<", "<=", ">", ">="}
  {
  }

  lemma KindExactly(d: DesignStep)
    ensures KindOf(d.kind) == Some(ToolKind) <==> IsKind(d, "tool")
    ensures KindOf(d.kind) == Some(AssignKind) <==> IsKind(d, "assign")
    ensures KindOf(d.kind) == Some(IfKind) <==> IsKind(d, "if")
  {
  }

  lemma ToolExactly(lib: Lib, d: DesignStep, y: YamlStep)
    requires IsKind(d, "tool")
    ensures BuildStep(lib, d) == Some(y) <==> StepMeans(lib, d, y)
  {
    KindExactly(d);
    ArgsExactly(lib, d.args, y.args);
  }

  lemma AssignExactly(lib: Lib, d: DesignStep, y: YamlStep)
    requires IsKind(d, "assign")
    ensures BuildStep(lib, d) == Some(y) <==> StepMeans(lib, d, y)
  {
    KindExactly(d);
    AssignsExactly(d.assignments, y.assign);
  }

  lemma {:induction false} IfExactly(lib: Lib, d: DesignStep, y: YamlStep)
    requires IsKind(d, "if")
    ensures BuildStep(lib, d) == Some(y) <==> StepMeans(lib, d, y)
    decreases d, 0
  {
    KindExactly(d);
    if d.condition.Some? {
      ConditionExactly(lib, d.condition.value, y.cond);
      ListExactly(lib, d.thn, {}, y.thn);
      ListExactly(lib, d.els, {}, y.els);
      IfCompiled(lib, d, y);
    }
  }

  lemma IfCompiled(lib: Lib, d: DesignStep, y: YamlStep)
    requires KindOf(d.kind) == Some(IfKind) && d.condition.Some?
    ensures BuildStep(lib, d) == Some(y) <==>
      && CompileCondition(lib, d.condition.value) == Some(y.cond)
      && CompileSteps(lib, d.thn, {}) == Some(y.thn) && CompileSteps(lib, d.els, {}) == Some(y.els)
      && y == YamlStep(d.id, "", map[], map[], y.cond, y.thn, y.els)
  {
  }

  lemma {:induction false} StepExactly(lib: Lib, d: DesignStep, y: YamlStep)
    ensures BuildStep(lib, d) == Some(y) <==> StepMeans(lib, d, y)
    decreases d, 1
  {
    KindExactly(d);
    if IsKind(d, "tool") { ToolExactly(lib, d, y); }
    else if IsKind(d, "assign") { AssignExactly(lib, d, y); }
    else if IsKind(d, "if") { IfExactly(lib, d, y); }
  }

  /** Compiling accepts a design and gives these steps exactly when they are what the
      design stands for. */
  lemma CompiledExactly(lib: Lib, ds: seq<DesignStep>, ys: seq<YamlStep>)
    ensures CompileSteps(lib, ds, {}) == Some(ys) <==> ListMeans(lib, ds, ys)
  {
    ListExactly(lib, ds, {}, ys);
  }

  predicate NoneIn(ds: seq<DesignStep>, seen: set<string>) { forall i | 0 <= i < |ds| :: ds[i].id !in seen }

  lemma {:induction false} ListExactly(lib: Lib, ds: seq<DesignStep>, seen: set<string>, ys: seq<YamlStep>)
    ensures CompileSteps(lib, ds, seen) == Some(ys) <==> ListMeans(lib, ds, ys) && NoneIn(ds, seen)
    decreases ds, 2
  {
    if ds != [] && ys != [] {
      StepExactly(lib, ds[0], ys[0]);
      ListExactly(lib, ds[1..], seen + {ds[0].id}, ys[1..]);
      HeadMeans(lib, ds, seen, ys);
      HeadCompiles(lib, ds, seen, ys);
    }
  }

  lemma HeadCompiles(lib: Lib, ds: seq<DesignStep>, seen: set<string>, ys: seq<YamlStep>)
    requires ds != [] && ys != []
    ensures CompileSteps(lib, ds, seen) == Some(ys) <==>
      && ds[0].id != "" && ds[0].id !in seen && BuildStep(lib, ds[0]) == Some(ys[0])
      && CompileSteps(lib, ds[1..], seen + {ds[0].id}) == Some(ys[1..])
  {
    assert ys == [ys[0]] + ys[1..];
  }

  lemma HeadMeans(lib: Lib, ds: seq<DesignStep>, seen: set<string>, ys: seq<YamlStep>)
    requires ds != [] && ys != []
    ensures ListMeans(lib, ds, ys) && NoneIn(ds, seen) <==>
      && ds[0].id != "" && ds[0].id !in seen && StepMeans(lib, ds[0], ys[0])
      && ListMeans(lib, ds[1..], ys[1..]) && NoneIn(ds[1..], seen + {ds[0].id})
  {
    HeadNamed(ds, seen);
    if |ys| == |ds| {
      forall i | 0 < i < |ds| ensures ds[i] == ds[1..][i - 1] && ys[i] == ys[1..][i - 1] { }
      assert (forall i | 0 <= i < |ds| :: StepMeans(lib, ds[i], ys[i]))
        <==> StepMeans(lib, ds[0], ys[0]) && forall i | 0 <= i < |ds[1..]| :: StepMeans(lib, ds[1..][i], ys[1..][i]);
    }
  }

  lemma HeadNamed(ds: seq<DesignStep>, seen: set<string>)
    requires ds != []
    ensures Named(ds) && NoneIn(ds, seen) <==>
      ds[0].id != "" && ds[0].id !in seen && Named(ds[1..]) && NoneIn(ds[1..], seen + {ds[0].id})
  {
    var rest := ds[1..];
    forall i | 0 < i < |ds| ensures ds[i] == rest[i - 1] { }
    if Named(rest) && NoneIn(rest, seen + {ds[0].id}) {
      forall i | 0 < i < |ds| ensures ds[i].id != "" && ds[i].id !in seen && ds[i].id != ds[0].id {
        assert ds[i] == rest[i - 1];
      }
      forall i, j | 0 < j < i < |ds| ensures ds[i].id != ds[j].id {
        assert ds[i] == rest[i - 1] && ds[j] == rest[j - 1];
      }
    }
    if Named(ds) && NoneIn(ds, seen) {
      forall i | 0 <= i < |rest| ensures rest[i] == ds[i + 1] { }
    }
  }
}
