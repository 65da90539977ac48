/** The visual design of a workflow, compiled to steps and read back from them. */
module Design {
  import opened Workflow
  import opened Text

  /** Argument values. A floating-point literal is known by its text only. */
  datatype ArgValue = IntArg(n: int) | BoolArg(b: bool) | StrArg(s: string) | FloatArg(text: string)

  /** Which texts parse as floating-point numbers, and what unquoting makes of quoted texts
      with quotes, escapes or line breaks inside. */
  datatype Lib = Lib(isFloat: string -> bool, unquote: string -> Option<string>)

  datatype ArgField = ArgField(name: string, value: string, valueKind: string)

  datatype AssignField = AssignField(name: string, expr: string)

  datatype Condition = Condition(left: string, leftKind: string, op: string, right: string, rightKind: string)

  datatype DesignStep = DesignStep(id: string, kind: string, tool: string, args: seq<ArgField>,
                                   assignments: seq<AssignField>, condition: Option<Condition>,
                                   thn: seq<DesignStep>, els: seq<DesignStep>)

  /** A step as YAML carries it: a tool, an assignment or an `if`. */
  datatype YamlStep = YamlStep(id: string, use: string, args: map<string, ArgValue>, assign: map<string, string>,
                               cond: string, thn: seq<YamlStep>, els: seq<YamlStep>)

  // ---- Expressions and operands ----

  predicate IsExprToken(s: string) { HasPrefix(s, "${") && HasSuffix(s, "}") }

  function StripExprWrapper(s: string): string {
    var t := TrimSpace(s);
    if IsExprToken(t) && |t| > 2 then TrimSpace(t[2..|t| - 1]) else t
  }

  function Token(s: string): string { "${" + s + "}" }

  function NormalizeExpr(s: string): string {
    var t := TrimSpace(s);
    if t == "" || IsExprToken(t) then t else Token(StripExprWrapper(t))
  }

  predicate IsPathLike(s: string) { HasPrefix(s, "inputs.") || HasPrefix(s, "vars.") || HasPrefix(s, "steps.") }

  function CompileArgValue(lib: Lib, a: ArgField): ArgValue {
    var v := TrimSpace(a.value);
    if EqualFold(a.valueKind, "expr") || IsExprToken(v) then StrArg(NormalizeExpr(v))
    else if ParseInt(v).Some? then IntArg(ParseInt(v).value)
    else if lib.isFloat(v) then FloatArg(v)
    else if ToLower(v) == "true" then BoolArg(true)
    else if ToLower(v) == "false" then BoolArg(false)
    else StrArg(v)
  }

  predicate IsKeyword(v: string) { ToLower(v) in {"true", "false", "null", "nil"} }

  predicate IsBare(lib: Lib, v: string) { ParseInt(v).Some? || lib.isFloat(v) || IsKeyword(v) }

  predicate IsQuoted(s: string) { HasPrefix(s, "\"") && HasSuffix(s, "\"") }

  function Quoted(v: string): string { "\"" + Replace(v, '"', "\\\"") + "\"" }

  /** One side of a comparison. */
  function FormatOperand(lib: Lib, value: string, kind: string, preferPath: bool): string {
    var v := TrimSpace(value);
    if v == "" then "\"\""
    else if EqualFold(kind, "expr") || IsExprToken(v) then StripExprWrapper(v)
    else if preferPath && kind == "" && IsPathLike(StripExprWrapper(v)) then StripExprWrapper(v)
    else if IsBare(lib, v) || IsQuoted(v) then v
    else Quoted(v)
  }

  function OpSymbol(op: string): Option<string> {
    var o := ToLower(TrimSpace(op));
    if o == "eq" || o == "==" then Some("==")
    else if o == "ne" || o == "!=" then Some("!=")
    else if o == "lt" || o == "<" then Some("<")
    else if o == "le" || o == "<=" then Some("<=")
    else if o == "gt" || o == ">" then Some(">")
    else if o == "ge" || o == ">=" then Some(">=")
    else None
  }

  function Comparison(left: string, op: string, right: string): string { left + " " + op + " " + right }

  function CompileCondition(lib: Lib, c: Condition): Option<string> {
    match OpSymbol(c.op)
    case None => None
    case Some(op) =>
      Some(Token(Comparison(FormatOperand(lib, c.left, c.leftKind, true), op,
                            FormatOperand(lib, c.right, c.rightKind, false))))
  }

  // ---- Compiling steps ----

  /** Arguments by name: later ones win, unnamed ones are dropped. */
  function CompileArgs(lib: Lib, args: seq<ArgField>): map<string, ArgValue> {
    if args == [] then map[]
    else
      var a := args[|args| - 1];
      var m := CompileArgs(lib, args[..|args| - 1]);
      if a.name == "" then m else m[a.name := CompileArgValue(lib, a)]
  }

  function CompileAssigns(assigns: seq<AssignField>): map<string, string> {
    if assigns == [] then map[]
    else
      var a := assigns[|assigns| - 1];
      var m := CompileAssigns(assigns[..|assigns| - 1]);
      if a.name == "" then m else m[a.name := NormalizeExpr(a.expr)]
  }

  datatype Kind = ToolKind | AssignKind | IfKind

  function KindOf(kind: string): Option<Kind> {
    var k := ToLower(TrimSpace(kind));
    if k == "tool" || k == "" then Some(ToolKind)
    else if k == "assign" then Some(AssignKind)
    else if k == "if" then Some(IfKind)
    else None
  }

  /** None for a design that is refused. */
  function BuildStep(lib: Lib, s: DesignStep): Option<YamlStep>
    decreases s, 0
  {
    match KindOf(s.kind)
    case None => None
    case Some(ToolKind) =>
      if s.tool == "" then None else Some(YamlStep(s.id, s.tool, CompileArgs(lib, s.args), map[], "", [], []))
    case Some(AssignKind) =>
      if s.assignments == [] then None
      else Some(YamlStep(s.id, "", map[], CompileAssigns(s.assignments), "", [], []))
    case Some(IfKind) =>
      if s.condition.None? then None
      else
        match CompileCondition(lib, s.condition.value)
        case None => None
        case Some(cond) =>
          match CompileSteps(lib, s.thn, {})
          case None => None
          case Some(thn) =>
            match CompileSteps(lib, s.els, {})
            case None => None
            case Some(els) => Some(YamlStep(s.id, "", map[], map[], cond, thn, els))
  }

  /** Ids are given and differ within one list. */
  function CompileSteps(lib: Lib, steps: seq<DesignStep>, seen: set<string>): Option<seq<YamlStep>>
    decreases steps, 0
  {
    if steps == [] then Some([])
    else if steps[0].id == "" || steps[0].id in seen then None
    else
      match BuildStep(lib, steps[0])
      case None => None
      case Some(y) =>
        match CompileSteps(lib, steps[1..], seen + {steps[0].id})
        case None => None
        case Some(rest) => Some([y] + rest)
  }

  // ---- Classification ----

  function Hits(y: YamlStep): nat {
    (if y.use != "" then 1 else 0) + (if y.assign != map[] then 1 else 0) + (if y.cond != "" then 1 else 0)
  }

  /** Parsing takes a step that is exactly one of a tool, an assignment and an `if`. */
  predicate Classified(steps: seq<YamlStep>)
    decreases steps
  {
    forall y | y in steps :: Hits(y) == 1 && (y.cond != "" ==> Classified(y.thn) && Classified(y.els))
  }

  // ---- Reading steps back ----

  function DecompileArg(name: string, v: ArgValue): ArgField {
    match v
    case StrArg(s) => ArgField(name, s, if IsExprToken(s) || Contains(s, "${") then "expr" else "literal")
    case IntArg(n) => ArgField(name, Decimal(n), "literal")
    case BoolArg(b) => ArgField(name, if b then "true" else "false", "literal")
    case FloatArg(text) => ArgField(name, text, "literal")
  }

  /** The operators, in the order they are looked for. */
  const OPS: seq<(string, string)> := [("==", "eq"), ("!=", "ne"), ("<=", "le"), (">=", "ge"), ("<", "lt"), (">", "gt")]

  /** The first operator of the list that occurs, and where. */
  function FindOp(inner: string, ops: seq<(string, string)>): Option<((string, string), nat)>
    decreases |ops|
  {
    if ops == [] then None
    else
      match Index(inner, ops[0].0)
      case Some(i) => Some((ops[0], i))
      case None => FindOp(inner, ops[1..])
  }

  function Unquote(lib: Lib, s: string): Option<string> {
    if |s| < 2 then None
    else
      var t := s[1..|s| - 1];
      if '"' !in t && '\\' !in t && '\n' !in t then Some(t) else lib.unquote(s)
  }

  function Wrapped(s: string): string { if HasPrefix(s, "${") then s else Token(s) }

  /** The value and the kind of the right side. */
  function ReadRight(lib: Lib, right: string): (string, string) {
    if IsQuoted(right) then (match Unquote(lib, right) case Some(u) => u case None => "", "literal")
    else if |right| >= 2 && right[0] == '\'' && right[|right| - 1] == '\'' then (Trim(right, {'\''}), "literal")
    else if IsPathLike(right) then (Wrapped(right), "expr")
    else (right, "literal")
  }

  function ReadLeft(lib: Lib, left: string): (string, string) {
    if IsQuoted(left) then
      match Unquote(lib, left)
      case Some(u) => (u, "literal")
      case None => (left, "expr")
    else if IsPathLike(left) then (Wrapped(left), "expr")
    else (Trim(left, {'"', '\''}), "literal")
  }

  function ParseIfCondition(lib: Lib, s: string): Option<Condition> {
    var inner := StripExprWrapper(TrimSpace(s));
    match FindOp(inner, OPS)
    case None => None
    case Some((op, i)) =>
      if i + |op.0| > |inner| then None else Some(ConditionAt(lib, inner, op, i))
  }

  /** The two sides of the operator at i. */
  function ConditionAt(lib: Lib, inner: string, op: (string, string), i: nat): Condition
    requires i + |op.0| <= |inner|
  {
    var (lv, lk) := ReadLeft(lib, TrimSpace(inner[..i]));
    var (rv, rk) := ReadRight(lib, TrimSpace(inner[i + |op.0|..]));
    Condition(lv, lk, op.1, rv, rk)
  }

  /** The fields list the map's entries, each once, in any order. */
  predicate ReadsArgs(m: map<string, ArgValue>, fields: seq<ArgField>) {
    && (forall i, j | 0 <= i < j < |fields| :: fields[i].name != fields[j].name)
    && (forall f | f in fields :: f.name in m && f == DecompileArg(f.name, m[f.name]))
    && (forall k | k in m :: DecompileArg(k, m[k]) in fields)
  }

  predicate ReadsAssigns(m: map<string, string>, fields: seq<AssignField>) {
    && (forall i, j | 0 <= i < j < |fields| :: fields[i].name != fields[j].name)
    && (forall f | f in fields :: f.name in m && f.expr == m[f.name])
    && (forall k | k in m :: AssignField(k, m[k]) in fields)
  }

  predicate Readable(lib: Lib, y: YamlStep) { y.cond != "" ==> ParseIfCondition(lib, y.cond).Some? }

  /** What a step can be read as. */
  predicate Reads(lib: Lib, y: YamlStep, d: DesignStep)
    decreases y
  {
    if y.use != "" then
      d.id == y.id && d.kind == "tool" && d.tool == y.use && ReadsArgs(y.args, d.args)
      && d == DesignStep(d.id, d.kind, d.tool, d.args, [], None, [], [])
    else if y.assign != map[] then
      d.id == y.id && d.kind == "assign" && ReadsAssigns(y.assign, d.assignments)
      && d == DesignStep(d.id, d.kind, "", [], d.assignments, None, [], [])
    else
      d.id == y.id && d.kind == "if" && d.condition.Some? && d.condition == ParseIfCondition(lib, y.cond)
      && ReadsAll(lib, y.thn, d.thn) && ReadsAll(lib, y.els, d.els)
      && d == DesignStep(d.id, d.kind, "", [], [], d.condition, d.thn, d.els)
  }

  /** Steps that cannot be read are skipped. */
  predicate ReadsAll(lib: Lib, ys: seq<YamlStep>, ds: seq<DesignStep>)
    decreases ys
  {
    if ys == [] then ds == []
    else if !Readable(lib, ys[0]) then ReadsAll(lib, ys[1..], ds)
    else ds != [] && Reads(lib, ys[0], ds[0]) && ReadsAll(lib, ys[1..], ds[1..])
  }
}
