/** The workflow language: step trees as parsing classifies them, the values
    steps exchange, and what a run asks of its surroundings. */
module Workflow {

  datatype Option<+T> = None | Some(value: T)

  datatype Result<+T> = Ok(value: T) | Error(text: string)

  /** JSON-like values. Floating-point numbers are not modelled. */
  datatype Value =
    | Null
    | Bool(b: bool)
    | Int(n: int)
    | Str(s: string)
    | List(items: seq<Value>)
    | Obj(fields: map<string, Value>)

  function Truthy(v: Value): bool {
    match v
    case Null => false
    case Bool(b) => b
    case Int(n) => n != 0
    case Str(s) => s != ""
    case List(items) => items != []
    case Obj(fields) => fields != map[]
  }

  /** The values that count as no. */
  lemma FalsyExactly(v: Value)
    ensures !Truthy(v) <==>
      v == Null || v == Bool(false) || v == Int(0) || v == Str("") || v == List([]) || v == Obj(map[])
  {
  }

  /** A location of the scope expressions read: a variable or the record of a step. */
  datatype Loc = Var(name: string) | StepRec(id: string)

  datatype Cell = Val(v: Value) | Rec(output: Value, error: string)

  type Cells = map<Loc, Cell>

  type Template = string

  datatype OnError = Fail | Continue

  /** The six node kinds. `args` maps the path of each leaf of the argument tree
      to its template. */
  datatype Node =
    | Tool(use: string, args: map<string, Template>, onError: OnError)
    | Assign(bindings: map<string, Template>)
    | If(cond: Template, thn: seq<Step>, els: seq<Step>)
    | Foreach(source: Template, item: string, body: seq<Step>)
    | Parallel(branches: seq<Block>)
    | Wait(duration: int)

  datatype Step = Step(id: string, node: Node)

  /** One branch of a parallel step. */
  datatype Block = Block(steps: seq<Step>)

  /** Every step of a tree, at any depth. */
  function StepsIn(s: Step): set<Step>
    decreases s, 0
  {
    {s} + match s.node
      case If(_, thn, els) => AllSteps(thn) + AllSteps(els)
      case Foreach(_, _, body) => AllSteps(body)
      case Parallel(branches) => BranchSteps(branches)
      case _ => {}
  }

  function AllSteps(steps: seq<Step>): set<Step>
    decreases steps, 0
  {
    if |steps| == 0 then {} else StepsIn(steps[0]) + AllSteps(steps[1..])
  }

  function BranchSteps(branches: seq<Block>): set<Step>
    decreases branches, 0
  {
    if |branches| == 0 then {} else AllSteps(branches[0].steps) + BranchSteps(branches[1..])
  }

  /** Tools, assignments and waits count against the step cap. */
  predicate IsLeaf(s: Step) {
    s.node.Tool? || s.node.Assign? || s.node.Wait?
  }

  /** What a run is given: the expression evaluator (with the run's inputs already
      applied) and the locations a template can read, the tools, the dry-run switch
      and the step cap. */
  datatype Env = Env(
    eval: (Template, Cells) -> Result<Value>,
    footprint: Template -> iset<Loc>,
    call: (string, map<string, Value>) -> Result<Value>,
    dryRun: bool,
    mutating: string -> bool,
    maxSteps: nat)

  function Look(c: Cells, l: Loc): Option<Cell> {
    if l in c then Some(c[l]) else None
  }

  ghost predicate Agree(c1: Cells, c2: Cells, r: iset<Loc>) {
    forall l | l in r :: Look(c1, l) == Look(c2, l)
  }

  /** A template's value depends on nothing but the locations it can read. */
  ghost predicate HasFootprints(env: Env) {
    forall t, c1, c2 {:trigger Agree(c1, c2, env.footprint(t))} | Agree(c1, c2, env.footprint(t)) ::
      env.eval(t, c1) == env.eval(t, c2)
  }

  lemma EqualCells(c1: Cells, c2: Cells)
    requires forall l :: Look(c1, l) == Look(c2, l)
    ensures c1 == c2
  {
    forall l ensures l in c1 <==> l in c2 { assert Look(c1, l) == Look(c2, l); }
    forall l | l in c1 ensures c1[l] == c2[l] { assert Look(c1, l) == Look(c2, l); }
  }
}
