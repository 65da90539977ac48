/** Classification of decoded steps: every step must populate exactly one of the fields
    that say what kind it is. */
module Parse {
  import opened Workflow

  /** A step as it is decoded; fields left out are empty. */
  datatype Raw = Raw(id: string, use: string, args: map<string, Template>, timeout: string, onError: string,
                     assign: map<string, Template>, cond: string, thn: seq<Raw>, els: seq<Raw>,
                     foreach: string, item: string, body: seq<Raw>, parallel: seq<RawBranch>, wait: string)

  datatype RawBranch = RawBranch(steps: seq<Raw>)

  /** How duration texts parse. */
  type Durations = string -> Option<int>

  function Hits(r: Raw): nat {
    (if r.use != "" then 1 else 0) + (if r.assign != map[] then 1 else 0) + (if r.cond != "" then 1 else 0)
    + (if r.foreach != "" then 1 else 0) + (if r.parallel != [] then 1 else 0) + (if r.wait != "" then 1 else 0)
  }

  function OnErrorOf(text: string): Option<OnError> {
    if text == "" || text == "fail" then Some(Fail) else if text == "continue" then Some(Continue) else None
  }

  /** The classified step, or None for one that is refused. */
  function ClassifyStep(d: Durations, r: Raw): Option<Step>
    decreases r, 0
  {
    if Hits(r) != 1 then None
    else if r.use != "" then
      if (r.timeout != "" && d(r.timeout).None?) || OnErrorOf(r.onError).None? then None
      else Some(Step(r.id, Tool(r.use, r.args, OnErrorOf(r.onError).value)))
    else if r.assign != map[] then Some(Step(r.id, Assign(r.assign)))
    else if r.cond != "" then
      match ClassifySteps(d, r.thn)
      case None => None
      case Some(thn) =>
        match ClassifySteps(d, r.els)
        case None => None
        case Some(els) => Some(Step(r.id, If(r.cond, thn, els)))
    else if r.foreach != "" then
      match ClassifySteps(d, r.body)
      case None => None
      case Some(body) => Some(Step(r.id, Foreach(r.foreach, r.item, body)))
    else if r.parallel != [] then
      match ClassifyBranches(d, r.parallel)
      case None => None
      case Some(bs) => Some(Step(r.id, Parallel(bs)))
    else
      match d(r.wait)
      case None => None
      case Some(t) => Some(Step(r.id, Wait(t)))
  }

  function ClassifySteps(d: Durations, rs: seq<Raw>): Option<seq<Step>>
    decreases rs, 0
  {
    if |rs| == 0 then Some([])
    else
      match ClassifyStep(d, rs[0])
      case None => None
      case Some(s) =>
        match ClassifySteps(d, rs[1..])
        case None => None
        case Some(rest) => Some([s] + rest)
  }

  function ClassifyBranches(d: Durations, bs: seq<RawBranch>): Option<seq<Block>>
    decreases bs, 0
  {
    if |bs| == 0 then Some([])
    else
      match ClassifySteps(d, bs[0].steps)
      case None => None
      case Some(s) =>
        match ClassifyBranches(d, bs[1..])
        case None => None
        case Some(rest) => Some([Block(s)] + rest)
  }

  // ---- As it is written ----

  method Classify(d: Durations, rs: seq<Raw>) returns (r: Option<seq<Step>>)
    ensures r == ClassifySteps(d, rs)
    decreases rs, 1
  {
    var out: seq<Step> := [];
    var i := 0;
    assert rs[0..] == rs;
    assert ClassifySteps(d, rs).Some? ==> out + ClassifySteps(d, rs).value == ClassifySteps(d, rs).value;
    while i < |rs|
      invariant i <= |rs|
      invariant var rest := ClassifySteps(d, rs[i..]);
        ClassifySteps(d, rs) == if rest.None? then None else Some(out + rest.value)
    {
      assert rs[i..][0] == rs[i] && rs[i..][1..] == rs[i + 1..];
      var s := ClassifyOne(d, rs[i]);
      if s.None? { return None; }
      ghost var rest := ClassifySteps(d, rs[i + 1..]);
      assert rest.Some? ==> out + ([s.value] + rest.value) == out + [s.value] + rest.value;
      out := out + [s.value];
      i := i + 1;
    }
    assert out + [] == out;
    r := Some(out);
  }

  method ClassifyOne(d: Durations, r: Raw) returns (s: Option<Step>)
    ensures s == ClassifyStep(d, r)
    decreases r, 1
  {
    var hits := 0;
    if r.use != "" { hits := hits + 1; }
    if r.assign != map[] { hits := hits + 1; }
    if r.cond != "" { hits := hits + 1; }
    if r.foreach != "" { hits := hits + 1; }
    if r.parallel != [] { hits := hits + 1; }
    if r.wait != "" { hits := hits + 1; }
    if hits != 1 { return None; }
    if r.use != "" {
      if r.timeout != "" && d(r.timeout).None? { return None; }
      var onError := OnErrorOf(r.onError);
      return if onError.None? then None else Some(Step(r.id, Tool(r.use, r.args, onError.value)));
    }
    if r.assign != map[] { return Some(Step(r.id, Assign(r.assign))); }
    if r.wait != "" {
      var t := d(r.wait);
      return if t.None? then None else Some(Step(r.id, Wait(t.value)));
    }
    s := ClassifyChildren(d, r);
  }

  method ClassifyChildren(d: Durations, r: Raw) returns (s: Option<Step>)
    requires Hits(r) == 1 && (r.cond != "" || r.foreach != "" || r.parallel != [])
    ensures s == ClassifyStep(d, r)
    decreases r, 0
  {
    if r.cond != "" {
      var thn := Classify(d, r.thn);
      if thn.None? { return None; }
      var els := Classify(d, r.els);
      return if els.None? then None else Some(Step(r.id, If(r.cond, thn.value, els.value)));
    }
    if r.foreach != "" {
      var body := Classify(d, r.body);
      return if body.None? then None else Some(Step(r.id, Foreach(r.foreach, r.item, body.value)));
    }
    var bs: seq<Block> := [];
    var i := 0;
    assert r.parallel[0..] == r.parallel;
    ghost var all := ClassifyBranches(d, r.parallel);
    assert all.Some? ==> bs + all.value == all.value;
    while i < |r.parallel|
      invariant i <= |r.parallel|
      invariant var rest := ClassifyBranches(d, r.parallel[i..]);
        ClassifyBranches(d, r.parallel) == if rest.None? then None else Some(bs + rest.value)
    {
      assert r.parallel[i..][0] == r.parallel[i] && r.parallel[i..][1..] == r.parallel[i + 1..];
      var b := Classify(d, r.parallel[i].steps);
      if b.None? { return None; }
      ghost var rest := ClassifyBranches(d, r.parallel[i + 1..]);
      assert rest.Some? ==> bs + ([Block(b.value)] + rest.value) == bs + [Block(b.value)] + rest.value;
      bs := bs + [Block(b.value)];
      i := i + 1;
    }
    assert bs + [] == bs;
    s := Some(Step(r.id, Parallel(bs)));
  }

  // ---- Every well-formed tree is the classification of its own text ----

  function Blank(id: string): Raw { Raw(id, "", map[], "", "", map[], "", [], [], "", "", [], [], "") }

  /** A step written out; `show` writes durations. */
  function Render(show: int -> string, s: Step): Raw
    decreases s, 0
  {
    match s.node
    case Tool(use, args, onError) =>
      Blank(s.id).(use := use, args := args, onError := if onError.Fail? then "fail" else "continue")
    case Assign(bindings) => Blank(s.id).(assign := bindings)
    case If(cond, thn, els) => Blank(s.id).(cond := cond, thn := RenderAll(show, thn), els := RenderAll(show, els))
    case Foreach(source, item, body) => Blank(s.id).(foreach := source, item := item, body := RenderAll(show, body))
    case Parallel(branches) => Blank(s.id).(parallel := RenderBranches(show, branches))
    case Wait(t) => Blank(s.id).(wait := show(t))
  }

  function RenderAll(show: int -> string, steps: seq<Step>): seq<Raw>
    decreases steps, 0
  {
    if |steps| == 0 then [] else [Render(show, steps[0])] + RenderAll(show, steps[1..])
  }

  function RenderBranches(show: int -> string, branches: seq<Block>): seq<RawBranch>
    decreases branches, 0
  {
    if |branches| == 0 then []
    else [RawBranch(RenderAll(show, branches[0].steps))] + RenderBranches(show, branches[1..])
  }

  /** The field that says the kind is not empty, at every node. */
  predicate Populated(s: Step)
    decreases s
  {
    match s.node
    case Tool(use, _, _) => use != ""
    case Assign(bindings) => bindings != map[]
    case If(cond, thn, els) =>
      cond != "" && (forall x | x in thn :: Populated(x)) && (forall x | x in els :: Populated(x))
    case Foreach(source, _, body) => source != "" && forall x | x in body :: Populated(x)
    case Parallel(branches) => branches != [] && forall b | b in branches :: forall x | x in b.steps :: Populated(x)
    case Wait(_) => true
  }

  ghost predicate Durable(d: Durations, show: int -> string) { forall t :: show(t) != "" && d(show(t)) == Some(t) }

  lemma {:induction false} RenderClassifies(d: Durations, show: int -> string, s: Step)
    requires Durable(d, show) && Populated(s)
    ensures ClassifyStep(d, Render(show, s)) == Some(s)
    decreases s, 0
  {
    match s.node
    case If(_, thn, els) =>
      RenderAllClassifies(d, show, thn);
      RenderAllClassifies(d, show, els);
    case Foreach(_, _, body) => RenderAllClassifies(d, show, body);
    case Parallel(branches) =>
      assert RenderBranches(show, branches) != [];
      RenderBranchesClassify(d, show, branches);
    case Wait(t) => assert show(t) != "";
    case _ =>
  }

  /** Classification gives back every populated tree from its own text: no kind is taken
      for another, and no child is lost. */
  lemma {:induction false} RenderAllClassifies(d: Durations, show: int -> string, steps: seq<Step>)
    requires Durable(d, show) && forall s | s in steps :: Populated(s)
    ensures ClassifySteps(d, RenderAll(show, steps)) == Some(steps)
    decreases steps, 1
  {
    if steps != [] {
      RenderClassifies(d, show, steps[0]);
      RenderAllClassifies(d, show, steps[1..]);
      assert RenderAll(show, steps)[1..] == RenderAll(show, steps[1..]);
      assert steps == [steps[0]] + steps[1..];
    }
  }

  lemma {:induction false} RenderBranchesClassify(d: Durations, show: int -> string, branches: seq<Block>)
    requires Durable(d, show) && forall b | b in branches :: forall s | s in b.steps :: Populated(s)
    ensures ClassifyBranches(d, RenderBranches(show, branches)) == Some(branches)
    decreases branches, 1
  {
    if |branches| > 0 {
      assert branches[0] in branches;
      RenderAllClassifies(d, show, branches[0].steps);
      RenderBranchesClassify(d, show, branches[1..]);
      assert RenderBranches(show, branches)[1..] == RenderBranches(show, branches[1..]);
      assert branches == [branches[0]] + branches[1..];
    }
  }

  /** What is accepted is populated: nothing without a kind gets through. */
  lemma {:induction false} AcceptedIsPopulated(d: Durations, rs: seq<Raw>)
    requires ClassifySteps(d, rs).Some?
    ensures forall s | s in ClassifySteps(d, rs).value :: Populated(s)
    decreases rs, 1
  {
    if rs != [] {
      StepIsPopulated(d, rs[0]);
      AcceptedIsPopulated(d, rs[1..]);
    }
  }

  lemma {:induction false} StepIsPopulated(d: Durations, r: Raw)
    requires ClassifyStep(d, r).Some?
    ensures Populated(ClassifyStep(d, r).value)
    decreases r, 0
  {
    if r.cond != "" {
      AcceptedIsPopulated(d, r.thn);
      AcceptedIsPopulated(d, r.els);
    } else if r.foreach != "" { AcceptedIsPopulated(d, r.body); }
    else if r.parallel != [] { BranchesArePopulated(d, r.parallel); }
  }

  lemma {:induction false} BranchesArePopulated(d: Durations, bs: seq<RawBranch>)
    requires ClassifyBranches(d, bs).Some?
    ensures bs != [] ==> ClassifyBranches(d, bs).value != []
    ensures forall b | b in ClassifyBranches(d, bs).value :: forall s | s in b.steps :: Populated(s)
    decreases bs, 1
  {
    if bs != [] {
      AcceptedIsPopulated(d, bs[0].steps);
      BranchesArePopulated(d, bs[1..]);
    }
  }

  // ---- What classification means ----

  /** No two of the fields that say the kind are populated. */
  predicate Unambiguous(r: Raw) {
    var populated := KindFields(r);
    forall i, j | 0 <= i < j < |populated| :: !(populated[i] && populated[j])
  }

  function KindFields(r: Raw): seq<bool> {
    [r.use != "", r.assign != map[], r.cond != "", r.foreach != "", r.parallel != [], r.wait != ""]
  }

  /** A step is what its text says, at every depth. A tool step without `on_error` fails;
      no other word than `fail` and `continue` is taken. */
  predicate Means(d: Durations, r: Raw, s: Step)
    decreases r, 0
  {
    && s.id == r.id && Unambiguous(r)
    && match s.node
       case Tool(use, args, onError) =>
         && use == r.use != "" && args == r.args && (r.timeout != "" ==> d(r.timeout).Some?)
         && (onError == Continue <==> r.onError == "continue")
         && (onError == Fail <==> r.onError == "fail" || r.onError == "")
       case Assign(bindings) => bindings == r.assign != map[]
       case If(cond, thn, els) => cond == r.cond != "" && AllMean(d, r.thn, thn) && AllMean(d, r.els, els)
       case Foreach(source, item, body) => source == r.foreach != "" && item == r.item && AllMean(d, r.body, body)
       case Parallel(branches) => r.parallel != [] && BranchesMean(d, r.parallel, branches)
       case Wait(t) => r.wait != "" && d(r.wait) == Some(t)
  }

  predicate AllMean(d: Durations, rs: seq<Raw>, steps: seq<Step>)
    decreases rs, 1
  {
    |steps| == |rs| && forall i | 0 <= i < |rs| :: Means(d, rs[i], steps[i])
  }

  predicate BranchesMean(d: Durations, bs: seq<RawBranch>, branches: seq<Block>)
    decreases bs, 1
  {
    |branches| == |bs| && forall i | 0 <= i < |bs| :: AllMean(d, bs[i].steps, branches[i].steps)
  }

  /** Classification accepts a list as steps exactly when they are what the text says. */
  lemma {:induction false} AcceptedMeans(d: Durations, rs: seq<Raw>, steps: seq<Step>)
    ensures ClassifySteps(d, rs) == Some(steps) <==> AllMean(d, rs, steps)
    decreases rs, 2
  {
    if rs != [] && steps != [] {
      StepMeans(d, rs[0], steps[0]);
      AcceptedMeans(d, rs[1..], steps[1..]);
      assert steps == [steps[0]] + steps[1..];
      assert AllMean(d, rs, steps) <==> Means(d, rs[0], steps[0]) && AllMean(d, rs[1..], steps[1..]) by {
        forall i | 0 < i < |rs| ensures rs[i] == rs[1..][i - 1] && (i < |steps| ==> steps[i] == steps[1..][i - 1]) { }
      }
    }
  }

  lemma {:induction false} StepMeans(d: Durations, r: Raw, s: Step)
    ensures ClassifyStep(d, r) == Some(s) <==> Means(d, r, s)
    decreases r, 1
  {
    OneHit(r);
    match s.node
    case If(_, thn, els) =>
      AcceptedMeans(d, r.thn, thn);
      AcceptedMeans(d, r.els, els);
    case Foreach(_, _, body) => AcceptedMeans(d, r.body, body);
    case Parallel(branches) => AcceptedBranches(d, r.parallel, branches);
    case _ =>
  }

  lemma OneHit(r: Raw)
    ensures Hits(r) <= 1 <==> Unambiguous(r)
  {
    var p := KindFields(r);
    assert p[0] == (r.use != "") && p[1] == (r.assign != map[]) && p[2] == (r.cond != "");
    assert p[3] == (r.foreach != "") && p[4] == (r.parallel != []) && p[5] == (r.wait != "");
  }

  lemma {:induction false} AcceptedBranches(d: Durations, bs: seq<RawBranch>, branches: seq<Block>)
    ensures ClassifyBranches(d, bs) == Some(branches) <==> BranchesMean(d, bs, branches)
    decreases bs, 2
  {
    if bs != [] && branches != [] {
      AcceptedMeans(d, bs[0].steps, branches[0].steps);
      AcceptedBranches(d, bs[1..], branches[1..]);
      assert branches == [branches[0]] + branches[1..];
      assert BranchesMean(d, bs, branches)
        <==> AllMean(d, bs[0].steps, branches[0].steps) && BranchesMean(d, bs[1..], branches[1..]) by {
        forall i | 0 < i < |bs|
          ensures bs[i] == bs[1..][i - 1] && (i < |branches| ==> branches[i] == branches[1..][i - 1]) { }
      }
    }
  }
}
