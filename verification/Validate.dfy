/** Validation of step trees: the limits a valid tree keeps and the single use of ids. */
module Validate {
  import opened Workflow
  import StepCap
  import Machine

  datatype Limits = Limits(maxFanout: nat, maxDepth: nat)

  datatype Problem =
    | TooDeep
    | BadId(id: string)
    | DuplicateId(id: string)
    | BadStep(id: string)

  predicate IsLetter(c: char) { 'a' <= c <= 'z' || 'A' <= c <= 'Z' || c == '_' }

  predicate IsIdChar(c: char) { IsLetter(c) || '0' <= c <= '9' || c == '.' || c == '-' }

  /** A letter or underscore, then letters, digits, underscores, dots and dashes. */
  predicate StepIdOk(id: string) {
    |id| > 0 && IsLetter(id[0]) && forall i | 0 < i < |id| :: IsIdChar(id[i])
  }

  /** The ids of a tree, in the order validation and the graph meet them. */
  function IdsOf(s: Step): seq<string>
    decreases s, 0
  {
    [s.id] + match s.node
      case If(_, thn, els) => Ids(thn) + Ids(els)
      case Foreach(_, _, body) => Ids(body)
      case Parallel(branches) => BranchIds(branches)
      case _ => []
  }

  function Ids(steps: seq<Step>): seq<string>
    decreases steps, 0
  {
    if steps == [] then [] else IdsOf(steps[0]) + Ids(steps[1..])
  }

  function BranchIds(branches: seq<Block>): seq<string>
    decreases branches, 0
  {
    if branches == [] then [] else Ids(branches[0].steps) + BranchIds(branches[1..])
  }

  /** What validation demands of each step of a list at a nesting depth, ids' single use
      aside. */
  predicate WellFormed(steps: seq<Step>, depth: nat, limits: Limits)
    decreases steps, 0
  {
    depth <= limits.maxDepth && forall s | s in steps :: StepIdOk(s.id) && WellFormedStep(s, depth, limits)
  }

  predicate WellFormedStep(s: Step, depth: nat, limits: Limits)
    decreases s, 0
  {
    match s.node
    case Tool(use, _, _) => use != ""
    case Assign(bindings) => bindings != map[] && forall k | k in bindings :: k != "" && bindings[k] != ""
    case If(cond, thn, els) =>
      && cond != "" && thn != []
      && WellFormed(thn, depth + 1, limits)
      && (els != [] ==> WellFormed(els, depth + 1, limits))
    case Foreach(source, item, body) =>
      source != "" && item != "" && body != [] && WellFormed(body, depth + 1, limits)
    case Parallel(branches) =>
      && 2 <= |branches| <= limits.maxFanout
      && forall b | b in branches :: b.steps != [] && WellFormed(b.steps, depth + 1, limits)
    case Wait(duration) => duration > 0
  }

  /** None of the ids is in `seen` and none occurs twice. */
  predicate Fresh(ids: seq<string>, seen: set<string>) {
    ids != [] ==> ids[0] !in seen && Fresh(ids[1..], seen + {ids[0]})
  }

  function SetOf(ids: seq<string>): set<string> { set id | id in ids }

  lemma {:induction false} FreshConcat(a: seq<string>, b: seq<string>, seen: set<string>)
    ensures Fresh(a + b, seen) <==> Fresh(a, seen) && Fresh(b, seen + SetOf(a))
    decreases |a|
  {
    if a == [] {
      assert a + b == b && seen + SetOf(a) == seen;
    } else {
      assert (a + b)[1..] == a[1..] + b;
      assert seen + SetOf(a) == seen + {a[0]} + SetOf(a[1..]);
      FreshConcat(a[1..], b, seen + {a[0]});
    }
  }

  lemma {:induction false} FreshMeansDistinct(ids: seq<string>, seen: set<string>)
    ensures Fresh(ids, seen) <==>
      (forall i, j | 0 <= i < j < |ids| :: ids[i] != ids[j]) && (forall id | id in ids :: id !in seen)
    decreases |ids|
  {
    if ids != [] {
      FreshMeansDistinct(ids[1..], seen + {ids[0]});
      assert forall j | 0 < j < |ids| :: ids[j] == ids[1..][j - 1];
      if Fresh(ids, seen) {
        forall i, j | 0 <= i < j < |ids| ensures ids[i] != ids[j] {
          if i == 0 { assert ids[j] in ids[1..]; } else { assert ids[1..][i - 1] != ids[1..][j - 1]; }
        }
      }
    }
  }

  /** Steps are told apart by their ids. */
  predicate OneStepAnId(all: set<Step>) { forall s, t | s in all && t in all && s.id == t.id :: s == t }

  lemma {:induction false} StepIdsAreIds(steps: seq<Step>)
    ensures forall s | s in AllSteps(steps) :: s.id in Ids(steps)
    decreases steps, 0
  {
    if steps != [] {
      InnerIdsAreIds(steps[0]);
      StepIdsAreIds(steps[1..]);
    }
  }

  lemma {:induction false} InnerIdsAreIds(s: Step)
    ensures forall t | t in StepsIn(s) :: t.id in IdsOf(s)
    decreases s, 0
  {
    assert IdsOf(s)[0] == s.id;
    match s.node
    case If(_, thn, els) =>
      StepIdsAreIds(thn);
      StepIdsAreIds(els);
    case Foreach(_, _, body) => StepIdsAreIds(body);
    case Parallel(branches) => BranchIdsAreIds(branches);
    case _ =>
  }

  lemma {:induction false} BranchIdsAreIds(branches: seq<Block>)
    ensures forall s | s in BranchSteps(branches) :: s.id in BranchIds(branches)
    decreases branches, 0
  {
    if branches != [] {
      StepIdsAreIds(branches[0].steps);
      BranchIdsAreIds(branches[1..]);
    }
  }

  lemma {:induction false} IdIsAStep(steps: seq<Step>, id: string) returns (s: Step)
    requires id in Ids(steps)
    ensures s in AllSteps(steps) && s.id == id
    decreases steps, 0
  {
    if id in IdsOf(steps[0]) { s := InnerIdIsAStep(steps[0], id); } else { s := IdIsAStep(steps[1..], id); }
  }

  lemma {:induction false} InnerIdIsAStep(s: Step, id: string) returns (t: Step)
    requires id in IdsOf(s)
    ensures t in StepsIn(s) && t.id == id
    decreases s, 0
  {
    if id == s.id { t := s; }
    else {
      match s.node
      case If(_, thn, els) => if id in Ids(thn) { t := IdIsAStep(thn, id); } else { t := IdIsAStep(els, id); }
      case Foreach(_, _, body) => t := IdIsAStep(body, id);
      case Parallel(branches) => t := BranchIdIsAStep(branches, id);
    }
  }

  lemma {:induction false} BranchIdIsAStep(branches: seq<Block>, id: string) returns (s: Step)
    requires id in BranchIds(branches)
    ensures s in BranchSteps(branches) && s.id == id
    decreases branches, 0
  {
    if id in Ids(branches[0].steps) { s := IdIsAStep(branches[0].steps, id); }
    else { s := BranchIdIsAStep(branches[1..], id); }
  }

  /** Fresh ids tell the steps of a tree apart. */
  lemma {:induction false} FreshTells(steps: seq<Step>, seen: set<string>)
    requires Fresh(Ids(steps), seen)
    ensures OneStepAnId(AllSteps(steps))
    decreases steps, 0
  {
    if steps != [] {
      var s, rest := steps[0], steps[1..];
      FreshConcat(IdsOf(s), Ids(rest), seen);
      FreshInside(s, seen);
      FreshTells(rest, seen + SetOf(IdsOf(s)));
      FreshMeansDistinct(Ids(rest), seen + SetOf(IdsOf(s)));
      InnerIdsAreIds(s);
      StepIdsAreIds(rest);
    }
  }

  lemma {:induction false} FreshInside(s: Step, seen: set<string>)
    requires Fresh(IdsOf(s), seen)
    ensures OneStepAnId(StepsIn(s))
    decreases s, 0
  {
    var inner, seen' := IdsOf(s)[1..], seen + {s.id};
    assert IdsOf(s) == [s.id] + inner;
    FreshMeansDistinct(inner, seen');
    match s.node
    case If(_, thn, els) =>
      FreshConcat(Ids(thn), Ids(els), seen');
      FreshTells(thn, seen');
      FreshTells(els, seen' + SetOf(Ids(thn)));
      FreshMeansDistinct(Ids(els), seen' + SetOf(Ids(thn)));
      StepIdsAreIds(thn);
      StepIdsAreIds(els);
    case Foreach(_, _, body) =>
      FreshTells(body, seen');
      StepIdsAreIds(body);
    case Parallel(branches) =>
      FreshBranches(branches, seen');
      BranchIdsAreIds(branches);
    case _ =>
  }

  lemma {:induction false} FreshBranches(branches: seq<Block>, seen: set<string>)
    requires Fresh(BranchIds(branches), seen)
    ensures OneStepAnId(BranchSteps(branches))
    decreases branches, 0
  {
    if branches != [] {
      var ids, rest := Ids(branches[0].steps), BranchIds(branches[1..]);
      FreshConcat(ids, rest, seen);
      FreshTells(branches[0].steps, seen);
      FreshBranches(branches[1..], seen + SetOf(ids));
      FreshMeansDistinct(rest, seen + SetOf(ids));
      StepIdsAreIds(branches[0].steps);
      BranchIdsAreIds(branches[1..]);
    }
  }

  /** The ids of the branches from i on are those of branch i and those of the rest. */
  lemma OneBranch(branches: seq<Block>, i: nat, seen: set<string>)
    requires i < |branches|
    ensures var ids, rest := Ids(branches[i].steps), BranchIds(branches[i + 1..]);
      && SetOf(BranchIds(branches[i..])) == SetOf(ids) + SetOf(rest)
      && (Fresh(BranchIds(branches[i..]), seen) <==> Fresh(ids, seen) && Fresh(rest, seen + SetOf(ids)))
  {
    assert branches[i..][0] == branches[i] && branches[i..][1..] == branches[i + 1..];
    FreshConcat(Ids(branches[i].steps), BranchIds(branches[i + 1..]), seen);
  }

  /** The walk that fills a shared record of the ids it has seen. */
  class Validator {
    var seen: set<string>
    const limits: Limits

    constructor (limits: Limits)
      ensures this.limits == limits && seen == {}
    {
      this.limits := limits;
      seen := {};
    }

    method ValidateSteps(steps: seq<Step>, depth: nat) returns (problem: Option<Problem>)
      modifies this
      ensures problem.None? <==> WellFormed(steps, depth, limits) && Fresh(Ids(steps), old(seen))
      ensures problem.None? ==> seen == old(seen) + SetOf(Ids(steps))
      decreases steps, 1
    {
      if depth > limits.maxDepth { return Some(TooDeep); }
      var i := 0;
      while i < |steps|
        invariant i <= |steps|
        invariant forall k | 0 <= k < i :: StepIdOk(steps[k].id) && WellFormedStep(steps[k], depth, limits)
        invariant Fresh(Ids(steps), old(seen)) <==> Fresh(Ids(steps[i..]), seen)
        invariant seen + SetOf(Ids(steps[i..])) == old(seen) + SetOf(Ids(steps))
      {
        var s := steps[i];
        assert steps[i..][0] == s && steps[i..][1..] == steps[i + 1..];
        var before := seen;
        FreshConcat(IdsOf(s), Ids(steps[i + 1..]), before);
        assert IdsOf(s)[0] == s.id && IdsOf(s) != [];
        if !StepIdOk(s.id) { return Some(BadId(s.id)); }
        if s.id in seen { return Some(DuplicateId(s.id)); }
        seen := seen + {s.id};
        problem := ValidateStep(s, depth);
        if problem.Some? { return; }
        assert before + SetOf(IdsOf(s)) == seen;
        assert SetOf(Ids(steps[i..])) == SetOf(IdsOf(s)) + SetOf(Ids(steps[i + 1..]));
        i := i + 1;
      }
      return None;
    }

    method ValidateStep(s: Step, depth: nat) returns (problem: Option<Problem>)
      modifies this
      ensures problem.None? <==> WellFormedStep(s, depth, limits) && Fresh(IdsOf(s)[1..], old(seen))
      ensures problem.None? ==> seen == old(seen) + SetOf(IdsOf(s)[1..])
      decreases s, 0
    {
      match s.node
      case Tool(use, _, _) =>
        return if use == "" then Some(BadStep(s.id)) else None;
      case Assign(bindings) =>
        return if bindings != map[] && forall k | k in bindings :: k != "" && bindings[k] != "" then None
               else Some(BadStep(s.id));
      case If(cond, thn, els) =>
        if cond == "" || thn == [] { return Some(BadStep(s.id)); }
        assert IdsOf(s)[1..] == Ids(thn) + Ids(els);
        FreshConcat(Ids(thn), Ids(els), seen);
        problem := ValidateSteps(thn, depth + 1);
        if problem.Some? { return; }
        if els != [] { problem := ValidateSteps(els, depth + 1); }
      case Foreach(source, item, body) =>
        assert IdsOf(s)[1..] == Ids(body);
        if source == "" || item == "" || body == [] { return Some(BadStep(s.id)); }
        problem := ValidateSteps(body, depth + 1);
      case Parallel(branches) =>
        assert IdsOf(s)[1..] == BranchIds(branches);
        if |branches| < 2 || |branches| > limits.maxFanout { return Some(BadStep(s.id)); }
        problem := ValidateBranches(s.id, branches, depth);
      case Wait(duration) =>
        return if duration <= 0 then Some(BadStep(s.id)) else None;
    }

    method ValidateBranches(id: string, branches: seq<Block>, depth: nat) returns (problem: Option<Problem>)
      modifies this
      ensures problem.None? <==>
        && (forall b | b in branches :: b.steps != [] && WellFormed(b.steps, depth + 1, limits))
        && Fresh(BranchIds(branches), old(seen))
      ensures problem.None? ==> seen == old(seen) + SetOf(BranchIds(branches))
      decreases branches, 0
    {
      var i := 0;
      while i < |branches|
        invariant i <= |branches|
        invariant forall k | 0 <= k < i :: branches[k].steps != [] && WellFormed(branches[k].steps, depth + 1, limits)
        invariant Fresh(BranchIds(branches), old(seen)) <==> Fresh(BranchIds(branches[i..]), seen)
        invariant seen + SetOf(BranchIds(branches[i..])) == old(seen) + SetOf(BranchIds(branches))
      {
        var b := branches[i];
        OneBranch(branches, i, seen);
        if b.steps == [] { return Some(BadStep(id)); }
        ghost var before := seen;
        problem := ValidateSteps(b.steps, depth + 1);
        if problem.Some? {
          assert !WellFormed(b.steps, depth + 1, limits) || !Fresh(Ids(b.steps), before);
          return;
        }
        i := i + 1;
      }
      return None;
    }
  }

  // ---- Width of a valid tree ----

  function Pow(b: nat, e: nat): nat { if e == 0 then 1 else b * Pow(b, e - 1) }

  lemma {:induction false} PowAtLeastOne(b: nat, e: nat)
    requires b >= 1
    ensures Pow(b, e) >= 1
    decreases e
  {
    if e > 0 { PowAtLeastOne(b, e - 1); assert b * Pow(b, e - 1) >= 1 * Pow(b, e - 1); }
  }

  lemma MulMonotone(a: nat, b: nat, c: nat)
    requires a <= b
    ensures a * c <= b * c
  {
  }

  lemma PowGrows(b: nat, e: nat)
    requires b >= 1 && e > 0
    ensures Pow(b, e - 1) <= Pow(b, e)
  {
    MulMonotone(1, b, Pow(b, e - 1));
  }

  /** A valid tree is at most fanout^depth wide. */
  lemma {:induction false} WidthBounded(steps: seq<Step>, depth: nat, limits: Limits)
    requires WellFormed(steps, depth, limits) && limits.maxFanout >= 1
    ensures StepCap.WidthOf(steps) <= Pow(limits.maxFanout, limits.maxDepth - depth)
    decreases steps, 0
  {
    if steps != [] {
      assert steps[0] in steps;
      StepWidthBounded(steps[0], depth, limits);
      forall s | s in steps[1..] ensures s in steps { }
      WidthBounded(steps[1..], depth, limits);
    }
  }

  lemma {:induction false} StepWidthBounded(s: Step, depth: nat, limits: Limits)
    requires WellFormedStep(s, depth, limits) && limits.maxFanout >= 1 && depth <= limits.maxDepth
    ensures StepCap.Width(s) <= Pow(limits.maxFanout, limits.maxDepth - depth)
    decreases s, 0
  {
    PowAtLeastOne(limits.maxFanout, limits.maxDepth - depth);
    if depth < limits.maxDepth { PowGrows(limits.maxFanout, limits.maxDepth - depth); }
    match s.node
    case If(_, thn, els) =>
      WidthBounded(thn, depth + 1, limits);
      if els != [] { WidthBounded(els, depth + 1, limits); }
    case Foreach(_, _, body) => WidthBounded(body, depth + 1, limits);
    case Parallel(branches) =>
      assert WellFormed(branches[0].steps, depth + 1, limits);
      WidthSumBounded(branches, depth + 1, limits);
      MulMonotone(|branches|, limits.maxFanout, Pow(limits.maxFanout, limits.maxDepth - depth - 1));
    case _ =>
  }

  lemma {:induction false} WidthSumBounded(branches: seq<Block>, depth: nat, limits: Limits)
    requires depth <= limits.maxDepth && limits.maxFanout >= 1
    requires forall b | b in branches :: WellFormed(b.steps, depth, limits)
    ensures StepCap.WidthSum(branches) <= |branches| * Pow(limits.maxFanout, limits.maxDepth - depth)
    decreases branches, 0
  {
    if branches != [] {
      var each := Pow(limits.maxFanout, limits.maxDepth - depth);
      assert branches[0] in branches;
      WidthBounded(branches[0].steps, depth, limits);
      WidthSumBounded(branches[1..], depth, limits);
      OneMore(|branches[1..]|, each);
    }
  }

  lemma OneMore(n: nat, each: int)
    ensures (n + 1) * each == each + n * each
  {
  }

  /** On a valid tree every schedule stops counting by MaxSteps + fanout^depth. */
  lemma CountBounded(env: Env, steps: seq<Step>, limits: Limits, schedule: seq<Machine.Event>)
    requires WellFormed(steps, 0, limits) && limits.maxFanout >= 1
    requires Machine.Run(env, Machine.Start(steps), schedule).Some?
    ensures Machine.Run(env, Machine.Start(steps), schedule).value.count
         <= env.maxSteps + Pow(limits.maxFanout, limits.maxDepth)
  {
    StepCap.StepCapHolds(env, steps, schedule);
    WidthBounded(steps, 0, limits);
  }

  // ---- What a valid tree is, step by step ----

  /** The steps of a list and of those nested in it, each with its nesting depth. */
  function Placed(steps: seq<Step>, depth: nat): set<(Step, nat)>
    decreases steps, 0
  {
    if |steps| == 0 then {} else {(steps[0], depth)} + PlacedIn(steps[0], depth) + Placed(steps[1..], depth)
  }

  function PlacedIn(s: Step, depth: nat): set<(Step, nat)>
    decreases s, 0
  {
    match s.node
    case If(_, thn, els) => Placed(thn, depth + 1) + Placed(els, depth + 1)
    case Foreach(_, _, body) => Placed(body, depth + 1)
    case Parallel(branches) => PlacedBranches(branches, depth + 1)
    case _ => {}
  }

  function PlacedBranches(branches: seq<Block>, depth: nat): set<(Step, nat)>
    decreases branches, 0
  {
    if |branches| == 0 then {} else Placed(branches[0].steps, depth) + PlacedBranches(branches[1..], depth)
  }

  /** The rules for one step, whatever is inside it. */
  predicate Keeps(limits: Limits, s: Step, depth: nat) {
    depth <= limits.maxDepth && IdKeeps(s.id) && KindKeeps(limits, s.node)
  }

  predicate IdKeeps(id: string) {
    id != "" && forall i | 0 <= i < |id| ::
      var c := id[i];
      'a' <= c <= 'z' || 'A' <= c <= 'Z' || c == '_' || (i > 0 && ('0' <= c <= '9' || c == '.' || c == '-'))
  }

  predicate KindKeeps(limits: Limits, node: Node) {
    match node
    case Tool(use, _, _) => use != ""
    case Assign(bindings) => bindings != map[] && forall k | k in bindings :: "" !in {k, bindings[k]}
    case If(cond, thn, _) => cond != "" && thn != []
    case Foreach(source, item, body) => "" !in {source, item} && body != []
    case Parallel(branches) => 2 <= |branches| <= limits.maxFanout && forall b | b in branches :: b.steps != []
    case Wait(duration) => duration > 0
  }

  ghost predicate AllKeep(limits: Limits, placed: set<(Step, nat)>) {
    forall p | p in placed :: Keeps(limits, p.0, p.1)
  }

  /** A tree is well-formed exactly when every step in it, at any depth, keeps the rules. */
  lemma {:induction false} WellFormedExactly(steps: seq<Step>, depth: nat, limits: Limits)
    requires depth <= limits.maxDepth
    ensures WellFormed(steps, depth, limits) <==> AllKeep(limits, Placed(steps, depth))
    decreases steps, 1
  {
    if |steps| > 0 {
      var s, rest := steps[0], steps[1..];
      StepExactly(s, depth, limits);
      WellFormedExactly(rest, depth, limits);
      assert steps == [s] + rest;
      assert WellFormed(steps, depth, limits)
        <==> StepIdOk(s.id) && WellFormedStep(s, depth, limits) && WellFormed(rest, depth, limits);
      assert AllKeep(limits, Placed(steps, depth))
        <==> Keeps(limits, s, depth) && AllKeep(limits, PlacedIn(s, depth)) && AllKeep(limits, Placed(rest, depth)) by {
        assert (s, depth) in Placed(steps, depth);
      }
    }
  }

  lemma {:induction false} StepExactly(s: Step, depth: nat, limits: Limits)
    requires depth <= limits.maxDepth
    ensures StepIdOk(s.id) && WellFormedStep(s, depth, limits)
      <==> Keeps(limits, s, depth) && AllKeep(limits, PlacedIn(s, depth))
    decreases s, 1
  {
    IdExactly(s.id);
    match s.node
    case If(_, thn, els) => IfExactly(s, depth, limits);
    case Foreach(_, _, body) => ListExactly(body, depth + 1, limits);
    case Parallel(branches) => BranchesExactly(branches, depth + 1, limits);
    case _ =>
  }

  lemma IdExactly(id: string)
    ensures StepIdOk(id) <==> IdKeeps(id)
  {
  }

  lemma {:induction false} IfExactly(s: Step, depth: nat, limits: Limits)
    requires s.node.If?
    ensures WellFormedStep(s, depth, limits) <==> KindKeeps(limits, s.node) && AllKeep(limits, PlacedIn(s, depth))
    decreases s, 0
  {
    var thn, els := Placed(s.node.thn, depth + 1), Placed(s.node.els, depth + 1);
    ListExactly(s.node.thn, depth + 1, limits);
    ListExactly(s.node.els, depth + 1, limits);
    assert AllKeep(limits, thn + els) <==> AllKeep(limits, thn) && AllKeep(limits, els);
    assert s.node.els == [] ==> els == {};
  }

  /** A list inside a step, which may be too deep. */
  lemma {:induction false} ListExactly(steps: seq<Step>, depth: nat, limits: Limits)
    ensures steps != [] ==> (WellFormed(steps, depth, limits) <==> AllKeep(limits, Placed(steps, depth)))
    decreases steps, 2
  {
    if depth <= limits.maxDepth { WellFormedExactly(steps, depth, limits); }
    else if steps != [] { assert (steps[0], depth) in Placed(steps, depth) && !Keeps(limits, steps[0], depth); }
  }

  lemma {:induction false} BranchesExactly(branches: seq<Block>, depth: nat, limits: Limits)
    ensures (forall b | b in branches :: b.steps != []) ==>
      ((forall b | b in branches :: WellFormed(b.steps, depth, limits))
        <==> AllKeep(limits, PlacedBranches(branches, depth)))
    decreases branches, 1
  {
    if |branches| > 0 {
      var b, rest := branches[0], branches[1..];
      assert branches == [b] + rest;
      ListExactly(b.steps, depth, limits);
      BranchesExactly(rest, depth, limits);
      assert AllKeep(limits, PlacedBranches(branches, depth))
        <==> AllKeep(limits, Placed(b.steps, depth)) && AllKeep(limits, PlacedBranches(rest, depth));
    }
  }
}
