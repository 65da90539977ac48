/** Graph and run agree: the walks of the graph from the start to the end are exactly the
    visit orders of the steps, and completed runs follow them. */
module GraphWalks {
  import opened Workflow
  import opened Validate
  import opened Graph
  import opened GraphShape
  import opened Visits
  import Machine

  function Last(w: seq<string>): string
    requires w != []
  {
    w[|w| - 1]
  }

  /** From p through t along a built piece to one of its exits. */
  predicate Through(e: Pairs, exits: seq<string>, p: string, t: seq<string>) {
    IsWalk(e, [p] + t) && Last([p] + t) in exits
  }

  lemma WalkParts(e: Pairs, p: string, t: seq<string>, k: nat)
    requires k <= |t| && IsWalk(e, [p] + t)
    ensures IsWalk(e, [p] + t[..k]) && IsWalk(e, [Last([p] + t[..k])] + t[k..])
  {
    var w, a, x := [p] + t, [p] + t[..k], Last([p] + t[..k]);
    var b := [x] + t[k..];
    assert x == w[k];
    forall i | 0 < i < |a| ensures (a[i - 1], a[i]) in e { assert a[i - 1] == w[i - 1] && a[i] == w[i]; }
    forall i | 0 < i < |b| ensures (b[i - 1], b[i]) in e { assert b[i - 1] == w[k + i - 1] && b[i] == w[k + i]; }
  }

  lemma WalkJoins(e1: Pairs, e2: Pairs, p: string, t: seq<string>, k: nat)
    requires k <= |t| && IsWalk(e1, [p] + t[..k]) && IsWalk(e2, [Last([p] + t[..k])] + t[k..])
    ensures IsWalk(e1 + e2, [p] + t)
  {
    var w, a := [p] + t, [p] + t[..k];
    var b := [Last(a)] + t[k..];
    forall i | 0 < i < |w| ensures (w[i - 1], w[i]) in e1 + e2 {
      if i <= k { assert a[i - 1] == w[i - 1] && a[i] == w[i]; }
      else { assert b[i - k - 1] == w[i - 1] && b[i - k] == w[i]; }
    }
  }

  predicate Into(e: Pairs, ids: seq<string>, preds: seq<string>) {
    forall p | p in e :: p.1 in ids && (p.0 in ids || p.0 in preds)
  }

  /** How many leading elements of t are among ids. */
  function Prefix(t: seq<string>, ids: seq<string>): (k: nat)
    ensures k <= |t| && (forall i | 0 <= i < k :: t[i] in ids) && (k < |t| ==> t[k] !in ids)
  {
    if t == [] || t[0] !in ids then 0 else 1 + Prefix(t[1..], ids)
  }

  /** A walk through two joined pieces stays in the first, then in the second. */
  lemma {:induction false} StaysInSecond(e1: Pairs, e2: Pairs, ids1: seq<string>, ids2: seq<string>,
                                         preds: seq<string>, mid: seq<string>, x: string, t: seq<string>)
    requires Into(e1, ids1, preds) && Into(e2, ids2, mid) && Separate(ids1 + ids2, preds)
    requires IsWalk(e1 + e2, [x] + t) && (t != [] ==> t[0] in ids2)
    ensures IsWalk(e2, [x] + t) && (forall i | 0 <= i < |t| :: t[i] in ids2)
    decreases |t|
  {
    if t != [] {
      SeparateParts(ids1, ids2, preds);
      var w := [x] + t;
      assert (w[0], w[1]) in e1 + e2;
      assert (x, t[0]) in e2;
      WalkParts(e1 + e2, x, t, 1);
      assert Last([x] + t[..1]) == t[0];
      if |t| > 1 { assert (w[1], w[2]) in e1 + e2 && w[1] == t[0] && w[2] == t[1]; assert t[1..][0] in ids2; }
      StaysInSecond(e1, e2, ids1, ids2, preds, mid, t[0], t[1..]);
      var v := [t[0]] + t[1..];
      forall i | 0 < i < |w| ensures (w[i - 1], w[i]) in e2 {
        if i > 1 { assert v[i - 2] == w[i - 1] && v[i - 1] == w[i]; }
      }
    }
  }

  lemma StaysInFirst(e1: Pairs, e2: Pairs, ids1: seq<string>, ids2: seq<string>, preds: seq<string>,
                     mid: seq<string>, p: string, t: seq<string>)
    requires Into(e1, ids1, preds) && Into(e2, ids2, mid) && Separate(ids1 + ids2, preds)
    requires IsWalk(e1 + e2, [p] + t) && forall i | 0 <= i < |t| :: t[i] in ids1
    ensures IsWalk(e1, [p] + t)
  {
    SeparateParts(ids1, ids2, preds);
    var w := [p] + t;
    forall i | 0 < i < |w| ensures (w[i - 1], w[i]) in e1 { assert w[i] == t[i - 1]; }
  }

  lemma JoinThrough(e1: Pairs, exits1: seq<string>, ids1: seq<string>, preds: seq<string>,
                    e2: Pairs, exits2: seq<string>, ids2: seq<string>, p: string, t: seq<string>)
    requires Into(e1, ids1, preds) && Into(e2, ids2, exits1) && Separate(ids1 + ids2, preds) && p in preds
    requires forall x | x in exits2 :: x in ids2 || x in exits1
    ensures Through(e1 + e2, exits2, p, t) <==>
      exists k: nat :: SplitThrough(e1, exits1, e2, exits2, p, t, k)
  {
    if k: nat :| SplitThrough(e1, exits1, e2, exits2, p, t, k) {
      WalkJoins(e1, e2, p, t, k);
      assert Last([p] + t) == Last([Last([p] + t[..k])] + t[k..]);
    }
    if Through(e1 + e2, exits2, p, t) {
      SeparateParts(ids1, ids2, preds);
      var k := Prefix(t, ids1);
      var x := Last([p] + t[..k]);
      assert x == ([p] + t)[k];
      assert x !in ids2;
      WalkParts(e1 + e2, p, t, k);
      StaysInFirst(e1, e2, ids1, ids2, preds, exits1, p, t[..k]);
      if k < |t| {
        assert (x, t[k]) in e1 + e2 by { assert ([x] + t[k..])[0] == x && ([x] + t[k..])[1] == t[k]; }
        assert (x, t[k]) in e2;
      } else { assert x == Last([p] + t); }
      StaysInSecond(e1, e2, ids1, ids2, preds, exits1, x, t[k..]);
      assert Last([p] + t) == Last([x] + t[k..]);
      assert SplitThrough(e1, exits1, e2, exits2, p, t, k);
    }
  }

  ghost predicate SplitThrough(e1: Pairs, exits1: seq<string>, e2: Pairs, exits2: seq<string>,
                               p: string, t: seq<string>, k: nat)
  {
    && k <= |t|
    && Through(e1, exits1, p, t[..k])
    && Through(e2, exits2, Last([p] + t[..k]), t[k..])
  }

  lemma BothThrough(e1: Pairs, exits1: seq<string>, ids1: seq<string>,
                    e2: Pairs, exits2: seq<string>, ids2: seq<string>, p: string, t: seq<string>)
    requires Into(e1, ids1, [p]) && Into(e2, ids2, [p]) && Separate(ids1 + ids2, [p])
    requires (forall x | x in exits1 :: x in ids1 || x == p) && (forall x | x in exits2 :: x in ids2 || x == p)
    ensures Through(e1 + e2, exits1 + exits2, p, t) <==> Through(e1, exits1, p, t) || Through(e2, exits2, p, t)
  {
    SeparateParts(ids1, ids2, [p]);
    if Through(e1, exits1, p, t) || Through(e2, exits2, p, t) {
      forall i | 0 < i < |[p] + t| ensures (([p] + t)[i - 1], ([p] + t)[i]) in e1 + e2 { }
    }
    if Through(e1 + e2, exits1 + exits2, p, t) {
      if t == [] { assert Last([p] + t) == p; }
      else {
        var w := [p] + t;
        assert (w[0], w[1]) in e1 + e2 && w[1] == t[0];
        if t[0] in ids1 {
          assert Separate(ids2 + ids1, [p]) by { Swapped(ids1, ids2, [p]); }
          assert e2 + e1 == e1 + e2;
          StaysInSecond(e2, e1, ids2, ids1, [p], [p], p, t);
          assert Last(w) in ids1 by { assert Last(w) == t[|t| - 1]; }
          assert Last(w) !in ids2 && Last(w) != p;
        } else {
          StaysInSecond(e1, e2, ids1, ids2, [p], [p], p, t);
          assert Last(w) in ids2 by { assert Last(w) == t[|t| - 1]; }
          assert Last(w) !in ids1 && Last(w) != p;
        }
      }
    }
  }

  lemma Swapped(a: seq<string>, b: seq<string>, preds: seq<string>)
    requires Separate(a + b, preds)
    ensures Separate(b + a, preds)
  {
    SeparateParts(a, b, preds);
    var c := b + a;
    forall i, j | 0 <= i < j < |c| ensures c[i] != c[j] {
      if j < |b| { assert c[i] == b[i] && c[j] == b[j]; }
      else if i >= |b| { assert c[i] == a[i - |b|] && c[j] == a[j - |b|]; }
      else { assert c[i] in b && c[j] in a; }
    }
  }

  // ---- Walks through built pieces are visit orders ----

  lemma {:induction false} StepsThrough(steps: seq<Step>, preds: seq<string>, r: Region, p: string, t: seq<string>)
    requires Sound(steps) && NoParallels(steps) && Separate(Ids(steps), preds) && "" !in preds && p in preds
    ensures var b := OfSteps(steps, preds, r); Through(PairsOf(b.edges), b.exits, p, t) <==> StepsVisit(steps, t)
    decreases steps, 0
  {
    if steps == [] { NoEdges(preds, p, t); }
    else {
      assert SoundStep(steps[0]) by { assert steps[0] in steps; }
      SeparateParts(IdsOf(steps[0]), Ids(steps[1..]), preds);
      StepShape(steps[0], preds, r);
      var b := OfStep(steps[0], preds, r);
      forall k: nat | k <= |t|
        ensures Through(PairsOf(b.edges), b.exits, p, t[..k]) <==> StepVisit(steps[0], t[..k])
      {
        StepThrough(steps[0], preds, r, p, t[..k]);
      }
      RestThrough(steps, b, preds, r, p, t);
    }
  }

  lemma NoPairs()
    ensures PairsOf([]) == {}
  {
  }

  lemma NoEdges(preds: seq<string>, p: string, t: seq<string>)
    requires p in preds
    ensures Through({}, preds, p, t) <==> t == []
  {
    var e: Pairs, w := {}, [p] + t;
    if t != [] { assert (w[1 - 1], w[1]) !in e; assert !IsWalk(e, w); }
  }

  lemma {:induction false} RestThrough(steps: seq<Step>, b: Built, preds: seq<string>, r: Region, p: string,
                                       t: seq<string>)
    requires steps != [] && Sound(steps) && NoParallels(steps) && Separate(Ids(steps), preds) && p in preds
    requires Into(PairsOf(b.edges), IdsOf(steps[0]), preds) && b.exits != []
    requires "" !in IdsOf(steps[0]) && forall x | x in b.exits :: x in IdsOf(steps[0])
    requires forall k: nat | k <= |t| ::
      Through(PairsOf(b.edges), b.exits, p, t[..k]) <==> StepVisit(steps[0], t[..k])
    ensures var c := Join(b, OfSteps(steps[1..], b.exits, r));
      Through(PairsOf(c.edges), c.exits, p, t) <==> StepsVisit(steps, t)
    decreases steps, 0, 1
  {
    var d := OfSteps(steps[1..], b.exits, r);
    RestJoins(steps, b, preds, r, p, t);
    if k: nat :| SplitThrough(PairsOf(b.edges), b.exits, PairsOf(d.edges), d.exits, p, t, k) {
      SplitIsVisit(steps, b, preds, r, p, t, k);
    }
    if k: nat :| VisitSplit(steps, t, k) { SplitIsVisit(steps, b, preds, r, p, t, k); }
  }

  lemma RestJoins(steps: seq<Step>, b: Built, preds: seq<string>, r: Region, p: string, t: seq<string>)
    requires steps != [] && Sound(steps) && NoParallels(steps) && Separate(Ids(steps), preds) && p in preds
    requires Into(PairsOf(b.edges), IdsOf(steps[0]), preds) && b.exits != []
    requires "" !in IdsOf(steps[0]) && forall x | x in b.exits :: x in IdsOf(steps[0])
    ensures var d := OfSteps(steps[1..], b.exits, r); var c := Join(b, d);
      Through(PairsOf(c.edges), c.exits, p, t) <==>
      exists k: nat :: SplitThrough(PairsOf(b.edges), b.exits, PairsOf(d.edges), d.exits, p, t, k)
  {
    var d := OfSteps(steps[1..], b.exits, r);
    RestIsSound(steps, b.exits, preds);
    StepsShape(steps[1..], b.exits, r);
    PairsConcat(b.edges, d.edges);
    JoinThrough(PairsOf(b.edges), b.exits, IdsOf(steps[0]), preds, PairsOf(d.edges), d.exits, Ids(steps[1..]), p, t);
  }

  lemma {:induction false} SplitIsVisit(steps: seq<Step>, b: Built, preds: seq<string>, r: Region, p: string,
                                        t: seq<string>, k: nat)
    requires steps != [] && Sound(steps) && NoParallels(steps) && Separate(Ids(steps), preds) && p in preds && k <= |t|
    requires "" !in IdsOf(steps[0]) && forall x | x in b.exits :: x in IdsOf(steps[0])
    requires Through(PairsOf(b.edges), b.exits, p, t[..k]) <==> StepVisit(steps[0], t[..k])
    ensures var d := OfSteps(steps[1..], b.exits, r);
      SplitThrough(PairsOf(b.edges), b.exits, PairsOf(d.edges), d.exits, p, t, k) <==> VisitSplit(steps, t, k)
    decreases steps, 0, 0
  {
    if Through(PairsOf(b.edges), b.exits, p, t[..k]) {
      RestIsSound(steps, b.exits, preds);
      StepsThrough(steps[1..], b.exits, r, Last([p] + t[..k]), t[k..]);
    }
  }

  lemma RestIsSound(steps: seq<Step>, exits: seq<string>, preds: seq<string>)
    requires steps != [] && Sound(steps) && NoParallels(steps) && Separate(Ids(steps), preds)
    requires forall x | x in exits :: x in IdsOf(steps[0])
    ensures Sound(steps[1..]) && NoParallels(steps[1..]) && Separate(Ids(steps[1..]), exits)
    ensures Ids(steps) == IdsOf(steps[0]) + Ids(steps[1..])
  {
    SeparateParts(IdsOf(steps[0]), Ids(steps[1..]), preds);
    forall s | s in steps[1..] ensures SoundStep(s) { assert s in steps; }
  }

  lemma HeadThrough(id: string, e: Pairs, preds: seq<string>, p: string, t: seq<string>)
    requires (forall q :: q in e <==> q.0 in preds && q.1 == id) && id !in preds && p in preds
    ensures Through(e, [id], p, t) <==> t == [id]
  {
    var w := [p] + t;
    if t == [] { assert Last(w) == p && p != id; }
    else if t[0] != id { assert (w[1 - 1], w[1]) !in e; assert !IsWalk(e, w); }
    else if |t| > 1 { assert (w[2 - 1], w[2]) !in e; assert !IsWalk(e, w); }
    else { assert t == [id] && (p, id) in e && Last(w) == id; }
  }

  lemma {:induction false} StepThrough(s: Step, preds: seq<string>, r: Region, p: string, t: seq<string>)
    requires SoundStep(s) && NoParallel(s) && Separate(IdsOf(s), preds) && "" !in preds && p in preds
    ensures var b := OfStep(s, preds, r); Through(PairsOf(b.edges), b.exits, p, t) <==> StepVisit(s, t)
    decreases s, 2
  {
    assert s.id !in preds by { assert IdsOf(s)[0] == s.id && IdsOf(s)[0] in IdsOf(s); }
    EdgesToPairs(preds, s.id);
    HeadedThrough(s, Built([NodeOf(s, r)], EdgesTo(preds, s.id), [s.id]), preds, r, p, t);
  }

  lemma {:induction false} HeadedThrough(s: Step, head: Built, preds: seq<string>, r: Region, p: string, t: seq<string>)
    requires SoundStep(s) && NoParallel(s) && Separate(IdsOf(s), preds) && p in preds
    requires head.exits == [s.id] && forall q :: q in PairsOf(head.edges) <==> q.0 in preds && q.1 == s.id
    ensures var b := Join(head, Inside(s, r)); Through(PairsOf(b.edges), b.exits, p, t) <==> StepVisit(s, t)
    decreases s, 1
  {
    var inner := IdsOf(s)[1..];
    assert IdsOf(s) == [s.id] + inner;
    SeparateParts([s.id], inner, preds);
    assert s.id !in preds by { assert s.id in IdsOf(s); }
    assert Separate(inner, [s.id]);
    InsideShape(s, r);
    var e1, e2 := PairsOf(head.edges), PairsOf(Inside(s, r).edges);
    PairsConcat(head.edges, Inside(s, r).edges);
    JoinThrough(e1, [s.id], [s.id], preds, e2, Inside(s, r).exits, inner, p, t);
    forall k: nat | k <= |t| ensures Through(e1, [s.id], p, t[..k]) <==> t[..k] == [s.id] {
      HeadThrough(s.id, e1, preds, p, t[..k]);
    }
    if t != [] && t[0] == s.id {
      assert t[..1] == [s.id];
      InsideThrough(s, r, t[1..]);
      assert Last([p] + t[..1]) == s.id;
      if StepVisit(s, t) { assert SplitThrough(e1, [s.id], e2, Inside(s, r).exits, p, t, 1); }
    }
    if k: nat :| SplitThrough(e1, [s.id], e2, Inside(s, r).exits, p, t, k) {
      assert t[..k] == [s.id];
      assert |t[..k]| == 1 && t[0] == t[..k][0];
    }
  }

  lemma {:induction false} InsideThrough(s: Step, r: Region, t: seq<string>)
    requires SoundStep(s) && NoParallel(s) && Separate(IdsOf(s)[1..], [s.id])
    ensures Through(PairsOf(Inside(s, r).edges), Inside(s, r).exits, s.id, t) <==> InnerVisit(s, t)
    decreases s, 0
  {
    match s.node
    case If(_, thn, els) =>
      var a := OfBranch(thn, s.id, Branch, ThenLabel, ThenOf(r));
      var b := OfBranch(els, s.id, Branch, ElseLabel, ElseOf(r));
      assert IdsOf(s)[1..] == Ids(thn) + Ids(els);
      SeparateParts(Ids(thn), Ids(els), [s.id]);
      BranchShape(thn, s.id, Branch, ThenLabel, ThenOf(r));
      BranchShape(els, s.id, Branch, ElseLabel, ElseOf(r));
      PairsConcat(a.edges, b.edges);
      BothThrough(PairsOf(a.edges), a.exits, Ids(thn), PairsOf(b.edges), b.exits, Ids(els), s.id, t);
      BranchThrough(thn, s.id, Branch, ThenLabel, ThenOf(r), t);
      BranchThrough(els, s.id, Branch, ElseLabel, ElseOf(r), t);
    case Foreach(_, _, body) =>
      assert IdsOf(s)[1..] == Ids(body);
      BranchThrough(body, s.id, Sequential, NoLabel, BodyOf(r), t);
    case _ =>
      NoPairs();
      NoEdges([s.id], s.id, t);
  }

  lemma {:induction false} BranchThrough(steps: seq<Step>, src: string, typ: EdgeType, tag: Label, r: Region,
                                         t: seq<string>)
    requires Sound(steps) && NoParallels(steps) && Separate(Ids(steps), [src]) && src != ""
    ensures var b := OfBranch(steps, src, typ, tag, r);
      Through(PairsOf(b.edges), b.exits, src, t) <==> StepsVisit(steps, t)
    decreases steps, 0
  {
    if steps == [] {
      NoPairs();
      NoEdges([src], src, t);
    } else {
      var s := steps[0];
      assert SoundStep(s) by { assert s in steps; }
      SeparateParts(IdsOf(s), Ids(steps[1..]), [src]);
      assert s.id != src by { assert IdsOf(s)[0] == s.id && IdsOf(s)[0] in IdsOf(s); }
      var head := Built([NodeOf(s, r)], NewEdge(src, s.id, typ, tag), [s.id]);
      var b := Join(head, Inside(s, r));
      HeadedShape(s, head, [src], r);
      forall k: nat | k <= |t|
        ensures Through(PairsOf(b.edges), b.exits, src, t[..k]) <==> StepVisit(s, t[..k])
      {
        HeadedThrough(s, head, [src], r, src, t[..k]);
      }
      RestThrough(steps, b, [src], r, src, t);
    }
  }

  // ---- The whole graph ----

  /** From the start, by way of the trigger that fires if there are any, through t, to the end. */
  function Path(doc: Doc, p: string, t: seq<string>): seq<string> {
    (if doc.triggers == [] then [START] else [START, p]) + t + [END]
  }

  ghost predicate IsVisitPath(doc: Doc, w: seq<string>, p: string, t: seq<string>) {
    p in Entries(doc) && w == Path(doc, p, t) && StepsVisit(doc.steps, t)
  }

  lemma EntryThrough(doc: Doc, v: seq<string>)
    requires Separate(TriggerIds(doc.triggers), [START])
    ensures Through(PairsOf(TriggerEdges(doc.triggers)), Entries(doc), START, v)
      <==> if doc.triggers == [] then v == [] else |v| == 1 && v[0] in Entries(doc)
  {
    var e, ids := PairsOf(TriggerEdges(doc.triggers)), TriggerIds(doc.triggers);
    var w := [START] + v;
    if doc.triggers == [] {
      NoPairs();
      NoEdges([START], START, v);
    } else {
      assert Entries(doc) == ids;
      forall i | 0 <= i < |ids| ensures (START, ids[i]) in e {
        assert TriggerEdges(doc.triggers)[i] in TriggerEdges(doc.triggers);
      }
      assert START !in ids by { forall i | 0 <= i < |ids| ensures ids[i] != START { assert ids[i] in ids; } }
      assert forall q | q in e :: q.0 == START && q.1 != START by {
        forall k | k in TriggerEdges(doc.triggers) ensures k.src == START && k.dst != START {
          var i :| 0 <= i < |ids| && TriggerEdges(doc.triggers)[i] == k;
          assert k.dst == ids[i] && ids[i] in ids;
        }
      }
      if |v| == 0 { assert Last(w) == START; }
      else if |v| > 1 {
        if w[1] == START { assert (w[1 - 1], w[1]) !in e; } else { assert (w[2 - 1], w[2]) !in e; }
        assert !IsWalk(e, w);
      } else { assert v == [v[0]] && Last(w) == v[0]; }
    }
  }

  /** v enters at p, when there are triggers by way of it, and goes on through t. */
  ghost predicate EntrySplit(doc: Doc, v: seq<string>, p: string, t: seq<string>) {
    p in Entries(doc) && v == (if doc.triggers == [] then [] else [p]) + t && StepsVisit(doc.steps, t)
  }

  lemma DocInto(doc: Doc, limits: Limits)
    requires ValidDoc(doc, limits)
    ensures Into(PairsOf(TriggerEdges(doc.triggers)), TriggerIds(doc.triggers), [START])
    ensures var b := OfSteps(doc.steps, Entries(doc), Main);
      Into(PairsOf(b.edges), Ids(doc.steps), Entries(doc))
      && forall x | x in b.exits :: x in Ids(doc.steps) || x in Entries(doc)
  {
    DocParts(doc, limits);
    EntryShape(doc);
    BodyShape(doc, limits);
  }

  lemma BodyThrough(doc: Doc, limits: Limits, v: seq<string>)
    requires ValidDoc(doc, limits) && NoParallels(doc.steps)
    ensures var b := OfSteps(doc.steps, Entries(doc), Main);
      Through(PairsOf(TriggerEdges(doc.triggers) + b.edges), b.exits, START, v) <==>
        exists p, t :: EntrySplit(doc, v, p, t)
  {
    var b := OfSteps(doc.steps, Entries(doc), Main);
    var e1, e2 := PairsOf(TriggerEdges(doc.triggers)), PairsOf(b.edges);
    DocParts(doc, limits);
    DocInto(doc, limits);
    PairsConcat(TriggerEdges(doc.triggers), b.edges);
    JoinThrough(e1, Entries(doc), TriggerIds(doc.triggers), [START], e2, b.exits, Ids(doc.steps), START, v);
    if k: nat :| SplitThrough(e1, Entries(doc), e2, b.exits, START, v, k) { SplitIsEntry(doc, limits, v, k); }
    if p, t :| EntrySplit(doc, v, p, t) { EntryIsSplit(doc, limits, v, p, t); }
  }

  lemma SplitIsEntry(doc: Doc, limits: Limits, v: seq<string>, k: nat)
    requires ValidDoc(doc, limits) && NoParallels(doc.steps)
    requires var b := OfSteps(doc.steps, Entries(doc), Main);
      SplitThrough(PairsOf(TriggerEdges(doc.triggers)), Entries(doc), PairsOf(b.edges), b.exits, START, v, k)
    ensures EntrySplit(doc, v, Last([START] + v[..k]), v[k..])
  {
    var p, t := Last([START] + v[..k]), v[k..];
    DocParts(doc, limits);
    EntryThrough(doc, v[..k]);
    EntryIs(doc, v[..k], p);
    StepsThrough(doc.steps, Entries(doc), Main, p, t);
    assert v == v[..k] + t;
  }

  lemma EntryIs(doc: Doc, v: seq<string>, p: string)
    requires if doc.triggers == [] then v == [] else |v| == 1 && v[0] in Entries(doc)
    requires p == Last([START] + v)
    ensures p in Entries(doc) && v == if doc.triggers == [] then [] else [p]
  {
    if doc.triggers == [] { assert [START] + v == [START]; } else { assert v == [v[0]]; }
  }

  lemma EntryIsSplit(doc: Doc, limits: Limits, v: seq<string>, p: string, t: seq<string>)
    requires ValidDoc(doc, limits) && NoParallels(doc.steps) && EntrySplit(doc, v, p, t)
    ensures var b := OfSteps(doc.steps, Entries(doc), Main);
      SplitThrough(PairsOf(TriggerEdges(doc.triggers)), Entries(doc), PairsOf(b.edges), b.exits, START, v,
                   if doc.triggers == [] then 0 else 1)
  {
    var k := if doc.triggers == [] then 0 else 1;
    assert v[..k] == (if doc.triggers == [] then [] else [p]) && v[k..] == t;
    DocParts(doc, limits);
    EntryThrough(doc, v[..k]);
    assert Last([START] + v[..k]) == p;
    StepsThrough(doc.steps, Entries(doc), Main, p, t);
  }

  lemma DocParts(doc: Doc, limits: Limits)
    requires ValidDoc(doc, limits)
    ensures Separate(TriggerIds(doc.triggers) + Ids(doc.steps), [START])
    ensures Separate(TriggerIds(doc.triggers), [START]) && Separate(Ids(doc.steps), Entries(doc))
    ensures Sound(doc.steps) && "" !in Entries(doc)
  {
    var ids, steps := TriggerIds(doc.triggers), Ids(doc.steps);
    AllIdsSeparate(doc, limits);
    SeparateParts(ids + steps, [END], [START]);
    SeparateParts(ids, steps, [START]);
    ValidIsSound(doc.steps, 0, limits);
    assert Entries(doc) == if doc.triggers == [] then [START] else ids;
  }

  /** The walks of the graph from the start to the end are the visit orders of the steps,
      entered at the start or at any one trigger. */
  lemma WalksAreVisits(doc: Doc, limits: Limits, w: seq<string>)
    requires ValidDoc(doc, limits) && NoParallels(doc.steps)
    ensures WalkBetween(PairsOf(GraphOf(doc).edges), w, START, END) <==> exists p, t :: IsVisitPath(doc, w, p, t)
  {
    if w == [] || w[0] != START {
      forall p, t ensures !IsVisitPath(doc, w, p, t) { assert Path(doc, p, t)[0] == START; }
    } else {
      assert w == [START] + w[1..];
      FullThrough(doc, limits, w[1..]);
      if w[1..] != [] && Last(w[1..]) == END {
        var v := w[1..][..|w[1..]| - 1];
        assert w[1..] == v + [END];
        BodyThrough(doc, limits, v);
        PathsAre(doc, w, v);
      } else {
        EndsInEnd(doc, w);
      }
    }
  }

  lemma PathsAre(doc: Doc, w: seq<string>, v: seq<string>)
    requires w == [START] + (v + [END])
    ensures (exists p, t :: IsVisitPath(doc, w, p, t)) <==> exists p, t :: EntrySplit(doc, v, p, t)
  {
    forall p, t ensures IsVisitPath(doc, w, p, t) <==> EntrySplit(doc, v, p, t) {
      var x := (if doc.triggers == [] then [] else [p]) + t;
      assert Path(doc, p, t) == [START] + (x + [END]);
      assert Path(doc, p, t)[1..|x| + 1] == x && w[1..|v| + 1] == v;
    }
  }

  lemma EndsInEnd(doc: Doc, w: seq<string>)
    requires w != [] && (w[1..] == [] || Last(w[1..]) != END)
    ensures forall p, t :: !IsVisitPath(doc, w, p, t)
  {
    forall p, t ensures !IsVisitPath(doc, w, p, t) {
      var x := Path(doc, p, t);
      assert |x| > 1 && Last(x) == END && Last(x[1..]) == END;
    }
  }

  lemma FullThrough(doc: Doc, limits: Limits, u: seq<string>)
    requires ValidDoc(doc, limits)
    ensures var b := OfSteps(doc.steps, Entries(doc), Main);
      Through(PairsOf(GraphOf(doc).edges), [END], START, u) <==>
      u != [] && Last(u) == END && Through(PairsOf(TriggerEdges(doc.triggers) + b.edges), b.exits, START, u[..|u| - 1])
  {
    var ids, steps := TriggerIds(doc.triggers), Ids(doc.steps);
    var b := OfSteps(doc.steps, Entries(doc), Main);
    var e1, e2 := PairsOf(TriggerEdges(doc.triggers) + b.edges), PairsOf(EdgesTo(b.exits, END));
    BodyExits(doc, limits);
    AllIdsSeparate(doc, limits);
    DocInto(doc, limits);
    PairsConcat(TriggerEdges(doc.triggers), b.edges);
    PairsConcat(TriggerEdges(doc.triggers) + b.edges, EdgesTo(b.exits, END));
    EdgesToPairs(b.exits, END);
    EntriesAre(doc);
    assert Into(e1, ids + steps, [START]);
    JoinThrough(e1, b.exits, ids + steps, [START], e2, [END], [END], START, u);
    EndThrough(e1, b.exits, e2, u);
  }

  lemma EntriesAre(doc: Doc)
    ensures forall p | p in Entries(doc) :: p in TriggerIds(doc.triggers) || p in [START]
  {
    if doc.triggers != [] { assert Entries(doc) == TriggerIds(doc.triggers); }
  }

  /** A walk whose second part is one edge to the end. */
  lemma EndThrough(e1: Pairs, exits: seq<string>, e2: Pairs, u: seq<string>)
    requires (forall q :: q in e2 <==> q.0 in exits && q.1 == END) && END !in exits
    ensures (exists k: nat :: SplitThrough(e1, exits, e2, [END], START, u, k))
      <==> u != [] && Last(u) == END && Through(e1, exits, START, u[..|u| - 1])
  {
    if k: nat :| SplitThrough(e1, exits, e2, [END], START, u, k) {
      HeadThrough(END, e2, exits, Last([START] + u[..k]), u[k..]);
      assert u == u[..k] + [END];
      assert u[..|u| - 1] == u[..k];
    }
    if u != [] && Last(u) == END && Through(e1, exits, START, u[..|u| - 1]) {
      var k := |u| - 1;
      assert u[k..] == [END];
      HeadThrough(END, e2, exits, Last([START] + u[..k]), u[k..]);
      assert SplitThrough(e1, exits, e2, [END], START, u, k);
    }
  }

  // ---- Visit orders and outcomes of conditions ----

  /** The visit order when exactly the `if` steps in `taken` go to their then-branch. */
  function Order(steps: seq<Step>, taken: set<string>): seq<string>
    decreases steps, 0
  {
    if steps == [] then [] else OrderOf(steps[0], taken) + Order(steps[1..], taken)
  }

  function OrderOf(s: Step, taken: set<string>): seq<string>
    decreases s, 0
  {
    [s.id] + match s.node
      case If(_, thn, els) => if s.id in taken then Order(thn, taken) else Order(els, taken)
      case Foreach(_, _, body) => Order(body, taken)
      case _ => []
  }

  lemma {:induction false} OrderIsVisit(steps: seq<Step>, taken: set<string>)
    requires NoParallels(steps)
    ensures StepsVisit(steps, Order(steps, taken))
    decreases steps, 0
  {
    if steps != [] {
      var t, k := Order(steps, taken), |OrderOf(steps[0], taken)|;
      OrderOfIsVisit(steps[0], taken);
      OrderIsVisit(steps[1..], taken);
      assert t[..k] == OrderOf(steps[0], taken) && t[k..] == Order(steps[1..], taken);
      assert VisitSplit(steps, t, k);
    }
  }

  lemma {:induction false} OrderOfIsVisit(s: Step, taken: set<string>)
    requires NoParallel(s)
    ensures StepVisit(s, OrderOf(s, taken))
    decreases s, 0
  {
    assert OrderOf(s, taken)[1..] == match s.node
      case If(_, thn, els) => if s.id in taken then Order(thn, taken) else Order(els, taken)
      case Foreach(_, _, body) => Order(body, taken)
      case _ => [];
    match s.node
    case If(_, thn, els) => if s.id in taken { OrderIsVisit(thn, taken); } else { OrderIsVisit(els, taken); }
    case Foreach(_, _, body) => OrderIsVisit(body, taken);
    case _ =>
  }

  lemma {:induction false} OrderLocal(steps: seq<Step>, taken: set<string>, taken': set<string>)
    requires forall id | id in Ids(steps) :: id in taken <==> id in taken'
    ensures Order(steps, taken) == Order(steps, taken')
    decreases steps, 0
  {
    if steps != [] {
      OrderOfLocal(steps[0], taken, taken');
      OrderLocal(steps[1..], taken, taken');
    }
  }

  lemma {:induction false} OrderOfLocal(s: Step, taken: set<string>, taken': set<string>)
    requires forall id | id in IdsOf(s) :: id in taken <==> id in taken'
    ensures OrderOf(s, taken) == OrderOf(s, taken')
    decreases s, 0
  {
    assert IdsOf(s)[0] == s.id;
    match s.node
    case If(_, thn, els) =>
      OrderLocal(thn, taken, taken');
      OrderLocal(els, taken, taken');
    case Foreach(_, _, body) => OrderLocal(body, taken, taken');
    case _ =>
  }

  /** Every visit order is the order for some outcome of the conditions. */
  lemma {:induction false} VisitIsOrder(steps: seq<Step>, t: seq<string>) returns (taken: set<string>)
    requires NoParallels(steps) && StepsVisit(steps, t) && Separate(Ids(steps), [])
    ensures t == Order(steps, taken) && forall id | id in taken :: id in Ids(steps)
    decreases steps, 0
  {
    if steps == [] { taken := {}; }
    else {
      var k: nat :| VisitSplit(steps, t, k);
      SeparateParts(IdsOf(steps[0]), Ids(steps[1..]), []);
      var a := VisitIsOrderOf(steps[0], t[..k]);
      var b := VisitIsOrder(steps[1..], t[k..]);
      taken := a + b;
      OrderOfLocal(steps[0], a, taken);
      OrderLocal(steps[1..], b, taken);
      assert t == t[..k] + t[k..];
    }
  }

  lemma {:induction false} VisitIsOrderOf(s: Step, t: seq<string>) returns (taken: set<string>)
    requires NoParallel(s) && StepVisit(s, t) && Separate(IdsOf(s), [])
    ensures t == OrderOf(s, taken) && forall id | id in taken :: id in IdsOf(s)
    decreases s, 0
  {
    var inner := IdsOf(s)[1..];
    assert IdsOf(s) == [s.id] + inner;
    SeparateParts([s.id], inner, []);
    assert s.id in [s.id] && s.id !in inner;
    assert t == [s.id] + t[1..];
    match s.node
    case If(_, thn, els) =>
      assert inner == Ids(thn) + Ids(els);
      assert Separate(Ids(thn) + Ids(els), []);
      SeparateParts(Ids(thn), Ids(els), []);
      assert s.id !in Ids(thn) + Ids(els);
      if StepsVisit(thn, t[1..]) {
        var a := VisitIsOrder(thn, t[1..]);
        taken := a + {s.id};
        OrderLocal(thn, a, taken);
      } else {
        taken := VisitIsOrder(els, t[1..]);
        assert s.id !in taken;
      }
    case Foreach(_, _, body) =>
      assert inner == Ids(body);
      taken := VisitIsOrder(body, t[1..]);
    case _ => taken := {};
  }

  /** For a valid document without `parallel`: a completed run whose every iterated list
      has one element walks the graph from the start (or a trigger) to the end, and every
      such walk of the graph is the visit order for some outcome of the conditions. */
  lemma GraphAndRunAgree(doc: Doc, limits: Limits, env: Env, schedule: seq<Machine.Event>, p: string)
    requires ValidDoc(doc, limits) && NoParallels(doc.steps) && p in Entries(doc)
    requires Machine.Run(env, Machine.Start(doc.steps), schedule).Some?
    requires var g := Machine.Run(env, Machine.Start(doc.steps), schedule).value;
      g.single && g.proc == Machine.Ret(None)
    ensures var g := Machine.Run(env, Machine.Start(doc.steps), schedule).value;
      WalkBetween(PairsOf(GraphOf(doc).edges), Path(doc, p, g.visited), START, END)
  {
    CompletedRunVisits(env, doc.steps, schedule);
    var t := Machine.Run(env, Machine.Start(doc.steps), schedule).value.visited;
    WalksAreVisits(doc, limits, Path(doc, p, t));
    assert IsVisitPath(doc, Path(doc, p, t), p, t);
  }

  lemma EveryWalkIsAnOutcome(doc: Doc, limits: Limits, w: seq<string>)
    requires ValidDoc(doc, limits) && NoParallels(doc.steps)
    ensures WalkBetween(PairsOf(GraphOf(doc).edges), w, START, END)
      <==> exists p, taken :: p in Entries(doc) && w == Path(doc, p, Order(doc.steps, taken))
  {
    WalksAreVisits(doc, limits, w);
    FreshMeansDistinct(Ids(doc.steps), {});
    if p, t :| IsVisitPath(doc, w, p, t) {
      var taken := VisitIsOrder(doc.steps, t);
      assert p in Entries(doc) && w == Path(doc, p, Order(doc.steps, taken));
    }
    if p, taken :| p in Entries(doc) && w == Path(doc, p, Order(doc.steps, taken)) {
      OrderIsVisit(doc.steps, taken);
      assert IsVisitPath(doc, w, p, Order(doc.steps, taken));
    }
  }
}
