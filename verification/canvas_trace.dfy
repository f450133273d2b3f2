/** The observable effect of drawing: the calls a renderer makes on the current
    PDF canvas and on the draw context, as a trace of events. The PDF canvas
    itself is not modelled; each call is one `Op`. */
module CanvasTrace {
  import opened Wrappers

  /** An RGB colour, as the colour lookup returns it. */
  datatype Rgb = Rgb(red: real, green: real, blue: real)

  /** `ColorConstants.BLACK`. */
  const Black: Rgb := Rgb(0.0, 0.0, 0.0)

  /** The matrix `[[a c e] [b d f] [0 0 1]]`. */
  datatype AffineTransform = AffineTransform(a: real, b: real, c: real, d: real, e: real, f: real)

  /** One call on the current canvas, or the registration of the renderer
      under an id in the draw context. `SetFillColor(None)` is the canvas
      receiving `null`. Path construction is what subclasses issue. */
  datatype Op =
    | ConcatMatrix(transform: AffineTransform)
    | SetFillColor(fillColor: Option<Rgb>)
    | SetStrokeColor(strokeColor: Rgb)
    | SetLineWidth(width: real)
    | MoveTo(x: real, y: real)
    | LineTo(x: real, y: real)
    | CurveTo(x1: real, y1: real, x2: real, y2: real, x3: real, y3: real)
    | Fill
    | EoFill
    | Stroke
    | ClosePath
    | AddNamedObject(id: Option<string>)

  /** The step of the draw template that issued an event, in template order. */
  datatype Step = TransformStep | PreDrawStep | DoDrawStep | PostDrawStep | IdStep

  function Rank(s: Step): (k: nat)
    ensures k < 5
  {
    match s
    case TransformStep => 0
    case PreDrawStep => 1
    case DoDrawStep => 2
    case PostDrawStep => 3
    case IdStep => 4
  }

  function StepOfRank(k: nat): (s: Step)
    requires k < 5
    ensures Rank(s) == k
  {
    if k == 0 then TransformStep
    else if k == 1 then PreDrawStep
    else if k == 2 then DoDrawStep
    else if k == 3 then PostDrawStep
    else IdStep
  }

  lemma RankInjective(s: Step, t: Step)
    ensures Rank(s) == Rank(t) ==> s == t
  {
  }

  datatype Event = Event(step: Step, op: Op)

  /** The canvas calls of a trace, in order. */
  function Ops(t: seq<Event>): (ops: seq<Op>)
    ensures |ops| == |t|
  {
    if |t| == 0 then [] else [t[0].op] + Ops(t[1..])
  }

  /** The calls issued by one step, in order. */
  function Project(t: seq<Event>, s: Step): seq<Op>
  {
    if |t| == 0 then []
    else (if t[0].step == s then [t[0].op] else []) + Project(t[1..], s)
  }

  /** `ops`, each attributed to step `s`. */
  function Tag(s: Step, ops: seq<Op>): (t: seq<Event>)
    ensures |t| == |ops|
    ensures forall i :: 0 <= i < |ops| ==> t[i] == Event(s, ops[i])
  {
    if |ops| == 0 then [] else [Event(s, ops[0])] + Tag(s, ops[1..])
  }

  /** No event of a later step comes before an event of an earlier one. */
  predicate Ordered(t: seq<Event>)
  {
    forall i, j :: 0 <= i < j < |t| ==> Rank(t[i].step) <= Rank(t[j].step)
  }

  predicate RanksWithin(t: seq<Event>, lo: nat, hi: nat)
  {
    forall i :: 0 <= i < |t| ==> lo <= Rank(t[i].step) <= hi
  }

  lemma ConcatAssoc<T>(x: seq<T>, y: seq<T>, z: seq<T>)
    ensures (x + y) + z == x + (y + z)
  {
  }

  lemma {:induction false} ProjectAppend(a: seq<Event>, b: seq<Event>, s: Step)
    ensures Project(a + b, s) == Project(a, s) + Project(b, s)
  {
    if |a| == 0 {
      assert a + b == b;
    } else {
      var ab := a + b;
      assert ab[0] == a[0];
      assert ab[1..] == a[1..] + b;
      ProjectAppend(a[1..], b, s);
      var head: seq<Op> := if a[0].step == s then [a[0].op] else [];
      assert Project(ab, s) == head + (Project(a[1..], s) + Project(b, s));
      assert Project(a, s) == head + Project(a[1..], s);
      ConcatAssoc(head, Project(a[1..], s), Project(b, s));
    }
  }

  lemma {:induction false} ProjectAbsent(t: seq<Event>, s: Step)
    requires forall i :: 0 <= i < |t| ==> t[i].step != s
    ensures Project(t, s) == []
  {
    if |t| > 0 {
      ProjectAbsent(t[1..], s);
    }
  }

  /** Every event shows up in the projection on its own step. */
  lemma {:induction false} ProjectContains(t: seq<Event>, i: nat)
    requires i < |t|
    ensures t[i].op in Project(t, t[i].step)
  {
    if i > 0 {
      assert t[1..][i - 1] == t[i];
      ProjectContains(t[1..], i - 1);
    }
  }

  lemma {:induction false} ProjectTag(p: Step, ops: seq<Op>, s: Step)
    ensures Project(Tag(p, ops), s) == if p == s then ops else []
  {
    if |ops| > 0 {
      assert Tag(p, ops)[1..] == Tag(p, ops[1..]);
      ProjectTag(p, ops[1..], s);
    }
  }

  lemma OrderedAppend(a: seq<Event>, b: seq<Event>, k: nat)
    requires Ordered(a) && Ordered(b)
    requires forall i :: 0 <= i < |a| ==> Rank(a[i].step) <= k
    requires forall i :: 0 <= i < |b| ==> k <= Rank(b[i].step)
    ensures Ordered(a + b)
  {
  }

  /** The steps of rank `k` and above, concatenated in template order. */
  function Layers(t: seq<Event>, k: nat): seq<Op>
    requires k <= 5
    decreases 5 - k
  {
    if k == 5 then [] else Project(t, StepOfRank(k)) + Layers(t, k + 1)
  }

  lemma {:induction false} LayersOfEmpty(k: nat)
    requires k <= 5
    ensures Layers([], k) == []
    decreases 5 - k
  {
    if k < 5 {
      LayersOfEmpty(k + 1);
    }
  }

  /** Steps below every rank present contribute nothing. */
  lemma {:induction false} LayersSkipLower(t: seq<Event>, k: nat, m: nat)
    requires k <= m <= 5
    requires forall i :: 0 <= i < |t| ==> m <= Rank(t[i].step)
    ensures Layers(t, k) == Layers(t, m)
    decreases m - k
  {
    if k < m {
      ProjectAbsent(t, StepOfRank(k));
      LayersSkipLower(t, k + 1, m);
    }
  }

  /** An event of a lower rank than `j` is invisible to the layers from `j`. */
  lemma {:induction false} LayersDropHead(t: seq<Event>, j: nat)
    requires |t| > 0 && j <= 5 && Rank(t[0].step) < j
    ensures Layers(t, j) == Layers(t[1..], j)
    decreases 5 - j
  {
    if j < 5 {
      LayersDropHead(t, j + 1);
    }
  }

  lemma OrderedTail(t: seq<Event>)
    requires |t| > 0 && Ordered(t)
    ensures Ordered(t[1..])
    ensures forall i :: 0 <= i < |t| - 1 ==> Rank(t[0].step) <= Rank(t[1..][i].step)
  {
    forall i, j | 0 <= i < j < |t| - 1
      ensures Rank(t[1..][i].step) <= Rank(t[1..][j].step)
    {
      assert t[1..][i] == t[i + 1] && t[1..][j] == t[j + 1];
    }
    forall i | 0 <= i < |t| - 1
      ensures Rank(t[0].step) <= Rank(t[1..][i].step)
    {
      assert t[1..][i] == t[i + 1];
    }
  }

  lemma LayersUnfold(t: seq<Event>, k: nat)
    requires k < 5
    ensures Layers(t, k) == Project(t, StepOfRank(k)) + Layers(t, k + 1)
  {
  }

  lemma ProjectCons(t: seq<Event>)
    requires |t| > 0
    ensures Project(t, t[0].step) == [t[0].op] + Project(t[1..], t[0].step)
  {
  }

  /** The layers from the first event's rank: that event, then the rest's. */
  lemma LayersCons(t: seq<Event>)
    requires |t| > 0
    requires Layers(t, Rank(t[0].step) + 1) == Layers(t[1..], Rank(t[0].step) + 1)
    ensures Layers(t, Rank(t[0].step)) == [t[0].op] + Layers(t[1..], Rank(t[0].step))
  {
    var m, s := Rank(t[0].step), t[0].step;
    RankInjective(StepOfRank(m), s);
    LayersUnfold(t, m);
    LayersUnfold(t[1..], m);
    ProjectCons(t);
    ConcatAssoc([t[0].op], Project(t[1..], s), Layers(t[1..], m + 1));
  }

  lemma {:induction false} OrderedIsLayeredFrom(t: seq<Event>, k: nat)
    requires k <= 5
    requires Ordered(t)
    requires forall i :: 0 <= i < |t| ==> k <= Rank(t[i].step)
    ensures Ops(t) == Layers(t, k)
    decreases |t|
  {
    if |t| == 0 {
      LayersOfEmpty(k);
    } else {
      var e, rest := t[0], t[1..];
      var m := Rank(e.step);
      OrderedTail(t);
      OrderedIsLayeredFrom(rest, m);
      LayersSkipLower(t, k, m);
      LayersDropHead(t, m + 1);
      LayersCons(t);
    }
  }

  /** A trace whose steps come in template order is the concatenation of what
      each step issued: the flat call sequence is recovered from the steps. */
  lemma OrderedIsLayered(t: seq<Event>)
    requires Ordered(t)
    ensures Ops(t) == Project(t, TransformStep) + Project(t, PreDrawStep)
                      + Project(t, DoDrawStep) + Project(t, PostDrawStep) + Project(t, IdStep)
  {
    OrderedIsLayeredFrom(t, 0);
  }

  /** Appending the calls of a step no earlier than any step already in the
      trace keeps it ordered. */
  lemma AppendStepOrdered(t: seq<Event>, s: Step, ops: seq<Op>)
    requires Ordered(t) && RanksWithin(t, 0, Rank(s))
    ensures Ordered(t + Tag(s, ops)) && RanksWithin(t + Tag(s, ops), 0, Rank(s))
  {
    OrderedAppend(t, Tag(s, ops), Rank(s));
  }

  /** Appending the calls of step `s` adds them to that step alone. */
  lemma AppendStepProject(t: seq<Event>, s: Step, ops: seq<Op>, q: Step)
    ensures Project(t + Tag(s, ops), q) == Project(t, q) + (if q == s then ops else [])
  {
    ProjectAppend(t, Tag(s, ops), q);
    ProjectTag(s, ops, q);
  }

  function Template(a: seq<Op>, b: seq<Op>, c: seq<Op>, d: seq<Op>, e: seq<Op>): seq<Event>
  {
    Tag(TransformStep, a) + Tag(PreDrawStep, b) + Tag(DoDrawStep, c) + Tag(PostDrawStep, d) + Tag(IdStep, e)
  }

  lemma TemplateOrdered(a: seq<Op>, b: seq<Op>, c: seq<Op>, d: seq<Op>, e: seq<Op>)
    ensures Ordered(Template(a, b, c, d, e))
  {
    var t1 := Tag(TransformStep, a);
    var t2 := t1 + Tag(PreDrawStep, b);
    var t3 := t2 + Tag(DoDrawStep, c);
    var t4 := t3 + Tag(PostDrawStep, d);
    assert [] + t1 == t1;
    AppendStepOrdered([], TransformStep, a);
    AppendStepOrdered(t1, PreDrawStep, b);
    AppendStepOrdered(t2, DoDrawStep, c);
    AppendStepOrdered(t3, PostDrawStep, d);
    AppendStepOrdered(t4, IdStep, e);
  }

  lemma TemplateProject(a: seq<Op>, b: seq<Op>, c: seq<Op>, d: seq<Op>, e: seq<Op>, q: Step)
    ensures Project(Template(a, b, c, d, e), q)
            == (if q == TransformStep then a else []) + (if q == PreDrawStep then b else [])
               + (if q == DoDrawStep then c else []) + (if q == PostDrawStep then d else [])
               + (if q == IdStep then e else [])
  {
    var t1 := Tag(TransformStep, a);
    var t2 := t1 + Tag(PreDrawStep, b);
    var t3 := t2 + Tag(DoDrawStep, c);
    var t4 := t3 + Tag(PostDrawStep, d);
    ProjectTag(TransformStep, a, q);
    AppendStepProject(t1, PreDrawStep, b, q);
    AppendStepProject(t2, DoDrawStep, c, q);
    AppendStepProject(t3, PostDrawStep, d, q);
    AppendStepProject(t4, IdStep, e, q);
  }

  /** The trace of the five template steps, one after the other: it is ordered
      and each step's events are exactly the calls that step issued. */
  lemma TemplateTrace(a: seq<Op>, b: seq<Op>, c: seq<Op>, d: seq<Op>, e: seq<Op>)
    ensures var t := Template(a, b, c, d, e);
            && Ordered(t)
            && Project(t, TransformStep) == a
            && Project(t, PreDrawStep) == b
            && Project(t, DoDrawStep) == c
            && Project(t, PostDrawStep) == d
            && Project(t, IdStep) == e
  {
    TemplateOrdered(a, b, c, d, e);
    TemplateProject(a, b, c, d, e, TransformStep);
    assert [] + a + [] + [] + [] == a;
    TemplateProject(a, b, c, d, e, PreDrawStep);
    assert [] + [] + b + [] + [] == b;
    TemplateProject(a, b, c, d, e, DoDrawStep);
    assert [] + [] + [] + c + [] == c;
    TemplateProject(a, b, c, d, e, PostDrawStep);
    assert [] + [] + [] + [] + d == d;
    TemplateProject(a, b, c, d, e, IdStep);
    assert [] + [] + [] + [] + e == e;
  }
}
