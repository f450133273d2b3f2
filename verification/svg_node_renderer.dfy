/** `AbstractSvgNodeRenderer`: the part every SVG element renderer shares. It
    owns an ordered child list and a string attribute map, and its `draw` is a
    fixed template (transform, paint set-up, the subclass's drawing, painting,
    id registration). Drawing is a pure function from the renderer to the trace
    of calls it makes; the colour, transform and length parsers and the
    subclass hooks are parameters. */
module SvgNodeRenderer {
  import opened Wrappers
  import opened JavaLang
  import opened CanvasTrace
  import opened SvgTagConstants

  /** A Java `Map<String, String>`; a key may be bound to `null` (`None`). */
  type AttributeMap = map<string, Option<string>>

  /** The renderer's state: its children (never null) and its attribute map
      (`None` until `setAttributesAndStyles` is called, or if it is set to null). */
  datatype Renderer = Renderer(children: seq<Renderer>, attributes: Option<AttributeMap>)

  /** What a concrete renderer class supplies: `canElementFill()` and `doDraw`. */
  datatype Subclass = Subclass(canElementFill: Renderer -> bool, doDraw: Renderer -> seq<Op>)

  /** Library calls whose code is not part of this model: `WebColors.getRGBColor`
      (`None` for a string it cannot read), `TransformUtils.parseTransform` and
      `CssUtils.parseAbsoluteLength`. */
  datatype Foreign = Foreign(
    rgbColor: string -> Option<Rgb>,
    parseTransform: string -> AffineTransform,
    parseAbsoluteLength: string -> real)

  /** The base class's `canElementFill()`: every element can fill unless a
      subclass says otherwise. */
  function BaseCanElementFill(n: Renderer): (r: bool)
    ensures r
  {
    true
  }

  /** A renderer as constructed: no children, no attribute map. */
  const NewRenderer: Renderer := Renderer([], None)

  /** `Map.get`: `null` both for a missing key and for a key bound to `null`. */
  function Lookup(m: AttributeMap, key: string): Option<string>
  {
    if key in m then m[key] else None
  }

  // ----- child list -----

  /** `addChild(child)`: a non-null child goes to the end; `null` is ignored. */
  function AddChild(n: Renderer, child: Option<Renderer>): (r: Renderer)
    ensures child.None? ==> r == n
    ensures child.Some? ==> |r.children| == |n.children| + 1
                            && r.children[..|n.children|] == n.children
                            && r.children[|n.children|] == child.value
    ensures r.attributes == n.attributes
  {
    match child
    case None => n
    case Some(c) => n.(children := n.children + [c])
  }

  /** `getChildren()`: the children in insertion order. The Java method hands out
      an unmodifiable view; a Dafny sequence is a value, so callers cannot alter it. */
  function GetChildren(n: Renderer): seq<Renderer>
  {
    n.children
  }

  /** `addChild` called on each of `cs` in turn. */
  function AddChildren(n: Renderer, cs: seq<Option<Renderer>>): Renderer
    decreases |cs|
  {
    if |cs| == 0 then n else AddChildren(AddChild(n, cs[0]), cs[1..])
  }

  /** The non-null entries of `cs`, in order. */
  function NonNull(cs: seq<Option<Renderer>>): (r: seq<Renderer>)
    ensures |r| <= |cs|
  {
    if |cs| == 0 then []
    else (if cs[0].Some? then [cs[0].value] else []) + NonNull(cs[1..])
  }

  /** After any sequence of `addChild` calls, `getChildren()` is the previous
      children followed by the non-null arguments in call order: nulls leave no
      trace and no earlier child moves. */
  lemma {:induction false} ChildrenInInsertionOrder(n: Renderer, cs: seq<Option<Renderer>>)
    ensures GetChildren(AddChildren(n, cs)) == GetChildren(n) + NonNull(cs)
    ensures AddChildren(n, cs).attributes == n.attributes
    decreases |cs|
  {
    if |cs| > 0 {
      var n' := AddChild(n, cs[0]);
      ChildrenInInsertionOrder(n', cs[1..]);
      if cs[0].Some? {
        assert n'.children == n.children + [cs[0].value];
      }
    }
  }

  // ----- attributes -----

  /** `setAttributesAndStyles(map)`: replaces the whole map, children untouched. */
  function SetAttributesAndStyles(n: Renderer, attributes: Option<AttributeMap>): (r: Renderer)
    ensures r.attributes == attributes && r.children == n.children
    ensures forall k :: GetAttribute(r, k) == (if attributes.None? then Failure(NullPointerException)
                                               else Success(Lookup(attributes.value, k)))
  {
    n.(attributes := attributes)
  }

  /** Setting the map twice is setting it once, to the later map. */
  lemma SetAttributesAndStylesLastWins(n: Renderer, a: Option<AttributeMap>, b: Option<AttributeMap>)
    ensures SetAttributesAndStyles(SetAttributesAndStyles(n, a), b) == SetAttributesAndStyles(n, b)
  {
  }

  /** `getAttribute(key)`: the bound value, `null` for an absent key, and a
      `NullPointerException` when there is no map. */
  function GetAttribute(n: Renderer, key: string): (r: Result<Option<string>, JavaException>)
    ensures r.Failure? <==> n.attributes.None?
    ensures r.Failure? ==> r.error == NullPointerException
    ensures r.Success? && r.value.Some? ==> key in n.attributes.value && n.attributes.value[key] == r.value
    ensures r.Success? && key in n.attributes.value ==> r.value == n.attributes.value[key]
    ensures r.Success? && key !in n.attributes.value ==> r.value.None?
  {
    match n.attributes
    case None => Failure(NullPointerException)
    case Some(m) => Success(Lookup(m, key))
  }

  /** `setAttribute(key, value)`: afterwards `key` reads back `value` and is
      present; every other key reads as before; the children are untouched.
      With no map it throws `NullPointerException`. */
  function SetAttribute(n: Renderer, key: string, value: Option<string>): (r: Result<Renderer, JavaException>)
    ensures r.Failure? <==> n.attributes.None?
    ensures r.Failure? ==> r.error == NullPointerException
    ensures r.Success? ==> r.value.children == n.children && r.value.attributes.Some?
    ensures r.Success? ==> key in r.value.attributes.value
    ensures r.Success? ==> GetAttribute(r.value, key) == Success(value)
    ensures r.Success? ==> forall k :: k != key ==> GetAttribute(r.value, k) == GetAttribute(n, k)
    // `put` keeps every other entry, a key bound to `null` included
    ensures r.Success? ==> forall k :: k != key ==> (k in r.value.attributes.value <==> k in n.attributes.value)
  {
    match n.attributes
    case None => Failure(NullPointerException)
    case Some(m) => Success(n.(attributes := Some(m[key := value])))
  }

  // ----- paint decisions -----

  /** `NONE.equalsIgnoreCase(v)`: false for `null`. */
  predicate IsNoneKeyword(v: Option<string>)
  {
    v.Some? && EqualsIgnoreCase(NoneKeyword, v.value)
  }

  /** `FILL_RULE_EVEN_ODD.equalsIgnoreCase(v)`: false for `null`. */
  predicate IsEvenOdd(v: Option<string>)
  {
    v.Some? && EqualsIgnoreCase(FillRuleEvenOdd, v.value)
  }

  /** The stroke colour as looked up, when there is a `stroke` value to look up. */
  function StrokeColorOf(f: Foreign, m: AttributeMap): Option<Rgb>
  {
    var stroke := Lookup(m, StrokeAttr);
    if stroke.None? then None else f.rgbColor(stroke.value)
  }

  /** The fill colour `preDraw` hands the canvas: black without `fill`,
      otherwise the lookup's answer, `null` included. */
  function FillColorOf(f: Foreign, m: AttributeMap): Option<Rgb>
  {
    var fill := Lookup(m, FillAttr);
    if fill.None? then Some(Black) else f.rgbColor(fill.value)
  }

  /** The line width `preDraw` sets: 1 without `stroke-width`. */
  function StrokeWidthOf(f: Foreign, m: AttributeMap): real
  {
    var width := Lookup(m, StrokeWidth);
    if width.None? then 1.0 else f.parseAbsoluteLength(width.value)
  }

  predicate HasFillColor(ops: seq<Op>)
  {
    exists i :: 0 <= i < |ops| && ops[i].SetFillColor?
  }

  predicate HasStrokeColor(ops: seq<Op>)
  {
    exists i :: 0 <= i < |ops| && ops[i].SetStrokeColor?
  }

  /** Step 1 of `draw`: `concatMatrix` of the parsed `transform` value, only
      when there is a map and the value is present and non-empty. */
  function ApplyTransform(f: Foreign, attributes: Option<AttributeMap>): (ops: seq<Op>)
    ensures |ops| <= 1
    ensures |ops| == 1 <==> attributes.Some? && Lookup(attributes.value, Transform).Some?
                            && |Lookup(attributes.value, Transform).value| > 0
    ensures |ops| == 1 ==> ops[0] == ConcatMatrix(f.parseTransform(Lookup(attributes.value, Transform).value))
  {
    if attributes.None? then []
    else
      var t := Lookup(attributes.value, Transform);
      if t.Some? && |t.value| > 0 then [ConcatMatrix(f.parseTransform(t.value))] else []
  }

  /** The calls `preDraw` makes, and the `doFill` flag it leaves for `postDraw`. */
  datatype PreDrawResult = PreDrawResult(ops: seq<Op>, doFill: bool)

  /** `preDraw`: set the fill colour when fill is not `none` (in any case) and the
      element can fill; the colour is black when `fill` is absent and otherwise
      whatever the colour lookup gives, even `null`. Set the stroke colour, then
      the line width (1 without `stroke-width`), when `stroke` is present and its
      colour lookup succeeds. Nothing without a map. */
  function PreDraw(f: Foreign, sub: Subclass, n: Renderer): (r: PreDrawResult)
    ensures n.attributes.None? ==> r.ops == []
    ensures n.attributes.Some? ==> (r.doFill <==> !IsNoneKeyword(Lookup(n.attributes.value, FillAttr)))
    // fill colour
    ensures HasFillColor(r.ops) <==> n.attributes.Some? && r.doFill && sub.canElementFill(n)
    ensures forall i :: 0 <= i < |r.ops| && r.ops[i].SetFillColor? ==>
              i == 0 && r.ops[i].fillColor == FillColorOf(f, n.attributes.value)
    // stroke colour, immediately followed by the line width, as the last calls
    ensures HasStrokeColor(r.ops) <==> n.attributes.Some? && StrokeColorOf(f, n.attributes.value).Some?
    ensures forall i :: 0 <= i < |r.ops| && r.ops[i].SetStrokeColor? ==>
              && r.ops[i].strokeColor == StrokeColorOf(f, n.attributes.value).value
              && i + 2 == |r.ops|
              && r.ops[i + 1] == SetLineWidth(StrokeWidthOf(f, n.attributes.value))
  {
    match n.attributes
    case None => PreDrawResult([], false)
    case Some(m) =>
      var doFill := !IsNoneKeyword(Lookup(m, FillAttr));
      var setFill := SetFillColor(FillColorOf(f, m));
      var strokeRaw := Lookup(m, StrokeAttr);
      var width := SetLineWidth(StrokeWidthOf(f, m));
      var fills := doFill && sub.canElementFill(n);
      if strokeRaw.Some? && f.rgbColor(strokeRaw.value).Some? then
        var setStroke := SetStrokeColor(f.rgbColor(strokeRaw.value).value);
        var ops := if fills then [setFill, setStroke, width] else [setStroke, width];
        assert fills ==> ops[0].SetFillColor?;
        assert ops[|ops| - 2].SetStrokeColor?;
        PreDrawResult(ops, doFill)
      else
        var ops := if fills then [setFill] else [];
        assert fills ==> ops[0].SetFillColor?;
        PreDrawResult(ops, doFill)
  }

  /** `preDraw` only sets paint state, at most three calls, and sets a line
      width only right after a stroke colour. */
  lemma PreDrawOnlySetsPaint(f: Foreign, sub: Subclass, n: Renderer)
    ensures var ops := PreDraw(f, sub, n).ops;
            && |ops| <= 3
            && (forall i :: 0 <= i < |ops| ==> ops[i].SetFillColor? || ops[i].SetStrokeColor? || ops[i].SetLineWidth?)
            && (forall i :: 0 <= i < |ops| && ops[i].SetLineWidth? ==> 0 < i && ops[i - 1].SetStrokeColor?)
  {
  }

  /** `postDraw`: `eoFill` (fill-rule `evenodd`, any case) or `fill` when
      `doFill` holds and the element can fill; `stroke` whenever `stroke` is
      present, whether or not its colour could be read; then `closePath`, always
      last. Nothing without a map. */
  function PostDraw(sub: Subclass, n: Renderer, doFill: bool): (ops: seq<Op>)
    ensures n.attributes.None? ==> ops == []
    ensures n.attributes.Some? ==> 1 <= |ops| <= 3 && ops[|ops| - 1] == ClosePath
    // at most one fill call and at most one stroke call
    ensures n.attributes.Some? ==>
              |ops| == (if doFill && sub.canElementFill(n) then 1 else 0)
                       + (if Lookup(n.attributes.value, StrokeAttr).Some? then 1 else 0) + 1
    ensures forall i :: 0 <= i < |ops| - 1 ==> ops[i] != ClosePath
    ensures forall i :: 0 <= i < |ops| ==> ops[i].Fill? || ops[i].EoFill? || ops[i].Stroke? || ops[i].ClosePath?
    ensures (Fill in ops || EoFill in ops) <==> n.attributes.Some? && doFill && sub.canElementFill(n)
    ensures (EoFill in ops) <==> (n.attributes.Some? && doFill && sub.canElementFill(n)
                                  && IsEvenOdd(Lookup(n.attributes.value, FillRule)))
    ensures !(Fill in ops && EoFill in ops)
    ensures Stroke in ops <==> n.attributes.Some? && Lookup(n.attributes.value, StrokeAttr).Some?
    // painting the interior comes before stroking the outline
    ensures forall i, j :: 0 <= i < j < |ops| && ops[i] == Stroke ==> !ops[j].Fill? && !ops[j].EoFill?
  {
    match n.attributes
    case None => []
    case Some(m) =>
      var fillOps :=
        if doFill && sub.canElementFill(n) then
          [if IsEvenOdd(Lookup(m, FillRule)) then EoFill else Fill]
        else [];
      var strokeOps := if Lookup(m, StrokeAttr).Some? then [Stroke] else [];
      fillOps + strokeOps + [ClosePath]
  }

  /** Step 5 of `draw`: `addNamedObject(id, this)` whenever the map contains
      the key `id`, even bound to `null`. */
  function RegisterId(attributes: Option<AttributeMap>): (ops: seq<Op>)
    ensures |ops| <= 1
    ensures |ops| == 1 <==> attributes.Some? && Id in attributes.value
    ensures |ops| == 1 ==> ops[0] == AddNamedObject(attributes.value[Id])
  {
    if attributes.Some? && Id in attributes.value then [AddNamedObject(attributes.value[Id])] else []
  }

  // ----- draw -----

  /** `draw(context)`: each call tagged with the step of the template that
      made it. The steps come in template order, and each step's calls are
      exactly what that step decides; `doDraw` runs between `preDraw` and
      `postDraw`, which receives the `doFill` flag `preDraw` computed. */
  function Draw(f: Foreign, sub: Subclass, n: Renderer): (t: seq<Event>)
    ensures Ordered(t)
    ensures Project(t, TransformStep) == ApplyTransform(f, n.attributes)
    ensures Project(t, PreDrawStep) == PreDraw(f, sub, n).ops
    ensures Project(t, DoDrawStep) == sub.doDraw(n)
    ensures Project(t, PostDrawStep) == PostDraw(sub, n, PreDraw(f, sub, n).doFill)
    ensures Project(t, IdStep) == RegisterId(n.attributes)
  {
    var pre := PreDraw(f, sub, n);
    var a, b, c, d, e := ApplyTransform(f, n.attributes), pre.ops, sub.doDraw(n),
                         PostDraw(sub, n, pre.doFill), RegisterId(n.attributes);
    TemplateTrace(a, b, c, d, e);
    Template(a, b, c, d, e)
  }

  /** The canvas sees, in order: the optional `concatMatrix`, the `preDraw`
      calls, the subclass's `doDraw` calls, the `postDraw` calls, and the
      optional `addNamedObject`. */
  lemma DrawFollowsTemplate(f: Foreign, sub: Subclass, n: Renderer)
    ensures Ops(Draw(f, sub, n)) == ApplyTransform(f, n.attributes) + PreDraw(f, sub, n).ops + sub.doDraw(n)
                                    + PostDraw(sub, n, PreDraw(f, sub, n).doFill) + RegisterId(n.attributes)
  {
    OrderedIsLayered(Draw(f, sub, n));
  }

  /** Without an attribute map `draw` issues only what `doDraw` issues: no
      transform, no paint set-up, no fill, stroke or closePath, no registration. */
  lemma DrawWithoutAttributes(f: Foreign, sub: Subclass, n: Renderer)
    requires n.attributes.None?
    ensures Ops(Draw(f, sub, n)) == sub.doDraw(n)
    ensures forall i :: 0 <= i < |Draw(f, sub, n)| ==> Draw(f, sub, n)[i].step == DoDrawStep
  {
    var t := Draw(f, sub, n);
    OrderedIsLayered(t);
    assert Project(t, TransformStep) == [] && Project(t, PreDrawStep) == [];
    assert Project(t, PostDrawStep) == [] && Project(t, IdStep) == [];
    assert Ops(t) == [] + [] + sub.doDraw(n) + [] + [];
    forall i | 0 <= i < |t|
      ensures t[i].step == DoDrawStep
    {
      ProjectContains(t, i);
    }
  }

  /** `preDraw` and `postDraw` disagree on when to stroke: `postDraw` strokes
      without `preDraw` having set a stroke colour exactly when `stroke` is
      present but its colour lookup fails. */
  lemma StrokeAsymmetry(f: Foreign, sub: Subclass, n: Renderer)
    requires n.attributes.Some?
    ensures var t := Draw(f, sub, n);
            (Stroke in Project(t, PostDrawStep) && !HasStrokeColor(Project(t, PreDrawStep)))
            <==> Lookup(n.attributes.value, StrokeAttr).Some?
                 && f.rgbColor(Lookup(n.attributes.value, StrokeAttr).value).None?
  {
  }
}
