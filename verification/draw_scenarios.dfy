/** Worked traces of `draw` for a path renderer, with the path's own calls
    fixed by hand (path-data translation is not part of this model) and
    sample stand-ins for the colour, transform and length parsers. */
module DrawScenarios {
  import opened Wrappers
  import opened JavaLang
  import opened CanvasTrace
  import opened SvgTagConstants
  import opened SvgNodeRenderer

  const Red: Rgb := Rgb(1.0, 0.0, 0.0)
  const Shift: AffineTransform := AffineTransform(1.0, 0.0, 0.0, 1.0, 10.0, 0.0)

  /** Knows only `red` and the length `2`; every transform is `Shift`. */
  const Parsers: Foreign := Foreign(
    s => if s == "red" then Some(Red) else None,
    s => Shift,
    s => if s == "2" then 2.0 else 0.0)

  /** The calls a path renderer makes for `M 100,100, L300,100,L200,300,z`. */
  const TrianglePath: seq<Op> :=
    [MoveTo(100.0, 100.0), LineTo(300.0, 100.0), LineTo(200.0, 300.0), ClosePath]

  const PathRenderer: Subclass := Subclass(BaseCanElementFill, r => TrianglePath)

  function PathWith(attributes: AttributeMap): Renderer
  {
    SetAttributesAndStyles(NewRenderer, Some(attributes))
  }

  /** The canvas calls of `draw`, given what the steps around `doDraw` issue. */
  lemma DrawIs(n: Renderer, before: seq<Op>, after: seq<Op>)
    requires ApplyTransform(Parsers, n.attributes) + PreDraw(Parsers, PathRenderer, n).ops == before
    requires PostDraw(PathRenderer, n, PreDraw(Parsers, PathRenderer, n).doFill) + RegisterId(n.attributes) == after
    ensures Ops(Draw(Parsers, PathRenderer, n)) == before + TrianglePath + after
  {
    DrawFollowsTemplate(Parsers, PathRenderer, n);
    var a, b := ApplyTransform(Parsers, n.attributes), PreDraw(Parsers, PathRenderer, n).ops;
    var d, e := PostDraw(PathRenderer, n, PreDraw(Parsers, PathRenderer, n).doFill), RegisterId(n.attributes);
    ConcatAssoc(a + b + TrianglePath, d, e);
  }

  /** Only `d` set: black fill, the path, `fill`, and the trailing `closePath`. */
  lemma DefaultFillTrace()
    ensures Ops(Draw(Parsers, PathRenderer, PathWith(map["d" := Some("M 100,100, L300,100,L200,300,z")])))
            == [SetFillColor(Some(Black))] + TrianglePath + [Fill, ClosePath]
  {
    var m := map["d" := Some("M 100,100, L300,100,L200,300,z")];
    var n := PathWith(m);
    assert Lookup(m, Transform) == Lookup(m, FillAttr) == Lookup(m, StrokeAttr) == Lookup(m, FillRule) == None;
    assert Id !in m;
    DrawIs(n, [SetFillColor(Some(Black))], [Fill, ClosePath]);
  }

  /** `fill="none" stroke="red" stroke-width="2"`: stroke set-up, the path,
      `stroke`, `closePath`, and no fill at all. */
  lemma StrokeOnlyTrace()
    ensures Ops(Draw(Parsers, PathRenderer,
                     PathWith(map["fill" := Some("none"), "stroke" := Some("red"), "stroke-width" := Some("2")])))
            == [SetStrokeColor(Red), SetLineWidth(2.0)] + TrianglePath + [Stroke, ClosePath]
  {
    var m := map["fill" := Some("none"), "stroke" := Some("red"), "stroke-width" := Some("2")];
    var n := PathWith(m);
    assert Lookup(m, Transform) == Lookup(m, FillRule) == None && Id !in m;
    assert Lookup(m, FillAttr) == Some("none") && Lookup(m, StrokeAttr) == Some("red");
    assert Lookup(m, StrokeWidth) == Some("2");
    assert IsNoneKeyword(Some("none")) by {
      assert forall i :: 0 <= i < 4 ==> LowerAscii("none"[i]) == "none"[i];
    }
    DrawIs(n, [SetStrokeColor(Red), SetLineWidth(2.0)], [Stroke, ClosePath]);
  }

  /** `fill="NONE"` disables filling too, and an unreadable stroke colour still
      strokes, with whatever stroke colour and width the canvas already had. */
  lemma UnreadableStrokeTrace()
    ensures Ops(Draw(Parsers, PathRenderer, PathWith(map["fill" := Some("NONE"), "stroke" := Some("#zz")])))
            == TrianglePath + [Stroke, ClosePath]
  {
    var m := map["fill" := Some("NONE"), "stroke" := Some("#zz")];
    var n := PathWith(m);
    assert Lookup(m, Transform) == Lookup(m, FillRule) == Lookup(m, StrokeWidth) == None && Id !in m;
    assert Lookup(m, FillAttr) == Some("NONE") && Lookup(m, StrokeAttr) == Some("#zz");
    assert IsNoneKeyword(Some("NONE")) by {
      assert forall i :: 0 <= i < 4 ==> LowerAscii("NONE"[i]) == "none"[i];
    }
    assert n.attributes == Some(m);
    var pre := PreDraw(Parsers, PathRenderer, n);
    assert !pre.doFill && pre.ops == [];
    assert ApplyTransform(Parsers, n.attributes) == [] && RegisterId(n.attributes) == [];
    assert PostDraw(PathRenderer, n, false) == [Stroke, ClosePath];
    DrawIs(n, [], [Stroke, ClosePath]);
    assert [] + TrianglePath == TrianglePath;
  }

  /** `fill-rule="EvenOdd"`, a transform and an id: `concatMatrix` first,
      `eoFill` instead of `fill`, registration last. A present but unreadable
      fill colour reaches the canvas as `null`. */
  lemma EvenOddTransformIdTrace()
    ensures Ops(Draw(Parsers, PathRenderer,
                     PathWith(map["fill" := Some("#zz"), "fill-rule" := Some("EvenOdd"),
                                  "transform" := Some("translate(10)"), "id" := Some("tri")])))
            == [ConcatMatrix(Shift), SetFillColor(None)] + TrianglePath + [EoFill, ClosePath, AddNamedObject(Some("tri"))]
  {
    var m := map["fill" := Some("#zz"), "fill-rule" := Some("EvenOdd"),
                 "transform" := Some("translate(10)"), "id" := Some("tri")];
    var n := PathWith(m);
    assert Lookup(m, StrokeAttr) == Lookup(m, StrokeWidth) == None && Id in m && m[Id] == Some("tri");
    assert Lookup(m, FillAttr) == Some("#zz") && Lookup(m, FillRule) == Some("EvenOdd");
    assert Lookup(m, Transform) == Some("translate(10)");
    assert !IsNoneKeyword(Some("#zz")) by {
      assert LowerAscii("#zz"[0]) != "none"[0];
    }
    assert IsEvenOdd(Some("EvenOdd")) by {
      assert forall i :: 0 <= i < 7 ==> LowerAscii("EvenOdd"[i]) == "evenodd"[i];
    }
    DrawIs(n, [ConcatMatrix(Shift), SetFillColor(None)], [EoFill, ClosePath, AddNamedObject(Some("tri"))]);
  }
}
