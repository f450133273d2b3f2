# SVG node-renderer draw template and array utilities, in Dafny

This project models two small, sequential pieces of iText 7:

- **`AbstractSvgNodeRenderer`**: the base class of every SVG element renderer.
  It owns an ordered list of child renderers and a string attribute map. Its
  `draw` method is a fixed template:
  1. an optional `concatMatrix` for the `transform` attribute;
  2. `preDraw`, which sets the fill colour, stroke colour and line width;
  3. the subclass's `doDraw`;
  4. `postDraw`, which issues `fill`/`eoFill`, `stroke` and `closePath`;
  5. registration of the renderer under its `id`.

  Here `draw` is a pure function. It returns the trace of calls the renderer
  makes on the canvas and the draw context. Each call is tagged with the
  template step that issued it.
- **`ArrayUtil`**: `shortenArray`, `toArray` and the Java polynomial byte
  hash `hashCode(byte[])`, which wraps around at 32 bits.

Files:

| file | module | contents |
|---|---|---|
| `wrappers.dfy` | `Wrappers` | `Option`, which models a possibly-null reference, and `Result`, which models a return value or a thrown exception |
| `java_lang.dfy` | `JavaLang` | Java `byte`/`int` as newtypes, `int` wrap-around (`Wrap32`), the exceptions that can be thrown, and `equalsIgnoreCase` |
| `array_util.dfy` | `ArrayUtil` | `ShortenArray`, `ToArray`, `HashCode` and lemmas about them |
| `canvas_trace.dfy` | `CanvasTrace` | canvas calls (`Op`), template steps (`Step`), tagged traces, the per-step projection, and the lemma that an ordered trace is the concatenation of its steps |
| `svg_tag_constants.dfy` | `SvgTagConstants` | the attribute names and keywords the renderer reads |
| `svg_node_renderer.dfy` | `SvgNodeRenderer` | the renderer state, child list, attribute access, `PreDraw`, `PostDraw`, `Draw` and their properties |
| `draw_scenarios.dfy` | `DrawScenarios` | fully computed traces for sample path renderers |

Parameters stand in for the code this model does not include:

- `Foreign` holds the library parsers: the colour lookup `WebColors.getRGBColor`
  (`None` when it cannot read the string), `TransformUtils.parseTransform` and
  `CssUtils.parseAbsoluteLength`.
- `Subclass` holds the two hooks a concrete renderer overrides here:
  `canElementFill()` (the base answer is `BaseCanElementFill`, always true)
  and `doDraw`. Every other method is the base-class version (see
  "## Left out").

The attribute map is `map<string, Option<string>>`, so a key can be bound to
Java `null`. This matters for one asymmetry in the code:
- every attribute read uses `get`, so a missing key and a key bound to `null`
  both read as `null`;
- id registration uses `containsKey`, so an `id` bound to `null` is still
  registered, as `AddNamedObject(None)`.

The private `doFill` field is set by `preDraw` and read by `postDraw`.
Subclasses cannot see it, so the model returns it from `PreDraw` and passes
it to `PostDraw`.

Two behaviours of the code worth stating:

- When `fill` is present but the colour lookup returns `null`, the code
  passes that `null` to `setFillColor` (`SetFillColor(None)`). It does not
  fall back to black; only an absent `fill` gives black.
- Whenever there is an attribute map, `postDraw` ends with `closePath`, after `fill`/`stroke` too. So
  the trace for the path `M 100,100, L300,100,L200,300,z` ends with
  `fill, closePath` (`DefaultFillTrace`).

## Model

| member | source | states |
|---|---|---|
| `SvgNodeRenderer.AddChild` | src/main/java/com/itextpdf/svg/renderers/impl/AbstractSvgNodeRenderer.java:82-88 | a null child leaves the renderer unchanged; a non-null child becomes the new last child, the earlier children keep their order, and the attributes are untouched |
| `SvgNodeRenderer.ChildrenInInsertionOrder` | src/main/java/com/itextpdf/svg/renderers/impl/AbstractSvgNodeRenderer.java:83-94 | after any sequence of `addChild` calls, `getChildren()` is the old children followed by the non-null arguments in call order |
| `SvgNodeRenderer.SetAttributesAndStyles` | src/main/java/com/itextpdf/svg/renderers/impl/AbstractSvgNodeRenderer.java:96-99 | the whole map is replaced and the children are kept; afterwards every key reads from the new map, and with a null map every read throws `NullPointerException` |
| `SvgNodeRenderer.SetAttributesAndStylesLastWins` | src/main/java/com/itextpdf/svg/renderers/impl/AbstractSvgNodeRenderer.java:96-99 | setting the map twice is the same as setting it once, to the later map |
| `SvgNodeRenderer.GetAttribute` | src/main/java/com/itextpdf/svg/renderers/impl/AbstractSvgNodeRenderer.java:221-224 | throws `NullPointerException` exactly when there is no map; a present key reads as exactly its bound value (`null` included), and an absent key reads as null |
| `SvgNodeRenderer.SetAttribute` | src/main/java/com/itextpdf/svg/renderers/impl/AbstractSvgNodeRenderer.java:226-229 | throws exactly when there is no map; otherwise the key is present and reads back the new value, every other key reads as before and stays present or absent as before, and the children are unchanged |
| `SvgNodeRenderer.BaseCanElementFill` | src/main/java/com/itextpdf/svg/renderers/impl/AbstractSvgNodeRenderer.java:180-182 | the base class answers true for every renderer |
| `SvgNodeRenderer.ApplyTransform` | src/main/java/com/itextpdf/svg/renderers/impl/AbstractSvgNodeRenderer.java:111-118 | one `concatMatrix` of the parsed `transform` value exactly when the map is non-null and `transform` is present and non-empty; otherwise nothing |
| `SvgNodeRenderer.PreDraw` | src/main/java/com/itextpdf/svg/renderers/impl/AbstractSvgNodeRenderer.java:136-178 | nothing without a map. `doFill` holds iff `fill` is not `none` in any letter case (an absent fill counts as not `none`). A fill colour is set iff `doFill` holds and the element can fill; it is the first call, and its colour is black for an absent `fill` and otherwise the lookup's answer. A stroke colour is set iff `stroke` is present and its lookup succeeds; it is immediately followed by the line width (1 without `stroke-width`), and the two are the last calls |
| `SvgNodeRenderer.PreDrawOnlySetsPaint` | src/main/java/com/itextpdf/svg/renderers/impl/AbstractSvgNodeRenderer.java:136-178 | `preDraw` makes at most three calls, all paint-state setters, and sets a line width only right after a stroke colour |
| `SvgNodeRenderer.PostDraw` | src/main/java/com/itextpdf/svg/renderers/impl/AbstractSvgNodeRenderer.java:190-212 | nothing without a map, and otherwise `closePath` exactly once, as the last call. There is a fill call iff `doFill` holds and the element can fill. It is `eoFill` iff, in addition, `fill-rule` is `evenodd` in any letter case, and never both `fill` and `eoFill`. `stroke` is issued iff `stroke` is present, whether or not its colour parsed. There is at most one fill call and one stroke call, and filling comes before stroking |
| `SvgNodeRenderer.RegisterId` | src/main/java/com/itextpdf/svg/renderers/impl/AbstractSvgNodeRenderer.java:124-126 | `addNamedObject` exactly when the map is non-null and contains the key `id`, with the bound value, which may be null |
| `SvgNodeRenderer.Draw` | src/main/java/com/itextpdf/svg/renderers/impl/AbstractSvgNodeRenderer.java:107-127 | the trace's steps come in template order. The transform, `preDraw`, `doDraw`, `postDraw` and registration steps issue exactly what `ApplyTransform`, `PreDraw`, the subclass's `doDraw`, `PostDraw` (given `preDraw`'s `doFill`) and `RegisterId` decide |
| `SvgNodeRenderer.DrawFollowsTemplate` | src/main/java/com/itextpdf/svg/renderers/impl/AbstractSvgNodeRenderer.java:107-127 | the canvas sees the optional `concatMatrix`, then the `preDraw` calls, the `doDraw` calls, the `postDraw` calls and the optional `addNamedObject`, in that order |
| `SvgNodeRenderer.DrawWithoutAttributes` | src/main/java/com/itextpdf/svg/renderers/impl/AbstractSvgNodeRenderer.java:107-212 | with a null map, `draw` issues exactly the `doDraw` calls: no transform, no paint set-up, no fill, stroke or `closePath`, and no registration |
| `SvgNodeRenderer.StrokeAsymmetry` | src/main/java/com/itextpdf/svg/renderers/impl/AbstractSvgNodeRenderer.java:160-207 | `postDraw` strokes although `preDraw` set no stroke colour exactly when `stroke` is present but its colour lookup fails |
| `CanvasTrace.OrderedIsLayered` | src/main/java/com/itextpdf/svg/renderers/impl/AbstractSvgNodeRenderer.java:108-127 | a trace whose steps are in template order is the concatenation of the calls of each step, in template order |
| `DrawScenarios.DefaultFillTrace` | src/test/java/com/itextpdf/svg/renderers/impl/PathSvgNodeRendererTest.java:81-100 | with only `d` set: black fill colour, the path, `fill`, then the trailing `closePath` |
| `DrawScenarios.StrokeOnlyTrace` | src/main/java/com/itextpdf/svg/renderers/impl/AbstractSvgNodeRenderer.java:142-210 | with `fill="none" stroke="red" stroke-width="2"`: stroke colour, width 2, the path, `stroke`, `closePath`, and no fill |
| `DrawScenarios.UnreadableStrokeTrace` | src/main/java/com/itextpdf/svg/renderers/impl/AbstractSvgNodeRenderer.java:142-210 | `fill="NONE"` also disables filling; an unreadable stroke colour sets no paint but still strokes |
| `DrawScenarios.EvenOddTransformIdTrace` | src/main/java/com/itextpdf/svg/renderers/impl/AbstractSvgNodeRenderer.java:108-211 | transform first, a null fill colour for an unreadable `fill` (`#zz`), `eoFill` for `fill-rule="EvenOdd"`, registration last |
| `ArrayUtil.ShortenArray` | io/src/main/java/com/itextpdf/io/util/ArrayUtil.java:10-17 | throws `NullPointerException` for a null array and `NegativeArraySizeException` for a negative length, and for nothing else. The result is the first `min(length, src.length)` bytes of `src`, so when `length >= src.length` it is `src` unchanged |
| `ArrayUtil.ShortenArrayTwice` | io/src/main/java/com/itextpdf/io/util/ArrayUtil.java:10-17 | shortening to `n` and then to `m <= n` is shortening to `m` |
| `ArrayUtil.ToArray` | io/src/main/java/com/itextpdf/io/util/ArrayUtil.java:19-26 | throws `NullPointerException` exactly when the collection is null or holds a null. Otherwise the result has the collection's size, and element `k` is the `k`-th element in iteration order |
| `ArrayUtil.Unbox` | io/src/main/java/com/itextpdf/io/util/ArrayUtil.java:21-25 | the loop over a non-null collection fails exactly when an element is null, and otherwise yields one `int` per element, with the element's value, in iteration order |
| `ArrayUtil.ToArrayOfBoxed` | io/src/main/java/com/itextpdf/io/util/ArrayUtil.java:19-26 | round trip: `toArray` of the boxed values of `xs` is `xs` |
| `ArrayUtil.HashCode` | io/src/main/java/com/itextpdf/io/util/ArrayUtil.java:28-37 | 0 for null and 1 for an empty array. Otherwise the result is the polynomial `31^n + Σ a[i]·31^(n-1-i)` reduced into `int` range modulo 2^32, where each Java operation wraps separately |
| `ArrayUtil.JavaHashAppend` | io/src/main/java/com/itextpdf/io/util/ArrayUtil.java:32-34 | appending a byte `b` gives `wrap32(31 * h + b)`, with `b` signed |
| `JavaLang.Wrap32` | io/src/main/java/com/itextpdf/io/util/ArrayUtil.java:34 | Java `int` arithmetic: the result differs from the exact value by a multiple of 2^32 and equals it when it is already in range |

## Left out

- The PDF canvas, `PdfDocument` and the content-stream bytes. Canvas calls are trace events, not PDF operators.
- `SvgDrawContext` internals. `getCurrentCanvas` is not modelled: all calls go into one trace, whichever canvas handle would receive them. `addNamedObject` is a trace event, and the first-writer-wins registry behind it is not part of this model.
- `WebColors.getRGBColor`, `TransformUtils.parseTransform`, `CssUtils.parseAbsoluteLength` and `AffineTransform` arithmetic. They are library code outside this model and appear as the uninterpreted `Foreign` functions. Their exceptions are not modelled, and float lengths are `real`.
- `WebColors.getRGBColor(null)`. `preDraw` calls the lookup even when `stroke` is absent. The model does not call it in that case. The traces agree as long as the lookup does not throw, because the `strokeRawValue != null` guard (AbstractSvgNodeRenderer.java line 163) discards whatever it returns.
- Overrides of the base-class methods other than `doDraw` and `canElementFill`. `preDraw` and `postDraw` are package-private and not final, and `setAttributesAndStyles`, `getAttribute` and `setAttribute` are public and not final. A renderer in the same package could override any of them. The model fixes the base-class versions of all five.
- `doDraw` and `canElementFill` of the concrete renderers (`PathSvgNodeRenderer` and the others). They are not part of this model and appear as the `Subclass` hooks. The model assumes `doDraw` does not change the renderer's own attribute map between `preDraw` and `postDraw`.
- Path `d` parsing. The scenario traces fix the path's calls by hand, and the colour/length parsers there are sample stand-ins.
- `setParent`/`getParent`. They are plain field accessors, and `addChild` never sets the parent, so the model claims no parent/child invariant.
- Java aliasing. `setAttributesAndStyles` stores the caller's map object, so later changes the caller makes to that map would show through; maps here are values. A map that rejects `put` (an unmodifiable one) is not modelled.
- A `null` attribute key. Keys are non-null strings here.
- `SvgNodeRenderer.GetChildren`: the Java method returns an unmodifiable view. Here it returns the sequence itself, which is a value callers cannot modify; it has no separate contract. The Java view is live, so later `addChild` calls show through it, and its elements are shared references to the child renderers. The model returns a snapshot of values instead, like the map-aliasing line above.
- `SvgNodeRenderer.PreDraw`: `equalsIgnoreCase` is modelled with ASCII case folding only. Java also applies Unicode case mappings.
- `SvgNodeRenderer.PostDraw`: same ASCII-only case folding for `evenodd`.
- `ArrayUtil.ShortenArray`: in Java the no-shortening case returns the same array object. Values have no identity here, so the contract states equal contents.
- `ArrayUtil.ToArray`: the collection is its iteration order as a sequence. The bound of `Integer.MAX_VALUE` on `size()` is not modelled.
