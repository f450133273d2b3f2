/** The attribute names and keywords the abstract renderer reads, as SVG
    spells them. */
module SvgTagConstants {
  const Transform: string := "transform"
  const Id: string := "id"
  const FillAttr: string := "fill"
  const StrokeAttr: string := "stroke"
  const StrokeWidth: string := "stroke-width"
  const FillRule: string := "fill-rule"
  const NoneKeyword: string := "none"
  const FillRuleEvenOdd: string := "evenodd"
}
