/** Typography helpers: CSS variable names of the type-scale tokens, style
    objects built from them, the element-to-style table, class names,
    responsive style sets and the truncation styles.

    The computed-style lookup is a parameter `computed`, mapping a custom
    property name to its trimmed value. */
module Typography {
  import opened Wrappers
  import Colors

  datatype Scale = Display | Headline | Title | Body | Label
  datatype Size = Large | Medium | Small

  /** One of the fifteen type-scale styles, such as `display-large`. */
  datatype TypeStyle = TypeStyle(scale: Scale, size: Size)

  datatype Property = FontSize | LineHeight | Weight | Tracking

  function ScaleName(s: Scale): string
  {
    match s
    case Display => "display"
    case Headline => "headline"
    case Title => "title"
    case Body => "body"
    case Label => "label"
  }

  function SizeName(s: Size): string
  {
    match s
    case Large => "large"
    case Medium => "medium"
    case Small => "small"
  }

  function StyleName(t: TypeStyle): string
  {
    ScaleName(t.scale) + "-" + SizeName(t.size)
  }

  function PropertyName(p: Property): string
  {
    match p
    case FontSize => "size"
    case LineHeight => "line-height"
    case Weight => "weight"
    case Tracking => "tracking"
  }

  /** The scale name is the part of a style name before its first dash. */
  lemma ScaleNameHasNoDash(s: Scale)
    ensures |ScaleName(s)| > 0 && '-' !in ScaleName(s)
  {
  }

  /** Style names are distinct: the name determines the style. */
  lemma {:induction false} StyleNameInjective(a: TypeStyle, b: TypeStyle)
    requires StyleName(a) == StyleName(b)
    ensures a == b
  {
    var x, y := ScaleName(a.scale), ScaleName(b.scale);
    ScaleNameHasNoDash(a.scale);
    ScaleNameHasNoDash(b.scale);
    FirstDash(x, SizeName(a.size), y, SizeName(b.size));
    assert x == y && SizeName(a.size) == SizeName(b.size);
    match a.scale
    case Display => {}
    case Headline => {}
    case Title => {}
    case Body => {}
    case Label => {}
  }

  /** Splitting at the first dash recovers both parts. */
  lemma {:induction false} FirstDash(x: string, u: string, y: string, v: string)
    requires '-' !in x && '-' !in y
    requires x + "-" + u == y + "-" + v
    ensures x == y && u == v
  {
    if |x| < |y| {
      DashFirst(x, u, y, v);
      assert false;
    } else if |y| < |x| {
      DashFirst(y, v, x, u);
      assert false;
    } else {
      assert x == (x + "-" + u)[..|x|] == (y + "-" + v)[..|y|] == y;
      assert u == (x + "-" + u)[|x| + 1..] == (y + "-" + v)[|y| + 1..] == v;
    }
  }

  /** A dash at a place where the other string has none tells them apart. */
  lemma DashFirst(x: string, u: string, y: string, v: string)
    requires |x| < |y| && '-' !in y
    ensures x + "-" + u != y + "-" + v
  {
    assert (x + "-" + u)[|x|] == '-';
    assert (y + "-" + v)[|x|] == y[|x|];
  }

  /** The custom property that holds one property of one style. */
  function TokenName(t: TypeStyle, p: Property): (r: string)
    ensures Colors.StartsWithDashes(r)
  {
    "--md-sys-typescale-" + StyleName(t) + "-" + PropertyName(p)
  }

  function TypographyToken(computed: string -> string, t: TypeStyle, p: Property): string
  {
    Colors.ColorValue(computed, TokenName(t, p))
  }

  /** A token is read from exactly `--md-sys-typescale-<style>-<property>`. */
  lemma TokenVariable(computed: string -> string, t: TypeStyle, p: Property)
    ensures TypographyToken(computed, t, p) == computed("--md-sys-typescale-" + StyleName(t) + "-" + PropertyName(p))
  {
  }

  datatype FontVariant = Plain | Brand

  function FontVariantName(v: FontVariant): string
  {
    match v
    case Plain => "plain"
    case Brand => "brand"
  }

  function FontFamilyName(v: FontVariant): (r: string)
    ensures Colors.StartsWithDashes(r)
  {
    "--md-sys-typescale-font-family-" + FontVariantName(v)
  }

  /** The font stack of a variant; the plain one when none is given. */
  function FontFamily(computed: string -> string, v: Option<FontVariant>): string
  {
    Colors.ColorValue(computed, FontFamilyName(v.GetOr(Plain)))
  }

  lemma FontFamilyDefault(computed: string -> string, v: Option<FontVariant>)
    ensures FontFamily(computed, None) == FontFamily(computed, Some(Plain))
    ensures FontFamily(computed, v) == computed("--md-sys-typescale-font-family-" + FontVariantName(v.GetOr(Plain)))
  {
  }

  /** An inline style object; `fontFamily` is an optional field. */
  datatype StyleObject = StyleObject(
    fontSize: string, lineHeight: string, fontWeight: string, letterSpacing: string,
    fontFamily: Option<string>)

  function TypographyStyle(computed: string -> string, t: TypeStyle, includeFontFamily: Option<bool>): (r: StyleObject)
    ensures r.fontFamily.Some? <==> includeFontFamily == Some(true)
  {
    var base := StyleObject(
      TypographyToken(computed, t, FontSize), TypographyToken(computed, t, LineHeight),
      TypographyToken(computed, t, Weight), TypographyToken(computed, t, Tracking), None);
    if includeFontFamily.GetOr(false) then base.(fontFamily := Some(FontFamily(computed, Some(Plain)))) else base
  }

  /** Each field holds the token of its property; the font family, when
      asked for, is the plain stack. */
  lemma StyleFields(computed: string -> string, t: TypeStyle, includeFontFamily: Option<bool>)
    ensures var r := TypographyStyle(computed, t, includeFontFamily);
      && r.fontSize == computed(TokenName(t, FontSize))
      && r.lineHeight == computed(TokenName(t, LineHeight))
      && r.fontWeight == computed(TokenName(t, Weight))
      && r.letterSpacing == computed(TokenName(t, Tracking))
      && (r.fontFamily.Some? ==> r.fontFamily.value == computed("--md-sys-typescale-font-family-plain"))
  {
    assert FontFamilyName(Plain) == "--md-sys-typescale-font-family-plain";
  }

  datatype Element = H1 | H2 | H3 | H4 | H5 | H6 | P | Span | SmallText | Button | LabelText | Caption

  /** The recommended style of each element. */
  function ElementStyle(e: Element): TypeStyle
  {
    match e
    case H1 => TypeStyle(Display, Large)
    case H2 => TypeStyle(Display, Medium)
    case H3 => TypeStyle(Headline, Large)
    case H4 => TypeStyle(Headline, Medium)
    case H5 => TypeStyle(Headline, Small)
    case H6 => TypeStyle(Title, Large)
    case P => TypeStyle(Body, Large)
    case Span => TypeStyle(Body, Medium)
    case SmallText => TypeStyle(Body, Small)
    case Button => TypeStyle(Label, Large)
    case LabelText => TypeStyle(Label, Medium)
    case Caption => TypeStyle(Label, Small)
  }

  /** The rank of a style from the largest (`display-large`, 0) to the smallest. */
  function Rank(t: TypeStyle): nat
  {
    var s := match t.scale case Display => 0 case Headline => 1 case Title => 2 case Body => 3 case Label => 4;
    var z := match t.size case Large => 0 case Medium => 1 case Small => 2;
    3 * s + z
  }

  function HeadingLevel(e: Element): nat
  {
    match e
    case H1 => 1 case H2 => 2 case H3 => 3 case H4 => 4 case H5 => 5 case H6 => 6
    case _ => 7
  }

  /** The table gives different elements different styles, and a deeper
      heading never a larger style than a shallower one. */
  lemma ElementTable(e: Element, f: Element)
    ensures e != f ==> ElementStyle(e) != ElementStyle(f)
    ensures HeadingLevel(e) < HeadingLevel(f) <= 6 ==> Rank(ElementStyle(e)) < Rank(ElementStyle(f))
  {
  }

  function TypographyClassName(t: TypeStyle): (r: string)
    ensures |r| > 5 && r[..5] == "text-"
  {
    "text-" + StyleName(t)
  }

  /** The class name determines the style. */
  lemma ClassNameInjective(a: TypeStyle, b: TypeStyle)
    requires TypographyClassName(a) == TypographyClassName(b)
    ensures a == b
  {
    assert StyleName(a) == TypographyClassName(a)[5..];
    assert StyleName(b) == TypographyClassName(b)[5..];
    StyleNameInjective(a, b);
  }

  datatype Responsive = Responsive(mobile: StyleObject, tablet: Option<StyleObject>, desktop: Option<StyleObject>)

  function ResponsiveTypography(computed: string -> string, mobile: TypeStyle, tablet: Option<TypeStyle>, desktop: Option<TypeStyle>): (r: Responsive)
    ensures r.tablet.Some? <==> tablet.Some?
    ensures r.desktop.Some? <==> desktop.Some?
    ensures r.mobile == TypographyStyle(computed, mobile, None)
    ensures tablet.Some? ==> r.tablet.value == TypographyStyle(computed, tablet.value, None)
    ensures desktop.Some? ==> r.desktop.value == TypographyStyle(computed, desktop.value, None)
  {
    Responsive(
      TypographyStyle(computed, mobile, None),
      if tablet.Some? then Some(TypographyStyle(computed, tablet.value, None)) else None,
      if desktop.Some? then Some(TypographyStyle(computed, desktop.value, None)) else None)
  }

  /** No breakpoint of a responsive set carries a font family. */
  lemma ResponsiveHasNoFontFamily(computed: string -> string, mobile: TypeStyle, tablet: Option<TypeStyle>, desktop: Option<TypeStyle>)
    ensures var r := ResponsiveTypography(computed, mobile, tablet, desktop);
      && r.mobile.fontFamily.None?
      && (r.tablet.Some? ==> r.tablet.value.fontFamily.None?)
      && (r.desktop.Some? ==> r.desktop.value.fontFamily.None?)
  {
  }

  datatype CssValue = Text(text: string) | Number(n: int)

  /** The truncation styles: one line gives the no-wrap ellipsis set, any
      other count a vertical box clamped to that many lines. */
  function TruncateText(lines: Option<int>): (css: map<string, CssValue>)
    ensures "overflow" in css && css["overflow"] == Text("hidden")
    ensures "textOverflow" in css && css["textOverflow"] == Text("ellipsis")
    ensures lines.GetOr(1) == 1 <==> "whiteSpace" in css
    ensures lines.GetOr(1) == 1 ==> css.Keys == {"overflow", "textOverflow", "whiteSpace"} && css["whiteSpace"] == Text("nowrap")
    ensures lines.GetOr(1) != 1 ==>
      && css.Keys == {"display", "WebkitLineClamp", "WebkitBoxOrient", "overflow", "textOverflow"}
      && css["WebkitLineClamp"] == Number(lines.value)
      && css["display"] == Text("-webkit-box") && css["WebkitBoxOrient"] == Text("vertical")
  {
    var n := lines.GetOr(1);
    if n == 1 then
      map["overflow" := Text("hidden"), "textOverflow" := Text("ellipsis"), "whiteSpace" := Text("nowrap")]
    else
      map["display" := Text("-webkit-box"), "WebkitLineClamp" := Number(n), "WebkitBoxOrient" := Text("vertical"),
          "overflow" := Text("hidden"), "textOverflow" := Text("ellipsis")]
  }
}
