/** The `buttonVariants` rule table of the Button component. */
module ButtonVariants {
  import opened Wrappers
  import opened Sequences
  import opened ClassNames
  import opened Variants
  import opened ColorRoles

  datatype Variant = Filled | Outlined | Tonal | Elevated | Text
  datatype Size = Small | Medium | Large

  /** The axes, in the declaration order of the `variants` object. */
  datatype Key = KVariant | KColor | KSize | KFullWidth | KDisabled | KLoading
  datatype Value = V(variant: Variant) | C(color: Color) | S(size: Size) | B(flag: bool)

  const Base: seq<Token> := [
    "relative", "inline-flex", "items-center", "justify-center", "cursor-pointer",
    "overflow-hidden", "rounded-full", "font-medium",
    "transition-all", "duration-200",
    "tracking-[0.1px]",
    "focus-visible:outline-primary", "focus-visible:outline-2", "focus-visible:outline-offset-2",
    "before:absolute", "before:inset-0", "before:rounded-[inherit]", "before:transition-opacity", "before:duration-200",
    "before:bg-current", "before:opacity-0",
    "hover:before:opacity-8",
    "focus-visible:before:opacity-12",
    "active:before:opacity-12"
  ]

  const DisabledTokens: seq<Token> := [
    "pointer-events-none", "cursor-not-allowed", "bg-on-surface/12", "text-on-surface/38",
    "border-on-surface/12", "shadow-none"
  ]

  const VariantAxis: Axis<Key, Value> := Axis(KVariant, map[
    V(Filled) := ["shadow-none", "hover:shadow-elevation-1"],
    V(Outlined) := ["bg-transparent", "border", "border-outline"],
    V(Tonal) := [],
    V(Elevated) := ["shadow-elevation-1", "hover:shadow-elevation-2"],
    V(Text) := ["bg-transparent"]])

  const ColorAxis: Axis<Key, Value> := Axis(KColor, map[
    C(Primary) := [], C(Secondary) := [], C(Tertiary) := [], C(Error) := []])

  const SizeAxis: Axis<Key, Value> := Axis(KSize, map[
    S(Small) := ["h-8", "px-4", "text-sm", "gap-2"],
    S(Medium) := ["h-10", "px-6", "text-sm", "gap-2"],
    S(Large) := ["h-12", "px-8", "text-base", "gap-3"]])

  const FullWidthAxis: Axis<Key, Value> := Axis(KFullWidth, map[B(true) := ["w-full"], B(false) := []])

  const DisabledAxis: Axis<Key, Value> := Axis(KDisabled, map[B(true) := DisabledTokens, B(false) := []])

  const LoadingAxis: Axis<Key, Value> := Axis(KLoading, map[B(true) := ["cursor-wait"], B(false) := []])

  const Axes: seq<Axis<Key, Value>> := [VariantAxis, ColorAxis, SizeAxis, FullWidthAxis, DisabledAxis, LoadingAxis]

  /** The 20 variant × color rules, variant-major, colors in declaration order. */
  const Compounds: seq<Compound<Key, Value>> := [
    Compound([(KVariant, V(Filled)), (KColor, C(Primary))], ["bg-primary", "text-on-primary"]),
    Compound([(KVariant, V(Filled)), (KColor, C(Secondary))], ["bg-secondary", "text-on-secondary"]),
    Compound([(KVariant, V(Filled)), (KColor, C(Tertiary))], ["bg-tertiary", "text-on-tertiary"]),
    Compound([(KVariant, V(Filled)), (KColor, C(Error))], ["bg-error", "text-on-error"]),
    Compound([(KVariant, V(Outlined)), (KColor, C(Primary))], ["text-primary"]),
    Compound([(KVariant, V(Outlined)), (KColor, C(Secondary))], ["text-secondary"]),
    Compound([(KVariant, V(Outlined)), (KColor, C(Tertiary))], ["text-tertiary"]),
    Compound([(KVariant, V(Outlined)), (KColor, C(Error))], ["text-error"]),
    Compound([(KVariant, V(Tonal)), (KColor, C(Primary))], ["bg-secondary-container", "text-on-secondary-container"]),
    Compound([(KVariant, V(Tonal)), (KColor, C(Secondary))], ["bg-secondary-container", "text-on-secondary-container"]),
    Compound([(KVariant, V(Tonal)), (KColor, C(Tertiary))], ["bg-tertiary-container", "text-on-tertiary-container"]),
    Compound([(KVariant, V(Tonal)), (KColor, C(Error))], ["bg-error-container", "text-on-error-container"]),
    Compound([(KVariant, V(Elevated)), (KColor, C(Primary))], ["bg-surface-container-low", "text-primary"]),
    Compound([(KVariant, V(Elevated)), (KColor, C(Secondary))], ["bg-surface-container-low", "text-secondary"]),
    Compound([(KVariant, V(Elevated)), (KColor, C(Tertiary))], ["bg-surface-container-low", "text-tertiary"]),
    Compound([(KVariant, V(Elevated)), (KColor, C(Error))], ["bg-surface-container-low", "text-error"]),
    Compound([(KVariant, V(Text)), (KColor, C(Primary))], ["text-primary"]),
    Compound([(KVariant, V(Text)), (KColor, C(Secondary))], ["text-secondary"]),
    Compound([(KVariant, V(Text)), (KColor, C(Tertiary))], ["text-tertiary"]),
    Compound([(KVariant, V(Text)), (KColor, C(Error))], ["text-error"])
  ]

  const Defaults: map<Key, Value> := map[
    KVariant := V(Filled), KColor := C(Primary), KSize := S(Medium),
    KFullWidth := B(false), KDisabled := B(false), KLoading := B(false)]

  /** The whole `buttonVariants` table. */
  function Rules(): Table<Key, Value>
  {
    Table(Base, Axes, Compounds, Defaults)
  }

  /** The props a caller may pass; `None` is an undefined prop. */
  datatype Props = Props(
    variant: Option<Variant>, color: Option<Color>, size: Option<Size>,
    fullWidth: Option<bool>, disabled: Option<bool>, loading: Option<bool>)

  /** A fully settled configuration. */
  datatype Config = Config(variant: Variant, color: Color, size: Size, fullWidth: bool, disabled: bool, loading: bool)

  const AllKeys: set<Key> := {KVariant, KColor, KSize, KFullWidth, KDisabled, KLoading}

  /** The value the caller gave for axis `k`, if any. */
  function Given(p: Props, k: Key): Option<Value>
  {
    match k
    case KVariant => if p.variant.Some? then Some(V(p.variant.value)) else None
    case KColor => if p.color.Some? then Some(C(p.color.value)) else None
    case KSize => if p.size.Some? then Some(S(p.size.value)) else None
    case KFullWidth => if p.fullWidth.Some? then Some(B(p.fullWidth.value)) else None
    case KDisabled => if p.disabled.Some? then Some(B(p.disabled.value)) else None
    case KLoading => if p.loading.Some? then Some(B(p.loading.value)) else None
  }

  /** The props object handed to the resolver: only the defined props. */
  function PropsMap(p: Props): map<Key, Value>
  {
    map k | k in AllKeys && Given(p, k).Some? :: Given(p, k).value
  }

  function ConfigMap(c: Config): map<Key, Value>
  {
    map[KVariant := V(c.variant), KColor := C(c.color), KSize := S(c.size),
        KFullWidth := B(c.fullWidth), KDisabled := B(c.disabled), KLoading := B(c.loading)]
  }

  /** `buttonVariants(p)`, as a token sequence. */
  function Classes(p: Props): seq<Token>
  {
    Resolve(Rules(), PropsMap(p))
  }

  /** The configuration `p` stands for once undefined props take their defaults. */
  function Settle(p: Props): Config
  {
    Config(p.variant.GetOr(Filled), p.color.GetOr(Primary), p.size.GetOr(Medium),
           p.fullWidth.GetOr(false), p.disabled.GetOr(false), p.loading.GetOr(false))
  }

  lemma SettledAt(p: Props, k: Key)
    ensures k in Defaults + PropsMap(p)
    ensures (Defaults + PropsMap(p))[k] == ConfigMap(Settle(p))[k]
  {
  }

  /** Undefined props resolve to filled / primary / medium / false / false / false
      before any rule is matched. */
  lemma OmittedTakeDefaults(p: Props)
    ensures Settled(Rules(), PropsMap(p)) == ConfigMap(Settle(p))
  {
    var m, cm := Defaults + PropsMap(p), ConfigMap(Settle(p));
    assert Rules().defaults == Defaults;
    forall k | true
      ensures k in m && k in cm && m[k] == cm[k]
    {
      SettledAt(p, k);
    }
    assert m.Keys == cm.Keys;
  }

  function VariantIndex(v: Variant): nat
  {
    match v
    case Filled => 0 case Outlined => 1 case Tonal => 2 case Elevated => 3 case Text => 4
  }

  function ColorIndex(c: Color): nat
  {
    match c
    case Primary => 0 case Secondary => 1 case Tertiary => 2 case Error => 3
  }

  /** The variant listed by rule `i` (the rules are grouped four per variant). */
  function RuleVariant(i: nat): Variant
  {
    if i < 4 then Filled else if i < 8 then Outlined else if i < 12 then Tonal else if i < 16 then Elevated else Text
  }

  /** The colour listed by rule `i`. */
  function RuleColor(i: nat): Color
  {
    var k := i - 4 * VariantIndex(RuleVariant(i));
    if k == 0 then Primary else if k == 1 then Secondary else if k == 2 then Tertiary else Error
  }

  function RuleIndex(v: Variant, c: Color): nat
  {
    4 * VariantIndex(v) + ColorIndex(c)
  }

  /** The colour classes each variant is meant to take, written from the Material
      Design 3 roles rather than rule by rule: filled uses the colour and its
      on-colour, outlined and text use the colour as text, tonal uses the
      colour's container (the secondary container for primary), elevated puts
      the colour as text on the low surface container. */
  function Palette(v: Variant, c: Color): seq<Token>
  {
    var n := ColorName(c);
    match v
    case Filled => ["bg-" + n, "text-on-" + n]
    case Outlined => ["text-" + n]
    case Tonal =>
      var m := if c == Primary then "secondary" else n;
      ["bg-" + m + "-container", "text-on-" + m + "-container"]
    case Elevated => ["bg-surface-container-low", "text-" + n]
    case Text => ["text-" + n]
  }

  /** Rule `i` lists exactly a variant and a colour. */
  lemma RuleConds(i: nat)
    requires i < |Compounds|
    ensures Compounds[i].conds == [(KVariant, V(RuleVariant(i))), (KColor, C(RuleColor(i)))]
  {
  }

  /** Rule `i` applies to a configuration iff it is the rule listing that
      configuration's variant and colour. */
  lemma RuleApplies(c: Config, i: nat)
    requires i < |Compounds|
    ensures Matches(Compounds[i].conds, ConfigMap(c)) <==> i == RuleIndex(c.variant, c.color)
  {
    RuleConds(i);
    var f := ConfigMap(c);
    MatchesUpTo3(Compounds[i].conds, f);
    assert f[KVariant] == V(c.variant) && f[KColor] == C(c.color);
    assert Matches(Compounds[i].conds, f) <==> RuleVariant(i) == c.variant && RuleColor(i) == c.color;
    RuleIndexRoundTrip(i);
    if i == RuleIndex(c.variant, c.color) {
      RuleIndexInjective(RuleVariant(i), RuleColor(i), c.variant, c.color);
    }
  }

  lemma RuleIndexRoundTrip(i: nat)
    requires i < 20
    ensures RuleIndex(RuleVariant(i), RuleColor(i)) == i
  {
  }

  lemma RuleIndexInjective(v: Variant, c: Color, v': Variant, c': Color)
    requires RuleIndex(v, c) == RuleIndex(v', c')
    ensures v == v' && c == c'
  {
  }

  /** For every variant and colour exactly one compound rule applies. */
  lemma ExactlyOneRule(c: Config)
    ensures MatchCount(Compounds, ConfigMap(c)) == 1
  {
    var f := ConfigMap(c);
    forall i | 0 <= i < |Compounds|
      ensures Matches(Compounds[i].conds, f) <==> i == RuleIndex(c.variant, c.color)
    {
      RuleApplies(c, i);
    }
    CountOne(Compounds, f, RuleIndex(c.variant, c.color));
  }

  /** The compound part of every output is the palette of its variant and colour. */
  lemma CompoundPart(c: Config)
    ensures Concat(CompoundFragments(Compounds, ConfigMap(c))) == Palette(c.variant, c.color)
  {
    forall i | 0 <= i < |Compounds|
      ensures Matches(Compounds[i].conds, ConfigMap(c)) <==> i == RuleIndex(c.variant, c.color)
    {
      RuleApplies(c, i);
    }
    OnlyCompound(Compounds, ConfigMap(c), RuleIndex(c.variant, c.color));
    PaletteRow(c.variant, c.color);
  }

  /** Every rule's classes are the palette of the variant and colour it lists. */
  lemma PaletteRow(v: Variant, c: Color)
    ensures Compounds[RuleIndex(v, c)].classes == Palette(v, c)
  {
    match v
    case Filled => FilledPalette(c);
    case Outlined => TextPalette(Outlined, c);
    case Tonal => TonalPalette(c);
    case Elevated => ElevatedPalette(c);
    case Text => TextPalette(Text, c);
  }

  lemma FilledPalette(c: Color)
    ensures Compounds[RuleIndex(Filled, c)].classes == Palette(Filled, c)
  {
    Spellings();
  }

  lemma TonalPalette(c: Color)
    ensures Compounds[RuleIndex(Tonal, c)].classes == Palette(Tonal, c)
  {
    SecondaryContainerSpelling();
    TertiaryContainerSpelling();
    ErrorContainerSpelling();
  }

  lemma ElevatedPalette(c: Color)
    ensures Compounds[RuleIndex(Elevated, c)].classes == Palette(Elevated, c)
  {
    Spellings();
  }

  lemma TextPalette(v: Variant, c: Color)
    requires v == Outlined || v == Text
    ensures Compounds[RuleIndex(v, c)].classes == Palette(v, c)
  {
    Spellings();
  }

  /** The classes each axis contributes to configuration `c`, in axis order. */
  function AxisRowsOf(c: Config): seq<seq<Token>>
  {
    [OptionClasses(VariantAxis, V(c.variant)), [], OptionClasses(SizeAxis, S(c.size)),
     FlagRow(c.fullWidth, ["w-full"]), FlagRow(c.disabled, DisabledTokens),
     FlagRow(c.loading, ["cursor-wait"])]
  }

  /** Each flag axis contributes its classes exactly when its flag is on. */
  lemma FlagOptions(b: bool)
    ensures OptionClasses(FullWidthAxis, B(b)) == FlagRow(b, ["w-full"])
    ensures OptionClasses(DisabledAxis, B(b)) == FlagRow(b, DisabledTokens)
    ensures OptionClasses(LoadingAxis, B(b)) == FlagRow(b, ["cursor-wait"])
  {
  }

  lemma RowOfVariant(c: Config)
    ensures AxisFragments(Axes, ConfigMap(c))[0] == AxisRowsOf(c)[0]
  {
    var f := ConfigMap(c);
    assert AxisFragments(Axes, f)[0] == AxisClasses(Axes[0], f);
    assert AxisClasses(VariantAxis, f) == OptionClasses(VariantAxis, V(c.variant));
  }

  lemma RowOfColor(c: Config)
    ensures AxisFragments(Axes, ConfigMap(c))[1] == AxisRowsOf(c)[1]
  {
    var f := ConfigMap(c);
    assert AxisFragments(Axes, f)[1] == AxisClasses(Axes[1], f);
    assert AxisClasses(ColorAxis, f) == [];
  }

  lemma RowOfSize(c: Config)
    ensures AxisFragments(Axes, ConfigMap(c))[2] == AxisRowsOf(c)[2]
  {
    var f := ConfigMap(c);
    assert AxisFragments(Axes, f)[2] == AxisClasses(Axes[2], f);
    assert AxisClasses(SizeAxis, f) == OptionClasses(SizeAxis, S(c.size));
  }

  lemma RowOfFullWidth(c: Config)
    ensures AxisFragments(Axes, ConfigMap(c))[3] == AxisRowsOf(c)[3]
  {
    var f := ConfigMap(c);
    assert AxisFragments(Axes, f)[3] == AxisClasses(Axes[3], f);
    FlagOptions(c.fullWidth);
    assert AxisClasses(FullWidthAxis, f) == OptionClasses(FullWidthAxis, B(c.fullWidth));
  }

  lemma RowOfDisabled(c: Config)
    ensures AxisFragments(Axes, ConfigMap(c))[4] == AxisRowsOf(c)[4]
  {
    var f := ConfigMap(c);
    assert AxisFragments(Axes, f)[4] == AxisClasses(Axes[4], f);
    FlagOptions(c.disabled);
    assert AxisClasses(DisabledAxis, f) == OptionClasses(DisabledAxis, B(c.disabled));
  }

  lemma RowOfLoading(c: Config)
    ensures AxisFragments(Axes, ConfigMap(c))[5] == AxisRowsOf(c)[5]
  {
    var f := ConfigMap(c);
    assert AxisFragments(Axes, f)[5] == AxisClasses(Axes[5], f);
    FlagOptions(c.loading);
    assert AxisClasses(LoadingAxis, f) == OptionClasses(LoadingAxis, B(c.loading));
  }

  /** The axis part of the output, axis by axis in declaration order. */
  lemma AxisRows(c: Config)
    ensures AxisFragments(Rules().axes, ConfigMap(c)) == AxisRowsOf(c)
  {
    RowOfVariant(c);
    RowOfColor(c);
    RowOfSize(c);
    RowOfFullWidth(c);
    RowOfDisabled(c);
    RowOfLoading(c);
  }

  /** The classes the axes contribute to configuration `c`, in axis order: the
      variant's, none for the colour, the size's, `w-full` iff full width, the
      disabled classes iff disabled, `cursor-wait` iff loading. */
  function AxisPart(c: Config): seq<Token>
  {
    OptionClasses(VariantAxis, V(c.variant)) + OptionClasses(SizeAxis, S(c.size))
    + FlagRow(c.fullWidth, ["w-full"]) + FlagRow(c.disabled, DisabledTokens)
    + FlagRow(c.loading, ["cursor-wait"])
  }

  /** What `buttonVariants` is meant to return for configuration `c`: the base
      classes, the axis part, then the palette of its variant and colour. */
  function ByAxis(c: Config): seq<Token>
  {
    Base + AxisPart(c) + Palette(c.variant, c.color)
  }

  /** The resolver applied to the table yields the per-axis description: the
      colour axis contributes nothing of its own and the single applicable
      compound rule contributes the palette. */
  lemma ClosedForm(p: Props)
    ensures Classes(p) == ByAxis(Settle(p))
  {
    var c := Settle(p);
    var f := ConfigMap(c);
    OmittedTakeDefaults(p);
    ResolveParts(Rules(), PropsMap(p));
    assert Classes(p) == Base + Concat(AxisFragments(Axes, f)) + Concat(CompoundFragments(Compounds, f));
    AxisRows(c);
    AxisConcat(c);
    CompoundPart(c);
  }

  /** The axis rows joined are the axis part. */
  lemma AxisConcat(c: Config)
    ensures Concat(AxisRowsOf(c)) == AxisPart(c)
  {
    var rows := AxisRowsOf(c);
    Concat6(rows[0], rows[1], rows[2], rows[3], rows[4], rows[5]);
    assert rows[0] + rows[1] == rows[0];
  }

  /** A token of the output comes from the base, the axis rows or the palette. */
  lemma InClasses(p: Props, t: Token)
    ensures var c := Settle(p);
      t in Classes(p)
      <==> || t in Base || t in OptionClasses(VariantAxis, V(c.variant)) || t in OptionClasses(SizeAxis, S(c.size))
           || t in FlagRow(c.fullWidth, ["w-full"]) || t in FlagRow(c.disabled, DisabledTokens)
           || t in FlagRow(c.loading, ["cursor-wait"]) || t in Palette(c.variant, c.color)
  {
    ClosedForm(p);
  }

  /** The height each size is drawn at. */
  function Height(s: Size): Token
  {
    match s
    case Small => "h-8" case Medium => "h-10" case Large => "h-12"
  }

  /** The horizontal padding of each size. */
  function PaddingX(s: Size): Token
  {
    match s
    case Small => "px-4" case Medium => "px-6" case Large => "px-8"
  }

  predicate IsPaddingX(t: Token)
  {
    |t| > 3 && t[0] == 'p' && t[1] == 'x' && t[2] == '-'
  }

  /** No base class is a height or a horizontal padding. */
  lemma BaseHasNoSizing(t: Token)
    requires IsHeight(t) || IsPaddingX(t)
    ensures t !in Base
  {
  }

  /** Only the size axis emits a height or a horizontal padding token. */
  lemma SizingOnlyFromSize(c: Config, t: Token)
    requires IsHeight(t) || IsPaddingX(t)
    ensures t !in Base && t !in OptionClasses(VariantAxis, V(c.variant))
    ensures t !in DisabledTokens && t != "w-full" && t != "cursor-wait" && t !in Palette(c.variant, c.color)
  {
    BaseHasNoSizing(t);
  }

  lemma SizeRowHeight(s: Size)
    ensures Height(s) in OptionClasses(SizeAxis, S(s))
    ensures forall t | t in OptionClasses(SizeAxis, S(s)) && IsHeight(t) :: t == Height(s)
  {
  }

  /** Every output holds exactly one height token, the size's. */
  lemma OneHeight(p: Props)
    ensures Height(Settle(p).size) in Classes(p)
    ensures forall t | t in Classes(p) && IsHeight(t) :: t == Height(Settle(p).size)
  {
    var c := Settle(p);
    SizeRowHeight(c.size);
    InClasses(p, Height(c.size));
    forall t | t in Classes(p) && IsHeight(t)
      ensures t == Height(c.size)
    {
      InClasses(p, t);
      SizingOnlyFromSize(c, t);
    }
  }

  lemma SizeRowPadding(s: Size)
    ensures PaddingX(s) in OptionClasses(SizeAxis, S(s))
    ensures forall t | t in OptionClasses(SizeAxis, S(s)) && IsPaddingX(t) :: t == PaddingX(s)
  {
  }

  /** Every output holds exactly one horizontal padding token, the size's. */
  lemma OnePaddingX(p: Props)
    ensures PaddingX(Settle(p).size) in Classes(p)
    ensures forall t | t in Classes(p) && IsPaddingX(t) :: t == PaddingX(Settle(p).size)
  {
    var c := Settle(p);
    SizeRowPadding(c.size);
    InClasses(p, PaddingX(c.size));
    forall t | t in Classes(p) && IsPaddingX(t)
      ensures t == PaddingX(c.size)
    {
      InClasses(p, t);
      SizingOnlyFromSize(c, t);
    }
  }

  /** Tonal primary is drawn exactly like tonal secondary. */
  lemma TonalPrimaryLooksSecondary(p: Props)
    requires Settle(p).variant == Tonal
    ensures Classes(p.(color := Some(Primary))) == Classes(p.(color := Some(Secondary)))
  {
    var p1, p2 := p.(color := Some(Primary)), p.(color := Some(Secondary));
    ClosedForm(p1);
    ClosedForm(p2);
    assert Palette(Tonal, Primary) == Palette(Tonal, Secondary);
    assert AxisPart(Settle(p1)) == AxisPart(Settle(p2));
  }

  /** Filled primary carries the primary container and its on-colour. */
  lemma FilledPrimaryColours(p: Props)
    requires Settle(p).variant == Filled && Settle(p).color == Primary
    ensures "bg-primary" in Classes(p) && "text-on-primary" in Classes(p)
  {
    Spellings();
    InClasses(p, "bg-primary");
    InClasses(p, "text-on-primary");
  }

  /** On configurations, switching full width on inserts `w-full` and nothing else. */
  lemma FullWidthRow(c: Config)
    requires !c.fullWidth
    ensures exists pre, post :: ByAxis(c) == pre + post && ByAxis(c.(fullWidth := true)) == pre + ["w-full"] + post
  {
    var v, s := OptionClasses(VariantAxis, V(c.variant)), OptionClasses(SizeAxis, S(c.size));
    var d, l := FlagRow(c.disabled, DisabledTokens), FlagRow(c.loading, ["cursor-wait"]);
    Regroup(v, s, ["w-full"], d, l);
    Splice(Base, v + s, ["w-full"], d + l, Palette(c.variant, c.color));
  }

  /** Full width adds exactly `w-full`, at the same place in every output. */
  lemma FullWidthAddsOnlyWFull(p: Props)
    ensures exists pre, post ::
      && Classes(p.(fullWidth := Some(false))) == pre + post
      && Classes(p.(fullWidth := Some(true))) == pre + ["w-full"] + post
  {
    var p0, p1 := p.(fullWidth := Some(false)), p.(fullWidth := Some(true));
    var c := Settle(p0);
    assert Settle(p1) == c.(fullWidth := true);
    ClosedForm(p0);
    ClosedForm(p1);
    FullWidthRow(c);
    var pre, post :| ByAxis(c) == pre + post && ByAxis(c.(fullWidth := true)) == pre + ["w-full"] + post;
    assert Classes(p0) == pre + post;
  }

  /** On configurations, switching disabled on inserts the disabled classes and nothing else. */
  lemma DisabledRow(c: Config)
    requires !c.disabled
    ensures exists pre, post :: ByAxis(c) == pre + post && ByAxis(c.(disabled := true)) == pre + DisabledTokens + post
  {
    var v, s := OptionClasses(VariantAxis, V(c.variant)), OptionClasses(SizeAxis, S(c.size));
    var w, l := FlagRow(c.fullWidth, ["w-full"]), FlagRow(c.loading, ["cursor-wait"]);
    Regroup(v, s, w, DisabledTokens, l);
    Splice(Base, v + s + w, DisabledTokens, l, Palette(c.variant, c.color));
  }

  /** Disabled adds exactly the disabled classes, at the same place in every output. */
  lemma DisabledAddsOnlyDisabledTokens(p: Props)
    ensures exists pre, post ::
      && Classes(p.(disabled := Some(false))) == pre + post
      && Classes(p.(disabled := Some(true))) == pre + DisabledTokens + post
  {
    var p0, p1 := p.(disabled := Some(false)), p.(disabled := Some(true));
    var c := Settle(p0);
    assert Settle(p1) == c.(disabled := true);
    ClosedForm(p0);
    ClosedForm(p1);
    DisabledRow(c);
    var pre, post :| ByAxis(c) == pre + post && ByAxis(c.(disabled := true)) == pre + DisabledTokens + post;
    assert Classes(p0) == pre + post;
  }

  /** On configurations, switching loading on inserts `cursor-wait` and nothing else. */
  lemma LoadingRow(c: Config)
    requires !c.loading
    ensures exists pre, post :: ByAxis(c) == pre + post && ByAxis(c.(loading := true)) == pre + ["cursor-wait"] + post
  {
    var a := OptionClasses(VariantAxis, V(c.variant)) + OptionClasses(SizeAxis, S(c.size))
      + FlagRow(c.fullWidth, ["w-full"]) + FlagRow(c.disabled, DisabledTokens);
    SpliceEnd(Base, a, ["cursor-wait"], Palette(c.variant, c.color));
    assert ByAxis(c) == Base + (a + []) + Palette(c.variant, c.color);
  }

  /** Loading adds exactly `cursor-wait`, at the same place in every output. */
  lemma LoadingAddsOnlyCursorWait(p: Props)
    ensures exists pre, post ::
      && Classes(p.(loading := Some(false))) == pre + post
      && Classes(p.(loading := Some(true))) == pre + ["cursor-wait"] + post
  {
    var p0, p1 := p.(loading := Some(false)), p.(loading := Some(true));
    var c := Settle(p0);
    assert Settle(p1) == c.(loading := true);
    ClosedForm(p0);
    ClosedForm(p1);
    LoadingRow(c);
    var pre, post :| ByAxis(c) == pre + post && ByAxis(c.(loading := true)) == pre + ["cursor-wait"] + post;
    assert Classes(p0) == pre + post;
  }

  /** The colours of the disabled row: container, content and outline. */
  const DisabledColours: seq<Token> := ["bg-on-surface/12", "text-on-surface/38", "border-on-surface/12"]

  /** No font size and no keyword starts with `o`, so `on-…` values are colours. */
  lemma OnValue(s: string)
    requires ':' !in s
    ensures ':' !in "on-" + s && "on-" + s !in FontSizes && "on-" + s !in TextKeywords
  {
    var t := "on-" + s;
    assert t[0] == 'o';
    forall j | 0 <= j < |FontSizes| ensures FontSizes[j] == [] || FontSizes[j][0] != 'o' {}
    forall j | 0 <= j < |TextKeywords| ensures TextKeywords[j] == [] || TextKeywords[j][0] != 'o' {}
  }

  lemma ColourNameValue(c: Color)
    ensures var n := ColorName(c); n != [] && ':' !in n && '/' !in n && n !in FontSizes && n !in TextKeywords
  {
  }

  /** The last class of every palette is a text colour. */
  lemma PaletteEndsInTextColour(v: Variant, c: Color)
    ensures var pal := Palette(v, c); pal != [] && IsTextColour(pal[|pal| - 1])
  {
    match v
    case Filled => OnColourText(ColorName(c));
    case Tonal => OnColourText((if c == Primary then "secondary" else ColorName(c)) + "-container");
    case _ => ColourNameValue(c); TextOf(ColorName(c));
  }

  /** `text-on-…` is a text colour. */
  lemma OnColourText(s: string)
    requires s == "secondary-container" || ':' !in s
    ensures IsTextColour("text-on-" + s)
  {
    OnValue(s);
    TextOf("on-" + s);
    assert "text-on-" + s == "text-" + ("on-" + s);
  }

  /** Filled, tonal and elevated palettes open with a container colour. */
  lemma PaletteOpensWithBackground(v: Variant, c: Color)
    requires v == Filled || v == Tonal || v == Elevated
    ensures Palette(v, c) != [] && IsBackground(Palette(v, c)[0])
  {
    ColourNameValue(c);
    match v
    case Filled => BackgroundOf(ColorName(c));
    case Tonal => BackgroundOf((if c == Primary then "secondary" else ColorName(c)) + "-container");
    case Elevated => BackgroundOf("surface-container-low");
  }

  lemma BorderOf(s: string)
    requires s != [] && s[0] == 'o' && ':' !in s
    ensures IsBorderColour("border-" + s)
  {
    var t := "border-" + s;
    assert t[..7] == "border-" && t[7..] == s;
    forall j | 0 <= j < |BorderKeywords| ensures BorderKeywords[j] == [] || BorderKeywords[j][0] != 'o' {}
  }

  lemma DisabledBackgroundKind()
    ensures IsBackground(DisabledColours[0])
  {
    BackgroundOf("on-surface/12");
  }

  lemma DisabledTextKind()
    ensures IsTextColour(DisabledColours[1])
  {
    OnColourText("surface/38");
    assert "text-on-" + "surface/38" == DisabledColours[1];
  }

  lemma DisabledBorderKind()
    ensures IsBorderColour(DisabledColours[2])
  {
    BorderOf("on-surface/12");
  }

  /** No palette repeats a disabled colour. */
  lemma DisabledNotInPalette(v: Variant, c: Color)
    ensures DisabledColours[0] !in Palette(v, c) && DisabledColours[1] !in Palette(v, c)
  {
    ColourNameValue(c);
    ColourNameValue(Secondary);
    assert forall t | t in Palette(v, c) :: '/' !in t;
    assert DisabledColours[0][13] == '/' && DisabledColours[1][15] == '/';
  }

  /** In a disabled configuration the disabled colours come before the palette. */
  lemma DisabledBeforePalette(c: Config)
    requires c.disabled
    ensures ByAxis(c) == (Base + AxisPart(c)) + Palette(c.variant, c.color)
    ensures DisabledColours[0] in Base + AxisPart(c) && DisabledColours[1] in Base + AxisPart(c)
  {
    assert DisabledColours[0] == DisabledTokens[2] && DisabledColours[1] == DisabledTokens[3];
  }

  /** As written, the disabled row comes before the compound rules, so the
      palette's text colour overrides the disabled text colour in every
      disabled configuration. */
  lemma DisabledTextOverridden(c: Config)
    requires c.disabled
    ensures DisabledColours[1] in ByAxis(c) && DisabledColours[1] !in Merge(ByAxis(c), KeyOf)
  {
    var pal := Palette(c.variant, c.color);
    DisabledBeforePalette(c);
    DisabledTextKind();
    DisabledNotInPalette(c.variant, c.color);
    PaletteEndsInTextColour(c.variant, c.color);
    TextColourOverridden(Base + AxisPart(c), pal, DisabledColours[1], pal[|pal| - 1]);
  }

  /** On filled, tonal and elevated configurations the palette's container
      colour overrides the disabled container as well. */
  lemma DisabledContainerOverridden(c: Config)
    requires c.disabled && (c.variant == Filled || c.variant == Tonal || c.variant == Elevated)
    ensures DisabledColours[0] in ByAxis(c) && DisabledColours[0] !in Merge(ByAxis(c), KeyOf)
  {
    var pal := Palette(c.variant, c.color);
    DisabledBeforePalette(c);
    DisabledBackgroundKind();
    DisabledNotInPalette(c.variant, c.color);
    PaletteOpensWithBackground(c.variant, c.color);
    BackgroundOverridden(Base + AxisPart(c), pal, DisabledColours[0], pal[0]);
  }

  /** The same for the table's output: as written, tailwind-merge drops the
      disabled text colour of every disabled button, and the disabled
      container colour of every disabled filled, tonal or elevated button. */
  lemma DisabledColoursOverridden(p: Props)
    requires Settle(p).disabled
    ensures DisabledColours[1] in Classes(p) && DisabledColours[1] !in Merge(Classes(p), KeyOf)
    ensures Settle(p).variant in {Filled, Tonal, Elevated} ==>
      DisabledColours[0] in Classes(p) && DisabledColours[0] !in Merge(Classes(p), KeyOf)
  {
    var c := Settle(p);
    ClosedForm(p);
    DisabledTextOverridden(c);
    if c.variant in {Filled, Tonal, Elevated} {
      DisabledContainerOverridden(c);
    }
  }

  /** As intended: the disabled colours follow the palette. */
  function ClassesIntended(p: Props): (r: seq<Token>)
    ensures Classes(p) <= r
    ensures Settle(p).disabled ==> r == Classes(p) + DisabledColours
    ensures !Settle(p).disabled ==> r == Classes(p)
  {
    Classes(p) + FlagRow(Settle(p).disabled, DisabledColours)
  }

  /** With the disabled colours last, every disabled button keeps all three. */
  lemma DisabledColoursWinIntended(p: Props)
    requires Settle(p).disabled
    ensures forall t | t in DisabledColours :: t in Merge(ClassesIntended(p), KeyOf)
  {
    DisabledBackgroundKind();
    DisabledTextKind();
    DisabledBorderKind();
    var d := DisabledColours;
    assert d == [d[0], d[1], d[2]];
    ColoursAtEndSurvive(Classes(p), d[0], d[1], d[2]);
  }
}
