/** The `iconButtonVariants` rule table of the IconButton component. */
module IconButtonVariants {
  import opened Wrappers
  import opened Sequences
  import opened ClassNames
  import opened Variants
  import opened ColorRoles

  datatype Variant = Standard | Filled | Tonal | Outlined
  datatype Size = Small | Medium | Large

  /** The axes, in the declaration order of the `variants` object. */
  datatype Key = KVariant | KColor | KSize | KSelected | KIsDisabled
  datatype Value = V(variant: Variant) | C(color: Color) | S(size: Size) | B(flag: bool)

  const Base: seq<Token> := [
    "relative", "inline-flex", "items-center", "justify-center",
    "overflow-hidden", "rounded-full",
    "transition-all", "duration-200",
    "focus-visible:outline-primary", "focus-visible:outline-2", "focus-visible:outline-offset-2",
    "before:absolute", "before:inset-0", "before:rounded-[inherit]", "before:transition-opacity", "before:duration-200",
    "before:bg-current", "before:opacity-0",
    "hover:before:opacity-8",
    "focus-visible:before:opacity-12",
    "active:before:opacity-12"
  ]

  const DisabledTokens: seq<Token> := ["pointer-events-none", "cursor-not-allowed", "opacity-38"]

  const VariantAxis: Axis<Key, Value> := Axis(KVariant, map[
    V(Standard) := ["bg-transparent"],
    V(Filled) := ["shadow-none"],
    V(Tonal) := [],
    V(Outlined) := ["bg-transparent", "border", "border-outline"]])

  const ColorAxis: Axis<Key, Value> := Axis(KColor, map[
    C(Primary) := [], C(Secondary) := [], C(Tertiary) := [], C(Error) := []])

  const SizeAxis: Axis<Key, Value> := Axis(KSize, map[
    S(Small) := ["h-8", "w-8"],
    S(Medium) := ["h-10", "w-10"],
    S(Large) := ["h-12", "w-12"]])

  const SelectedAxis: Axis<Key, Value> := Axis(KSelected, map[B(true) := [], B(false) := []])

  const DisabledAxis: Axis<Key, Value> := Axis(KIsDisabled, map[B(true) := DisabledTokens, B(false) := []])

  const Axes: seq<Axis<Key, Value>> := [VariantAxis, ColorAxis, SizeAxis, SelectedAxis, DisabledAxis]

  /** The 17 compound rules in declaration order: standard (2), filled unselected
      and selected (4 + 4), tonal unselected (4), tonal selected, outlined (2). */
  const Compounds: seq<Compound<Key, Value>> := [
    Compound([(KVariant, V(Standard)), (KSelected, B(false))], ["text-on-surface-variant"]),
    Compound([(KVariant, V(Standard)), (KSelected, B(true))], ["text-primary"]),
    Compound([(KVariant, V(Filled)), (KColor, C(Primary)), (KSelected, B(false))], ["bg-primary", "text-on-primary"]),
    Compound([(KVariant, V(Filled)), (KColor, C(Secondary)), (KSelected, B(false))], ["bg-secondary", "text-on-secondary"]),
    Compound([(KVariant, V(Filled)), (KColor, C(Tertiary)), (KSelected, B(false))], ["bg-tertiary", "text-on-tertiary"]),
    Compound([(KVariant, V(Filled)), (KColor, C(Error)), (KSelected, B(false))], ["bg-error", "text-on-error"]),
    Compound([(KVariant, V(Filled)), (KColor, C(Primary)), (KSelected, B(true))], ["bg-primary-container", "text-on-primary-container"]),
    Compound([(KVariant, V(Filled)), (KColor, C(Secondary)), (KSelected, B(true))], ["bg-secondary-container", "text-on-secondary-container"]),
    Compound([(KVariant, V(Filled)), (KColor, C(Tertiary)), (KSelected, B(true))], ["bg-tertiary-container", "text-on-tertiary-container"]),
    Compound([(KVariant, V(Filled)), (KColor, C(Error)), (KSelected, B(true))], ["bg-error-container", "text-on-error-container"]),
    Compound([(KVariant, V(Tonal)), (KColor, C(Primary)), (KSelected, B(false))], ["bg-secondary-container", "text-on-secondary-container"]),
    Compound([(KVariant, V(Tonal)), (KColor, C(Secondary)), (KSelected, B(false))], ["bg-secondary-container", "text-on-secondary-container"]),
    Compound([(KVariant, V(Tonal)), (KColor, C(Tertiary)), (KSelected, B(false))], ["bg-tertiary-container", "text-on-tertiary-container"]),
    Compound([(KVariant, V(Tonal)), (KColor, C(Error)), (KSelected, B(false))], ["bg-error-container", "text-on-error-container"]),
    Compound([(KVariant, V(Tonal)), (KSelected, B(true))], ["bg-tertiary-container", "text-on-tertiary-container"]),
    Compound([(KVariant, V(Outlined)), (KSelected, B(false))], ["text-on-surface-variant"]),
    Compound([(KVariant, V(Outlined)), (KSelected, B(true))], ["bg-inverse-surface", "text-inverse-on-surface", "border-transparent"])
  ]

  const Defaults: map<Key, Value> := map[
    KVariant := V(Standard), KColor := C(Primary), KSize := S(Medium),
    KSelected := B(false), KIsDisabled := B(false)]

  /** The whole `iconButtonVariants` table. */
  function Rules(): Table<Key, Value>
  {
    Table(Base, Axes, Compounds, Defaults)
  }

  /** The props a caller may pass; `None` is an undefined prop. */
  datatype Props = Props(
    variant: Option<Variant>, color: Option<Color>, size: Option<Size>,
    selected: Option<bool>, isDisabled: Option<bool>)

  /** A fully settled configuration. */
  datatype Config = Config(variant: Variant, color: Color, size: Size, selected: bool, isDisabled: bool)

  const AllKeys: set<Key> := {KVariant, KColor, KSize, KSelected, KIsDisabled}

  /** The value the caller gave for axis `k`, if any. */
  function Given(p: Props, k: Key): Option<Value>
  {
    match k
    case KVariant => if p.variant.Some? then Some(V(p.variant.value)) else None
    case KColor => if p.color.Some? then Some(C(p.color.value)) else None
    case KSize => if p.size.Some? then Some(S(p.size.value)) else None
    case KSelected => if p.selected.Some? then Some(B(p.selected.value)) else None
    case KIsDisabled => if p.isDisabled.Some? then Some(B(p.isDisabled.value)) else None
  }

  /** The props object handed to the resolver: only the defined props. */
  function PropsMap(p: Props): map<Key, Value>
  {
    map k | k in AllKeys && Given(p, k).Some? :: Given(p, k).value
  }

  function ConfigMap(c: Config): map<Key, Value>
  {
    map[KVariant := V(c.variant), KColor := C(c.color), KSize := S(c.size),
        KSelected := B(c.selected), KIsDisabled := B(c.isDisabled)]
  }

  /** `iconButtonVariants(p)`, as a token sequence. */
  function Classes(p: Props): seq<Token>
  {
    Resolve(Rules(), PropsMap(p))
  }

  /** The configuration `p` stands for once undefined props take their defaults. */
  function Settle(p: Props): Config
  {
    Config(p.variant.GetOr(Standard), p.color.GetOr(Primary), p.size.GetOr(Medium),
           p.selected.GetOr(false), p.isDisabled.GetOr(false))
  }

  lemma SettledAt(p: Props, k: Key)
    ensures k in Defaults + PropsMap(p)
    ensures (Defaults + PropsMap(p))[k] == ConfigMap(Settle(p))[k]
  {
  }

  /** Undefined props resolve to standard / primary / medium / unselected /
      enabled before any rule is matched. */
  lemma OmittedTakeDefaults(p: Props)
    ensures Settled(Rules(), PropsMap(p)) == ConfigMap(Settle(p))
  {
    var m, cm := Defaults + PropsMap(p), ConfigMap(Settle(p));
    assert Rules().defaults == Defaults;
    forall k | true
      ensures k in m && k in cm && m[k] == cm[k]
    {
      SettledAt(p, k);
    }
    assert m.Keys == cm.Keys;
  }

  function ColorIndex(c: Color): nat
  {
    match c
    case Primary => 0 case Secondary => 1 case Tertiary => 2 case Error => 3
  }

  function ColorAt(k: int): Color
  {
    if k == 0 then Primary else if k == 1 then Secondary else if k == 2 then Tertiary else Error
  }

  /** The position of the rule written for a variant, colour and selection. */
  function RuleIndex(v: Variant, c: Color, selected: bool): nat
  {
    match v
    case Standard => if selected then 1 else 0
    case Filled => (if selected then 6 else 2) + ColorIndex(c)
    case Tonal => if selected then 14 else 10 + ColorIndex(c)
    case Outlined => if selected then 16 else 15
  }

  /** The variant rule `i` lists. */
  function RuleVariant(i: nat): Variant
  {
    if i < 2 then Standard else if i < 10 then Filled else if i < 15 then Tonal else Outlined
  }

  /** The colour rule `i` lists, if it lists one. */
  function RuleColor(i: nat): Option<Color>
  {
    if 2 <= i < 6 then Some(ColorAt(i - 2))
    else if 6 <= i < 10 then Some(ColorAt(i - 6))
    else if 10 <= i < 14 then Some(ColorAt(i - 10))
    else None
  }

  /** The selection rule `i` lists. */
  function RuleSelected(i: nat): bool
  {
    i == 1 || 6 <= i < 10 || i == 14 || i == 16
  }

  /** The condition list of a rule: its variant, its colour if it names one, its selection. */
  function CondsFor(v: Variant, c: Option<Color>, selected: bool): seq<(Key, Value)>
  {
    if c.Some? then [(KVariant, V(v)), (KColor, C(c.value)), (KSelected, B(selected))]
    else [(KVariant, V(v)), (KSelected, B(selected))]
  }

  /** Every rule lists a variant, possibly a colour, and a selection. */
  lemma RuleConds(i: nat)
    requires i < |Compounds|
    ensures Compounds[i].conds == CondsFor(RuleVariant(i), RuleColor(i), RuleSelected(i))
  {
  }

  /** A rule applies iff the configuration has its variant, its colour when it
      names one, and its selection. */
  lemma CondsMatch(v: Variant, oc: Option<Color>, selected: bool, c: Config)
    ensures Matches(CondsFor(v, oc, selected), ConfigMap(c))
        <==> c.variant == v && (oc.Some? ==> c.color == oc.value) && c.selected == selected
  {
    MatchesUpTo3(CondsFor(v, oc, selected), ConfigMap(c));
  }

  /** Rule `i` applies to a configuration iff it is the rule written for that
      configuration's variant, colour and selection. */
  lemma RuleApplies(c: Config, i: nat)
    requires i < |Compounds|
    ensures Matches(Compounds[i].conds, ConfigMap(c)) <==> i == RuleIndex(c.variant, c.color, c.selected)
  {
    RuleConds(i);
    CondsMatch(RuleVariant(i), RuleColor(i), RuleSelected(i), c);
  }

  /** For every variant, colour and selection exactly one compound rule applies. */
  lemma ExactlyOneRule(c: Config)
    ensures MatchCount(Compounds, ConfigMap(c)) == 1
  {
    var f := ConfigMap(c);
    forall i | 0 <= i < |Compounds|
      ensures Matches(Compounds[i].conds, f) <==> i == RuleIndex(c.variant, c.color, c.selected)
    {
      RuleApplies(c, i);
    }
    CountOne(Compounds, f, RuleIndex(c.variant, c.color, c.selected));
  }

  /** The colour classes each variant is meant to take, written from the Material
      Design 3 roles: standard and outlined draw the icon in on-surface-variant,
      or in primary (standard) or inverse colours (outlined) when selected;
      filled uses the colour and its on-colour, or their containers when
      selected; tonal uses the colour's container (the secondary container for
      primary), or the tertiary container whatever the colour when selected. */
  function Palette(v: Variant, c: Color, selected: bool): seq<Token>
  {
    var n := ColorName(c);
    match v
    case Standard => if selected then ["text-primary"] else ["text-on-surface-variant"]
    case Filled =>
      if selected then ["bg-" + n + "-container", "text-on-" + n + "-container"] else ["bg-" + n, "text-on-" + n]
    case Tonal =>
      var m := if selected then "tertiary" else if c == Primary then "secondary" else n;
      ["bg-" + m + "-container", "text-on-" + m + "-container"]
    case Outlined =>
      if selected then ["bg-inverse-surface", "text-inverse-on-surface", "border-transparent"]
      else ["text-on-surface-variant"]
  }

  lemma FilledPalette(c: Color, selected: bool)
    ensures Compounds[RuleIndex(Filled, c, selected)].classes == Palette(Filled, c, selected)
  {
    Spellings();
    PrimaryContainerSpelling();
    SecondaryContainerSpelling();
    TertiaryContainerSpelling();
    ErrorContainerSpelling();
  }

  lemma TonalPalette(c: Color, selected: bool)
    ensures Compounds[RuleIndex(Tonal, c, selected)].classes == Palette(Tonal, c, selected)
  {
    SecondaryContainerSpelling();
    TertiaryContainerSpelling();
    ErrorContainerSpelling();
  }

  /** Every rule's classes are the palette of the configuration it is written for. */
  lemma PaletteRow(v: Variant, c: Color, selected: bool)
    ensures Compounds[RuleIndex(v, c, selected)].classes == Palette(v, c, selected)
  {
    match v
    case Standard =>
    case Filled => FilledPalette(c, selected);
    case Tonal => TonalPalette(c, selected);
    case Outlined =>
  }

  /** The compound part of every output is the palette of its configuration. */
  lemma CompoundPart(c: Config)
    ensures Concat(CompoundFragments(Compounds, ConfigMap(c))) == Palette(c.variant, c.color, c.selected)
  {
    forall i | 0 <= i < |Compounds|
      ensures Matches(Compounds[i].conds, ConfigMap(c)) <==> i == RuleIndex(c.variant, c.color, c.selected)
    {
      RuleApplies(c, i);
    }
    OnlyCompound(Compounds, ConfigMap(c), RuleIndex(c.variant, c.color, c.selected));
    PaletteRow(c.variant, c.color, c.selected);
  }

  /** The classes each axis contributes to configuration `c`, in axis order. */
  function AxisRowsOf(c: Config): seq<seq<Token>>
  {
    [OptionClasses(VariantAxis, V(c.variant)), [], OptionClasses(SizeAxis, S(c.size)), [],
     FlagRow(c.isDisabled, DisabledTokens)]
  }

  lemma RowOfVariant(c: Config)
    ensures AxisFragments(Axes, ConfigMap(c))[0] == AxisRowsOf(c)[0]
  {
    var f := ConfigMap(c);
    assert AxisFragments(Axes, f)[0] == AxisClasses(Axes[0], f);
    assert AxisClasses(VariantAxis, f) == OptionClasses(VariantAxis, V(c.variant));
  }

  /** The colour axis contributes nothing of its own. */
  lemma RowOfColor(c: Config)
    ensures AxisFragments(Axes, ConfigMap(c))[1] == AxisRowsOf(c)[1]
  {
    var f := ConfigMap(c);
    assert AxisFragments(Axes, f)[1] == AxisClasses(Axes[1], f);
    assert AxisClasses(ColorAxis, f) == [];
  }

  lemma RowOfSize(c: Config)
    ensures AxisFragments(Axes, ConfigMap(c))[2] == AxisRowsOf(c)[2]
  {
    var f := ConfigMap(c);
    assert AxisFragments(Axes, f)[2] == AxisClasses(Axes[2], f);
    assert AxisClasses(SizeAxis, f) == OptionClasses(SizeAxis, S(c.size));
  }

  /** The selected axis contributes nothing of its own. */
  lemma RowOfSelected(c: Config)
    ensures AxisFragments(Axes, ConfigMap(c))[3] == AxisRowsOf(c)[3]
  {
    var f := ConfigMap(c);
    assert AxisFragments(Axes, f)[3] == AxisClasses(Axes[3], f);
    assert AxisClasses(SelectedAxis, f) == [];
  }

  lemma RowOfDisabled(c: Config)
    ensures AxisFragments(Axes, ConfigMap(c))[4] == AxisRowsOf(c)[4]
  {
    var f := ConfigMap(c);
    assert AxisFragments(Axes, f)[4] == AxisClasses(Axes[4], f);
    assert OptionClasses(DisabledAxis, B(c.isDisabled)) == FlagRow(c.isDisabled, DisabledTokens);
    assert AxisClasses(DisabledAxis, f) == OptionClasses(DisabledAxis, B(c.isDisabled));
  }

  /** The axis part of the output, axis by axis in declaration order. */
  lemma AxisRows(c: Config)
    ensures AxisFragments(Rules().axes, ConfigMap(c)) == AxisRowsOf(c)
  {
    RowOfVariant(c);
    RowOfColor(c);
    RowOfSize(c);
    RowOfSelected(c);
    RowOfDisabled(c);
  }

  /** The classes the axes contribute to configuration `c`: the variant's, the
      size's, then the disabled classes iff disabled; colour and selection add none. */
  function AxisPart(c: Config): seq<Token>
  {
    OptionClasses(VariantAxis, V(c.variant)) + OptionClasses(SizeAxis, S(c.size))
    + FlagRow(c.isDisabled, DisabledTokens)
  }

  /** What `iconButtonVariants` is meant to return for configuration `c`. */
  function ByAxis(c: Config): seq<Token>
  {
    Base + AxisPart(c) + Palette(c.variant, c.color, c.selected)
  }

  /** The resolver applied to the table yields the per-axis description. */
  lemma ClosedForm(p: Props)
    ensures Classes(p) == ByAxis(Settle(p))
  {
    var c := Settle(p);
    var f := ConfigMap(c);
    OmittedTakeDefaults(p);
    ResolveParts(Rules(), PropsMap(p));
    assert Classes(p) == Base + Concat(AxisFragments(Axes, f)) + Concat(CompoundFragments(Compounds, f));
    AxisRows(c);
    var rows := AxisRowsOf(c);
    Concat5(rows[0], rows[1], rows[2], rows[3], rows[4]);
    DropEmpties(rows[0], rows[2], rows[4]);
    CompoundPart(c);
  }

  /** A token of the output comes from the base, the axis part or the palette. */
  lemma InClasses(p: Props, t: Token)
    ensures var c := Settle(p);
      t in Classes(p)
      <==> || t in Base || t in OptionClasses(VariantAxis, V(c.variant)) || t in OptionClasses(SizeAxis, S(c.size))
           || t in FlagRow(c.isDisabled, DisabledTokens) || t in Palette(c.variant, c.color, c.selected)
  {
    ClosedForm(p);
  }

  /** The side length each size is drawn at. */
  function Height(s: Size): Token
  {
    match s
    case Small => "h-8" case Medium => "h-10" case Large => "h-12"
  }

  function Width(s: Size): Token
  {
    match s
    case Small => "w-8" case Medium => "w-10" case Large => "w-12"
  }

  /** No base class is a height or a width. */
  lemma BaseHasNoSizing(t: Token)
    requires IsHeight(t) || IsWidth(t)
    ensures t !in Base
  {
  }

  /** Every palette class is a background, text or border class. */
  lemma PaletteInitials(v: Variant, c: Color, selected: bool)
    ensures forall t | t in Palette(v, c, selected) :: |t| > 2 && (t[0] == 'b' || t[0] == 't')
  {
  }

  lemma PaletteHasNoSizing(v: Variant, c: Color, selected: bool, t: Token)
    requires IsHeight(t) || IsWidth(t)
    ensures t !in Palette(v, c, selected)
  {
    PaletteInitials(v, c, selected);
  }

  /** Only the size axis emits a height or a width token. */
  lemma SizingOnlyFromSize(c: Config, t: Token)
    requires IsHeight(t) || IsWidth(t)
    ensures t !in Base && t !in OptionClasses(VariantAxis, V(c.variant))
    ensures t !in DisabledTokens && t !in Palette(c.variant, c.color, c.selected)
  {
    BaseHasNoSizing(t);
    PaletteHasNoSizing(c.variant, c.color, c.selected, t);
  }

  lemma SizeRow(s: Size)
    ensures OptionClasses(SizeAxis, S(s)) == [Height(s), Width(s)]
  {
  }

  /** Every output holds exactly one height token, the size's. */
  lemma OneHeight(p: Props)
    ensures Height(Settle(p).size) in Classes(p)
    ensures forall t | t in Classes(p) && IsHeight(t) :: t == Height(Settle(p).size)
  {
    var c := Settle(p);
    SizeRow(c.size);
    InClasses(p, Height(c.size));
    forall t | t in Classes(p) && IsHeight(t)
      ensures t == Height(c.size)
    {
      InClasses(p, t);
      SizingOnlyFromSize(c, t);
    }
  }

  /** Every output holds exactly one width token, the size's, so that together
      with the height it is square. */
  lemma OneWidth(p: Props)
    ensures Width(Settle(p).size) in Classes(p)
    ensures forall t | t in Classes(p) && IsWidth(t) :: t == Width(Settle(p).size)
  {
    var c := Settle(p);
    SizeRow(c.size);
    InClasses(p, Width(c.size));
    forall t | t in Classes(p) && IsWidth(t)
      ensures t == Width(c.size)
    {
      InClasses(p, t);
      SizingOnlyFromSize(c, t);
    }
  }

  /** No base class is a text colour class. */
  lemma BaseHasNoText(t: Token)
    requires |t| > 1 && t[0] == 't' && t[1] == 'e'
    ensures t !in Base
  {
  }

  /** No axis class is a text colour class. */
  lemma AxisPartInitials(c: Config)
    ensures forall t | t in AxisPart(c) :: |t| > 0 && t[0] != 't'
  {
    SizeRow(c.size);
  }

  /** Neither icon colour of a standard button is a base class. */
  lemma IconColoursNotInBase()
    ensures "text-primary" !in Base && "text-on-surface-variant" !in Base
  {
    BaseHasNoText("text-primary");
    BaseHasNoText("text-on-surface-variant");
  }

  /** Neither icon colour of a standard button is an axis class. */
  lemma IconColoursNotOnAxes(c: Config)
    ensures "text-primary" !in AxisPart(c) && "text-on-surface-variant" !in AxisPart(c)
  {
    AxisPartInitials(c);
  }

  /** Standard takes a transparent background from the variant axis and draws
      the icon in on-surface-variant, or in primary when selected. */
  lemma StandardForm(p: Props)
    requires Settle(p).variant == Standard
    ensures var c := Settle(p);
      Classes(p) == Base + ["bg-transparent"]
        + OptionClasses(SizeAxis, S(c.size)) + FlagRow(c.isDisabled, DisabledTokens)
        + (if c.selected then ["text-primary"] else ["text-on-surface-variant"])
  {
    var c := Settle(p);
    ClosedForm(p);
    assert OptionClasses(VariantAxis, V(Standard)) == ["bg-transparent"];
    Unbracket(Base, ["bg-transparent"], OptionClasses(SizeAxis, S(c.size)), FlagRow(c.isDisabled, DisabledTokens),
      Palette(Standard, c.color, c.selected));
  }

  /** Standard shows `text-primary` exactly when selected and
      `text-on-surface-variant` exactly when not, whatever the colour. */
  lemma StandardColours(p: Props)
    requires Settle(p).variant == Standard
    ensures "text-primary" in Classes(p) <==> Settle(p).selected
    ensures "text-on-surface-variant" in Classes(p) <==> !Settle(p).selected
  {
    var c := Settle(p);
    var last: Token := if c.selected then "text-primary" else "text-on-surface-variant";
    ClosedForm(p);
    assert Palette(c.variant, c.color, c.selected) == [last];
    IconColoursNotInBase();
    IconColoursNotOnAxes(c);
    InLast(Base, AxisPart(c), "text-primary", last);
    InLast(Base, AxisPart(c), "text-on-surface-variant", last);
  }

  /** Filled uses the colour and its on-colour, or their containers when selected. */
  lemma FilledColours(p: Props)
    requires Settle(p).variant == Filled
    ensures var n := ColorName(Settle(p).color);
      if Settle(p).selected
      then "bg-" + n + "-container" in Classes(p) && "text-on-" + n + "-container" in Classes(p)
      else "bg-" + n in Classes(p) && "text-on-" + n in Classes(p)
  {
    ClosedForm(p);
  }

  /** Tonal selected uses the tertiary container whatever the colour. */
  lemma TonalSelectedIsTertiary(p: Props)
    requires Settle(p).variant == Tonal && Settle(p).selected
    ensures "bg-tertiary-container" in Classes(p) && "text-on-tertiary-container" in Classes(p)
  {
    TertiaryContainerSpelling();
    ClosedForm(p);
  }

  /** Tonal unselected follows the colour, except that primary takes the
      secondary container. */
  lemma TonalUnselectedColours(p: Props)
    requires Settle(p).variant == Tonal && !Settle(p).selected
    ensures var m := if Settle(p).color == Primary then "secondary" else ColorName(Settle(p).color);
      "bg-" + m + "-container" in Classes(p) && "text-on-" + m + "-container" in Classes(p)
  {
    ClosedForm(p);
  }

  /** Standard, outlined and selected tonal buttons look the same in every colour. */
  lemma ColorIgnored(p: Props, c1: Color, c2: Color)
    requires var c := Settle(p); c.variant == Standard || c.variant == Outlined || (c.variant == Tonal && c.selected)
    ensures Classes(p.(color := Some(c1))) == Classes(p.(color := Some(c2)))
  {
    var p1, p2 := p.(color := Some(c1)), p.(color := Some(c2));
    ClosedForm(p1);
    ClosedForm(p2);
    assert AxisPart(Settle(p1)) == AxisPart(Settle(p2));
    assert Palette(Settle(p1).variant, c1, Settle(p1).selected) == Palette(Settle(p2).variant, c2, Settle(p2).selected);
  }

  /** Tonal primary unselected is drawn exactly like tonal secondary unselected. */
  lemma TonalPrimaryLooksSecondary(p: Props)
    requires Settle(p).variant == Tonal && !Settle(p).selected
    ensures Classes(p.(color := Some(Primary))) == Classes(p.(color := Some(Secondary)))
  {
    var p1, p2 := p.(color := Some(Primary)), p.(color := Some(Secondary));
    ClosedForm(p1);
    ClosedForm(p2);
    assert Palette(Tonal, Primary, false) == Palette(Tonal, Secondary, false);
    assert AxisPart(Settle(p1)) == AxisPart(Settle(p2));
  }

  /** Outlined takes its transparent background and outline border from the
      variant axis; when selected, the inverse colours and a transparent border
      come last, after the outline border they override. */
  lemma OutlinedForm(p: Props)
    requires Settle(p).variant == Outlined
    ensures var c := Settle(p);
      Classes(p) == Base + ["bg-transparent", "border", "border-outline"]
        + OptionClasses(SizeAxis, S(c.size)) + FlagRow(c.isDisabled, DisabledTokens)
        + (if c.selected then ["bg-inverse-surface", "text-inverse-on-surface", "border-transparent"]
           else ["text-on-surface-variant"])
  {
    var c := Settle(p);
    ClosedForm(p);
    assert OptionClasses(VariantAxis, V(Outlined)) == ["bg-transparent", "border", "border-outline"];
    Unbracket(Base, ["bg-transparent", "border", "border-outline"], OptionClasses(SizeAxis, S(c.size)),
      FlagRow(c.isDisabled, DisabledTokens), Palette(Outlined, c.color, c.selected));
  }

  /** On configurations, switching isDisabled on inserts the disabled classes and nothing else. */
  lemma DisabledRow(c: Config)
    requires !c.isDisabled
    ensures exists pre, post :: ByAxis(c) == pre + post && ByAxis(c.(isDisabled := true)) == pre + DisabledTokens + post
  {
    var a := OptionClasses(VariantAxis, V(c.variant)) + OptionClasses(SizeAxis, S(c.size));
    SpliceEnd(Base, a, DisabledTokens, Palette(c.variant, c.color, c.selected));
    assert ByAxis(c) == Base + (a + []) + Palette(c.variant, c.color, c.selected);
  }

  /** isDisabled adds exactly the disabled classes, at the same place in every output. */
  lemma DisabledAddsOnlyDisabledTokens(p: Props)
    ensures exists pre, post ::
      && Classes(p.(isDisabled := Some(false))) == pre + post
      && Classes(p.(isDisabled := Some(true))) == pre + DisabledTokens + post
  {
    var p0, p1 := p.(isDisabled := Some(false)), p.(isDisabled := Some(true));
    var c := Settle(p0);
    assert Settle(p1) == c.(isDisabled := true);
    ClosedForm(p0);
    ClosedForm(p1);
    DisabledRow(c);
    var pre, post :| ByAxis(c) == pre + post && ByAxis(c.(isDisabled := true)) == pre + DisabledTokens + post;
    assert Classes(p0) == pre + post;
  }

  /** The selected outlined colours: an inverse container, inverse content
      and a transparent border. */
  const SelectedOutlined: seq<Token> := ["bg-inverse-surface", "text-inverse-on-surface", "border-transparent"]

  lemma SelectedOutlinedKinds()
    ensures IsBackground(SelectedOutlined[0]) && IsTextColour(SelectedOutlined[1]) && IsBorderColour(SelectedOutlined[2])
  {
    InverseBackground();
    InverseText();
    TransparentBorder();
  }

  lemma InverseBackground()
    ensures IsBackground(SelectedOutlined[0])
  {
    var t := SelectedOutlined[0];
    assert t[..3] == "bg-";
  }

  lemma InverseText()
    ensures IsTextColour(SelectedOutlined[1])
  {
    var t := SelectedOutlined[1];
    assert t[..5] == "text-" && t[5] == 'i';
    forall j | 0 <= j < |FontSizes| ensures FontSizes[j] == [] || FontSizes[j][0] != 'i' {}
    forall j | 0 <= j < |TextKeywords| ensures TextKeywords[j] == [] || TextKeywords[j][0] != 'i' {}
  }

  lemma TransparentBorder()
    ensures IsBorderColour(SelectedOutlined[2])
  {
    var t := SelectedOutlined[2];
    assert t[..7] == "border-" && t[7..] == "transparent";
    forall j | 0 <= j < |BorderKeywords| ensures BorderKeywords[j] != "transparent" {}
  }

  /** The outlined axis's outline colours. */
  lemma OutlineKinds()
    ensures IsBackground(VariantAxis.options[V(Outlined)][0]) && IsBorderColour(VariantAxis.options[V(Outlined)][2])
  {
    var t := VariantAxis.options[V(Outlined)][2];
    assert t[..7] == "border-" && t[7..] == "outline";
    forall j | 0 <= j < |BorderKeywords| ensures BorderKeywords[j] == [] || BorderKeywords[j][0] != 'o' {}
    assert VariantAxis.options[V(Outlined)][0][..3] == "bg-";
  }

  /** Where the outline colours and the selected colours stand. */
  lemma SelectedOutlinedLayout(c: Config)
    requires c.variant == Outlined && c.selected
    ensures var o, s := VariantAxis.options[V(Outlined)], SelectedOutlined;
      && ByAxis(c) == (Base + AxisPart(c)) + s && s == [s[0], s[1], s[2]]
      && o[0] in Base + AxisPart(c) && o[2] in Base + AxisPart(c) && o[0] !in s && o[2] !in s
  {
  }

  /** A selected outlined icon button: the inverse container and the
      transparent border come after the outlined axis's transparent
      background and outline border and override them, and all three
      selected colours survive the merge. */
  lemma SelectedOutlinedOverrides(p: Props)
    requires Settle(p).variant == Outlined && Settle(p).selected
    ensures var o := VariantAxis.options[V(Outlined)];
      && o[0] in Classes(p) && o[0] !in Merge(Classes(p), KeyOf)
      && o[2] in Classes(p) && o[2] !in Merge(Classes(p), KeyOf)
    ensures forall t | t in SelectedOutlined :: t in Merge(Classes(p), KeyOf)
  {
    var c := Settle(p);
    var o := VariantAxis.options[V(Outlined)];
    var a := Base + AxisPart(c);
    var s := SelectedOutlined;
    ClosedForm(p);
    SelectedOutlinedLayout(c);
    SelectedOutlinedKinds();
    OutlineKinds();
    BackgroundOverridden(a, s, o[0], s[0]);
    BorderColourOverridden(a, s, o[2], s[2]);
    ColoursAtEndSurvive(a, s[0], s[1], s[2]);
  }
}
