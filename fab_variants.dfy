/** The `fabVariants` rule table of the floating action button. */
module FabVariants {
  import opened Wrappers
  import opened Sequences
  import opened ClassNames
  import opened Variants
  import ColorRoles

  datatype Size = Small | Medium | Large | Extended
  datatype Color = Primary | Secondary | Tertiary | Surface

  /** The axes, in the declaration order of the `variants` object. */
  datatype Key = KSize | KColor | KIsDisabled
  datatype Value = S(size: Size) | C(color: Color) | B(flag: bool)

  const Base: seq<Token> := [
    "relative", "inline-flex", "items-center", "justify-center",
    "overflow-hidden",
    "transition-all", "duration-200",
    "focus-visible:outline-primary", "focus-visible:outline-2", "focus-visible:outline-offset-2",
    "shrink-0",
    "before:absolute", "before:inset-0", "before:rounded-[inherit]", "before:transition-opacity", "before:duration-200",
    "before:bg-current", "before:opacity-0",
    "hover:before:opacity-8",
    "focus-visible:before:opacity-12",
    "active:before:opacity-12",
    "shadow-elevation-3",
    "hover:shadow-elevation-4"
  ]

  const DisabledTokens: seq<Token> := [
    "pointer-events-none", "cursor-not-allowed", "!bg-on-surface/12", "!text-on-surface/38", "!shadow-none"
  ]

  const SizeAxis: Axis<Key, Value> := Axis(KSize, map[
    S(Small) := ["h-10", "w-10", "p-2", "rounded-xl", "m-1"],
    S(Medium) := ["h-14", "w-14", "p-4", "rounded-2xl"],
    S(Large) := ["h-24", "w-24", "p-[30px]", "rounded-[28px]"],
    S(Extended) := ["h-14", "rounded-2xl", "pl-4", "pr-5", "gap-2"]])

  const ColorAxis: Axis<Key, Value> := Axis(KColor, map[
    C(Primary) := [], C(Secondary) := [], C(Tertiary) := [], C(Surface) := []])

  const DisabledAxis: Axis<Key, Value> := Axis(KIsDisabled, map[B(true) := DisabledTokens, B(false) := []])

  const Axes: seq<Axis<Key, Value>> := [SizeAxis, ColorAxis, DisabledAxis]

  /** The 16 colour × size rules, colour-major, sizes in declaration order. */
  const Compounds: seq<Compound<Key, Value>> := [
    Compound([(KColor, C(Primary)), (KSize, S(Small))], ["bg-primary-container", "text-on-primary-container"]),
    Compound([(KColor, C(Primary)), (KSize, S(Medium))], ["bg-primary-container", "text-on-primary-container"]),
    Compound([(KColor, C(Primary)), (KSize, S(Large))], ["bg-primary-container", "text-on-primary-container"]),
    Compound([(KColor, C(Primary)), (KSize, S(Extended))], ["bg-primary-container", "text-on-primary-container"]),
    Compound([(KColor, C(Secondary)), (KSize, S(Small))], ["bg-secondary-container", "text-on-secondary-container"]),
    Compound([(KColor, C(Secondary)), (KSize, S(Medium))], ["bg-secondary-container", "text-on-secondary-container"]),
    Compound([(KColor, C(Secondary)), (KSize, S(Large))], ["bg-secondary-container", "text-on-secondary-container"]),
    Compound([(KColor, C(Secondary)), (KSize, S(Extended))], ["bg-secondary-container", "text-on-secondary-container"]),
    Compound([(KColor, C(Tertiary)), (KSize, S(Small))], ["bg-tertiary-container", "text-on-tertiary-container"]),
    Compound([(KColor, C(Tertiary)), (KSize, S(Medium))], ["bg-tertiary-container", "text-on-tertiary-container"]),
    Compound([(KColor, C(Tertiary)), (KSize, S(Large))], ["bg-tertiary-container", "text-on-tertiary-container"]),
    Compound([(KColor, C(Tertiary)), (KSize, S(Extended))], ["bg-tertiary-container", "text-on-tertiary-container"]),
    Compound([(KColor, C(Surface)), (KSize, S(Small))], ["bg-surface", "text-primary"]),
    Compound([(KColor, C(Surface)), (KSize, S(Medium))], ["bg-surface", "text-primary"]),
    Compound([(KColor, C(Surface)), (KSize, S(Large))], ["bg-surface", "text-primary"]),
    Compound([(KColor, C(Surface)), (KSize, S(Extended))], ["bg-surface", "text-primary"])
  ]

  const Defaults: map<Key, Value> := map[KSize := S(Medium), KColor := C(Primary), KIsDisabled := B(false)]

  /** The whole `fabVariants` table. */
  function Rules(): Table<Key, Value>
  {
    Table(Base, Axes, Compounds, Defaults)
  }

  /** The props a caller may pass; `None` is an undefined prop. */
  datatype Props = Props(size: Option<Size>, color: Option<Color>, isDisabled: Option<bool>)

  /** A fully settled configuration. */
  datatype Config = Config(size: Size, color: Color, isDisabled: bool)

  const AllKeys: set<Key> := {KSize, KColor, KIsDisabled}

  /** The value the caller gave for axis `k`, if any. */
  function Given(p: Props, k: Key): Option<Value>
  {
    match k
    case KSize => if p.size.Some? then Some(S(p.size.value)) else None
    case KColor => if p.color.Some? then Some(C(p.color.value)) else None
    case KIsDisabled => if p.isDisabled.Some? then Some(B(p.isDisabled.value)) else None
  }

  /** The props object handed to the resolver: only the defined props. */
  function PropsMap(p: Props): map<Key, Value>
  {
    map k | k in AllKeys && Given(p, k).Some? :: Given(p, k).value
  }

  function ConfigMap(c: Config): map<Key, Value>
  {
    map[KSize := S(c.size), KColor := C(c.color), KIsDisabled := B(c.isDisabled)]
  }

  /** `fabVariants(p)`, as a token sequence. */
  function Classes(p: Props): seq<Token>
  {
    Resolve(Rules(), PropsMap(p))
  }

  /** The configuration `p` stands for once undefined props take their defaults. */
  function Settle(p: Props): Config
  {
    Config(p.size.GetOr(Medium), p.color.GetOr(Primary), p.isDisabled.GetOr(false))
  }

  lemma SettledAt(p: Props, k: Key)
    ensures k in Defaults + PropsMap(p)
    ensures (Defaults + PropsMap(p))[k] == ConfigMap(Settle(p))[k]
  {
  }

  /** Undefined props resolve to medium / primary / enabled before any rule is matched. */
  lemma OmittedTakeDefaults(p: Props)
    ensures Settled(Rules(), PropsMap(p)) == ConfigMap(Settle(p))
  {
    var m, cm := Defaults + PropsMap(p), ConfigMap(Settle(p));
    assert Rules().defaults == Defaults;
    forall k | true
      ensures k in m && k in cm && m[k] == cm[k]
    {
      SettledAt(p, k);
    }
    assert m.Keys == cm.Keys;
  }

  function ColorIndex(c: Color): nat
  {
    match c
    case Primary => 0 case Secondary => 1 case Tertiary => 2 case Surface => 3
  }

  function SizeIndex(s: Size): nat
  {
    match s
    case Small => 0 case Medium => 1 case Large => 2 case Extended => 3
  }

  /** The colour listed by rule `i` (the rules are grouped four per colour). */
  function RuleColor(i: nat): Color
  {
    if i < 4 then Primary else if i < 8 then Secondary else if i < 12 then Tertiary else Surface
  }

  /** The size listed by rule `i`. */
  function RuleSize(i: nat): Size
  {
    var k := i - 4 * ColorIndex(RuleColor(i));
    if k == 0 then Small else if k == 1 then Medium else if k == 2 then Large else Extended
  }

  function RuleIndex(c: Color, s: Size): nat
  {
    4 * ColorIndex(c) + SizeIndex(s)
  }

  /** Rule `i` lists exactly a colour and a size. */
  lemma RuleConds(i: nat)
    requires i < |Compounds|
    ensures Compounds[i].conds == [(KColor, C(RuleColor(i))), (KSize, S(RuleSize(i)))]
  {
  }

  /** Rule `i` applies to a configuration iff it is the rule listing that
      configuration's colour and size. */
  lemma RuleApplies(c: Config, i: nat)
    requires i < |Compounds|
    ensures Matches(Compounds[i].conds, ConfigMap(c)) <==> i == RuleIndex(c.color, c.size)
  {
    RuleConds(i);
    MatchesUpTo3(Compounds[i].conds, ConfigMap(c));
  }

  /** For every colour and size exactly one compound rule applies. */
  lemma ExactlyOneRule(c: Config)
    ensures MatchCount(Compounds, ConfigMap(c)) == 1
  {
    var f := ConfigMap(c);
    forall i | 0 <= i < |Compounds|
      ensures Matches(Compounds[i].conds, f) <==> i == RuleIndex(c.color, c.size)
    {
      RuleApplies(c, i);
    }
    CountOne(Compounds, f, RuleIndex(c.color, c.size));
  }

  /** The colour classes of each colour, written from the Material Design 3
      roles: a colour's container with its on-colour, and for surface the
      surface with primary text. The size plays no part. */
  function Palette(c: Color): seq<Token>
  {
    match c
    case Primary => ["bg-" + "primary" + "-container", "text-on-" + "primary" + "-container"]
    case Secondary => ["bg-" + "secondary" + "-container", "text-on-" + "secondary" + "-container"]
    case Tertiary => ["bg-" + "tertiary" + "-container", "text-on-" + "tertiary" + "-container"]
    case Surface => ["bg-surface", "text-primary"]
  }

  /** Every rule's classes are the palette of the colour it lists, whatever its size. */
  lemma PaletteRow(c: Color, s: Size)
    ensures Compounds[RuleIndex(c, s)].classes == Palette(c)
  {
    ColorRoles.PrimaryContainerSpelling();
    ColorRoles.SecondaryContainerSpelling();
    ColorRoles.TertiaryContainerSpelling();
  }

  /** The compound part of every output is the palette of its colour alone. */
  lemma CompoundPart(c: Config)
    ensures Concat(CompoundFragments(Compounds, ConfigMap(c))) == Palette(c.color)
  {
    forall i | 0 <= i < |Compounds|
      ensures Matches(Compounds[i].conds, ConfigMap(c)) <==> i == RuleIndex(c.color, c.size)
    {
      RuleApplies(c, i);
    }
    OnlyCompound(Compounds, ConfigMap(c), RuleIndex(c.color, c.size));
    PaletteRow(c.color, c.size);
  }

  /** The classes each axis contributes to configuration `c`, in axis order. */
  function AxisRowsOf(c: Config): seq<seq<Token>>
  {
    [OptionClasses(SizeAxis, S(c.size)), [], FlagRow(c.isDisabled, DisabledTokens)]
  }

  lemma RowOfSize(c: Config)
    ensures AxisFragments(Axes, ConfigMap(c))[0] == AxisRowsOf(c)[0]
  {
    var f := ConfigMap(c);
    assert AxisFragments(Axes, f)[0] == AxisClasses(Axes[0], f);
    assert AxisClasses(SizeAxis, f) == OptionClasses(SizeAxis, S(c.size));
  }

  /** The colour axis contributes nothing of its own. */
  lemma RowOfColor(c: Config)
    ensures AxisFragments(Axes, ConfigMap(c))[1] == AxisRowsOf(c)[1]
  {
    var f := ConfigMap(c);
    assert AxisFragments(Axes, f)[1] == AxisClasses(Axes[1], f);
    assert AxisClasses(ColorAxis, f) == [];
  }

  lemma RowOfDisabled(c: Config)
    ensures AxisFragments(Axes, ConfigMap(c))[2] == AxisRowsOf(c)[2]
  {
    var f := ConfigMap(c);
    assert AxisFragments(Axes, f)[2] == AxisClasses(Axes[2], f);
    assert OptionClasses(DisabledAxis, B(c.isDisabled)) == FlagRow(c.isDisabled, DisabledTokens);
    assert AxisClasses(DisabledAxis, f) == OptionClasses(DisabledAxis, B(c.isDisabled));
  }

  /** The axis part of the output, axis by axis in declaration order. */
  lemma AxisRows(c: Config)
    ensures AxisFragments(Rules().axes, ConfigMap(c)) == AxisRowsOf(c)
  {
    RowOfSize(c);
    RowOfColor(c);
    RowOfDisabled(c);
  }

  /** What `fabVariants` is meant to return for configuration `c`: the base
      classes, the size's classes, the disabled classes iff disabled, then the
      colour's palette. */
  function ByAxis(c: Config): seq<Token>
  {
    Base + OptionClasses(SizeAxis, S(c.size)) + FlagRow(c.isDisabled, DisabledTokens) + Palette(c.color)
  }

  /** The resolver applied to the table yields the per-axis description. */
  lemma ClosedForm(p: Props)
    ensures Classes(p) == ByAxis(Settle(p))
  {
    var c := Settle(p);
    var f := ConfigMap(c);
    OmittedTakeDefaults(p);
    ResolveParts(Rules(), PropsMap(p));
    assert Classes(p) == Base + Concat(AxisFragments(Axes, f)) + Concat(CompoundFragments(Compounds, f));
    AxisRows(c);
    var rows := AxisRowsOf(c);
    Concat3(rows[0], rows[1], rows[2]);
    CompoundPart(c);
    Unbracket2(Base, rows[0], rows[2], Palette(c.color));
  }

  /** A token of the output comes from the base, the size, the disabled classes or the palette. */
  lemma InClasses(p: Props, t: Token)
    ensures var c := Settle(p);
      t in Classes(p)
      <==> || t in Base || t in OptionClasses(SizeAxis, S(c.size))
           || t in FlagRow(c.isDisabled, DisabledTokens) || t in Palette(c.color)
  {
    ClosedForm(p);
  }

  /** The colour pairs spelled out: the container pairs, and surface with primary text. */
  lemma PaletteSpelled()
    ensures Palette(Primary) == ["bg-primary-container", "text-on-primary-container"]
    ensures Palette(Secondary) == ["bg-secondary-container", "text-on-secondary-container"]
    ensures Palette(Tertiary) == ["bg-tertiary-container", "text-on-tertiary-container"]
    ensures Palette(Surface) == ["bg-surface", "text-primary"]
  {
    ColorRoles.PrimaryContainerSpelling();
    ColorRoles.SecondaryContainerSpelling();
    ColorRoles.TertiaryContainerSpelling();
  }

  /** Every output ends with the colour pair of its colour, whatever the size
      and whether or not it is disabled. */
  lemma EndsWithColourPair(p: Props)
    ensures exists pre :: Classes(p) == pre + Palette(Settle(p).color)
  {
    var c := Settle(p);
    ClosedForm(p);
    var pre := Front(c);
    assert Classes(p) == pre + Palette(c.color);
  }

  /** The part of the output in front of the colour pair. */
  function Front(c: Config): seq<Token>
    ensures ByAxis(c) == Front(c) + Palette(c.color)
  {
    Base + OptionClasses(SizeAxis, S(c.size)) + FlagRow(c.isDisabled, DisabledTokens)
  }

  /** Every output starts with the base classes, so it always carries the
      resting and hover elevation shadows. */
  lemma AlwaysElevated(p: Props)
    ensures Base <= Classes(p)
    ensures "shadow-elevation-3" in Classes(p) && "hover:shadow-elevation-4" in Classes(p)
  {
    BaseFirst(Rules(), PropsMap(p));
    BaseElevation();
    InPrefix(Base, Classes(p), "shadow-elevation-3");
    InPrefix(Base, Classes(p), "hover:shadow-elevation-4");
  }

  lemma BaseElevation()
    ensures "shadow-elevation-3" in Base && "hover:shadow-elevation-4" in Base
  {
    assert Base[21] == "shadow-elevation-3" && Base[22] == "hover:shadow-elevation-4";
  }

  /** The height each size is drawn at. */
  function Height(s: Size): Token
  {
    match s
    case Small => "h-10" case Medium => "h-14" case Large => "h-24" case Extended => "h-14"
  }

  /** The width of each fixed-size FAB; the extended FAB has none. */
  function Width(s: Size): Option<Token>
  {
    match s
    case Small => Some("w-10") case Medium => Some("w-14") case Large => Some("w-24") case Extended => None
  }

  /** The corner radius of each size. */
  function Corner(s: Size): Token
  {
    match s
    case Small => "rounded-xl" case Medium => "rounded-2xl" case Large => "rounded-[28px]" case Extended => "rounded-2xl"
  }

  predicate IsCorner(t: Token)
  {
    |t| > 7 && t[0] == 'r' && t[1] == 'o'
  }

  /** No base class is a height, width or corner. */
  lemma BaseHasNoShape(t: Token)
    requires IsHeight(t) || IsWidth(t) || IsCorner(t)
    ensures t !in Base
  {
  }

  /** No disabled or palette class is a height, width or corner. */
  lemma ColoursHaveNoShape(c: Color, t: Token)
    requires IsHeight(t) || IsWidth(t) || IsCorner(t)
    ensures t !in DisabledTokens && t !in Palette(c)
  {
    PaletteSpelled();
  }

  /** Only the size axis shapes the button. */
  lemma ShapeOnlyFromSize(c: Config, t: Token)
    requires IsHeight(t) || IsWidth(t) || IsCorner(t)
    ensures t !in Base && t !in FlagRow(c.isDisabled, DisabledTokens) && t !in Palette(c.color)
  {
    BaseHasNoShape(t);
    ColoursHaveNoShape(c.color, t);
  }

  /** Each size's row holds its height, its width if it has one, and its corner,
      and no other height, width or corner. */
  lemma SizeRowShape(s: Size)
    ensures Height(s) in OptionClasses(SizeAxis, S(s)) && Corner(s) in OptionClasses(SizeAxis, S(s))
    ensures Width(s).Some? ==> Width(s).value in OptionClasses(SizeAxis, S(s))
    ensures forall t | t in OptionClasses(SizeAxis, S(s)) ::
      && (IsHeight(t) ==> t == Height(s))
      && (IsWidth(t) ==> Width(s) == Some(t))
      && (IsCorner(t) ==> t == Corner(s))
  {
  }

  /** Every output holds exactly one height token, the size's. */
  lemma OneHeight(p: Props)
    ensures Height(Settle(p).size) in Classes(p)
    ensures forall t | t in Classes(p) && IsHeight(t) :: t == Height(Settle(p).size)
  {
    var c := Settle(p);
    SizeRowShape(c.size);
    InClasses(p, Height(c.size));
    forall t | t in Classes(p) && IsHeight(t)
      ensures t == Height(c.size)
    {
      InClasses(p, t);
      ShapeOnlyFromSize(c, t);
    }
  }

  /** A fixed-size FAB holds exactly one width token, the size's; the extended
      FAB holds none and takes its width from its content. */
  lemma WidthOnlyWhenFixed(p: Props)
    ensures Width(Settle(p).size).Some? ==> Width(Settle(p).size).value in Classes(p)
    ensures forall t | t in Classes(p) && IsWidth(t) :: Width(Settle(p).size) == Some(t)
    ensures Settle(p).size == Extended ==> forall t | t in Classes(p) :: !IsWidth(t)
  {
    var c := Settle(p);
    SizeRowShape(c.size);
    if Width(c.size).Some? {
      InClasses(p, Width(c.size).value);
    }
    forall t | t in Classes(p) && IsWidth(t)
      ensures Width(c.size) == Some(t)
    {
      InClasses(p, t);
      ShapeOnlyFromSize(c, t);
    }
  }

  /** Every output holds exactly one corner token, the size's, so no FAB is
      fully rounded. */
  lemma OneCorner(p: Props)
    ensures Corner(Settle(p).size) in Classes(p)
    ensures forall t | t in Classes(p) && IsCorner(t) :: t == Corner(Settle(p).size)
    ensures "rounded-full" !in Classes(p)
  {
    var c := Settle(p);
    SizeRowShape(c.size);
    InClasses(p, Corner(c.size));
    forall t | t in Classes(p) && IsCorner(t)
      ensures t == Corner(c.size)
    {
      InClasses(p, t);
      ShapeOnlyFromSize(c, t);
    }
    NoSizeIsFullyRounded(c.size);
  }

  lemma NoSizeIsFullyRounded(s: Size)
    ensures IsCorner("rounded-full") && Corner(s) != "rounded-full"
  {
  }

  /** The extended FAB has the medium height, leading and trailing padding and
      a gap between icon and label. */
  lemma ExtendedLayout(p: Props)
    requires Settle(p).size == Extended
    ensures "h-14" in Classes(p) && "pl-4" in Classes(p) && "pr-5" in Classes(p) && "gap-2" in Classes(p)
  {
    ClosedForm(p);
  }

  /** On configurations, switching isDisabled on inserts the disabled classes and nothing else. */
  lemma DisabledRow(c: Config)
    requires !c.isDisabled
    ensures exists pre, post :: ByAxis(c) == pre + post && ByAxis(c.(isDisabled := true)) == pre + DisabledTokens + post
  {
    var pre := Base + OptionClasses(SizeAxis, S(c.size));
    assert ByAxis(c) == pre + Palette(c.color);
    assert ByAxis(c.(isDisabled := true)) == pre + DisabledTokens + Palette(c.color);
  }

  /** isDisabled adds exactly the disabled classes, at the same place in every output. */
  lemma DisabledAddsOnlyDisabledTokens(p: Props)
    ensures exists pre, post ::
      && Classes(p.(isDisabled := Some(false))) == pre + post
      && Classes(p.(isDisabled := Some(true))) == pre + DisabledTokens + post
  {
    var p0, p1 := p.(isDisabled := Some(false)), p.(isDisabled := Some(true));
    var c := Settle(p0);
    assert Settle(p1) == c.(isDisabled := true);
    ClosedForm(p0);
    ClosedForm(p1);
    DisabledRow(c);
    var pre, post :| ByAxis(c) == pre + post && ByAxis(c.(isDisabled := true)) == pre + DisabledTokens + post;
    assert Classes(p0) == pre + post;
  }
}
