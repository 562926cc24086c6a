/** The FAB component's prop handling: defaults, the combined disabled state,
    ripple gating, the chained mouse-down handler, the order of class sources,
    the loading spinner, the text label and the development warnings. */
module Fab {
  import opened Wrappers
  import opened ClassNames
  import IW = IconWrappers
  import FV = FabVariants
  import R = Ripples

  /** The props the component reads. `icon` and `children` are modelled by
      whether they are truthy, `onMouseDown` by whether the caller passed one. */
  datatype Props = Props(
    size: Option<FV.Size>, color: Option<FV.Color>,
    icon: bool, children: bool,
    loading: Option<bool>, disableRipple: Option<bool>,
    className: Option<string>, isDisabled: Option<bool>,
    onMouseDown: bool, title: Option<string>)

  datatype Warning = MissingIcon | MissingLabel | UnusedLabel

  datatype Handler = UserMouseDown | RippleMouseDown

  /** A loading FAB is disabled as well. */
  function IsDisabled(p: Props): (r: bool)
    ensures r <==> p.isDisabled == Some(true) || p.loading == Some(true)
  {
    p.isDisabled.GetOr(false) || p.loading.GetOr(false)
  }

  function RippleOptions(p: Props): R.Options
  {
    R.Options(Some(IsDisabled(p) || p.disableRipple.GetOr(false)), None, None)
  }

  /** The ripple is off exactly when the FAB is disabled, loading, or the
      caller turned it off. */
  lemma RippleGate(p: Props)
    ensures R.Settle(RippleOptions(p)).disabled
        <==> p.isDisabled == Some(true) || p.loading == Some(true) || p.disableRipple == Some(true)
    ensures R.Settle(RippleOptions(p)).color == R.DefaultColor
    ensures R.Settle(RippleOptions(p)).duration == R.DefaultDuration
  {
  }

  function Size(p: Props): FV.Size
  {
    p.size.GetOr(FV.Medium)
  }

  /** The configuration handed to the variant table. */
  function VariantProps(p: Props): FV.Props
  {
    FV.Props(Some(Size(p)), Some(p.color.GetOr(FV.Primary)), Some(IsDisabled(p)))
  }

  /** The component's defaults are the table's. */
  lemma DefaultsAgreeWithTable(p: Props)
    ensures FV.Settle(VariantProps(p)) == FV.Settle(FV.Props(p.size, p.color, Some(IsDisabled(p))))
    ensures FV.Settle(VariantProps(p)).isDisabled == IsDisabled(p)
  {
  }

  /** The component's own class strings, passed to cn before the variant classes. */
  const BaseStrings: seq<string> := [
    "relative inline-flex items-center justify-center",
    "overflow-hidden transition-all duration-200",
    "focus-visible:outline-primary focus-visible:outline-2 focus-visible:outline-offset-2",
    "shrink-0",
    "before:absolute before:inset-0 before:rounded-[inherit] before:transition-opacity before:duration-200",
    "before:bg-current before:opacity-0",
    "hover:before:opacity-8",
    "focus-visible:before:opacity-12",
    "active:before:opacity-12",
    "shadow-elevation-3 hover:shadow-elevation-4"]

  /** The cn arguments before the caller's class name. */
  function OwnInputs(p: Props): seq<ClassValue>
  {
    seq(|BaseStrings|, i requires 0 <= i < |BaseStrings| => Str(BaseStrings[i]))
      + [Str(Join(FV.Classes(VariantProps(p))))]
  }

  function ClassInputs(p: Props): seq<ClassValue>
  {
    OwnInputs(p) + [UserClass(p.className)]
  }

  function ClassName(p: Props): string
  {
    Cn(ClassInputs(p))
  }

  /** The caller's classes come last and win every conflict with the base and
      variant classes. */
  lemma UserClassesWin(p: Props)
    ensures var user := Tokens([UserClass(p.className)]);
      exists pre ::
        && Split(ClassName(p)) == pre + Merge(user, KeyOf)
        && forall t | t in pre :: t in Tokens(OwnInputs(p)) && KeyOf(t) !in KeysOf(user, KeyOf)
  {
    LastArgumentWins(OwnInputs(p), UserClass(p.className), KeyOf);
  }

  /** The cn arguments of the icon wrapper, when an icon is given. */
  function IconWrapper(p: Props): (r: Option<seq<ClassValue>>)
    ensures r.Some? <==> p.icon
    ensures r.Some? ==> r.value == IW.Inputs(p.loading == Some(true))
  {
    if !p.icon then None else Some(IW.Inputs(p.loading.GetOr(false)))
  }

  /** A present icon's wrapper has exactly the base wrapper classes, followed
      by `invisible` while loading, and its class name holds `invisible`
      exactly while loading. */
  lemma IconHiddenIffLoading(p: Props)
    requires p.icon
    ensures Flatten(IconWrapper(p).value)
         == if p.loading == Some(true) then [Join(IW.BaseTokens), "invisible"] else [Join(IW.BaseTokens)]
    ensures "invisible" in Split(Cn(IconWrapper(p).value)) <==> p.loading == Some(true)
  {
    IW.HiddenIffLoading(p.loading == Some(true));
  }

  /** The spinner is shown exactly while loading. */
  function HasSpinner(p: Props): (r: bool)
    ensures r <==> p.loading == Some(true)
  {
    p.loading.GetOr(false)
  }

  /** The text label is rendered only for the extended size, and only when
      children are given. */
  function HasLabel(p: Props): (r: bool)
    ensures r <==> (p.size == Some(FV.Extended) && p.children)
  {
    Size(p) == FV.Extended && p.children
  }

  /** The title attribute is passed on only when it is a non-empty string. */
  function TitleAttribute(p: Props): (r: Option<string>)
    ensures r.Some? <==> p.title.Some? && p.title.value != ""
    ensures r.Some? ==> r == p.title
  {
    if p.title.Some? && p.title.value != "" then p.title else None
  }

  /** The development warnings: no icon, an extended FAB without a label, and
      a label on a FAB that is not extended. */
  function Warnings(p: Props, development: bool): (r: seq<Warning>)
    ensures MissingIcon in r <==> development && !p.icon
    ensures MissingLabel in r <==> development && Size(p) == FV.Extended && !p.children
    ensures UnusedLabel in r <==> development && Size(p) != FV.Extended && p.children
    ensures !development ==> r == []
  {
    if !development then []
    else
      var noIcon := if !p.icon then [MissingIcon] else [];
      var noLabel := if Size(p) == FV.Extended && !p.children then [MissingLabel] else [];
      var unused := if Size(p) != FV.Extended && p.children then [UnusedLabel] else [];
      noIcon + noLabel + unused
  }

  /** Children are rendered exactly when no warning about them is due. */
  lemma LabelWarningsComplement(p: Props)
    requires p.children
    ensures HasLabel(p) <==> UnusedLabel !in Warnings(p, true)
  {
  }

  /** While loading, the FAB is disabled, shows the spinner, hides its icon,
      asks the table for its disabled classes, and has no ripple. */
  lemma LoadingIsInert(p: Props)
    requires p.loading == Some(true)
    ensures IsDisabled(p) && HasSpinner(p)
    ensures FV.Settle(VariantProps(p)).isDisabled
    ensures R.Settle(RippleOptions(p)).disabled
    ensures p.icon ==> Str("invisible") in IconWrapper(p).value
  {
  }

  /** The handlers the merged `onMouseDown` runs, in order. */
  function MouseDownHandlers(p: Props): (r: seq<Handler>)
    ensures UserMouseDown in r <==> p.onMouseDown
    ensures |r| > 0 && r[|r| - 1] == RippleMouseDown
    ensures p.onMouseDown ==> r[0] == UserMouseDown
  {
    (if p.onMouseDown then [UserMouseDown] else []) + [RippleMouseDown]
  }
}
