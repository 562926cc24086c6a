/** The Button component's prop handling: defaults, the combined disabled
    state, ripple gating, the configuration handed to the variant table, the
    order of class sources, the loading spinner and the development warnings. */
module Button {
  import opened Wrappers
  import opened ClassNames
  import IW = IconWrappers
  import ColorRoles
  import BV = ButtonVariants
  import R = Ripples

  datatype ButtonType = PlainButton | Submit | Reset

  /** The props the component reads. A React node prop is modelled by whether
      it is truthy; `onMouseDown` by whether the caller passed one. */
  datatype Props = Props(
    variant: Option<BV.Variant>, color: Option<ColorRoles.Color>, size: Option<BV.Size>,
    fullWidth: Option<bool>,
    icon: bool, trailingIcon: bool, children: bool,
    loading: Option<bool>, disableRipple: Option<bool>, isDisabled: Option<bool>,
    className: Option<string>, tabIndex: Option<int>, buttonType: Option<ButtonType>,
    onMouseDown: bool)

  datatype Warning = MissingText | TwoIcons

  datatype Handler = UserMouseDown | RippleMouseDown

  /** A loading button is disabled as well. */
  function IsDisabled(p: Props): (r: bool)
    ensures r <==> p.isDisabled == Some(true) || p.loading == Some(true)
  {
    p.isDisabled.GetOr(false) || p.loading.GetOr(false)
  }

  /** The options handed to the ripple hook. */
  function RippleOptions(p: Props): R.Options
  {
    R.Options(Some(IsDisabled(p) || p.disableRipple.GetOr(false)), None, None)
  }

  /** The ripple is off exactly when the button is disabled or the caller
      turned it off; colour and duration keep the hook's defaults. */
  lemma RippleGate(p: Props)
    ensures R.Settle(RippleOptions(p)).disabled
        <==> p.isDisabled == Some(true) || p.loading == Some(true) || p.disableRipple == Some(true)
    ensures R.Settle(RippleOptions(p)).color == R.DefaultColor
    ensures R.Settle(RippleOptions(p)).duration == R.DefaultDuration
  {
  }

  /** The configuration handed to the variant table: the component's own
      defaults, with `disabled` the combined disabled state. */
  function VariantProps(p: Props): BV.Props
  {
    BV.Props(
      Some(p.variant.GetOr(BV.Filled)), Some(p.color.GetOr(ColorRoles.Primary)), Some(p.size.GetOr(BV.Medium)),
      Some(p.fullWidth.GetOr(false)), Some(IsDisabled(p)), Some(p.loading.GetOr(false)))
  }

  /** The component's defaults are the table's: filling them in before the
      call gives the same configuration as leaving them to the table. */
  lemma DefaultsAgreeWithTable(p: Props)
    ensures BV.Settle(VariantProps(p))
         == BV.Settle(BV.Props(p.variant, p.color, p.size, p.fullWidth, Some(IsDisabled(p)), p.loading))
    ensures BV.Settle(VariantProps(p)).disabled == IsDisabled(p)
  {
  }

  /** The cn arguments: the variant classes, then the caller's class name. */
  function ClassInputs(p: Props): seq<ClassValue>
  {
    [Str(Join(BV.Classes(VariantProps(p))))] + [UserClass(p.className)]
  }

  function ClassName(p: Props): string
  {
    Cn(ClassInputs(p))
  }

  /** The caller's classes come last, so they win every conflict with the
      variant classes: the output is the surviving variant tokens, none of the
      caller's families among them, then the caller's merged tokens. */
  lemma UserClassesWin(p: Props)
    ensures var user := Tokens([UserClass(p.className)]);
      exists pre ::
        && Split(ClassName(p)) == pre + Merge(user, KeyOf)
        && forall t | t in pre :: t in Split(Join(BV.Classes(VariantProps(p)))) && KeyOf(t) !in KeysOf(user, KeyOf)
  {
    var front := [Str(Join(BV.Classes(VariantProps(p))))];
    LastArgumentWins(front, UserClass(p.className), KeyOf);
    OneString(Join(BV.Classes(VariantProps(p))));
  }

  /** The spinner is shown exactly while loading. */
  function HasSpinner(p: Props): (r: bool)
    ensures r <==> p.loading == Some(true)
  {
    p.loading.GetOr(false)
  }

  /** The cn arguments of the leading or of the trailing icon wrapper, when
      that icon is given. */
  function IconWrapper(p: Props, present: bool): (r: Option<seq<ClassValue>>)
    ensures r.Some? <==> present
    ensures r.Some? ==> r.value == IW.Inputs(p.loading == Some(true))
  {
    if !present then None else Some(IW.Inputs(p.loading.GetOr(false)))
  }

  /** A present icon's wrapper has exactly the base wrapper classes, followed
      by `invisible` while loading, and its class name holds `invisible`
      exactly while loading. */
  lemma IconHiddenIffLoading(p: Props)
    requires p.icon
    ensures Flatten(IconWrapper(p, p.icon).value)
         == if p.loading == Some(true) then [Join(IW.BaseTokens), "invisible"] else [Join(IW.BaseTokens)]
    ensures "invisible" in Split(Cn(IconWrapper(p, p.icon).value)) <==> p.loading == Some(true)
  {
    IW.HiddenIffLoading(p.loading == Some(true));
  }

  /** While loading, the button is disabled, shows the spinner, hides both
      icons, asks the table for its disabled and loading classes, and has no ripple. */
  lemma LoadingIsInert(p: Props)
    requires p.loading == Some(true)
    ensures IsDisabled(p) && HasSpinner(p)
    ensures BV.Settle(VariantProps(p)).disabled && BV.Settle(VariantProps(p)).loading
    ensures R.Settle(RippleOptions(p)).disabled
    ensures p.icon ==> Str("invisible") in IconWrapper(p, p.icon).value
    ensures p.trailingIcon ==> Str("invisible") in IconWrapper(p, p.trailingIcon).value
  {
  }

  function TabIndex(p: Props): (r: int)
    ensures p.tabIndex.None? ==> r == 0
    ensures p.tabIndex.Some? ==> r == p.tabIndex.value
  {
    p.tabIndex.GetOr(0)
  }

  function TypeAttribute(p: Props): (r: string)
    ensures p.buttonType.None? ==> r == "button"
    ensures p.buttonType == Some(Submit) ==> r == "submit"
    ensures p.buttonType == Some(Reset) ==> r == "reset"
    ensures r == "button" <==> p.buttonType != Some(Submit) && p.buttonType != Some(Reset)
  {
    match p.buttonType.GetOr(PlainButton)
    case PlainButton => "button"
    case Submit => "submit"
    case Reset => "reset"
  }

  /** The development warnings: text content missing, and both icons given. */
  function Warnings(p: Props, development: bool): (r: seq<Warning>)
    ensures MissingText in r <==> development && !p.children
    ensures TwoIcons in r <==> development && p.icon && p.trailingIcon
    ensures !development ==> r == []
  {
    if !development then []
    else (if !p.children then [MissingText] else []) + (if p.icon && p.trailingIcon then [TwoIcons] else [])
  }

  /** The mouse-down handlers the rendered button runs, in order, as written:
      the ripple handler is passed after the spread props and replaces the
      caller's `onMouseDown`. */
  function MouseDownHandlers(p: Props): (r: seq<Handler>)
    ensures r == [RippleMouseDown]
  {
    [RippleMouseDown]
  }

  /** The caller's handler is lost. */
  lemma UserMouseDownDropped(p: Props)
    requires p.onMouseDown
    ensures UserMouseDown !in MouseDownHandlers(p)
  {
  }

  /** The handlers as intended, as IconButton and FAB chain them: the caller's
      first when given, then the ripple. */
  function MouseDownHandlersIntended(p: Props): (r: seq<Handler>)
    ensures UserMouseDown in r <==> p.onMouseDown
    ensures |r| > 0 && r[|r| - 1] == RippleMouseDown
    ensures p.onMouseDown ==> r[0] == UserMouseDown
  {
    (if p.onMouseDown then [UserMouseDown] else []) + [RippleMouseDown]
  }
}
