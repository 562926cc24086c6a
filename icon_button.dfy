/** The IconButton component's prop handling: defaults, ripple options, the
    chained mouse-down handler, the order of class sources and the
    development messages. */
module IconButton {
  import opened Wrappers
  import opened ClassNames
  import ColorRoles
  import IBV = IconButtonVariants
  import R = Ripples

  /** The props the component reads. `children` is modelled by whether it is
      truthy, `onMouseDown` by whether the caller passed one. */
  datatype Props = Props(
    variant: Option<IBV.Variant>, color: Option<ColorRoles.Color>, size: Option<IBV.Size>,
    children: bool, selected: Option<bool>, disableRipple: Option<bool>,
    className: Option<string>, isDisabled: Option<bool>,
    onMouseDown: bool, ariaLabel: Option<string>)

  /** A console error or a console warning. */
  datatype Message = MissingLabel | MissingIcon

  datatype Handler = UserMouseDown | RippleMouseDown

  function IsDisabled(p: Props): (r: bool)
    ensures r <==> p.isDisabled == Some(true)
  {
    p.isDisabled.GetOr(false)
  }

  /** The options handed to the ripple hook, as written: the flag is passed
      under the key `isDisabled`, which the hook does not read, so the hook
      sees no `disabled` option at all. */
  function RippleOptions(p: Props): R.Options
  {
    R.Options(None, None, None)
  }

  /** As written, neither a disabled button nor `disableRipple` turns the
      ripple off. */
  lemma RippleNeverDisabled(p: Props)
    ensures !R.Settle(RippleOptions(p)).disabled
    ensures R.Settle(RippleOptions(p)).color == R.DefaultColor
  {
  }

  /** A disabled icon button whose ripple was also switched off still ripples. */
  lemma DisabledButtonRipples()
    ensures var p := Props(None, None, None, true, None, Some(true), None, Some(true), false, Some("Close"));
      IsDisabled(p) && !R.Settle(RippleOptions(p)).disabled
  {
  }

  /** The options as intended, the way Button and FAB pass them. */
  function RippleOptionsIntended(p: Props): R.Options
  {
    R.Options(Some(IsDisabled(p) || p.disableRipple.GetOr(false)), None, None)
  }

  lemma RippleGateIntended(p: Props)
    ensures R.Settle(RippleOptionsIntended(p)).disabled
        <==> p.isDisabled == Some(true) || p.disableRipple == Some(true)
    ensures R.Settle(RippleOptionsIntended(p)).color == R.DefaultColor
    ensures R.Settle(RippleOptionsIntended(p)).duration == R.DefaultDuration
  {
  }

  /** The configuration handed to the variant table. */
  function VariantProps(p: Props): IBV.Props
  {
    IBV.Props(
      Some(p.variant.GetOr(IBV.Standard)), Some(p.color.GetOr(ColorRoles.Primary)), Some(p.size.GetOr(IBV.Medium)),
      Some(p.selected.GetOr(false)), Some(IsDisabled(p)))
  }

  /** The component's defaults are the table's. */
  lemma DefaultsAgreeWithTable(p: Props)
    ensures IBV.Settle(VariantProps(p))
         == IBV.Settle(IBV.Props(p.variant, p.color, p.size, p.selected, p.isDisabled))
    ensures IBV.Settle(VariantProps(p)).isDisabled == IsDisabled(p)
  {
  }

  /** The component's own class strings, passed to cn before the variant classes. */
  const BaseStrings: seq<string> := [
    "relative inline-flex items-center justify-center",
    "overflow-hidden rounded-full",
    "transition-all duration-200",
    "focus-visible:outline-primary focus-visible:outline-2 focus-visible:outline-offset-2",
    "before:absolute before:inset-0 before:rounded-[inherit] before:transition-opacity before:duration-200",
    "before:bg-current before:opacity-0",
    "hover:before:opacity-8",
    "focus-visible:before:opacity-12",
    "active:before:opacity-12"]

  /** The cn arguments before the caller's class name. */
  function OwnInputs(p: Props): seq<ClassValue>
  {
    seq(|BaseStrings|, i requires 0 <= i < |BaseStrings| => Str(BaseStrings[i]))
      + [Str(Join(IBV.Classes(VariantProps(p))))]
  }

  function ClassInputs(p: Props): seq<ClassValue>
  {
    OwnInputs(p) + [UserClass(p.className)]
  }

  function ClassName(p: Props): string
  {
    Cn(ClassInputs(p))
  }

  /** The caller's classes come last and win every conflict with the base and
      variant classes. */
  lemma UserClassesWin(p: Props)
    ensures var user := Tokens([UserClass(p.className)]);
      exists pre ::
        && Split(ClassName(p)) == pre + Merge(user, KeyOf)
        && forall t | t in pre :: t in Tokens(OwnInputs(p)) && KeyOf(t) !in KeysOf(user, KeyOf)
  {
    LastArgumentWins(OwnInputs(p), UserClass(p.className), KeyOf);
  }

  /** The development messages: a missing or empty `aria-label` is reported
      as an error, missing children as a warning. */
  function Messages(p: Props, development: bool): (r: seq<Message>)
    ensures MissingLabel in r <==> development && (p.ariaLabel.None? || p.ariaLabel == Some(""))
    ensures MissingIcon in r <==> development && !p.children
    ensures !development ==> r == []
  {
    if !development then []
    else
      var noLabel := if p.ariaLabel.None? || p.ariaLabel.value == "" then [MissingLabel] else [];
      var noIcon := if !p.children then [MissingIcon] else [];
      noLabel + noIcon
  }

  /** The handlers the merged `onMouseDown` runs, in order. */
  function MouseDownHandlers(p: Props): (r: seq<Handler>)
    ensures UserMouseDown in r <==> p.onMouseDown
    ensures |r| > 0 && r[|r| - 1] == RippleMouseDown
    ensures p.onMouseDown ==> r[0] == UserMouseDown
  {
    (if p.onMouseDown then [UserMouseDown] else []) + [RippleMouseDown]
  }
}
