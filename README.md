# tinybigui core, modelled in Dafny

This project models the logic underneath the Material Design 3 React components of
tinybigui. It covers:

- the class-variance tables of Button, IconButton and the floating action button (FAB);
- the `cn` helper, which is clsx followed by tailwind-merge;
- the `useRipple` hook;
- the prop handling of the three components (defaults, the combined disabled state,
  ripple gating, the order of class sources, icon and spinner visibility, the development
  warnings and the mouse-down handler chain);
- the colour helpers in `colors.ts`;
- the typography helpers in `typography.ts`.

The modules follow the source files:

| module (file) | models |
|---|---|
| `Variants` (variants.dfy) | the class-variance resolver that all three tables are fed to |
| `ButtonVariants`, `IconButtonVariants`, `FabVariants` | the three variant tables |
| `ClassNames` (class_names.dfy) | tokens, clsx flattening, the conflict key and the last-wins merge |
| `Ripples` (ripple.dfy) | the ripple hook: a class whose methods update the ripple list, the key counter and the pending removal timers |
| `Button`, `IconButton`, `Fab` | each component's prop normalisation |
| `Colors`, `Typography` | the two utility files |
| `ColorRoles`, `Sequences`, `Wrappers` | shared colour names, sequence lemmas and `Option` |

The resolver lives in the class-variance-authority package, which is not part of this model.
`Variants` therefore states its behaviour as an assumption:

- an undefined key takes its default;
- the output is the base classes, then each axis's chosen option in declaration order, then
  every matching compound rule in declaration order;
- a value that an axis does not list contributes nothing.

Class strings are handled as sequences of whitespace-free tokens. Each table is an explicit
token list, and each property is proved about the resolver applied to that list. The
colour-role tables (`Palette`) are written independently from the Material Design 3 role
pattern, and the lemmas prove that every compound rule agrees with them.

tailwind-merge is modelled as "keep, in order, only the last token of each conflict key".
The key of a token is its modifier prefix plus its family. Most families are told by an
explicit prefix table. `text-` and `border-` are told by their value as well: a `text-`
token is a font size, a keyword (alignment, wrapping, overflow) or a text colour, and a
`border-` token is a width, a style, a side or a border colour. A token outside every
family is its own key, so it is only deduplicated.

`Math.sqrt`, `getComputedStyle` and the development flag come in as parameters:
`root`, `computed` and `development`. Numbers are reals, and `Math.round` is `floor(x + 0.5)`.

## Model

| member | source | states |
|---|---|---|
| Variants.ResolveParts | packages/react/src/components/Button/Button.variants.ts:9-224 | the resolved classes are the base classes, then the axis classes, then the classes of the matching compound rules |
| Variants.BaseFirst | packages/react/src/components/Button/Button.variants.ts:10-22 | every resolution starts with the base classes |
| Variants.InResolve | packages/react/src/components/Button/Button.variants.ts:9-224 | a token is output iff it is a base class, a class of the chosen option of some axis, or a class of some matching compound rule |
| Variants.DefaultFills | packages/react/src/components/Button/Button.variants.ts:216-223 | leaving a key undefined resolves like passing its default |
| Variants.SettledIsStable | packages/react/src/components/Button/Button.variants.ts:216-223 | passing the settled props explicitly changes nothing |
| Variants.OnlyCompound | packages/react/src/components/Button/Button.variants.ts:91-211 | when one rule alone matches, the compound part is exactly its classes and the match count is 1 |
| Variants.OnlyAxisChanges | packages/react/src/components/Button/Button.variants.ts:26-87 | changing a key that one axis reads and no compound rule lists changes only that axis's classes, in place |
| ButtonVariants.OmittedTakeDefaults | packages/react/src/components/Button/Button.variants.ts:216-223 | undefined props settle to filled / primary / medium / false / false / false |
| ButtonVariants.RuleApplies | packages/react/src/components/Button/Button.variants.ts:91-211 | rule i matches a configuration iff i is the rule listing its variant and colour |
| ButtonVariants.ExactlyOneRule | packages/react/src/components/Button/Button.variants.ts:91-211 | exactly one compound rule matches every configuration |
| ButtonVariants.PaletteRow | packages/react/src/components/Button/Button.variants.ts:91-211 | each of the 20 rules carries the Material role pattern of its variant and colour |
| ButtonVariants.CompoundPart | packages/react/src/components/Button/Button.variants.ts:91-211 | the compound part of every output is the palette of its variant and colour |
| ButtonVariants.AxisRows | packages/react/src/components/Button/Button.variants.ts:26-87 | each axis contributes its option's classes, in declaration order |
| ButtonVariants.ClosedForm | packages/react/src/components/Button/Button.variants.ts:9-224 | `buttonVariants(p)` equals base + axis classes + palette of the settled configuration |
| ButtonVariants.InClasses | packages/react/src/components/Button/Button.variants.ts:9-224 | every output token comes from the base, an axis row or the palette, and each of those is output |
| ButtonVariants.SizingOnlyFromSize | packages/react/src/components/Button/Button.variants.ts:51-55 | no source but the size axis emits a height or horizontal padding |
| ButtonVariants.OneHeight | packages/react/src/components/Button/Button.variants.ts:51-55 | every output holds its size's height and no other height |
| ButtonVariants.OnePaddingX | packages/react/src/components/Button/Button.variants.ts:51-55 | every output holds its size's horizontal padding and no other |
| ButtonVariants.TonalPrimaryLooksSecondary | packages/react/src/components/Button/Button.variants.ts:143-152 | tonal primary and tonal secondary buttons get identical classes |
| ButtonVariants.FilledPrimaryColours | packages/react/src/components/Button/Button.variants.ts:95-99 | filled primary carries `bg-primary` and `text-on-primary` |
| ButtonVariants.FullWidthAddsOnlyWFull | packages/react/src/components/Button/Button.variants.ts:60-63 | full width inserts exactly `w-full` and changes nothing else |
| ButtonVariants.DisabledAddsOnlyDisabledTokens | packages/react/src/components/Button/Button.variants.ts:68-76 | disabled inserts exactly the disabled classes and changes nothing else |
| ButtonVariants.PaletteEndsInTextColour | packages/react/src/components/Button/Button.variants.ts:91-211 | every compound rule ends with a text colour |
| ButtonVariants.PaletteOpensWithBackground | packages/react/src/components/Button/Button.variants.ts:91-211 | filled, tonal and elevated rules start with a container colour |
| ButtonVariants.DisabledNotInPalette | packages/react/src/components/Button/Button.variants.ts:68-76 | no compound rule repeats the disabled container or text colour |
| ButtonVariants.DisabledBeforePalette | packages/react/src/components/Button/Button.variants.ts:68-211 | a disabled output is base and axis classes, holding the disabled colours, then the palette |
| ButtonVariants.DisabledTextOverridden | packages/react/src/components/Button/Button.variants.ts:68-211 | as written, the palette's text colour overrides the disabled text colour in every disabled configuration |
| ButtonVariants.DisabledContainerOverridden | packages/react/src/components/Button/Button.variants.ts:68-211 | as written, filled, tonal and elevated palettes override the disabled container colour |
| ButtonVariants.DisabledColoursOverridden | packages/react/src/components/Button/Button.variants.ts:68-76 | as written, the merged table output of a disabled button lacks `text-on-surface/38`, and for filled, tonal and elevated also `bg-on-surface/12` |
| ButtonVariants.ClassesIntended | packages/react/src/components/Button/Button.variants.ts:68-76 | corrected: the table output, then the disabled colours iff disabled |
| ButtonVariants.DisabledColoursWinIntended | packages/react/src/components/Button/Button.variants.ts:68-76 | corrected: a disabled button keeps all three disabled colours through the merge |
| ButtonVariants.LoadingAddsOnlyCursorWait | packages/react/src/components/Button/Button.variants.ts:82-85 | loading inserts exactly `cursor-wait` and changes nothing else |
| IconButtonVariants.OmittedTakeDefaults | packages/react/src/components/IconButton/IconButton.variants.ts:211-217 | undefined props settle to standard / primary / medium / unselected / enabled |
| IconButtonVariants.RuleApplies | packages/react/src/components/IconButton/IconButton.variants.ts:81-206 | rule i matches iff it is the rule written for the configuration's variant, colour (where listed) and selection |
| IconButtonVariants.ExactlyOneRule | packages/react/src/components/IconButton/IconButton.variants.ts:81-206 | exactly one of the 17 compound rules matches every configuration |
| IconButtonVariants.PaletteRow | packages/react/src/components/IconButton/IconButton.variants.ts:81-206 | each rule carries the role pattern of the configuration it is written for |
| IconButtonVariants.CompoundPart | packages/react/src/components/IconButton/IconButton.variants.ts:81-206 | the compound part of every output is the palette of its variant, colour and selection |
| IconButtonVariants.ClosedForm | packages/react/src/components/IconButton/IconButton.variants.ts:15-219 | `iconButtonVariants(p)` equals base + axis classes + palette |
| IconButtonVariants.InClasses | packages/react/src/components/IconButton/IconButton.variants.ts:15-219 | every output token comes from the base, an axis row or the palette, and each of those is output |
| IconButtonVariants.SizingOnlyFromSize | packages/react/src/components/IconButton/IconButton.variants.ts:55-59 | no source but the size axis emits a height or width |
| IconButtonVariants.OneHeight | packages/react/src/components/IconButton/IconButton.variants.ts:55-59 | every output holds its size's height and no other |
| IconButtonVariants.OneWidth | packages/react/src/components/IconButton/IconButton.variants.ts:55-59 | every output holds its size's width and no other, so the button is square |
| IconButtonVariants.StandardColours | packages/react/src/components/IconButton/IconButton.variants.ts:85-94 | standard shows `text-primary` iff selected and `text-on-surface-variant` iff not |
| IconButtonVariants.StandardForm | packages/react/src/components/IconButton/IconButton.variants.ts:35-94 | standard output is the base, `bg-transparent`, the size and disabled classes, then `text-primary` when selected or `text-on-surface-variant` when not |
| IconButtonVariants.FilledColours | packages/react/src/components/IconButton/IconButton.variants.ts:99-150 | filled uses the colour and its on-colour, or their containers when selected |
| IconButtonVariants.TonalSelectedIsTertiary | packages/react/src/components/IconButton/IconButton.variants.ts:183-187 | selected tonal uses the tertiary container whatever the colour |
| IconButtonVariants.TonalUnselectedColours | packages/react/src/components/IconButton/IconButton.variants.ts:155-178 | unselected tonal uses its colour's container, the secondary one for primary |
| IconButtonVariants.ColorIgnored | packages/react/src/components/IconButton/IconButton.variants.ts:85-206 | standard, outlined and selected tonal buttons get identical classes in every colour |
| IconButtonVariants.TonalPrimaryLooksSecondary | packages/react/src/components/IconButton/IconButton.variants.ts:155-166 | unselected tonal primary and tonal secondary get identical classes |
| IconButtonVariants.OutlinedForm | packages/react/src/components/IconButton/IconButton.variants.ts:35-205 | outlined output is the base, the transparent outlined border, the size and disabled classes, then the inverse colours and a transparent border when selected or `text-on-surface-variant` when not |
| IconButtonVariants.DisabledAddsOnlyDisabledTokens | packages/react/src/components/IconButton/IconButton.variants.ts:72-75 | isDisabled inserts exactly the disabled classes and changes nothing else |
| IconButtonVariants.SelectedOutlinedKinds | packages/react/src/components/IconButton/IconButton.variants.ts:201-205 | the selected outlined rule is a background, a text colour and a border colour |
| IconButtonVariants.OutlineKinds | packages/react/src/components/IconButton/IconButton.variants.ts:39 | the outlined axis holds a background and a border colour |
| IconButtonVariants.SelectedOutlinedLayout | packages/react/src/components/IconButton/IconButton.variants.ts:39-205 | in a selected outlined output the axis's colours come before the selected colours |
| IconButtonVariants.SelectedOutlinedOverrides | packages/react/src/components/IconButton/IconButton.variants.ts:39-205 | a selected outlined button's merged output drops `bg-transparent` and `border-outline` and keeps all three selected colours |
| FabVariants.OmittedTakeDefaults | packages/react/src/components/FAB/FAB.variants.ts:188-192 | undefined props settle to medium / primary / enabled |
| FabVariants.RuleApplies | packages/react/src/components/FAB/FAB.variants.ts:87-183 | rule i matches iff it lists the configuration's colour and size |
| FabVariants.ExactlyOneRule | packages/react/src/components/FAB/FAB.variants.ts:87-183 | exactly one of the 16 compound rules matches every configuration |
| FabVariants.PaletteRow | packages/react/src/components/FAB/FAB.variants.ts:87-183 | every rule carries the palette of its colour, whatever its size |
| FabVariants.CompoundPart | packages/react/src/components/FAB/FAB.variants.ts:87-183 | the compound part of every output is the palette of its colour alone |
| FabVariants.ClosedForm | packages/react/src/components/FAB/FAB.variants.ts:15-193 | `fabVariants(p)` equals base + size row + disabled row + palette |
| FabVariants.InClasses | packages/react/src/components/FAB/FAB.variants.ts:15-193 | every output token comes from the base, the size, the disabled classes or the palette, and each of those is output |
| FabVariants.PaletteSpelled | packages/react/src/components/FAB/FAB.variants.ts:87-183 | the four colours use their container pairs, and surface uses primary text |
| FabVariants.EndsWithColourPair | packages/react/src/components/FAB/FAB.variants.ts:87-183 | every output ends with the colour pair of its colour |
| FabVariants.AlwaysElevated | packages/react/src/components/FAB/FAB.variants.ts:32-33 | every output carries elevation level 3, and level 4 on hover |
| FabVariants.ShapeOnlyFromSize | packages/react/src/components/FAB/FAB.variants.ts:40-63 | no source but the size axis emits a height, width or corner |
| FabVariants.OneHeight | packages/react/src/components/FAB/FAB.variants.ts:40-63 | every output holds its size's height and no other |
| FabVariants.WidthOnlyWhenFixed | packages/react/src/components/FAB/FAB.variants.ts:40-63 | fixed sizes hold exactly their width, and the extended FAB holds no width at all |
| FabVariants.OneCorner | packages/react/src/components/FAB/FAB.variants.ts:40-63 | every output holds exactly its size's corner, never `rounded-full` |
| FabVariants.ExtendedLayout | packages/react/src/components/FAB/FAB.variants.ts:57-62 | the extended FAB has `h-14`, `pl-4`, `pr-5` and `gap-2` |
| FabVariants.DisabledAddsOnlyDisabledTokens | packages/react/src/components/FAB/FAB.variants.ts:78-81 | isDisabled inserts exactly the disabled classes and changes nothing else |
| ClassNames.WordsRoundTrip | packages/react/src/utils/cn.ts:23-25 | joining words with spaces and splitting again gives the words back |
| ClassNames.SplitJoin | packages/react/src/utils/cn.ts:23-25 | splitting the space-joined clsx output gives each string's tokens in turn |
| ClassNames.Flatten | packages/react/src/utils/__tests__/cn.test.ts:38-44 | clsx contributes only non-empty strings |
| ClassNames.ObjectArgument | packages/react/src/utils/__tests__/cn.test.ts:62-70 | an object contributes exactly its non-empty keys whose value is true |
| ClassNames.NoClassArgument | packages/react/src/utils/__tests__/cn.test.ts:38-44 | a boolean, null or undefined argument contributes nothing, wherever it stands |
| ClassNames.ArrayArgument | packages/react/src/utils/__tests__/cn.test.ts:62-70 | an array argument counts as its elements, in place |
| ClassNames.CnOfNothing | packages/react/src/utils/__tests__/cn.test.ts:55-60 | `cn()` is the empty string |
| ClassNames.Merge | packages/react/src/utils/cn.ts:23-25 | the merge keeps only tokens of its input |
| ClassNames.MergeKeepsLast | packages/react/src/utils/cn.ts:17-21 | a token survives iff it is the last token of its conflict key |
| ClassNames.MergeUniqueKeys | packages/react/src/utils/cn.ts:23-25 | no two survivors conflict |
| ClassNames.MergeNoConflicts | packages/react/src/utils/__tests__/cn.test.ts:27-36 | input with no conflicts passes through unchanged |
| ClassNames.MergeKeepsOrder | packages/react/src/utils/cn.ts:23-25 | the survivors keep their input order |
| ClassNames.MergeIdempotent | packages/react/src/utils/cn.ts:23-25 | merging twice is merging once |
| ClassNames.MergeAppend | packages/react/src/utils/cn.ts:23-25 | merging a + b gives the merged tokens of a that b does not override, then merged b |
| ClassNames.CnWellFormed | packages/react/src/utils/cn.ts:23-25 | the output splits exactly into the merged tokens |
| ClassNames.CnWithoutConflicts | packages/react/src/utils/__tests__/cn.test.ts:27-36 | with no conflicts, the output is all tokens in input order, single-spaced |
| ClassNames.LaterArgumentWins | packages/react/src/utils/cn.ts:17-21 | of two conflicting tokens in separate arguments, only the later is output |
| ClassNames.ArgumentsMergeAsOne | packages/react/src/utils/cn.ts:23-25 | two string arguments give the same result as one string holding both |
| ClassNames.CnIdempotent | packages/react/src/utils/cn.ts:23-25 | applying cn to its own output changes nothing |
| ClassNames.LastArgumentWins | packages/react/src/utils/cn.ts:23-25 | the output is the earlier tokens the last argument does not override, then the last argument's merged tokens |
| ClassNames.PaddingLastWins | packages/react/src/utils/__tests__/cn.test.ts:46-53 | of two `p-` tokens the later wins, in one string or in two |
| ClassNames.PaddingXLastWins | packages/react/src/utils/cn.ts:17-21 | `cn("px-2", "px-4")`-shaped calls give the later token |
| ClassNames.TrailingFlag | packages/react/src/utils/cn.ts:13 | a conditional class after a base string is output iff its condition holds |
| ClassNames.ValueFamily | packages/react/src/utils/cn.ts:24 | a `text-` token is a font size iff its value is a size and a text colour iff its value is neither a size nor a keyword; a `border-` token is a border colour iff its value is no width, style or side |
| ClassNames.TextColourKey | packages/react/src/utils/cn.ts:24 | every text colour has the text-colour key |
| ClassNames.BorderColourKey | packages/react/src/utils/cn.ts:24 | every border colour has the border-colour key |
| ClassNames.FontSizeKey | packages/react/src/utils/cn.ts:24 | every font size has the font-size key |
| ClassNames.BackgroundKey | packages/react/src/utils/cn.ts:24 | every `bg-` token has the background key |
| ClassNames.ColoursLastWins | packages/react/src/utils/cn.ts:17-21 | of two text colours, or two border colours, only the later is output |
| ClassNames.FontSizeIsNotColour | packages/react/src/utils/cn.ts:24 | a font size and a text colour do not conflict |
| ClassNames.ColourKindsDiffer | packages/react/src/utils/cn.ts:24 | backgrounds, text colours and border colours do not conflict with one another |
| ClassNames.OverriddenByLater | packages/react/src/utils/cn.ts:17-21 | a token followed by a conflicting token in a later part is dropped |
| ClassNames.TrailingTokensSurvive | packages/react/src/utils/cn.ts:24 | trailing tokens with pairwise distinct keys all survive the merge |
| ClassNames.TextColourOverridden | packages/react/src/utils/cn.ts:17-21 | a text colour followed later by another is dropped |
| ClassNames.BackgroundOverridden | packages/react/src/utils/cn.ts:17-21 | a background followed later by another is dropped |
| ClassNames.BorderColourOverridden | packages/react/src/utils/cn.ts:17-21 | a border colour followed later by another is dropped |
| ClassNames.ColoursAtEndSurvive | packages/react/src/utils/cn.ts:24 | a background, a text colour and a border colour at the end all survive |
| IconWrappers.Inputs | packages/react/src/components/Button/Button.tsx:163 | the wrapper passes the base string, then `invisible` iff loading |
| IconWrappers.HiddenIffLoading | packages/react/src/components/Button/Button.tsx:162-166 | clsx keeps the base string and `invisible` iff loading; the merged output holds `invisible` iff loading |
| Ripples.Settle | packages/react/src/hooks/useRipple.tsx:59 | options default to enabled, `currentColor` and 450 ms |
| Ripples.ReachesCorners | packages/react/src/hooks/useRipple.tsx:78-81 | a ripple of the computed size centred on the press covers every corner of the element |
| Ripples.Without | packages/react/src/hooks/useRipple.tsx:90 | the removal filter keeps exactly the ripples with another key |
| Ripples.WithoutKeepsOrder | packages/react/src/hooks/useRipple.tsx:90 | removing a key keeps the remaining keys increasing |
| Ripples.RippleHook.constructor | packages/react/src/hooks/useRipple.tsx:61-62 | no ripples, counter 0, no timers |
| Ripples.RippleHook.Press | packages/react/src/hooks/useRipple.tsx:67-92 | disabled: no change; otherwise one ripple is appended with the next key, the element-relative origin and twice the root as its size, and its removal is scheduled; the invariant is kept |
| Ripples.RippleHook.Expire | packages/react/src/hooks/useRipple.tsx:89-91 | the ripple with the fired key goes, the others stay in order, its timer is cleared, the invariant is kept |
| Ripples.RippleHook.Render | packages/react/src/hooks/useRipple.tsx:99-120 | null iff disabled; otherwise the clipping container's classes and one span per ripple with the ripple classes, its position, its size as width and height, the centring transform, and the colour and duration |
| Ripples.AllTimersFired | packages/react/src/hooks/useRipple.tsx:86-91 | there are never more ripples than pending timers, so none is left once all have fired |
| Button.IsDisabled | packages/react/src/components/Button/Button.tsx:124 | disabled iff `isDisabled` or `loading` |
| Button.RippleGate | packages/react/src/components/Button/Button.tsx:127-129 | the ripple is off iff disabled, loading or `disableRipple`; colour and duration keep the hook defaults |
| Button.DefaultsAgreeWithTable | packages/react/src/components/Button/Button.tsx:84-104 | the component's defaults give the same configuration as the table's, with the combined disabled state |
| Button.UserClassesWin | packages/react/src/components/Button/Button.tsx:144-156 | the caller's classes come last and win every conflict with the variant classes |
| Button.IconWrapper | packages/react/src/components/Button/Button.tsx:162-166 | a wrapper exists iff its icon is given |
| Button.IconHiddenIffLoading | packages/react/src/components/Button/Button.tsx:162-166 | a present icon's wrapper flattens to the base wrapper classes, plus `invisible` iff loading, and its cn output holds `invisible` iff loading |
| Button.HasSpinner | packages/react/src/components/Button/Button.tsx:169-173 | the spinner is shown iff loading |
| Button.LoadingIsInert | packages/react/src/components/Button/Button.tsx:124-183 | loading means disabled, a spinner, the disabled and loading classes, no ripple and hidden icons |
| Button.TabIndex | packages/react/src/components/Button/Button.tsx:103 | tab index defaults to 0 and otherwise passes through |
| Button.TypeAttribute | packages/react/src/components/Button/Button.tsx:104 | `submit` and `reset` pass through; the type is `button` iff neither was given |
| Button.Warnings | packages/react/src/components/Button/Button.tsx:111-121 | in development, warn iff no text and iff both icons; nothing otherwise |
| Button.MouseDownHandlers | packages/react/src/components/Button/Button.tsx:137-143 | as written, only the ripple handler runs |
| Button.UserMouseDownDropped | packages/react/src/components/Button/Button.tsx:137-143 | a caller's `onMouseDown` never runs |
| Button.MouseDownHandlersIntended | packages/react/src/components/IconButton/IconButton.tsx:94-98 | the caller's handler runs iff given, first; the ripple handler runs last |
| IconButton.IsDisabled | packages/react/src/components/IconButton/IconButton.tsx:86 | disabled iff `isDisabled` |
| IconButton.RippleNeverDisabled | packages/react/src/components/IconButton/IconButton.tsx:89-91 | as written, the hook never sees a `disabled` option, so the ripple is always on |
| IconButton.DisabledButtonRipples | packages/react/src/components/IconButton/IconButton.tsx:89-91 | a disabled icon button with `disableRipple` still ripples |
| IconButton.RippleGateIntended | packages/react/src/components/IconButton/IconButton.tsx:89-91 | corrected: the ripple is off iff `isDisabled` or `disableRipple` |
| IconButton.DefaultsAgreeWithTable | packages/react/src/components/IconButton/IconButton.tsx:55-64 | the component's defaults give the same configuration as the table's |
| IconButton.UserClassesWin | packages/react/src/components/IconButton/IconButton.tsx:109-128 | the caller's classes come last and win every conflict with the base and variant classes |
| IconButton.Messages | packages/react/src/components/IconButton/IconButton.tsx:73-83 | in development, an error iff `aria-label` is missing or empty and a warning iff there are no children |
| IconButton.MouseDownHandlers | packages/react/src/components/IconButton/IconButton.tsx:94-98 | the caller's handler runs iff given, first; the ripple handler runs last |
| Fab.IsDisabled | packages/react/src/components/FAB/FAB.tsx:79 | disabled iff `isDisabled` or `loading` |
| Fab.RippleGate | packages/react/src/components/FAB/FAB.tsx:82-84 | the ripple is off iff disabled, loading or `disableRipple` |
| Fab.DefaultsAgreeWithTable | packages/react/src/components/FAB/FAB.tsx:43-53 | the component's defaults give the same configuration as the table's |
| Fab.UserClassesWin | packages/react/src/components/FAB/FAB.tsx:101-123 | the caller's classes come last and win every conflict |
| Fab.IconWrapper | packages/react/src/components/FAB/FAB.tsx:132-136 | a wrapper exists iff an icon is given |
| Fab.IconHiddenIffLoading | packages/react/src/components/FAB/FAB.tsx:132-136 | the icon wrapper flattens to the base classes, plus `invisible` iff loading, and its cn output holds `invisible` iff loading |
| Fab.HasSpinner | packages/react/src/components/FAB/FAB.tsx:139-143 | the spinner is shown iff loading |
| Fab.HasLabel | packages/react/src/components/FAB/FAB.tsx:146-150 | the label is rendered iff the size is extended and there are children |
| Fab.TitleAttribute | packages/react/src/components/FAB/FAB.tsx:125 | `title` is passed on iff it is a non-empty string, unchanged |
| Fab.Warnings | packages/react/src/components/FAB/FAB.tsx:62-76 | in development, warn iff no icon, iff extended without label, iff label without extended |
| Fab.LabelWarningsComplement | packages/react/src/components/FAB/FAB.tsx:67-75 | children are rendered iff no unused-label warning is due |
| Fab.LoadingIsInert | packages/react/src/components/FAB/FAB.tsx:79-143 | loading means disabled, a spinner, the disabled classes, no ripple and a hidden icon |
| Fab.MouseDownHandlers | packages/react/src/components/FAB/FAB.tsx:87-90 | the caller's handler runs iff given, first; the ripple handler runs last |
| Colors.VariableName | packages/react/src/utils/colors.ts:65 | the name starts with `--`, unchanged if it already did, else prefixed |
| Colors.VariableNameIdempotent | packages/react/src/utils/colors.ts:65 | normalising twice is normalising once |
| Colors.MD3ColorVariable | packages/react/src/utils/colors.ts:84-86 | a role is read from exactly `--md-sys-color-<role>` |
| Colors.IndexOf | packages/react/src/utils/colors.ts:105 | the position of the first occurrence: the character is there and nowhere before it |
| Colors.RemoveFirst | packages/react/src/utils/colors.ts:105 | without a `#` the string is unchanged; otherwise exactly the first `#` is removed, the text before and after it kept |
| Colors.AlphaByte | packages/react/src/utils/colors.ts:106 | the alpha byte is below 256: 0 at or below opacity 0, 255 at or above 1, and within one half of `opacity * 255` in between |
| Colors.WithOpacity | packages/react/src/utils/colors.ts:104-110 | the output is `#`, the colour without its first `#`, then two more characters |
| Colors.AlphaSuffix | packages/react/src/utils/colors.ts:106-108 | the last two characters are hex digits that read back as the alpha byte |
| Colors.OpacityHashIsOptional | packages/react/src/utils/__tests__/colors.test.ts:18-21 | with or without a leading `#` the result is the same |
| Colors.OpacityIsClamped | packages/react/src/utils/__tests__/colors.test.ts:23-26 | opacities at or below 0 give `00`, at or above 1 give `ff` |
| Colors.HexToRgb | packages/react/src/utils/colors.ts:124-130 | every channel lies in 0..255 |
| Colors.HashIsOptional | packages/react/src/utils/__tests__/colors.test.ts:41-44 | with or without a leading `#` the colour parses the same |
| Colors.Hex2 | packages/react/src/utils/colors.ts:147-150 | two hex digits that parse back to the channel |
| Colors.ChannelBounds | packages/react/src/utils/colors.ts:148 | whole channels in range pass unchanged, out-of-range ones stick to 0 or 255, others round to within one half |
| Colors.RgbToHex | packages/react/src/utils/colors.ts:146-152 | seven characters starting with `#` |
| Colors.RgbToHexReadsBack | packages/react/src/utils/colors.ts:124-152 | for any three numbers, the output is a hex colour that parses back to their rounded, clamped channels |
| Colors.RgbRoundTrip | packages/react/src/utils/colors.ts:124-152 | parsing the hex of whole channels in range gives the channels back |
| Colors.HexRoundTrip | packages/react/src/utils/colors.ts:124-152 | formatting the parse of six lower-case digits writes `#` and those digits |
| Colors.StateLayerSuffix | packages/react/src/utils/colors.ts:202-230 | a state layer is the colour with the alpha `14`, `1f`, `1f` or `29` for hover, focus, press or drag |
| Colors.StateAlphaDigits | packages/react/src/utils/colors.ts:202-207 | each state's opacity formats to exactly those two alpha digits, which parse back to its alpha byte |
| Typography.StyleNameInjective | packages/react/src/utils/typography.ts:76-81 | distinct styles have distinct names, so distinct tokens read distinct variables |
| Typography.TokenVariable | packages/react/src/utils/typography.ts:76-81 | a token is read from exactly `--md-sys-typescale-<style>-<property>` |
| Typography.FontFamilyDefault | packages/react/src/utils/typography.ts:152-154 | the plain family is the default, read from `--md-sys-typescale-font-family-<variant>` |
| Typography.TypographyStyle | packages/react/src/utils/typography.ts:119-135 | `fontFamily` is present iff requested |
| Typography.StyleFields | packages/react/src/utils/typography.ts:119-135 | each field holds its property's token and the font family is the plain one |
| Typography.ElementTable | packages/react/src/utils/typography.ts:162-196 | distinct elements get distinct styles, and a deeper heading gets a smaller style |
| Typography.TypographyClassName | packages/react/src/utils/typography.ts:229-231 | the class name starts with `text-` |
| Typography.ClassNameInjective | packages/react/src/utils/typography.ts:229-231 | the class name determines the style |
| Typography.ResponsiveTypography | packages/react/src/utils/typography.ts:265-279 | a breakpoint is present iff given, and each is that style's style object |
| Typography.ResponsiveHasNoFontFamily | packages/react/src/utils/typography.ts:265-279 | no breakpoint carries a font family |
| Typography.TruncateText | packages/react/src/utils/typography.ts:340-356 | one line gives the three no-wrap ellipsis keys; any other count gives the five line-clamp keys with that count |

## Left out

- The class-variance-authority resolver is not part of this model; its behaviour is the assumption stated above.
- The model follows the code, not the component specification: an axis value that a table does not list contributes no classes.
- tailwind-merge internals are not modelled. The family table is an approximation: it holds the prefix families, the font-size, text-colour and border-colour families, and short keyword lists for the other `text-` and `border-` utilities.
- ClassNames.KeyOf: side borders (`border-x-…`, `border-t-…`) are never colours here, and arbitrary values (`text-[…]`) are not told apart by their type as tailwind-merge does.
- Cross-family conflicts are not modelled (for example, `p-4` against a later `px-2`).
- The `!` important modifier is not modelled, nor arbitrary-value classes beyond treating them as plain tokens.
- Numeric clsx arguments are not modelled.
- ClassNames.Merge: a token outside every family is keyed by its full text, so the model only deduplicates it. tailwind-merge's exact handling of unknown classes is not reproduced.
- Floating point is modelled with reals. `Math.sqrt` is the `root` parameter of `Press`, so the ripple size is stated in squared form.
- Timers are modelled as the pending-key queue; which timer fires next is the caller's choice of `Expire`. React state batching and re-rendering are not modelled.
- The headless components (React Aria press handling, focus) and the JSX tree beyond the attributes named above are not modelled.
- `getComputedStyle(...).getPropertyValue(...).trim()` is the `computed` parameter; the document itself is not modelled.
- `generateMD3Theme` and the re-exports from material-color-utilities are not modelled: they call into that library.
- `remToPx`, `pxToRem` and `TYPOGRAPHY_USAGE` are not modelled: they are string-to-float parsing and a description table.
- Colors.HexToRgb: it requires six hex digits after the first `#`. Malformed input, where `parseInt` gives NaN, is not modelled.
- IconButton's `aria-pressed` and `selected` pass-through to the headless layer are not modelled.
- Typography.TruncateText: `lines` is an integer; a fractional count is not modelled.
- Button.Warnings, IconButton.Messages and Fab.Warnings model React node props as truthy or falsy; rendering the node is not modelled.

## Findings

| source | as written | input that shows it | evidently intended | confidence | as-written member | corrected member |
|---|---|---|---|---|---|---|
| packages/react/src/components/IconButton/IconButton.tsx:89-91 | the ripple flag is passed as `isDisabled`, a key the hook does not read | `isDisabled` true and `disableRipple` true: the hook still ripples | pass it as `disabled`, as Button and FAB do | not executed | IconButton.DisabledButtonRipples | IconButton.RippleGateIntended |
| packages/react/src/components/Button/Button.variants.ts:68-76 | the disabled colours sit in the `disabled` axis, which cva emits before the compound rules | a disabled filled primary button: `text-on-primary` and `bg-primary` come later and tailwind-merge drops `text-on-surface/38` and `bg-on-surface/12` | the disabled colours win over the palette | not executed | ButtonVariants.DisabledColoursOverridden | ButtonVariants.DisabledColoursWinIntended |
| packages/react/src/components/Button/Button.tsx:137-143 | `onMouseDown={handleRipple}` after the spread props replaces the caller's `onMouseDown` | any `onMouseDown` prop: it never runs | chain the caller's handler before the ripple, as IconButton and FAB do | not executed | Button.UserMouseDownDropped | Button.MouseDownHandlersIntended |
