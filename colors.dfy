/** Colour helpers: hex/RGB conversion, alpha suffixes, the state-layer
    opacity table and CSS variable names for colour roles.

    Numbers are exact reals; `Math.round` is `Round(x) = Floor(x + 0.5)`. */
module Colors {
  import opened Wrappers

  /** The position of the first `c` in `s` (`String.prototype.indexOf`). */
  function IndexOf(s: string, c: char): (i: nat)
    requires c in s
    ensures i < |s| && s[i] == c && c !in s[..i]
  {
    if s[0] == c then 0 else 1 + IndexOf(s[1..], c)
  }

  /** The string with its first `c` removed (`String.prototype.replace` with a
      one-character string pattern). */
  function RemoveFirst(s: string, c: char): (r: string)
    ensures c !in s ==> r == s
    ensures c in s ==> r == s[..IndexOf(s, c)] + s[IndexOf(s, c) + 1..]
  {
    if s == [] then []
    else if s[0] == c then s[1..]
    else [s[0]] + RemoveFirst(s[1..], c)
  }

  /** Removing the first `#` from `#` + s gives s back. */
  lemma RemoveLeadingHash(s: string)
    ensures RemoveFirst("#" + s, '#') == s
  {
    assert ("#" + s)[1..] == s;
  }

  predicate IsHexDigit(c: char)
  {
    '0' <= c <= '9' || 'a' <= c <= 'f' || 'A' <= c <= 'F'
  }

  /** The value of one hex digit, either case, as `parseInt(_, 16)` reads it. */
  function DigitValue(c: char): (r: nat)
    requires IsHexDigit(c)
    ensures r < 16
  {
    if '0' <= c <= '9' then (c - '0') as nat
    else if 'a' <= c <= 'f' then (c - 'a') as nat + 10
    else (c - 'A') as nat + 10
  }

  /** The digits `Number.prototype.toString(16)` writes: lower case. */
  const HexDigits: string := "0123456789abcdef"

  lemma DigitOfHex(k: nat)
    requires k < 16
    ensures IsHexDigit(HexDigits[k]) && DigitValue(HexDigits[k]) == k
  {
  }

  lemma HexOfDigit(c: char)
    requires IsHexDigit(c) && !('A' <= c <= 'F')
    ensures HexDigits[DigitValue(c)] == c
  {
  }

  /** `n.toString(16).padStart(2, '0')` for a channel value. */
  function Hex2(n: nat): (r: string)
    requires n < 256
    ensures |r| == 2 && IsHexDigit(r[0]) && IsHexDigit(r[1])
    ensures 16 * DigitValue(r[0]) + DigitValue(r[1]) == n
  {
    DigitOfHex(n / 16);
    DigitOfHex(n % 16);
    [HexDigits[n / 16], HexDigits[n % 16]]
  }

  /** The value of two hex digits. */
  function Parse2(a: char, b: char): (r: nat)
    requires IsHexDigit(a) && IsHexDigit(b)
    ensures r < 256
  {
    16 * DigitValue(a) + DigitValue(b)
  }

  datatype Rgb = Rgb(r: int, g: int, b: int)

  /** Six hex digits, then anything. */
  predicate HexDigits6(h: string)
  {
    |h| >= 6 && forall i | 0 <= i < 6 :: IsHexDigit(h[i])
  }

  /** At least six hex digits once the first `#` is dropped. */
  predicate IsHexColor(hex: string)
  {
    HexDigits6(RemoveFirst(hex, '#'))
  }

  /** The three two-digit fields at the front of `h`. */
  function Fields(h: string): (c: Rgb)
    requires HexDigits6(h)
    ensures 0 <= c.r < 256 && 0 <= c.g < 256 && 0 <= c.b < 256
  {
    Rgb(Parse2(h[0], h[1]), Parse2(h[2], h[3]), Parse2(h[4], h[5]))
  }

  /** Parses three two-digit fields after the first `#` is dropped. */
  function HexToRgb(hex: string): (c: Rgb)
    requires IsHexColor(hex)
    ensures 0 <= c.r < 256 && 0 <= c.g < 256 && 0 <= c.b < 256
  {
    Fields(RemoveFirst(hex, '#'))
  }

  /** With or without a leading `#`, the colour reads the same. */
  lemma HashIsOptional(s: string)
    requires '#' !in s && IsHexColor(s)
    ensures IsHexColor("#" + s) && HexToRgb("#" + s) == HexToRgb(s)
  {
    RemoveLeadingHash(s);
  }

  /** `Math.round`. */
  function Round(x: real): int
  {
    (x + 0.5).Floor
  }

  function Clamp(lo: int, hi: int, n: int): (r: int)
    requires lo <= hi
    ensures lo <= r <= hi
    ensures lo <= n <= hi ==> r == n
    ensures n < lo ==> r == lo
    ensures n > hi ==> r == hi
  {
    if n < lo then lo else if n > hi then hi else n
  }

  /** One channel of `rgbToHex`: rounded, then clamped to 0..255. */
  function Channel(x: real): (r: nat)
    ensures r < 256
  {
    Clamp(0, 255, Round(x))
  }

  /** Whole channel values pass through unchanged; out-of-range values stick
      to the nearest end. */
  lemma ChannelBounds(x: real)
    ensures 0.0 <= x <= 255.0 && x == x.Floor as real ==> Channel(x) == x.Floor
    ensures x < -0.5 ==> Channel(x) == 0
    ensures x >= 254.5 ==> Channel(x) == 255
    ensures -0.5 <= x < 254.5 ==> x - 0.5 < Channel(x) as real <= x + 0.5
  {
  }

  lemma WholeChannel(n: int)
    requires 0 <= n < 256
    ensures Channel(n as real) == n
  {
    assert (n as real + 0.5).Floor == n;
  }

  function RgbToHex(r: real, g: real, b: real): (s: string)
    ensures |s| == 7 && s[0] == '#'
  {
    "#" + Hex2(Channel(r)) + Hex2(Channel(g)) + Hex2(Channel(b))
  }

  /** Three formatted channels read back as those channels. */
  lemma FieldsOfHex(x: nat, y: nat, z: nat)
    requires x < 256 && y < 256 && z < 256
    ensures HexDigits6(Hex2(x) + Hex2(y) + Hex2(z))
    ensures Fields(Hex2(x) + Hex2(y) + Hex2(z)) == Rgb(x, y, z)
  {
    var h := Hex2(x) + Hex2(y) + Hex2(z);
    assert h[0] == Hex2(x)[0] && h[1] == Hex2(x)[1];
    assert h[2] == Hex2(y)[0] && h[3] == Hex2(y)[1];
    assert h[4] == Hex2(z)[0] && h[5] == Hex2(z)[1];
  }

  /** Any three numbers format as a colour that reads back as their rounded,
      clamped channels. */
  lemma RgbToHexReadsBack(r: real, g: real, b: real)
    ensures IsHexColor(RgbToHex(r, g, b))
    ensures HexToRgb(RgbToHex(r, g, b)) == Rgb(Channel(r), Channel(g), Channel(b))
  {
    var body := Hex2(Channel(r)) + Hex2(Channel(g)) + Hex2(Channel(b));
    assert RgbToHex(r, g, b) == "#" + body;
    RemoveLeadingHash(body);
    FieldsOfHex(Channel(r), Channel(g), Channel(b));
  }

  /** Formatting and then parsing whole channels in range gives them back. */
  lemma RgbRoundTrip(r: int, g: int, b: int)
    requires 0 <= r < 256 && 0 <= g < 256 && 0 <= b < 256
    ensures IsHexColor(RgbToHex(r as real, g as real, b as real))
    ensures HexToRgb(RgbToHex(r as real, g as real, b as real)) == Rgb(r, g, b)
  {
    WholeChannel(r);
    WholeChannel(g);
    WholeChannel(b);
    var body := Hex2(r) + Hex2(g) + Hex2(b);
    assert RgbToHex(r as real, g as real, b as real) == "#" + body;
    RemoveLeadingHash(body);
    FieldsOfHex(r, g, b);
  }

  /** Two lower-case digits are what formatting their value writes. */
  lemma Hex2OfParse(a: char, b: char)
    requires IsHexDigit(a) && !('A' <= a <= 'F') && IsHexDigit(b) && !('A' <= b <= 'F')
    ensures Hex2(Parse2(a, b)) == [a, b]
  {
    var n := Parse2(a, b);
    DivMod16(DigitValue(a), DigitValue(b));
    assert n / 16 == DigitValue(a) && n % 16 == DigitValue(b);
    HexOfDigit(a);
    HexOfDigit(b);
  }

  lemma DivMod16(x: nat, y: nat)
    requires y < 16
    ensures (16 * x + y) / 16 == x && (16 * x + y) % 16 == y
  {
  }

  /** Parsing six lower-case digits and formatting the result writes them back
      behind a `#`. */
  lemma HexRoundTrip(s: string)
    requires |s| == 6 && '#' !in s
    requires forall i | 0 <= i < 6 :: IsHexDigit(s[i]) && !('A' <= s[i] <= 'F')
    ensures IsHexColor(s)
    ensures var c := HexToRgb(s); RgbToHex(c.r as real, c.g as real, c.b as real) == "#" + s
  {
    var c := Fields(s);
    assert HexToRgb(s) == c;
    WholeChannel(c.r);
    WholeChannel(c.g);
    WholeChannel(c.b);
    Hex2OfParse(s[0], s[1]);
    Hex2OfParse(s[2], s[3]);
    Hex2OfParse(s[4], s[5]);
    SixChars(s);
  }

  lemma SixChars(s: string)
    requires |s| == 6
    ensures s == [s[0], s[1]] + [s[2], s[3]] + [s[4], s[5]]
  {
  }

  /** The alpha byte of an opacity: clamped to [0, 1], scaled to 255, rounded. */
  function AlphaByte(opacity: real): (r: nat)
    ensures r < 256
    ensures opacity <= 0.0 ==> r == 0
    ensures opacity >= 1.0 ==> r == 255
    ensures 0.0 <= opacity <= 1.0 ==> opacity * 255.0 - 0.5 < r as real <= opacity * 255.0 + 0.5
  {
    var o := if opacity < 0.0 then 0.0 else if opacity > 1.0 then 1.0 else opacity;
    Round(o * 255.0)
  }

  /** The colour without its first `#`, behind a `#`, followed by two alpha digits. */
  function WithOpacity(color: string, opacity: real): (s: string)
    ensures |s| == |RemoveFirst(color, '#')| + 3
    ensures s[..|s| - 2] == "#" + RemoveFirst(color, '#')
  {
    "#" + RemoveFirst(color, '#') + Hex2(AlphaByte(opacity))
  }

  /** The last two characters are hex digits that read back as the alpha byte. */
  lemma AlphaSuffix(color: string, opacity: real)
    ensures var s := WithOpacity(color, opacity);
      IsHexDigit(s[|s| - 2]) && IsHexDigit(s[|s| - 1]) && Parse2(s[|s| - 2], s[|s| - 1]) == AlphaByte(opacity)
  {
    var s := WithOpacity(color, opacity);
    var a := Hex2(AlphaByte(opacity));
    assert s[|s| - 2] == a[0] && s[|s| - 1] == a[1];
  }

  /** With or without a leading `#`, the result is the same. */
  lemma OpacityHashIsOptional(s: string, opacity: real)
    requires '#' !in s
    ensures WithOpacity("#" + s, opacity) == WithOpacity(s, opacity)
  {
    RemoveLeadingHash(s);
  }

  /** Opacities at or below 0 give alpha `00`, at or above 1 give `ff`. */
  lemma OpacityIsClamped(color: string, opacity: real)
    ensures opacity <= 0.0 ==> WithOpacity(color, opacity) == "#" + RemoveFirst(color, '#') + "00"
    ensures opacity >= 1.0 ==> WithOpacity(color, opacity) == "#" + RemoveFirst(color, '#') + "ff"
  {
  }

  datatype State = Hover | Focus | Press | Drag

  /** The state-layer opacity table. */
  function StateOpacity(s: State): real
  {
    match s
    case Hover => 0.08
    case Focus => 0.12
    case Press => 0.12
    case Drag => 0.16
  }

  function ApplyStateLayer(color: string, s: State): string
  {
    WithOpacity(color, StateOpacity(s))
  }

  /** The alpha suffix of each state: 8% is `14`, 12% is `1f`, 16% is `29`. */
  function StateAlpha(s: State): string
  {
    match s
    case Hover => "14"
    case Focus => "1f"
    case Press => "1f"
    case Drag => "29"
  }

  lemma StateLayerSuffix(color: string, s: State)
    ensures ApplyStateLayer(color, s) == "#" + RemoveFirst(color, '#') + StateAlpha(s)
    ensures AlphaByte(StateOpacity(s)) == Parse2(StateAlpha(s)[0], StateAlpha(s)[1])
  {
    StateAlphaDigits(s);
  }

  /** Each state's opacity formats to exactly its two alpha digits. */
  lemma StateAlphaDigits(s: State)
    ensures Hex2(AlphaByte(StateOpacity(s))) == StateAlpha(s)
    ensures AlphaByte(StateOpacity(s)) == Parse2(StateAlpha(s)[0], StateAlpha(s)[1])
  {
    match s
    case Hover => assert AlphaByte(0.08) == 20;
    case Focus => assert AlphaByte(0.12) == 31;
    case Press => assert AlphaByte(0.12) == 31;
    case Drag => assert AlphaByte(0.16) == 41;
  }

  predicate StartsWithDashes(v: string)
  {
    |v| >= 2 && v[0] == '-' && v[1] == '-'
  }

  /** The CSS variable name for `getColorValue`: `--` is added unless present. */
  function VariableName(v: string): (r: string)
    ensures StartsWithDashes(r)
    ensures StartsWithDashes(v) ==> r == v
    ensures !StartsWithDashes(v) ==> r == "--" + v
  {
    if StartsWithDashes(v) then v else "--" + v
  }

  lemma VariableNameIdempotent(v: string)
    ensures VariableName(VariableName(v)) == VariableName(v)
  {
  }

  /** The trimmed computed value of a custom property, read from the element
      the page supplies; it is a parameter of this model. */
  function ColorValue(computed: string -> string, v: string): string
  {
    computed(VariableName(v))
  }

  /** The 24 colour roles a caller may ask for. */
  const Roles: seq<string> := [
    "primary", "on-primary", "primary-container", "on-primary-container",
    "secondary", "on-secondary", "secondary-container", "on-secondary-container",
    "tertiary", "on-tertiary", "tertiary-container", "on-tertiary-container",
    "error", "on-error", "error-container", "on-error-container",
    "surface", "on-surface", "surface-variant", "on-surface-variant",
    "outline", "outline-variant", "background", "on-background"]

  function MD3Color(computed: string -> string, role: string): string
    requires role in Roles
  {
    ColorValue(computed, "--md-sys-color-" + role)
  }

  /** A role's value is read from exactly `--md-sys-color-<role>`. */
  lemma MD3ColorVariable(computed: string -> string, role: string)
    requires role in Roles
    ensures MD3Color(computed, role) == computed("--md-sys-color-" + role)
  {
    assert ("--md-sys-color-" + role)[..2] == "--";
  }
}
