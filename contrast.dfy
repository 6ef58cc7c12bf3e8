/** The `check_contrast` tool: the contrast ratio of two colours, the WCAG
    2.1 level AA verdicts for it, and the report the tool returns. */
module Contrast {
  import opened Wrappers
  import opened JsString
  import opened Colour

  /** Relative luminance, left abstract: a non-negative real computed from
      the three channels (the sRGB linearisation is floating point). */
  type Luminance = l: real | 0.0 <= l

  /** `relativeLuminance` of a normalised colour string: NaN (`None`) as
      soon as one channel fails to parse. */
  function ColourLuminance(hex: string, lum: Rgb -> Luminance): (l: Option<Luminance>)
    ensures l.Some? <==> DecodeChannels(hex).Some?
  {
    match DecodeChannels(hex)
    case Some(c) => Some(lum(c))
    case None => None
  }

  function Max(a: real, b: real): real { if a >= b then a else b }
  function Min(a: real, b: real): real { if a >= b then b else a }

  /** `contrastRatio`: (lighter + 0.05) / (darker + 0.05), NaN if either
      luminance is NaN. The ratio is at least 1, and exactly 1 only for
      equal luminances. */
  function ContrastRatio(l1: Option<Luminance>, l2: Option<Luminance>): (r: Option<real>)
    ensures r.Some? <==> l1.Some? && l2.Some?
    ensures r.Some? ==> r.value >= 1.0
    ensures r.Some? ==> (r.value == 1.0 <==> l1.value == l2.value)
  {
    if l1.Some? && l2.Some? then
      var lighter := Max(l1.value, l2.value);
      var darker := Min(l1.value, l2.value);
      var ratio := (lighter + 0.05) / (darker + 0.05);
      assert ratio * (darker + 0.05) == lighter + 0.05;
      Some(ratio)
    else
      None
  }

  /** The order of the two colours does not matter. */
  lemma ContrastRatioSymmetric(l1: Option<Luminance>, l2: Option<Luminance>)
    ensures ContrastRatio(l1, l2) == ContrastRatio(l2, l1)
  {
  }

  lemma QuotientAtMost(x: real, y: real, k: real)
    requires y > 0.0 && x <= k * y
    ensures x / y <= k
  {
    assert x / y * y == x;
  }

  /** With luminances in [0, 1], as sRGB colours have, the ratio is at most
      21 (black on white). */
  lemma {:induction false} ContrastRatioAtMost21(l1: Luminance, l2: Luminance)
    requires l1 <= 1.0 && l2 <= 1.0
    ensures ContrastRatio(Some(l1), Some(l2)).value <= 21.0
    ensures l1 == 0.0 && l2 == 1.0 ==> ContrastRatio(Some(l1), Some(l2)).value == 21.0
  {
    var lighter := Max(l1, l2);
    var darker := Min(l1, l2);
    var ratio := ContrastRatio(Some(l1), Some(l2)).value;
    assert ratio * (darker + 0.05) == lighter + 0.05;
    QuotientAtMost(lighter + 0.05, darker + 0.05, 21.0);
  }

  /** Success Criterion 1.4.3 of WCAG 2.1: 4.5:1 for normal text, 3:1 for
      large text; Success Criterion 1.4.11: 3:1 for user-interface
      components. */
  const NormalTextMinimum: real := 4.5
  const LargeTextMinimum: real := 3.0
  const UiComponentMinimum: real := 3.0

  datatype Verdict = Pass | Fail

  datatype Verdicts = Verdicts(normalText: Verdict, largeText: Verdict, uiComponent: Verdict)

  /** `ratio >= minimum ? "PASS" : "FAIL"`; every comparison with NaN is
      false. */
  function AtLeast(ratio: Option<real>, minimum: real): (v: Verdict)
    ensures v == Pass <==> ratio.Some? && ratio.value >= minimum
  {
    if ratio.Some? && ratio.value >= minimum then Pass else Fail
  }

  /** The three verdicts: large text and UI components always agree, and
      passing for normal text implies passing for large text. */
  function Classify(ratio: Option<real>): (v: Verdicts)
    ensures v.normalText == Pass <==> ratio.Some? && ratio.value >= NormalTextMinimum
    ensures v.largeText == Pass <==> ratio.Some? && ratio.value >= LargeTextMinimum
    ensures v.uiComponent == v.largeText
    ensures v.normalText == Pass ==> v.largeText == Pass
  {
    Verdicts(
      AtLeast(ratio, NormalTextMinimum),
      AtLeast(ratio, LargeTextMinimum),
      AtLeast(ratio, UiComponentMinimum))
  }

  function VerdictText(v: Verdict): string {
    match v
    case Pass => "PASS"
    case Fail => "FAIL"
  }

  const SufficientForLarge := "only sufficient for large text and UI components"
  const InsufficientForAll := "insufficient for all WCAG AA levels"
  const NeededLine := "To pass normal text AA, you need a ratio of at least 4.5:1."

  /** The lines of the report, each with its placeholders filled in. */
  function RatioLine(shown: string): string {
    "Contrast Ratio: " + shown + ":1"
  }

  function NormalTextLine(v: Verdict): string {
    "  Normal text (4.5:1 required): " + VerdictText(v)
  }

  function LargeTextLine(v: Verdict): string {
    "  Large text (3:1 required):    " + VerdictText(v)
  }

  function UiComponentLine(v: Verdict): string {
    "  UI components (3:1 required): " + VerdictText(v)
  }

  function ColoursLine(fg: string, bg: string): string {
    "Colors: " + fg + " on " + bg
  }

  function CurrentRatioLine(shown: string, standing: string): string {
    "Current ratio " + shown + ":1 is " + standing + "."
  }

  /** The report of the tool for colours `fg` and `bg` whose ratio is
      `ratio`, displayed as `shown`: the summary lines and, when normal text
      fails, the remediation lines, joined with newlines. */
  method Report(fg: string, bg: string, ratio: Option<real>, shown: string)
    returns (lines: seq<string>, text: string)
    ensures var v := Classify(ratio);
      && |lines| == (if v.normalText == Pass then 8 else 11)
      && lines[0] == RatioLine(shown)
      && lines[3] == NormalTextLine(v.normalText)
      && lines[4] == LargeTextLine(v.largeText)
      && lines[5] == UiComponentLine(v.uiComponent)
      && lines[7] == ColoursLine(fg, bg)
      && (v.normalText == Fail ==>
            && lines[9] == NeededLine
            && lines[10] == CurrentRatioLine(shown, if v.largeText == Pass then SufficientForLarge else InsufficientForAll))
    ensures lines[1] == lines[6] == "" && lines[2] == "WCAG AA Results:"
    ensures |lines| == 11 ==> lines[8] == ""
    ensures text == Join(lines, "\n")
  {
    var normalText := AtLeast(ratio, NormalTextMinimum);
    var largeText := AtLeast(ratio, LargeTextMinimum);
    var uiComponent := AtLeast(ratio, UiComponentMinimum);

    lines := [
      RatioLine(shown),
      "",
      "WCAG AA Results:",
      NormalTextLine(normalText),
      LargeTextLine(largeText),
      UiComponentLine(uiComponent),
      "",
      ColoursLine(fg, bg)
    ];

    ghost var summary := lines;
    if normalText == Fail {
      lines := lines + [""];
      lines := lines + [NeededLine];
      var standing := if ratio.Some? && ratio.value >= 3.0 then SufficientForLarge else InsufficientForAll;
      lines := lines + [CurrentRatioLine(shown, standing)];
      assert lines == summary + ["", NeededLine, CurrentRatioLine(shown, standing)];
    }
    text := Join(lines, "\n");
  }

  /** The handler of the tool: normalise both colours, compute their
      ratio and report on it. `render` stands for the rounding to two
      decimals and the number-to-string conversion. */
  method CheckContrast(foreground: string, background: string,
                       lum: Rgb -> Luminance, render: Option<real> -> string)
    returns (lines: seq<string>, text: string)
    ensures var fg, bg := Expand(foreground), Expand(background);
      var ratio := ContrastRatio(ColourLuminance(fg, lum), ColourLuminance(bg, lum));
      var v := Classify(ratio);
      var shown := render(ratio);
      && |lines| == (if v.normalText == Pass then 8 else 11)
      && lines[0] == RatioLine(shown)
      && lines[3] == NormalTextLine(v.normalText)
      && lines[4] == LargeTextLine(v.largeText)
      && lines[5] == UiComponentLine(v.uiComponent)
      && lines[7] == ColoursLine(fg, bg)
      && (v.normalText == Fail ==>
            && lines[9] == NeededLine
            && lines[10] == CurrentRatioLine(shown, if v.largeText == Pass then SufficientForLarge else InsufficientForAll))
    ensures lines[1] == lines[6] == "" && lines[2] == "WCAG AA Results:"
    ensures |lines| == 11 ==> lines[8] == ""
    ensures text == Join(lines, "\n")
  {
    var fg := Expand(foreground);
    var bg := Expand(background);
    var ratio := ContrastRatio(ColourLuminance(fg, lum), ColourLuminance(bg, lum));
    lines, text := Report(fg, bg, ratio, render(ratio));
  }

  /** Two inputs that expand to the same colour, such as `#FFF` and
      `#ffffff`, fail every level: their ratio is that of a colour against
      itself. */
  lemma {:induction false} SameColourFailsAll(foreground: string, background: string, lum: Rgb -> Luminance)
    requires Expand(foreground) == Expand(background)
    ensures Classify(ContrastRatio(ColourLuminance(Expand(foreground), lum),
                                   ColourLuminance(Expand(background), lum)))
            == Verdicts(Fail, Fail, Fail)
  {
    SameColourRatio(foreground, lum);
  }

  /** A colour against itself has ratio 1, or NaN when it is unreadable. */
  lemma SameColourRatio(colour: string, lum: Rgb -> Luminance)
    ensures var l := ColourLuminance(Expand(colour), lum);
            ContrastRatio(l, l).None? || ContrastRatio(l, l).value == 1.0
  {
    var l := ColourLuminance(Expand(colour), lum);
    var r := ContrastRatio(l, l);
    assert r.Some? ==> r.value == 1.0;
  }

  /** The shorthand of a colour against its six-digit spelling fails every
      level, whatever the digits. */
  lemma {:induction false} ShorthandAgainstLongFormFailsAll(d: string, lum: Rgb -> Luminance)
    requires |d| == 3
    ensures Classify(ContrastRatio(ColourLuminance(Expand("#" + d), lum),
                                   ColourLuminance(Expand("#" + Widen(d)), lum)))
            == Verdicts(Fail, Fail, Fail)
  {
    ShorthandMatchesLongForm(d);
    SameColourFailsAll("#" + d, "#" + Widen(d), lum);
  }

  /** A colour whose red channel is written `0x` has no luminance, so
      against any background it fails every level. */
  lemma {:induction false} RadixPrefixColourFailsAll(background: string, lum: Rgb -> Luminance)
    ensures Classify(ContrastRatio(ColourLuminance(Expand("#0x0000"), lum),
                                   ColourLuminance(Expand(background), lum)))
            == Verdicts(Fail, Fail, Fail)
  {
    var rest := "0x0000";
    assert "#" + rest == "#0x0000";
    ExpandKeeps(rest);
    RadixPrefixChannel();
  }
}
