/** Colour input of the `check_contrast` tool: normalising what the user
    typed (`expand`) and reading the three channels back out of the
    normalised string (the `parseInt` calls of `relativeLuminance`). */
module Colour {
  import opened Wrappers
  import opened JsString

  /** A three-digit shorthand colour with each digit written twice. */
  function Widen(d: string): (w: string)
    requires |d| == 3
    ensures |w| == 6
  {
    [d[0], d[0], d[1], d[1], d[2], d[2]]
  }

  /** `expand`: remove the first `#` wherever it is, widen a three-character
      remainder to six, lower-case, and put one `#` in front. */
  function Expand(h: string): (r: string)
    ensures |r| >= 1 && r[0] == '#'
  {
    var d := RemoveFirst(h, '#');
    "#" + ToLower(if |d| == 3 then Widen(d) else d)
  }

  /** What `expand` returns is a `#` followed by no upper-case letter. */
  lemma {:induction false} ExpandLowerCases(h: string)
    ensures var r := Expand(h); forall k | 1 <= k < |r| :: !IsAsciiUpper(r[k])
  {
    var d := RemoveFirst(h, '#');
    var t := ToLower(if |d| == 3 then Widen(d) else d);
    assert Expand(h) == "#" + t;
    HashThenLower(t);
  }

  lemma HashThenLower(t: string)
    requires forall k | 0 <= k < |t| :: !IsAsciiUpper(t[k])
    ensures forall k | 1 <= k < |"#" + t| :: !IsAsciiUpper(("#" + t)[k])
  {
    forall k | 1 <= k < |"#" + t|
      ensures !IsAsciiUpper(("#" + t)[k])
    {
      assert ("#" + t)[k] == t[k - 1];
    }
  }

  /** Once the first `#` is gone, a three-character remainder becomes seven
      characters with every digit doubled and lower-cased. */
  lemma {:induction false} ExpandShorthand(h: string)
    requires |RemoveFirst(h, '#')| == 3
    ensures var r := Expand(h); var d := RemoveFirst(h, '#');
      |r| == 7 && forall i | 0 <= i < 3 :: r[2 * i + 1] == r[2 * i + 2] == LowerChar(d[i])
  {
    var d := RemoveFirst(h, '#');
    assert Expand(h) == "#" + ToLower(Widen(d));
  }

  /** Any other remainder passes through lower-cased and unchecked. */
  lemma {:induction false} ExpandOtherLengths(h: string)
    requires |RemoveFirst(h, '#')| != 3
    ensures Expand(h)[1..] == ToLower(RemoveFirst(h, '#'))
  {
    var d := RemoveFirst(h, '#');
    assert Expand(h) == "#" + ToLower(d);
  }

  /** Removing the first `#` from a string that starts with one leaves the
      rest, even when the rest holds more `#`s. */
  lemma RemoveLeadingHash(x: string)
    ensures RemoveFirst("#" + x, '#') == x
  {
    assert IndexOf("#" + x, '#') == 0;
    assert ("#" + x)[1..] == x;
  }

  lemma ToLowerKeeps(s: string)
    requires forall k | 0 <= k < |s| :: !IsAsciiUpper(s[k])
    ensures ToLower(s) == s
  {
  }

  /** Expanding an expanded colour changes nothing. */
  lemma {:induction false} ExpandIdempotent(h: string)
    ensures Expand(Expand(h)) == Expand(h)
  {
    var d := RemoveFirst(h, '#');
    var t := ToLower(if |d| == 3 then Widen(d) else d);
    assert Expand(h) == "#" + t;
    ExpandKeeps(t);
  }

  /** A `#` followed by anything other than three characters, with no
      upper-case letter, is left as it is. */
  lemma {:induction false} ExpandKeeps(x: string)
    requires |x| != 3 && forall k | 0 <= k < |x| :: !IsAsciiUpper(x[k])
    ensures Expand("#" + x) == "#" + x
  {
    RemoveLeadingHash(x);
    ToLowerKeeps(x);
  }

  /** The shorthand and the six-digit form it stands for expand alike. */
  lemma {:induction false} ShorthandMatchesLongForm(d: string)
    requires |d| == 3
    ensures Expand("#" + d) == Expand("#" + Widen(d))
  {
    RemoveLeadingHash(d);
    RemoveLeadingHash(Widen(d));
  }

  /** Only the first `#` is taken off: `"##abc"` is not a shorthand. */
  lemma DoubleHashIsNotShorthand()
    ensures Expand("##abc") == "##abc"
  {
    var x := "#abc";
    assert "#" + x == "##abc";
    ExpandKeeps(x);
  }

  /** A `#` and any three characters expand to each character
      lower-cased and written twice. */
  lemma {:induction false} HashShorthand(d: string)
    requires |d| == 3
    ensures Expand("#" + d) == ['#', LowerChar(d[0]), LowerChar(d[0]), LowerChar(d[1]),
                                LowerChar(d[1]), LowerChar(d[2]), LowerChar(d[2])]
  {
    RemoveLeadingHash(d);
    WidenedRemainder("#" + d, d);
  }

  /** The same, for any input whose remainder after the first `#` is `d`. */
  lemma {:induction false} WidenedRemainder(h: string, d: string)
    requires RemoveFirst(h, '#') == d && |d| == 3
    ensures Expand(h) == ['#', LowerChar(d[0]), LowerChar(d[0]), LowerChar(d[1]),
                          LowerChar(d[1]), LowerChar(d[2]), LowerChar(d[2])]
  {
    var t := ToLower(Widen(d));
    assert Expand(h) == "#" + t;
    LowerWiden(d);
    var a, b, c := LowerChar(d[0]), LowerChar(d[1]), LowerChar(d[2]);
    assert "#" + [a, a, b, b, c, c] == ['#', a, a, b, b, c, c];
  }

  lemma LowerWiden(d: string)
    requires |d| == 3
    ensures ToLower(Widen(d)) == [LowerChar(d[0]), LowerChar(d[0]), LowerChar(d[1]),
                                  LowerChar(d[1]), LowerChar(d[2]), LowerChar(d[2])]
  {
  }

  /** Shorthand digits are lower-cased as they are doubled. */
  lemma MixedCaseShorthand()
    ensures Expand("#FfF") == "#ffffff"
  {
    var d := "FfF";
    assert "#" + d == "#FfF";
    HashShorthand(d);
    assert LowerChar(d[0]) == 'f' && LowerChar(d[1]) == 'f' && LowerChar(d[2]) == 'f';
  }

  predicate IsHexDigit(c: char) {
    '0' <= c <= '9' || 'a' <= c <= 'f' || 'A' <= c <= 'F'
  }

  function DigitValue(c: char): (v: nat)
    requires IsHexDigit(c)
    ensures v < 16
  {
    if '0' <= c <= '9' then c as int - '0' as int
    else if 'a' <= c <= 'f' then c as int - 'a' as int + 10
    else c as int - 'A' as int + 10
  }

  /** Lower-casing a hex digit keeps it a hex digit of the same value. */
  lemma LowerDigit(c: char)
    requires IsHexDigit(c)
    ensures IsHexDigit(LowerChar(c)) && DigitValue(LowerChar(c)) == DigitValue(c)
  {
  }

  /** Number of hex digits at the start of `s`. */
  function HexPrefix(s: string): (n: nat)
    ensures n <= |s|
    ensures forall k | 0 <= k < n :: IsHexDigit(s[k])
    ensures n < |s| ==> !IsHexDigit(s[n])
  {
    if s == [] || !IsHexDigit(s[0]) then 0 else 1 + HexPrefix(s[1..])
  }

  function Pow16(n: nat): (p: nat)
    ensures p >= 1
  {
    if n == 0 then 1 else 16 * Pow16(n - 1)
  }

  /** The number the hex digits `d` spell, most significant first. */
  function HexValue(d: string): (v: nat)
    requires forall k | 0 <= k < |d| :: IsHexDigit(d[k])
    ensures v < Pow16(|d|)
  {
    if d == [] then 0 else 16 * HexValue(d[..|d| - 1]) + DigitValue(d[|d| - 1])
  }

  /** With radix 16, `parseInt` skips a leading `0x` or `0X`. */
  predicate RadixPrefix(s: string) {
    |s| >= 2 && s[0] == '0' && (s[1] == 'x' || s[1] == 'X')
  }

  /** `parseInt(s, 16)`: skip a `0x` or `0X` prefix, then read the leading
      run of hex digits; NaN (`None`) when that run is empty. */
  function ParseHex(s: string): (r: Option<nat>)
    ensures !RadixPrefix(s) ==> (r.None? <==> s == [] || !IsHexDigit(s[0]))
    ensures RadixPrefix(s) ==> (r.None? <==> |s| == 2 || !IsHexDigit(s[2]))
    ensures r.Some? ==> r.value < Pow16(HexPrefix(if RadixPrefix(s) then s[2..] else s))
  {
    var digits := if RadixPrefix(s) then s[2..] else s;
    var n := HexPrefix(digits);
    if n == 0 then None else Some(HexValue(digits[..n]))
  }

  /** `0x` alone is no number, though `0` is a hex digit. */
  lemma RadixPrefixAlone()
    ensures ParseHex("0x") == None && ParseHex("0X") == None
  {
    assert RadixPrefix("0x") && RadixPrefix("0X");
  }

  datatype Rgb = Rgb(red: nat, green: nat, blue: nat)

  predicate IsByte(v: nat) {
    v < 256
  }

  /** A channel slice starting at `k` parses: it starts with a hex digit
      that is not the `0` of a `0x` or `0X` prefix. */
  predicate ChannelAt(hex: string, k: nat)
    requires k < |hex|
  {
    IsHexDigit(hex[k]) && !(k + 1 < |hex| && hex[k] == '0' && (hex[k + 1] == 'x' || hex[k + 1] == 'X'))
  }

  /** The channel parses of `relativeLuminance`: characters 1-2, 3-4 and 5-6.
      Any NaN channel makes the colour unreadable (`None`). */
  function DecodeChannels(hex: string): (c: Option<Rgb>)
    ensures c.Some? ==> IsByte(c.value.red) && IsByte(c.value.green) && IsByte(c.value.blue)
    ensures c.Some? <==> 6 <= |hex| && ChannelAt(hex, 1) && ChannelAt(hex, 3) && ChannelAt(hex, 5)
  {
    SlicesParse(hex);
    var r, g, b := ParseHex(Slice(hex, 1, 3)), ParseHex(Slice(hex, 3, 5)), ParseHex(Slice(hex, 5, 7));
    if r.Some? && g.Some? && b.Some? then Some(Rgb(r.value, g.value, b.value)) else None
  }

  /** The slice of at most two characters at `k` parses exactly when a
      channel starts there, and then to a byte. */
  lemma ChannelParse(hex: string, k: nat)
    ensures var p := ParseHex(Slice(hex, k, k + 2));
      && (p.Some? <==> k < |hex| && ChannelAt(hex, k))
      && (p.Some? ==> p.value < 256)
  {
    assert Pow16(0) == 1 && Pow16(1) == 16 && Pow16(2) == 256;
  }

  lemma SlicesParse(hex: string)
    ensures var r, g, b := ParseHex(Slice(hex, 1, 3)), ParseHex(Slice(hex, 3, 5)), ParseHex(Slice(hex, 5, 7));
      && (r.Some? && g.Some? && b.Some? <==> 6 <= |hex| && ChannelAt(hex, 1) && ChannelAt(hex, 3) && ChannelAt(hex, 5))
      && (r.Some? ==> r.value < 256) && (g.Some? ==> g.value < 256) && (b.Some? ==> b.value < 256)
  {
    ChannelParse(hex, 1);
    ChannelParse(hex, 3);
    ChannelParse(hex, 5);
  }

  /** A channel written `0x` is NaN, so the colour is unreadable. */
  lemma RadixPrefixChannel()
    ensures DecodeChannels("#0x0000") == None
  {
    assert !ChannelAt("#0x0000", 1);
  }

  /** Two hex digits read as 16 * high + low. */
  lemma TwoDigits(s: string)
    requires |s| == 2 && IsHexDigit(s[0]) && IsHexDigit(s[1])
    ensures ParseHex(s) == Some(16 * DigitValue(s[0]) + DigitValue(s[1]))
  {
    assert !RadixPrefix(s);
    assert s[1..][1..] == [];
    assert HexPrefix(s[1..]) == 1;
    assert HexPrefix(s) == 2;
    assert s[..2] == s && s[..1] == [s[0]] && s[..1][..0] == [];
    assert HexValue(s[..1]) == DigitValue(s[0]);
  }

  predicate IsLongForm(hex: string) {
    && |hex| == 7 && hex[0] == '#'
    && IsHexDigit(hex[1]) && IsHexDigit(hex[2]) && IsHexDigit(hex[3])
    && IsHexDigit(hex[4]) && IsHexDigit(hex[5]) && IsHexDigit(hex[6])
  }

  /** A `#rrggbb` string decodes channel by channel from its digit pairs. */
  lemma {:induction false} LongFormChannels(hex: string)
    requires IsLongForm(hex)
    ensures DecodeChannels(hex) == Some(Rgb(
      16 * DigitValue(hex[1]) + DigitValue(hex[2]),
      16 * DigitValue(hex[3]) + DigitValue(hex[4]),
      16 * DigitValue(hex[5]) + DigitValue(hex[6])))
  {
    assert Slice(hex, 1, 3) == hex[1..3] && Slice(hex, 3, 5) == hex[3..5] && Slice(hex, 5, 7) == hex[5..7];
    TwoDigits(hex[1..3]);
    TwoDigits(hex[3..5]);
    TwoDigits(hex[5..7]);
  }

  /** A `#rrggbb` string whose digits come in equal pairs decodes to 17
      times each digit. */
  lemma {:induction false} DoubledChannels(e: string)
    requires IsLongForm(e) && e[1] == e[2] && e[3] == e[4] && e[5] == e[6]
    ensures DecodeChannels(e) == Some(Rgb(
      17 * DigitValue(e[1]), 17 * DigitValue(e[3]), 17 * DigitValue(e[5])))
  {
    LongFormChannels(e);
    var r, g, b := DigitValue(e[1]), DigitValue(e[3]), DigitValue(e[5]);
    assert Rgb(16 * r + r, 16 * g + g, 16 * b + b) == Rgb(17 * r, 17 * g, 17 * b);
  }

  /** A shorthand colour decodes to 17 times each digit. */
  lemma {:induction false} ShorthandChannels(d: string)
    requires |d| == 3 && forall k | 0 <= k < 3 :: IsHexDigit(d[k])
    ensures DecodeChannels(Expand("#" + d)) == Some(Rgb(
      17 * DigitValue(d[0]), 17 * DigitValue(d[1]), 17 * DigitValue(d[2])))
  {
    assert RemoveFirst("#" + d, '#') == d by { RemoveLeadingHash(d); }
    ExpandShorthand("#" + d);
    var e := Expand("#" + d);
    LowerDigit(d[0]);
    LowerDigit(d[1]);
    LowerDigit(d[2]);
    assert e[1] == e[2] == LowerChar(d[0]);
    assert e[3] == e[4] == LowerChar(d[1]);
    assert e[5] == e[6] == LowerChar(d[2]);
    assert IsLongForm(e);
    DoubledChannels(e);
  }

  /** The canonical `#rrggbb` spelling of a colour, the inverse of decoding. */
  function HexDigitChar(v: nat): (c: char)
    requires v < 16
    ensures IsHexDigit(c) && !IsAsciiUpper(c) && DigitValue(c) == v
  {
    "0123456789abcdef"[v]
  }

  /** The two lower-case hex digits of a channel, high digit first. */
  function ChannelDigits(v: nat): (p: (char, char))
    requires IsByte(v)
    ensures IsHexDigit(p.0) && IsHexDigit(p.1) && !IsAsciiUpper(p.0) && !IsAsciiUpper(p.1)
    ensures 16 * DigitValue(p.0) + DigitValue(p.1) == v
  {
    (HexDigitChar(v / 16), HexDigitChar(v % 16))
  }

  function FormatColour(c: Rgb): (s: string)
    requires IsByte(c.red) && IsByte(c.green) && IsByte(c.blue)
    ensures IsLongForm(s)
  {
    var r, g, b := ChannelDigits(c.red), ChannelDigits(c.green), ChannelDigits(c.blue);
    ['#', r.0, r.1, g.0, g.1, b.0, b.1]
  }

  /** Decoding undoes formatting. */
  lemma {:induction false} FormatRoundTrip(c: Rgb)
    requires IsByte(c.red) && IsByte(c.green) && IsByte(c.blue)
    ensures DecodeChannels(FormatColour(c)) == Some(c)
  {
    var s := FormatColour(c);
    var r, g, b := ChannelDigits(c.red), ChannelDigits(c.green), ChannelDigits(c.blue);
    assert s[1] == r.0 && s[2] == r.1 && s[3] == g.0 && s[4] == g.1 && s[5] == b.0 && s[6] == b.1;
    var decoded := Rgb(16 * DigitValue(s[1]) + DigitValue(s[2]),
                       16 * DigitValue(s[3]) + DigitValue(s[4]),
                       16 * DigitValue(s[5]) + DigitValue(s[6]));
    assert decoded == c;
    LongFormChannels(s);
  }

  /** A formatted colour is already in the form `expand` produces. */
  lemma {:induction false} FormatIsExpanded(c: Rgb)
    requires IsByte(c.red) && IsByte(c.green) && IsByte(c.blue)
    ensures Expand(FormatColour(c)) == FormatColour(c)
  {
    var s := FormatColour(c);
    var r, g, b := ChannelDigits(c.red), ChannelDigits(c.green), ChannelDigits(c.blue);
    var rest := [r.0, r.1, g.0, g.1, b.0, b.1];
    assert s == "#" + rest;
    ExpandKeeps(rest);
  }
}
