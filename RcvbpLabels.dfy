/** The human-readable views of a decoded `PanelConfig`: cascade direction,
    grayscale mode, scan rate and colour order. A code the tables do not
    know is shown as an explicit "Unknown (...)" or "Custom (...)" label
    that carries the raw value, so no two codes share a label. */
module RcvbpLabels {
  import opened Bytes
  import opened Text
  import opened ColorModel
  import opened Rcvbp

  const UnknownPrefix: string := "Unknown ("
  const CustomPrefix: string := "Custom ("

  predicate IsUnknown(s: string)
  {
    |s| >= |UnknownPrefix| && s[..|UnknownPrefix|] == UnknownPrefix
  }

  predicate IsCustom(s: string)
  {
    |s| >= |CustomPrefix| && s[..|CustomPrefix|] == CustomPrefix
  }

  /** `cascade_direction_str`. */
  function CascadeDirectionStr(c: PanelConfig): string
  {
    var n := c.cascadeDirection;
    if n == 0 then "Right \U{2192} Left"
    else if n == 1 then "Left \U{2192} Right"
    else if n == 2 then "Top \U{2192} Bottom"
    else if n == 3 then "Bottom \U{2192} Top"
    else UnknownPrefix + Decimal(n) + ")"
  }

  /** `grayscale_mode_str`: the unknown code in two or more upper-case hex digits. */
  function GrayscaleModeStr(c: PanelConfig): string
  {
    var n := c.grayscaleMode;
    if n == 0x07 then "Normal"
    else if n == 0x81 then "18bit+"
    else if n == 0x85 then "Infi-bit"
    else UnknownPrefix + "0x" + Hex(n, 2) + ")"
  }

  /** `scan_rate_str`. */
  function ScanRateStr(c: PanelConfig): string
  {
    "1:" + Decimal(c.scanMode) + " scan"
  }

  /** `pos_to_channel.get(p, '?')`: the channel an output position holds. */
  function ChannelChar(p: nat): char
  {
    if p == 0 then 'B' else if p == 1 then 'G' else if p == 2 then 'R' else '?'
  }

  /** `color_order_str`: six exchange triples have names, every other
      triple is spelled out position by position. */
  function ColorOrderStr(c: PanelConfig): string
  {
    var t := (c.colorExchangeR, c.colorExchangeG, c.colorExchangeB);
    if t == (2, 1, 0) then "RGB (default)"
    else if t == (0, 1, 2) then "BGR (R\U{2194}B swapped)"
    else if t == (1, 0, 2) then "GRB"
    else if t == (1, 2, 0) then "GBR"
    else if t == (2, 0, 1) then "RBG"
    else if t == (0, 2, 1) then "BRG"
    else
      var r, g, b := [ChannelChar(t.0)], [ChannelChar(t.1)], [ChannelChar(t.2)];
      CustomPrefix + "R\U{2192}" + r + ", G\U{2192}" + g + ", B\U{2192}" + b + ")"
  }

  /** The exchange triple of a configuration, as a position table. */
  function Exchange(c: PanelConfig): seq<nat>
  {
    [c.colorExchangeR, c.colorExchangeG, c.colorExchangeB]
  }

  /** Equal wrappings of two strings wrap equal strings. */
  lemma Unwrap(pre: string, x: string, y: string, post: string)
    requires pre + x + post == pre + y + post
    ensures x == y
  {
    var s := pre + x + post;
    assert |x| == |y|;
    assert x == s[|pre|..|pre| + |x|];
    assert y == (pre + y + post)[|pre|..|pre| + |y|];
  }

  /** The decimal spelling of a number tells the number. */
  lemma DecimalInjective(a: nat, b: nat)
    requires Decimal(a) == Decimal(b)
    ensures a == b
  {
    ToBaseRoundTrip(a, 10);
    ToBaseRoundTrip(b, 10);
  }

  /** The direction codes 0-3 have their own labels and every other code
      is shown as unknown; different codes never share a label. */
  lemma CascadeDirectionLabels(c: PanelConfig, d: PanelConfig)
    ensures IsUnknown(CascadeDirectionStr(c)) <==> c.cascadeDirection > 3
    ensures CascadeDirectionStr(c) == CascadeDirectionStr(d) ==> c.cascadeDirection == d.cascadeDirection
  {
    var s, t := CascadeDirectionStr(c), CascadeDirectionStr(d);
    if c.cascadeDirection > 3 {
      assert s[..|UnknownPrefix|] == UnknownPrefix;
    } else {
      assert s[0] != 'U';
    }
    if d.cascadeDirection > 3 {
      assert t[..|UnknownPrefix|] == UnknownPrefix;
    } else {
      assert t[0] != 'U';
    }
    if s == t && c.cascadeDirection > 3 && d.cascadeDirection > 3 {
      Unwrap(UnknownPrefix, Decimal(c.cascadeDirection), Decimal(d.cascadeDirection), ")");
      DecimalInjective(c.cascadeDirection, d.cascadeDirection);
    }
  }

  /** Modes 0x07, 0x81 and 0x85 have their own labels and every other mode
      is shown as unknown, with a hex spelling that reads back as the mode. */
  lemma GrayscaleModeLabels(c: PanelConfig, d: PanelConfig)
    ensures IsUnknown(GrayscaleModeStr(c)) <==> c.grayscaleMode !in {0x07, 0x81, 0x85}
    ensures IsUnknown(GrayscaleModeStr(c)) ==>
      var s := GrayscaleModeStr(c);
      |s| >= 14 && ValueOf(s[11..|s| - 1], 16) == c.grayscaleMode
    ensures GrayscaleModeStr(c) == GrayscaleModeStr(d) ==> c.grayscaleMode == d.grayscaleMode
  {
    var s, t := GrayscaleModeStr(c), GrayscaleModeStr(d);
    var m, n := c.grayscaleMode, d.grayscaleMode;
    if m !in {0x07, 0x81, 0x85} {
      assert s == UnknownPrefix + "0x" + Hex(m, 2) + ")";
      assert s[..|UnknownPrefix|] == UnknownPrefix;
      assert s[11..|s| - 1] == Hex(m, 2);
      HexRoundTrip(m, 2);
    } else {
      assert s[0] != 'U';
    }
    if n !in {0x07, 0x81, 0x85} {
      assert t[..|UnknownPrefix|] == UnknownPrefix;
    } else {
      assert t[0] != 'U';
    }
    if s == t && m !in {0x07, 0x81, 0x85} && n !in {0x07, 0x81, 0x85} {
      Unwrap(UnknownPrefix + "0x", Hex(m, 2), Hex(n, 2), ")");
      HexRoundTrip(m, 2);
      HexRoundTrip(n, 2);
    }
  }

  /** The scan-rate label spells the scan mode in decimal, so it tells it. */
  lemma ScanRateLabels(c: PanelConfig, d: PanelConfig)
    ensures var s := ScanRateStr(c);
      |s| >= 8 && s[..2] == "1:" && ValueOf(s[2..|s| - 5], 10) == c.scanMode
    ensures ScanRateStr(c) == ScanRateStr(d) ==> c.scanMode == d.scanMode
  {
    var s := ScanRateStr(c);
    assert s[2..|s| - 5] == Decimal(c.scanMode);
    ToBaseRoundTrip(c.scanMode, 10);
    if s == ScanRateStr(d) {
      Unwrap("1:", Decimal(c.scanMode), Decimal(d.scanMode), " scan");
      DecimalInjective(c.scanMode, d.scanMode);
    }
  }

  /** A triple is named exactly when it is a permutation of {0, 1, 2};
      any other triple gets the custom label, which shows at characters
      10, 15 and 20 the channel each of R, G and B is sent to. */
  lemma ColorOrderLabels(c: PanelConfig)
    ensures !IsCustom(ColorOrderStr(c)) <==> IsPermutation(Exchange(c))
    ensures IsCustom(ColorOrderStr(c)) ==>
      var s := ColorOrderStr(c);
      && |s| == 22
      && s[10] == ChannelChar(c.colorExchangeR)
      && s[15] == ChannelChar(c.colorExchangeG)
      && s[20] == ChannelChar(c.colorExchangeB)
  {
    var s := ColorOrderStr(c);
    var r, g, b := c.colorExchangeR, c.colorExchangeG, c.colorExchangeB;
    if IsPermutation(Exchange(c)) {
      assert r < 3 && g < 3 && b < 3 && r != g && r != b && g != b;
      assert (r, g, b) in {(2, 1, 0), (0, 1, 2), (1, 0, 2), (1, 2, 0), (2, 0, 1), (0, 2, 1)};
      assert s[0] != 'C';
    } else {
      assert (r, g, b) !in {(2, 1, 0), (0, 1, 2), (1, 0, 2), (1, 2, 0), (2, 0, 1), (0, 2, 1)};
      assert s[..|CustomPrefix|] == CustomPrefix;
    }
  }

  /** The decoder's default exchange is labelled as the default RGB order. */
  lemma DefaultColorOrder()
    ensures ColorOrderStr(DefaultConfig()) == "RGB (default)"
    ensures Exchange(DefaultConfig()) == Positions(RGB)
  {
  }

  /** The file's labels and the encoder's presets agree on four of the six
      position tables and swap the other two: the table the encoder calls
      GRB is labelled "GBR" by the decoder, and the other way round. */
  lemma LabelsVersusPresets(c: PanelConfig, o: ColorOrder)
    requires Exchange(c) == Positions(o)
    ensures o in {RGB, BGR, RBG, BRG} ==>
      |ColorOrderStr(c)| >= 3 && ColorOrderStr(c)[..3] == Name(o)
    ensures o == GRB ==> ColorOrderStr(c) == "GBR"
    ensures o == GBR ==> ColorOrderStr(c) == "GRB"
  {
    assert c.colorExchangeR == Positions(o)[0];
    assert c.colorExchangeG == Positions(o)[1];
    assert c.colorExchangeB == Positions(o)[2];
  }
}
