/** The encoder's colour-order presets (`COLOR_ORDERS`) and the per-pixel
    channel remap that `send_frame` applies before a row goes on the wire. */
module ColorModel {
  import opened Bytes

  /** The six preset names accepted by `set_color_order`. */
  datatype ColorOrder = RGB | RBG | GRB | GBR | BRG | BGR

  /** One framebuffer pixel, in the framebuffer's R, G, B channel order. */
  datatype Pixel = Pixel(r: byte, g: byte, b: byte)

  /** `COLOR_ORDERS[name]`: for input channel R, G and B (in that order),
      the position 0, 1 or 2 it takes in the 3-byte wire pixel. */
  function Positions(o: ColorOrder): seq<nat>
  {
    match o
    case RGB => [2, 1, 0]
    case RBG => [2, 0, 1]
    case GRB => [1, 2, 0]
    case GBR => [1, 0, 2]
    case BRG => [0, 2, 1]
    case BGR => [0, 1, 2]
  }

  function Name(o: ColorOrder): string
  {
    match o
    case RGB => "RGB"
    case RBG => "RBG"
    case GRB => "GRB"
    case GBR => "GBR"
    case BRG => "BRG"
    case BGR => "BGR"
  }

  /** The dictionary lookup `COLOR_ORDERS.get(name)`: exact, case-sensitive. */
  function Lookup(name: string): Option<ColorOrder>
  {
    if name == "RGB" then Some(RGB)
    else if name == "RBG" then Some(RBG)
    else if name == "GRB" then Some(GRB)
    else if name == "GBR" then Some(GBR)
    else if name == "BRG" then Some(BRG)
    else if name == "BGR" then Some(BGR)
    else None
  }

  /** `str.upper()` restricted to ASCII letters; other characters are kept. */
  function ToUpper(s: string): (u: string)
    ensures |u| == |s|
  {
    seq(|s|, i requires 0 <= i < |s| => UpperChar(s[i]))
  }

  function UpperChar(c: char): char
  {
    if 'a' <= c <= 'z' then (c as int - 32) as char else c
  }

  /** A position table the remap can index: three entries, each 0, 1 or 2. */
  predicate ValidMap(m: seq<nat>)
  {
    |m| == 3 && m[0] < 3 && m[1] < 3 && m[2] < 3
  }

  /** A position table that sends the three channels to three distinct bytes. */
  predicate IsPermutation(m: seq<nat>)
  {
    ValidMap(m) && m[0] != m[1] && m[0] != m[2] && m[1] != m[2]
  }

  /** The numpy remap of one pixel: the output starts as zeros and then
      R, G and B are written, in that order, at positions m[0], m[1], m[2]. */
  function RemapPixel(m: seq<nat>, p: Pixel): (w: seq<byte>)
    requires ValidMap(m)
    ensures |w| == 3
  {
    seq(3, k requires 0 <= k < 3 => WireByte(m, p, k))
  }

  /** Byte k of the remapped pixel: the last channel written there, or 0. */
  function WireByte(m: seq<nat>, p: Pixel, k: nat): byte
    requires ValidMap(m)
  {
    if m[2] == k then p.b
    else if m[1] == k then p.g
    else if m[0] == k then p.r
    else 0
  }

  /** `row_reordered.tobytes()`: the remapped pixels of a row, back to back. */
  function RemapRow(m: seq<nat>, px: seq<Pixel>): (w: seq<byte>)
    requires ValidMap(m)
    ensures |w| == 3 * |px|
  {
    if px == [] then [] else RemapPixel(m, px[0]) + RemapRow(m, px[1..])
  }

  /** Reads a wire pixel back into R, G, B through the same table. */
  function Unmap(m: seq<nat>, w: seq<byte>): Pixel
    requires ValidMap(m) && |w| == 3
  {
    Pixel(w[m[0]], w[m[1]], w[m[2]])
  }

  /** Lookup is exactly the six names, and Name is its inverse. */
  lemma LookupNames(name: string, o: ColorOrder)
    ensures Lookup(Name(o)) == Some(o)
    ensures Lookup(name) == Some(o) ==> name == Name(o)
  {
  }

  /** Every preset is a permutation of {0, 1, 2}. */
  lemma PresetsArePermutations(o: ColorOrder)
    ensures IsPermutation(Positions(o))
  {
  }

  /** Under a permutation each input channel lands at its own position. */
  lemma RemapPlacesChannels(m: seq<nat>, p: Pixel)
    requires IsPermutation(m)
    ensures RemapPixel(m, p)[m[0]] == p.r
    ensures RemapPixel(m, p)[m[1]] == p.g
    ensures RemapPixel(m, p)[m[2]] == p.b
  {
  }

  /** The remap under a permutation is a bijection on 3-byte pixels:
      Unmap undoes it, and it undoes Unmap. */
  lemma RemapInvertible(m: seq<nat>, p: Pixel, w: seq<byte>)
    requires IsPermutation(m) && |w| == 3
    ensures Unmap(m, RemapPixel(m, p)) == p
    ensures RemapPixel(m, Unmap(m, w)) == w
  {
    RemapPlacesChannels(m, p);
    var v := RemapPixel(m, Unmap(m, w));
    forall k | 0 <= k < 3 ensures v[k] == w[k] {
      assert k == m[0] || k == m[1] || k == m[2];
    }
  }

  /** A table that is not a permutation loses a channel: two different
      pixels go out as the same bytes. */
  lemma NonPermutationCollides(m: seq<nat>)
    requires ValidMap(m) && !IsPermutation(m)
    ensures exists p, q :: p != q && RemapPixel(m, p) == RemapPixel(m, q)
  {
    var p := Pixel(0, 0, 0);
    var q :=
      if m[0] == m[1] || m[0] == m[2] then Pixel(1, 0, 0)
      else Pixel(0, 1, 0);
    assert RemapPixel(m, p) == RemapPixel(m, q);
  }

  /** Byte `3*j + k` of a remapped row is byte k of pixel j's remap. */
  lemma {:induction false} RemapRowAt(m: seq<nat>, px: seq<Pixel>, j: nat, k: nat)
    requires ValidMap(m) && j < |px| && k < 3
    ensures RemapRow(m, px)[3 * j + k] == RemapPixel(m, px[j])[k]
  {
    if j > 0 {
      RemapRowAt(m, px[1..], j - 1, k);
    }
  }

  /** The wire bytes of pixel (255, 0, 0): "RGB" sends it as 00 00 FF,
      "BGR" as FF 00 00. */
  lemma RedOnTheWire()
    ensures RemapPixel(Positions(RGB), Pixel(255, 0, 0)) == [0x00, 0x00, 0xFF]
    ensures RemapPixel(Positions(BGR), Pixel(255, 0, 0)) == [0xFF, 0x00, 0x00]
  {
  }
}
