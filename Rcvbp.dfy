/** The LEDVISION receiver-configuration file (`.rcvbp` / `.rcvp`) decoder:
    the container (a 20-byte header whose flags word says whether the body
    is zlib-compressed), and the panel settings read from fixed offsets of
    the body, each read guarded by a length check. zlib inflation is a
    parameter `inflate`, which answers None where zlib raises. */
module Rcvbp {
  import opened Bytes

  /** The decoded settings, with the dataclass's defaults as `DefaultConfig`.
      The two IEEE-754 floats (gamma, minimum OE time) are kept as the raw
      little-endian 32-bit pattern they are decoded from. */
  datatype PanelConfig = PanelConfig(
    moduleWidth: nat, moduleHeight: nat, cabinetWidth: nat, cabinetHeight: nat,
    scanMode: nat, dataPolarity: nat, cascadeDirection: nat, dataGroups: nat,
    gammaBits: nat, whiteBalanceR: nat, whiteBalanceG: nat, whiteBalanceB: nat,
    colorExchangeR: nat, colorExchangeG: nat, colorExchangeB: nat,
    brightnessPercent: nat, brightnessLevel: nat, minOeBits: nat,
    grayscaleMode: nat, grayscaleMax: nat, grayscaleRefinement: nat,
    decoderIc: nat, isCompressed: bool, rawSize: nat)

  /** `PanelConfig()`: every number 0 and the flag False, except the colour
      exchange, which defaults to R at position 2, G at 1 and B at 0. */
  function DefaultConfig(): PanelConfig
  {
    PanelConfig(0, 0, 0, 0, 0, 0, 0, 0, 0, 0, 0, 0, 2, 1, 0, 0, 0, 0, 0, 0, 0, 0, false, 0)
  }

  // ---------------------------------------------------------------------
  // The field table

  /** The settings read from the file body. */
  datatype Field =
    | ModuleWidth | ModuleHeight | DataPolarity | Gamma | ScanMode
    | WhiteBalanceR | WhiteBalanceG | WhiteBalanceB
    | ColorExchangeR | ColorExchangeG | ColorExchangeB
    | CascadeDirection | MinOe | CabinetWidth | CabinetHeight | DataGroups
    | GrayscaleMax | GrayscaleRefinement | GrayscaleMode
    | BrightnessLevel | DecoderIc | BrightnessPercent

  /** Where the field starts in the body. */
  function Offset(f: Field): nat
  {
    match f
    case ModuleWidth => 0x04
    case ModuleHeight => 0x05
    case DataPolarity => 0x1C
    case Gamma => 0x20
    case ScanMode => 0x24
    case WhiteBalanceR => 0x2C
    case WhiteBalanceG => 0x2D
    case WhiteBalanceB => 0x2E
    case ColorExchangeR => 0x30
    case ColorExchangeG => 0x31
    case ColorExchangeB => 0x32
    case CascadeDirection => 0x40
    case MinOe => 0xB2
    case CabinetWidth => 0xC4
    case CabinetHeight => 0xC6
    case DataGroups => 0x18E
    case GrayscaleMax => 0x1E9
    case GrayscaleRefinement => 0x25E
    case GrayscaleMode => 0xE99E
    case BrightnessLevel => 0xE983
    case DecoderIc => 0xE986
    case BrightnessPercent => 0xE98D
  }

  /** How many bytes the field has: the floats 4, the `<H` fields 2, the
      rest 1. */
  function Size(f: Field): nat
  {
    match f
    case Gamma | MinOe => 4
    case CabinetWidth | CabinetHeight | DataGroups | GrayscaleMax => 2
    case _ => 1
  }

  /** The body length the decoder demands before it reads the field. Fields
      read together share one test: the module size, the white balance,
      the colour exchange and the cabinet size are read only when the whole
      group is present. Every read the test admits lies inside the body. */
  function Guard(f: Field): (g: nat)
    ensures Offset(f) + Size(f) <= g
  {
    match f
    case ModuleWidth | ModuleHeight => 0x06
    case DataPolarity => 0x1D
    case Gamma => 0x24
    case ScanMode => 0x25
    case WhiteBalanceR | WhiteBalanceG | WhiteBalanceB => 0x2F
    case ColorExchangeR | ColorExchangeG | ColorExchangeB => 0x33
    case CascadeDirection => 0x41
    case MinOe => 0xB6
    case CabinetWidth | CabinetHeight => 0xC8
    case DataGroups => 0x190
    case GrayscaleMax => 0x1EB
    case GrayscaleRefinement => 0x25F
    case GrayscaleMode => 0xE99F
    case BrightnessLevel => 0xE984
    case DecoderIc => 0xE987
    case BrightnessPercent => 0xE98E
  }

  /** The dataclass default of the field. */
  function Default(f: Field): nat
  {
    match f
    case ColorExchangeR => 2
    case ColorExchangeG => 1
    case _ => 0
  }

  /** The field's value in a decoded configuration. */
  function Get(c: PanelConfig, f: Field): nat
  {
    match f
    case ModuleWidth => c.moduleWidth
    case ModuleHeight => c.moduleHeight
    case DataPolarity => c.dataPolarity
    case Gamma => c.gammaBits
    case ScanMode => c.scanMode
    case WhiteBalanceR => c.whiteBalanceR
    case WhiteBalanceG => c.whiteBalanceG
    case WhiteBalanceB => c.whiteBalanceB
    case ColorExchangeR => c.colorExchangeR
    case ColorExchangeG => c.colorExchangeG
    case ColorExchangeB => c.colorExchangeB
    case CascadeDirection => c.cascadeDirection
    case MinOe => c.minOeBits
    case CabinetWidth => c.cabinetWidth
    case CabinetHeight => c.cabinetHeight
    case DataGroups => c.dataGroups
    case GrayscaleMax => c.grayscaleMax
    case GrayscaleRefinement => c.grayscaleRefinement
    case GrayscaleMode => c.grayscaleMode
    case BrightnessLevel => c.brightnessLevel
    case DecoderIc => c.decoderIc
    case BrightnessPercent => c.brightnessPercent
  }

  /** `data[off]`, `unpack_from("<H")` or `unpack_from("<I")` by size. */
  function ReadLe(data: seq<byte>, off: nat, size: nat): nat
    requires size == 1 || size == 2 || size == 4
    requires off + size <= |data|
  {
    if size == 1 then data[off] as nat
    else if size == 2 then U16Le(data, off)
    else U32Le(data, off)
  }

  /** What the decoder leaves in field f for body `data`: the bytes at the
      field's offset when the body passes the field's length test, the
      default otherwise. */
  function FieldValue(data: seq<byte>, f: Field): nat
  {
    if |data| >= Guard(f) then ReadLe(data, Offset(f), Size(f)) else Default(f)
  }

  // ---------------------------------------------------------------------
  // The container

  datatype RcvbpError =
    | FileTooSmall      // ValueError "File too small to be valid .rcvbp"
    | DecompressFailed  // ValueError "Failed to decompress: ..."

  /** Bit 0x4 of the little-endian flags word at 0x10. */
  predicate CompressedFlag(raw: seq<byte>)
    requires |raw| >= 0x14
  {
    (U32Le(raw, 0x10) / 4) % 2 == 1
  }

  /** `decompress_rcvbp`: files under 0x24 bytes are refused; a compressed
      body is the inflated stream from 0x20 on, a stored one is everything
      after the 20-byte header. */
  function Decompress(raw: seq<byte>, inflate: seq<byte> -> Option<seq<byte>>): Result<seq<byte>, RcvbpError>
  {
    if |raw| < 0x24 then Err(FileTooSmall)
    else if CompressedFlag(raw) then
      match inflate(raw[0x20..])
      case None => Err(DecompressFailed)
      case Some(d) => Ok(d)
    else Ok(raw[0x14..])
  }

  /** Decompression fails exactly for a file under 0x24 bytes or a stream
      zlib refuses, and a refused stream is reported, never returned as
      data; what it returns is the inflated stream, or, for a stored body,
      what follows the 20-byte header. */
  lemma DecompressOutcome(raw: seq<byte>, inflate: seq<byte> -> Option<seq<byte>>)
    ensures var r := Decompress(raw, inflate);
      && (r.Err? <==> |raw| < 0x24 || (CompressedFlag(raw) && inflate(raw[0x20..]).None?))
      && (r == Err(FileTooSmall) <==> |raw| < 0x24)
      && (r.Ok? && CompressedFlag(raw) ==> inflate(raw[0x20..]) == Some(r.value))
      && (r.Ok? && !CompressedFlag(raw) ==> raw == raw[..0x14] + r.value)
  {
  }

  /** The bytes the fields are read from: the decompressed body, or the raw
      file when decompression raised. */
  function Body(raw: seq<byte>, inflate: seq<byte> -> Option<seq<byte>>): seq<byte>
  {
    match Decompress(raw, inflate)
    case Ok(d) => d
    case Err(_) => raw
  }

  /** A file: 16 header bytes, the flags word, then what follows 0x14. */
  function Container(header: seq<byte>, flags: nat, rest: seq<byte>): seq<byte>
    requires |header| == 16 && flags < 0x1_0000_0000
  {
    header + Le32(flags) + rest
  }

  /** A stored file gives back exactly what follows its header, and a
      compressed one what the stream 12 bytes further on inflates to. */
  lemma ContainerRoundTrip(header: seq<byte>, flags: nat, rest: seq<byte>, inflate: seq<byte> -> Option<seq<byte>>)
    requires |header| == 16 && flags < 0x1_0000_0000 && |rest| >= 0x10
    ensures var raw := Container(header, flags, rest);
      && CompressedFlag(raw) == ((flags / 4) % 2 == 1)
      && ((flags / 4) % 2 == 0 ==> Decompress(raw, inflate) == Ok(rest))
      && ((flags / 4) % 2 == 1 ==> match inflate(rest[12..])
           case None => Decompress(raw, inflate) == Err(DecompressFailed)
           case Some(d) => Decompress(raw, inflate) == Ok(d))
  {
    var raw := Container(header, flags, rest);
    Le32RoundTrip(flags);
    assert raw[0x10..0x14] == Le32(flags);
    assert U32Le(raw, 0x10) == U32Le(Le32(flags), 0);
    assert raw[0x14..] == rest;
    assert raw[0x20..] == rest[12..];
  }

  // ---------------------------------------------------------------------
  // The decoder

  /** A configuration whose every field is the table's reading of body
      `d`, with the given flag and size. */
  function Decoded(d: seq<byte>, isCompressed: bool, rawSize: nat): PanelConfig
  {
    PanelConfig(
      FieldValue(d, ModuleWidth), FieldValue(d, ModuleHeight),
      FieldValue(d, CabinetWidth), FieldValue(d, CabinetHeight),
      FieldValue(d, ScanMode), FieldValue(d, DataPolarity),
      FieldValue(d, CascadeDirection), FieldValue(d, DataGroups),
      FieldValue(d, Gamma), FieldValue(d, WhiteBalanceR),
      FieldValue(d, WhiteBalanceG), FieldValue(d, WhiteBalanceB),
      FieldValue(d, ColorExchangeR), FieldValue(d, ColorExchangeG),
      FieldValue(d, ColorExchangeB), FieldValue(d, BrightnessPercent),
      FieldValue(d, BrightnessLevel), FieldValue(d, MinOe),
      FieldValue(d, GrayscaleMode), FieldValue(d, GrayscaleMax),
      FieldValue(d, GrayscaleRefinement), FieldValue(d, DecoderIc),
      isCompressed, rawSize)
  }

  /** The configuration `parse_rcvbp` returns: the raw size, the
      compression flag (False for files under 0x14 bytes) and every field
      as the table reads it from the body. */
  function Parsed(raw: seq<byte>, inflate: seq<byte> -> Option<seq<byte>>): PanelConfig
  {
    Decoded(Body(raw, inflate), |raw| >= 0x14 && CompressedFlag(raw), |raw|)
  }

  /** `parse_rcvbp` on the file's bytes: the compression flag (read only
      when the file reaches 0x14 bytes), then decompression, falling back
      to the raw bytes when it raises, then the fields, over defaults that
      carry the flag and the raw size. */
  method ParseRcvbp(raw: seq<byte>, inflate: seq<byte> -> Option<seq<byte>>) returns (c: PanelConfig)
    ensures c == Parsed(raw, inflate)
  {
    var isCompressed := false;
    if |raw| >= 0x14 {
      var flags := U32Le(raw, 0x10);
      isCompressed := (flags / 4) % 2 == 1;
    }
    var data: seq<byte>;
    match Decompress(raw, inflate) {
      case Ok(d) => data := d;
      case Err(_) => data := raw;
    }
    assert data == Body(raw, inflate);
    c := ReadFields(isCompressed, |raw|, data);
  }

  /** The second half of `parse_rcvbp`: starting from the defaults with
      the flag and size set, assigns each group of fields whose length test
      the body passes. */
  method ReadFields(isCompressed: bool, rawSize: nat, data: seq<byte>) returns (c: PanelConfig)
    ensures c == Decoded(data, isCompressed, rawSize)
  {
    c := DefaultConfig().(isCompressed := isCompressed, rawSize := rawSize);
    if |data| >= 0x06 {
      c := c.(moduleWidth := data[0x04], moduleHeight := data[0x05]);
    }
    if |data| >= 0x1D {
      c := c.(dataPolarity := data[0x1C]);
    }
    if |data| >= 0x24 {
      c := c.(gammaBits := U32Le(data, 0x20));
    }
    if |data| >= 0x25 {
      c := c.(scanMode := data[0x24]);
    }
    if |data| >= 0x2F {
      c := c.(whiteBalanceR := data[0x2C], whiteBalanceG := data[0x2D], whiteBalanceB := data[0x2E]);
    }
    if |data| >= 0x33 {
      c := c.(colorExchangeR := data[0x30], colorExchangeG := data[0x31], colorExchangeB := data[0x32]);
    }
    if |data| >= 0x41 {
      c := c.(cascadeDirection := data[0x40]);
    }
    if |data| >= 0xB6 {
      c := c.(minOeBits := U32Le(data, 0xB2));
    }
    if |data| >= 0xC8 {
      c := c.(cabinetWidth := U16Le(data, 0xC4), cabinetHeight := U16Le(data, 0xC6));
    }
    if |data| >= 0x190 {
      c := c.(dataGroups := U16Le(data, 0x18E));
    }
    if |data| >= 0x1EB {
      c := c.(grayscaleMax := U16Le(data, 0x1E9));
    }
    if |data| >= 0x25F {
      c := c.(grayscaleRefinement := data[0x25E]);
    }
    if |data| >= 0xE99F {
      c := c.(grayscaleMode := data[0xE99E]);
    }
    if |data| >= 0xE984 {
      c := c.(brightnessLevel := data[0xE983]);
    }
    if |data| >= 0xE987 {
      c := c.(decoderIc := data[0xE986]);
    }
    if |data| >= 0xE98E {
      c := c.(brightnessPercent := data[0xE98D]);
    }
    FieldValues(data);
  }

  /** The table spelled out field by field, as the decoder's guarded
      reads are written. This unfolds `FieldValue`; it is a readable
      restatement of the table, not an independent statement of it. The
      table's properties are `FieldLocality`, `FieldAtOffsets` and
      `EncodeRoundTrip`. */
  lemma FieldValues(data: seq<byte>)
    ensures FieldValue(data, ModuleWidth) == if |data| >= 0x06 then data[0x04] as nat else 0
    ensures FieldValue(data, ModuleHeight) == if |data| >= 0x06 then data[0x05] as nat else 0
    ensures FieldValue(data, DataPolarity) == if |data| >= 0x1D then data[0x1C] as nat else 0
    ensures FieldValue(data, Gamma) == if |data| >= 0x24 then U32Le(data, 0x20) else 0
    ensures FieldValue(data, ScanMode) == if |data| >= 0x25 then data[0x24] as nat else 0
    ensures FieldValue(data, WhiteBalanceR) == if |data| >= 0x2F then data[0x2C] as nat else 0
    ensures FieldValue(data, WhiteBalanceG) == if |data| >= 0x2F then data[0x2D] as nat else 0
    ensures FieldValue(data, WhiteBalanceB) == if |data| >= 0x2F then data[0x2E] as nat else 0
    ensures FieldValue(data, ColorExchangeR) == if |data| >= 0x33 then data[0x30] as nat else 2
    ensures FieldValue(data, ColorExchangeG) == if |data| >= 0x33 then data[0x31] as nat else 1
    ensures FieldValue(data, ColorExchangeB) == if |data| >= 0x33 then data[0x32] as nat else 0
    ensures FieldValue(data, CascadeDirection) == if |data| >= 0x41 then data[0x40] as nat else 0
    ensures FieldValue(data, MinOe) == if |data| >= 0xB6 then U32Le(data, 0xB2) else 0
    ensures FieldValue(data, CabinetWidth) == if |data| >= 0xC8 then U16Le(data, 0xC4) else 0
    ensures FieldValue(data, CabinetHeight) == if |data| >= 0xC8 then U16Le(data, 0xC6) else 0
    ensures FieldValue(data, DataGroups) == if |data| >= 0x190 then U16Le(data, 0x18E) else 0
    ensures FieldValue(data, GrayscaleMax) == if |data| >= 0x1EB then U16Le(data, 0x1E9) else 0
    ensures FieldValue(data, GrayscaleRefinement) == if |data| >= 0x25F then data[0x25E] as nat else 0
    ensures FieldValue(data, GrayscaleMode) == if |data| >= 0xE99F then data[0xE99E] as nat else 0
    ensures FieldValue(data, BrightnessLevel) == if |data| >= 0xE984 then data[0xE983] as nat else 0
    ensures FieldValue(data, DecoderIc) == if |data| >= 0xE987 then data[0xE986] as nat else 0
    ensures FieldValue(data, BrightnessPercent) == if |data| >= 0xE98E then data[0xE98D] as nat else 0
  {
  }

  /** Every field of `Decoded` is the table's reading of the body. This
      unfolds `Decoded` field by field and connects the record to the
      table; what the table itself promises is in `FieldLocality`,
      `FieldAtOffsets` and `EncodeRoundTrip`. */
  lemma ParsedFields(d: seq<byte>, isCompressed: bool, rawSize: nat)
    ensures forall f :: Get(Decoded(d, isCompressed, rawSize), f) == FieldValue(d, f)
  {
    forall f ensures Get(Decoded(d, isCompressed, rawSize), f) == FieldValue(d, f) {
      match f
      case ModuleWidth =>
      case ModuleHeight =>
      case DataPolarity =>
      case Gamma =>
      case ScanMode =>
      case WhiteBalanceR =>
      case WhiteBalanceG =>
      case WhiteBalanceB =>
      case ColorExchangeR =>
      case ColorExchangeG =>
      case ColorExchangeB =>
      case CascadeDirection =>
      case MinOe =>
      case CabinetWidth =>
      case CabinetHeight =>
      case DataGroups =>
      case GrayscaleMax =>
      case GrayscaleRefinement =>
      case GrayscaleMode =>
      case BrightnessLevel =>
      case DecoderIc =>
      case BrightnessPercent =>
    }
  }

  /** What `parse_rcvbp` reports about the file itself: its size, and the
      compression flag only when the flags word is there; the fields come
      from the decompressed body, or from the raw bytes when decompression
      raised. */
  lemma ParsedOutcome(raw: seq<byte>, inflate: seq<byte> -> Option<seq<byte>>, f: Field)
    ensures Parsed(raw, inflate).rawSize == |raw|
    ensures Parsed(raw, inflate).isCompressed <==> |raw| >= 0x14 && CompressedFlag(raw)
    ensures Decompress(raw, inflate).Ok? ==> Get(Parsed(raw, inflate), f) == FieldValue(Decompress(raw, inflate).value, f)
    ensures Decompress(raw, inflate).Err? ==> Get(Parsed(raw, inflate), f) == FieldValue(raw, f)
  {
    ParsedFields(Body(raw, inflate), |raw| >= 0x14 && CompressedFlag(raw), |raw|);
  }

  /** A file too short for the container is decoded as it is: a 10-byte
      file gives its bytes 4 and 5 as the module size, and every other
      setting keeps its default. */
  lemma TenByteFile(raw: seq<byte>, inflate: seq<byte> -> Option<seq<byte>>)
    requires |raw| == 10
    ensures Parsed(raw, inflate) == DefaultConfig().(moduleWidth := raw[4], moduleHeight := raw[5], rawSize := 10)
  {
    assert Decompress(raw, inflate) == Err(FileTooSmall);
    FieldValues(raw);
  }

  /** A field past the end of the body, or in a group that is cut short,
      keeps its default; a body that holds the field's whole group
      determines it from the bytes up to the group's end alone. */
  lemma FieldLocality(a: seq<byte>, b: seq<byte>, f: Field)
    ensures |a| < Guard(f) ==> FieldValue(a, f) == Default(f)
    ensures |a| >= Guard(f) && |b| >= Guard(f) && a[..Guard(f)] == b[..Guard(f)] ==>
      FieldValue(a, f) == FieldValue(b, f)
  {
    if |a| >= Guard(f) && |b| >= Guard(f) && a[..Guard(f)] == b[..Guard(f)] {
      var o := Offset(f);
      assert a[o] == a[..Guard(f)][o] && b[o] == b[..Guard(f)][o];
      assert Size(f) >= 2 ==> a[o + 1] == a[..Guard(f)][o + 1] && b[o + 1] == b[..Guard(f)][o + 1];
      assert Size(f) == 4 ==> a[o + 2] == a[..Guard(f)][o + 2] && b[o + 2] == b[..Guard(f)][o + 2];
      assert Size(f) == 4 ==> a[o + 3] == a[..Guard(f)][o + 3] && b[o + 3] == b[..Guard(f)][o + 3];
    }
  }

  /** The white-balance group is read only as a whole: with a body of 0x2D
      bytes the red value at 0x2C is present but not read. */
  lemma WhiteBalanceReadAsGroup(data: seq<byte>)
    requires |data| == 0x2D
    ensures 0x2C < |data| && FieldValue(data, WhiteBalanceR) == 0
  {
  }

  // ---------------------------------------------------------------------
  // A writer for the field table

  /** The value a field can hold: a byte, a `<H` or a `<I` value. */
  predicate Fits(c: PanelConfig, f: Field)
  {
    Get(c, f) < if Size(f) == 1 then 0x100 else if Size(f) == 2 then 0x1_0000 else 0x1_0000_0000
  }

  /** Which field, and which of its bytes, sits at body position i. */
  function FieldAt(i: nat): Option<(Field, nat)>
  {
    if i == 0x04 then Some((ModuleWidth, 0))
    else if i == 0x05 then Some((ModuleHeight, 0))
    else if i == 0x1C then Some((DataPolarity, 0))
    else if 0x20 <= i < 0x24 then Some((Gamma, i - 0x20))
    else if i == 0x24 then Some((ScanMode, 0))
    else if i == 0x2C then Some((WhiteBalanceR, 0))
    else if i == 0x2D then Some((WhiteBalanceG, 0))
    else if i == 0x2E then Some((WhiteBalanceB, 0))
    else if i == 0x30 then Some((ColorExchangeR, 0))
    else if i == 0x31 then Some((ColorExchangeG, 0))
    else if i == 0x32 then Some((ColorExchangeB, 0))
    else if i == 0x40 then Some((CascadeDirection, 0))
    else if 0xB2 <= i < 0xB6 then Some((MinOe, i - 0xB2))
    else if 0xC4 <= i < 0xC6 then Some((CabinetWidth, i - 0xC4))
    else if 0xC6 <= i < 0xC8 then Some((CabinetHeight, i - 0xC6))
    else if 0x18E <= i < 0x190 then Some((DataGroups, i - 0x18E))
    else if 0x1E9 <= i < 0x1EB then Some((GrayscaleMax, i - 0x1E9))
    else if i == 0x25E then Some((GrayscaleRefinement, 0))
    else if i == 0xE983 then Some((BrightnessLevel, 0))
    else if i == 0xE986 then Some((DecoderIc, 0))
    else if i == 0xE98D then Some((BrightnessPercent, 0))
    else if i == 0xE99E then Some((GrayscaleMode, 0))
    else None
  }

  /** Byte k (least significant first) of v. */
  function LeByte(v: nat, k: nat): byte
  {
    if k == 0 then v % 0x100
    else if k == 1 then (v / 0x100) % 0x100
    else if k == 2 then (v / 0x1_0000) % 0x100
    else (v / 0x100_0000) % 0x100
  }

  /** The smallest body holding every field. */
  const BodySize: nat := 0xE99F

  /** A body with every field of c at its offset and zeros elsewhere. */
  function Encode(c: PanelConfig): seq<byte>
  {
    seq(BodySize, i requires 0 <= i < BodySize =>
      match FieldAt(i) case None => 0 case Some((f, k)) => LeByte(Get(c, f), k))
  }

  /** The fields do not overlap: every byte of a field is that field's. */
  lemma FieldAtOffsets(f: Field, k: nat)
    requires k < Size(f)
    ensures FieldAt(Offset(f) + k) == Some((f, k))
  {
  }

  lemma LeBytesValue(v: nat, size: nat, s: seq<byte>, off: nat)
    requires size == 1 || size == 2 || size == 4
    requires v < if size == 1 then 0x100 else if size == 2 then 0x1_0000 else 0x1_0000_0000
    requires off + size <= |s| && forall k :: 0 <= k < size ==> s[off + k] == LeByte(v, k)
    ensures ReadLe(s, off, size) == v
  {
    assert s[off] == LeByte(v, 0);
    if size == 2 {
      assert s[off + 1] == LeByte(v, 1);
      assert v == (v / 0x100) * 0x100 + v % 0x100;
    } else if size == 4 {
      assert s[off + 1] == LeByte(v, 1) && s[off + 2] == LeByte(v, 2) && s[off + 3] == LeByte(v, 3);
      Le32RoundTrip(v);
    }
  }

  /** Decoding a written body gives back every field that fits its size. */
  lemma EncodeRoundTrip(c: PanelConfig, f: Field)
    requires Fits(c, f)
    ensures FieldValue(Encode(c), f) == Get(c, f)
  {
    var e := Encode(c);
    forall k | 0 <= k < Size(f)
      ensures e[Offset(f) + k] == LeByte(Get(c, f), k)
    {
      FieldAtOffsets(f, k);
    }
    LeBytesValue(Get(c, f), Size(f), e, Offset(f));
  }
}
