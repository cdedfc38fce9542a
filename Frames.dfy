/** The byte layout of every frame the ColorLight 5A-75B driver puts on the
    wire: the protocol constants, the two frame families (display frames and
    config frames) and the type-specific payloads, each as a pure function,
    with a reader for each layout that recovers what was encoded. */
module Frames {
  import opened Bytes

  type Frame = seq<byte>

  /** Fixed addresses of the protocol. */
  const DstMac: seq<byte> := [0x11, 0x22, 0x33, 0x44, 0x55, 0x66]
  const SrcMac: seq<byte> := [0x22, 0x22, 0x33, 0x44, 0x55, 0x66]

  /** EtherType of config frames. */
  const EtherTypeConfig: int := 0x0880

  /** The marker the receiver scans for to locate a config frame's type byte. */
  const SyncPattern: seq<byte> := [0x55, 0x66, 0x11, 0x22, 0x33, 0x44, 0x55, 0x66]

  /** Display packet types (byte 0x0C of a display frame). */
  const PktDisplay: byte := 0x01
  const PktBrightness: byte := 0x0A
  const PktImage: byte := 0x55

  /** Config packet types (byte 0x26 of a config frame). */
  const CfgControlArea: byte := 0x02
  const CfgRouting: byte := 0x03
  const CfgBasicParam: byte := 0x05
  const CfgDiscoveryReq: byte := 0x07
  const CfgDiscoveryRsp: byte := 0x08
  const CfgBrightness: byte := 0x0A
  const CfgAntirouteSave: byte := 0x1A
  const CfgEepromVolatile: byte := 0x1B
  const CfgChipRealtime: byte := 0x1C
  const CfgVoidLine: byte := 0x1F
  const CfgEepromPersist: byte := 0x2B
  const CfgAntiPixel: byte := 0x32
  const CfgTAntiroute: byte := 0x37
  const CfgDataRemap: byte := 0x41
  const CfgGammaSep: byte := 0x73
  const CfgGamma: byte := 0x76
  const CfgGammaGray: byte := 0x7B
  const CfgGammaDelta: byte := 0x7F
  const CfgAntiScan: byte := 0x83
  const CfgGammaNew: byte := 0x87

  /** Colour-depth codes of the basic-parameter payload. */
  const Color8Bit: byte := 0x00
  const Color10Bit: byte := 0x02
  const Color12Bit: byte := 0x04

  /** Widest row chunk one pixel frame carries. */
  const MaxPixelsPerPacket: nat := 497

  /** Length of a config frame before its payload. */
  const ConfigHeaderSize: nat := 40

  /** The exceptions the driver raises. */
  datatype Error =
    | InvalidColorOrder(name: string)  // ValueError from set_color_order
    | SocketNotOpen                    // RuntimeError from the two send helpers
    | StructError                      // struct.pack(">H", x) with x outside 0..65535
    | ByteValueError                   // a bytearray item set outside 0..255
    | ImageShapeError                  // ValueError from send_frame
    | NegativeDimensions               // numpy.zeros with a negative size

  /** A routing entry (port index, high flag byte, low flag byte). */
  type Port = (int, int, int)

  // ---------------------------------------------------------------------
  // Display frames

  /** `_send_packet`'s frame: destination, source, one type byte, payload. */
  function DisplayFrame(packetType: byte, payload: seq<byte>): Frame
  {
    DstMac + SrcMac + [packetType] + payload
  }

  /** Splits a display frame back into its type byte and payload. */
  function ParseDisplayFrame(f: Frame): Option<(byte, seq<byte>)>
  {
    if |f| >= 13 && f[..6] == DstMac && f[6..12] == SrcMac then Some((f[12], f[13..]))
    else None
  }

  lemma DisplayFrameRoundTrip(packetType: byte, payload: seq<byte>)
    ensures |DisplayFrame(packetType, payload)| == 13 + |payload|
    ensures ParseDisplayFrame(DisplayFrame(packetType, payload)) == Some((packetType, payload))
  {
    var f := DisplayFrame(packetType, payload);
    assert f[..6] == DstMac && f[6..12] == SrcMac && f[13..] == payload;
  }

  // ---------------------------------------------------------------------
  // Config frames

  /** The 16-byte controller address: all zeros when absent, a shorter
      address zero-padded on the right, a longer one cut to 16 bytes. */
  function ControllerField(addr: Option<seq<byte>>): seq<byte>
  {
    match addr
    case None => Zeros(16)
    case Some(a) => PySlice(if |a| < 16 then a + Zeros(16 - |a|) else a, 0, 16)
  }

  /** `_send_config_packet`'s frame: destination, source, EtherType 0x0880,
      controller address, sync pattern, type, `sequence & 0xFF`, payload. */
  function ConfigFrame(packetType: byte, payload: seq<byte>, addr: Option<seq<byte>>, sequence: int): Frame
  {
    DstMac + SrcMac + Be16(EtherTypeConfig) + ControllerField(addr) + SyncPattern
      + [packetType, Low8(sequence)] + payload
  }

  datatype ConfigFields = ConfigFields(packetType: byte, sequence: byte, controller: seq<byte>, payload: seq<byte>)

  /** Reads a config frame back: checks the fixed bytes of the 40-byte
      header and returns the variable ones. */
  function ParseConfigFrame(f: Frame): Option<ConfigFields>
  {
    if |f| >= ConfigHeaderSize && f[..6] == DstMac && f[6..12] == SrcMac
       && f[12..14] == [0x08, 0x80] && f[0x1E..0x26] == SyncPattern
    then Some(ConfigFields(f[0x26], f[0x27], f[0x0E..0x1E], f[0x28..]))
    else None
  }

  lemma ControllerFieldLayout(addr: Option<seq<byte>>)
    ensures |ControllerField(addr)| == 16
    ensures addr.None? ==> ControllerField(addr) == Zeros(16)
    ensures addr.Some? ==> forall i :: 0 <= i < 16 ==>
      ControllerField(addr)[i] == if i < |addr.value| then addr.value[i] else 0
  {
  }

  /** A config frame has a 40-byte header whose fields sit at their fixed
      offsets, and the payload follows it unchanged. */
  lemma ConfigFrameLayout(packetType: byte, payload: seq<byte>, addr: Option<seq<byte>>, sequence: int)
    ensures var f := ConfigFrame(packetType, payload, addr, sequence);
      && |f| == ConfigHeaderSize + |payload|
      && f[0x0C] == 0x08 && f[0x0D] == 0x80
      && f[0x0E..0x1E] == ControllerField(addr)
      && f[0x1E..0x26] == SyncPattern
      && f[0x26] == packetType
      && f[0x27] == sequence % 256
      && f[0x28..] == payload
    ensures ParseConfigFrame(ConfigFrame(packetType, payload, addr, sequence))
      == Some(ConfigFields(packetType, Low8(sequence), ControllerField(addr), payload))
  {
    ControllerFieldLayout(addr);
    var f := ConfigFrame(packetType, payload, addr, sequence);
    var c := ControllerField(addr);
    assert f == DstMac + SrcMac + [0x08, 0x80] + c + SyncPattern + [packetType, Low8(sequence)] + payload;
    assert f[..6] == DstMac;
    assert f[6..12] == SrcMac;
    assert f[12..14] == [0x08, 0x80];
    assert f[0x0E..0x1E] == c;
    assert f[0x1E..0x26] == SyncPattern;
    assert f[0x28..] == payload;
  }

  // ---------------------------------------------------------------------
  // Pixel rows (type 0x55)

  /** `send_row`'s payload: row, offset and `len(data) // 3` as big-endian
      16-bit values, the markers 0x08 0x88, then the pixel bytes as given.
      `struct.pack` refuses a value outside 0..65535. */
  function RowPayload(row: int, offset: int, data: seq<byte>): Result<seq<byte>, Error>
  {
    var count := |data| / 3;
    if 0 <= row < 0x1_0000 && 0 <= offset < 0x1_0000 && count < 0x1_0000 then
      Ok(Be16(row) + Be16(offset) + Be16(count) + [0x08, 0x88] + data)
    else
      Err(StructError)
  }

  /** The pixel-row frame `send_row` hands to `_send_packet`. */
  function RowFrame(row: int, offset: int, data: seq<byte>): Result<Frame, Error>
  {
    match RowPayload(row, offset, data)
    case Ok(p) => Ok(DisplayFrame(PktImage, p))
    case Err(e) => Err(e)
  }

  datatype RowHeader = RowHeader(row: nat, offset: nat, count: nat)

  /** Reads a pixel-row payload back: the three big-endian fields and the
      pixel bytes, provided the markers are in place. */
  function ParseRowPayload(p: seq<byte>): Option<(RowHeader, seq<byte>)>
  {
    if |p| >= 8 && p[6] == 0x08 && p[7] == 0x88 then
      Some((RowHeader(U16Be(p, 0), U16Be(p, 2), U16Be(p, 4)), p[8..]))
    else None
  }

  /** The row payload is refused exactly when a header field does not fit
      in 16 bits; otherwise reading it back recovers row, offset, count and
      the pixel bytes. */
  lemma RowPayloadRoundTrip(row: int, offset: int, data: seq<byte>)
    ensures RowPayload(row, offset, data).Ok?
      <==> 0 <= row < 0x1_0000 && 0 <= offset < 0x1_0000 && |data| / 3 < 0x1_0000
    ensures RowPayload(row, offset, data).Ok? ==>
      var p := RowPayload(row, offset, data).value;
      |p| == 8 + |data| &&
      ParseRowPayload(p) == Some((RowHeader(row, offset, |data| / 3), data))
  {
    if RowPayload(row, offset, data).Ok? {
      var p := RowPayload(row, offset, data).value;
      assert p[8..] == data;
      Be16RoundTrip(row);
      Be16RoundTrip(offset);
      Be16RoundTrip(|data| / 3);
      assert U16Be(p, 0) == row && U16Be(p, 2) == offset && U16Be(p, 4) == |data| / 3;
    }
  }

  /** The converse: every well-formed row payload whose count field agrees
      with its pixel bytes is the encoding of what it reads back as. */
  lemma RowPayloadFromParse(p: seq<byte>)
    requires ParseRowPayload(p).Some?
    requires ParseRowPayload(p).value.0.count == |p[8..]| / 3
    ensures var (h, data) := ParseRowPayload(p).value;
      RowPayload(h.row, h.offset, data) == Ok(p)
  {
    var (h, data) := ParseRowPayload(p).value;
    assert Be16(h.row) == p[0..2];
    assert Be16(h.offset) == p[2..4];
    assert Be16(h.count) == p[4..6];
    assert p == p[0..2] + p[2..4] + p[4..6] + [0x08, 0x88] + p[8..];
  }

  // ---------------------------------------------------------------------
  // Routing table (config type 0x03)

  /** One routing entry: `(idx & 7, hi & 0xFF, lo & 0xFF)`. */
  function PortEntry(p: Port): seq<byte>
  {
    [p.0 % 8, Low8(p.1), Low8(p.2)]
  }

  /** Byte i of the routing payload: a reserved zero, then the entries of
      the first eight ports, then zeros. */
  function RoutingByte(ports: seq<Port>, i: nat): byte
  {
    if i == 0 then 0
    else if (i - 1) / 3 < Min(8, |ports|) then PortEntry(ports[(i - 1) / 3])[(i - 1) % 3]
    else 0
  }

  /** `send_port_routing`'s 25-byte payload. */
  function RoutingPayload(ports: seq<Port>): seq<byte>
  {
    seq(25, i requires 0 <= i < 25 => RoutingByte(ports, i))
  }

  /** The routing payload always has 25 bytes, a zero first byte, the masked
      entries of the first eight ports in order, and zeros after them. */
  lemma RoutingLayout(ports: seq<Port>)
    ensures |RoutingPayload(ports)| == 25 && RoutingPayload(ports)[0] == 0
    ensures forall k :: 0 <= k < Min(8, |ports|) ==>
      RoutingPayload(ports)[1 + 3 * k .. 4 + 3 * k] == PortEntry(ports[k])
    ensures forall i :: 1 + 3 * Min(8, |ports|) <= i < 25 ==> RoutingPayload(ports)[i] == 0
  {
    var r := RoutingPayload(ports);
    forall k | 0 <= k < Min(8, |ports|)
      ensures r[1 + 3 * k .. 4 + 3 * k] == PortEntry(ports[k])
    {
      assert (3 * k) / 3 == k && (3 * k + 1) / 3 == k && (3 * k + 2) / 3 == k;
      assert (3 * k) % 3 == 0 && (3 * k + 1) % 3 == 1 && (3 * k + 2) % 3 == 2;
    }
    forall i | 1 + 3 * Min(8, |ports|) <= i < 25
      ensures r[i] == 0
    {
      assert (i - 1) / 3 >= Min(8, |ports|);
    }
  }

  /** Ports past the eighth do not reach the wire. */
  lemma RoutingIgnoresExtraPorts(ports: seq<Port>)
    requires |ports| > 8
    ensures RoutingPayload(ports) == RoutingPayload(ports[..8])
  {
    assert forall i :: 0 <= i < 25 ==> RoutingByte(ports, i) == RoutingByte(ports[..8], i);
  }

  // ---------------------------------------------------------------------
  // Control area (config type 0x02)

  /** `send_control_area`'s payload: a reserved zero, `card_index & 0xFF`,
      then at most ten bytes of the area data (ten zeros when absent).
      A shorter area is sent as it is, not padded. */
  function ControlAreaPayload(cardIndex: int, area: Option<seq<byte>>): seq<byte>
  {
    var a := match area case None => Zeros(10) case Some(d) => d;
    [0, Low8(cardIndex)] + PySlice(a, 0, 10)
  }

  /** The control-area payload: a zero, the card index modulo 256, then the
      first ten bytes of the area (all of a shorter one); ten zeros when no
      area is given. */
  lemma ControlAreaLayout(cardIndex: int, area: Option<seq<byte>>)
    ensures var p := ControlAreaPayload(cardIndex, area);
      && p[0] == 0 && p[1] == cardIndex % 256
      && (area.None? ==> p[2..] == Zeros(10))
      && (area.Some? ==> |p| == 2 + Min(10, |area.value|) && p[2..] == area.value[..|p| - 2])
  {
    var p := ControlAreaPayload(cardIndex, area);
    if area.Some? {
      assert p[2..] == PySlice(area.value, 0, 10);
    }
  }

  // ---------------------------------------------------------------------
  // Basic parameters (config type 0x05)

  /** Byte i of the basic-parameter payload. */
  function BasicParamsByte(width: int, height: int, scanMode: int, colorDepth: int,
                           moduleW: int, moduleH: int, i: nat): byte
  {
    if i == 0 then Low8(width)
    else if i == 1 then Low8(width / 256)
    else if i == 2 then Low8(height)
    else if i == 3 then Low8(height / 256)
    else if i == 4 then Low8(colorDepth)
    else if i == 6 then Low8(moduleW)
    else if i == 7 then Low8(moduleH)
    else if i == 8 then Low8(scanMode)
    else 0
  }

  /** `send_basic_params`'s 32-byte payload. */
  function BasicParamsPayload(width: int, height: int, scanMode: int, colorDepth: int,
                              moduleW: int, moduleH: int): seq<byte>
  {
    seq(32, i requires 0 <= i < 32 => BasicParamsByte(width, height, scanMode, colorDepth, moduleW, moduleH, i))
  }

  /** Two bytes `x & 0xFF`, `(x >> 8) & 0xFF` read back as x modulo 2^16. */
  lemma Le16OfLowBytes(x: int)
    ensures Low8(x) + Low8(x / 256) * 256 == x % 0x1_0000
  {
    var q := x / 256;
    assert x == q * 256 + x % 256;
    assert q == (q / 256) * 256 + q % 256;
    assert x == (q / 256) * 0x1_0000 + (q % 256) * 256 + x % 256;
  }

  /** The basic-parameter payload: 32 bytes, width and height little-endian
      (modulo 2^16) at 0-3, colour depth at 4, module size at 6-7, scan
      mode at 8, every other byte zero. */
  lemma BasicParamsLayout(width: int, height: int, scanMode: int, colorDepth: int, moduleW: int, moduleH: int)
    ensures var p := BasicParamsPayload(width, height, scanMode, colorDepth, moduleW, moduleH);
      && |p| == 32
      && U16Le(p, 0) == width % 0x1_0000
      && U16Le(p, 2) == height % 0x1_0000
      && p[4] == colorDepth % 256
      && p[6] == moduleW % 256 && p[7] == moduleH % 256
      && p[8] == scanMode % 256
      && p[5] == 0 && forall i :: 9 <= i < 32 ==> p[i] == 0
  {
    Le16OfLowBytes(width);
    Le16OfLowBytes(height);
  }

  // ---------------------------------------------------------------------
  // Flash save (config type 0x2B)

  /** `save_to_flash`'s payload: the full-save and send flags, then zeros. */
  function FlashSavePayload(): seq<byte>
  {
    [0x0F, 0x01] + Zeros(14)
  }

  // ---------------------------------------------------------------------
  // Display frame (type 0x01) and brightness frame (type 0x0A)

  predicate IsByte(x: int) { 0 <= x < 256 }

  /** Byte i of the display payload. */
  function DisplayByte(brightness: byte, rgb: (byte, byte, byte), i: nat): byte
  {
    if i == 0 then 0x07
    else if i == 22 then brightness
    else if i == 23 then 0x05
    else if i == 25 then rgb.0
    else if i == 26 then rgb.1
    else if i == 27 then rgb.2
    else 0
  }

  /** `send_display_frame`'s 98-byte payload; storing a brightness outside
      0..255 into the bytearray raises ValueError. */
  function DisplayPayload(brightness: int, rgb: (byte, byte, byte)): Result<seq<byte>, Error>
  {
    if IsByte(brightness) then
      Ok(seq(98, i requires 0 <= i < 98 => DisplayByte(brightness, rgb, i)))
    else
      Err(ByteValueError)
  }

  /** The display frame `send_display_frame` hands to `_send_packet`. */
  function DisplayPacket(brightness: int, rgb: (byte, byte, byte)): Result<Frame, Error>
  {
    match DisplayPayload(brightness, rgb)
    case Ok(p) => Ok(DisplayFrame(PktDisplay, p))
    case Err(e) => Err(e)
  }

  /** `max(0, min(255, x))`. */
  function Clamp(x: int): (c: byte)
    ensures 0 <= x < 256 ==> c == x
    ensures x < 0 ==> c == 0
    ensures x > 255 ==> c == 255
  {
    Max(0, Min(255, x))
  }

  /** `send_brightness`'s 63-byte payload: R, G, B, 0xFF, then zeros. */
  function BrightnessPayload(rgb: (byte, byte, byte)): seq<byte>
  {
    [rgb.0, rgb.1, rgb.2, 0xFF] + Zeros(59)
  }

  /** The flash-save payload: 16 bytes, 0F 01, then zeros. */
  lemma FlashSaveLayout()
    ensures var p := FlashSavePayload();
      |p| == 16 && p[0] == 0x0F && p[1] == 0x01 && forall i :: 2 <= i < 16 ==> p[i] == 0
  {
  }

  /** The brightness payload: 63 bytes, the three channel values, 0xFF,
      then zeros; each value stored there is its input clamped to 0..255. */
  lemma BrightnessLayout(r: int, g: int, b: int)
    ensures var rgb := (Clamp(r), Clamp(g), Clamp(b));
      var p := BrightnessPayload(rgb);
      && |p| == 63 && p[..3] == [Clamp(r), Clamp(g), Clamp(b)] && p[3] == 0xFF
      && (forall i :: 4 <= i < 63 ==> p[i] == 0)
      && (0 <= r < 256 ==> p[0] == r) && (r < 0 ==> p[0] == 0) && (r > 255 ==> p[0] == 255)
  {
  }

  /** The display payload is refused exactly when the overall brightness is
      not a byte; otherwise it is 98 bytes with the brightness values at 22
      and 25-27, the fixed bytes 0x07 at 0 and 0x05 at 23, zeros elsewhere. */
  lemma DisplayPayloadLayout(brightness: int, rgb: (byte, byte, byte))
    ensures DisplayPayload(brightness, rgb).Ok? <==> IsByte(brightness)
    ensures DisplayPayload(brightness, rgb).Ok? ==>
      var p := DisplayPayload(brightness, rgb).value;
      && |p| == 98 && p[0] == 0x07 && p[22] == brightness && p[23] == 0x05
      && p[25] == rgb.0 && p[26] == rgb.1 && p[27] == rgb.2
      && forall i :: 0 <= i < 98 && i !in {0, 22, 23, 25, 26, 27} ==> p[i] == 0
  {
  }
}
