/** The `ColorLight5A75B` driver: its state (colour order, brightness,
    framebuffer, socket) and the operations that build frames and hand them
    to the socket. The socket is a ghost log `sent` of the frames it
    received, in order. */
module Driver {
  import opened Bytes
  import opened ColorModel
  import opened Frames
  import opened Chunking
  import opened Transport

  // ---------------------------------------------------------------------
  // What a full frame and a configuration put on the wire

  /** The frame `send_frame` attempts for chunk `c` of a row: the chunk's
      pixel bytes `row_data[3*offset : 3*offset + 3*count]` at that offset. */
  function ChunkAttempt(socketOpen: bool, row: nat, rowData: seq<byte>, c: Chunk): Result<Frame, Error>
  {
    Attempt(socketOpen, RowFrame(row, c.offset, PySlice(rowData, 3 * c.offset, 3 * c.offset + 3 * c.count)))
  }

  /** The frames attempted for the chunks `cs` of one row, in order. */
  function ChunkPlan(socketOpen: bool, row: nat, rowData: seq<byte>, cs: seq<Chunk>): (p: seq<Result<Frame, Error>>)
    ensures |p| == |cs|
  {
    seq(|cs|, i requires 0 <= i < |cs| => ChunkAttempt(socketOpen, row, rowData, cs[i]))
  }

  /** The frames `send_frame` attempts for one row: the whole row at offset 0
      when it is at most 497 pixels wide, one frame per chunk otherwise. */
  function RowPlan(socketOpen: bool, row: nat, rowData: seq<byte>, width: nat): seq<Result<Frame, Error>>
  {
    if width <= MaxPixelsPerPacket then [Attempt(socketOpen, RowFrame(row, 0, rowData))]
    else ChunkPlan(socketOpen, row, rowData, Chunks(width))
  }

  /** The frames for each row of `pixels`, each row remapped through `m`. */
  function RowPlans(socketOpen: bool, pixels: seq<seq<Pixel>>, m: seq<nat>, width: nat)
    : (ps: seq<seq<Result<Frame, Error>>>)
    requires ValidMap(m)
    ensures |ps| == |pixels|
  {
    seq(|pixels|, i requires 0 <= i < |pixels| => RowPlan(socketOpen, i, RemapRow(m, pixels[i]), width))
  }

  /** Everything `send_frame` attempts: every row top to bottom, then the display frame. */
  function FramePlan(socketOpen: bool, pixels: seq<seq<Pixel>>, m: seq<nat>, width: nat,
                     brightness: int, rgb: (byte, byte, byte)): seq<Result<Frame, Error>>
    requires ValidMap(m)
  {
    Joined(RowPlans(socketOpen, pixels, m, width), |pixels|) + [Attempt(socketOpen, DisplayPacket(brightness, rgb))]
  }

  /** A row wider than 497 pixels goes out as one frame per chunk: frame i
      carries, at pixel offset 497*i, the remapped bytes of pixels 497*i up
      to 497*i + min(497, width - 497*i), which lie inside the row. */
  lemma WideRowPlan(socketOpen: bool, row: nat, rowData: seq<byte>, width: nat)
    requires width > MaxPixelsPerPacket && |rowData| == 3 * width
    ensures var p := RowPlan(socketOpen, row, rowData, width);
      && |p| == |Chunks(width)|
      && forall i :: 0 <= i < |p| ==>
           var off := MaxPixelsPerPacket * i;
           && off < width
           && p[i] == Attempt(socketOpen, RowFrame(row, off,
                        rowData[3 * off .. 3 * off + 3 * Min(MaxPixelsPerPacket, width - off)]))
  {
    var p := RowPlan(socketOpen, row, rowData, width);
    forall i | 0 <= i < |p|
      ensures MaxPixelsPerPacket * i < width
      ensures p[i] == Attempt(socketOpen, RowFrame(row, MaxPixelsPerPacket * i,
                        rowData[3 * (MaxPixelsPerPacket * i) .. 3 * (MaxPixelsPerPacket * i)
                                + 3 * Min(MaxPixelsPerPacket, width - MaxPixelsPerPacket * i)]))
    {
      ChunkAt(width, i);
    }
  }

  /** `configure_receiver`'s routing when no ports are given: all eight ports enabled. */
  function DefaultPorts(): seq<Port>
  {
    seq(8, i requires 0 <= i < 8 => (i, 0x00, 0x01))
  }

  /** The config frames `configure_receiver` sends, in order. */
  function ConfigureFrames(width: int, height: int, scanMode: int, ports: seq<Port>, save: bool): seq<Frame>
  {
    [ ConfigFrame(CfgControlArea, ControlAreaPayload(0, None), None, 0),
      ConfigFrame(CfgRouting, RoutingPayload(if |ports| > 0 then ports else DefaultPorts()), None, 0),
      ConfigFrame(CfgBasicParam, BasicParamsPayload(width, height, scanMode, 0, 64, 32), None, 0),
      ConfigFrame(CfgEepromVolatile, Zeros(16), None, 0) ]
    + (if save then [ConfigFrame(CfgEepromPersist, FlashSavePayload(), None, 0)] else [])
  }

  function ConfigTypes(frames: seq<Frame>): seq<byte>
    requires forall i :: 0 <= i < |frames| ==> |frames[i]| > 0x26
  {
    seq(|frames|, i requires 0 <= i < |frames| => frames[i][0x26])
  }

  /** `configure_receiver` sends config types 0x02, 0x03, 0x05, 0x1B in that
      order and 0x2B (flash) last and only when asked to save; every frame
      carries sequence 0 and a zero controller address; with no ports the
      routing table enables ports 0-7 with flags (0x00, 0x01); the flash
      payload is 16 bytes starting 0F 01. */
  lemma ConfigureSequence(width: int, height: int, scanMode: int, ports: seq<Port>, save: bool)
    ensures var fs := ConfigureFrames(width, height, scanMode, ports, save);
      && (forall i :: 0 <= i < |fs| ==> |fs[i]| > 0x26)
      && ConfigTypes(fs) == [0x02, 0x03, 0x05, 0x1B] + (if save then [0x2B] else [])
      && (forall i :: 0 <= i < |fs| ==>
            ParseConfigFrame(fs[i]).Some? && ParseConfigFrame(fs[i]).value.sequence == 0
            && ParseConfigFrame(fs[i]).value.controller == Zeros(16))
      && (|ports| == 0 ==> ParseConfigFrame(fs[1]).value.payload == RoutingPayload(DefaultPorts()))
      && (save ==> var flash := ParseConfigFrame(fs[4]).value.payload;
            |flash| == 16 && flash[0] == 0x0F && flash[1] == 0x01)
  {
    var fs := ConfigureFrames(width, height, scanMode, ports, save);
    ConfigFrameLayout(CfgControlArea, ControlAreaPayload(0, None), None, 0);
    ConfigFrameLayout(CfgRouting, RoutingPayload(if |ports| > 0 then ports else DefaultPorts()), None, 0);
    ConfigFrameLayout(CfgBasicParam, BasicParamsPayload(width, height, scanMode, 0, 64, 32), None, 0);
    ConfigFrameLayout(CfgEepromVolatile, Zeros(16), None, 0);
    ConfigFrameLayout(CfgEepromPersist, FlashSavePayload(), None, 0);
    ControllerFieldLayout(None);
  }

  /** A 320-pixel row of solid red (255, 0, 0) under the "BGR" preset goes
      out as FF 00 00 per pixel, after the header 00 00 01 40 08 88 that
      follows the row number (offset 0, 320 pixels). */
  lemma SolidRedRowBgr(row: nat)
    requires row < 0x1_0000
    ensures var data := RemapRow(Positions(BGR), seq(320, _ => Pixel(255, 0, 0)));
      && |data| == 960
      && (forall j :: 0 <= j < 320 ==> data[3 * j .. 3 * j + 3] == [0xFF, 0x00, 0x00])
      && RowPayload(row, 0, data) == Ok(Be16(row) + [0x00, 0x00, 0x01, 0x40, 0x08, 0x88] + data)
  {
    var px := seq(320, _ => Pixel(255, 0, 0));
    var data := RemapRow(Positions(BGR), px);
    RedOnTheWire();
    forall j | 0 <= j < 320
      ensures data[3 * j .. 3 * j + 3] == [0xFF, 0x00, 0x00]
    {
      assert px[j] == Pixel(255, 0, 0);
      RemapRowAt(Positions(BGR), px, j, 0);
      RemapRowAt(Positions(BGR), px, j, 1);
      RemapRowAt(Positions(BGR), px, j, 2);
    }
    assert |data| / 3 == 320;
    assert Be16(0) + Be16(320) + [0x08, 0x88] == [0x00, 0x00, 0x01, 0x40, 0x08, 0x88];
    assert Be16(row) + Be16(0) + Be16(320) + [0x08, 0x88] + data
      == Be16(row) + (Be16(0) + Be16(320) + [0x08, 0x88]) + data;
  }

  /** The default routing table: ports 0-7, each `(i, 0x00, 0x01)`. */
  lemma DefaultRouting()
    ensures var r := RoutingPayload(DefaultPorts());
      r[0] == 0 && forall k :: 0 <= k < 8 ==> r[1 + 3 * k .. 4 + 3 * k] == [k, 0x00, 0x01]
  {
    RoutingLayout(DefaultPorts());
  }

  // ---------------------------------------------------------------------
  // The driver

  predicate HasShape(image: seq<seq<Pixel>>, height: nat, width: nat)
  {
    |image| == height && forall i :: 0 <= i < |image| ==> |image[i]| == width
  }

  /** A framebuffer every pixel of which is `c`. */
  function Filled(height: nat, width: nat, c: Pixel): (px: seq<seq<Pixel>>)
    ensures HasShape(px, height, width)
  {
    seq(height, _ => seq(width, _ => c))
  }

  class ColorLight5A75B {
    const width: nat
    const height: nat
    const interface: string
    var socketOpen: bool
    var brightness: int
    var rgbBrightness: (byte, byte, byte)
    var colorOrder: string
    var colorMap: seq<nat>
    var framebuffer: array2<Pixel>
    /** The frames the socket has received, oldest first. */
    ghost var sent: seq<Frame>

    /** The framebuffer has the display's size, and the colour map is the
        preset named by `colorOrder`. */
    ghost predicate Valid()
      reads this`framebuffer, this`colorOrder, this`colorMap
    {
      && Shaped()
      && Lookup(colorOrder).Some? && colorMap == Positions(Lookup(colorOrder).value)
    }

    /** The framebuffer is height x width. */
    ghost predicate Shaped()
      reads this`framebuffer
    {
      framebuffer.Length0 == height && framebuffer.Length1 == width
    }

    /** The framebuffer's pixels, row by row. */
    ghost function Pixels(): (px: seq<seq<Pixel>>)
      reads this`framebuffer, framebuffer
      requires Shaped()
      ensures HasShape(px, height, width)
    {
      var fb := framebuffer;
      seq(height, i requires 0 <= i < height reads fb =>
        seq(width, j requires 0 <= j < width reads fb => fb[i, j]))
    }

    /** `__init__` once the colour order is known to be valid and the sizes
        non-negative (see `Create` for the checks). */
    constructor (width: nat, height: nat, interface: string, order: ColorOrder)
      ensures Valid() && fresh(framebuffer)
      ensures this.width == width && this.height == height && this.interface == interface
      ensures !socketOpen && brightness == 255 && rgbBrightness == (255, 255, 255)
      ensures colorOrder == Name(order) && colorMap == Positions(order)
      ensures Pixels() == Filled(height, width, Pixel(0, 0, 0)) && sent == []
    {
      this.width := width;
      this.height := height;
      this.interface := interface;
      socketOpen := false;
      brightness := 255;
      rgbBrightness := (255, 255, 255);
      colorOrder := Name(order);
      colorMap := Positions(order);
      framebuffer := new Pixel[height, width]((i, j) => Pixel(0, 0, 0));
      sent := [];
      new;
      LookupNames(Name(order), order);
      assert Pixels() == Filled(height, width, Pixel(0, 0, 0)) by {
        forall i | 0 <= i < height ensures Pixels()[i] == Filled(height, width, Pixel(0, 0, 0))[i] { }
      }
    }

    /** Opens the transport (binding and privileges are not modelled). */
    method Open()
      modifies this`socketOpen
      ensures socketOpen
    {
      socketOpen := true;
    }

    /** Closes the transport. */
    method Close()
      modifies this`socketOpen
      ensures !socketOpen
    {
      socketOpen := false;
    }

    /** `set_color_order`: upper-cases the name and accepts it only if it is
        one of the six presets; otherwise ValueError and nothing changes. */
    method SetColorOrder(order: string) returns (r: Outcome)
      requires Valid()
      modifies this`colorOrder, this`colorMap
      ensures Valid()
      ensures Lookup(ToUpper(order)).Some? ==>
        r == Pass && colorOrder == ToUpper(order) && colorMap == Positions(Lookup(ToUpper(order)).value)
      ensures Lookup(ToUpper(order)).None? ==>
        r == Fail(InvalidColorOrder(ToUpper(order)))
        && colorOrder == old(colorOrder) && colorMap == old(colorMap)
    {
      var upper := ToUpper(order);
      var preset := Lookup(upper);
      if preset.None? {
        return Fail(InvalidColorOrder(upper));
      }
      colorOrder := upper;
      colorMap := Positions(preset.value);
      r := Pass;
    }

    /** `_send_packet`: a display frame to the socket, or RuntimeError when
        the socket is not open. */
    method SendPacket(packetType: byte, payload: seq<byte>) returns (r: Outcome)
      modifies this`sent
      ensures socketOpen ==> r == Pass && sent == old(sent) + [DisplayFrame(packetType, payload)]
      ensures !socketOpen ==> r == Fail(SocketNotOpen) && sent == old(sent)
    {
      if !socketOpen {
        return Fail(SocketNotOpen);
      }
      var frame := DstMac + SrcMac + [packetType] + payload;
      sent := sent + [frame];
      r := Pass;
    }

    /** `_send_config_packet`: the frame is assembled field by field after
        the socket check. */
    method SendConfigPacket(packetType: byte, payload: seq<byte>, controllerAddr: Option<seq<byte>>, sequence: int)
      returns (r: Outcome)
      modifies this`sent
      ensures socketOpen ==>
        r == Pass && sent == old(sent) + [ConfigFrame(packetType, payload, controllerAddr, sequence)]
      ensures !socketOpen ==> r == Fail(SocketNotOpen) && sent == old(sent)
    {
      if !socketOpen {
        return Fail(SocketNotOpen);
      }
      var addr: seq<byte>;
      match controllerAddr {
        case None => addr := Zeros(16);
        case Some(a) =>
          addr := a;
          if |a| < 16 {
            addr := a + Zeros(16 - |a|);
          }
      }
      var frame: seq<byte> := [];
      frame := frame + DstMac;
      frame := frame + SrcMac;
      frame := frame + Be16(EtherTypeConfig);
      frame := frame + PySlice(addr, 0, 16);
      frame := frame + SyncPattern;
      frame := frame + [packetType];
      frame := frame + [Low8(sequence)];
      frame := frame + payload;
      assert PySlice(addr, 0, 16) == ControllerField(controllerAddr);
      assert frame == ConfigFrame(packetType, payload, controllerAddr, sequence);
      sent := sent + [frame];
      r := Pass;
    }

    /** `send_port_routing`: a reserved zero, the first eight entries appended
        one by one, then zero padding up to 25 bytes. */
    method SendPortRouting(ports: seq<Port>) returns (r: Outcome)
      modifies this`sent
      ensures socketOpen ==> r == Pass && sent == old(sent) + [ConfigFrame(CfgRouting, RoutingPayload(ports), None, 0)]
      ensures !socketOpen ==> r == Fail(SocketNotOpen) && sent == old(sent)
    {
      ghost var spec := RoutingPayload(ports);
      RoutingLayout(ports);
      var payload: seq<byte> := [0x00];
      var used := PySlice(ports, 0, 8);
      for k := 0 to |used|
        invariant payload == spec[..1 + 3 * k]
      {
        var (portIdx, flagsHi, flagsLo) := used[k];
        payload := payload + [portIdx % 8];
        payload := payload + [Low8(flagsHi)];
        payload := payload + [Low8(flagsLo)];
        assert spec[..1 + 3 * (k + 1)] == spec[..1 + 3 * k] + spec[1 + 3 * k .. 4 + 3 * k];
      }
      while |payload| < 25
        invariant 1 + 3 * |used| <= |payload| <= 25 && payload == spec[..|payload|]
        decreases 25 - |payload|
      {
        payload := payload + [0x00];
      }
      assert payload == spec;
      r := SendConfigPacket(CfgRouting, payload, None, 0);
    }

    /** `send_control_area`. */
    method SendControlArea(cardIndex: int, areaData: Option<seq<byte>>) returns (r: Outcome)
      modifies this`sent
      ensures socketOpen ==>
        r == Pass && sent == old(sent) + [ConfigFrame(CfgControlArea, ControlAreaPayload(cardIndex, areaData), None, 0)]
      ensures !socketOpen ==> r == Fail(SocketNotOpen) && sent == old(sent)
    {
      var area := match areaData case None => Zeros(10) case Some(d) => d;
      var payload: seq<byte> := [0x00];
      payload := payload + [Low8(cardIndex)];
      payload := payload + PySlice(area, 0, 10);
      assert payload == ControlAreaPayload(cardIndex, areaData);
      r := SendConfigPacket(CfgControlArea, payload, None, 0);
    }

    /** `send_basic_params`: a zeroed 32-byte buffer with the fields stored at their offsets. */
    method SendBasicParams(width: int, height: int, scanMode: int, colorDepth: int, moduleW: int, moduleH: int)
      returns (r: Outcome)
      modifies this`sent
      ensures socketOpen ==>
        r == Pass && sent == old(sent) + [ConfigFrame(CfgBasicParam,
          BasicParamsPayload(width, height, scanMode, colorDepth, moduleW, moduleH), None, 0)]
      ensures !socketOpen ==> r == Fail(SocketNotOpen) && sent == old(sent)
    {
      var payload := new byte[32](_ => 0);
      payload[0] := Low8(width);
      payload[1] := Low8(width / 256);
      payload[2] := Low8(height);
      payload[3] := Low8(height / 256);
      payload[4] := Low8(colorDepth);
      payload[6] := Low8(moduleW);
      payload[7] := Low8(moduleH);
      payload[8] := Low8(scanMode);
      assert payload[..] == BasicParamsPayload(width, height, scanMode, colorDepth, moduleW, moduleH);
      r := SendConfigPacket(CfgBasicParam, payload[..], None, 0);
    }

    /** `save_to_flash`: config type 0x2B with the full-save flags. */
    method SaveToFlash() returns (r: Outcome)
      modifies this`sent
      ensures socketOpen ==> r == Pass && sent == old(sent) + [ConfigFrame(CfgEepromPersist, FlashSavePayload(), None, 0)]
      ensures !socketOpen ==> r == Fail(SocketNotOpen) && sent == old(sent)
    {
      var payload := new byte[16](_ => 0);
      payload[0] := 0x0F;
      payload[1] := 0x01;
      assert payload[..] == FlashSavePayload();
      r := SendConfigPacket(CfgEepromPersist, payload[..], None, 0);
    }

    /** `configure_receiver`: control area, routing, basic parameters,
        volatile EEPROM parameters and, only when `save`, the flash save.
        An empty `ports` (Python's None or []) selects the default routing.
        The first failure aborts the sequence. */
    method ConfigureReceiver(width: int, height: int, scanMode: int, ports: seq<Port>, save: bool)
      returns (r: Outcome)
      modifies this`sent
      ensures socketOpen ==> r == Pass && sent == old(sent) + ConfigureFrames(width, height, scanMode, ports, save)
      ensures !socketOpen ==> r == Fail(SocketNotOpen) && sent == old(sent)
    {
      r := SendControlArea(0, None);
      if r.Fail? {
        return;
      }
      if |ports| > 0 {
        r := SendPortRouting(ports);
      } else {
        var defaultPorts := DefaultPorts();
        r := SendPortRouting(defaultPorts);
      }
      r := SendBasicParams(width, height, scanMode, 0, 64, 32);
      r := SendConfigPacket(CfgEepromVolatile, Zeros(16), None, 0);
      if save {
        r := SaveToFlash();
      }
    }

    /** `send_display_frame`: the 98-byte trailer with the current brightness. */
    method SendDisplayFrame() returns (r: Outcome)
      modifies this`sent
      ensures var a := [Attempt(socketOpen, DisplayPacket(brightness, rgbBrightness))];
        sent == old(sent) + Delivered(a) && r == FirstError(a)
    {
      var payload := new byte[98](_ => 0);
      payload[0] := 0x07;
      if !(0 <= brightness < 256) {
        return Fail(ByteValueError);
      }
      payload[22] := brightness;
      payload[23] := 0x05;
      payload[24] := 0x00;
      payload[25] := rgbBrightness.0;
      payload[26] := rgbBrightness.1;
      payload[27] := rgbBrightness.2;
      assert payload[..] == DisplayPayload(brightness, rgbBrightness).value;
      r := SendPacket(PktDisplay, payload[..]);
    }

    /** `send_brightness`: stores the clamped values that are given, then
        sends the 63-byte brightness frame. */
    method SendBrightness(newBrightness: Option<int>, rgb: Option<(int, int, int)>) returns (r: Outcome)
      modifies this`brightness, this`rgbBrightness, this`sent
      ensures brightness == if newBrightness.Some? then Clamp(newBrightness.value) as int else old(brightness)
      ensures rgbBrightness ==
        if rgb.Some? then (Clamp(rgb.value.0), Clamp(rgb.value.1), Clamp(rgb.value.2)) else old(rgbBrightness)
      ensures socketOpen ==>
        r == Pass && sent == old(sent) + [DisplayFrame(PktBrightness, BrightnessPayload(rgbBrightness))]
      ensures !socketOpen ==> r == Fail(SocketNotOpen) && sent == old(sent)
    {
      if newBrightness.Some? {
        brightness := Clamp(newBrightness.value);
      }
      if rgb.Some? {
        rgbBrightness := (Clamp(rgb.value.0), Clamp(rgb.value.1), Clamp(rgb.value.2));
      }
      var payload := new byte[63](_ => 0);
      payload[0] := rgbBrightness.0;
      payload[1] := rgbBrightness.1;
      payload[2] := rgbBrightness.2;
      payload[3] := 0xFF;
      assert payload[..] == BrightnessPayload(rgbBrightness);
      r := SendPacket(PktBrightness, payload[..]);
    }

    /** `send_row`: the big-endian header is packed first (struct.error for
        a field outside 0..65535), then the frame goes to the socket. */
    method SendRow(row: int, bgrData: seq<byte>, offset: int) returns (r: Outcome)
      modifies this`sent
      ensures var a := Attempt(socketOpen, RowFrame(row, offset, bgrData));
        && (a.Ok? ==> r == Pass && sent == old(sent) + [a.value])
        && (a.Err? ==> r == Fail(a.error) && sent == old(sent))
    {
      var pixelCount := |bgrData| / 3;
      if !(0 <= row < 0x1_0000 && 0 <= offset < 0x1_0000 && pixelCount < 0x1_0000) {
        return Fail(StructError);
      }
      var header := Be16(row) + Be16(offset) + Be16(pixelCount) + [0x08, 0x88];
      var payload := header + bgrData;
      r := SendPacket(PktImage, payload);
    }

    /** `send_frame`: optionally replaces the framebuffer with `image`
        (ValueError if its shape is not height x width), then sends every
        row, remapped through the colour map and split into 497-pixel chunks
        when wider than that, then the display frame. The first failure
        aborts the frame. */
    method SendFrame(image: Option<seq<seq<Pixel>>>) returns (r: Outcome)
      requires Valid()
      modifies this`framebuffer, this`sent
      ensures Valid()
      ensures image.Some? && !HasShape(image.value, height, width) ==>
        r == Fail(ImageShapeError) && sent == old(sent) && framebuffer == old(framebuffer)
      ensures image.Some? && HasShape(image.value, height, width) ==> fresh(framebuffer) && Pixels() == image.value
      ensures image.None? ==> framebuffer == old(framebuffer) && Pixels() == old(Pixels())
      ensures image.None? || HasShape(image.value, height, width) ==>
        var plan := FramePlan(socketOpen, Pixels(), colorMap, width, brightness, rgbBrightness);
        sent == old(sent) + Delivered(plan) && r == FirstError(plan)
    {
      if image.Some? {
        var img := image.value;
        if !(|img| == height && forall i :: 0 <= i < |img| ==> |img[i]| == width) {
          return Fail(ImageShapeError);
        }
        framebuffer := new Pixel[height, width]((i, j) requires 0 <= i < height && 0 <= j < width => img[i][j]);
        assert Pixels() == img by {
          forall i | 0 <= i < height ensures Pixels()[i] == img[i] { }
        }
      }
      r := SendFramebuffer();
    }

    /** What `send_frame` does once the framebuffer is in place: every row,
        top to bottom, then the display frame, stopping at the first failure. */
    method SendFramebuffer() returns (r: Outcome)
      requires Valid()
      modifies this`sent
      ensures Pixels() == old(Pixels())
      ensures var plan := FramePlan(socketOpen, Pixels(), colorMap, width, brightness, rgbBrightness);
        sent == old(sent) + Delivered(plan) && r == FirstError(plan)
    {
      PresetsArePermutations(Lookup(colorOrder).value);
      ghost var px := Pixels();
      ghost var plans := RowPlans(socketOpen, px, colorMap, width);
      ghost var d := [Attempt(socketOpen, DisplayPacket(brightness, rgbBrightness))];
      assert FramePlan(socketOpen, px, colorMap, width, brightness, rgbBrightness) == Joined(plans, height) + d;
      ghost var start := sent;
      r := SendRows(plans);
      if r.Fail? {
        PlanFailIgnoresRest(Joined(plans, height), d);
        return;
      }
      ghost var mid := sent;
      r := SendDisplayFrame();
      PlanThen(Joined(plans, height), d, start, mid, sent);
    }

    /** `send_frame`'s loop over the rows of the framebuffer; `plans` holds
        each row's attempts. */
    method SendRows(ghost plans: seq<seq<Result<Frame, Error>>>) returns (r: Outcome)
      requires Shaped() && ValidMap(colorMap) && |plans| == height
      requires plans == RowPlans(socketOpen, Pixels(), colorMap, width)
      modifies this`sent
      ensures var plan := Joined(plans, height);
        sent == old(sent) + Delivered(plan) && r == FirstError(plan)
    {
      var row: nat := 0;
      r := Pass;
      while row < height
        invariant row <= height && r == Pass
        invariant FirstError(Joined(plans, row)) == Pass
        invariant sent == old(sent) + Delivered(Joined(plans, row))
      {
        ghost var before := sent;
        r := SendFramebufferRow(row, plans);
        if r.Fail? {
          JoinedStepFail(plans, row, old(sent), before, sent);
          return;
        }
        JoinedStepPass(plans, row, old(sent), before, sent);
        row := row + 1;
      }
    }

    /** One turn of `send_frame`'s row loop: row `row` of the framebuffer,
        remapped through the colour map, sent whole at offset 0 when the
        display is at most 497 pixels wide, otherwise chunk by chunk. */
    method SendFramebufferRow(row: nat, ghost plans: seq<seq<Result<Frame, Error>>>) returns (r: Outcome)
      requires Shaped() && row < height
      requires ValidMap(colorMap) && plans == RowPlans(socketOpen, Pixels(), colorMap, width)
      modifies this`sent
      ensures sent == old(sent) + Delivered(plans[row]) && r == FirstError(plans[row])
    {
      var fb := framebuffer;
      var rowPixels := seq(width, j requires 0 <= j < width reads fb => fb[row, j]);
      assert rowPixels == Pixels()[row];
      var rowData := RemapRow(colorMap, rowPixels);
      if width <= MaxPixelsPerPacket {
        r := SendRow(row, rowData, 0);
      } else {
        r := SendRowChunks(row, rowData);
      }
    }

    /** `send_frame`'s loop over the 497-pixel chunks of a wide row. */
    method SendRowChunks(row: nat, rowData: seq<byte>) returns (r: Outcome)
      modifies this`sent
      ensures var plan := ChunkPlan(socketOpen, row, rowData, Chunks(width));
        sent == old(sent) + Delivered(plan) && r == FirstError(plan)
    {
      ghost var cs := Chunks(width);
      ghost var plan := ChunkPlan(socketOpen, row, rowData, cs);
      ghost var k := 0;
      var offset := 0;
      r := Pass;
      while offset < width
        invariant k <= |cs| && offset == MaxPixelsPerPacket * k
        invariant FirstError(plan[..k]) == Pass && r == Pass
        invariant sent == old(sent) + Delivered(plan[..k])
        decreases width - offset
      {
        ghost var before := sent;
        r := SendChunk(row, rowData, offset, k);
        if r.Fail? {
          PrefixStepFail(plan, k, old(sent), before, sent);
          return;
        }
        PrefixStepPass(plan, k, old(sent), before, sent);
        k := k + 1;
        offset := offset + MaxPixelsPerPacket;
      }
      ChunkAt(width, k);
      assert plan[..k] == plan;
    }

    /** One turn of `send_frame`'s chunk loop: the pixels from `offset`
        on, at most 497 of them, sent as one row frame, which is chunk `k`
        of the row. */
    method SendChunk(row: nat, rowData: seq<byte>, offset: nat, ghost k: nat) returns (r: Outcome)
      requires offset == MaxPixelsPerPacket * k < width
      modifies this`sent
      ensures var plan := ChunkPlan(socketOpen, row, rowData, Chunks(width));
        && k < |plan|
        && (plan[k].Ok? ==> r == Pass && sent == old(sent) + [plan[k].value])
        && (plan[k].Err? ==> r == Fail(plan[k].error) && sent == old(sent))
    {
      ChunkAt(width, k);
      var chunkPixels := Min(MaxPixelsPerPacket, width - offset);
      var chunkStart := offset * 3;
      var chunkEnd := chunkStart + chunkPixels * 3;
      r := SendRow(row, PySlice(rowData, chunkStart, chunkEnd), offset);
    }

    /** `set_pixel`: stores the colour when (x, y) is on the display and
        ignores it otherwise. */
    method SetPixel(x: int, y: int, color: Pixel)
      requires Valid()
      modifies framebuffer
      ensures Valid()
      ensures 0 <= x < width && 0 <= y < height ==>
        Pixels() == old(Pixels())[y := old(Pixels())[y][x := color]]
      ensures !(0 <= x < width && 0 <= y < height) ==> Pixels() == old(Pixels())
    {
      if 0 <= x < width && 0 <= y < height {
        framebuffer[y, x] := color;
        assert Pixels() == old(Pixels())[y := old(Pixels())[y][x := color]] by {
          forall i | 0 <= i < height
            ensures Pixels()[i] == old(Pixels())[y := old(Pixels())[y][x := color]][i]
          { }
        }
      } else {
        assert Pixels() == old(Pixels()) by {
          forall i | 0 <= i < height ensures Pixels()[i] == old(Pixels())[i] { }
        }
      }
    }

    /** `clear`: fills the framebuffer with one colour and sends the frame. */
    method Clear(color: Pixel) returns (r: Outcome)
      requires Valid()
      modifies this`framebuffer, this`sent, framebuffer
      ensures Valid() && framebuffer == old(framebuffer)
      ensures Pixels() == Filled(height, width, color)
      ensures var plan := FramePlan(socketOpen, Filled(height, width, color), colorMap, width, brightness, rgbBrightness);
        sent == old(sent) + Delivered(plan) && r == FirstError(plan)
    {
      forall i, j | 0 <= i < height && 0 <= j < width {
        framebuffer[i, j] := color;
      }
      assert Pixels() == Filled(height, width, color) by {
        forall i | 0 <= i < height ensures Pixels()[i] == Filled(height, width, color)[i] { }
      }
      r := SendFrame(None);
    }
  }

  /** `ColorLight5A75B(width, height, interface, color_order)`: the colour
      order is checked first (ValueError), then numpy refuses a negative size. */
  method Create(width: int, height: int, interface: string, colorOrder: string)
    returns (r: Result<ColorLight5A75B, Error>)
    ensures Lookup(ToUpper(colorOrder)).None? ==> r == Err(InvalidColorOrder(ToUpper(colorOrder)))
    ensures Lookup(ToUpper(colorOrder)).Some? && (width < 0 || height < 0) ==> r == Err(NegativeDimensions)
    ensures r.Ok? <==> Lookup(ToUpper(colorOrder)).Some? && width >= 0 && height >= 0
    ensures r.Ok? ==>
      var d := r.value;
      && fresh(d) && fresh(d.framebuffer) && d.Valid()
      && d.width == width && d.height == height && d.interface == interface
      && d.colorOrder == ToUpper(colorOrder) && !d.socketOpen
      && d.brightness == 255 && d.rgbBrightness == (255, 255, 255)
      && d.Pixels() == Filled(height, width, Pixel(0, 0, 0)) && d.sent == []
  {
    var preset := Lookup(ToUpper(colorOrder));
    if preset.None? {
      return Err(InvalidColorOrder(ToUpper(colorOrder)));
    }
    if width < 0 || height < 0 {
      return Err(NegativeDimensions);
    }
    LookupNames(ToUpper(colorOrder), preset.value);
    var d := new ColorLight5A75B(width, height, interface, preset.value);
    r := Ok(d);
  }
}
