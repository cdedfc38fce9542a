# ColorLight 5A-75B driver and LEDVISION configuration decoder — a Dafny model

This project models two parts of a Linux driver for the ColorLight 5A-75B
LED receiver card.

- **The encoder** (`ColorLight5A75B` in `colorlight.py`). It builds raw
  Ethernet frames: pixel rows (type 0x55), the display/refresh frame (0x01),
  the brightness frame (0x0A), and the config frames (EtherType 0x0880 with a
  sync pattern). Config frames carry the control area (0x02), port routing
  (0x03), basic parameters (0x05), volatile EEPROM parameters (0x1B) and the
  flash save (0x2B). The driver keeps a framebuffer, a colour order and the
  brightness settings. Before sending, it remaps each pixel's R, G, B into
  the panel's channel order, and it splits rows wider than 497 pixels into
  chunks.
- **The decoder** (`rcvbp_parser.py`). It reads a LEDVISION `.rcvbp` /
  `.rcvp` receiver-configuration file. It looks at the compression flag,
  inflates or strips the container, reads the panel settings at fixed
  offsets with length guards, labels the codes for people, and can print a
  hex dump.

Modules:

| file | module | what it holds |
|---|---|---|
| `Bytes.dfy` | `Bytes` | bytes, `Option`/`Result`, little/big-endian helpers, Python slicing |
| `Text.dfy` | `Text` | decimal and upper-case hex spelling of numbers, padding, reading digits back |
| `ColorModel.dfy` | `ColorModel` | the six colour-order presets, `str.upper`, the per-pixel channel remap |
| `Frames.dfy` | `Frames` | protocol constants, the driver's exceptions, every frame and payload as a function of its inputs, and parsers that read them back |
| `Chunking.dfy` | `Chunking` | the 497-pixel chunks of a wide row |
| `Transport.dfy` | `Transport` | what reaches the socket when several sends happen in a row and the first failure aborts the rest |
| `Driver.dfy` | `Driver` | the `ColorLight5A75B` class (framebuffer as a 2-D array, a ghost log `sent` of the frames the socket received) and its operations |
| `Rcvbp.dfy` | `Rcvbp` | `PanelConfig`, `decompress_rcvbp`, `parse_rcvbp` on the file's bytes, a field table with offsets, sizes and guards, and an encoder used to state the round trip |
| `RcvbpLabels.dfy` | `RcvbpLabels` | the four label properties of `PanelConfig` |
| `HexDump.dfy` | `HexDump` | `dump_hex` |

How the outside world is modelled:

- **The socket** is a boolean `socketOpen` plus the ghost log `sent`.
  Sending appends one frame to `sent`. With the socket closed, a send
  fails with `SocketNotOpen` (Python's RuntimeError) and appends nothing.
- **Exceptions** are values. Driver methods return `Outcome` (`Pass`, or
  `Fail(e)` with the error). Pure builders return `Result`.
- **Multi-frame operations** (`send_frame`, `configure_receiver`) are
  specified as a plan: the list of frames they try to send, in order.
  `Transport.Delivered` is the longest run of successful sends at the start
  of the plan. `Transport.FirstError` is how the operation ends.
- **zlib** is a parameter `inflate: seq<byte> -> Option<seq<byte>>`. `None`
  stands for `zlib.error`.
- **Reading the file** is left to the caller: `ParseRcvbp` takes the file's
  bytes.

## Model

| member | source | states |
|---|---|---|
| ColorModel.LookupNames | colorlight.py:125-132 | `COLOR_ORDERS` has exactly the six names, case-sensitive; `Name` is the inverse of the lookup |
| ColorModel.PresetsArePermutations | colorlight.py:125-132 | every preset's position table is a permutation of {0, 1, 2} |
| ColorModel.RemapPlacesChannels | colorlight.py:508-512 | under a permutation table, R, G and B land at byte positions m[0], m[1] and m[2] of the wire pixel |
| ColorModel.RemapInvertible | colorlight.py:508-512 | under a permutation the remap is a bijection on 3-byte pixels: `Unmap` undoes it, and every 3-byte wire pixel comes from some pixel |
| ColorModel.NonPermutationCollides | colorlight.py:508-512 | a table that is not a permutation maps two different pixels to the same wire bytes, so the presets must be permutations |
| ColorModel.RemapRowAt | colorlight.py:508-513 | byte 3j+k of `row_reordered.tobytes()` is byte k of pixel j's remap |
| ColorModel.RedOnTheWire | colorlight.py:508-512 | pixel (255, 0, 0) goes out as 00 00 FF under "RGB" and as FF 00 00 under "BGR" |
| Frames.DisplayFrameRoundTrip | colorlight.py:200-210 | a display frame is 13 bytes plus the payload, and it parses back to its type byte and payload |
| Frames.ControllerFieldLayout | colorlight.py:229-234 | the controller address is always 16 bytes: zeros when absent, otherwise the address zero-padded or cut to 16 |
| Frames.ConfigFrameLayout | colorlight.py:212-247 | a config frame is 40 header bytes plus the payload: the MACs, EtherType 08 80, the 16-byte controller field, sync 55 66 11 22 33 44 55 66, the type at 0x26, `sequence & 0xFF` at 0x27; it parses back to these fields |
| Frames.RowPayloadRoundTrip | colorlight.py:457-487 | `send_row`'s payload is refused (struct.error) exactly when row, offset or `len // 3` is outside 0..65535; otherwise it has 8 + n bytes and parses back to (row, offset, n // 3, data) |
| Frames.RowPayloadFromParse | colorlight.py:476-484 | the converse: every well-formed row payload whose count field agrees with its data is the encoding of what it parses to |
| Frames.RoutingLayout | colorlight.py:258-284 | the routing payload is 25 bytes: a zero, then `(idx & 7, hi & 0xFF, lo & 0xFF)` for the first min(8, n) ports, then zeros |
| Frames.RoutingIgnoresExtraPorts | colorlight.py:275-278 | ports after the eighth do not change the payload |
| Frames.ControlAreaLayout | colorlight.py:286-301 | the control-area payload is 0, `card_index & 0xFF`, then the first ten area bytes (all of a shorter area, unpadded); ten zeros when no area is given |
| Frames.Le16OfLowBytes | colorlight.py:318-321 | the two bytes `x & 0xFF` and `(x >> 8) & 0xFF`, read little-endian, give x mod 65536 |
| Frames.BasicParamsLayout | colorlight.py:303-334 | the basic-parameter payload is 32 bytes: width and height mod 65536 little-endian at 0 and 2, colour depth at 4, module width and height at 6 and 7, scan mode at 8, each masked to a byte, and zeros elsewhere |
| Frames.FlashSaveLayout | colorlight.py:336-349 | the flash-save payload is 16 bytes: 0F 01, then zeros |
| Frames.Clamp | colorlight.py:444-447 | `max(0, min(255, x))`: x itself inside 0..255, 0 below, 255 above |
| Frames.BrightnessLayout | colorlight.py:428-455 | the brightness payload is 63 bytes: the three clamped channel values, FF, then zeros |
| Frames.DisplayPayloadLayout | colorlight.py:399-426 | the display payload is refused (ValueError) exactly when the brightness is not a byte; otherwise it is 98 bytes: 07 at 0, brightness at 22, 05 at 23, R G B at 25-27, and zeros everywhere else |
| Chunking.ChunksFromShape | colorlight.py:518-523 | chunk i of `range(start, width, 497)` starts 497·i after `start` and holds min(497, rest) pixels |
| Chunking.ChunksFromSum | colorlight.py:518-523 | the chunk counts add up to the pixels left in the row |
| Chunking.ChunksTileRow | colorlight.py:515-523 | a row has chunks exactly when its width is positive; each holds 1 to 497 pixels; the first starts at 0; each starts where the previous one ends; the last ends at the width; the counts add up to the width |
| Chunking.ChunksCoverRow | colorlight.py:515-523 | pixel x is in chunk i exactly when 0 <= x < width and i = x div 497: no gap and no overlap |
| Chunking.ChunkAt | colorlight.py:518-521 | chunk k exists exactly when 497·k < width; it starts at 497·k and holds min(497, width - 497·k) pixels |
| Chunking.NarrowRowIsOneChunk | colorlight.py:515-516 | a row of 1 to 497 pixels is one chunk at offset 0 |
| Chunking.Row1024 | colorlight.py:518-523 | a 1024-pixel row is sent as (0, 497), (497, 497), (994, 30) |
| Transport.DeliveredIsOkPrefix | colorlight.py:205-206 | the frames that reach the socket are the successful attempts before the first failure; the operation passes exactly when every attempt got through, and otherwise reports the first failure's error |
| Transport.PlanFailIgnoresRest | colorlight.py:205-206 | nothing after a failed attempt is sent, and the failure is what the whole operation reports |
| Driver.WideRowPlan | colorlight.py:515-523 | a row wider than 497 pixels is attempted as one frame per chunk; frame i carries the remapped bytes of pixels 497·i up to 497·i + min(497, width - 497·i), at that offset, and those bytes lie inside the row |
| Driver.ConfigureSequence | colorlight.py:351-397 | `configure_receiver` sends config types 02, 03, 05, 1B in that order, then 2B only when saving; every frame has sequence 0 and a zero controller address; with no ports the routing enables ports 0-7; the flash payload starts 0F 01 |
| Driver.DefaultRouting | colorlight.py:378-380 | the default routing table is `(i, 0x00, 0x01)` for ports 0-7 |
| Driver.SolidRedRowBgr | colorlight.py:503-516 | a 320-pixel solid-red row under "BGR" is FF 00 00 per pixel, after the row number and the header 00 00 01 40 08 88 |
| Driver.Create | colorlight.py:134-156 | the constructor checks the colour order first (ValueError), then refuses a negative size; on success the driver is closed, brightness is 255 and (255, 255, 255), the framebuffer is height × width of black, and nothing has been sent |
| Driver.ColorLight5A75B.constructor | colorlight.py:134-156 | the initial state for a valid order and size |
| Driver.ColorLight5A75B.Open | colorlight.py:174-184 | the socket is open afterwards |
| Driver.ColorLight5A75B.Close | colorlight.py:186-190 | the socket is closed afterwards |
| Driver.ColorLight5A75B.SetColorOrder | colorlight.py:158-172 | the order is upper-cased; a preset name sets the order and its table; any other name fails with InvalidColorOrder and changes nothing |
| Driver.ColorLight5A75B.SendPacket | colorlight.py:200-210 | with the socket open, exactly the display frame is appended to the log; otherwise SocketNotOpen and nothing is sent |
| Driver.ColorLight5A75B.SendConfigPacket | colorlight.py:212-247 | with the socket open, exactly `ConfigFrame(type, payload, addr, sequence)` is appended; otherwise SocketNotOpen |
| Driver.ColorLight5A75B.SendPortRouting | colorlight.py:258-284 | the payload built byte by byte in the loops is `RoutingPayload(ports)`, and it goes out as config type 03 |
| Driver.ColorLight5A75B.SendControlArea | colorlight.py:286-301 | sends `ControlAreaPayload(card_index, area)` as config type 02 |
| Driver.ColorLight5A75B.SendBasicParams | colorlight.py:303-334 | the 32-byte buffer filled in place is `BasicParamsPayload(...)`, and it goes out as config type 05 |
| Driver.ColorLight5A75B.SaveToFlash | colorlight.py:336-349 | sends the flash-save payload as config type 2B |
| Driver.ColorLight5A75B.ConfigureReceiver | colorlight.py:351-397 | with the socket open, the log grows by exactly `ConfigureFrames(...)`; with it closed, the first send fails and nothing is sent |
| Driver.ColorLight5A75B.SendDisplayFrame | colorlight.py:399-426 | the display frame with the current brightness goes out, or ValueError for a brightness outside 0..255, or SocketNotOpen |
| Driver.ColorLight5A75B.SendBrightness | colorlight.py:428-455 | the values that are given are clamped and stored, the others are kept; the 63-byte brightness frame for the stored RGB goes out, or SocketNotOpen |
| Driver.ColorLight5A75B.SendRow | colorlight.py:457-487 | struct.error for a header field outside 16 bits, checked before the socket; otherwise the row frame goes out, or SocketNotOpen |
| Driver.ColorLight5A75B.SendFrame | colorlight.py:489-527 | an image of the wrong shape fails with ImageShapeError and changes nothing; otherwise the image (if given) becomes the framebuffer, and the log grows by the frames of `FramePlan` (every row top to bottom, remapped and chunked, then the display frame) up to the first failure, which is reported |
| Driver.ColorLight5A75B.SendFramebuffer | colorlight.py:497-527 | the framebuffer is unchanged, and the log grows by `FramePlan` for it up to the first failure |
| Driver.ColorLight5A75B.SendRows | colorlight.py:497-523 | the row loop delivers the rows' plans one after another, stopping at the first failure |
| Driver.ColorLight5A75B.SendFramebufferRow | colorlight.py:498-523 | one row: remapped through the colour map; sent whole at offset 0 when width <= 497, chunk by chunk otherwise |
| Driver.ColorLight5A75B.SendRowChunks | colorlight.py:518-523 | the chunk loop delivers `ChunkPlan` for the row's chunks up to the first failure |
| Driver.ColorLight5A75B.SendChunk | colorlight.py:519-523 | one turn of the chunk loop sends exactly chunk k of the row |
| Driver.ColorLight5A75B.SetPixel | colorlight.py:534-537 | an on-screen (x, y) changes exactly that pixel; any other (x, y) changes nothing |
| Driver.ColorLight5A75B.Clear | colorlight.py:529-532 | every pixel becomes the colour, then the frame is sent as `SendFrame` does |
| Rcvbp.Guard | rcvbp_parser.py:157-216 | every field's guard covers the bytes the field is read from |
| Rcvbp.DecompressOutcome | rcvbp_parser.py:118-135 | decompression fails exactly for a file under 0x24 bytes or a compressed stream zlib rejects; a stored file gives the bytes from 0x14 on, a compressed one the inflation of the bytes from 0x20 on |
| Rcvbp.ContainerRoundTrip | rcvbp_parser.py:118-135 | a file built from a header, a flags word and a body decompresses back to that body (stored), or to the inflation of the body after byte 0x20 (compressed) |
| Rcvbp.ParseRcvbp | rcvbp_parser.py:138-218 | the parser's result is `Parsed(raw, inflate)` |
| Rcvbp.ReadFields | rcvbp_parser.py:157-216 | the guarded assignments, applied in the source's order, give `Decoded(data, ...)` |
| Rcvbp.FieldValues | rcvbp_parser.py:157-216 | each of the 22 fields is read from its offset (byte, `<H` or `<f` bits) when the body reaches its guard, and keeps its default otherwise |
| Rcvbp.ParsedFields | rcvbp_parser.py:157-216 | every field of the decoded configuration is the table's reading of the body |
| Rcvbp.ParsedOutcome | rcvbp_parser.py:138-156 | `raw_size` is the file size; `is_compressed` is true exactly when the file has a flags word with bit 0x4 set; the fields come from the decompressed body, or from the raw bytes when decompression fails |
| Rcvbp.TenByteFile | rcvbp_parser.py:138-162 | a 10-byte file gives the defaults, except module width and height (raw bytes 4 and 5) and the size 10 |
| Rcvbp.FieldLocality | rcvbp_parser.py:157-216 | a field of a body shorter than its guard is the default; two bodies that agree up to a field's guard agree on that field |
| Rcvbp.WhiteBalanceReadAsGroup | rcvbp_parser.py:172-175 | a body of 0x2D bytes holds byte 0x2C, yet white balance R stays 0, because the group is read only as a whole |
| Rcvbp.FieldAtOffsets | rcvbp_parser.py:157-216 | the fields' byte ranges do not overlap |
| Rcvbp.EncodeRoundTrip | rcvbp_parser.py:157-216 | writing a configuration's fields at their offsets and decoding gives back every field whose value fits its size |
| RcvbpLabels.CascadeDirectionLabels | rcvbp_parser.py:65-73 | codes 0-3 get their direction labels and every other code an "Unknown (n)" label; different codes never share a label |
| RcvbpLabels.GrayscaleModeLabels | rcvbp_parser.py:76-84 | exactly the modes other than 0x07, 0x81 and 0x85 are "Unknown (0x..)", and the hex digits read back as the mode; different modes never share a label |
| RcvbpLabels.ScanRateLabels | rcvbp_parser.py:86-89 | the label is "1:" + decimal + " scan", whose digits read back as the scan mode, so the label determines the mode |
| RcvbpLabels.ColorOrderLabels | rcvbp_parser.py:91-115 | a triple gets a named label exactly when it is a permutation of {0, 1, 2}; a custom label shows each channel's target at characters 10, 15 and 20 |
| RcvbpLabels.DefaultColorOrder | rcvbp_parser.py:39-43 | the default exchange (2, 1, 0) is labelled "RGB (default)" and is the encoder's RGB table |
| RcvbpLabels.LabelsVersusPresets | rcvbp_parser.py:91-115 | the file's labels agree with the encoder's preset names for RGB, BGR, RBG and BRG; the table the encoder calls GRB is labelled "GBR", and the other way round |
| HexDump.DumpHex | rcvbp_parser.py:221-228 | the loop's output is the listing's lines joined with line breaks |
| HexDump.LineCount | rcvbp_parser.py:221-228 | there are ceil(min(length, len) / 16) lines, none when that is not positive, and line k starts with the address of offset + 16k and ": " |
| HexDump.AddressRoundTrip | rcvbp_parser.py:227 | an address below 0x10000 is exactly four upper-case hex digits that read back as the address |
| HexDump.ColumnsLayout | rcvbp_parser.py:224-227 | in a line for 1 to 16 bytes, byte j is two hex digits at column 3j of the hex field (reading back as the byte); the text column starts at 51 past the address and shows the byte, or "." if it is not printable |
| HexDump.LineLayout | rcvbp_parser.py:223-227 | the line for position i formats the address of offset + i and the bytes `data[i:i+16]` |
| HexDump.LineNoBreak | rcvbp_parser.py:224-227 | no line of the listing contains a line break |
| HexDump.DumpSplitsIntoLines | rcvbp_parser.py:221-228 | a non-empty listing, split at line breaks, gives back exactly its lines |

## Behaviour worth knowing

- Under "BGR" the position table is `[0, 1, 2]` (colorlight.py:125-132), so red (255, 0, 0) goes out as FF 00 00, while "RGB" (`[2, 1, 0]`) sends it as 00 00 FF (`ColorModel.RedOnTheWire`, `Driver.SolidRedRowBgr`).
- `decompress_rcvbp` raises for any file shorter than 0x24 bytes (rcvbp_parser.py:121-122), and `parse_rcvbp` then reads the fields from the raw bytes (rcvbp_parser.py:150-154). A 10-byte file therefore yields module width and height from bytes 4 and 5 (`Rcvbp.TenByteFile`), and a file of 0x14 to 0x23 bytes is read raw too, although `is_compressed` is taken from its flags word (rcvbp_parser.py:146-148; `Rcvbp.ParsedOutcome`).
- The control-area data is cut to ten bytes and never padded (colorlight.py:286-301, `Frames.ControlAreaLayout`).

## Left out

- Sockets: opening, binding and closing a raw `AF_PACKET` socket, and its privilege check (PermissionError), are reduced to the `socketOpen` flag. The bytes the socket accepts are the ghost log `sent`. A send error raised by the OS is not modelled.
- `time.sleep` delays in `configure_receiver` and `send_frame` are not modelled. They affect timing, not the bytes sent.
- `print` messages in `open`, `save_to_flash`, `configure_receiver` and `parse_rcvbp` are not modelled.
- `__enter__` / `__exit__`: these only call open and close.
- `load_image`, `show_image`, `test_pattern` and `main` in `colorlight.py`, and `main` in `rcvbp_parser.py`: image loading and command-line glue.
- `send_discovery` is not part of this model. It is outside the driver's configure and display path.
- `led_daemon.py`, `led_helpers.py` and `pycolorlight.py` are not part of this model.
- zlib is not modelled. It is the parameter `inflate`, and only its success or failure matters to the decoder.
- Reading the file from disk (`Path.read_bytes`) is left to the caller.
- `ColorModel.ToUpper`: `str.upper` is modelled for ASCII letters only. Non-ASCII case mappings (some change a string's length) are not modelled. No such string upper-cases to one of the six preset names, so the accept/reject decision is unchanged.
- `Rcvbp.FieldValues`: `gamma_value` and `min_oe_ns` are kept as the raw little-endian 32-bit pattern, not as floats. The `<f` conversion is floating point.
- `Driver.ColorLight5A75B.SendFrame`: the image is a sequence of rows of byte pixels. numpy's `astype(np.uint8)` wrap-around of wider element types, and Python tuples of other lengths, are not modelled.
- `Driver.ColorLight5A75B.ConfigureReceiver`: `ports` is a sequence. Python's `None` and `[]` are both the empty sequence, because `if ports:` treats them alike.
- `Driver.ColorLight5A75B.SendDisplayFrame`: the ValueError for a brightness outside 0..255 is modelled. The TypeError for a non-integer brightness is not.
- `Driver.ColorLight5A75B.SendBrightness`: `rgb` is a triple of integers. A Python 2-tuple is clamped and stored, and then the send raises IndexError at colorlight.py:451, leaving that 2-tuple as the state; a 4-tuple is stored whole and its first three values are sent. Neither is modelled.
- `Driver.ColorLight5A75B.SetPixel`: the colour is a `Pixel` of three bytes. Writing a Python tuple of another length, or with components outside 0..255, into the uint8 framebuffer (colorlight.py:537) raises or wraps in numpy; that is not modelled.
- `Driver.ColorLight5A75B.Clear`: the colour is a `Pixel` of three bytes. Broadcasting a tuple of another length, or with components outside 0..255, into the uint8 framebuffer (colorlight.py:531) raises or wraps in numpy; that is not modelled.
