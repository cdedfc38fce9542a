/** `dump_hex`: a hexadecimal listing of a byte string, sixteen bytes per
    line, each line the address, the bytes in hex and the bytes as text. */
module HexDump {
  import opened Bytes
  import opened Text

  /** `f"{n:04X}"`: four hex digits at least; a negative number keeps its
      sign in front and is zero-filled to four characters in all. */
  function Address(n: int): string
  {
    if n >= 0 then Hex(n, 4) else "-" + Hex(-n, 3)
  }

  /** `sep.join(parts)`. */
  function Join(parts: seq<string>, sep: char): string
  {
    if |parts| == 0 then ""
    else if |parts| == 1 then parts[0]
    else parts[0] + [sep] + Join(parts[1..], sep)
  }

  /** `s.split("\n")`: the pieces between line breaks, one more than there
      are breaks. */
  function SplitLines(s: string): (r: seq<string>)
    ensures |r| >= 1
  {
    if s == [] then [""]
    else
      var rest := SplitLines(s[1..]);
      if s[0] == '\n' then [""] + rest else [[s[0]] + rest[0]] + rest[1..]
  }

  /** The hex column: each byte as two digits, separated by spaces. */
  function HexColumn(chunk: seq<byte>): string
  {
    Join(seq(|chunk|, j requires 0 <= j < |chunk| => Hex(chunk[j], 2)), ' ')
  }

  /** The text column shows a printable ASCII byte (32..126) as itself and
      any other byte as a dot. */
  function Shown(b: byte): char
  {
    if 32 <= b < 127 then b as char else '.'
  }

  function TextColumn(chunk: seq<byte>): string
  {
    seq(|chunk|, j requires 0 <= j < |chunk| => Shown(chunk[j]))
  }

  /** `f"{address}: {hex:<48} {text}"`. */
  function Format(address: string, hex: string, text: string): string
  {
    address + ": " + PadRight(hex, 48) + " " + text
  }

  /** The line for the bytes from `i` on: `data[i:i+16]` is taken whole,
      even past the requested length. */
  function Line(data: seq<byte>, offset: int, i: nat): string
  {
    var chunk := PySlice(data, i, i + 16);
    Format(Address(offset + i), HexColumn(chunk), TextColumn(chunk))
  }

  /** The lines of `for i in range(0, min(length, len(data)), 16)`. */
  function Lines(data: seq<byte>, offset: int, length: int): seq<string>
  {
    var n := (Max(0, Min(length, |data|)) + 15) / 16;
    seq(n, k requires 0 <= k < n => Line(data, offset, 16 * k))
  }

  /** `dump_hex`: formats one line per 16 bytes, collecting them in order,
      then joins them with line breaks. */
  method DumpHex(data: seq<byte>, offset: int, length: int) returns (s: string)
    ensures s == Join(Lines(data, offset, length), '\n')
  {
    var lines: seq<string> := [];
    var stop := Min(length, |data|);
    var i := 0;
    while i < stop
      invariant i == 16 * |lines|
      invariant |lines| == 0 || 16 * (|lines| - 1) < stop
      invariant forall k :: 0 <= k < |lines| ==> lines[k] == Line(data, offset, 16 * k)
    {
      var line := Line(data, offset, i);
      LinesStep(lines, data, offset, line);
      lines := lines + [line];
      i := i + 16;
    }
    CeilDiv16(stop, |lines|);
    LinesAre(lines, data, offset, length);
    s := Join(lines, '\n');
  }

  lemma LinesStep(lines: seq<string>, data: seq<byte>, offset: int, line: string)
    requires forall k :: 0 <= k < |lines| ==> lines[k] == Line(data, offset, 16 * k)
    requires line == Line(data, offset, 16 * |lines|)
    ensures forall k :: 0 <= k < |lines| + 1 ==> (lines + [line])[k] == Line(data, offset, 16 * k)
  {
  }

  lemma LinesAre(lines: seq<string>, data: seq<byte>, offset: int, length: int)
    requires |lines| == (Max(0, Min(length, |data|)) + 15) / 16
    requires forall k :: 0 <= k < |lines| ==> lines[k] == Line(data, offset, 16 * k)
    ensures lines == Lines(data, offset, length)
  {
  }

  /** `c` lines of 16 bytes are what `m` bytes need. */
  lemma CeilDiv16(m: int, c: nat)
    requires (c == 0 && m <= 0) || (c > 0 && 16 * (c - 1) < m <= 16 * c)
    ensures (Max(0, m) + 15) / 16 == c
  {
  }

  // ---------------------------------------------------------------------
  // What the listing holds


  /** There are ceil(min(length, len(data)) / 16) lines, none when that is
      not positive: the last line starts before the end and the lines
      reach it. Line k starts with the address `offset + 16*k`. */
  lemma LineCount(data: seq<byte>, offset: int, length: int)
    ensures var lines, m := Lines(data, offset, length), Min(length, |data|);
      && (m <= 0 ==> lines == [])
      && (m > 0 ==> 16 * (|lines| - 1) < m <= 16 * |lines|)
      && forall k :: 0 <= k < |lines| ==>
           var a := Address(offset + 16 * k);
           |lines[k]| > |a| + 2 && lines[k][..|a| + 2] == a + ": "
  {
    var lines := Lines(data, offset, length);
    forall k | 0 <= k < |lines|
      ensures var a := Address(offset + 16 * k); |lines[k]| > |a| + 2 && lines[k][..|a| + 2] == a + ": "
    {
      var a := Address(offset + 16 * k);
      var chunk := PySlice(data, 16 * k, 16 * k + 16);
      assert lines[k] == (a + ": ") + (PadRight(HexColumn(chunk), 48) + " " + TextColumn(chunk));
    }
  }

  /** An address of a non-negative offset below 0x10000 is exactly four
      hex digits and reads back as the offset. */
  lemma AddressRoundTrip(n: int)
    requires 0 <= n < 0x1_0000
    ensures |Address(n)| == 4 && AllDigits(Address(n), 16) && ValueOf(Address(n), 16) == n
  {
    assert Pow(16, 4) == 0x1_0000;
    HexWidth(n, 4);
    HexDigits(n, 4);
    HexRoundTrip(n, 4);
  }

  /** Words of two characters joined by `sep`: word j sits at 3*j, the
      separator after it. */
  lemma {:induction false} JoinPairs(words: seq<string>, sep: char)
    requires |words| > 0 && forall j :: 0 <= j < |words| ==> |words[j]| == 2
    ensures |Join(words, sep)| == 3 * |words| - 1
    ensures forall j :: 0 <= j < |words| ==> Join(words, sep)[3 * j .. 3 * j + 2] == words[j]
    ensures forall j :: 0 <= j < |words| - 1 ==> Join(words, sep)[3 * j + 2] == sep
  {
    if |words| > 1 {
      var rest := Join(words[1..], sep);
      JoinPairs(words[1..], sep);
      var s := Join(words, sep);
      assert s == words[0] + [sep] + rest;
      forall j | 0 < j < |words|
        ensures s[3 * j .. 3 * j + 2] == words[j]
      {
        assert s[3 * j .. 3 * j + 2] == rest[3 * (j - 1) .. 3 * (j - 1) + 2];
      }
      forall j | 0 < j < |words| - 1
        ensures s[3 * j + 2] == sep
      {
        assert s[3 * j + 2] == rest[3 * (j - 1) + 2];
      }
    }
  }

  /** Where the parts of a formatted line sit: the address, ": ", the hex
      column padded to 48 characters, a space, the text column. */
  lemma FormatLayout(a: string, hex: string, text: string)
    requires |hex| <= 48
    ensures var line := Format(a, hex, text);
      && |line| == |a| + 51 + |text|
      && line[..|a| + 2] == a + ": "
      && line[|a| + 2 .. |a| + 2 + |hex|] == hex
      && line[|a| + 50] == ' '
      && line[|a| + 51 ..] == text
  {
    var padded := PadRight(hex, 48);
    assert padded[..|hex|] == hex;
    var line := Format(a, hex, text);
    assert line == (a + ": ") + padded + (" " + text);
  }

  /** The hex column of 1 to 16 bytes: byte j as two digits at 3*j, and
      at most 47 characters in all. */
  lemma HexColumnLayout(chunk: seq<byte>)
    requires 1 <= |chunk| <= 16
    ensures var hex := HexColumn(chunk);
      && |hex| == 3 * |chunk| - 1
      && forall j :: 0 <= j < |chunk| ==> hex[3 * j .. 3 * j + 2] == Hex(chunk[j], 2)
  {
    var words := seq(|chunk|, j requires 0 <= j < |chunk| => Hex(chunk[j], 2));
    assert HexColumn(chunk) == Join(words, ' ');
    forall j | 0 <= j < |chunk|
      ensures |words[j]| == 2
    {
      assert Pow(16, 2) == 256;
      HexWidth(chunk[j], 2);
    }
    JoinPairs(words, ' ');
    forall j | 0 <= j < |chunk|
      ensures HexColumn(chunk)[3 * j .. 3 * j + 2] == Hex(chunk[j], 2)
    {
      assert words[j] == Hex(chunk[j], 2);
    }
  }

  /** A line for 1 to 16 bytes: after the address and ": " come the bytes
      in hex, three characters per byte, each pair reading back as its
      byte, padded to 48 characters, a space, and the bytes as text, one
      character per byte. */
  lemma ColumnsLayout(a: string, chunk: seq<byte>)
    requires 1 <= |chunk| <= 16
    ensures var line := Format(a, HexColumn(chunk), TextColumn(chunk));
      && |line| == |a| + 51 + |chunk|
      && line[..|a| + 2] == a + ": "
      && (forall j :: 0 <= j < |chunk| ==>
            line[|a| + 2 + 3 * j .. |a| + 4 + 3 * j] == Hex(chunk[j], 2)
            && ValueOf(line[|a| + 2 + 3 * j .. |a| + 4 + 3 * j], 16) == chunk[j])
      && line[|a| + 50] == ' '
      && forall j :: 0 <= j < |chunk| ==> line[|a| + 51 + j] == Shown(chunk[j])
  {
    var hex, text := HexColumn(chunk), TextColumn(chunk);
    HexColumnLayout(chunk);
    FormatLayout(a, hex, text);
    var line := Format(a, hex, text);
    forall j | 0 <= j < |chunk|
      ensures line[|a| + 2 + 3 * j .. |a| + 4 + 3 * j] == Hex(chunk[j], 2)
      ensures ValueOf(line[|a| + 2 + 3 * j .. |a| + 4 + 3 * j], 16) == chunk[j]
    {
      assert line[|a| + 2 + 3 * j .. |a| + 4 + 3 * j] == hex[3 * j .. 3 * j + 2];
      HexRoundTrip(chunk[j], 2);
    }
    forall j | 0 <= j < |chunk|
      ensures line[|a| + 51 + j] == Shown(chunk[j])
    {
      assert line[|a| + 51 + j] == text[j];
    }
  }

  /** The line for the bytes from `i` on holds the address `offset + i`
      and the 1 to 16 bytes from `i` on, laid out as ColumnsLayout says. */
  lemma LineLayout(data: seq<byte>, offset: int, i: nat)
    requires i < |data|
    ensures var chunk := data[i..Min(i + 16, |data|)];
      && 1 <= |chunk| <= 16
      && Line(data, offset, i) == Format(Address(offset + i), HexColumn(chunk), TextColumn(chunk))
  {
    var chunk := data[i..Min(i + 16, |data|)];
    assert chunk == PySlice(data, i, i + 16);
  }

  // ---------------------------------------------------------------------
  // The listing splits back into its lines

  predicate NoBreak(s: string)
  {
    forall i :: 0 <= i < |s| ==> s[i] != '\n'
  }

  lemma ConcatNoBreak(a: string, b: string)
    requires NoBreak(a) && NoBreak(b)
    ensures NoBreak(a + b)
  {
    forall i | 0 <= i < |a + b| ensures (a + b)[i] != '\n' {
      if i >= |a| { assert (a + b)[i] == b[i - |a|]; }
    }
  }

  lemma {:induction false} JoinNoBreak(parts: seq<string>, sep: char)
    requires sep != '\n' && forall j :: 0 <= j < |parts| ==> NoBreak(parts[j])
    ensures NoBreak(Join(parts, sep))
  {
    if |parts| > 1 {
      JoinNoBreak(parts[1..], sep);
      ConcatNoBreak(parts[0], [sep]);
      ConcatNoBreak(parts[0] + [sep], Join(parts[1..], sep));
    }
  }

  lemma HexNoBreak(n: nat, w: nat)
    ensures NoBreak(Hex(n, w))
  {
    HexDigits(n, w);
  }

  /** No line of the listing contains a line break. */
  lemma LineNoBreak(data: seq<byte>, offset: int, i: nat)
    ensures NoBreak(Line(data, offset, i))
  {
    var chunk := PySlice(data, i, i + 16);
    var a := Address(offset + i);
    if offset + i >= 0 {
      HexNoBreak(offset + i, 4);
    } else {
      HexNoBreak(-(offset + i), 3);
      ConcatNoBreak("-", Hex(-(offset + i), 3));
    }
    var words := seq(|chunk|, j requires 0 <= j < |chunk| => Hex(chunk[j], 2));
    forall j | 0 <= j < |chunk| ensures NoBreak(words[j]) {
      HexNoBreak(chunk[j], 2);
    }
    JoinNoBreak(words, ' ');
    var hex := HexColumn(chunk);
    if |hex| < 48 {
      ConcatNoBreak(hex, seq(48 - |hex|, _ => ' '));
    }
    ConcatNoBreak(a, ": ");
    ConcatNoBreak(a + ": ", PadRight(hex, 48));
    ConcatNoBreak(a + ": " + PadRight(hex, 48), " ");
    ConcatNoBreak(a + ": " + PadRight(hex, 48) + " ", TextColumn(chunk));
  }

  /** Splitting at the first line break of `a + "\n" + t`. */
  lemma {:induction false} SplitAtBreak(a: string, t: string)
    requires NoBreak(a)
    ensures SplitLines(a + ['\n'] + t) == [a] + SplitLines(t)
    ensures SplitLines(a) == [a]
  {
    if a != [] {
      assert (a + ['\n'] + t)[1..] == a[1..] + ['\n'] + t;
      SplitAtBreak(a[1..], t);
      assert [a[0]] + a[1..] == a;
    }
  }

  /** Lines without breaks, joined with breaks, split back into themselves. */
  lemma {:induction false} SplitJoin(lines: seq<string>)
    requires |lines| > 0 && forall k :: 0 <= k < |lines| ==> NoBreak(lines[k])
    ensures SplitLines(Join(lines, '\n')) == lines
  {
    if |lines| == 1 {
      SplitAtBreak(lines[0], "");
    } else {
      SplitJoin(lines[1..]);
      SplitAtBreak(lines[0], Join(lines[1..], '\n'));
    }
  }

  /** The listing splits back into exactly its lines. */
  lemma DumpSplitsIntoLines(data: seq<byte>, offset: int, length: int)
    requires Min(length, |data|) > 0
    ensures SplitLines(Join(Lines(data, offset, length), '\n')) == Lines(data, offset, length)
  {
    var lines := Lines(data, offset, length);
    forall k | 0 <= k < |lines| ensures NoBreak(lines[k]) {
      LineNoBreak(data, offset, 16 * k);
    }
    SplitJoin(lines);
  }
}
