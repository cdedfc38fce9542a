/** Bytes, optional values and the little/big-endian integer encodings
    shared by the wire encoder and the configuration-file decoder. */
module Bytes {

  /** A Python `bytes`/`bytearray` element. */
  type byte = x: int | 0 <= x < 256

  datatype Option<+T> = None | Some(value: T)

  datatype Result<+T, +E> = Ok(value: T) | Err(error: E)

  function Min(a: int, b: int): int { if a <= b then a else b }

  function Max(a: int, b: int): int { if a <= b then b else a }

  /** `bytes(n)` / `bytearray(n)`: n zero bytes. */
  function Zeros(n: nat): (z: seq<byte>)
    ensures |z| == n
    ensures forall i :: 0 <= i < n ==> z[i] == 0
  {
    seq(n, _ => 0)
  }

  /** Python's `x & 0xFF` on an arbitrary (possibly negative) integer:
      the two's-complement low byte, which is the Euclidean remainder. */
  function Low8(x: int): byte { x % 256 }

  /** Python's `s[lo:hi]` for non-negative bounds: both ends are clamped
      to the length of `s`, and an inverted range is empty. */
  function PySlice<T>(s: seq<T>, lo: nat, hi: nat): (r: seq<T>)
    ensures lo <= hi <= |s| ==> r == s[lo..hi]
    ensures |r| == Max(0, Min(hi, |s|) - lo)
  {
    var h := Min(hi, |s|);
    var l := Min(lo, h);
    s[l..h]
  }

  /** `struct.pack(">H", x)`: two bytes, most significant first. */
  function Be16(x: int): seq<byte>
    requires 0 <= x < 0x1_0000
  {
    [x / 256, x % 256]
  }

  /** `struct.unpack_from(">H", s, off)`. */
  function U16Be(s: seq<byte>, off: nat): nat
    requires off + 2 <= |s|
  {
    s[off] as int * 256 + s[off + 1] as int
  }

  /** `struct.unpack_from("<H", s, off)`. */
  function U16Le(s: seq<byte>, off: nat): nat
    requires off + 2 <= |s|
  {
    s[off] as int + s[off + 1] as int * 256
  }

  /** `struct.unpack_from("<I", s, off)`. */
  function U32Le(s: seq<byte>, off: nat): nat
    requires off + 4 <= |s|
  {
    s[off] as int + s[off + 1] as int * 0x100 + s[off + 2] as int * 0x1_0000
      + s[off + 3] as int * 0x100_0000
  }

  /** `struct.pack("<I", x)`: four bytes, least significant first. */
  function Le32(x: int): seq<byte>
    requires 0 <= x < 0x1_0000_0000
  {
    [x % 0x100, (x / 0x100) % 0x100, (x / 0x1_0000) % 0x100, x / 0x100_0000]
  }

  lemma Le32RoundTrip(x: int)
    requires 0 <= x < 0x1_0000_0000
    ensures |Le32(x)| == 4 && U32Le(Le32(x), 0) == x
  {
    var a, b, c := x / 0x100, x / 0x1_0000, x / 0x100_0000;
    assert x == a * 0x100 + x % 0x100;
    assert a == (a / 0x100) * 0x100 + a % 0x100 && a / 0x100 == b;
    assert b == (b / 0x100) * 0x100 + b % 0x100 && b / 0x100 == c;
  }

  lemma Be16RoundTrip(x: int)
    requires 0 <= x < 0x1_0000
    ensures U16Be(Be16(x), 0) == x
  {
  }
}
