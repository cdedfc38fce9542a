/** The number formatting the decoder's labels and hex dump use:
    Python's `str(n)`, `format(n, "X")` and zero/space padding. */
module Text {
  import opened Bytes

  const Digits: string := "0123456789ABCDEF"

  function DigitChar(d: nat): char
    requires d < 16
  {
    Digits[d]
  }

  /** The value of a decimal or upper-case hexadecimal digit. */
  function DigitValue(c: char): nat
  {
    if '0' <= c <= '9' then (c - '0') as nat
    else if 'A' <= c <= 'F' then (c - 'A') as nat + 10
    else 0
  }

  predicate IsDigit(c: char, base: nat)
  {
    ('0' <= c <= '9' || 'A' <= c <= 'F') && DigitValue(c) < base
  }

  predicate AllDigits(s: string, base: nat)
  {
    forall i :: 0 <= i < |s| ==> IsDigit(s[i], base)
  }

  /** The shortest digit string of `n` in `base` (no sign, upper case):
      `str(n)` for base 10 and `format(n, "X")` for base 16. */
  function ToBase(n: nat, base: nat): (s: string)
    requires 2 <= base <= 16
    ensures 1 <= |s|
    decreases n
  {
    if n < base then [DigitChar(n)] else ToBase(n / base, base) + [DigitChar(n % base)]
  }

  /** Reads a digit string back; the inverse of ToBase. */
  function ValueOf(s: string, base: nat): nat
    decreases |s|
  {
    if s == [] then 0 else ValueOf(s[..|s| - 1], base) * base + DigitValue(s[|s| - 1])
  }

  function Pow(b: nat, e: nat): nat
  {
    if e == 0 then 1 else b * Pow(b, e - 1)
  }

  /** `str(n)` for a non-negative integer. */
  function Decimal(n: nat): string { ToBase(n, 10) }

  /** `s` right-aligned in a field of at least `w` characters, filled with `c`. */
  function PadLeft(s: string, w: nat, c: char): (r: string)
    ensures |r| == Max(|s|, w)
  {
    if |s| >= w then s else seq(w - |s|, _ => c) + s
  }

  /** `f"{s:<w}"`: `s` left-aligned in a field of at least `w` characters. */
  function PadRight(s: string, w: nat): (r: string)
    ensures |r| == Max(|s|, w)
  {
    if |s| >= w then s else s + seq(w - |s|, _ => ' ')
  }

  /** `f"{n:0wX}"`: upper-case hexadecimal, zero-filled to at least `w` digits. */
  function Hex(n: nat, w: nat): string { PadLeft(ToBase(n, 16), w, '0') }

  lemma DigitCharValue(d: nat)
    requires d < 16
    ensures DigitValue(DigitChar(d)) == d
    ensures forall base :: d < base ==> IsDigit(DigitChar(d), base)
  {
  }

  lemma {:induction false} ValueOfAppend(s: string, c: char, base: nat)
    ensures ValueOf(s + [c], base) == ValueOf(s, base) * base + DigitValue(c)
  {
    assert (s + [c])[..|s + [c]| - 1] == s;
  }

  /** Every character ToBase produces is a digit of the base. */
  lemma {:induction false} ToBaseDigits(n: nat, base: nat)
    requires 2 <= base <= 16
    ensures AllDigits(ToBase(n, base), base)
    decreases n
  {
    if n < base {
      DigitCharValue(n);
    } else {
      DigitCharValue(n % base);
      DivShrinks(n, base);
      ToBaseDigits(n / base, base);
    }
  }

  /** Formatting then reading back gives the number, so ToBase is injective. */
  lemma {:induction false} ToBaseRoundTrip(n: nat, base: nat)
    requires 2 <= base <= 16
    ensures ValueOf(ToBase(n, base), base) == n
    decreases n
  {
    if n < base {
      DigitCharValue(n);
      ValueOfAppend([], DigitChar(n), base);
      assert [] + [DigitChar(n)] == [DigitChar(n)];
    } else {
      var q, d := n / base, n % base;
      var t := ToBase(q, base);
      assert ToBase(n, base) == t + [DigitChar(d)];
      assert ValueOf(t, base) == q by {
        DivShrinks(n, base);
        ToBaseRoundTrip(q, base);
      }
      assert ValueOf(t + [DigitChar(d)], base) == q * base + d by {
        DigitCharValue(d);
        ValueOfAppend(t, DigitChar(d), base);
      }
      DivMod(n, base);
    }
  }

  lemma DivShrinks(n: nat, base: nat)
    requires 2 <= base <= n
    ensures n / base < n
  {
    var q := n / base;
    DivMod(n, base);
    AtLeastDouble(q, base);
  }

  lemma {:induction false} AtLeastDouble(q: nat, base: nat)
    requires 2 <= base
    ensures q * base >= 2 * q
  {
    if q > 0 {
      AtLeastDouble(q - 1, base);
      assert q * base == (q - 1) * base + base;
    }
  }

  lemma DivMod(n: nat, base: nat)
    requires 0 < base
    ensures n == (n / base) * base + n % base && n % base < base
  {
  }

  lemma DivBelow(n: nat, b: nat, p: nat)
    requires 0 < b && n < b * p
    ensures n / b < p
  {
    assert b * (n / b) <= n;
    assert b * (n / b) < b * p;
  }

  /** A number below `base^w` (w >= 1) needs at most `w` digits. */
  lemma {:induction false} ToBaseLength(n: nat, base: nat, w: nat)
    requires 2 <= base <= 16 && 1 <= w && n < Pow(base, w)
    ensures |ToBase(n, base)| <= w
    decreases w
  {
    assert Pow(base, w) == base * Pow(base, w - 1);
    assert Pow(base, 1) == base;
    if n >= base {
      assert w > 1;
      DivBelow(n, base, Pow(base, w - 1));
      ToBaseLength(n / base, base, w - 1);
    }
  }

  lemma {:induction false} LeadingZeros(k: nat, s: string, base: nat)
    ensures ValueOf(seq(k, _ => '0') + s, base) == ValueOf(seq(k, _ => '0'), base) * Pow(base, |s|) + ValueOf(s, base)
    ensures ValueOf(seq(k, _ => '0'), base) == 0
    decreases |s| + k
  {
    var z: string := seq(k, _ => '0');
    if s == [] {
      assert z + s == z;
      if k > 0 {
        assert z[..k - 1] == seq(k - 1, _ => '0');
        LeadingZeros(k - 1, [], base);
      }
    } else {
      var t := s[..|s| - 1];
      var c := s[|s| - 1];
      assert s == t + [c];
      assert z + s == (z + t) + [c];
      LeadingZeros(k, t, base);
      ValueOfAppend(z + t, c, base);
      ValueOfAppend(t, c, base);
    }
  }

  /** The zero-filled hexadecimal field reads back as the number. */
  lemma HexRoundTrip(n: nat, w: nat)
    ensures ValueOf(Hex(n, w), 16) == n
  {
    var s := ToBase(n, 16);
    ToBaseRoundTrip(n, 16);
    if |s| < w {
      LeadingZeros(w - |s|, s, 16);
    }
  }

  /** Every character of the zero-filled field is a hexadecimal digit. */
  lemma HexDigits(n: nat, w: nat)
    ensures AllDigits(Hex(n, w), 16)
  {
    var s := ToBase(n, 16);
    ToBaseDigits(n, 16);
    if |s| < w {
      var z: string := seq(w - |s|, _ => '0');
      assert Hex(n, w) == z + s;
      forall i | 0 <= i < |z + s|
        ensures IsDigit((z + s)[i], 16)
      {
        if i >= |z| { assert (z + s)[i] == s[i - |z|]; }
      }
    }
  }

  /** The field is exactly `w` digits wide when the number fits in `w` digits. */
  lemma HexWidth(n: nat, w: nat)
    requires 1 <= w && n < Pow(16, w)
    ensures |Hex(n, w)| == w
  {
    ToBaseLength(n, 16, w);
  }
}
