/** The client keeps every message as a hexadecimal text: byte k of a message sits
    at digits 2k and 2k+1, and single digits (nibbles) are read on their own for
    the header flags. This module holds that representation and the Python
    built-ins the client applies to it: slicing, int(s, 16), int(s), the
    hex(n).lstrip("0x").zfill(w) formatting of the query builder, and str(n). */
module Hex {
  import opened Errors

  /** One hexadecimal digit. */
  type Nibble = x: int | 0 <= x < 16

  /** A hexadecimal text, most significant digit first. */
  type Digits = seq<Nibble>

  function Pow16(n: nat): (r: nat)
    ensures r > 0
  {
    if n == 0 then 1 else 16 * Pow16(n - 1)
  }

  lemma {:induction false} Pow16Monotone(a: nat, b: nat)
    requires a <= b
    ensures Pow16(a) <= Pow16(b)
    decreases b
  {
    if a < b {
      Pow16Monotone(a, b - 1);
    }
  }

  function Min(a: int, b: int): int
  {
    if a < b then a else b
  }

  /** Python's s[i:j] for non-negative bounds: clamped to the text, empty when j <= i. */
  function Slice(s: Digits, i: nat, j: nat): (r: Digits)
    ensures |r| == (if i < j && i < |s| then Min(j, |s|) - i else 0)
    ensures forall k :: 0 <= k < |r| ==> r[k] == s[i + k]
  {
    if i < j && i < |s| then s[i..Min(j, |s|)] else []
  }

  lemma {:induction false} SliceInside(s: Digits, i: nat, j: nat)
    requires i <= j <= |s|
    ensures Slice(s, i, j) == s[i..j]
  {
  }

  /** The number a hexadecimal text denotes. */
  function Value(s: Digits): (r: nat)
    ensures r < Pow16(|s|)
  {
    if s == [] then 0
    else
      var v := Value(s[..|s| - 1]);
      assert v <= Pow16(|s| - 1) - 1;
      assert v * 16 <= Pow16(|s|) - 16;
      v * 16 + s[|s| - 1]
  }

  lemma {:induction false} ValueAppend(s: Digits, d: Nibble)
    ensures Value(s + [d]) == Value(s) * 16 + d
  {
    assert (s + [d])[..|s|] == s;
  }

  /** int(s, 16): an empty slice raises ValueError. */
  function ParseHex(s: Digits): (r: Result<nat>)
    ensures r.Ok? <==> s != []
    ensures r.Ok? ==> r.value < Pow16(|s|)
  {
    if s == [] then Err(ValueError) else Ok(Value(s))
  }

  predicate DecimalDigits(s: Digits)
  {
    forall k :: 0 <= k < |s| ==> s[k] < 10
  }

  /** The number a text of decimal digits denotes. */
  function DecimalValue(s: Digits): nat
    requires DecimalDigits(s)
  {
    if s == [] then 0 else DecimalValue(s[..|s| - 1]) * 10 + s[|s| - 1]
  }

  /** int(s) in base 10: an empty slice, or one holding a digit a..f, raises ValueError. */
  function ParseDecimal(s: Digits): (r: Result<nat>)
    ensures r.Ok? <==> s != [] && DecimalDigits(s)
  {
    if s != [] && DecimalDigits(s) then Ok(DecimalValue(s)) else Err(ValueError)
  }

  /** hex(n).lstrip("0x"): the digits of n without leading zeros. The lstrip also
      removes the single digit of hex(0), so zero gives no digit at all. */
  function HexDigits(n: nat): (r: Digits)
    decreases n
  {
    if n == 0 then [] else HexDigits(n / 16) + [n % 16]
  }

  function Zeros(k: nat): (r: Digits)
    ensures |r| == k && forall i :: 0 <= i < k ==> r[i] == 0
  {
    if k == 0 then [] else [0] + Zeros(k - 1)
  }

  /** s.zfill(w): pad on the left with zeros up to width w; a longer text is kept whole. */
  function ZFill(s: Digits, w: nat): Digits
  {
    if |s| >= w then s else Zeros(w - |s|) + s
  }

  /** hex(n).lstrip("0x").zfill(w), the way the query builder writes every field. */
  function Field(n: nat, w: nat): Digits
  {
    ZFill(HexDigits(n), w)
  }

  lemma {:induction false} HexDigitsValue(n: nat)
    ensures Value(HexDigits(n)) == n
    decreases n
  {
    if n > 0 {
      HexDigitsValue(n / 16);
      ValueAppend(HexDigits(n / 16), n % 16);
    }
  }

  lemma {:induction false} HexDigitsLength(n: nat, w: nat)
    requires n < Pow16(w)
    ensures |HexDigits(n)| <= w
    decreases n
  {
    if n > 0 {
      assert w > 0;
      assert n / 16 < Pow16(w - 1);
      HexDigitsLength(n / 16, w - 1);
    }
  }

  lemma {:induction false} ValueZerosPrefix(k: nat, s: Digits)
    ensures Value(Zeros(k) + s) == Value(s)
    decreases |s|
  {
    if s == [] {
      assert Zeros(k) + s == Zeros(k);
      ValueOfZeros(k);
    } else {
      var init, last := s[..|s| - 1], s[|s| - 1];
      assert s == init + [last];
      assert Zeros(k) + s == (Zeros(k) + init) + [last];
      ValueAppend(Zeros(k) + init, last);
      ValueAppend(init, last);
      ValueZerosPrefix(k, init);
    }
  }

  lemma {:induction false} ValueOfZeros(k: nat)
    ensures Value(Zeros(k)) == 0
  {
    if k > 0 {
      assert Zeros(k) == Zeros(k - 1) + [0];
      ValueAppend(Zeros(k - 1), 0);
      ValueOfZeros(k - 1);
    }
  }

  /** A field that fits its width is written with exactly w digits and reads back as n. */
  lemma {:induction false} FieldRoundTrip(n: nat, w: nat)
    requires n < Pow16(w)
    ensures |Field(n, w)| == w
    ensures Value(Field(n, w)) == n
  {
    var h := HexDigits(n);
    HexDigitsLength(n, w);
    HexDigitsValue(n);
    if |h| < w {
      assert Field(n, w) == Zeros(w - |h|) + h;
      ValueZerosPrefix(w - |h|, h);
    } else {
      assert Field(n, w) == h;
    }
  }

  /** The digit of a decimal number, as str() writes it. */
  function DigitChar(d: nat): (c: char)
    requires d < 10
    ensures '0' <= c <= '9' && c as int - '0' as int == d
  {
    ('0' as int + d) as char
  }

  /** The number a text of decimal digit characters denotes, as int() reads it. */
  function DecimalText(s: string): nat
    requires forall k :: 0 <= k < |s| ==> '0' <= s[k] <= '9'
  {
    if s == [] then 0 else DecimalText(s[..|s| - 1]) * 10 + (s[|s| - 1] as int - '0' as int)
  }

  /** A text one digit longer denotes ten times as much, plus the digit. */
  lemma {:induction false} DecimalTextAppend(s: string, d: nat)
    requires d < 10 && forall k :: 0 <= k < |s| ==> '0' <= s[k] <= '9'
    ensures forall k :: 0 <= k < |s + [DigitChar(d)]| ==> '0' <= (s + [DigitChar(d)])[k] <= '9'
    ensures DecimalText(s + [DigitChar(d)]) == DecimalText(s) * 10 + d
  {
    assert (s + [DigitChar(d)])[..|s|] == s;
  }

  /** Python's (x >> k) & 1 on one hex digit, as a truth value. */
  function Bit(x: Nibble, k: nat): bool
    requires k < 4
  {
    ((x as bv8 >> k) & 1) == 1
  }
}
