/**
 * `createUUIDV4`: the `getRandomValues` branch, which masks 16 random bytes
 * into a version 4 UUID and prints them as 8-4-4-4-12 lower-case hex, and
 * the `Math.random` fallback, which fills a template one hex digit per
 * placeholder. The random bytes and the `Math.random()` draws are inputs.
 * The version nibble is that of section 4.1.3 of RFC 4122 and the variant
 * bits those of section 4.1.1.
 */
module Uuid {
  // ---------------------------------------------------------------------
  // Hex digits
  // ---------------------------------------------------------------------

  const HexDigits: string := "0123456789abcdef"

  predicate IsLowerHex(c: char) {
    '0' <= c <= '9' || 'a' <= c <= 'f'
  }

  /** `n.toString(16)` for one nibble. */
  function HexDigit(n: bv8): (c: char)
    requires n < 16
    ensures IsLowerHex(c)
  {
    HexDigits[n as int]
  }

  /** The nibble a lower-case hex digit denotes. */
  function HexValue(c: char): (n: bv8)
    requires IsLowerHex(c)
    ensures n < 16
  {
    if '0' <= c <= '9' then ((c as int) - ('0' as int)) as bv8
    else ((c as int) - ('a' as int) + 10) as bv8
  }

  lemma HexValueOfDigit(n: bv8)
    requires n < 16
    ensures HexValue(HexDigit(n)) == n
  {
    assert HexDigits == ['0', '1', '2', '3', '4', '5', '6', '7', '8', '9', 'a', 'b', 'c', 'd', 'e', 'f'];
  }

  /** `b.toString(16).padStart(2, "0")`: two digits, high nibble first. */
  function ByteHex(b: bv8): (s: string)
    ensures |s| == 2 && IsLowerHex(s[0]) && IsLowerHex(s[1])
  {
    [HexDigit(b >> 4), HexDigit(b & 0x0f)]
  }

  /** `Array.from(bytes, ...).join("")`. */
  function Hex(bytes: seq<bv8>): (h: string)
    ensures |h| == 2 * |bytes|
    ensures forall k | 0 <= k < |h| :: IsLowerHex(h[k])
  {
    if |bytes| == 0 then "" else ByteHex(bytes[0]) + Hex(bytes[1..])
  }

  /** The two hex digits of byte k sit at 2k and 2k + 1. */
  lemma {:induction false} HexAt(bytes: seq<bv8>, k: nat)
    requires k < |bytes|
    ensures Hex(bytes)[2 * k] == HexDigit(bytes[k] >> 4)
    ensures Hex(bytes)[2 * k + 1] == HexDigit(bytes[k] & 0x0f)
    decreases k
  {
    if k > 0 {
      HexAt(bytes[1..], k - 1);
    }
  }

  /** Reads hex back into bytes, two digits per byte. */
  function Unhex(h: string): (bytes: seq<bv8>)
    requires |h| % 2 == 0 && forall k | 0 <= k < |h| :: IsLowerHex(h[k])
    ensures |bytes| == |h| / 2
    decreases |h|
  {
    if |h| == 0 then [] else [(HexValue(h[0]) << 4) | HexValue(h[1])] + Unhex(h[2..])
  }

  /** Reading the hex back gives the bytes. */
  lemma {:induction false} UnhexHex(bytes: seq<bv8>)
    ensures Unhex(Hex(bytes)) == bytes
    decreases |bytes|
  {
    if |bytes| > 0 {
      var b := bytes[0];
      var h := Hex(bytes);
      assert h == ByteHex(b) + Hex(bytes[1..]);
      assert h[2..] == Hex(bytes[1..]);
      HexValueOfDigit(b >> 4);
      HexValueOfDigit(b & 0x0f);
      assert ((b >> 4) << 4) | (b & 0x0f) == b;
      UnhexHex(bytes[1..]);
    }
  }

  // ---------------------------------------------------------------------
  // The getRandomValues branch
  // ---------------------------------------------------------------------

  /** The RFC 4122 version 4 bits: byte 6 gets version 4, byte 8 the 10xx variant. */
  function Masked(bytes: seq<bv8>): (m: seq<bv8>)
    requires |bytes| == 16
    ensures |m| == 16
  {
    bytes[6 := (bytes[6] & 0x0f) | 0x40][8 := (bytes[8] & 0x3f) | 0x80]
  }

  /** `hex.slice(0, 8) + "-" + ... + hex.slice(20)`. */
  function Dashed(hex: string): (u: string)
    requires |hex| == 32
    ensures |u| == 36
  {
    hex[0..8] + "-" + hex[8..12] + "-" + hex[12..16] + "-" + hex[16..20] + "-" + hex[20..]
  }

  /** Drops the four dashes again. */
  function Undashed(u: string): (hex: string)
    requires |u| == 36
    ensures |hex| == 32
  {
    u[0..8] + u[9..13] + u[14..18] + u[19..23] + u[24..]
  }

  lemma UndashDashed(hex: string)
    requires |hex| == 32
    ensures Undashed(Dashed(hex)) == hex
  {
    var u := Dashed(hex);
    assert u[0..8] == hex[0..8];
    assert u[9..13] == hex[8..12];
    assert u[14..18] == hex[12..16];
    assert u[19..23] == hex[16..20];
    assert u[24..] == hex[20..];
    assert hex == hex[0..8] + hex[8..12] + hex[12..16] + hex[16..20] + hex[20..];
  }

  /** Position k of the dashed string, as an offset into the hex. */
  lemma DashedAt(hex: string, k: nat)
    requires |hex| == 32 && k < 36
    ensures k in {8, 13, 18, 23} ==> Dashed(hex)[k] == '-'
    ensures k < 8 ==> Dashed(hex)[k] == hex[k]
    ensures 8 < k < 13 ==> Dashed(hex)[k] == hex[k - 1]
    ensures 13 < k < 18 ==> Dashed(hex)[k] == hex[k - 2]
    ensures 18 < k < 23 ==> Dashed(hex)[k] == hex[k - 3]
    ensures 23 < k ==> Dashed(hex)[k] == hex[k - 4]
  {
  }

  /** The textual shape every version 4 UUID produced here has. */
  predicate IsV4(u: string) {
    && |u| == 36
    && u[8] == '-' && u[13] == '-' && u[18] == '-' && u[23] == '-'
    && (forall k | 0 <= k < 36 && k != 8 && k != 13 && k != 18 && k != 23 :: IsLowerHex(u[k]))
    && u[14] == '4'
    && u[19] in "89ab"
  }

  /** The dashed hex of masked bytes has the version 4 shape. */
  lemma MaskedIsV4(bytes: seq<bv8>)
    requires |bytes| == 16
    ensures IsV4(Dashed(Hex(Masked(bytes))))
  {
    var m := Masked(bytes);
    var hex := Hex(m);
    var u := Dashed(hex);
    forall k | 0 <= k < 36
      ensures k in {8, 13, 18, 23} ==> u[k] == '-'
      ensures k !in {8, 13, 18, 23} ==> IsLowerHex(u[k])
    {
      DashedAt(hex, k);
    }
    DashedAt(hex, 14);
    DashedAt(hex, 19);
    HexAt(m, 6);
    HexAt(m, 8);
    assert m[6] >> 4 == 4;
    var v := m[8] >> 4;
    assert 8 <= v <= 11;
    assert HexDigits == ['0', '1', '2', '3', '4', '5', '6', '7', '8', '9', 'a', 'b', 'c', 'd', 'e', 'f'];
    assert u[19] == HexDigit(v);
  }

  /**
   * The branch's work: copy the random bytes into a `Uint8Array`, set the
   * version and variant bits in place, then print the dashed hex.
   */
  method FromRandomBytes(random: seq<bv8>) returns (uuid: string)
    requires |random| == 16
    ensures uuid == Dashed(Hex(Masked(random)))
    ensures IsV4(uuid)
    ensures Unhex(Undashed(uuid)) == Masked(random)
  {
    var bytes := new bv8[16](k requires 0 <= k < 16 => random[k]);
    assert bytes[..] == random;
    bytes[6] := (bytes[6] & 0x0f) | 0x40;
    bytes[8] := (bytes[8] & 0x3f) | 0x80;
    assert bytes[..] == Masked(random);
    var hex := Hex(bytes[..]);
    uuid := hex[0..8] + "-" + hex[8..12] + "-" + hex[12..16] + "-" + hex[16..20] + "-" + hex[20..];
    MaskedIsV4(random);
    UndashDashed(hex);
    UnhexHex(bytes[..]);
  }

  /** Masking keeps every byte but 6 and 8, the low nibble of 6 and the low six bits of 8. */
  lemma MaskKeepsRandomBits(bytes: seq<bv8>)
    requires |bytes| == 16
    ensures forall k | 0 <= k < 16 && k != 6 && k != 8 :: Masked(bytes)[k] == bytes[k]
    ensures Masked(bytes)[6] & 0x0f == bytes[6] & 0x0f
    ensures Masked(bytes)[8] & 0x3f == bytes[8] & 0x3f
  {
  }

  // ---------------------------------------------------------------------
  // The Math.random fallback
  // ---------------------------------------------------------------------

  const Template: string := "xxxxxxxx-xxxx-4xxx-yxxx-xxxxxxxxxxxx"

  /** `(Math.random() * 16) | 0` for a draw r in [0, 1). */
  function Nibble(r: real): (n: bv8)
    requires 0.0 <= r < 1.0
    ensures n < 16
  {
    var x := r * 16.0;
    assert x < 16.0;
    x.Floor as bv8
  }

  /** `Math.random()` as a stream of draws in [0, 1), the n-th call giving `draws(n)`. */
  ghost predicate ValidDraws(draws: nat -> real) {
    forall n: nat :: 0.0 <= draws(n) < 1.0
  }

  /**
   * `t.replace(/[xy]/g, ...)` with the draws from `next` on: each 'x'
   * becomes the digit of a draw's nibble r, each 'y' the digit of
   * `(r & 0x3) | 0x8`; other characters stay and take no draw.
   */
  function Fill(t: string, draws: nat -> real, next: nat): (u: string)
    requires ValidDraws(draws)
    ensures |u| == |t|
    decreases |t|
  {
    if |t| == 0 then ""
    else if t[0] == 'x' then [HexDigit(Nibble(draws(next)))] + Fill(t[1..], draws, next + 1)
    else if t[0] == 'y' then [HexDigit((Nibble(draws(next)) & 0x3) | 0x8)] + Fill(t[1..], draws, next + 1)
    else [t[0]] + Fill(t[1..], draws, next)
  }

  /** Characters of the template other than placeholders come through; placeholders become hex. */
  lemma {:induction false} FillAt(t: string, draws: nat -> real, next: nat, k: nat)
    requires ValidDraws(draws) && k < |t|
    ensures t[k] !in "xy" ==> Fill(t, draws, next)[k] == t[k]
    ensures t[k] == 'x' ==> IsLowerHex(Fill(t, draws, next)[k])
    ensures t[k] == 'y' ==> Fill(t, draws, next)[k] in "89ab"
    decreases k
  {
    if k == 0 {
      if t[0] == 'y' {
        var v := (Nibble(draws(next)) & 0x3) | 0x8;
        assert 8 <= v <= 11;
        assert HexDigits == ['0', '1', '2', '3', '4', '5', '6', '7', '8', '9', 'a', 'b', 'c', 'd', 'e', 'f'];
      }
    } else {
      FillAt(t[1..], draws, if t[0] in "xy" then next + 1 else next, k - 1);
    }
  }

  /** The layout of the fallback template: placeholders, the version digit and four dashes. */
  predicate V4Template(t: string) {
    && |t| == 36
    && (forall k | 0 <= k < 36 :: t[k] in "xy4-")
    && (forall k | 0 <= k < 36 && t[k] == '-' :: k == 8 || k == 13 || k == 18 || k == 23)
    && t[8] == '-' && t[13] == '-' && t[18] == '-' && t[23] == '-'
    && t[14] == '4' && t[19] == 'y'
  }

  lemma TemplateLayout()
    ensures V4Template(Template)
  {
  }

  /** Filling a template of that layout gives the version 4 shape. */
  lemma FillV4(t: string, draws: nat -> real)
    requires ValidDraws(draws) && V4Template(t)
    ensures IsV4(Fill(t, draws, 0))
  {
    var u := Fill(t, draws, 0);
    forall k | 0 <= k < 36 && k != 8 && k != 13 && k != 18 && k != 23
      ensures IsLowerHex(u[k])
    {
      FillAt(t, draws, 0, k);
    }
    FillAt(t, draws, 0, 8);
    FillAt(t, draws, 0, 13);
    FillAt(t, draws, 0, 18);
    FillAt(t, draws, 0, 23);
    FillAt(t, draws, 0, 14);
    FillAt(t, draws, 0, 19);
  }

  /** The fallback output has the same version 4 shape as the byte branch. */
  lemma FallbackIsV4(draws: nat -> real)
    requires ValidDraws(draws)
    ensures IsV4(Fill(Template, draws, 0))
  {
    TemplateLayout();
    FillV4(Template, draws);
  }

  /** `createUUIDV4` without `crypto`: the filled template. */
  function FromMathRandom(draws: nat -> real): (uuid: string)
    requires ValidDraws(draws)
    ensures IsV4(uuid)
  {
    FallbackIsV4(draws);
    Fill(Template, draws, 0)
  }
}
