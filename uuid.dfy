/** java.util.UUID values and their canonical text. */
module Uuid {
  import opened Text

  function Pow16(k: nat): (p: nat)
    ensures p >= 1
  {
    if k == 0 then 1 else 16 * Pow16(k - 1)
  }

  /** A UUID as its 128-bit value. `UUID.randomUUID()` is a parameter wherever the source calls it. */
  type Uuid = x: nat | x < Pow16(32)

  predicate IsLowerHexDigit(c: char) { '0' <= c <= '9' || 'a' <= c <= 'f' }

  predicate IsLowerHex(s: string) { forall i :: 0 <= i < |s| ==> IsLowerHexDigit(s[i]) }

  function HexDigitChar(d: nat): (c: char)
    requires d < 16
    ensures IsLowerHexDigit(c)
  {
    if d < 10 then ('0' as int + d) as char else ('a' as int + d - 10) as char
  }

  function HexDigitValue(c: char): (d: nat)
    requires IsLowerHexDigit(c)
    ensures d < 16
  {
    if c <= '9' then c as int - '0' as int else c as int - 'a' as int + 10
  }

  /** The lowest `width` hexadecimal digits of `x`, most significant first, in lower case. */
  function HexFixed(x: nat, width: nat): (r: string)
    ensures |r| == width && IsLowerHex(r)
  {
    if width == 0 then [] else HexFixed(x / 16, width - 1) + [HexDigitChar(x % 16)]
  }

  function HexValue(s: string): nat
    requires IsLowerHex(s)
  {
    if s == [] then 0 else 16 * HexValue(s[..|s| - 1]) + HexDigitValue(s[|s| - 1])
  }

  /** Reading the fixed-width digits back gives `x` when `x` fits in them. */
  lemma {:induction false} HexFixedValue(x: nat, width: nat)
    requires x < Pow16(width)
    ensures HexValue(HexFixed(x, width)) == x
  {
    if width > 0 {
      var r := HexFixed(x, width);
      assert r[..|r| - 1] == HexFixed(x / 16, width - 1);
      HexFixedValue(x / 16, width - 1);
    }
  }

  /** `UUID.toString()`: 32 lower-case hex digits grouped 8-4-4-4-12. */
  function ToString(u: Uuid): (r: string)
    ensures |r| == 36
  {
    var h := HexFixed(u, 32);
    h[..8] + "-" + h[8..12] + "-" + h[12..16] + "-" + h[16..20] + "-" + h[20..]
  }

  lemma RemoveDashJoin(a: string, b: string)
    ensures RemoveChar(a + "-" + b, '-') == RemoveChar(a, '-') + RemoveChar(b, '-')
  {
    RemoveCharConcat(a + "-", b, '-');
    RemoveCharConcat(a, "-", '-');
  }

  lemma RemoveDashes5(p1: string, p2: string, p3: string, p4: string, p5: string)
    requires '-' !in p1 && '-' !in p2 && '-' !in p3 && '-' !in p4 && '-' !in p5
    ensures RemoveChar(p1 + "-" + p2 + "-" + p3 + "-" + p4 + "-" + p5, '-') == p1 + p2 + p3 + p4 + p5
  {
    RemoveDashJoin(p1, p2);
    RemoveDashJoin(p1 + "-" + p2, p3);
    RemoveDashJoin(p1 + "-" + p2 + "-" + p3, p4);
    RemoveDashJoin(p1 + "-" + p2 + "-" + p3 + "-" + p4, p5);
  }

  lemma DashlessText(h: string)
    requires |h| == 32 && IsLowerHex(h)
    ensures RemoveChar(h[..8] + "-" + h[8..12] + "-" + h[12..16] + "-" + h[16..20] + "-" + h[20..], '-') == h
  {
    var p1, p2, p3, p4, p5 := h[..8], h[8..12], h[12..16], h[16..20], h[20..];
    assert forall i :: 0 <= i < |p1| ==> p1[i] == h[i];
    assert forall i :: 0 <= i < |p2| ==> p2[i] == h[8 + i];
    assert forall i :: 0 <= i < |p3| ==> p3[i] == h[12 + i];
    assert forall i :: 0 <= i < |p4| ==> p4[i] == h[16 + i];
    assert forall i :: 0 <= i < |p5| ==> p5[i] == h[20 + i];
    RemoveDashes5(p1, p2, p3, p4, p5);
    assert h == p1 + p2 + p3 + p4 + p5;
  }

  /** Removing the dashes from the canonical text leaves the 32 digits, which determine the UUID. */
  lemma Dashless(u: Uuid)
    ensures RemoveChar(ToString(u), '-') == HexFixed(u, 32)
    ensures HexValue(HexFixed(u, 32)) == u
  {
    DashlessText(HexFixed(u, 32));
    HexFixedValue(u, 32);
  }
}
