/** Bytes, Java's signed view of them, and `String.getBytes(StandardCharsets.UTF_8)`. */
module Bytes {

  /** A byte, by its unsigned value. */
  type Byte = x: int | 0 <= x < 256

  /** The value Java sees in a `byte`, which is signed. */
  function Signed(b: Byte): (v: int)
    ensures -128 <= v < 128
    ensures v % 256 == b
  {
    if b < 128 then b else b - 256
  }

  /** The `(byte)` cast of an `int`: the low eight bits. */
  function ToByte(x: int): (b: Byte)
    ensures -128 <= x < 128 ==> Signed(b) == x
  {
    x % 256
  }

  predicate IsAscii(s: string) {
    forall i :: 0 <= i < |s| ==> s[i] < '\U{80}'
  }

  /** The UTF-8 encoding of one Unicode scalar value. */
  function EncodeChar(c: char): (r: seq<Byte>)
    ensures 1 <= |r| <= 4
    ensures c < '\U{80}' ==> r == [c as int]
  {
    var x := c as int;
    if x < 0x80 then [x]
    else if x < 0x800 then [0xC0 + x / 0x40, 0x80 + x % 0x40]
    else if x < 0x1_0000 then [0xE0 + x / 0x1000, 0x80 + (x / 0x40) % 0x40, 0x80 + x % 0x40]
    else [0xF0 + x / 0x4_0000, 0x80 + (x / 0x1000) % 0x40, 0x80 + (x / 0x40) % 0x40, 0x80 + x % 0x40]
  }

  /** `s.getBytes(StandardCharsets.UTF_8)`. */
  function Utf8(s: string): (r: seq<Byte>)
  {
    if s == [] then [] else EncodeChar(s[0]) + Utf8(s[1..])
  }

  /** UTF-8 takes at least one byte per character, and exactly one for ASCII. */
  lemma {:induction false} Utf8Length(s: string)
    ensures |Utf8(s)| >= |s|
    ensures IsAscii(s) ==> |Utf8(s)| == |s|
  {
    if s != [] {
      Utf8Length(s[1..]);
    }
  }

  lemma {:induction false} Utf8Concat(a: string, b: string)
    ensures Utf8(a + b) == Utf8(a) + Utf8(b)
  {
    if a == [] {
      assert a + b == b;
    } else {
      assert (a + b)[0] == a[0];
      assert (a + b)[1..] == a[1..] + b;
      Utf8Concat(a[1..], b);
    }
  }
}
