/**
 * `java.util.Base64.getDecoder().decode(String)`: the basic alphabet of section 4 of
 * RFC 4648, optional `=` padding, and an `IllegalArgumentException` (None) for every
 * character outside the alphabet, a lone final character, or anything after the padding.
 */
module Base64 {
  import opened Wrappers
  import opened Bytes

  /** The alphabet value of a character, or -1. */
  function Sextet(c: char): (v: int)
    ensures -1 <= v < 64
  {
    if 'A' <= c <= 'Z' then c as int - 'A' as int
    else if 'a' <= c <= 'z' then c as int - 'a' as int + 26
    else if '0' <= c <= '9' then c as int - '0' as int + 52
    else if c == '+' then 62
    else if c == '/' then 63
    else -1
  }

  predicate InAlphabet(s: string) {
    forall i :: 0 <= i < |s| ==> Sextet(s[i]) >= 0
  }

  type SextetValue = v: int | 0 <= v < 64

  /** Four sextets, 24 bits, as three bytes. */
  function Group(a: SextetValue, b: SextetValue, c: SextetValue, d: SextetValue): (r: seq<Byte>)
    ensures |r| == 3
  {
    [a * 4 + b / 16, (b % 16) * 16 + c / 4, (c % 4) * 64 + d]
  }

  /**
   * The bytes the sextets left at the end give: none for none, one for two, two for
   * three; a single left-over sextet has too few bits and is an error.
   */
  function Finish(p: seq<SextetValue>): (r: Option<seq<Byte>>)
    requires |p| < 4
    ensures r.Some? <==> |p| != 1
    ensures r.Some? ==> |r.value| == if |p| == 0 then 0 else |p| - 1
  {
    if |p| == 0 then Some([])
    else if |p| == 1 then None
    else
      var a, b: int := p[0], p[1];
      if |p| == 2 then Some([a * 4 + b / 16])
      else var c: int := p[2]; Some([a * 4 + b / 16, (b % 16) * 16 + c / 4])
  }

  function Prepend(prefix: seq<Byte>, rest: Option<seq<Byte>>): (r: Option<seq<Byte>>)
    ensures r.Some? <==> rest.Some?
    ensures r.Some? ==> r.value == prefix + rest.value
  {
    match rest
    case None => None
    case Some(bytes) => Some(prefix + bytes)
  }

  /** The decoder's loop, with the sextets of the unfinished group in `p`. */
  function DecodeFrom(s: string, p: seq<SextetValue>): Option<seq<Byte>>
    requires |p| < 4
    decreases |s|
  {
    if s == [] then Finish(p)
    else if s[0] == '=' then
      // Two pending sextets need "==", three need "=", and the input must end there.
      if |p| == 2 && s == "==" then Finish(p)
      else if |p| == 3 && s == "=" then Finish(p)
      else None
    else
      var v := Sextet(s[0]);
      if v < 0 then None
      else if |p| == 3 then Prepend(Group(p[0], p[1], p[2], v), DecodeFrom(s[1..], []))
      else DecodeFrom(s[1..], p + [v])
  }

  /** `Base64.getDecoder().decode(s)`, None where it throws. */
  function Decode(s: string): Option<seq<Byte>> {
    DecodeFrom(s, [])
  }

  /** The number of bytes `n` alphabet characters carry. */
  function DecodedLength(n: nat): nat {
    3 * (n / 4) + (if n % 4 == 2 then 1 else if n % 4 == 3 then 2 else 0)
  }

  /**
   * Unpadded text in the alphabet decodes exactly when its length is not one more than
   * a multiple of four, to three bytes per four characters and one or two for the rest.
   */
  lemma {:induction false} DecodeUnpadded(s: string, p: seq<SextetValue>)
    requires |p| < 4 && InAlphabet(s)
    ensures DecodeFrom(s, p).Some? <==> (|p| + |s|) % 4 != 1
    ensures DecodeFrom(s, p).Some? ==> |DecodeFrom(s, p).value| == DecodedLength(|p| + |s|)
  {
    if s != [] {
      assert Sextet(s[0]) >= 0;
      assert InAlphabet(s[1..]) by {
        forall i | 0 <= i < |s| - 1 ensures Sextet(s[1..][i]) >= 0 {
          assert s[1..][i] == s[i + 1];
        }
      }
      if |p| == 3 {
        DecodeUnpadded(s[1..], []);
        assert DecodedLength(|p| + |s|) == 3 + DecodedLength(|s| - 1);
      } else {
        DecodeUnpadded(s[1..], p + [Sextet(s[0])]);
      }
    }
  }

  /** Decoding never yields more than three bytes per four characters of input. */
  lemma {:induction false} DecodeBound(s: string, p: seq<SextetValue>)
    requires |p| < 4 && DecodeFrom(s, p).Some?
    ensures 4 * |DecodeFrom(s, p).value| <= 3 * (|p| + |s|)
  {
    if s != [] && s[0] != '=' {
      var v := Sextet(s[0]);
      if |p| == 3 {
        DecodeBound(s[1..], []);
      } else {
        DecodeBound(s[1..], p + [v]);
      }
    }
  }
}
