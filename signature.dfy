/**
 * The byte handling around EIP-191 `personal_sign` verification in AuthService:
 * the login message, the hex signature decoding of web3j's `Numeric`, the r/s/v
 * split and the final address comparison. Public-key recovery itself is a parameter.
 */
module Signature {
  import opened Wrappers
  import opened Text
  import opened Bytes

  /** `LOGIN_MESSAGE_PREFIX`. */
  const LoginMessagePrefix: string := "AudIon Login:\nnonce="

  /** The message a wallet signs to log in: the prefix and the nonce value (`null` when the value is missing). */
  function LoginMessage(value: Option<string>): (m: string)
    ensures StartsWith(m, LoginMessagePrefix)
    ensures value.Some? ==> m[|LoginMessagePrefix|..] == value.value
  {
    LoginMessagePrefix + match value { case Some(v) => v case None => "null" }
  }

  /** Two nonce values give the same login message only when they are equal. */
  lemma LoginMessageInjective(a: string, b: string)
    requires LoginMessage(Some(a)) == LoginMessage(Some(b))
    ensures a == b
  {
    assert a == LoginMessage(Some(a))[|LoginMessagePrefix|..];
  }

  // ---------------------------------------------------------------------------
  // Hex decoding (web3j `Numeric.hexStringToByteArray`)
  // ---------------------------------------------------------------------------

  /** `Character.digit(c, 16)` on ASCII: the digit's value, or -1. */
  function HexDigit(c: char): (d: int)
    ensures -1 <= d < 16
    ensures d == -1 <==> !(('0' <= c <= '9') || ('a' <= c <= 'f') || ('A' <= c <= 'F'))
  {
    if '0' <= c <= '9' then c as int - '0' as int
    else if 'a' <= c <= 'f' then c as int - 'a' as int + 10
    else if 'A' <= c <= 'F' then c as int - 'A' as int + 10
    else -1
  }

  predicate IsHexText(s: string) {
    forall i :: 0 <= i < |s| ==> HexDigit(s[i]) >= 0
  }

  /**
   * The address pattern `^0x[0-9a-fA-F]{40}$`: `WALLET_ADDRESS_PATTERN` of the upload
   * service and the `@Pattern` of the nonce's wallet column.
   */
  predicate IsWalletAddress(w: string)
    ensures IsWalletAddress(w) ==> HasText(w)
  {
    |w| == 42 && w[0] == '0' && w[1] == 'x' && IsHexText(w[2..])
  }

  /** `Numeric.cleanHexPrefix`: one leading `0x` removed. */
  function CleanHexPrefix(s: string): (r: string)
    ensures StartsWith(s, "0x") ==> s == "0x" + r
    ensures !StartsWith(s, "0x") ==> r == s
  {
    if |s| > 1 && s[0] == '0' && s[1] == 'x' then s[2..] else s
  }

  /** The byte `(byte) ((digit(hi) << 4) + digit(lo))`. */
  function PairByte(hi: char, lo: char): Byte {
    ToByte(HexDigit(hi) * 16 + HexDigit(lo))
  }

  /** Pairs of digits, each pair one byte, for text of even length. */
  function DecodePairs(s: string): (r: seq<Byte>)
    requires |s| % 2 == 0
    ensures |r| == |s| / 2
    ensures forall k :: 0 <= k < |r| ==> r[k] == PairByte(s[2 * k], s[2 * k + 1])
  {
    if s == [] then [] else [PairByte(s[0], s[1])] + DecodePairs(s[2..])
  }

  /**
   * `Numeric.hexStringToByteArray`: an odd-length text contributes its first digit as a
   * byte of its own; non-digits read as -1, as `Character.digit` returns them.
   */
  function HexStringToByteArray(input: string): (r: seq<Byte>)
    ensures |r| == (|CleanHexPrefix(input)| + 1) / 2
  {
    var clean := CleanHexPrefix(input);
    if |clean| % 2 == 1 then [ToByte(HexDigit(clean[0]))] + DecodePairs(clean[1..])
    else DecodePairs(clean)
  }

  /** The value of a two-digit hex pair. */
  lemma PairByteValue(hi: char, lo: char)
    requires HexDigit(hi) >= 0 && HexDigit(lo) >= 0
    ensures PairByte(hi, lo) == 16 * HexDigit(hi) + HexDigit(lo)
  {
  }

  /** A signature as `LoginRequest` admits it, `0x` and 130 hex digits, decodes to 65 bytes, each from its digit pair. */
  lemma LoginRequestSignatureLength(sig: string)
    requires |sig| == 132 && StartsWith(sig, "0x") && IsHexText(sig[2..])
    ensures |HexStringToByteArray(sig)| == 65
    ensures forall k :: 0 <= k < 65 ==>
      HexStringToByteArray(sig)[k] == 16 * HexDigit(sig[2 + 2 * k]) + HexDigit(sig[3 + 2 * k])
  {
    var clean := CleanHexPrefix(sig);
    assert clean == sig[2..];
    var bytes := DecodePairs(clean);
    assert HexStringToByteArray(sig) == bytes;
    forall k | 0 <= k < 65
      ensures bytes[k] == 16 * HexDigit(sig[2 + 2 * k]) + HexDigit(sig[3 + 2 * k])
    {
      assert clean[2 * k] == sig[2 + 2 * k] && clean[2 * k + 1] == sig[3 + 2 * k];
      assert HexDigit(clean[2 * k]) >= 0 && HexDigit(clean[2 * k + 1]) >= 0;
      assert bytes[k] == PairByte(clean[2 * k], clean[2 * k + 1]);
      PairByteValue(clean[2 * k], clean[2 * k + 1]);
    }
  }

  // ---------------------------------------------------------------------------
  // r, s, v
  // ---------------------------------------------------------------------------

  /** web3j's `Sign.SignatureData`: v as the signed byte Java holds, r and s as 32 bytes each. */
  datatype SignatureData = SignatureData(v: int, r: seq<Byte>, s: seq<Byte>)

  /** `createSignatureData`: r is bytes 0..31, s is bytes 32..63, v is byte 64 with 27 added when it is below 27. */
  function CreateSignatureData(bytes: seq<Byte>): (d: SignatureData)
    requires |bytes| == 65
    ensures |d.r| == 32 && |d.s| == 32
    ensures bytes == d.r + d.s + [bytes[64]]
    ensures -128 <= d.v < 128
    ensures d.v == if Signed(bytes[64]) < 27 then Signed(bytes[64]) + 27 else Signed(bytes[64])
  {
    var v := Signed(bytes[64]);
    // `v += 27` on a Java byte narrows back to a byte; for v < 27 the sum is below 54, so it never wraps.
    var v' := if v < 27 then Signed(ToByte(v + 27)) else v;
    SignatureData(v', bytes[..32], bytes[32..64])
  }

  /** The recovery ids 0 and 1 become 27 and 28; a v already at 27 or above is kept. */
  lemma RecoveryIdNormalised(bytes: seq<Byte>)
    requires |bytes| == 65
    ensures bytes[64] == 0 ==> CreateSignatureData(bytes).v == 27
    ensures bytes[64] == 1 ==> CreateSignatureData(bytes).v == 28
    ensures 27 <= bytes[64] < 128 ==> CreateSignatureData(bytes).v == bytes[64]
  {
  }

  // ---------------------------------------------------------------------------
  // Verification
  // ---------------------------------------------------------------------------

  /**
   * `Sign.signedPrefixedMessageToKey` followed by `Keys.getAddress`: the address
   * (40 hex digits, no prefix) of the key that signed the EIP-191 form of the
   * message bytes, or None where web3j throws.
   */
  type Recover = (seq<Byte>, SignatureData) -> Option<string>

  /** `verifyPersonalSign`: every failure, thrown or not, is `false`. */
  function VerifyPersonalSign(wallet: string, signatureHex: Option<string>, message: string, recover: Recover): (ok: bool)
    ensures ok ==> HasTextOpt(signatureHex) && StartsWith(signatureHex.value, "0x")
    ensures ok ==> |HexStringToByteArray(signatureHex.value)| == 65
    ensures ok ==> var rec := recover(Utf8(message), CreateSignatureData(HexStringToByteArray(signatureHex.value)));
                   rec.Some? && ToLower(wallet) == ToLower("0x" + rec.value)
  {
    if !HasTextOpt(signatureHex) || !StartsWith(signatureHex.value, "0x") then false
    else
      var bytes := HexStringToByteArray(signatureHex.value);
      if |bytes| != 65 then false
      else
        match recover(Utf8(message), CreateSignatureData(bytes))
        case None => false
        case Some(address) => EqualsIgnoreCase(wallet, "0x" + address)
  }

  /** A well-formed signature whose recovered address matches the wallet, in any letter case, is accepted. */
  lemma VerifyAccepts(wallet: string, signatureHex: string, message: string, recover: Recover)
    requires |signatureHex| == 132 && StartsWith(signatureHex, "0x") && IsHexText(signatureHex[2..])
    requires var rec := recover(Utf8(message), CreateSignatureData(HexStringToByteArray(signatureHex)));
             rec.Some? && EqualsIgnoreCase(wallet, "0x" + rec.value)
    ensures VerifyPersonalSign(wallet, Some(signatureHex), message, recover)
  {
    LoginRequestSignatureLength(signatureHex);
    assert !IsWhitespace(signatureHex[0]);
  }

  /** Only a signature of 130 digits after the prefix passes the length check. */
  lemma SignatureDigitCount(signatureHex: string)
    requires StartsWith(signatureHex, "0x")
    ensures |HexStringToByteArray(signatureHex)| == 65 <==> |signatureHex| == 131 || |signatureHex| == 132
  {
    assert CleanHexPrefix(signatureHex) == signatureHex[2..];
  }
}
