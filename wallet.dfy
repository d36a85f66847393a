/** `AuthService.normalizeWalletAddress`, with web3j's EIP-55 checksum computation as a parameter. */
module Wallet {
  import opened Wrappers
  import opened Text

  /** The `IllegalArgumentException`s of the login flow, by their messages. */
  datatype AuthError =
    | WalletRequired      // "Wallet address is required"
    | InvalidWalletFormat // "Invalid wallet address format"
    | NonceNotFound       // "Nonce not found for wallet: ..."
    | NonceAlreadyUsed    // "Nonce already used"
    | NonceExpired        // "Nonce expired"
    | InvalidSignature    // "Invalid signature"
    | UserCreationFailed  // the DateTimeException of findOrCreateUser
    | TokenCreationFailed // "Token creation failed"
    | NonceIssueFailed    // "Failed to generate nonce", or the commit's failure: the row broke a constraint

  /** `Keys.toChecksumAddress`: the EIP-55 form of an address, or None where it throws. */
  type Checksum = string -> Option<string>

  /** The format check after trimming: a `0x` prefix and 42 characters. The digits are not checked. */
  predicate WellFormed(t: string) {
    StartsWith(t, "0x") && |t| == 42
  }

  /** The canonical spelling the normaliser settles on: the checksum form if that is what was given, else lower case. */
  function Canonical(t: string, checksum: Checksum): string {
    if checksum(t) == Some(t) then t else ToLower(t)
  }

  /**
   * `normalizeWalletAddress`: blank input is refused, then the trimmed value must have
   * the `0x` prefix and 42 characters; it is kept when it equals its checksum form and
   * lowercased otherwise, including when the checksum computation throws.
   */
  function NormalizeWalletAddress(raw: Option<string>, checksum: Checksum): (r: Result<string, AuthError>)
    ensures !HasTextOpt(raw) <==> r == Err(WalletRequired)
    ensures HasTextOpt(raw) && !WellFormed(Trim(raw.value)) <==> r == Err(InvalidWalletFormat)
    ensures r.Ok? ==> WellFormed(r.value)
    ensures r.Ok? ==> r.value == Trim(raw.value) || r.value == ToLower(Trim(raw.value))
    ensures r.Ok? ==> checksum(Trim(raw.value)) == Some(Trim(raw.value)) || IsLower(r.value)
    ensures r.Ok? && checksum(Trim(raw.value)) == Some(Trim(raw.value)) ==> r.value == Trim(raw.value)
    ensures r.Ok? && checksum(Trim(raw.value)) != Some(Trim(raw.value)) ==> r.value == ToLower(Trim(raw.value))
  {
    if !HasTextOpt(raw) then Err(WalletRequired)
    else
      var t := Trim(raw.value);
      if !WellFormed(t) then Err(InvalidWalletFormat)
      else
        ToLowerFacts(t);
        Ok(Canonical(t, checksum))
  }

  /** Lowercasing keeps the `0x` prefix and the length. */
  lemma ToLowerWellFormed(t: string)
    requires WellFormed(t)
    ensures WellFormed(ToLower(t))
  {
    assert ToLower(t)[..2] == "0x";
  }

  /** The canonical spelling of a trimmed, well-formed address is trimmed, well-formed and its own canonical spelling. */
  lemma CanonicalFixed(t: string, checksum: Checksum)
    requires WellFormed(t) && !IsTrimmable(t[41])
    ensures var n := Canonical(t, checksum); WellFormed(n) && HasText(n) && Trim(n) == n && Canonical(n, checksum) == n
  {
    var n := Canonical(t, checksum);
    if n != t {
      ToLowerWellFormed(t);
      ToLowerFacts(t);
    }
    assert WellFormed(n);
    assert n[0] == '0';
    assert !IsWhitespace(n[0]) && !IsTrimmable(n[0]);
    assert n[41] == t[41] || n[41] == ToLowerChar(t[41]);
    assert !IsTrimmable(n[41]);
    TrimOfTrimmed(n);
  }

  /** A normalised address normalises to itself: the operation is idempotent. */
  lemma NormalizeIdempotent(raw: Option<string>, checksum: Checksum)
    requires NormalizeWalletAddress(raw, checksum).Ok?
    ensures NormalizeWalletAddress(Some(NormalizeWalletAddress(raw, checksum).value), checksum)
         == NormalizeWalletAddress(raw, checksum)
  {
    var t := Trim(raw.value);
    assert HasTextOpt(raw) && WellFormed(t);
    assert NormalizeWalletAddress(raw, checksum) == Ok(Canonical(t, checksum));
    CanonicalFixed(t, checksum);
    NormalizeCanonical(Canonical(t, checksum), checksum);
  }

  /** An address already in canonical form is accepted unchanged. */
  lemma NormalizeCanonical(n: string, checksum: Checksum)
    requires HasText(n) && Trim(n) == n && WellFormed(n) && Canonical(n, checksum) == n
    ensures NormalizeWalletAddress(Some(n), checksum) == Ok(n)
  {
    var raw := Some(n);
    assert HasTextOpt(raw);
    assert Trim(raw.value) == n;
    assert WellFormed(Trim(raw.value));
  }
}
