# AudIon backend core, modelled in Dafny

AudIon is a Spring backend. A user logs in with an Ethereum wallet, uploads voice recordings, and has a training server turn them into voice models. This project models the parts of it that decide things, and proves properties of them:

- **Wallet login.** An address is normalised. The wallet gets a single-use nonce that expires five minutes later. The wallet signs the login message `AudIon Login:\nnonce=<value>` with EIP-191 `personal_sign`. The service checks the nonce row and the signature, marks the row used, finds or creates the user, and issues a session token. The modules are `Wallet`, `Signature`, `Nonces`, `NonceStore`, `Users` and `Auth`.
- **Session tokens.** `Jwt` covers the configuration checks, the choice of signing key (Base64 or UTF-8), the claim set of section 4.1 of RFC 7519, Bearer extraction per section 2.1 of RFC 6750, the validation rule and the claim getters. `AuthFilter` covers the request filter, which authenticates a request only when every step yields a value, and the list of public paths.
- **Uploads and training.** This part has four groups:
  - `Voice` covers upload validation, file-name sanitising, extensions, the upload transaction, handing a file to training, lookup and deletion.
  - `S3` covers object keys, URLs and the storage checks.
  - `VoiceFiles` covers the `VoiceFile` entity with its status predicates and lifecycle callbacks.
  - `Callback`, `VoiceModels` and `UploadResponse` cover the training-completion callback, the model controller's guards and the upload response.

Supporting modules:
- `Wrappers`: Option and Result.
- `Text`: Java `trim`, ASCII case folding and decimals.
- `Time`: instants as nanoseconds.
- `Uuid`: the canonical UUID text.
- `Bytes`: signed bytes and UTF-8.
- `Base64`: the RFC 4648 decoder.

How the model is built:
- Entities the source updates in place are classes: `Nonce`, `VoiceFile`, `VoiceModel`, the repositories, the services, the filter chain and the security context.
- Their methods state the new state as a function of the old.
- The rules themselves are functions, with lemmas about them.
- Database tables are maps held by repository classes. The nonce table is filed by wallet, since that column is unique.

External inputs to the model:
- The clock, random UUIDs and generated keys are parameters.
- These are function-typed parameters: EIP-55 checksumming, secp256k1 signer recovery, JWT compact parsing, URL signing and `UUID.fromString`.
- The storage client and the training request are modelled by their outcomes.

Where the code and its documentation or comments disagree, the model follows the code:

- **Address check.** `normalizeWalletAddress` checks only the `0x` prefix and the length 42, not that the characters are hex. It keeps an address that equals its checksum form instead of always lower-casing it. The nonce table's wallet pattern does require hex digits, so `issueNonce` fails for such an address when it writes the row (`Auth.IssuedRowConstrained`).
- **Marking the nonce used.** A nonce is marked used only after its signature verifies, so a bad signature leaves it usable (`Auth.BadSignatureChangesNothing`). Any failed login rolls back, so nothing it wrote persists.
- **Cleanup.** The cleanup deletes by creation time, not by expiry. This is the third finding below.
- **Users.** Users have no last-login time, and a login does not update them.

## Model

| member | source | states |
|---|---|---|
| Wallet.NormalizeWalletAddress | src/main/java/com/example/AudIon/service/Auth/AuthService.java:204-227 | blank input fails with "wallet required" and nothing else does; a trimmed value without the `0x` prefix or of another length than 42 fails with "invalid format"; an accepted address is well formed, is the trimmed input or its lower-case form, and is exactly the trimmed input when that equals its checksum form and exactly its lower-case form otherwise (a throwing checksum included) |
| Wallet.NormalizeIdempotent | src/main/java/com/example/AudIon/service/Auth/AuthService.java:204-227 | normalising a normalised address gives it back |
| Wallet.ToLowerWellFormed | src/main/java/com/example/AudIon/service/Auth/AuthService.java:219-223 | lower-casing keeps the `0x` prefix and the length 42 |
| Auth.GenerateNonceValue | src/main/java/com/example/AudIon/service/Auth/AuthService.java:232-234 | the value is 32 lower-case hex digits, inside the column's 8..64 bound |
| Auth.NonceValueInjective | src/main/java/com/example/AudIon/service/Auth/AuthService.java:232-234 | different UUIDs give different nonce values |
| Auth.IssuedRowValid | src/main/java/com/example/AudIon/service/Auth/AuthService.java:42-66 | after an issue the wallet's row holds the issued value, is unused, expires five minutes later and is valid until then; other wallets' rows are unchanged |
| Auth.IssuedRowConstrained | src/main/java/com/example/AudIon/domain/Auth/Nonce.java:52-84 | the table accepts an issued row exactly when the wallet is `0x` and 40 hex digits, the client IP has at most 45 characters and the user agent at most 500 |
| Auth.NonceGate | src/main/java/com/example/AudIon/service/Auth/AuthService.java:89-101 | the login checks in order: a missing row, then a used one (even if also expired), then an expired one, then a bad signature; success means the row is valid and the signature verifies over the login message of its value |
| Auth.WithoutOwnId | src/main/java/com/example/AudIon/service/Auth/AuthService.java:137 | deleting by the key of a wallet's row removes exactly that row |
| Auth.BadSignatureChangesNothing | src/main/java/com/example/AudIon/service/Auth/AuthService.java:97-101 | an invalid signature is rejected with the nonce table unchanged and the row still valid |
| Auth.ReplayRejected | src/main/java/com/example/AudIon/service/Auth/AuthService.java:103-105 | after a login has marked the row used, every later login fails with "already used", with any signature and at any time |
| Auth.ExpiredNeverPasses | src/main/java/com/example/AudIon/service/Auth/AuthService.java:130-140 | an expired nonce never lets a login through; an unused expired row is deleted |
| Auth.IssueThenLogin | src/main/java/com/example/AudIon/service/Auth/AuthService.java:42-101 | within five minutes of an issue, a signature by the wallet over the login message of the issued value passes every nonce check |
| Auth.CleanupDeletesLiveNonce | src/main/java/com/example/AudIon/service/Auth/AuthService.java:239-252 | a row first issued at t0 and reissued ten minutes later is deleted by the cleanup one minute after the reissue, although it is unused and valid; the sweep by expiry keeps it |
| Auth.AuthService.constructor | src/main/java/com/example/AudIon/service/Auth/AuthService.java:34-36 | the service holds the given repositories, token service and crypto oracles |
| Auth.AuthService.IssueNonce | src/main/java/com/example/AudIon/service/Auth/AuthService.java:42-72 | a malformed wallet fails before anything is written; a row the table accepts (reused, or new with a fresh key) is reset to the returned value, five minutes to expiry and unused; a row that breaks a constraint fails the call with the table unchanged |
| Auth.AuthService.ValidateNonce | src/main/java/com/example/AudIon/service/Auth/AuthService.java:130-140 | "already used" for a used row, else "expired" with the row deleted by key for an expired one, else no error and no change |
| Auth.AuthService.FindOrCreateUser | src/main/java/com/example/AudIon/service/Auth/AuthService.java:145-155 | the wallet's user when there is one, else a new user with a fresh key created at `now`, saved under the wallet (the corrected version) |
| Auth.AuthService.FindOrCreateUserAsWritten | src/main/java/com/example/AudIon/service/Auth/AuthService.java:145-155 | only an existing user is returned; for a new wallet the creation-time conversion always fails |
| Auth.AuthService.LoginSuccessToken | src/main/java/com/example/AudIon/service/Auth/AuthService.java:108-116 | a successful login returns a token for the wallet's user, with that user's id as subject, the wallet claim and expiry `expHours` later (the corrected version) |
| Auth.AuthService.IssuedClaims | src/main/java/com/example/AudIon/service/Auth/AuthService.java:108-116 | a token issued with the default lifetime has the user id as subject, the wallet claim and expiry `expHours` later; the step `LoginSuccessToken` rests on |
| Auth.AuthService.LoginSpecOk | src/main/java/com/example/AudIon/service/Auth/AuthService.java:89-110 | a successful login passed the nonce gate, marked that nonce used, and returned the token signed for the wallet's user (the corrected version) |
| Auth.AuthService.LoginSuccessNonce | src/main/java/com/example/AudIon/service/Auth/AuthService.java:89-107 | a successful login consumed the wallet's nonce, which was valid and whose sign-in message the wallet signed; an existing user is kept as it was (the corrected version) |
| Auth.AuthService.LoginBody | src/main/java/com/example/AudIon/service/Auth/AuthService.java:87-116 | the result and both tables after the body are exactly those `LoginSpec` gives for the tables before: the nonce checks, the row marked used, the user found or created, the token issued (the corrected version) |
| Auth.AuthService.Login | src/main/java/com/example/AudIon/service/Auth/AuthService.java:86-117 | a malformed wallet fails with its normalisation error; otherwise the result is that of the body; any failure rolls both tables back to their state before the call (the corrected version) |
| Auth.AuthService.LoginBodyAsWritten | src/main/java/com/example/AudIon/service/Auth/AuthService.java:87-155 | for a wallet with a user the outcome is what `LoginSpec` gives; for a wallet without one the nonce checks' error, or the user creation error once they pass |
| Auth.AuthService.LoginAsWritten | src/main/java/com/example/AudIon/service/Auth/AuthService.java:86-155 | a malformed wallet fails with its normalisation error; a wallet with a user gets the body's result; the first login of a wallet without a user always fails; every failure leaves both tables as they were |
| Auth.AuthService.CleanupExpiredNoncesAsWritten | src/main/java/com/example/AudIon/service/Auth/AuthService.java:239-252 | deletes every row created more than five minutes before `now`, used or valid or not, and counts them |
| Auth.AuthService.CleanupExpiredNonces | src/main/java/com/example/AudIon/service/Auth/AuthService.java:239-252 | deletes exactly the rows that are expired at `now` and counts them (the corrected version) |
| Auth.AuthService.GetNonce | src/main/java/com/example/AudIon/service/Auth/AuthService.java:257-262 | a malformed wallet fails; otherwise the normalised wallet's row, or none |
| Auth.AuthService.InvalidateNonce | src/main/java/com/example/AudIon/service/Auth/AuthService.java:267-282 | true exactly when the normalised wallet had a row, which is then deleted; every failure is false with nothing deleted |
| Signature.LoginMessage | src/main/java/com/example/AudIon/service/Auth/AuthService.java:97 | the message starts with `AudIon Login:\nnonce=` followed by exactly the nonce value |
| Signature.LoginMessageInjective | src/main/java/com/example/AudIon/service/Auth/AuthService.java:97 | two nonce values give the same login message only when they are equal |
| Signature.HexStringToByteArray | src/main/java/com/example/AudIon/service/Auth/AuthService.java:166 | the decoded signature has one byte per two hex digits after an optional `0x`, rounding up |
| Signature.LoginRequestSignatureLength | src/main/java/com/example/AudIon/service/Auth/AuthService.java:166-169 | a `0x` signature of 130 hex digits decodes to 65 bytes, each the value of its digit pair |
| Signature.SignatureDigitCount | src/main/java/com/example/AudIon/service/Auth/AuthService.java:166-169 | a `0x` signature passes the 65-byte check exactly when it has 129 or 130 characters after the prefix |
| Signature.CreateSignatureData | src/main/java/com/example/AudIon/service/Auth/AuthService.java:188-199 | r is bytes 0..31, s bytes 32..63, and v is byte 64 as a signed byte plus 27 when below 27 |
| Signature.RecoveryIdNormalised | src/main/java/com/example/AudIon/service/Auth/AuthService.java:194-196 | recovery ids 0 and 1 become 27 and 28; a v from 27 to 127 is kept |
| Signature.VerifyPersonalSign | src/main/java/com/example/AudIon/service/Auth/AuthService.java:160-183 | acceptance implies a non-blank `0x` signature of 65 bytes whose recovered address equals the wallet ignoring case; every failure is false |
| Signature.VerifyAccepts | src/main/java/com/example/AudIon/service/Auth/AuthService.java:160-183 | a well-formed signature whose recovered address matches the wallet in any case is accepted |
| Nonces.ExpiryBoundary | src/main/java/com/example/AudIon/domain/Auth/Nonce.java:110-119 | a nonce is not expired at its expiry instant and expired one tick later, stays expired, and is valid exactly when unused and not past expiry |
| Nonces.IsExpired | src/main/java/com/example/AudIon/domain/Auth/Nonce.java:110-112 | `isExpired`: strictly after `expiresAt`; `ExpiryBoundary` proves the boundary instant unexpired, the next one expired, and expiry permanent |
| Nonces.IsValid | src/main/java/com/example/AudIon/domain/Auth/Nonce.java:117-119 | `isValid`: unused and not expired; `ExpiryBoundary` states it as unused and not past expiry, `MarkedUsedNeverValid` that a used nonce is never valid |
| Nonces.SecondsUntilExpiry | src/main/java/com/example/AudIon/domain/Auth/Nonce.java:132-137 | never negative; 0 once expired; otherwise the whole seconds left until expiry |
| Nonces.Construct | src/main/java/com/example/AudIon/domain/Auth/Nonce.java:33-46 | the all-arguments constructor keeps every argument, except that a null used flag becomes false |
| Nonces.CreateWithExpiry | src/main/java/com/example/AudIon/domain/Auth/Nonce.java:220-229 | the new nonce has the wallet and value, is created now, expires `expiryMinutes` later, is unused and has no key |
| Nonces.Create | src/main/java/com/example/AudIon/domain/Auth/Nonce.java:234-236 | `create` is the five-minute case of `createWithExpiry` |
| Nonces.CreatedValidUntilExpiry | src/main/java/com/example/AudIon/domain/Auth/Nonce.java:220-229 | a created nonce is valid up to its expiry instant and not one tick after it |
| Nonces.CreateFiveMinutes | src/main/java/com/example/AudIon/domain/Auth/Nonce.java:234-236 | a default nonce expires 300 seconds after creation and is valid exactly until then |
| Nonces.PersistDefaults | src/main/java/com/example/AudIon/domain/Auth/Nonce.java:92-103 | creation time, expiry (creation plus five minutes) and used flag are filled only where null; nothing else changes |
| Nonces.PersistDefaultsIdempotent | src/main/java/com/example/AudIon/domain/Auth/Nonce.java:92-103 | running the persist callback twice changes nothing more |
| Nonces.MarkedUsed | src/main/java/com/example/AudIon/domain/Auth/Nonce.java:124-127 | used, at `now`, with every other field kept |
| Nonces.MarkedUsedNeverValid | src/main/java/com/example/AudIon/domain/Auth/Nonce.java:117-127 | a nonce marked used is never valid again |
| Nonces.Nonce.constructor | src/main/java/com/example/AudIon/domain/Auth/Nonce.java:33-46 | the object holds the constructed state |
| Nonces.Nonce.OnPersist | src/main/java/com/example/AudIon/domain/Auth/Nonce.java:92-103 | the object's new state is the persist defaults of its old one |
| Nonces.Nonce.MarkAsUsed | src/main/java/com/example/AudIon/domain/Auth/Nonce.java:124-127 | the object's new state is its old one marked used |
| Nonces.Nonce.Reset | src/main/java/com/example/AudIon/service/Auth/AuthService.java:53-59 | the seven setter calls of an issue: new value, creation now, expiry five minutes on, unused, no use time, client IP and user agent; nothing else changes |
| Nonces.Nonce.SetId | src/main/java/com/example/AudIon/domain/Auth/Nonce.java:275-277 | only the key changes |
| NonceStore.UpdateWellKeyed | src/main/java/com/example/AudIon/repository/Nonce/NonceRepository.java:19 | rewriting a row with its key and wallet kept keeps the table well keyed |
| NonceStore.Find | src/main/java/com/example/AudIon/repository/Nonce/NonceRepository.java:19 | the row filed under the wallet, or none; in a well-keyed table it is the unique row with that wallet |
| NonceStore.ExpiredKeys | src/main/java/com/example/AudIon/repository/Nonce/NonceRepository.java:21-23 | exactly the wallets whose row was created before the threshold |
| NonceStore.Survivors | src/main/java/com/example/AudIon/repository/Nonce/NonceRepository.java:21-23 | exactly the other rows, unchanged |
| NonceStore.DeleteAllExpiredCount | src/main/java/com/example/AudIon/repository/Nonce/NonceRepository.java:21-23 | survivors and deleted rows together are the whole table, so the count is the number removed |
| NonceStore.DeleteAllExpiredIdempotent | src/main/java/com/example/AudIon/repository/Nonce/NonceRepository.java:21-23 | a second delete with the same threshold removes nothing |
| NonceStore.SurvivorsWellKeyed | src/main/java/com/example/AudIon/repository/Nonce/NonceRepository.java:21-23 | the bulk delete keeps the table well keyed |
| NonceStore.Unexpired | src/main/java/com/example/AudIon/domain/Auth/Nonce.java:110-112 | the rows kept by a sweep by expiry are exactly those with no expiry before `now`, unchanged |
| NonceStore.UnexpiredKeepsLive | src/main/java/com/example/AudIon/domain/Auth/Nonce.java:110-112 | in a well-keyed table the sweep keeps a row exactly when it is not expired |
| NonceStore.DeleteByWalletAndValueAtMostOne | src/main/java/com/example/AudIon/repository/Nonce/NonceRepository.java:25-28 | a row matching both wallet and value is the wallet's own row, so at most one row matches |
| NonceStore.WithoutId | src/main/java/com/example/AudIon/repository/Nonce/NonceRepository.java:19 | removing by key removes exactly the rows with that key and keeps the rest unchanged |
| NonceStore.Save | src/main/java/com/example/AudIon/domain/Auth/Nonce.java:52-84 | a new entity gets the persist defaults and a fresh key and is inserted exactly when its required columns are present, it meets the wallet pattern and the column sizes, and its wallet has no row; a loaded entity is rewritten with its stored creation time kept exactly when it is complete and within its constraints; a refused write leaves the table unchanged |
| NonceStore.SaveWellKeyed | src/main/java/com/example/AudIon/domain/Auth/Nonce.java:22-24 | saving keeps wallets unique and keys distinct, given a fresh generated key |
| NonceStore.SaveConstrained | src/main/java/com/example/AudIon/domain/Auth/Nonce.java:52-84 | saving writes only rows within the wallet pattern and the column sizes, so a table whose rows all meet them keeps meeting them |
| NonceStore.NonceRepository.constructor | src/main/java/com/example/AudIon/repository/Nonce/NonceRepository.java:18-28 | an empty, well-keyed table |
| NonceStore.NonceRepository.FindByWalletAddress | src/main/java/com/example/AudIon/repository/Nonce/NonceRepository.java:19 | a fresh entity holding the wallet's row exactly when there is one |
| NonceStore.NonceRepository.SaveEntity | src/main/java/com/example/AudIon/domain/Auth/Nonce.java:52-84 | the table, the entity and the success flag after the call are those `Save` describes, including its refusals |
| NonceStore.NonceRepository.Delete | src/main/java/com/example/AudIon/service/Auth/AuthService.java:137 | removes the row with the entity's key and nothing else |
| NonceStore.NonceRepository.DeleteAllExpired | src/main/java/com/example/AudIon/repository/Nonce/NonceRepository.java:21-23 | the table becomes the survivors and the count is the number of rows removed |
| NonceStore.NonceRepository.DeleteAllExpiredAt | src/main/java/com/example/AudIon/domain/Auth/Nonce.java:110-112 | the table keeps exactly the unexpired rows and the count is the number removed |
| NonceStore.NonceRepository.DeleteByWalletAndValue | src/main/java/com/example/AudIon/repository/Nonce/NonceRepository.java:25-28 | 1 when the wallet's row holds the value, which is then removed; otherwise 0 and nothing changes |
| Users.UserRepository.constructor | src/main/java/com/example/AudIon/service/Auth/AuthService.java:35 | an empty user table |
| Users.UserRepository.FindByWalletAddress | src/main/java/com/example/AudIon/service/Auth/AuthService.java:146 | the user filed under the wallet, or none |
| Users.UserRepository.SaveNew | src/main/java/com/example/AudIon/service/Auth/AuthService.java:153 | the new user is filed under its wallet with the given key and creation time |
| Jwt.GetKeyBytes | src/main/java/com/example/AudIon/service/Auth/JwtUtil.java:71-84 | the key is the Base64 decoding of the secret when that decodes to at least 32 bytes, else the secret's UTF-8 bytes; it has 32 bytes or more exactly when one of those has |
| Jwt.LongSecretStrong | src/main/java/com/example/AudIon/service/Auth/JwtUtil.java:71-84 | a secret of at least 32 characters always gives a key of at least 32 bytes |
| Jwt.ValidateConfiguration | src/main/java/com/example/AudIon/service/Auth/JwtUtil.java:44-64 | passes exactly when the secret is not the placeholder, `expHours` is in 1..168 and the key has 32 bytes or more; each error is reported exactly when the checks before it pass and its own fails, so the placeholder, range and strength errors come in that order |
| Jwt.PlaceholderPassesStrength | src/main/java/com/example/AudIon/service/Auth/JwtUtil.java:44-57 | the placeholder secret is strong enough in length, so only the explicit comparison refuses it |
| Jwt.JwtUtil.constructor | src/main/java/com/example/AudIon/service/Auth/JwtUtil.java:23-35 | the injected properties, with no signing key yet |
| Jwt.JwtUtil.Init | src/main/java/com/example/AudIon/service/Auth/JwtUtil.java:37-42 | the configuration check decides; on success the key is set to the chosen key bytes, on failure it stays unset |
| Jwt.JwtUtil.CreateToken | src/main/java/com/example/AudIon/service/Auth/JwtUtil.java:89-121 | a token exists exactly when the key is set; it is signed with that key, has header kid/JWT, and the claims issuer, subject, audience `AudIon-App`, iat now, nbf 5 s before, exp now plus ttl, the token id and the wallet |
| Jwt.ExtractToken | src/main/java/com/example/AudIon/service/Auth/JwtUtil.java:126-139 | a result means a header longer than 7 characters starting with `Bearer ` in any case, and is the non-empty trimmed rest |
| Jwt.ExtractTokenRoundTrip | src/main/java/com/example/AudIon/service/Auth/JwtUtil.java:131-135 | `Bearer ` in any case followed by a token without surrounding blanks extracts to that token |
| Jwt.ExtractTokenRejects | src/main/java/com/example/AudIon/service/Auth/JwtUtil.java:126-139 | a short header, a wrong scheme or a blank rest extracts to nothing |
| Jwt.JwtUtil.ParseAndValidate | src/main/java/com/example/AudIon/service/Auth/JwtUtil.java:144-176 | a result is the parsed token and passes every check (key, issuer, audience, nbf and exp with skew, not expired); any failure is empty |
| Jwt.JwtUtil.ExpiredRejected | src/main/java/com/example/AudIon/service/Auth/JwtUtil.java:144-184 | a token whose expiry has passed is rejected despite the skew; a token without expiry is never expired |
| Jwt.IsTokenExpired | src/main/java/com/example/AudIon/service/Auth/JwtUtil.java:181-184 | `isTokenExpired`: an expiry exists and lies before now; `ExpiredRejected` proves such a token rejected, and one without expiry never expired |
| Jwt.JwtUtil.IssuedTokenValid | src/main/java/com/example/AudIon/service/Auth/JwtUtil.java:89-176 | a token this service issued is accepted from 65 seconds before issue up to its expiry, and rejected after it |
| Jwt.GetWalletAddress | src/main/java/com/example/AudIon/service/Auth/JwtUtil.java:189-195 | exactly for a non-blank string wallet claim a result, the claim trimmed and lower-cased; nothing otherwise |
| Jwt.GetUserId | src/main/java/com/example/AudIon/service/Auth/JwtUtil.java:200-206 | the trimmed subject exactly when it is non-blank |
| Jwt.GetRemainingLifetimeSeconds | src/main/java/com/example/AudIon/service/Auth/JwtUtil.java:238-245 | never negative; 0 without exp or once exp is reached; otherwise the whole seconds to exp |
| Jwt.GettersRecoverClaims | src/main/java/com/example/AudIon/service/Auth/JwtUtil.java:189-206 | trimmed wallet and subject claims read back as the subject and the wallet in lower case |
| AuthFilter.ProtectedPathsFiltered | src/main/java/com/example/AudIon/config/security/JwtAuthenticationFilter.java:96-107 | the application's `/model/`, `/voice/` and `/nft/` paths, and the near misses `/auth` and `/healthz`, are always filtered |
| AuthFilter.ShouldNotFilter | src/main/java/com/example/AudIon/config/security/JwtAuthenticationFilter.java:96-107 | the public prefixes and exact paths; `ProtectedPathsFiltered` proves the application's own paths and the near misses outside it, and `DoFilter` routes by it |
| AuthFilter.Authenticate | src/main/java/com/example/AudIon/config/security/JwtAuthenticationFilter.java:37-83 | an authentication exactly when a token is extracted, validates, and yields both user id and wallet; its principal is that id and wallet, its credential the wallet, its one role `ROLE_USER` |
| AuthFilter.IssuedTokenAuthenticates | src/main/java/com/example/AudIon/config/security/JwtAuthenticationFilter.java:67-80 | a request bearing a token this service issued authenticates within the token's lifetime as exactly that user, with the wallet in lower case as principal wallet and credential, and `ROLE_USER`; a checksum-form wallet is included |
| AuthFilter.NoHeaderNoAuthentication | src/main/java/com/example/AudIon/config/security/JwtAuthenticationFilter.java:39-42 | a request without a usable Bearer header is never authenticated |
| AuthFilter.SecurityContext.constructor | src/main/java/com/example/AudIon/config/security/JwtAuthenticationFilter.java:83 | a context without authentication |
| AuthFilter.FilterChain.constructor | src/main/java/com/example/AudIon/config/security/JwtAuthenticationFilter.java:41 | a chain not yet called |
| AuthFilter.FilterChain.DoFilter | src/main/java/com/example/AudIon/config/security/JwtAuthenticationFilter.java:92 | one more invocation, which throws when the chain throws |
| AuthFilter.DoFilterInternalAsWritten | src/main/java/com/example/AudIon/config/security/JwtAuthenticationFilter.java:36-92 | the authentication is set as `Authenticate` says; the chain runs twice when the request does not authenticate and the chain throws, and once otherwise |
| AuthFilter.DoFilterInternal | src/main/java/com/example/AudIon/config/security/JwtAuthenticationFilter.java:37-92 | the authentication is set as `Authenticate` says and the chain runs exactly once (the corrected version) |
| AuthFilter.DoFilter | src/main/java/com/example/AudIon/config/security/JwtAuthenticationFilter.java:96-107 | public paths go down the chain untouched; others through the filter; the chain runs once |
| AuthFilter.DoubleInvocationExample | src/main/java/com/example/AudIon/config/security/JwtAuthenticationFilter.java:40-92 | with no header and a throwing chain the as-written filter calls the chain twice and the corrected one once |
| Signature.IsWalletAddress | src/main/java/com/example/AudIon/service/voice/VoiceService.java:34 | an address matching the pattern has text |
| Voice.ValidateInput | src/main/java/com/example/AudIon/service/voice/VoiceService.java:182-201 | passes exactly when the file is present, non-empty, at most 50 MiB, the wallet matches `0x` and 40 hex digits, and the MIME type in lower case is allowed; each rejection holds exactly in its turn |
| Voice.ValidatedUploadAccepted | src/main/java/com/example/AudIon/service/voice/VoiceService.java:48-54 | an upload that passes the service's validation also passes the storage service's checks |
| Voice.ValidWalletIsKeyDirectory | src/main/java/com/example/AudIon/service/voice/VoiceService.java:226 | a valid wallet is its own storage directory name |
| Voice.SanitizeFilename | src/main/java/com/example/AudIon/service/voice/VoiceService.java:264-279 | "unknown_file" for a blank name; else the same length, the text from the last dot verbatim, and before it each character kept or replaced by `_` |
| Voice.SanitizedShape | src/main/java/com/example/AudIon/service/voice/VoiceService.java:270-278 | a sanitised name keeps its last dot in place and has only allowed characters before it |
| Voice.SanitizeFilenameIdempotent | src/main/java/com/example/AudIon/service/voice/VoiceService.java:264-279 | sanitising twice gives the same name |
| Voice.GetFileExtension | src/main/java/com/example/AudIon/service/voice/VoiceService.java:281-287 | an extension exactly when the name has text and a dot; it is the lower-cased text after the last dot and has no dot |
| Voice.ExtensionsAgreeWithEntity | src/main/java/com/example/AudIon/domain/voice/VoiceFile.java:167-175 | where the entity finds an extension the service finds the same |
| Voice.ExtensionsAgreeWithStorage | src/main/java/com/example/AudIon/service/s3/S3Service.java:166-173 | the stored audio format and the key's extension agree when the name has a non-blank extension without path separators |
| Voice.CreatedVoiceFile | src/main/java/com/example/AudIon/service/voice/VoiceService.java:233-247 | the created record already holds every default `onCreate` fills, is UPLOADED and ready for training, points at the public URL if any or else the object URL, and carries its owner's wallet |
| Voice.CreateVoiceFile | src/main/java/com/example/AudIon/service/voice/VoiceService.java:233-247 | the record built for an upload; `CreatedVoiceFile` proves its URL choice, UPLOADED status, owner's wallet and `onCreate` defaults, `UploadedConstrained` when the table accepts it |
| Voice.VoiceFileRepository.constructor | src/main/java/com/example/AudIon/service/voice/VoiceService.java:30 | an empty, well-keyed table |
| Voice.VoiceFileRepository.FindById | src/main/java/com/example/AudIon/service/voice/VoiceService.java:111 | a fresh entity holding the row exactly when there is one |
| Voice.VoiceFileRepository.SaveExisting | src/main/java/com/example/AudIon/service/voice/VoiceService.java:85 | `onUpdate` runs; the row is overwritten with the entity exactly when it is within the entity's constraints, else the table is unchanged |
| Voice.VoiceFileRepository.SaveNew | src/main/java/com/example/AudIon/service/voice/VoiceService.java:58 | `onCreate` runs and the fresh key is assigned; the row is inserted exactly when it is within the entity's constraints, else the table is unchanged |
| Voice.VoiceFileRepository.Delete | src/main/java/com/example/AudIon/service/voice/VoiceService.java:169 | removes the row with the entity's key |
| Voice.TrainingOutcome | src/main/java/com/example/AudIon/service/voice/VoiceService.java:77-100 | afterwards the file is TRAINING with the returned job id, or FAILED with a completion time and a message starting with "AI 학습 요청 실패: "; it is not ready for training, and URL, key and wallet are kept |
| Voice.AfterTraining | src/main/java/com/example/AudIon/service/voice/VoiceService.java:77-100 | the state `handleAiTraining` saves; `TrainingOutcome` proves it TRAINING with the job id or FAILED with the prefixed message and a completion time, never ready for training, URL, key and wallet kept |
| Voice.HandleAiTraining | src/main/java/com/example/AudIon/service/voice/VoiceService.java:77-100 | the entity becomes the training outcome of the old state, and its row too exactly when that outcome is within the constraints; a training failure is recorded, not rethrown |
| Voice.GetVoiceFile | src/main/java/com/example/AudIon/service/voice/VoiceService.java:106-113 | a null id and an unknown id fail; otherwise a fresh entity holding the row |
| Voice.GetOwnedVoiceFile | src/main/java/com/example/AudIon/service/voice/VoiceService.java:119-128 | a file is returned exactly to its owner (wallet ignoring case); a stored owner that differs is "access denied" |
| Voice.DeleteGuard | src/main/java/com/example/AudIon/service/voice/VoiceService.java:146-157 | passes exactly for an existing file the caller owns that is not training; each error exactly when the checks before it pass, in `deleteVoiceFile`'s order: no id and no row (from `getVoiceFile`), no owner wallet (the null dereference), another owner, then a training file |
| Voice.DeleteVoiceFile | src/main/java/com/example/AudIon/service/voice/VoiceService.java:146-178 | a failed guard changes nothing; otherwise the object is deleted when there is a key and the client works, and the result is true with the row deleted unless a client error escaped, which gives false with the row kept |
| Voice.FindOrCreateUser | src/main/java/com/example/AudIon/service/voice/VoiceService.java:209-221 | the user with exactly this wallet, or a new one with a fresh key created now |
| Voice.ResponseOf | src/main/java/com/example/AudIon/service/voice/VoiceService.java:249-262 | the file key as its 36-character text, the status by a name that reads back as the status, and the response's status predicates agree with the entity's |
| Voice.UploadOutcome | src/main/java/com/example/AudIon/service/voice/VoiceService.java:42-72 | a stored upload belongs to its uploader, points at the uploaded object, is training with the job id or failed, and the response says which and names the stored key |
| Voice.UploadedConstrained | src/main/java/com/example/AudIon/domain/voice/VoiceFile.java:35-93 | the uploaded record is within the constraints exactly when URL, key, stored name, content type, extension, job id and failure message fit their columns; then the created record fitted too |
| Voice.ExtendedAudioExtension | src/main/java/com/example/AudIon/service/voice/VoiceService.java:281-287 | the extension of `clip.extendedaudio` has 13 characters |
| Voice.LongExtensionRejected | src/main/java/com/example/AudIon/domain/voice/VoiceFile.java:91-93 | an upload named `clip.extendedaudio` is refused by the table whatever its type, owner and training outcome |
| Voice.HandleUpload | src/main/java/com/example/AudIon/service/voice/VoiceService.java:42-72 | rejected input and a failed upload leave both tables and the bucket unchanged; otherwise the object is stored, and when the record after training is within the constraints the user is found or created and the record saved and answered; else the call fails with both tables rolled back and the object left in the bucket |
| Voice.StoreUpload | src/main/java/com/example/AudIon/service/voice/VoiceService.java:57-66 | a record within the constraints after training is saved under the fresh key and answered; any other fails, with at most the created record written |
| S3.SanitizeWalletAddress | src/main/java/com/example/AudIon/service/s3/S3Service.java:159-164 | only safe characters; "unknown" for a blank wallet; else the trimmed length, each safe character kept and each other one replaced by `_` |
| S3.IsSafeChar | src/main/java/com/example/AudIon/service/s3/S3Service.java:42 | the characters `SAFE_PATTERN` keeps, `[a-zA-Z0-9._-]`; `SanitizeWalletAddress` returns only these and `SafeWalletKept` proves a wallet made of them kept |
| S3.SanitizeWalletIdempotent | src/main/java/com/example/AudIon/service/s3/S3Service.java:159-164 | a sanitised wallet sanitises to itself |
| S3.SafeWalletKept | src/main/java/com/example/AudIon/service/s3/S3Service.java:159-164 | a wallet of safe characters is kept as it is |
| S3.ExtensionOf | src/main/java/com/example/AudIon/service/s3/S3Service.java:171 | the extension has no dot or separator, ends the name after a dot, and is empty when there is no dot |
| S3.FileExtension | src/main/java/com/example/AudIon/service/s3/S3Service.java:166-173 | never empty and without a dot; "wav" for a blank name or a blank extension; else the lower-cased extension |
| S3.AudioFileAcceptance | src/main/java/com/example/AudIon/service/s3/S3Service.java:148-157 | a blank filename is always accepted, as is an allowed MIME type; acceptance means an allowed MIME type or an allowed extension |
| S3.IsValidAudioFile | src/main/java/com/example/AudIon/service/s3/S3Service.java:148-157 | an allowed MIME type or an allowed extension; `AudioFileAcceptance` proves a blank filename always accepted and the two ways the only ones |
| S3.S3KeyPrefix | src/main/java/com/example/AudIon/service/s3/S3Service.java:175-184 | every key starts with `voices/` and the wallet directory, whatever the date, UUID and extension |
| S3.S3KeyShape | src/main/java/com/example/AudIon/service/s3/S3Service.java:175-184 | the key is the date prefix, the UUID text, a dot and the extension |
| S3.S3Key | src/main/java/com/example/AudIon/service/s3/S3Service.java:175-184 | the generated key; `S3KeyShape`, `S3KeyFields` and `S3KeysDistinct` prove its layout, that its segments read back as wallet, date, UUID and extension, and that distinct UUIDs give distinct keys |
| S3.DatePrefixFields | src/main/java/com/example/AudIon/service/s3/S3Service.java:177-181 | the wallet and the padded year, month and day sit at fixed offsets of the prefix and read back as their values |
| S3.S3KeyFields | src/main/java/com/example/AudIon/service/s3/S3Service.java:175-184 | every field of the key reads back at its offset as the value it was built from |
| S3.S3KeysDistinct | src/main/java/com/example/AudIon/service/s3/S3Service.java:182 | two keys of the same wallet and day are equal only when the UUIDs and extensions are |
| S3.BuildPublicUrl | src/main/java/com/example/AudIon/service/s3/S3Service.java:214-219 | without a CDN base the object URL |
| S3.PublicUrlJoin | src/main/java/com/example/AudIon/service/s3/S3Service.java:214-219 | with a CDN base, one `/` between base and key and no doubled `/`; the URL ends with `/` and the key |
| S3.GeneratePresignedUrl | src/main/java/com/example/AudIon/service/s3/S3Service.java:222-238 | none for a public upload or a non-positive expiry; for a private upload with a positive expiry exactly what the signer gives, none included |
| S3.S3Client.constructor | src/main/java/com/example/AudIon/service/s3/S3Service.java:31 | an empty bucket with the given failure mode |
| S3.S3Client.PutObject | src/main/java/com/example/AudIon/service/s3/S3Service.java:210 | the object is stored unless the client fails |
| S3.S3Client.DeleteObject | src/main/java/com/example/AudIon/service/s3/S3Service.java:121 | the object is removed unless the client fails |
| S3.UploadCheck | src/main/java/com/example/AudIon/service/s3/S3Service.java:67-79 | passes exactly for a non-empty file of at most 50 MiB that is a valid audio file, with the rejections in that order |
| S3.S3Service.constructor | src/main/java/com/example/AudIon/service/s3/S3Service.java:31-37 | the service holds the client and the CDN base |
| S3.S3Service.UploadVoiceFile | src/main/java/com/example/AudIon/service/s3/S3Service.java:61-110 | a failed check or a failing client stores nothing; otherwise the object is stored under the key and the result carries the key, the object URL, the public URL exactly when public, and the presigned URL |
| S3.S3Service.DeleteFile | src/main/java/com/example/AudIon/service/s3/S3Service.java:115-128 | a blank key fails before the client is called; otherwise true with the object removed, false for a service error, and an escaping error for any other |
| S3.S3Service.FileExists | src/main/java/com/example/AudIon/service/s3/S3Service.java:133-144 | false for a blank key or a service error; with a working client, exactly whether the key is stored; an error exactly for a client error |
| VoiceFiles.Name | src/main/java/com/example/AudIon/domain/voice/VoiceFile.java:103-108 | every status has a non-empty upper-case name |
| VoiceFiles.ValueOf | src/main/java/com/example/AudIon/domain/voice/VoiceFile.java:103-108 | a name that reads back names that status |
| VoiceFiles.NameRoundTrip | src/main/java/com/example/AudIon/domain/voice/VoiceFile.java:103-108 | every status reads back from its name |
| VoiceFiles.ExactlyOnePredicate | src/main/java/com/example/AudIon/domain/voice/VoiceFile.java:122-140 | exactly one status predicate holds for a set status and none for a null one |
| VoiceFiles.IsUploaded | src/main/java/com/example/AudIon/domain/voice/VoiceFile.java:122-124 | status UPLOADED; one of the five predicates `ExactlyOnePredicate` proves mutually exclusive and exhaustive over a set status |
| VoiceFiles.IsProcessing | src/main/java/com/example/AudIon/domain/voice/VoiceFile.java:126-128 | status PROCESSING; covered by `ExactlyOnePredicate` |
| VoiceFiles.IsProcessed | src/main/java/com/example/AudIon/domain/voice/VoiceFile.java:130-132 | status PROCESSED; covered by `ExactlyOnePredicate` |
| VoiceFiles.IsTraining | src/main/java/com/example/AudIon/domain/voice/VoiceFile.java:134-136 | status TRAINING; covered by `ExactlyOnePredicate` |
| VoiceFiles.HasFailed | src/main/java/com/example/AudIon/domain/voice/VoiceFile.java:138-140 | status FAILED; covered by `ExactlyOnePredicate` |
| VoiceFiles.ReadyForTrainingIff | src/main/java/com/example/AudIon/domain/voice/VoiceFile.java:142-144 | ready for training exactly when uploaded or processed, never while processing, training or failed |
| VoiceFiles.IsReadyForTraining | src/main/java/com/example/AudIon/domain/voice/VoiceFile.java:142-144 | PROCESSED or UPLOADED; `ReadyForTrainingIff` proves it false while processing, training or failed |
| VoiceFiles.FileExtension | src/main/java/com/example/AudIon/domain/voice/VoiceFile.java:167-175 | an extension exactly when the last dot is neither first nor last; it is the lower-cased rest and contains no dot |
| VoiceFiles.Created | src/main/java/com/example/AudIon/domain/voice/VoiceFile.java:187-198 | upload time, status UPLOADED and processed flag false are filled only where null; nothing else changes |
| VoiceFiles.Updated | src/main/java/com/example/AudIon/domain/voice/VoiceFile.java:200-213 | the update time is now; the completion time is set once, on PROCESSED or FAILED, and then kept; PROCESSED raises the processed flag; nothing else changes |
| VoiceFiles.CreatedIdempotent | src/main/java/com/example/AudIon/domain/voice/VoiceFile.java:187-198 | a second `onCreate` changes nothing |
| VoiceFiles.CallbacksKeepConstraints | src/main/java/com/example/AudIon/domain/voice/VoiceFile.java:187-213 | `onUpdate` keeps a row within the constraints or outside them, and `onCreate` keeps a row within them |
| VoiceFiles.UpdatesMonotone | src/main/java/com/example/AudIon/domain/voice/VoiceFile.java:200-213 | over any run of updates a recorded completion time never changes and a raised processed flag never drops |
| VoiceFiles.VoiceFile.constructor | src/main/java/com/example/AudIon/domain/voice/VoiceFile.java:15-16 | the object holds the given state |
| VoiceFiles.VoiceFile.OnCreate | src/main/java/com/example/AudIon/domain/voice/VoiceFile.java:187-198 | the object's new state is `Created` of its old one |
| VoiceFiles.VoiceFile.OnUpdate | src/main/java/com/example/AudIon/domain/voice/VoiceFile.java:200-213 | the object's new state is `Updated` of its old one |
| VoiceFiles.VoiceFile.GetS3Url | src/main/java/com/example/AudIon/domain/voice/VoiceFile.java:178-180 | the file URL |
| VoiceFiles.VoiceFile.SetS3Url | src/main/java/com/example/AudIon/domain/voice/VoiceFile.java:182-184 | only the file URL changes, and it reads back |
| VoiceFiles.VoiceFile.SetStatus | src/main/java/com/example/AudIon/service/voice/VoiceService.java:83 | only the status changes |
| VoiceFiles.VoiceFile.SetJobId | src/main/java/com/example/AudIon/service/voice/VoiceService.java:84 | only the job id changes |
| VoiceFiles.VoiceFile.SetErrorMessage | src/main/java/com/example/AudIon/service/voice/VoiceService.java:93 | only the error message changes |
| VoiceFiles.EqualsEquivalence | src/main/java/com/example/AudIon/domain/voice/VoiceFile.java:230-234 | `equals` is reflexive, symmetric and transitive; without a key an entity equals only itself, with one it equals exactly the entities with the same key |
| Callback.SuccessAndFailureDisjoint | src/main/java/com/example/AudIon/dto/model/ModelTrainCompleteCallbackRequest.java:43-49 | a status is never both successful and failed |
| Callback.IsSuccessful | src/main/java/com/example/AudIon/dto/model/ModelTrainCompleteCallbackRequest.java:43-45 | DONE or SUCCESS, ignoring ASCII case; `SuccessAndFailureDisjoint` and `ValidStatusClassified` relate it to `IsFailed` |
| Callback.IsFailed | src/main/java/com/example/AudIon/dto/model/ModelTrainCompleteCallbackRequest.java:47-49 | ERROR or FAILED, ignoring ASCII case; never together with `IsSuccessful` (`SuccessAndFailureDisjoint`) |
| Callback.ValidStatusClassified | src/main/java/com/example/AudIon/dto/model/ModelTrainCompleteCallbackRequest.java:22-24 | a status the pattern admits is successful or failed but not both, successful exactly for DONE and SUCCESS |
| Callback.DurationPartsRecompose | src/main/java/com/example/AudIon/dto/model/ModelTrainCompleteCallbackRequest.java:54-56 | hours, minutes and seconds add back up to the duration; for a non-negative one minutes and seconds are below 60 |
| Callback.DurationPartsNonNegative | src/main/java/com/example/AudIon/dto/model/ModelTrainCompleteCallbackRequest.java:54-56 | for a non-negative duration the truncating parts are the Euclidean quotients and remainders |
| Callback.FormattedDurationShape | src/main/java/com/example/AudIon/dto/model/ModelTrainCompleteCallbackRequest.java:51-65 | under a minute only seconds, under an hour minutes and seconds, else all three, each the decimal of its part |
| Callback.FormattedDuration | src/main/java/com/example/AudIon/dto/model/ModelTrainCompleteCallbackRequest.java:51-65 | "알 수 없음" exactly for a null duration, otherwise a text ending in '초'; `FormattedDurationShape` gives each branch's text |
| Callback.ValidOutputsCases | src/main/java/com/example/AudIon/dto/model/ModelTrainCompleteCallbackRequest.java:82-87 | only a successful report without a non-blank model path is rejected; a failed one always passes |
| Callback.HasValidOutputs | src/main/java/com/example/AudIon/dto/model/ModelTrainCompleteCallbackRequest.java:82-87 | a successful report needs a non-blank model path; `ValidOutputsCases` proves exactly these reports rejected and every failed one accepted |
| UploadResponse.StatusPredicates | src/main/java/com/example/AudIon/dto/voice/VoiceUploadResponse.java:51-65 | failed and successful each imply completed, are the only ways to be completed and are never both; training is never completed |
| UploadResponse.AgreesWithEntity | src/main/java/com/example/AudIon/dto/voice/VoiceUploadResponse.java:51-65 | on a status name the response's predicates agree with the entity's |
| UploadResponse.IsTraining | src/main/java/com/example/AudIon/dto/voice/VoiceUploadResponse.java:51-53 | the status text is exactly TRAINING; `StatusPredicates` proves it never completed |
| UploadResponse.IsCompleted | src/main/java/com/example/AudIon/dto/voice/VoiceUploadResponse.java:55-57 | PROCESSED or FAILED; `StatusPredicates` proves these the only two ways |
| UploadResponse.HasFailed | src/main/java/com/example/AudIon/dto/voice/VoiceUploadResponse.java:59-61 | FAILED; `StatusPredicates` proves it completed and never successful |
| UploadResponse.IsSuccessful | src/main/java/com/example/AudIon/dto/voice/VoiceUploadResponse.java:63-65 | PROCESSED; `StatusPredicates` proves it completed, and `AgreesWithEntity` that it agrees with the entity |
| UploadResponse.FormattedFileSize | src/main/java/com/example/AudIon/dto/voice/VoiceUploadResponse.java:31-41 | a text exactly for a null size or one below 1024 bytes |
| UploadResponse.ByteSizeReadsBack | src/main/java/com/example/AudIon/dto/voice/VoiceUploadResponse.java:34-35 | a size below 1024 is shown as its own decimal numeral followed by " B" |
| VoiceModels.VoiceModel.constructor | src/main/java/com/example/AudIon/domain/model/VoiceModel.java:14-35 | the object holds the given state |
| VoiceModels.Storable | src/main/java/com/example/AudIon/domain/model/VoiceModel.java:27-28 | the `nullable = false` model path column: a stored row has a model path |
| VoiceModels.VoiceModelRepository.constructor | src/main/java/com/example/AudIon/controller/model/VoiceModelController.java:32-35 | a table whose rows are filed under their ids and have a model path |
| VoiceModels.VoiceModelRepository.FindById | src/main/java/com/example/AudIon/controller/model/VoiceModelController.java:102-103 | a fresh entity holding the row exactly when there is one |
| VoiceModels.VoiceModelRepository.Save | src/main/java/com/example/AudIon/controller/model/VoiceModelController.java:126 | the write succeeds exactly when the entity has a model path, and then the row with its key is overwritten; a refused write leaves the table unchanged |
| VoiceModels.CallbackOutcome | src/main/java/com/example/AudIon/controller/model/VoiceModelController.java:106-126 | DONE exactly for a successful report, with its path and preview; ERROR otherwise, with the reported message or "Training failed" for a failed one and "Unknown status: " and the status for any other; completion and update time now; key, owner and file kept |
| VoiceModels.AfterCallback | src/main/java/com/example/AudIon/controller/model/VoiceModelController.java:106-126 | the row after the status mapping; `CallbackOutcome` and `ValidCallbackOutcome` prove its DONE, ERROR and unknown-status branches and the completion times |
| VoiceModels.ValidCallbackOutcome | src/main/java/com/example/AudIon/controller/model/VoiceModelController.java:106-122 | a status the pattern admits never takes the unknown branch |
| VoiceModels.VoiceModelController.constructor | src/main/java/com/example/AudIon/controller/model/VoiceModelController.java:32-38 | the controller holds the tables and the configured secret |
| VoiceModels.VoiceModelController.ModelTrainCallback | src/main/java/com/example/AudIon/controller/model/VoiceModelController.java:85-138 | 401 exactly for a header that is not the configured secret, 400 exactly for a blank model id, 404 exactly for an id that does not parse or names nothing, 500 exactly for a successful report without a model path (the refused write), 200 otherwise; only 200 writes, and then the row becomes the callback outcome |
| VoiceModels.VoiceModelController.RecordOutcome | src/main/java/com/example/AudIon/controller/model/VoiceModelController.java:106-126 | the setter calls leave the callback outcome of the old state |
| VoiceModels.VoiceModelController.CreateModel | src/main/java/com/example/AudIon/controller/model/VoiceModelController.java:44-79 | 400 exactly when an id does not parse or names nothing, 500 for a file without a wallet, 403 exactly for a file whose wallet differs from the caller's ignoring case; 200 only for the file's owner |
| VoiceModels.VoiceModelController.GetModelAsWritten | src/main/java/com/example/AudIon/controller/model/VoiceModelController.java:144-175 | 400 and 403 as meant, but 500 whenever the creation or completion time is missing, so a pending or training model is never shown |
| VoiceModels.VoiceModelController.GetModel | src/main/java/com/example/AudIon/controller/model/VoiceModelController.java:144-175 | 400 for a bad or unknown id, 403 exactly on an owner mismatch, 500 only for a missing owner or status, and 200 with the model's view to its owner (the corrected version) |
| VoiceModels.OnlyOwnerReads | src/main/java/com/example/AudIon/controller/model/VoiceModelController.java:152-154 | two principals that both pass the owner check for a model carry the text of the same user key |
| VoiceModels.PendingModelExample | src/main/java/com/example/AudIon/controller/model/VoiceModelController.java:156-166 | a pending model read by its owner: the as-written lookup answers 500, the corrected one 200 with status PENDING and no completion time |

## Left out

- Cryptography is not modelled: keccak-256, EIP-55 checksums, secp256k1 recovery, HMAC-SHA256 and the JWT compact encoding are parameters. A token is its header, its claims and the key that signed it.
- The `Numeric` hex decoding of web3j is modelled from its documented behaviour, because that library is not part of this model.
- Signature.HexDigit: reads ASCII hex digits only, where web3j's `Character.digit(c, 16)` also reads other Unicode decimal digits and the fullwidth Latin letters. The difference cannot be reached: the `LoginRequest` pattern `^0x[0-9a-fA-F]{130}$` admits only ASCII signatures.
- I/O is not modelled: the multipart stream, the S3 client, the training server's REST call and logging. The storage client's behaviour is a field saying whether the next call fails and how. The training request's outcome is a parameter.
- The clock is a parameter. The source sometimes reads it twice in one operation: `issueNonce` for the creation and expiry times, `getSecondsUntilExpiry`, and the callback's completion and update times. The model uses one instant each time.
- These are parameters: `UUID.randomUUID`, `LocalDate.now`, and the keys the persistence provider generates.
- Floating point is not modelled:
  - the duration check of `validateInput`;
  - `getFormattedDuration` of `VoiceFile` and of `VoiceUploadResponse`;
  - the KB, MB and GB branches of `getFormattedFileSize` and `getFormattedModelSize`;
  - the callback's quality scores.
- Time precision is not modelled. JWT times are whole seconds in the source; the model keeps them exact. `LocalDateTime` and `Instant` are one type here.
- Strings are sequences of Unicode scalar values. Java lengths count UTF-16 units, which differ only outside the Basic Multilingual Plane.
- `toLowerCase` and `equalsIgnoreCase` fold ASCII letters only. `hasText` uses the full `Character.isWhitespace` set: the space, U+0009..U+000D, U+001C..U+001F and the Unicode space, line and paragraph separators except the no-break spaces.
- Transactions are modelled per operation. `issueNonce`, `login` and `handleUpload` are one transaction each, and any failure restores the tables they touch. So the deletion of an expired nonce during a failed login is undone, as Spring's default rollback does. `LoginBody` states what the body does before the rollback.
- Left out because they are concurrency or scheduling concerns:
  - pessimistic and optimistic locking (`@Version`);
  - the hourly `@Scheduled` trigger of the cleanup;
  - the flush timing of JPA callbacks. `onUpdate` runs at each save of an existing entity.
- Bean validation of DTOs is not enforced, so the controller sees any status. The callback's status pattern is a predicate, and `ValidCallbackOutcome` covers the requests the pattern admits.
- The `FilenameUtils.getExtension` check that refuses a `:` on Windows is left out. '/' and '\' count as separators.
- `VoiceModel.java` lacks the model name, job id, error message and update time that the controller sets. The modelled record has the fields the controller uses.
- `VoiceFile.java` has no `walletAddress` field, but the service and the controller read and write one. The modelled record has it.
- Model creation stops at the guards: `createModel`'s 200 stands for the call into `VoiceModelService`, which is not part of this model.
- `getMyModels` and `getMyModelsPaged` are not modelled. They only list rows through the repository.
- Not modelled because they are getters or formatting without decisions in them:
  - `getJwtId`, `getIssuedAt`, `getExpirationTime` and `getTokenSummary` of `JwtUtil`;
  - `toString`, `toSecureString` and `getAgeInSeconds`;
  - `hashCode`, which is constant;
  - `createObjectMetadata`.
- `getUserVoiceFiles` and the one-argument `uploadVoiceFile` wrapper are not modelled. They only forward to the repository or to the modelled upload.
- Database collation is not modelled: user lookups match the wallet text exactly.
- Voice.ValidateInput: weaker than the source, because the duration rejection is not modelled (it compares floats).
- Voice.CreateVoiceFile and Voice.ResponseOf: the duration field is not carried.
- Voice.HandleUpload: the storage object of an upload whose record the table refuses stays in the bucket, as in the source; nothing deletes it.
- The entity constraints (Bean Validation and column sizes of `Nonce` and `VoiceFile`) are checked when the model writes a row. The persistence provider checks them at the flush, which for these entities comes at commit, after `handleUpload` has already sent the training request. Either way the call fails and the transaction rolls back. A refused `issueNonce` row is reported as `NonceIssueFailed`, whether it surfaces as "Failed to generate nonce" or as the commit's failure.
- The NOT NULL `modelPath` column of `VoiceModel` refuses the callback's save of a successful report without a path. That save is a transaction of its own, and the callback's catch-all turns the failure into 500.
- The column sizes of `VoiceFile.status` (20) and of the `users` table are not checked: every status name and every wallet the model stores fits them.

## Findings

| source | as written | input that shows it | evidently intended | confidence | as-written member | corrected member |
|---|---|---|---|---|---|---|
| src/main/java/com/example/AudIon/service/Auth/AuthService.java:151 | a new user's creation time is `LocalDateTime.from(Instant.now())`, which throws `DateTimeException` for every instant | the first login of a wallet that has no user row: the nonce checks and the signature pass, then user creation throws and the login fails | create the user with the current local time | high, not executed | Auth.AuthService.FindOrCreateUserAsWritten, Auth.AuthService.LoginAsWritten | Auth.AuthService.FindOrCreateUser, Auth.AuthService.Login |
| src/main/java/com/example/AudIon/config/security/JwtAuthenticationFilter.java:41-92 | the early-exit `filterChain.doFilter` calls sit inside the `try`, and a downstream exception is caught and logged, after which the chain is called again at line 92 | a request without an Authorization header whose downstream handler throws: the chain runs twice | the chain runs exactly once per request | high, not executed | AuthFilter.DoFilterInternalAsWritten, AuthFilter.DoubleInvocationExample | AuthFilter.DoFilterInternal |
| src/main/java/com/example/AudIon/service/Auth/AuthService.java:243-244 | every nonce created more than five minutes ago is deleted by `createdAt`. `issueNonce` sets `createdAt` on a reused row, but the column is `updatable = false` (Nonce.java:63-66), so the stored time keeps the first issue's | a wallet issued a nonce at t0 and again at t0 + 10 min; the cleanup at t0 + 11 min deletes the second nonce, which is unused and valid until t0 + 15 min, and that login then fails with "Nonce not found" | delete only nonces that have expired | medium, not executed | Auth.AuthService.CleanupExpiredNoncesAsWritten, Auth.CleanupDeletesLiveNonce | Auth.AuthService.CleanupExpiredNonces |
| src/main/java/com/example/AudIon/controller/model/VoiceModelController.java:156-166 | the response is built with `Map.of`, which throws `NullPointerException` on a null value; `completedAt` is null until training ends | the owner reads a model that is still PENDING or TRAINING: the answer is 500 "Failed to retrieve model" | answer 200 with the model's state and no completion time | high, not executed | VoiceModels.VoiceModelController.GetModelAsWritten, VoiceModels.PendingModelExample | VoiceModels.VoiceModelController.GetModel |
