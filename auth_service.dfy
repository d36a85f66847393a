/**
 * `AuthService`: the wallet-login flow. A wallet asks for a nonce, signs the login
 * message with it, and trades the signature for a session token; the nonce row is
 * single-use and expires after five minutes.
 */
module Auth {
  import opened Wrappers
  import opened Text
  import opened Time
  import opened Uuid
  import opened Bytes
  import opened Signature
  import opened Wallet
  import opened Nonces
  import opened NonceStore
  import opened Users
  import opened Jwt

  /** `DEFAULT_NONCE_VALIDITY_MINUTES`. */
  const NonceValidityMinutes: int := 5

  /** `generateNonceValue`: a random UUID's text without its dashes, drawn here from the parameter `u`. */
  function GenerateNonceValue(u: Uuid): (v: string)
    ensures |v| == 32 && IsLowerHex(v)
    ensures 8 <= |v| <= 64
  {
    Dashless(u);
    RemoveChar(ToString(u), '-')
  }

  /** Distinct UUIDs give distinct nonce values. */
  lemma NonceValueInjective(u1: Uuid, u2: Uuid)
    requires GenerateNonceValue(u1) == GenerateNonceValue(u2)
    ensures u1 == u2
  {
    Dashless(u1);
    Dashless(u2);
  }

  /**
   * The row `issueNonce` writes for wallet `w`: the existing row reused (keeping its
   * stored creation time, a column that is not updatable) or a new one with key
   * `freshId`, in both cases with the new value, five minutes to expiry, unused.
   */
  function IssuedRow(rows: Table, w: string, v: string, now: Instant, ip: Option<string>, agent: Option<string>,
                     freshId: Uuid): NonceState
  {
    var base := if w in rows then rows[w] else Blank.(id := Some(freshId), walletAddress := Some(w), createdAt := Some(now));
    base.(value := Some(v), expiresAt := Some(PlusMinutes(now, NonceValidityMinutes)),
          isUsed := Some(false), usedAt := None, clientIp := ip, userAgent := agent)
  }

  /** After an issue, the wallet's row holds the returned value, is valid for the next five minutes, and no other row changed. */
  lemma IssuedRowValid(rows: Table, w: string, v: string, now: Instant, ip: Option<string>, agent: Option<string>,
                       freshId: Uuid, t: Instant)
    requires t <= now + 5 * NanosPerMinute
    ensures var n := rows[w := IssuedRow(rows, w, v, now, ip, agent, freshId)];
      && Find(n, w).Some? && Find(n, w).value.value == Some(v)
      && IsValid(n[w], t) && !IsValid(n[w], now + 5 * NanosPerMinute + 1)
      && (forall x :: x in rows && x != w ==> n[x] == rows[x])
  {
  }

  /**
   * Which issued rows the table accepts: exactly those for a wallet matching the address
   * pattern, with a client IP of at most 45 and a user agent of at most 500 characters.
   * The generated value always fits, and a reused row's wallet already matched.
   */
  lemma IssuedRowConstrained(rows: Table, w: string, u: Uuid, now: Instant, ip: Option<string>, agent: Option<string>,
                             freshId: Uuid)
    requires WellKeyed(rows) && AllConstrained(rows)
    ensures Constrained(IssuedRow(rows, w, GenerateNonceValue(u), now, ip, agent, freshId)) <==>
              IsWalletAddress(w) && (ip.Some? ==> |ip.value| <= 45) && (agent.Some? ==> |agent.value| <= 500)
  {
    if w in rows {
      assert rows[w].walletAddress == Some(w) && Constrained(rows[w]);
    }
  }

  /**
   * The nonce checks of `login` and `validateNonce`, in order: a row must exist, be
   * unused, be unexpired, and the signature must verify against the exact login message.
   * A used row reports "already used" even when it has also expired.
   */
  function NonceGate(rows: Table, w: string, signature: Option<string>, now: Instant, recover: Recover): (r: Result<NonceState, AuthError>)
    requires WellKeyed(rows)
    ensures r.Ok? ==> w in rows && r.value == rows[w] && IsValid(r.value, now)
    ensures r.Ok? ==> VerifyPersonalSign(w, signature, LoginMessage(r.value.value), recover)
    ensures w !in rows <==> r == Err(NonceNotFound)
    ensures r == Err(NonceAlreadyUsed) <==> w in rows && Used(rows[w])
    ensures r == Err(NonceExpired) <==> w in rows && !Used(rows[w]) && IsExpired(rows[w], now)
  {
    if w !in rows then Err(NonceNotFound)
    else
      var n := rows[w];
      if Used(n) then Err(NonceAlreadyUsed)
      else if IsExpired(n, now) then Err(NonceExpired)
      else if !VerifyPersonalSign(w, signature, LoginMessage(n.value), recover) then Err(InvalidSignature)
      else Ok(n)
  }

  /** The table after the nonce checks: an expired row has been deleted (by key), everything else is as it was. */
  function GateTable(rows: Table, w: string, signature: Option<string>, now: Instant, recover: Recover): Table
    requires WellKeyed(rows)
  {
    if NonceGate(rows, w, signature, now, recover) == Err(NonceExpired) then WithoutId(rows, rows[w].id) else rows
  }

  /** Deleting by the key of `w`'s row removes exactly that row. */
  lemma WithoutOwnId(rows: Table, w: string)
    requires WellKeyed(rows) && w in rows
    ensures WithoutId(rows, rows[w].id) == rows - {w}
  {
  }

  /** An invalid signature is rejected before anything is written. */
  lemma BadSignatureChangesNothing(rows: Table, w: string, signature: Option<string>, now: Instant, recover: Recover)
    requires WellKeyed(rows) && NonceGate(rows, w, signature, now, recover) == Err(InvalidSignature)
    ensures GateTable(rows, w, signature, now, recover) == rows
    ensures w in rows && IsValid(rows[w], now)
  {
  }

  /** Once a login has marked the row used, every later login with that row fails as "already used", whatever the signature and time. */
  lemma ReplayRejected(rows: Table, w: string, s1: Option<string>, s2: Option<string>, t1: Instant, t2: Instant, recover: Recover)
    requires WellKeyed(rows) && NonceGate(rows, w, s1, t1, recover).Ok?
    ensures WellKeyed(rows[w := MarkedUsed(rows[w], t1)])
    ensures NonceGate(rows[w := MarkedUsed(rows[w], t1)], w, s2, t2, recover) == Err(NonceAlreadyUsed)
  {
    UpdateWellKeyed(rows, w, MarkedUsed(rows[w], t1));
  }

  /** A nonce past its expiry never lets a login through, and an unused one is deleted. */
  lemma ExpiredNeverPasses(rows: Table, w: string, s: Option<string>, now: Instant, recover: Recover)
    requires WellKeyed(rows) && w in rows && IsExpired(rows[w], now)
    ensures NonceGate(rows, w, s, now, recover).Err?
    ensures !Used(rows[w]) ==> GateTable(rows, w, s, now, recover) == rows - {w}
  {
    if !Used(rows[w]) {
      WithoutOwnId(rows, w);
    }
  }

  /**
   * Issue then login: within five minutes of an issue, a signature that the wallet made
   * over the login message of the returned value passes every nonce check.
   */
  lemma IssueThenLogin(rows: Table, w: string, u: Uuid, now: Instant, ip: Option<string>, agent: Option<string>,
                       freshId: Uuid, signature: Option<string>, t: Instant, recover: Recover)
    requires WellKeyed(rows) && WellKeyed(rows[w := IssuedRow(rows, w, GenerateNonceValue(u), now, ip, agent, freshId)])
    requires t <= now + 5 * NanosPerMinute
    requires VerifyPersonalSign(w, signature, LoginMessage(Some(GenerateNonceValue(u))), recover)
    ensures NonceGate(rows[w := IssuedRow(rows, w, GenerateNonceValue(u), now, ip, agent, freshId)], w, signature, t, recover)
         == Ok(IssuedRow(rows, w, GenerateNonceValue(u), now, ip, agent, freshId))
  {
  }

  /** What the body of `login` leaves: the result, the nonce table and the user table, before any rollback. */
  datatype LoginOutcome = LoginOutcome(result: Result<Token, AuthError>, rows: Table, users: UserTable)

  /** `FindOrCreateUser`'s table: unchanged when the wallet has a user, else with a new user keyed `userId`. */
  function UsersAfter(users: UserTable, w: string, userId: Uuid, now: Instant): UserTable {
    if w in users then users else users[w := User(userId, w, Some(now))]
  }

  /** The login service, over its two tables and the token service. */
  class AuthService {
    const nonces: NonceRepository
    const users: UserRepository
    const jwt: JwtUtil
    /** `Keys.toChecksumAddress` and web3j's signer recovery, which are not part of this model. */
    const checksum: Checksum
    const recover: Recover

    ghost predicate Valid()
      reads this, nonces, users
    {
      nonces.Valid() && users.Valid()
    }

    constructor (nonces: NonceRepository, users: UserRepository, jwt: JwtUtil, checksum: Checksum, recover: Recover)
      ensures this.nonces == nonces && this.users == users && this.jwt == jwt
      ensures this.checksum == checksum && this.recover == recover
    {
      this.nonces, this.users, this.jwt := nonces, users, jwt;
      this.checksum, this.recover := checksum, recover;
    }

    /**
     * `issueNonce(walletAddress, clientIp, userAgent)` at `now`, with `random` the UUID
     * drawn for the value and `freshId` the key a new row would get. Returns the stored
     * value; a row the table refuses (a wallet of non-hex digits, which the normaliser lets
     * through, or an over-long client IP or user agent) fails the call and is rolled back.
     */
    method IssueNonce(wallet: Option<string>, ip: Option<string>, agent: Option<string>,
                      now: Instant, random: Uuid, freshId: Uuid) returns (r: Result<string, AuthError>)
      requires Valid() && IdUnused(nonces.rows, freshId)
      modifies nonces
      ensures Valid()
      ensures NormalizeWalletAddress(wallet, checksum).Err? ==>
                r == Err(NormalizeWalletAddress(wallet, checksum).error) && nonces.rows == old(nonces.rows)
      ensures NormalizeWalletAddress(wallet, checksum).Ok? ==>
                var w := NormalizeWalletAddress(wallet, checksum).value;
                var row := IssuedRow(old(nonces.rows), w, GenerateNonceValue(random), now, ip, agent, freshId);
                && (Constrained(row) ==> r == Ok(GenerateNonceValue(random)) && nonces.rows == old(nonces.rows)[w := row])
                && (!Constrained(row) ==> r == Err(NonceIssueFailed) && nonces.rows == old(nonces.rows))
    {
      var normalized := NormalizeWalletAddress(wallet, checksum);
      if normalized.Err? {
        return Err(normalized.error);
      }
      var w := normalized.value;
      var v := GenerateNonceValue(random);
      var found := nonces.FindByWalletAddress(w);
      var n: Nonce;
      if found.Some? {
        n := found.value;
      } else {
        n := new Nonce(Blank.(walletAddress := Some(w)));
      }
      n.Reset(v, now, ip, agent);
      var saved := nonces.SaveEntity(n, freshId, now);
      if !saved {
        return Err(NonceIssueFailed);
      }
      r := Ok(v);
    }

    /** `validateNonce`: the used check, then the expiry check, which deletes the row it rejects. */
    method ValidateNonce(n: Nonce, now: Instant) returns (error: Option<AuthError>)
      requires nonces.Valid() && n.expiresAt.Some?
      modifies nonces
      ensures nonces.Valid()
      ensures error == if Used(n.State()) then Some(NonceAlreadyUsed)
                       else if IsExpired(n.State(), now) then Some(NonceExpired) else None
      ensures nonces.rows == if error == Some(NonceExpired) then WithoutId(old(nonces.rows), n.id) else old(nonces.rows)
    {
      if Used(n.State()) {
        return Some(NonceAlreadyUsed);
      }
      if IsExpired(n.State(), now) {
        nonces.Delete(n);
        return Some(NonceExpired);
      }
      error := None;
    }

    /** `findOrCreateUser` as it is meant to work: the wallet's user, or a new one created at `now` with key `userId`. */
    method FindOrCreateUser(w: string, now: Instant, userId: Uuid) returns (u: User)
      requires users.Valid()
      modifies users
      ensures users.Valid()
      ensures users.users == UsersAfter(old(users.users), w, userId, now)
      ensures u == users.users[w] && u.walletAddress == w
      ensures w in old(users.users) ==> u == old(users.users)[w]
    {
      var found := users.FindByWalletAddress(w);
      if found.Some? {
        u := found.value;
      } else {
        u := users.SaveNew(w, Some(now), userId);
      }
    }

    /**
     * `findOrCreateUser` as written: the new user's creation time is computed as
     * `LocalDateTime.from(Instant.now())`, which throws `DateTimeException` for every
     * instant (an `Instant` has no local date-time fields). So only an existing user is
     * returned; for a new wallet it fails before anything is saved.
     */
    method FindOrCreateUserAsWritten(w: string) returns (u: Result<User, AuthError>)
      requires users.Valid()
      ensures u.Ok? <==> w in users.users
      ensures u.Ok? ==> u.value == users.users[w]
      ensures u.Err? ==> u.error == UserCreationFailed
    {
      var found := users.FindByWalletAddress(w);
      if found.Some? {
        u := Ok(found.value);
      } else {
        u := Err(UserCreationFailed);
      }
    }

    /** The outcome of `login`'s body on the given tables. */
    function LoginSpec(rows: Table, userRows: UserTable, w: string, signature: Option<string>,
                       now: Instant, userId: Uuid, jwtId: Uuid): LoginOutcome
      reads this, jwt
      requires WellKeyed(rows)
    {
      match NonceGate(rows, w, signature, now, recover)
      case Err(e) => LoginOutcome(Err(e), GateTable(rows, w, signature, now, recover), userRows)
      case Ok(n) =>
        var rows' := rows[w := MarkedUsed(n, now)];
        var users' := UsersAfter(userRows, w, userId, now);
        match jwt.CreateToken(ToString(users'[w].id), w, jwt.DefaultTtl(), now, jwtId)
        case None => LoginOutcome(Err(TokenCreationFailed), rows', users')
        case Some(t) => LoginOutcome(Ok(t), rows', users')
    }

    /** A successful login passed the nonce gate, then marked the nonce used and signed a token for the wallet's user. */
    lemma LoginSpecOk(rows: Table, userRows: UserTable, w: string, signature: Option<string>,
                      now: Instant, userId: Uuid, jwtId: Uuid)
      requires WellKeyed(rows)
      requires LoginSpec(rows, userRows, w, signature, now, userId, jwtId).result.Ok?
      ensures NonceGate(rows, w, signature, now, recover).Ok?
      ensures var users' := UsersAfter(userRows, w, userId, now);
        && w in users'
        && jwt.CreateToken(ToString(users'[w].id), w, jwt.DefaultTtl(), now, jwtId).Some?
        && LoginSpec(rows, userRows, w, signature, now, userId, jwtId)
           == LoginOutcome(Ok(jwt.CreateToken(ToString(users'[w].id), w, jwt.DefaultTtl(), now, jwtId).value),
                           rows[w := MarkedUsed(rows[w], now)], users')
    {
    }

    /** A successful login consumed a valid nonce whose message the wallet signed; an existing user is kept. */
    lemma LoginSuccessNonce(rows: Table, userRows: UserTable, w: string, signature: Option<string>,
                            now: Instant, userId: Uuid, jwtId: Uuid)
      requires WellKeyed(rows)
      requires LoginSpec(rows, userRows, w, signature, now, userId, jwtId).result.Ok?
      ensures var o := LoginSpec(rows, userRows, w, signature, now, userId, jwtId);
        && w in rows && IsValid(rows[w], now) && Used(o.rows[w])
        && VerifyPersonalSign(w, signature, LoginMessage(rows[w].value), recover)
        && w in o.users && (w in userRows ==> o.users == userRows)
    {
      LoginSpecOk(rows, userRows, w, signature, now, userId, jwtId);
      assert NonceGate(rows, w, signature, now, recover) == Ok(rows[w]);
      var o := LoginSpec(rows, userRows, w, signature, now, userId, jwtId);
      assert o.rows == rows[w := MarkedUsed(rows[w], now)];
      assert Used(o.rows[w]);
      assert o.users == UsersAfter(userRows, w, userId, now);
    }

    /** A token issued with the default lifetime names the given user and wallet, and is due `expHours` later. */
    lemma IssuedClaims(userId: string, w: string, now: Instant, jwtId: Uuid)
      requires jwt.CreateToken(userId, w, jwt.DefaultTtl(), now, jwtId).Some?
      ensures var c := jwt.CreateToken(userId, w, jwt.DefaultTtl(), now, jwtId).value.claims;
        c.sub == Some(userId) && c.wallet == Some(Str(w)) && c.exp == Some(now + jwt.expHours * NanosPerHour)
    {
      var ttl := jwt.DefaultTtl();
      assert ttl == jwt.expHours * NanosPerHour;
    }

    /** A successful login returns a token for the wallet's user, signed with the service key and due `expHours` later. */
    lemma LoginSuccessToken(rows: Table, userRows: UserTable, w: string, signature: Option<string>,
                            now: Instant, userId: Uuid, jwtId: Uuid)
      requires WellKeyed(rows)
      requires LoginSpec(rows, userRows, w, signature, now, userId, jwtId).result.Ok?
      ensures var o := LoginSpec(rows, userRows, w, signature, now, userId, jwtId);
        && w in o.users && o.result.value.claims.sub == Some(ToString(o.users[w].id))
        && o.result.value.claims.wallet == Some(Str(w))
        && o.result.value.claims.exp == Some(now + jwt.expHours * NanosPerHour)
    {
      LoginSpecOk(rows, userRows, w, signature, now, userId, jwtId);
      var users' := UsersAfter(userRows, w, userId, now);
      IssuedClaims(ToString(users'[w].id), w, now, jwtId);
    }

    /** `login`'s body, step by step, without the transaction around it. */
    method LoginBody(w: string, signature: Option<string>, now: Instant, userId: Uuid, jwtId: Uuid)
      returns (r: Result<Token, AuthError>)
      requires Valid()
      modifies nonces, users
      ensures Valid()
      ensures LoginSpec(old(nonces.rows), old(users.users), w, signature, now, userId, jwtId)
           == LoginOutcome(r, nonces.rows, users.users)
    {
      ghost var rows0 := nonces.rows;
      var found := nonces.FindByWalletAddress(w);
      if found.None? {
        return Err(NonceNotFound);
      }
      var n := found.value;
      var error := ValidateNonce(n, now);
      if error.Some? {
        return Err(error.value);
      }
      var message := LoginMessage(n.value);
      if !VerifyPersonalSign(w, signature, message, recover) {
        return Err(InvalidSignature);
      }
      n.MarkAsUsed(now);
      // A loaded row keeps its own key, so no generated key is used.
      var _ := nonces.SaveEntity(n, n.id.value, now);
      assert nonces.rows == rows0[w := MarkedUsed(rows0[w], now)];
      var user := FindOrCreateUser(w, now, userId);
      var token := jwt.CreateToken(ToString(user.id), w, jwt.DefaultTtl(), now, jwtId);
      if token.None? {
        return Err(TokenCreationFailed);
      }
      r := Ok(token.value);
    }

    /**
     * `login(walletAddress, signatureHex)`: the wallet is normalised, then the body runs
     * inside the transaction, which any failure rolls back, leaving both tables as they were.
     */
    method Login(wallet: Option<string>, signature: Option<string>, now: Instant, userId: Uuid, jwtId: Uuid)
      returns (r: Result<Token, AuthError>)
      requires Valid()
      modifies nonces, users
      ensures Valid()
      ensures NormalizeWalletAddress(wallet, checksum).Err? ==> r == Err(NormalizeWalletAddress(wallet, checksum).error)
      ensures NormalizeWalletAddress(wallet, checksum).Ok? ==>
        var o := LoginSpec(old(nonces.rows), old(users.users), NormalizeWalletAddress(wallet, checksum).value,
                           signature, now, userId, jwtId);
        r == o.result && (r.Ok? ==> nonces.rows == o.rows && users.users == o.users)
      ensures r.Err? ==> nonces.rows == old(nonces.rows) && users.users == old(users.users)
    {
      var normalized := NormalizeWalletAddress(wallet, checksum);
      if normalized.Err? {
        return Err(normalized.error);
      }
      var savedNonces, savedUsers := nonces.rows, users.users;
      r := LoginBody(normalized.value, signature, now, userId, jwtId);
      if r.Err? {
        // The transaction manager's rollback.
        nonces.rows, users.users := savedNonces, savedUsers;
      }
    }

    /**
     * `login`'s body as written, where `findOrCreateUser` throws for a wallet without a
     * user: a known user gets what `LoginSpec` describes, a new wallet's login fails after
     * the nonce checks with the user creation error.
     */
    method LoginBodyAsWritten(w: string, signature: Option<string>, now: Instant, jwtId: Uuid)
      returns (r: Result<Token, AuthError>)
      requires Valid()
      modifies nonces
      ensures Valid()
      ensures w in old(users.users) ==>
                LoginSpec(old(nonces.rows), old(users.users), w, signature, now, old(users.users)[w].id, jwtId)
                == LoginOutcome(r, nonces.rows, users.users)
      ensures w !in old(users.users) ==>
                r == match NonceGate(old(nonces.rows), w, signature, now, recover)
                     case Err(e) => Err(e)
                     case Ok(_) => Err(UserCreationFailed)
    {
      ghost var rows0 := nonces.rows;
      var found := nonces.FindByWalletAddress(w);
      if found.None? {
        return Err(NonceNotFound);
      }
      var n := found.value;
      var error := ValidateNonce(n, now);
      if error.Some? {
        return Err(error.value);
      }
      var message := LoginMessage(n.value);
      if !VerifyPersonalSign(w, signature, message, recover) {
        return Err(InvalidSignature);
      }
      n.MarkAsUsed(now);
      var _ := nonces.SaveEntity(n, n.id.value, now);
      assert nonces.rows == rows0[w := MarkedUsed(rows0[w], now)];
      var user := FindOrCreateUserAsWritten(w);
      if user.Err? {
        return Err(user.error);
      }
      var token := jwt.CreateToken(ToString(user.value.id), w, jwt.DefaultTtl(), now, jwtId);
      if token.None? {
        return Err(TokenCreationFailed);
      }
      r := Ok(token.value);
    }

    /**
     * `login` as written: the body inside the transaction. The first login of a wallet
     * that has no user always fails, and the rollback leaves both tables as they were.
     */
    method LoginAsWritten(wallet: Option<string>, signature: Option<string>, now: Instant, jwtId: Uuid)
      returns (r: Result<Token, AuthError>)
      requires Valid()
      modifies nonces, users
      ensures Valid()
      ensures NormalizeWalletAddress(wallet, checksum).Err? ==> r == Err(NormalizeWalletAddress(wallet, checksum).error)
      ensures NormalizeWalletAddress(wallet, checksum).Ok? && NormalizeWalletAddress(wallet, checksum).value in old(users.users) ==>
        var w := NormalizeWalletAddress(wallet, checksum).value;
        var o := LoginSpec(old(nonces.rows), old(users.users), w, signature, now, old(users.users)[w].id, jwtId);
        r == o.result && (r.Ok? ==> nonces.rows == o.rows && users.users == o.users)
      ensures NormalizeWalletAddress(wallet, checksum).Ok? && NormalizeWalletAddress(wallet, checksum).value !in old(users.users) ==>
        r.Err? && (NonceGate(old(nonces.rows), NormalizeWalletAddress(wallet, checksum).value, signature, now, recover).Ok? ==>
                   r == Err(UserCreationFailed))
      ensures r.Err? ==> nonces.rows == old(nonces.rows) && users.users == old(users.users)
    {
      var normalized := NormalizeWalletAddress(wallet, checksum);
      if normalized.Err? {
        return Err(normalized.error);
      }
      var savedNonces := nonces.rows;
      r := LoginBodyAsWritten(normalized.value, signature, now, jwtId);
      if r.Err? {
        // The transaction manager's rollback.
        nonces.rows := savedNonces;
      }
    }

    /**
     * `cleanupExpiredNonces` as written: deletes every row created more than five minutes
     * before `now`, used or not, and returns the count the query reports.
     */
    method CleanupExpiredNoncesAsWritten(now: Instant) returns (deleted: int)
      requires nonces.Valid()
      modifies nonces
      ensures nonces.Valid()
      ensures nonces.rows == Survivors(old(nonces.rows), PlusMinutes(now, -NonceValidityMinutes))
      ensures deleted == |old(nonces.rows)| - |nonces.rows|
    {
      deleted := nonces.DeleteAllExpired(PlusMinutes(now, -NonceValidityMinutes));
    }

    /** `cleanupExpiredNonces` as meant: delete exactly the rows that have expired by `now`. */
    method CleanupExpiredNonces(now: Instant) returns (deleted: int)
      requires nonces.Valid()
      modifies nonces
      ensures nonces.Valid()
      ensures nonces.rows == Unexpired(old(nonces.rows), now)
      ensures forall w :: w in old(nonces.rows) ==> (w in nonces.rows <==> !IsExpired(old(nonces.rows)[w], now))
      ensures deleted == |old(nonces.rows)| - |nonces.rows|
    {
      deleted := nonces.DeleteAllExpiredAt(now);
    }

    /** `getNonce`: the normalised wallet's row, or none; a malformed wallet throws. */
    method GetNonce(wallet: Option<string>) returns (r: Result<Option<Nonce>, AuthError>)
      requires nonces.Valid()
      ensures NormalizeWalletAddress(wallet, checksum).Err? ==> r == Err(NormalizeWalletAddress(wallet, checksum).error)
      ensures NormalizeWalletAddress(wallet, checksum).Ok? ==>
        var w := NormalizeWalletAddress(wallet, checksum).value;
        r.Ok? && (r.value.Some? <==> w in nonces.rows) && (r.value.Some? ==> r.value.value.State() == nonces.rows[w])
    {
      var normalized := NormalizeWalletAddress(wallet, checksum);
      if normalized.Err? {
        return Err(normalized.error);
      }
      var found := nonces.FindByWalletAddress(normalized.value);
      r := Ok(found);
    }

    /** `invalidateNonce`: true exactly when the normalised wallet had a row, which is then deleted; every failure is false. */
    method InvalidateNonce(wallet: Option<string>) returns (deleted: bool)
      requires nonces.Valid()
      modifies nonces
      ensures nonces.Valid()
      ensures deleted <==> NormalizeWalletAddress(wallet, checksum).Ok? && NormalizeWalletAddress(wallet, checksum).value in old(nonces.rows)
      ensures deleted ==> nonces.rows == old(nonces.rows) - {NormalizeWalletAddress(wallet, checksum).value}
      ensures !deleted ==> nonces.rows == old(nonces.rows)
    {
      var normalized := NormalizeWalletAddress(wallet, checksum);
      if normalized.Err? {
        return false;
      }
      var found := nonces.FindByWalletAddress(normalized.value);
      if found.None? {
        return false;
      }
      WithoutOwnId(nonces.rows, normalized.value);
      nonces.Delete(found.value);
      deleted := true;
    }
  }

  /**
   * The sweep as written deletes a live nonce. A wallet's row first created at `t0` and
   * reissued ten minutes later keeps `createdAt = t0` (the column is not updatable), so
   * the cleanup one minute after the reissue removes it although it is unused and valid
   * for four more minutes; the sweep by expiry keeps it.
   */
  lemma CleanupDeletesLiveNonce(w: string, v1: string, v2: string, id: Uuid, t0: Instant)
    ensures var first := map[w := IssuedRow(map[], w, v1, t0, None, None, id)];
      var reissued := first[w := IssuedRow(first, w, v2, t0 + 10 * NanosPerMinute, None, None, id)];
      var sweep := t0 + 11 * NanosPerMinute;
      && IsValid(reissued[w], sweep)
      && w !in Survivors(reissued, PlusMinutes(sweep, -NonceValidityMinutes))
      && w in Unexpired(reissued, sweep)
  {
  }
}
