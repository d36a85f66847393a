/**
 * `NonceRepository` as operations on the `auth_nonce` table. The wallet column is
 * unique, so the table is a map from wallet address to the row filed under it.
 */
module NonceStore {
  import opened Wrappers
  import opened Time
  import opened Uuid
  import opened Nonces
  import opened Signature

  type Table = map<string, NonceState>

  /** A row the database accepts: generated key set and every `nullable = false` column present. */
  predicate Stored(s: NonceState) {
    s.id.Some? && s.walletAddress.Some? && s.value.Some?
    && s.createdAt.Some? && s.expiresAt.Some? && s.isUsed.Some?
  }

  /**
   * The Bean Validation constraints and column sizes of the entity: the wallet matches
   * `^0x[0-9a-fA-F]{40}$`, the value has 8 to 64 characters, the user agent at most 500
   * and the client IP at most 45. A row that breaks one is refused when it is written.
   */
  predicate Constrained(s: NonceState) {
    && (s.walletAddress.Some? ==> IsWalletAddress(s.walletAddress.value))
    && (s.value.Some? ==> 8 <= |s.value.value| <= 64)
    && (s.userAgent.Some? ==> |s.userAgent.value| <= 500)
    && (s.clientIp.Some? ==> |s.clientIp.value| <= 45)
  }

  /** Each row is filed under its own wallet, is complete, and has a key no other row has. */
  predicate WellKeyed(t: Table) {
    && (forall w :: w in t ==> t[w].walletAddress == Some(w) && Stored(t[w]))
    && (forall w1, w2 :: w1 in t && w2 in t && w1 != w2 ==> t[w1].id != t[w2].id)
  }

  /** Every row is within the entity's constraints. */
  predicate AllConstrained(t: Table) {
    forall w :: w in t ==> Constrained(t[w])
  }

  /** No row holds the key `id`. */
  predicate IdUnused(t: Table, id: Uuid) {
    forall w :: w in t ==> t[w].id != Some(id)
  }

  /** Rewriting a row in place with its key and wallet kept, and its columns complete, keeps the table well keyed. */
  lemma UpdateWellKeyed(t: Table, w: string, s: NonceState)
    requires WellKeyed(t) && w in t && s.id == t[w].id && s.walletAddress == t[w].walletAddress && Stored(s)
    ensures WellKeyed(t[w := s])
  {
    var n := t[w := s];
    forall v1, v2 | v1 in n && v2 in n && v1 != v2
      ensures n[v1].id != n[v2].id
    {
      assert n[v1].id == t[v1].id && n[v2].id == t[v2].id;
    }
  }

  /** `findByWalletAddress`: the row whose wallet equals the argument, or none. */
  function Find(t: Table, wallet: string): (r: Option<NonceState>)
    ensures r.Some? <==> wallet in t
    ensures WellKeyed(t) && r.Some? ==> r.value.walletAddress == Some(wallet)
    ensures WellKeyed(t) ==> forall w :: w in t && t[w].walletAddress == Some(wallet) ==> r == Some(t[w])
  {
    if wallet in t then Some(t[wallet]) else None
  }

  // ---------------------------------------------------------------------------
  // deleteAllExpired: `delete from Nonce n where n.createdAt < :threshold`
  // ---------------------------------------------------------------------------

  /** The WHERE clause; a NULL creation time compares as unknown and is not deleted. */
  predicate CreatedBefore(s: NonceState, threshold: Instant) {
    s.createdAt.Some? && s.createdAt.value < threshold
  }

  /** The wallets whose rows the bulk delete removes. */
  function ExpiredKeys(t: Table, threshold: Instant): (k: set<string>)
    ensures k <= t.Keys
    ensures forall w :: w in k <==> w in t && CreatedBefore(t[w], threshold)
  {
    set w | w in t && CreatedBefore(t[w], threshold)
  }

  /** The table after the bulk delete. */
  function Survivors(t: Table, threshold: Instant): (r: Table)
    ensures r.Keys == t.Keys - ExpiredKeys(t, threshold)
    ensures forall w :: w in r ==> r[w] == t[w] && !CreatedBefore(t[w], threshold)
  {
    map w | w in t && !CreatedBefore(t[w], threshold) :: t[w]
  }

  lemma SubsetCard<T>(a: set<T>, b: set<T>)
    requires b <= a
    ensures |a - b| + |b| == |a|
  {
    assert a == (a - b) + b;
    assert (a - b) * b == {};
  }

  /** The count the bulk delete returns is exactly the number of rows that disappear. */
  lemma DeleteAllExpiredCount(t: Table, threshold: Instant)
    ensures |Survivors(t, threshold)| + |ExpiredKeys(t, threshold)| == |t|
  {
    SubsetCard(t.Keys, ExpiredKeys(t, threshold));
    assert Survivors(t, threshold).Keys == t.Keys - ExpiredKeys(t, threshold);
  }

  /** A second bulk delete with the same threshold finds nothing and changes nothing. */
  lemma DeleteAllExpiredIdempotent(t: Table, threshold: Instant)
    ensures ExpiredKeys(Survivors(t, threshold), threshold) == {}
    ensures Survivors(Survivors(t, threshold), threshold) == Survivors(t, threshold)
  {
  }

  /** The bulk delete keeps a table well keyed. */
  lemma SurvivorsWellKeyed(t: Table, threshold: Instant)
    requires WellKeyed(t)
    ensures WellKeyed(Survivors(t, threshold))
  {
  }

  /**
   * The sweep by expiry that the cleanup job means: `delete ... where n.expiresAt < :now`,
   * which removes exactly the rows `isExpired()` holds of.
   */
  function Unexpired(t: Table, now: Instant): (r: Table)
    ensures forall w :: w in r <==> w in t && !(t[w].expiresAt.Some? && t[w].expiresAt.value < now)
    ensures forall w :: w in r ==> r[w] == t[w]
  {
    map w | w in t && !(t[w].expiresAt.Some? && t[w].expiresAt.value < now) :: t[w]
  }

  /** In a well-keyed table the sweep by expiry keeps exactly the rows that are not expired. */
  lemma UnexpiredKeepsLive(t: Table, now: Instant, w: string)
    requires WellKeyed(t) && w in t
    ensures w in Unexpired(t, now) <==> !IsExpired(t[w], now)
  {
  }

  // ---------------------------------------------------------------------------
  // deleteByWalletAndValue: `delete ... where n.walletAddress = :wallet and n.value = :value`
  // ---------------------------------------------------------------------------

  /** Whether the row of `wallet` carries `value`. */
  predicate Matches(t: Table, wallet: string, value: string) {
    wallet in t && t[wallet].value == Some(value)
  }

  /** The rows left by the two-column delete: in a well-keyed table, at most the one row of `wallet`. */
  lemma DeleteByWalletAndValueAtMostOne(t: Table, wallet: string, value: string, w: string)
    requires WellKeyed(t) && w in t && t[w].walletAddress == Some(wallet) && t[w].value == Some(value)
    ensures w == wallet && Matches(t, wallet, value)
  {
  }

  // ---------------------------------------------------------------------------
  // save and delete of the entity
  // ---------------------------------------------------------------------------

  /** The table without the row whose key is `id`: `delete(entity)` removes by key. */
  function WithoutId(t: Table, id: Option<Uuid>): (r: Table)
    ensures id.None? ==> r == t
    ensures forall w :: w in r <==> w in t && (id.None? || t[w].id != id)
    ensures forall w :: w in r ==> r[w] == t[w]
  {
    if id.None? then t else map w | w in t && t[w].id != id :: t[w]
  }

  /** The outcome of `save(entity)`: whether it was written, the table after it and the entity after it. */
  datatype Saved = Saved(ok: bool, table: Table, entity: NonceState)

  /**
   * `save` of a Nonce. A new entity (no key) is persisted: `onPersist` fills its
   * defaults, it gets the generated key, and it is inserted unless a not-null column
   * is missing, a constraint is broken or its wallet already has a row. A loaded entity
   * is updated in place unless it breaks a constraint; `createdAt` is `updatable = false`,
   * so the stored creation time is kept. A refused write leaves the table as it was.
   */
  function Save(t: Table, s: NonceState, freshId: Uuid, now: Instant): (r: Saved)
    requires s.id.Some? ==> s.walletAddress.Some? && s.walletAddress.value in t && t[s.walletAddress.value].id == s.id
    ensures r.ok ==> s.walletAddress.Some? && r.table.Keys == t.Keys + {s.walletAddress.value}
    ensures r.ok ==> forall w :: w in t && Some(w) != s.walletAddress ==> r.table[w] == t[w]
    ensures r.ok && s.id.None? ==> s.walletAddress.value !in t && r.table[s.walletAddress.value] == r.entity
    ensures r.ok && s.id.Some? ==> r.table[s.walletAddress.value] == s.(createdAt := t[s.walletAddress.value].createdAt)
    ensures !r.ok ==> r.table == t
    ensures s.id.None? ==> (r.ok <==> Stored(r.entity) && Constrained(r.entity) && r.entity.walletAddress.value !in t)
    ensures s.id.Some? ==> (r.ok <==> Stored(s.(createdAt := t[s.walletAddress.value].createdAt)) && Constrained(s))
    ensures s.id.Some? ==> r.entity == s
    ensures s.id.None? ==> r.entity == PersistDefaults(s, now).(id := Some(freshId))
  {
    if s.id.None? then
      var p := PersistDefaults(s, now).(id := Some(freshId));
      if !Stored(p) || !Constrained(p) || p.walletAddress.value in t then Saved(false, t, p)
      else Saved(true, t[p.walletAddress.value := p], p)
    else
      var w := s.walletAddress.value;
      var row := s.(createdAt := t[w].createdAt);
      if !Stored(row) || !Constrained(row) then Saved(false, t, s) else Saved(true, t[w := row], s)
  }

  /** Saving keeps the table well keyed, provided the generated key is new. */
  lemma SaveWellKeyed(t: Table, s: NonceState, freshId: Uuid, now: Instant)
    requires WellKeyed(t) && (s.id.None? ==> IdUnused(t, freshId))
    requires s.id.Some? ==> s.walletAddress.Some? && s.walletAddress.value in t && t[s.walletAddress.value].id == s.id
    ensures WellKeyed(Save(t, s, freshId, now).table)
  {
    var r := Save(t, s, freshId, now);
    if r.ok && s.id.None? {
      var w := s.walletAddress.value;
      assert r.table[w].walletAddress == Some(w) && Stored(r.table[w]);
      assert forall v :: v in r.table && v != w ==> r.table[v] == t[v];
    }
  }

  /** Saving writes only rows within the constraints, so a table whose rows all are stays so. */
  lemma SaveConstrained(t: Table, s: NonceState, freshId: Uuid, now: Instant)
    requires AllConstrained(t)
    requires s.id.Some? ==> s.walletAddress.Some? && s.walletAddress.value in t && t[s.walletAddress.value].id == s.id
    ensures AllConstrained(Save(t, s, freshId, now).table)
  {
    var r := Save(t, s, freshId, now);
    if r.ok {
      var w := s.walletAddress.value;
      assert Constrained(r.table[w]);
      assert forall v :: v in r.table && v != w ==> r.table[v] == t[v];
    }
  }

  /** The table object, which the queries change in place. */
  class NonceRepository {
    var rows: Table

    ghost predicate Valid()
      reads this
    {
      WellKeyed(rows) && AllConstrained(rows)
    }

    constructor ()
      ensures Valid() && rows == map[]
    {
      rows := map[];
    }

    /** `findByWalletAddress`: a fresh entity object loaded from the wallet's row. */
    method FindByWalletAddress(wallet: string) returns (n: Option<Nonce>)
      requires Valid()
      ensures n.Some? <==> wallet in rows
      ensures n.Some? ==> fresh(n.value) && n.value.State() == rows[wallet]
    {
      if wallet in rows {
        var e := new Nonce(rows[wallet]);
        n := Some(e);
      } else {
        n := None;
      }
    }

    /** `save(entity)`; `freshId` is the key the provider would generate, and `now` the creation time. */
    method SaveEntity(n: Nonce, freshId: Uuid, now: Instant) returns (ok: bool)
      requires Valid() && (n.id.None? ==> IdUnused(rows, freshId))
      requires n.id.Some? ==> n.walletAddress.Some? && n.walletAddress.value in rows && rows[n.walletAddress.value].id == n.id
      modifies this, n
      ensures Valid()
      ensures Saved(ok, rows, n.State()) == Save(old(rows), old(n.State()), freshId, now)
    {
      SaveWellKeyed(rows, n.State(), freshId, now);
      SaveConstrained(rows, n.State(), freshId, now);
      var r := Save(rows, n.State(), freshId, now);
      if n.id.None? {
        n.OnPersist(now);
        n.SetId(freshId);
      }
      ok, rows := r.ok, r.table;
    }

    /** `delete(entity)`: removes the row with the entity's key; an entity without a key is ignored. */
    method Delete(n: Nonce)
      requires Valid()
      modifies this
      ensures Valid()
      ensures rows == WithoutId(old(rows), n.id)
    {
      rows := WithoutId(rows, n.id);
    }

    /** `deleteAllExpired(threshold)`. */
    method DeleteAllExpired(threshold: Instant) returns (count: int)
      requires Valid()
      modifies this
      ensures Valid()
      ensures rows == Survivors(old(rows), threshold)
      ensures count == |ExpiredKeys(old(rows), threshold)| == |old(rows)| - |rows|
    {
      DeleteAllExpiredCount(rows, threshold);
      SurvivorsWellKeyed(rows, threshold);
      count := |ExpiredKeys(rows, threshold)|;
      rows := Survivors(rows, threshold);
    }

    /** The sweep by expiry; returns how many rows it removed. */
    method DeleteAllExpiredAt(now: Instant) returns (count: int)
      requires Valid()
      modifies this
      ensures Valid()
      ensures rows == Unexpired(old(rows), now)
      ensures count == |old(rows)| - |rows|
    {
      var before := rows;
      rows := Unexpired(rows, now);
      count := |before| - |rows|;
    }

    /** `deleteByWalletAndValue(wallet, value)`: 1 when the wallet's row holds that value and is removed, else 0. */
    method DeleteByWalletAndValue(wallet: string, value: string) returns (count: int)
      requires Valid()
      modifies this
      ensures Valid()
      ensures count == 0 || count == 1
      ensures count == 1 <==> Matches(old(rows), wallet, value)
      ensures rows == if count == 1 then old(rows) - {wallet} else old(rows)
    {
      if Matches(rows, wallet, value) {
        rows := rows - {wallet};
        count := 1;
      } else {
        count := 0;
      }
    }
  }
}
