/** The `auth_nonce` entity: one login challenge per wallet, its expiry rule and its life cycle. */
module Nonces {
  import opened Wrappers
  import opened Time
  import opened Uuid

  /** `DEFAULT_EXPIRY_MINUTES`. */
  const DefaultExpiryMinutes: int := 5

  /** The columns of a nonce row; every Java reference field may be `null` (None). */
  datatype NonceState = NonceState(
    id: Option<Uuid>,
    walletAddress: Option<string>,
    value: Option<string>,
    createdAt: Option<Instant>,
    expiresAt: Option<Instant>,
    isUsed: Option<bool>,
    usedAt: Option<Instant>,
    clientIp: Option<string>,
    userAgent: Option<string>,
    version: Option<int>)

  /** `isUsed()`: only `Boolean.TRUE` counts as used, so a null flag reads as unused. */
  predicate Used(n: NonceState) {
    n.isUsed == Some(true)
  }

  /** `isExpired()`: strictly after `expiresAt`. A null `expiresAt` throws, so the caller must have one. */
  predicate IsExpired(n: NonceState, now: Instant)
    requires n.expiresAt.Some?
  {
    now > n.expiresAt.value
  }

  /** `isValid()`. */
  predicate IsValid(n: NonceState, now: Instant)
    requires n.expiresAt.Some?
  {
    !Used(n) && !IsExpired(n, now)
  }

  /** A nonce is still unexpired at the very instant of `expiresAt`, expired one tick later, and stays expired. */
  lemma ExpiryBoundary(n: NonceState, now: Instant, later: Instant)
    requires n.expiresAt.Some? && now <= later
    ensures !IsExpired(n, n.expiresAt.value) && IsExpired(n, n.expiresAt.value + 1)
    ensures IsExpired(n, now) ==> IsExpired(n, later)
    ensures IsValid(n, now) <==> n.isUsed != Some(true) && now <= n.expiresAt.value
  {
  }

  /**
   * `getSecondsUntilExpiry()`: 0 once expired, otherwise the whole seconds left.
   * The source reads the clock once for the test and once for the count; here both are `now`.
   */
  function SecondsUntilExpiry(n: NonceState, now: Instant): (r: int)
    requires n.expiresAt.Some?
    ensures r >= 0
    ensures IsExpired(n, now) ==> r == 0
    ensures !IsExpired(n, now) ==>
      r * NanosPerSecond <= n.expiresAt.value - now < (r + 1) * NanosPerSecond
  {
    if IsExpired(n, now) then 0 else SecondsUntil(now, n.expiresAt.value)
  }

  /** The builder's starting point: every field null except `isUsed`, which starts `false`. */
  const Blank: NonceState :=
    NonceState(None, None, None, None, None, Some(false), None, None, None, None)

  /**
   * The all-arguments constructor, through which `build()` goes: a null `isUsed`
   * becomes `false`, every other argument is kept.
   */
  function Construct(s: NonceState): (r: NonceState)
    ensures r.isUsed.Some? && (r.isUsed.value <==> s.isUsed == Some(true))
    ensures r.(isUsed := s.isUsed) == s
  {
    s.(isUsed := Some(s.isUsed.GetOr(false)))
  }

  /** `createWithExpiry`: created now, due `expiryMinutes` later, unused. */
  function CreateWithExpiry(wallet: string, value: string, expiryMinutes: int, now: Instant): (r: NonceState)
    ensures r.walletAddress == Some(wallet) && r.value == Some(value)
    ensures r.createdAt == Some(now) && r.expiresAt == Some(PlusMinutes(now, expiryMinutes))
    ensures r.isUsed == Some(false) && r.usedAt == None && r.id == None
  {
    Construct(Blank.(walletAddress := Some(wallet), value := Some(value), createdAt := Some(now),
                     expiresAt := Some(PlusMinutes(now, expiryMinutes)), isUsed := Some(false)))
  }

  /** `create`: `createWithExpiry` with the five-minute default. */
  function Create(wallet: string, value: string, now: Instant): (r: NonceState)
    ensures r.walletAddress == Some(wallet) && r.value == Some(value)
    ensures r.createdAt == Some(now) && r.expiresAt == Some(now + 300 * NanosPerSecond)
    ensures r.isUsed == Some(false) && r.usedAt == None
  {
    CreateWithExpiry(wallet, value, DefaultExpiryMinutes, now)
  }

  /** A fresh nonce is valid exactly until its expiry instant, and never before it has been created is it expired. */
  lemma CreatedValidUntilExpiry(wallet: string, value: string, expiryMinutes: int, now: Instant, t: Instant)
    requires t <= now + expiryMinutes * NanosPerMinute
    ensures IsValid(CreateWithExpiry(wallet, value, expiryMinutes, now), t)
    ensures !IsValid(CreateWithExpiry(wallet, value, expiryMinutes, now), now + expiryMinutes * NanosPerMinute + 1)
  {
  }

  /** A default nonce expires five minutes, counted in nanoseconds, after its creation. */
  lemma CreateFiveMinutes(wallet: string, value: string, now: Instant)
    ensures Create(wallet, value, now).expiresAt == Some(now + 300 * NanosPerSecond)
    ensures IsValid(Create(wallet, value, now), now + 300 * NanosPerSecond)
    ensures !IsValid(Create(wallet, value, now), now + 300 * NanosPerSecond + 1)
  {
  }

  /** What `@PrePersist onPersist()` leaves: each of createdAt, expiresAt and isUsed filled only where it was null. */
  function PersistDefaults(s: NonceState, now: Instant): (r: NonceState)
    ensures r.createdAt.Some? && r.expiresAt.Some? && r.isUsed.Some?
    ensures s.createdAt.Some? ==> r.createdAt == s.createdAt
    ensures s.expiresAt.Some? ==> r.expiresAt == s.expiresAt
    ensures s.isUsed.Some? ==> r.isUsed == s.isUsed
    ensures s.expiresAt.None? ==> r.expiresAt == Some(PlusMinutes(r.createdAt.value, DefaultExpiryMinutes))
    ensures r.(createdAt := s.createdAt, expiresAt := s.expiresAt, isUsed := s.isUsed) == s
  {
    var created := if s.createdAt.Some? then s.createdAt else Some(now);
    var expires := if s.expiresAt.Some? then s.expiresAt else Some(PlusMinutes(created.value, DefaultExpiryMinutes));
    var used := if s.isUsed.Some? then s.isUsed else Some(false);
    s.(createdAt := created, expiresAt := expires, isUsed := used)
  }

  /** Running `onPersist` a second time changes nothing, whatever the clock says then. */
  lemma PersistDefaultsIdempotent(s: NonceState, now: Instant, later: Instant)
    ensures PersistDefaults(PersistDefaults(s, now), later) == PersistDefaults(s, now)
  {
  }

  /** `markAsUsed()`'s effect: used, at `now`, and nothing else changed. */
  function MarkedUsed(s: NonceState, now: Instant): (r: NonceState)
    ensures Used(r) && r.usedAt == Some(now)
    ensures r.(isUsed := s.isUsed, usedAt := s.usedAt) == s
  {
    s.(isUsed := Some(true), usedAt := Some(now))
  }

  /** A nonce marked used is never valid again, at any time. */
  lemma MarkedUsedNeverValid(s: NonceState, now: Instant, t: Instant)
    requires s.expiresAt.Some?
    ensures !IsValid(MarkedUsed(s, now), t)
  {
  }

  /** The `Nonce` entity object, whose setters and callbacks change its fields in place. */
  class Nonce {
    var id: Option<Uuid>
    var walletAddress: Option<string>
    var value: Option<string>
    var createdAt: Option<Instant>
    var expiresAt: Option<Instant>
    var isUsed: Option<bool>
    var usedAt: Option<Instant>
    var clientIp: Option<string>
    var userAgent: Option<string>
    var version: Option<int>

    /** The fields, as a value. */
    function State(): NonceState
      reads this
    {
      NonceState(id, walletAddress, value, createdAt, expiresAt, isUsed, usedAt, clientIp, userAgent, version)
    }

    /** The all-arguments constructor (used by `build()`): a null `isUsed` becomes `false`. */
    constructor (s: NonceState)
      ensures State() == Construct(s)
    {
      id, walletAddress, value := s.id, s.walletAddress, s.value;
      createdAt, expiresAt := s.createdAt, s.expiresAt;
      isUsed := Some(s.isUsed.GetOr(false));
      usedAt, clientIp, userAgent, version := s.usedAt, s.clientIp, s.userAgent, s.version;
    }

    /** `onPersist()`. */
    method OnPersist(now: Instant)
      modifies this
      ensures State() == PersistDefaults(old(State()), now)
    {
      if createdAt.None? {
        createdAt := Some(now);
      }
      if expiresAt.None? {
        expiresAt := Some(PlusMinutes(createdAt.value, DefaultExpiryMinutes));
      }
      if isUsed.None? {
        isUsed := Some(false);
      }
    }

    /** `markAsUsed()`, with the clock passed in. */
    method MarkAsUsed(now: Instant)
      modifies this
      ensures State() == MarkedUsed(old(State()), now)
    {
      isUsed := Some(true);
      usedAt := Some(now);
    }

    /**
     * The seven setter calls by which `issueNonce` resets a row for a new challenge:
     * value, createdAt, expiresAt (five minutes on), isUsed = false, usedAt = null,
     * client IP and user agent.
     */
    method Reset(newValue: string, now: Instant, ip: Option<string>, agent: Option<string>)
      modifies this
      ensures State() == old(State()).(value := Some(newValue), createdAt := Some(now),
                                       expiresAt := Some(PlusMinutes(now, DefaultExpiryMinutes)),
                                       isUsed := Some(false), usedAt := None, clientIp := ip, userAgent := agent)
    {
      value := Some(newValue);
      createdAt := Some(now);
      expiresAt := Some(PlusMinutes(now, DefaultExpiryMinutes));
      isUsed := Some(false);
      usedAt := None;
      clientIp := ip;
      userAgent := agent;
    }

    /** `setId`, as the persistence provider calls it when it generates the key. */
    method SetId(newId: Uuid)
      modifies this
      ensures State() == old(State()).(id := Some(newId))
    {
      id := Some(newId);
    }
  }
}
