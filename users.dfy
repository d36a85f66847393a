/** The `users` table, as far as the login flow reads and writes it. The wallet column is unique. */
module Users {
  import opened Wrappers
  import opened Time
  import opened Uuid

  /** A `User` row: the generated key, the wallet and the creation time (`LocalDateTime`, here an instant). */
  datatype User = User(id: Uuid, walletAddress: string, createdAt: Option<Instant>)

  type UserTable = map<string, User>

  /** Each user is filed under its own wallet. */
  predicate UsersKeyed(t: UserTable) {
    forall w :: w in t ==> t[w].walletAddress == w
  }

  class UserRepository {
    var users: UserTable

    ghost predicate Valid()
      reads this
    {
      UsersKeyed(users)
    }

    constructor ()
      ensures Valid() && users == map[]
    {
      users := map[];
    }

    /** `findByWalletAddress`. */
    method FindByWalletAddress(wallet: string) returns (u: Option<User>)
      requires Valid()
      ensures u.Some? <==> wallet in users
      ensures u.Some? ==> u.value == users[wallet] && u.value.walletAddress == wallet
    {
      u := if wallet in users then Some(users[wallet]) else None;
    }

    /** `save(newUser)` of a user whose wallet has no row yet; `freshId` is the generated key. */
    method SaveNew(wallet: string, createdAt: Option<Instant>, freshId: Uuid) returns (u: User)
      requires Valid() && wallet !in users
      modifies this
      ensures Valid()
      ensures u == User(freshId, wallet, createdAt) && users == old(users)[wallet := u]
    {
      u := User(freshId, wallet, createdAt);
      users := users[wallet := u];
    }
  }
}
