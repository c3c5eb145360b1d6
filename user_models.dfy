/**
 * The account tables the user views work on. The registration serializer
 * stores into the `User` of backend/auth/models.py (a user name, a unique
 * e-mail, a verified flag); the e-mail verification codes and their
 * generator are those of backend/user/models.py, whose foreign key points
 * at the `User` of that file instead. One users table stands for both, and
 * an insert the other model's key refuses is the `refused` input of
 * `GenerateVerificationLink`. Users are keyed by id, and codes by their
 * unique code, each pointing at the user it was issued for.
 */
module UserModels {
  import opened Wrappers

  /** A user row; the password is only ever held hashed. */
  datatype Account = Account(id: nat, username: string, email: string, passwordHash: string, isVerified: bool)

  /** An `EmailVerification` row: the code, its user, and when it was issued (in microseconds). */
  datatype Verification = Verification(code: string, userId: nat, createdAt: int)

  /** Every code belongs to an existing user: the foreign key, deleted in cascade with its user. */
  predicate CodesOwned(users: map<nat, Account>, codes: map<string, Verification>) {
    forall c :: c in codes ==> codes[c].code == c && codes[c].userId in users
  }

  /** Every row sits under its own id, below the next auto-increment value, and every code has its user. */
  predicate TablesValid(users: map<nat, Account>, codes: map<string, Verification>, nextId: nat) {
    && (forall id :: id in users ==> users[id].id == id && id < nextId)
    && CodesOwned(users, codes)
  }

  /** The user name and the e-mail columns are unique: no two rows share either. */
  predicate UniqueLogins(users: map<nat, Account>) {
    forall a, b :: a in users && b in users && a != b ==>
      users[a].username != users[b].username && users[a].email != users[b].email
  }

  class Accounts {
    var users: map<nat, Account>
    var codes: map<string, Verification>
    /** The next value of the users' auto-increment key. */
    var nextId: nat

    predicate Valid()
      reads this
    {
      TablesValid(users, codes, nextId)
    }

    constructor()
      ensures Valid() && users == map[] && codes == map[] && nextId == 1
    {
      users := map[];
      codes := map[];
      nextId := 1;
    }

    /**
     * `EmailVerification.generate_verification_link(user)`: stores a row with
     * the freshly drawn uuid `drawn` and returns it. When the insert raises
     * the failure is logged and None is returned: a code that is already
     * taken breaks the unique column, and `refused` stands for every other
     * reason the insert can raise.
     */
    method GenerateVerificationLink(userId: nat, drawn: string, refused: bool, now: int) returns (code: Option<string>)
      requires Valid() && userId in users
      modifies this
      ensures Valid() && users == old(users) && nextId == old(nextId)
      ensures refused || drawn in old(codes) ==> code.None? && codes == old(codes)
      ensures !refused && drawn !in old(codes) ==>
        code == Some(drawn) && codes == old(codes)[drawn := Verification(drawn, userId, now)]
    {
      if refused || drawn in codes {
        return None;
      }
      codes := codes[drawn := Verification(drawn, userId, now)];
      code := Some(drawn);
    }
  }
}
