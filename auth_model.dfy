/**
 * The user record the account services read and write, the library calls
 * they make on it, and the uniqueness the user table enforces.
 */
module AuthModel {
  /** One row of the user table, keyed by its primary key in `Users`. */
  datatype User = User(
    email: string,
    username: string,
    passwordHash: string,
    isActive: bool,
    firstName: string,
    lastName: string,
    dateJoined: int)

  type Users = map<int, User>

  /**
   * The library routines whose bodies lie outside this model, as values the
   * operations receive: `UserManager.normalize_email`, the messages of
   * `validate_password`, Django's `EmailValidator`, the hasher behind
   * `set_password`, and `default_token_generator.make_token`/`check_token`
   * (the secret and the clock they consult are part of the value). The last
   * two fields are the `unique` error messages of the User model's `email` and
   * `username` columns, which a `ModelSerializer`'s `UniqueValidator` raises.
   */
  datatype Auth = Auth(
    normalizeEmail: string -> string,
    passwordProblems: string -> seq<string>,
    isEmail: string -> bool,
    makePassword: string -> string,
    makeToken: (int, User) -> string,
    checkToken: (int, User, string) -> bool,
    emailUniqueMessage: string,
    usernameUniqueMessage: string)

  /** `User.objects.filter(email=value).exists()`. */
  predicate EmailTaken(users: Users, email: string) {
    exists pk | pk in users :: users[pk].email == email
  }

  /** `User.objects.filter(username=value).exists()`. */
  predicate UsernameTaken(users: Users, username: string) {
    exists pk | pk in users :: users[pk].username == username
  }

  /** The emails stored in the table, which the email column's `UniqueValidator` refuses. */
  function StoredEmails(users: Users): (emails: set<string>)
    ensures forall e :: e in emails <==> EmailTaken(users, e)
  {
    set pk | pk in users :: users[pk].email
  }

  /** The usernames stored in the table, which the username column's `UniqueValidator` refuses. */
  function StoredUsernames(users: Users): (names: set<string>)
    ensures forall n :: n in names <==> UsernameTaken(users, n)
  {
    set pk | pk in users :: users[pk].username
  }

  /** The rows `User.objects.get(email=value)` would find. */
  function EmailOwners(users: Users, email: string): (owners: set<int>)
    ensures forall pk :: pk in owners <==> pk in users && users[pk].email == email
  {
    set pk | pk in users && users[pk].email == email
  }

  /**
   * The table's integrity: primary keys are positive and below the next one to
   * be issued, and no two rows share an email or a username.
   */
  predicate ValidUsers(users: Users, nextPk: int) {
    && 0 < nextPk
    && (forall pk | pk in users :: 0 < pk < nextPk)
    && (forall p, q | p in users && q in users && users[p].email == users[q].email :: p == q)
    && (forall p, q | p in users && q in users && users[p].username == users[q].username :: p == q)
  }

  /** With unique emails, an email that is taken belongs to exactly one row. */
  lemma {:induction false} OwnerIsUnique(users: Users, nextPk: int, email: string)
    requires ValidUsers(users, nextPk) && EmailTaken(users, email)
    ensures |EmailOwners(users, email)| == 1
  {
    var pk :| pk in users && users[pk].email == email;
    var owners := EmailOwners(users, email);
    forall q | q in owners ensures q == pk {
      assert users[q].email == users[pk].email;
    }
    assert owners == {pk};
  }

  /** A row stored under a fresh key adds that key and leaves every other row alone. */
  lemma {:induction false} InsertFrame(users: Users, k: int, u: User)
    requires k !in users
    ensures users[k := u].Keys == users.Keys + {k} && users[k := u][k] == u
    ensures forall pk | pk in users :: users[k := u][pk] == users[pk]
  {
  }

  /** Inserting a row whose email and username are both new, under the next key, keeps the integrity. */
  lemma {:induction false} InsertKeepsValid(users: Users, nextPk: int, u: User)
    requires ValidUsers(users, nextPk)
    requires !EmailTaken(users, u.email) && !UsernameTaken(users, u.username)
    ensures nextPk !in users && ValidUsers(users[nextPk := u], nextPk + 1)
  {
    var users' := users[nextPk := u];
    forall p | p in users ensures users[p].email != u.email && users[p].username != u.username {
    }
    forall p | p in users' ensures 0 < p < nextPk + 1 && (p != nextPk ==> p in users && users'[p] == users[p]) {
    }
    forall p, q | p in users' && q in users' && users'[p].email == users'[q].email ensures p == q {
    }
    forall p, q | p in users' && q in users' && users'[p].username == users'[q].username ensures p == q {
    }
  }

  /** Rewriting a row without touching its email or username keeps the integrity. */
  lemma {:induction false} UpdateKeepsValid(users: Users, nextPk: int, pk: int, u: User)
    requires ValidUsers(users, nextPk) && pk in users
    requires u.email == users[pk].email && u.username == users[pk].username
    ensures ValidUsers(users[pk := u], nextPk)
  {
    var users' := users[pk := u];
    forall p | p in users' ensures users'[p].email == users[p].email && users'[p].username == users[p].username {
    }
  }
}
