/** The users repository: e-mail addresses are normalised the same way when a
    user is created and when one is looked up. */
module UsersRepo {
  import opened Wrappers
  import opened GoStrings

  /** A row of `users`. */
  datatype User = User(id: string, email: string, name: string, passwordHash: string, createdAt: int)

  /** What the database answers to the INSERT ... RETURNING of a user. */
  datatype InsertUserAnswer = UserInserted(id: string, createdAt: int) | UserInsertFailed(reason: string)

  const ErrEmailRequired := "email required"
  /** database/sql's ErrNoRows message. */
  const ErrNoRows := "sql: no rows in result set"

  /** lower(trim(email)): no surrounding spaces, no upper-case ASCII letter, and
      empty exactly when the address is all space. */
  function NormalizeEmail(email: string): (r: string)
    ensures Trimmed(r)
    ensures forall i :: 0 <= i < |r| ==> !('A' <= r[i] <= 'Z')
    ensures r == "" <==> AllSpace(email)
  {
    var t := TrimSpace(email);
    assert Trimmed(ToLower(t)) by {
      if |t| > 0 {
        SpaceLower(t[0]);
        SpaceLower(t[|t| - 1]);
      }
    }
    ToLower(t)
  }

  /** Normalising twice is normalising once. */
  lemma NormalizeIdempotent(email: string)
    ensures NormalizeEmail(NormalizeEmail(email)) == NormalizeEmail(email)
  {
    var t := TrimSpace(email);
    TrimLowerCommute(t);
    TrimSpaceIdempotent(email);
    ToLowerIdempotent(t);
  }

  /** Surrounding spaces and ASCII case do not matter: an address wrapped in spaces
      normalises to the lower-cased core. */
  lemma NormalizeIgnoresSpaceAndCase(pre: string, core: string, post: string)
    requires AllSpace(pre) && AllSpace(post) && Trimmed(core)
    ensures NormalizeEmail(pre + core + post) == NormalizeEmail(ToLower(core)) == ToLower(core)
  {
    TrimSpaceOf(pre, core, post);
    TrimSpaceOf("", core, "");
    assert "" + core + "" == core;
    TrimLowerCommute(core);
    ToLowerIdempotent(core);
  }

  /** Create: the address is normalised and the name trimmed; a blank address is
      refused before the database is asked. */
  function Create(email: string, passwordHash: string, name: string, db: InsertUserAnswer): (r: Result<User, string>)
    ensures AllSpace(email) ==> r == Failure(ErrEmailRequired)
    ensures !AllSpace(email) && db.UserInsertFailed? ==> r == Failure(db.reason)
    ensures r.Success? <==> !AllSpace(email) && db.UserInserted?
    ensures r.Success? ==> r.value.email == NormalizeEmail(email) && r.value.email != ""
    ensures r.Success? ==> r.value == User(db.id, NormalizeEmail(email), TrimSpace(name), passwordHash, db.createdAt)
  {
    var key := NormalizeEmail(email);
    var trimmedName := TrimSpace(name);
    if key == "" then Failure(ErrEmailRequired)
    else match db
      case UserInsertFailed(reason) => Failure(reason)
      case UserInserted(id, createdAt) => Success(User(id, key, trimmedName, passwordHash, createdAt))
  }

  /** The `users` table holds one row per address (the UNIQUE constraint on email). */
  ghost predicate UniqueEmails(users: seq<User>) {
    forall i, j :: 0 <= i < j < |users| ==> users[i].email != users[j].email
  }

  /** The row whose email column equals `key`, if any. */
  function Lookup(users: seq<User>, key: string): (r: Option<User>)
    ensures r.None? <==> forall i :: 0 <= i < |users| ==> users[i].email != key
    ensures r.Some? ==> r.value in users && r.value.email == key
  {
    if users == [] then None
    else if users[0].email == key then Some(users[0])
    else
      var rest := Lookup(users[1..], key);
      assert forall i :: 1 <= i < |users| ==> users[i] == users[1..][i - 1];
      rest
  }

  /** FindByEmail: the same normalisation and the same blank check as Create, then
      an exact match on the stored address. */
  function FindByEmail(users: seq<User>, email: string): (r: Result<User, string>)
    ensures AllSpace(email) ==> r == Failure(ErrEmailRequired)
    ensures !AllSpace(email) ==> (r == Failure(ErrNoRows) <==> forall i :: 0 <= i < |users| ==> users[i].email != NormalizeEmail(email))
    ensures r.Success? ==> r.value in users && r.value.email == NormalizeEmail(email)
  {
    var key := NormalizeEmail(email);
    if key == "" then Failure(ErrEmailRequired)
    else match Lookup(users, key)
      case None => Failure(ErrNoRows)
      case Some(u) => Success(u)
  }

  /** A user created with one spelling of an address is found with any spelling that
      normalises the same, for instance one differing in case or surrounding spaces. */
  lemma FindAfterCreate(users: seq<User>, email: string, passwordHash: string, name: string,
                        db: InsertUserAnswer, spelling: string)
    requires Create(email, passwordHash, name, db).Success?
    requires Create(email, passwordHash, name, db).value in users && UniqueEmails(users)
    requires NormalizeEmail(spelling) == NormalizeEmail(email)
    ensures FindByEmail(users, spelling) == Create(email, passwordHash, name, db)
  {
    var u := Create(email, passwordHash, name, db).value;
    var found := FindByEmail(users, spelling);
    assert !AllSpace(spelling);
    var i :| 0 <= i < |users| && users[i] == u;
    assert found.Success?;
    var j :| 0 <= j < |users| && users[j] == found.value;
    assert i == j;
  }
}
