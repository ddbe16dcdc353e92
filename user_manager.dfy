/**
 * The custom user model and its manager (`User` and `UserManager` in
 * app/core/models.py). Users are stored in a `UserStore`: the sequence
 * of saved rows plus the next primary key. The store keeps the email
 * column unique, as the model's `unique=True` makes the database do.
 */
module UserManager {
  import opened Wrappers
  import opened PyStr

  /**
   * What `set_password` leaves on the row: no usable password
   * (`password=None`), or the hash of the given one. Hashing is not
   * modelled; `Hashed(p)` stands for the hash of `p`.
   */
  datatype Credential = Unusable | Hashed(secret: string)

  /** A saved user row. */
  datatype User = User(
    id: nat,
    email: string,
    name: string,
    credential: Credential,
    isActive: bool,
    isStaff: bool,
    isSuperuser: bool)

  /** Why user creation failed: no email given, or the email is already registered. */
  datatype UserError = EmailRequired | EmailTaken

  /**
   * The manager's `normalize_email`: the address is cut at its last '@'
   * and only the domain part after it is lower-cased. An address without
   * '@' is kept as it is.
   */
  function NormalizeEmail(email: string): (r: string)
    ensures |r| == |email|
    ensures '@' !in email ==> r == email
    ensures '@' in email ==>
      var k := LastIndex(email, '@').value;
      r[..k + 1] == email[..k + 1] && r[k + 1..] == Lower(email[k + 1..])
  {
    match LastIndex(email, '@')
    case None => email
    case Some(k) => email[..k] + "@" + Lower(email[k + 1..])
  }

  /** Normalising keeps the position of the '@' that separates local part and domain. */
  lemma NormalizeEmailKeepsSeparator(email: string)
    ensures LastIndex(NormalizeEmail(email), '@') == LastIndex(email, '@')
  {
    match LastIndex(email, '@')
    case None =>
    case Some(k) =>
      var domain := email[k + 1..];
      LowerKeepsAt(domain);
      LastIndexAfterSeparator(email[..k], '@', Lower(domain));
  }

  /** A normalised address is its own normal form. */
  lemma NormalizeEmailIdempotent(email: string)
    ensures NormalizeEmail(NormalizeEmail(email)) == NormalizeEmail(email)
  {
    NormalizeEmailKeepsSeparator(email);
    match LastIndex(email, '@')
    case None =>
    case Some(k) =>
      var n := NormalizeEmail(email);
      LowerIdempotent(email[k + 1..]);
      assert n[..k] == email[..k];
      assert n[k + 1..] == Lower(email[k + 1..]);
  }

  /** Two addresses that differ only in the case of their domain normalise alike. */
  lemma NormalizeEmailIgnoresDomainCase(local: string, domain1: string, domain2: string)
    requires '@' !in domain1 && '@' !in domain2
    requires Lower(domain1) == Lower(domain2)
    ensures NormalizeEmail(local + "@" + domain1) == NormalizeEmail(local + "@" + domain2)
    ensures NormalizeEmail(local + "@" + domain1) == local + "@" + Lower(domain1)
  {
    LastIndexAfterSeparator(local, '@', domain1);
    LastIndexAfterSeparator(local, '@', domain2);
    assert (local + "@" + domain1)[..|local|] == local;
    assert (local + "@" + domain2)[..|local|] == local;
    assert (local + "@" + domain1)[|local| + 1..] == domain1;
    assert (local + "@" + domain2)[|local| + 1..] == domain2;
  }

  /** The case pinned down by the model tests: `test@TEST.COM` is stored as `test@test.com`. */
  lemma NormalizeEmailExample(local: string, domain: string, lowered: string)
    requires local == "test" && domain == "TEST.COM" && lowered == "test.com"
    ensures NormalizeEmail(local + "@" + domain) == local + "@" + lowered
  {
    assert |domain| == |lowered| == 8;
    assert forall i :: 0 <= i < 8 ==> LowerChar(domain[i]) == lowered[i];
    assert Lower(domain) == lowered;
    NormalizeEmailIgnoresDomainCase(local, domain, lowered);
  }

  /** Python's `not email`: the email is missing or empty. */
  predicate MissingEmail(email: Option<string>)
  {
    email.None? || email.value == ""
  }

  /** What `set_password(password)` stores. */
  function CredentialFor(password: Option<string>): Credential
  {
    match password
    case None => Unusable
    case Some(p) => Hashed(p)
  }

  /** A row as the model's field defaults make it: active, not staff, not superuser. */
  function NewUser(id: nat, email: string, name: string, credential: Credential): (u: User)
  {
    User(id, email, name, credential, true, false, false)
  }

  /** Whether some saved row already holds `email`. */
  predicate Registered(users: seq<User>, email: string)
  {
    exists i | 0 <= i < |users| :: users[i].email == email
  }

  /** The email column is unique. */
  ghost predicate EmailsUnique(users: seq<User>)
  {
    forall i, j :: 0 <= i < |users| && 0 <= j < |users| && i != j ==> users[i].email != users[j].email
  }

  /** The saved users table. */
  class UserStore {
    var users: seq<User>
    var nextId: nat

    /** Emails are unique and every saved id is below the next one handed out. */
    ghost predicate Valid()
      reads this
    {
      EmailsUnique(users) && forall i :: 0 <= i < |users| ==> users[i].id < nextId
    }

    constructor ()
      ensures Valid() && users == [] && nextId == 0
    {
      users := [];
      nextId := 0;
    }

    /**
     * `create_user`: a missing or empty email raises; otherwise a row with
     * the normalised email, the given name and password and the default
     * flags is saved, unless that email is already registered.
     */
    method CreateUser(email: Option<string>, password: Option<string>, name: string)
      returns (r: Result<User, UserError>)
      requires Valid()
      modifies this
      ensures Valid()
      ensures MissingEmail(email) ==> r == Failure(EmailRequired)
      ensures !MissingEmail(email) && Registered(old(users), NormalizeEmail(email.value)) ==>
        r == Failure(EmailTaken)
      ensures !MissingEmail(email) && !Registered(old(users), NormalizeEmail(email.value)) ==>
        r == Success(NewUser(old(nextId), NormalizeEmail(email.value), name, CredentialFor(password)))
      ensures r.Failure? ==> users == old(users) && nextId == old(nextId)
      ensures r.Success? ==> users == old(users) + [r.value] && nextId == old(nextId) + 1
    {
      if MissingEmail(email) {
        return Failure(EmailRequired);
      }
      var normalized := NormalizeEmail(email.value);
      if Registered(users, normalized) {
        return Failure(EmailTaken);
      }
      var user := NewUser(nextId, normalized, name, CredentialFor(password));
      users := users + [user];
      nextId := nextId + 1;
      r := Success(user);
    }

    /**
     * `create_superuser`: `create_user` with no name, after which the new
     * row's staff and superuser flags are raised and saved again.
     */
    method CreateSuperuser(email: Option<string>, password: Option<string>)
      returns (r: Result<User, UserError>)
      requires Valid()
      modifies this
      ensures Valid()
      ensures MissingEmail(email) ==> r == Failure(EmailRequired)
      ensures !MissingEmail(email) && Registered(old(users), NormalizeEmail(email.value)) ==>
        r == Failure(EmailTaken)
      ensures !MissingEmail(email) && !Registered(old(users), NormalizeEmail(email.value)) ==>
        r == Success(User(old(nextId), NormalizeEmail(email.value), "", CredentialFor(password), true, true, true))
      ensures r.Failure? ==> users == old(users) && nextId == old(nextId)
      ensures r.Success? ==> users == old(users) + [r.value] && nextId == old(nextId) + 1
    {
      r := CreateUser(email, password, "");
      if r.Success? {
        var user := r.value.(isStaff := true, isSuperuser := true);
        users := users[|users| - 1 := user];
        r := Success(user);
      }
    }
  }
}
