/**
 * Accounts of the multi-user mode (`user.Service` over the `users` table):
 * role and name normalisation, the argument checks of `Register`,
 * `Authenticate`, `UpdatePassword` and `UpdateRole`, and the rows they
 * write.
 *
 * bcrypt is outside the model: a stored `passwordHash` stands for the hash
 * of the password it was made from, so comparing a password with it is
 * string equality, and whether hashing fails is a parameter. The table is a
 * sequence of rows; `id` is its primary key and `email` is unique, which is
 * what makes `create` report a duplicate key.
 */
module UserService {
  import opened Wrappers
  import opened Text
  import opened Relations

  const RoleAdmin: string := "admin"
  const RoleUser: string := "user"

  const ErrEmailTaken: string := "email already registered"
  const ErrInvalidPassword: string := "invalid credentials"
  const ErrUserNotFound: string := "user not found"
  const ErrInvalidArguments: string := "invalid arguments"
  const ErrInvalidRole: string := "invalid role"
  const ErrShortPassword: string := "password must be at least 6 characters"
  const ErrHash: string := "failed to hash password"

  const MinPasswordLength: int := 6
  const DefaultFirstName: string := "Expense"
  const DefaultLastName: string := "Owl"

  /** A row of the `users` table; instants are nanoseconds. */
  datatype User = User(id: string, email: string, passwordHash: string, firstName: string,
                       lastName: string, createdAt: int, updatedAt: int, role: string)

  /** The inputs of a registration. */
  datatype CreateParams = CreateParams(email: string, password: string, firstName: string,
                                       lastName: string, role: string)

  /** The form an email is stored and looked up in: lower-cased and trimmed. */
  function NormalizeEmail(email: string): (r: string)
    ensures |r| <= |email|
    ensures r == [] || (!IsSpace(r[0]) && !IsSpace(r[|r| - 1]))
  {
    TrimSpace(ToLower(email))
  }

  /** A stored email has no upper-case letter, and normalising it again changes nothing. */
  lemma NormalizeEmailIsNormal(email: string)
    ensures IsLower(NormalizeEmail(email))
    ensures NormalizeEmail(NormalizeEmail(email)) == NormalizeEmail(email)
  {
    ToLowerIsLower(email);
    TrimSpaceKeepsLower(ToLower(email));
    LowerTrimIdempotent(email);
  }

  function UserEmail(u: User): string { u.email }
  function UserId(u: User): string { u.id }
  function EmailIs(email: string): User -> bool { (u: User) => u.email == email }
  function IdIs(id: string): User -> bool { (u: User) => u.id == id }

  /** `sanitizeName`: the name without surrounding white space; nothing is left of a blank one. */
  function SanitizeName(value: string): (r: string)
    ensures TrimSpace(r) == r
    ensures r == [] <==> IsBlank(value)
    ensures |r| <= |value|
  {
    TrimSpaceIdempotent(value);
    TrimSpaceBlank(value);
    TrimSpace(value)
  }

  /**
   * `normalizeRole`: lower-cased and trimmed, a blank role is "user"; only
   * "admin" and "user" are accepted.
   */
  function NormalizeRole(role: string): (r: Result<string, string>)
    ensures r.Ok? ==> r.value == RoleAdmin || r.value == RoleUser
    ensures r.Err? ==> r.error == ErrInvalidRole
    ensures TrimSpace(ToLower(role)) == "" ==> r == Ok(RoleUser)
    ensures r.Ok? <==> var t := TrimSpace(ToLower(role)); t == "" || t == RoleAdmin || t == RoleUser
    ensures r.Ok? && TrimSpace(ToLower(role)) != "" ==> r.value == TrimSpace(ToLower(role))
  {
    var t := TrimSpace(ToLower(role));
    if t == "" then Ok(RoleUser)
    else if t == RoleAdmin || t == RoleUser then Ok(t)
    else Err(ErrInvalidRole)
  }

  /** The two role names are already lower-case and trimmed. */
  lemma RoleNameIsNormal(name: string)
    requires name == RoleAdmin || name == RoleUser
    ensures TrimSpace(ToLower(name)) == name
  {
    assert NoSpace(name) && IsLower(name);
    LowerWordIsNormal(name);
  }

  /** A role `normalizeRole` produced is accepted again unchanged. */
  lemma NormalizeRoleIdempotent(role: string)
    requires NormalizeRole(role).Ok?
    ensures NormalizeRole(NormalizeRole(role).value) == NormalizeRole(role)
  {
    RoleNameIsNormal(NormalizeRole(role).value);
  }

  /** `findByEmail`: the row with that email; a missing one is reported as bad credentials. */
  function FindByEmail(users: seq<User>, email: string): (r: Result<User, string>)
    ensures r.Ok? ==> r.value in users && r.value.email == email
    ensures r.Err? <==> forall u :: u in users ==> u.email != email
    ensures r.Err? ==> r.error == ErrInvalidPassword
  {
    match FindFirst(users, EmailIs(email))
    case None => Err(ErrInvalidPassword)
    case Some(i) => Ok(users[i])
  }

  /** `findByID`: the row with that ID, or `ErrUserNotFound`. */
  function FindById(users: seq<User>, id: string): (r: Result<User, string>)
    ensures r.Ok? ==> r.value in users && r.value.id == id
    ensures r.Err? <==> forall u :: u in users ==> u.id != id
    ensures r.Err? ==> r.error == ErrUserNotFound
  {
    match FindFirst(users, IdIs(id))
    case None => Err(ErrUserNotFound)
    case Some(i) => Ok(users[i])
  }

  /** With unique emails, the row found for an email is the one row that has it. */
  lemma FindByEmailUnique(users: seq<User>, i: nat)
    requires i < |users| && UniqueBy(users, UserEmail)
    ensures FindByEmail(users, users[i].email) == Ok(users[i])
  {
    var email := users[i].email;
    assert users[i] in users && EmailIs(email)(users[i]);
    var k := FindFirst(users, EmailIs(email)).value;
    assert UserEmail(users[k]) == UserEmail(users[i]);
  }

  /**
   * `Authenticate`: a blank email or an empty password is refused; an
   * unknown email and a wrong password are both reported as bad
   * credentials; otherwise the row of that email.
   */
  function Authenticate(users: seq<User>, email: string, password: string): (r: Result<User, string>)
    ensures NormalizeEmail(email) == "" || password == "" ==> r == Err(ErrInvalidArguments)
    ensures r.Ok? ==> r.value in users && r.value.email == NormalizeEmail(email) && r.value.passwordHash == password
    ensures r.Err? ==> r.error == ErrInvalidArguments || r.error == ErrInvalidPassword
    ensures (forall u :: u in users ==> u.email != NormalizeEmail(email)) ==> r.Err?
  {
    var e := NormalizeEmail(email);
    if e == "" || password == "" then Err(ErrInvalidArguments)
    else match FindByEmail(users, e)
      case Err(err) => Err(err)
      case Ok(user) => if user.passwordHash != password then Err(ErrInvalidPassword) else Ok(user)
  }

  /** With unique emails, a login succeeds exactly when the password is the one stored for that email. */
  lemma AuthenticateStored(users: seq<User>, i: nat, email: string, password: string)
    requires i < |users| && UniqueBy(users, UserEmail)
    requires users[i].email == NormalizeEmail(email) && users[i].email != "" && password != ""
    ensures Authenticate(users, email, password) ==
            if users[i].passwordHash == password then Ok(users[i]) else Err(ErrInvalidPassword)
  {
    FindByEmailUnique(users, i);
  }

  /** An account has one password: once one logs in, every other non-empty one is refused. */
  lemma OnlyStoredPasswordLogsIn(users: seq<User>, email: string, password: string, other: string)
    requires Authenticate(users, email, password).Ok?
    requires other != password && other != ""
    ensures Authenticate(users, email, other) == Err(ErrInvalidPassword)
  {
  }

  /** A row is taken when its primary key or its email is already in the table. */
  predicate Clashes(users: seq<User>, id: string, email: string) {
    exists u :: u in users && (u.id == id || u.email == email)
  }

  /** `updatePassword`: every row with that ID gets the new hash and `updated_at`. */
  function SetPassword(users: seq<User>, id: string, hash: string, now: int): (r: seq<User>)
    ensures |r| == |users|
    ensures forall i :: 0 <= i < |r| ==>
      r[i] == if users[i].id == id then users[i].(passwordHash := hash, updatedAt := now) else users[i]
  {
    seq(|users|, i requires 0 <= i < |users| =>
      if users[i].id == id then users[i].(passwordHash := hash, updatedAt := now) else users[i])
  }

  /** `updateRole`: every row with that ID gets the new role and `updated_at`. */
  function SetRole(users: seq<User>, id: string, role: string, now: int): (r: seq<User>)
    ensures |r| == |users|
    ensures forall i :: 0 <= i < |r| ==>
      r[i] == if users[i].id == id then users[i].(role := role, updatedAt := now) else users[i]
  {
    seq(|users|, i requires 0 <= i < |users| =>
      if users[i].id == id then users[i].(role := role, updatedAt := now) else users[i])
  }

  /**
   * After a password change a login with the new password succeeds and one
   * with any other password fails.
   */
  lemma NewPasswordAuthenticates(users: seq<User>, i: nat, hash: string, now: int, email: string, password: string)
    requires i < |users| && UniqueBy(users, UserEmail)
    requires users[i].email == NormalizeEmail(email) && users[i].email != "" && password != ""
    ensures var after := SetPassword(users, users[i].id, hash, now);
      Authenticate(after, email, password) ==
        if password == hash then Ok(users[i].(passwordHash := hash, updatedAt := now))
        else Err(ErrInvalidPassword)
  {
    var after := SetPassword(users, users[i].id, hash, now);
    assert forall k :: 0 <= k < |after| ==> UserEmail(after[k]) == UserEmail(users[k]);
    AuthenticateStored(after, i, email, password);
  }

  /**
   * The `users` table behind a `Service`. `Valid` is the table's
   * constraints and the form registration stores emails and roles in.
   */
  class Service {
    var users: seq<User>

    predicate Valid()
      reads this
    {
      ValidTable(users)
    }

    constructor ()
      ensures Valid() && users == []
    {
      users := [];
    }

    /**
     * `Register` as written: the trimmed password is checked and hashed.
     * Errors come in the source's order: blank email or password, short
     * password, hashing, role, then a taken email or ID; on any of them the
     * table is unchanged.
     */
    method Register(params: CreateParams, id: string, now: int, hashFails: bool) returns (r: Result<User, string>)
      requires Valid()
      modifies this
      ensures Valid()
      ensures NormalizeEmail(params.email) == "" || TrimSpace(params.password) == "" ==> r == Err(ErrInvalidArguments)
      ensures NormalizeEmail(params.email) != "" && TrimSpace(params.password) != "" && |TrimSpace(params.password)| < MinPasswordLength ==> r == Err(ErrShortPassword)
      ensures NormalizeEmail(params.email) != "" && |TrimSpace(params.password)| >= MinPasswordLength && hashFails ==> r == Err(ErrHash)
      ensures (NormalizeEmail(params.email) != "" && |TrimSpace(params.password)| >= MinPasswordLength && !hashFails &&
               NormalizeRole(params.role).Err?) ==> r == Err(ErrInvalidRole)
      ensures (NormalizeEmail(params.email) != "" && |TrimSpace(params.password)| >= MinPasswordLength && !hashFails &&
               NormalizeRole(params.role).Ok? && Clashes(old(users), id, NormalizeEmail(params.email))) ==> r == Err(ErrEmailTaken)
      ensures r.Err? ==> users == old(users)
      ensures r.Ok? <==> RegisterAccepts(old(users), params, id, hashFails)
      ensures r.Ok? ==> users == old(users) + [r.value]
      ensures r.Ok? ==> r.value == NewUser(params, id, TrimSpace(params.password), now)
      ensures r.Ok? ==> Authenticate(users, params.email, TrimSpace(params.password)) == Ok(r.value)
      ensures r.Ok? && TrimSpace(params.password) != params.password ==>
                Authenticate(users, params.email, params.password) == Err(ErrInvalidPassword)
    {
      var email := NormalizeEmail(params.email);
      var password := TrimSpace(params.password);
      r := Create(params, email, password, password, id, now, hashFails);
      if r.Ok? && password != params.password {
        OnlyStoredPasswordLogsIn(users, params.email, password, params.password);
      }
    }

    /**
     * `Register` as intended: the trimmed password is still what is checked,
     * but the password as typed is what is hashed, so the user can log in
     * with it.
     */
    method RegisterIntended(params: CreateParams, id: string, now: int, hashFails: bool) returns (r: Result<User, string>)
      requires Valid()
      modifies this
      ensures Valid()
      ensures NormalizeEmail(params.email) == "" || TrimSpace(params.password) == "" ==> r == Err(ErrInvalidArguments)
      ensures NormalizeEmail(params.email) != "" && TrimSpace(params.password) != "" && |TrimSpace(params.password)| < MinPasswordLength ==> r == Err(ErrShortPassword)
      ensures NormalizeEmail(params.email) != "" && |TrimSpace(params.password)| >= MinPasswordLength && hashFails ==> r == Err(ErrHash)
      ensures (NormalizeEmail(params.email) != "" && |TrimSpace(params.password)| >= MinPasswordLength && !hashFails &&
               NormalizeRole(params.role).Err?) ==> r == Err(ErrInvalidRole)
      ensures (NormalizeEmail(params.email) != "" && |TrimSpace(params.password)| >= MinPasswordLength && !hashFails &&
               NormalizeRole(params.role).Ok? && Clashes(old(users), id, NormalizeEmail(params.email))) ==> r == Err(ErrEmailTaken)
      ensures r.Err? ==> users == old(users)
      ensures r.Ok? <==> RegisterAccepts(old(users), params, id, hashFails)
      ensures r.Ok? ==> users == old(users) + [r.value]
      ensures r.Ok? ==> r.value == NewUser(params, id, params.password, now)
      ensures r.Ok? ==> Authenticate(users, params.email, params.password) == Ok(r.value)
    {
      var email := NormalizeEmail(params.email);
      var password := TrimSpace(params.password);
      r := Create(params, email, password, params.password, id, now, hashFails);
    }

    /** The checks and the insert both versions of `Register` share; `credential` is what gets hashed. */
    method Create(params: CreateParams, email: string, password: string, credential: string,
                  id: string, now: int, hashFails: bool) returns (r: Result<User, string>)
      requires Valid()
      requires email == NormalizeEmail(params.email) && password == TrimSpace(params.password)
      requires password != "" ==> credential != ""
      modifies this
      ensures Valid()
      ensures email == "" || password == "" ==> r == Err(ErrInvalidArguments)
      ensures email != "" && password != "" && |password| < MinPasswordLength ==> r == Err(ErrShortPassword)
      ensures email != "" && |password| >= MinPasswordLength && hashFails ==> r == Err(ErrHash)
      ensures (email != "" && |password| >= MinPasswordLength && !hashFails &&
               NormalizeRole(params.role).Err?) ==> r == Err(ErrInvalidRole)
      ensures (email != "" && |password| >= MinPasswordLength && !hashFails &&
               NormalizeRole(params.role).Ok? && Clashes(old(users), id, email)) ==> r == Err(ErrEmailTaken)
      ensures r.Err? ==> users == old(users)
      ensures r.Ok? <==> RegisterAccepts(old(users), params, id, hashFails)
      ensures r.Ok? ==> users == old(users) + [r.value] && r.value == NewUser(params, id, credential, now)
      ensures r.Ok? ==> Authenticate(users, params.email, credential) == Ok(r.value)
    {
      if email == "" || password == "" {
        return Err(ErrInvalidArguments);
      }
      if |password| < MinPasswordLength {
        return Err(ErrShortPassword);
      }
      if hashFails {
        return Err(ErrHash);
      }
      var role := NormalizeRole(params.role);
      if role.Err? {
        return Err(role.error);
      }
      var user := BuildUser(params, id, credential, now);
      if Clashes(users, id, email) {
        return Err(ErrEmailTaken);
      }
      LowerTrimIdempotent(params.email);
      AppendKeepsValid(users, user);
      users := users + [user];
      r := Ok(user);
      AuthenticateStored(users, |users| - 1, params.email, credential);
    }

    /**
     * `UpdatePassword`: an empty new password is refused before the lookup;
     * the current password is checked before the new one's length. On
     * success only the row's hash and `updated_at` change.
     */
    method UpdatePassword(id: string, current: string, newPassword: string, now: int, hashFails: bool)
      returns (r: Outcome<string>)
      requires Valid()
      modifies this
      ensures Valid()
      ensures newPassword == "" ==> r == Fail(ErrInvalidArguments)
      ensures newPassword != "" && FindById(old(users), id).Err? ==> r == Fail(ErrUserNotFound)
      ensures (newPassword != "" && FindById(old(users), id).Ok? &&
               FindById(old(users), id).value.passwordHash != current) ==> r == Fail(ErrInvalidPassword)
      ensures r.Pass? <==> newPassword != "" && FindById(old(users), id).Ok? &&
                           FindById(old(users), id).value.passwordHash == current &&
                           |newPassword| >= MinPasswordLength && !hashFails
      ensures r.Fail? ==> users == old(users)
      ensures r.Pass? ==> users == SetPassword(old(users), id, newPassword, now)
    {
      if newPassword == "" {
        return Fail(ErrInvalidArguments);
      }
      var found := FindById(users, id);
      if found.Err? {
        return Fail(found.error);
      }
      if found.value.passwordHash != current {
        return Fail(ErrInvalidPassword);
      }
      if |newPassword| < MinPasswordLength {
        return Fail(ErrShortPassword);
      }
      if hashFails {
        return Fail(ErrHash);
      }
      SetPasswordKeepsValid(users, id, newPassword, now);
      users := SetPassword(users, id, newPassword, now);
      r := Pass;
    }

    /** `UpdateRole`: an invalid role is refused; an unknown ID is not found; otherwise only the role changes. */
    method UpdateRole(id: string, role: string, now: int) returns (r: Outcome<string>)
      requires Valid()
      modifies this
      ensures Valid()
      ensures NormalizeRole(role).Err? ==> r == Fail(ErrInvalidRole)
      ensures NormalizeRole(role).Ok? && FindById(old(users), id).Err? ==> r == Fail(ErrUserNotFound)
      ensures r.Pass? <==> NormalizeRole(role).Ok? && FindById(old(users), id).Ok?
      ensures r.Fail? ==> users == old(users)
      ensures r.Pass? ==> users == SetRole(old(users), id, NormalizeRole(role).value, now)
    {
      var normalized := NormalizeRole(role);
      if normalized.Err? {
        return Fail(normalized.error);
      }
      if FindById(users, id).Err? {
        return Fail(ErrUserNotFound);
      }
      SetRoleKeepsValid(users, id, normalized.value, now);
      users := SetRole(users, id, normalized.value, now);
      r := Pass;
    }
  }

  /** The table's constraints, and emails stored normalised and non-empty. */
  predicate ValidTable(users: seq<User>) {
    UniqueBy(users, UserId) && UniqueBy(users, UserEmail) &&
    forall i :: 0 <= i < |users| ==> NormalizeEmail(users[i].email) == users[i].email && users[i].email != ""
  }

  /** Whether a registration passes every check, so that the row is inserted. */
  predicate RegisterAccepts(users: seq<User>, params: CreateParams, id: string, hashFails: bool) {
    var email := NormalizeEmail(params.email);
    var password := TrimSpace(params.password);
    email != "" && password != "" && |password| >= MinPasswordLength && !hashFails &&
    NormalizeRole(params.role).Ok? && !Clashes(users, id, email)
  }

  /** The row `Register` inserts. */
  function NewUser(params: CreateParams, id: string, credential: string, now: int): User
    requires NormalizeRole(params.role).Ok?
  {
    var first := SanitizeName(params.firstName);
    var last := SanitizeName(params.lastName);
    User(id, NormalizeEmail(params.email), credential,
         if |first| == 0 then DefaultFirstName else first,
         if |last| == 0 then DefaultLastName else last,
         now, now, NormalizeRole(params.role).value)
  }

  /** The row `Register` builds, its blank names then patched one field at a time. */
  method BuildUser(params: CreateParams, id: string, credential: string, now: int) returns (user: User)
    requires NormalizeRole(params.role).Ok?
    ensures user == NewUser(params, id, credential, now)
  {
    var role := NormalizeRole(params.role).value;
    user := User(id, NormalizeEmail(params.email), credential, SanitizeName(params.firstName),
                 SanitizeName(params.lastName), now, now, role);
    if |user.firstName| == 0 {
      user := user.(firstName := DefaultFirstName);
    }
    if |user.lastName| == 0 {
      user := user.(lastName := DefaultLastName);
    }
  }

  /** A new row's names are trimmed, and a blank one becomes "Expense" or "Owl". */
  lemma NewUserNames(params: CreateParams, id: string, credential: string, now: int)
    requires NormalizeRole(params.role).Ok?
    ensures var u := NewUser(params, id, credential, now);
      u.firstName == (if IsBlank(params.firstName) then DefaultFirstName else TrimSpace(params.firstName)) &&
      u.lastName == (if IsBlank(params.lastName) then DefaultLastName else TrimSpace(params.lastName))
  {
  }

  /** Appending a row whose ID and email are new, with a normalised email, keeps the table valid. */
  lemma AppendKeepsValid(users: seq<User>, user: User)
    requires ValidTable(users) && !Clashes(users, user.id, user.email)
    requires NormalizeEmail(user.email) == user.email && user.email != ""
    ensures ValidTable(users + [user])
  {
    NoClashIsFresh(users, user);
    AppendUniqueBy(users, user, UserId);
    AppendUniqueBy(users, user, UserEmail);
    AppendKeepsEmailsNormal(users, user);
  }

  /** No clash means no stored row shares the ID or the email. */
  lemma NoClashIsFresh(users: seq<User>, user: User)
    requires !Clashes(users, user.id, user.email)
    ensures forall y :: y in users ==> UserId(y) != UserId(user)
    ensures forall y :: y in users ==> UserEmail(y) != UserEmail(user)
  {
    forall y | y in users
      ensures UserId(y) != UserId(user) && UserEmail(y) != UserEmail(user)
    {
      assert !(y.id == user.id || y.email == user.email);
    }
  }

  lemma AppendKeepsEmailsNormal(users: seq<User>, user: User)
    requires forall i :: 0 <= i < |users| ==> NormalizeEmail(users[i].email) == users[i].email && users[i].email != ""
    requires NormalizeEmail(user.email) == user.email && user.email != ""
    ensures forall i :: 0 <= i < |users + [user]| ==>
      NormalizeEmail((users + [user])[i].email) == (users + [user])[i].email && (users + [user])[i].email != ""
  {
    var after := users + [user];
    forall i | 0 <= i < |after|
      ensures NormalizeEmail(after[i].email) == after[i].email && after[i].email != ""
    {
      if i < |users| {
        assert after[i] == users[i];
      }
    }
  }

  /** Rewriting rows without touching IDs or emails keeps the table valid. */
  lemma SameKeysKeepValid(users: seq<User>, after: seq<User>)
    requires ValidTable(users) && |after| == |users|
    requires forall i :: 0 <= i < |after| ==> after[i].id == users[i].id && after[i].email == users[i].email
    ensures ValidTable(after)
  {
    forall i, j | 0 <= i < j < |after|
      ensures UserId(after[i]) != UserId(after[j]) && UserEmail(after[i]) != UserEmail(after[j])
    {
      assert UserId(users[i]) != UserId(users[j]) && UserEmail(users[i]) != UserEmail(users[j]);
    }
  }

  /** A password change keeps the table valid. */
  lemma SetPasswordKeepsValid(users: seq<User>, id: string, hash: string, now: int)
    requires ValidTable(users)
    ensures ValidTable(SetPassword(users, id, hash, now))
  {
    SameKeysKeepValid(users, SetPassword(users, id, hash, now));
  }

  /** A role change keeps the table valid. */
  lemma SetRoleKeepsValid(users: seq<User>, id: string, role: string, now: int)
    requires ValidTable(users)
    ensures ValidTable(SetRole(users, id, role, now))
  {
    SameKeysKeepValid(users, SetRole(users, id, role, now));
  }

  /** A password with white space around it passes registration's checks but is not what is stored. */
  lemma PaddedPasswordPassesChecks(word: string)
    requires |word| >= MinPasswordLength && NoSpace(word)
    ensures TrimSpace(" " + word) == word && " " + word != word
  {
    TrimSpaceOfPadded(word);
  }
}
