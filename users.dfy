/** The user directory behind the account routes (backend/routes/auth.py):
    registration, login, listing, the administrative update and delete
    routes and the profile update.

    The users collection is a sequence in insertion order, so that
    `find_one` is "the first matching document". Password hashing is opaque:
    a stored password is either the hash of some plain text or, after an
    administrative update, the raw text itself. */
module Users {
  import opened Common
  import opened Settings

  datatype StoredPassword = Hashed(plain: string) | Raw(text: string)

  /** verify_password: only the hash of exactly this plain text matches. */
  predicate PasswordMatches(plain: string, stored: StoredPassword) {
    stored == Hashed(plain)
  }

  datatype User = User(
    oid: string,
    id: Option<int>,
    username: string,
    email: string,
    password: StoredPassword,
    birthday: Option<string>,
    createdAt: Timestamp,
    updatedAt: Option<Timestamp>)

  /** `user.get("id", str(user["_id"]))`: the sequential id, or the ObjectId
      text for documents that have none. */
  datatype UserKey = SimpleId(n: int) | ObjectIdText(text: string)

  function KeyOf(u: User): UserKey {
    match u.id
    case Some(n) => SimpleId(n)
    case None => ObjectIdText(u.oid)
  }

  /** What login and the listing show of a user: never the password. A
      birthday of None is shown as null. */
  datatype UserView = UserView(id: UserKey, username: string, email: string, birthday: Option<string>, createdAt: Timestamp)

  /** The listing's view: a missing birthday is shown as "". */
  function ViewOf(u: User): (v: UserView)
    ensures v.id == KeyOf(u) && v.username == u.username && v.email == u.email && v.createdAt == u.createdAt
    ensures u.birthday.Some? ==> v.birthday == u.birthday
    ensures u.birthday.None? ==> v.birthday == Some("")
  {
    UserView(KeyOf(u), u.username, u.email, Some(u.birthday.GetOr("")), u.createdAt)
  }

  /** Login's user_info: a missing birthday is shown as null. */
  function LoginInfoOf(u: User): (v: UserView)
    ensures v.id == KeyOf(u) && v.username == u.username && v.email == u.email && v.createdAt == u.createdAt
    ensures v.birthday == u.birthday
    ensures u.birthday.Some? ==> v == ViewOf(u)
    ensures u.birthday.None? ==> v != ViewOf(u)
  {
    UserView(KeyOf(u), u.username, u.email, u.birthday, u.createdAt)
  }

  /** The claims put into the access token. */
  datatype TokenClaims = TokenClaims(sub: string, userId: int)

  datatype LoginResult = LoginResult(token: TokenClaims, info: UserView)

  /** The fields of a document a query matches on. */
  datatype Query = ByUsername(username: string) | ByEmail(email: string) | ByOid(oid: string)

  predicate Matches(u: User, q: Query) {
    match q
    case ByUsername(n) => u.username == n
    case ByEmail(e) => u.email == e
    case ByOid(o) => u.oid == o
  }

  /** find_one: the index of the first matching document. */
  function FirstMatch(users: seq<User>, q: Query): (r: Option<nat>)
    ensures r.Some? ==> r.value < |users| && Matches(users[r.value], q)
    ensures r.Some? ==> forall j :: 0 <= j < r.value ==> !Matches(users[j], q)
    ensures r.None? <==> forall j :: 0 <= j < |users| ==> !Matches(users[j], q)
  {
    if users == [] then None
    else if Matches(users[0], q) then Some(0)
    else
      var r := FirstMatch(users[1..], q);
      assert forall j :: 1 <= j < |users| ==> users[j] == users[1..][j - 1];
      if r.Some? then Some(r.value + 1) else None
  }

  /** ObjectId.is_valid on a string: 24 hexadecimal digits. */
  predicate IsValidObjectId(s: string) {
    |s| == 24 && forall i :: 0 <= i < |s| ==> IsHexDigit(s[i])
  }

  predicate IsHexDigit(c: char) {
    ('0' <= c <= '9') || ('a' <= c <= 'f') || ('A' <= c <= 'F')
  }

  /** UserUpdate: every field optional. */
  datatype UserUpdate = UserUpdate(
    username: Option<string>,
    password: Option<string>,
    email: Option<string>,
    birthday: Option<string>)

  predicate NothingSet(upd: UserUpdate) {
    upd.username.None? && upd.password.None? && upd.email.None? && upd.birthday.None?
  }

  /** The document update_user writes: the password is stored as given. */
  function AdminApplied(u: User, upd: UserUpdate, now: Timestamp): User {
    u.(username := upd.username.GetOr(u.username),
       password := if upd.password.Some? then Raw(upd.password.value) else u.password,
       email := upd.email.GetOr(u.email),
       birthday := if upd.birthday.Some? then upd.birthday else u.birthday,
       updatedAt := Some(now))
  }

  /** The document update_user_profile writes: the password is hashed. */
  function ProfileApplied(u: User, upd: UserUpdate, now: Timestamp): User {
    u.(username := upd.username.GetOr(u.username),
       password := if upd.password.Some? then Hashed(upd.password.value) else u.password,
       email := upd.email.GetOr(u.email),
       birthday := if upd.birthday.Some? then upd.birthday else u.birthday,
       updatedAt := Some(now))
  }

  /** Some user other than the one with ObjectId `oid` has this username. */
  predicate UsernameHeldByOther(users: seq<User>, name: string, oid: string) {
    exists j :: 0 <= j < |users| && users[j].username == name && users[j].oid != oid
  }

  /** The profile route's username check: some user whose email differs from
      the caller's has this username. */
  predicate UsernameHeldByOtherEmail(users: seq<User>, name: string, sub: string) {
    exists j :: 0 <= j < |users| && users[j].username == name && users[j].email != sub
  }

  /** The profile route's email check. Its filter repeats the "email" key,
      so only the second condition survives: some user's email differs
      from the caller's, whatever the requested email is. */
  predicate EmailFilterMatches(users: seq<User>, sub: string) {
    exists j :: 0 <= j < |users| && users[j].email != sub
  }

  function Remove(users: seq<User>, i: nat): (r: seq<User>)
    requires i < |users|
    ensures |r| == |users| - 1
    ensures forall j :: 0 <= j < i ==> r[j] == users[j]
    ensures forall j :: i <= j < |r| ==> r[j] == users[j + 1]
  {
    users[..i] + users[i + 1..]
  }

  class UserDirectory {
    var users: seq<User>
    /** The next value of get_next_user_id. */
    var nextUserId: int

    /** ObjectIds are unique. */
    ghost predicate Valid()
      reads this
    {
      forall i, j :: 0 <= i < j < |users| ==> users[i].oid != users[j].oid
    }

    constructor ()
      ensures Valid() && users == []
    {
      users := [];
      nextUserId := 1;
    }

    /** register: the username check first, then the email check; on success
        a user with a hashed password and the next sequential id, plus the
        default settings record for that id. */
    method Register(settings: SettingsStore, username: string, email: string, password: string,
                    birthday: string, oid: string, now: Timestamp) returns (res: Result<int>)
      requires Valid() && settings.Valid()
      requires forall j :: 0 <= j < |users| ==> users[j].oid != oid
      modifies this, settings`records
      ensures Valid() && settings.Valid()
      ensures FirstMatch(old(users), ByUsername(username)).Some? ==>
                res == Err(HttpError(400, UsernameTaken)) && users == old(users) && nextUserId == old(nextUserId) &&
                settings.records == old(settings.records)
      ensures FirstMatch(old(users), ByUsername(username)).None? && FirstMatch(old(users), ByEmail(email)).Some? ==>
                res == Err(HttpError(400, EmailTaken)) && users == old(users) && nextUserId == old(nextUserId) &&
                settings.records == old(settings.records)
      ensures res.Ok? <==> FirstMatch(old(users), ByUsername(username)).None? && FirstMatch(old(users), ByEmail(email)).None?
      ensures res.Ok? ==>
                res.value == old(nextUserId) && nextUserId == old(nextUserId) + 1 &&
                users == old(users) + [User(oid, Some(res.value), username, email, Hashed(password), Some(birthday), now, None)]
      ensures res.Ok? && res.value !in old(settings.records) ==>
                settings.records == old(settings.records)[res.value := ModelDefaults(res.value).(createdAt := Some(now), updatedAt := Some(now))]
      ensures res.Ok? && res.value in old(settings.records) ==> settings.records == old(settings.records)
    {
      if FirstMatch(users, ByUsername(username)).Some? {
        return Err(HttpError(400, UsernameTaken));
      }
      if FirstMatch(users, ByEmail(email)).Some? {
        return Err(HttpError(400, EmailTaken));
      }
      var id := nextUserId;
      nextUserId := nextUserId + 1;
      users := users + [User(oid, Some(id), username, email, Hashed(password), Some(birthday), now, None)];
      settings.InsertRegistrationDefaults(id, now);
      return Ok(id);
    }

    /** login: an unknown email and a wrong password give the same 400; a
        document without a sequential id cannot be put into a token. */
    method Login(email: string, password: string) returns (res: Result<LoginResult>)
      ensures FirstMatch(users, ByEmail(email)).None? ==> res == Err(HttpError(400, BadCredentials))
      ensures FirstMatch(users, ByEmail(email)).Some? ==>
                var u := users[FirstMatch(users, ByEmail(email)).value];
                if !PasswordMatches(password, u.password) then res == Err(HttpError(400, BadCredentials))
                else if u.id.None? then res == Err(HttpError(500, UserRecordIncomplete))
                else res == Ok(LoginResult(TokenClaims(u.email, u.id.value), LoginInfoOf(u)))
    {
      var found := FirstMatch(users, ByEmail(email));
      if found.None? {
        return Err(HttpError(400, BadCredentials));
      }
      var u := users[found.value];
      if !PasswordMatches(password, u.password) {
        return Err(HttpError(400, BadCredentials));
      }
      if u.id.None? {
        return Err(HttpError(500, UserRecordIncomplete));
      }
      return Ok(LoginResult(TokenClaims(u.email, u.id.value), LoginInfoOf(u)));
    }

    /** get_all_users: one view per document, in order. */
    method AllUsers() returns (views: seq<UserView>, total: int)
      ensures |views| == |users| == total
      ensures forall i :: 0 <= i < |users| ==> views[i] == ViewOf(users[i])
    {
      views := [];
      for i := 0 to |users|
        invariant |views| == i
        invariant forall k :: 0 <= k < i ==> views[k] == ViewOf(users[k])
      {
        views := views + [ViewOf(users[i])];
      }
      total := |views|;
    }

    /** update_user (administrative, by ObjectId). Every refusal comes before
        the write. */
    method UpdateUser(oidText: string, upd: UserUpdate, now: Timestamp) returns (res: Result<User>)
      requires Valid()
      modifies this`users
      ensures Valid()
      ensures res.Err? ==> users == old(users)
      ensures !IsValidObjectId(oidText) ==> res == Err(HttpError(400, BadUserIdFormat))
      ensures IsValidObjectId(oidText) && FirstMatch(old(users), ByOid(Lower(oidText))).None? ==>
                res == Err(HttpError(404, UserNotFound))
      ensures IsValidObjectId(oidText) && FirstMatch(old(users), ByOid(Lower(oidText))).Some? ==>
                var i := FirstMatch(old(users), ByOid(Lower(oidText))).value;
                var q := AdminApplied(old(users)[i], upd, now);
                if upd.username.Some? && UsernameHeldByOther(old(users), upd.username.value, Lower(oidText)) then
                  res == Err(HttpError(400, UsernameTaken))
                else if NothingSet(upd) then res == Err(HttpError(400, NothingToUpdate))
                else if q == old(users)[i] then res == Err(HttpError(400, UserUpdateFailed))
                else res == Ok(q) && users == old(users)[i := q]
    {
      if !IsValidObjectId(oidText) {
        return Err(HttpError(400, BadUserIdFormat));
      }
      var oid := Lower(oidText);
      var found := FirstMatch(users, ByOid(oid));
      if found.None? {
        return Err(HttpError(404, UserNotFound));
      }
      var i := found.value;
      if upd.username.Some? && UsernameHeldByOther(users, upd.username.value, oid) {
        return Err(HttpError(400, UsernameTaken));
      }
      if NothingSet(upd) {
        return Err(HttpError(400, NothingToUpdate));
      }
      var q := AdminApplied(users[i], upd, now);
      if q == users[i] {
        return Err(HttpError(400, UserUpdateFailed));
      }
      users := users[i := q];
      return Ok(q);
    }

    /** update_user_profile (the caller, by the email in the token). After
        the write the route reads the user back by the old email: when the
        email changed, that finds another document or none (500), although
        the write has been made. */
    method UpdateProfile(sub: Option<string>, upd: UserUpdate, now: Timestamp) returns (res: Result<User>)
      requires Valid()
      modifies this`users
      ensures Valid()
      ensures sub.None? || sub.value == [] ==> res == Err(HttpError(401, InvalidToken)) && users == old(users)
      ensures sub.Some? && sub.value != [] && FirstMatch(old(users), ByEmail(sub.value)).None? ==>
                res == Err(HttpError(404, UserNotFound)) && users == old(users)
      ensures sub.Some? && sub.value != [] && FirstMatch(old(users), ByEmail(sub.value)).Some? ==>
                var i := FirstMatch(old(users), ByEmail(sub.value)).value;
                var q := ProfileApplied(old(users)[i], upd, now);
                if upd.username.Some? && UsernameHeldByOtherEmail(old(users), upd.username.value, sub.value) then
                  res == Err(HttpError(400, UsernameTaken)) && users == old(users)
                else if upd.email.Some? && EmailFilterMatches(old(users), sub.value) then
                  res == Err(HttpError(400, EmailTaken)) && users == old(users)
                else if NothingSet(upd) then
                  res == Err(HttpError(400, NothingToUpdate)) && users == old(users)
                else if q == old(users)[i] then
                  res == Err(HttpError(400, UserUpdateFailed)) && users == old(users)
                else
                  users == old(users)[i := q] &&
                  match FirstMatch(users, ByEmail(sub.value))
                  case None => res == Err(HttpError(500, UserRecordIncomplete))
                  case Some(k) => res == Ok(users[k])
    {
      if sub.None? || sub.value == [] {
        return Err(HttpError(401, InvalidToken));
      }
      var email := sub.value;
      var found := FirstMatch(users, ByEmail(email));
      if found.None? {
        return Err(HttpError(404, UserNotFound));
      }
      var i := found.value;
      if upd.username.Some? && UsernameHeldByOtherEmail(users, upd.username.value, email) {
        return Err(HttpError(400, UsernameTaken));
      }
      if upd.email.Some? && EmailFilterMatches(users, email) {
        return Err(HttpError(400, EmailTaken));
      }
      if NothingSet(upd) {
        return Err(HttpError(400, NothingToUpdate));
      }
      var q := ProfileApplied(users[i], upd, now);
      if q == users[i] {
        return Err(HttpError(400, UserUpdateFailed));
      }
      users := users[i := q];
      var again := FirstMatch(users, ByEmail(email));
      if again.None? {
        return Err(HttpError(500, UserRecordIncomplete));
      }
      return Ok(users[again.value]);
    }

    /** delete_user (by ObjectId). */
    method DeleteUser(oidText: string) returns (res: Result<User>)
      requires Valid()
      modifies this`users
      ensures Valid()
      ensures !IsValidObjectId(oidText) ==> res == Err(HttpError(400, BadUserIdFormat)) && users == old(users)
      ensures IsValidObjectId(oidText) && FirstMatch(old(users), ByOid(Lower(oidText))).None? ==>
                res == Err(HttpError(404, UserNotFound)) && users == old(users)
      ensures IsValidObjectId(oidText) && FirstMatch(old(users), ByOid(Lower(oidText))).Some? ==>
                var i := FirstMatch(old(users), ByOid(Lower(oidText))).value;
                res == Ok(old(users)[i]) && users == Remove(old(users), i)
      ensures res.Ok? ==> FirstMatch(users, ByOid(Lower(oidText))).None?
    {
      if !IsValidObjectId(oidText) {
        return Err(HttpError(400, BadUserIdFormat));
      }
      var found := FirstMatch(users, ByOid(Lower(oidText)));
      if found.None? {
        return Err(HttpError(404, UserNotFound));
      }
      var u := users[found.value];
      users := Remove(users, found.value);
      return Ok(u);
    }

    /** delete_user_by_username: the first document with that username. */
    method DeleteUserByUsername(username: string) returns (res: Result<User>)
      requires Valid()
      modifies this`users
      ensures Valid()
      ensures FirstMatch(old(users), ByUsername(username)).None? ==>
                res == Err(HttpError(404, UserNotFound)) && users == old(users)
      ensures FirstMatch(old(users), ByUsername(username)).Some? ==>
                var i := FirstMatch(old(users), ByUsername(username)).value;
                res == Ok(old(users)[i]) && users == Remove(old(users), i) && |users| == |old(users)| - 1
    {
      var found := FirstMatch(users, ByUsername(username));
      if found.None? {
        return Err(HttpError(404, UserNotFound));
      }
      var u := users[found.value];
      users := Remove(users, found.value);
      return Ok(u);
    }
  }

  // ---------------------------------------------------------------------
  // Properties

  /** Both update routes write exactly the fields set plus the timestamp;
      they differ only in how a new password is stored. */
  lemma AppliedFields(u: User, upd: UserUpdate, now: Timestamp)
    ensures var a := AdminApplied(u, upd, now);
      var p := ProfileApplied(u, upd, now);
      a.oid == u.oid && a.id == u.id && a.createdAt == u.createdAt && a.updatedAt == Some(now) &&
      (upd.username.None? ==> a.username == u.username) &&
      (upd.email.None? ==> a.email == u.email) &&
      (upd.birthday.None? ==> a.birthday == u.birthday) &&
      (upd.password.None? ==> a.password == u.password && p == a) &&
      (upd.password.Some? ==> a.password == Raw(upd.password.value) && p == a.(password := Hashed(upd.password.value)))
  {
  }

  /** A password stored by the administrative update never verifies, while
      one stored by the profile update verifies with the same text. */
  lemma AdminPasswordDoesNotVerify(u: User, upd: UserUpdate, now: Timestamp)
    requires upd.password.Some?
    ensures !PasswordMatches(upd.password.value, AdminApplied(u, upd, now).password)
    ensures PasswordMatches(upd.password.value, ProfileApplied(u, upd, now).password)
  {
  }

  /** With at least one user whose email differs from the caller's, every
      profile email change is refused, even to an unused address. */
  lemma {:induction false} EmailChangeBlockedByAnyOtherUser(users: seq<User>, sub: string, i: int)
    requires 0 <= i < |users| && users[i].email != sub
    ensures EmailFilterMatches(users, sub)
  {
  }

  /** Removing the only document with an ObjectId leaves none with it. */
  lemma {:induction false} RemoveUniqueOid(users: seq<User>, i: nat)
    requires i < |users|
    requires forall a, b :: 0 <= a < b < |users| ==> users[a].oid != users[b].oid
    ensures FirstMatch(Remove(users, i), ByOid(users[i].oid)).None?
  {
    var r := Remove(users, i);
    forall j | 0 <= j < |r| ensures !Matches(r[j], ByOid(users[i].oid)) {
      if j < i { assert r[j] == users[j]; } else { assert r[j] == users[j + 1]; }
    }
  }
}
