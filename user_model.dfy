/** models/User.js: the user record, its roles and preferences, the login
    lock-out counters, the password re-hash guard of the save hook and the
    safe view that hides the secrets. bcrypt is an uninterpreted `hash`
    function passed in by the caller. */
module UserModel {
  import opened Common

  datatype Role = UserRole | AdminRole | SuperAdminRole

  function RoleName(r: Role): string {
    match r
    case UserRole => "user"
    case AdminRole => "admin"
    case SuperAdminRole => "super-admin"
  }

  /** The enum check on `role` (schema and the role-change validator). */
  function ParseRole(name: string): (r: Option<Role>)
    ensures r.Some? ==> RoleName(r.value) == name
    ensures r.None? ==> forall x :: RoleName(x) != name
  {
    if name == "user" then Some(UserRole)
    else if name == "admin" then Some(AdminRole)
    else if name == "super-admin" then Some(SuperAdminRole)
    else None
  }

  datatype Theme = Light | Dark | Auto

  function ThemeName(t: Theme): string {
    match t
    case Light => "light"
    case Dark => "dark"
    case Auto => "auto"
  }

  function ParseTheme(name: string): (r: Option<Theme>)
    ensures r.Some? ==> ThemeName(r.value) == name
    ensures r.None? ==> forall x :: ThemeName(x) != name
  {
    if name == "light" then Some(Light)
    else if name == "dark" then Some(Dark)
    else if name == "auto" then Some(Auto)
    else None
  }

  datatype Preferences = Preferences(newsletter: bool, notifications: bool, theme: Theme)

  const DEFAULT_PREFERENCES := Preferences(true, true, Light)

  /** A stored user. `password` holds the bcrypt hash once saved. */
  datatype User = User(
    id: Id,
    name: string,
    email: string,
    password: string,
    role: Role,
    isActive: bool,
    avatar: Option<string>,
    bio: string,
    preferences: Preferences,
    lastLogin: Option<Millis>,
    loginAttempts: int,
    lockUntil: Option<Millis>,
    createdAt: Millis)

  /** Two hours, in milliseconds. */
  const LOCK_TIME: int := 2 * 60 * 60 * 1000

  /** The failed attempt that brings the counter to this number locks the account. */
  const MAX_LOGIN_ATTEMPTS: int := 5

  /** The `isLocked` virtual. */
  predicate IsLocked(u: User, now: Millis) {
    u.lockUntil.Some? && u.lockUntil.value > now
  }

  /** The characters of `s` before its first `sep`, the first element of `s.split(sep)`. */
  function Before(s: string, sep: char): (r: string)
    ensures r <= s
    ensures sep !in r
    ensures |r| < |s| ==> s[|r|] == sep
  {
    if s == [] || s[0] == sep then [] else [s[0]] + Before(s[1..], sep)
  }

  /** The `displayName` virtual: the name, or when it is empty the local part of the email. */
  function DisplayName(u: User): (r: string)
    ensures u.name != "" ==> r == u.name
    ensures u.name == "" ==> r <= u.email && '@' !in r
    ensures u.name == "" && |r| < |u.email| ==> u.email[|r|] == '@'
  {
    if u.name != "" then u.name else Before(u.email, '@')
  }

  /** The record `incLoginAttempts` leaves in the store: an expired lock
      restarts the count at one and is removed; otherwise the count goes up by
      one, and the failure that reaches five on an unlocked account sets a
      two-hour lock. */
  function AfterFailedLogin(u: User, now: Millis): User {
    if u.lockUntil.Some? && u.lockUntil.value < now then
      u.(loginAttempts := 1, lockUntil := None)
    else
      var lock := if u.loginAttempts + 1 >= MAX_LOGIN_ATTEMPTS && !IsLocked(u, now)
                  then Some(now + LOCK_TIME) else u.lockUntil;
      u.(loginAttempts := u.loginAttempts + 1, lockUntil := lock)
  }

  /** The record `resetLoginAttempts` leaves in the store. The unset counter
      reads back as its schema default, zero. */
  function AfterSuccessfulLogin(u: User, now: Millis): User {
    u.(loginAttempts := 0, lockUntil := None, lastLogin := Some(now))
  }

  /** What a failed attempt does to the counters, and that it touches nothing else. */
  lemma FailedLoginEffect(u: User, now: Millis)
    ensures var v := AfterFailedLogin(u, now);
      && v.(loginAttempts := u.loginAttempts, lockUntil := u.lockUntil) == u
      && (u.lockUntil.Some? && u.lockUntil.value < now ==> v.loginAttempts == 1 && v.lockUntil.None?)
      && (!(u.lockUntil.Some? && u.lockUntil.value < now) ==> v.loginAttempts == u.loginAttempts + 1)
      && (v.lockUntil != u.lockUntil && v.lockUntil.Some? <==>
            && !(u.lockUntil.Some? && u.lockUntil.value < now)
            && u.loginAttempts + 1 >= MAX_LOGIN_ATTEMPTS
            && !IsLocked(u, now)
            && u.lockUntil != Some(now + LOCK_TIME))
      && (v.lockUntil.Some? && v.lockUntil != u.lockUntil ==> v.lockUntil == Some(now + LOCK_TIME))
      && (IsLocked(u, now) ==> v.lockUntil == u.lockUntil)
  {
  }

  /** A successful login clears both counters and stamps the login time, and touches nothing else. */
  lemma SuccessfulLoginEffect(u: User, now: Millis)
    ensures var v := AfterSuccessfulLogin(u, now);
      && v.loginAttempts == 0 && v.lockUntil.None? && v.lastLogin == Some(now)
      && !IsLocked(v, now)
      && v.(loginAttempts := u.loginAttempts, lockUntil := u.lockUntil, lastLogin := u.lastLogin) == u
  {
  }

  /** Failed attempts at the given instants, one after the other. */
  function FailAll(u: User, times: seq<Millis>): User
    decreases |times|
  {
    if times == [] then u else FailAll(AfterFailedLogin(u, times[0]), times[1..])
  }

  /** Fewer than five failures from a clean record leave it unlocked, with the
      failures counted. */
  lemma {:induction false} FailuresBelowLimit(u: User, times: seq<Millis>)
    requires u.lockUntil.None? && u.loginAttempts >= 0
    requires u.loginAttempts + |times| < MAX_LOGIN_ATTEMPTS
    ensures FailAll(u, times).lockUntil.None?
    ensures FailAll(u, times).loginAttempts == u.loginAttempts + |times|
    decreases |times|
  {
    if times != [] {
      FailuresBelowLimit(AfterFailedLogin(u, times[0]), times[1..]);
    }
  }

  /** Five failed logins on a clean record lock the account for two hours
      from the fifth failure. */
  lemma {:induction false} FiveFailuresLock(u: User, times: seq<Millis>, t: Millis)
    requires u.lockUntil.None? && u.loginAttempts == 0
    requires |times| == 5
    requires times[4] <= t < times[4] + LOCK_TIME
    ensures FailAll(u, times).loginAttempts == 5
    ensures FailAll(u, times).lockUntil == Some(times[4] + LOCK_TIME)
    ensures IsLocked(FailAll(u, times), t)
  {
    var four := FailAll(u, times[..4]);
    FailuresBelowLimit(u, times[..4]);
    FailAllAppend(u, times[..4], times[4..]);
    assert times[..4] + times[4..] == times;
    assert FailAll(four, times[4..]) == AfterFailedLogin(four, times[4]);
  }

  lemma {:induction false} FailAllAppend(u: User, a: seq<Millis>, b: seq<Millis>)
    ensures FailAll(u, a + b) == FailAll(FailAll(u, a), b)
    decreases |a|
  {
    if a != [] {
      assert (a + b)[0] == a[0] && (a + b)[1..] == a[1..] + b;
      FailAllAppend(AfterFailedLogin(u, a[0]), a[1..], b);
    } else {
      assert a + b == b;
    }
  }

  /** What `toSafeObject` returns: the document as an object with its
      virtuals, minus `password`, `loginAttempts` and `lockUntil`. */
  datatype SafeUser = SafeUser(
    id: Id,
    name: string,
    email: string,
    role: Role,
    isActive: bool,
    avatar: Option<string>,
    bio: string,
    preferences: Preferences,
    lastLogin: Option<Millis>,
    createdAt: Millis,
    displayName: string,
    isLocked: bool)

  function ToSafeObject(u: User, now: Millis): (s: SafeUser)
    ensures s.id == u.id && s.name == u.name && s.email == u.email && s.role == u.role
    ensures s.isActive == u.isActive && s.avatar == u.avatar && s.bio == u.bio
    ensures s.preferences == u.preferences && s.lastLogin == u.lastLogin && s.createdAt == u.createdAt
    ensures s.displayName == DisplayName(u) && s.isLocked == IsLocked(u, now)
  {
    SafeUser(u.id, u.name, u.email, u.role, u.isActive, u.avatar, u.bio, u.preferences,
             u.lastLogin, u.createdAt, DisplayName(u), IsLocked(u, now))
  }

  /** The record with its three secret fields blanked. */
  function Secretless(u: User): User {
    u.(password := "", loginAttempts := 0, lockUntil := None)
  }

  /** The safe view drops exactly the three secrets: two records have the same
      safe view iff they agree on everything else (and on the lock state the
      `isLocked` virtual still reveals). */
  lemma SafeObjectDropsOnlySecrets(u: User, v: User, now: Millis)
    ensures ToSafeObject(u, now) == ToSafeObject(v, now)
        <==> Secretless(u) == Secretless(v) && IsLocked(u, now) == IsLocked(v, now)
  {
    if ToSafeObject(u, now) == ToSafeObject(v, now) {
      assert DisplayName(u) == DisplayName(v);
    }
  }

  /** The `findActive` static. */
  function FindActive(users: seq<User>): (r: seq<User>)
    ensures forall u :: u in r <==> u in users && u.isActive
  {
    Filter(users, (u: User) => u.isActive)
  }

  /** The `findByRole` static: active users with that role. */
  function FindByRole(users: seq<User>, role: Role): (r: seq<User>)
    ensures forall u :: u in r <==> u in users && u.role == role && u.isActive
  {
    Filter(users, (u: User) => u.role == role && u.isActive)
  }

  /** `findById`: the position of the user with that id. */
  function FindUser(users: seq<User>, id: Id): (r: Option<nat>)
    ensures r.Some? ==> r.value < |users| && users[r.value].id == id
    ensures r.None? <==> forall j :: 0 <= j < |users| ==> users[j].id != id
  {
    FindFirst(users, (u: User) => u.id == id)
  }

  /** `findOne({ email })`: the position of the first user with that email. */
  function FindByEmail(users: seq<User>, email: string): (r: Option<nat>)
    ensures r.Some? ==> r.value < |users| && users[r.value].email == email
    ensures r.None? <==> forall j :: 0 <= j < |users| ==> users[j].email != email
  {
    FindFirst(users, (u: User) => u.email == email)
  }

  /** A Mongoose document of the User model, with what Mongoose keeps beside
      the fields: `isNew` and the password as last stored, which decides
      `isModified('password')`. */
  class UserDoc {
    const id: Id
    const createdAt: Millis
    var name: string
    var email: string
    var password: string
    var role: Role
    var isActive: bool
    var avatar: Option<string>
    var bio: string
    var preferences: Preferences
    var lastLogin: Option<Millis>
    var loginAttempts: int
    var lockUntil: Option<Millis>

    var isNew: bool
    var persistedPassword: string

    function Record(): User
      reads this
    {
      User(id, name, email, password, role, isActive, avatar, bio, preferences,
           lastLogin, loginAttempts, lockUntil, createdAt)
    }

    /** `new User({ name, email, password, role })` with the schema defaults. */
    constructor Create(id: Id, name: string, email: string, password: string, role: Role, now: Millis)
      ensures Record() == User(id, name, email, password, role, true, None, "", DEFAULT_PREFERENCES,
                               None, 0, None, now)
      ensures isNew
    {
      this.id, this.createdAt := id, now;
      this.name, this.email, this.password, this.role := name, email, password, role;
      isActive, avatar, bio, preferences := true, None, "", DEFAULT_PREFERENCES;
      lastLogin, loginAttempts, lockUntil := None, 0, None;
      isNew, persistedPassword := true, "";
    }

    /** A document read back from the store. */
    constructor Load(u: User)
      ensures Record() == u && !isNew && persistedPassword == u.password
    {
      id, createdAt := u.id, u.createdAt;
      name, email, password, role := u.name, u.email, u.password, u.role;
      isActive, avatar, bio, preferences := u.isActive, u.avatar, u.bio, u.preferences;
      lastLogin, loginAttempts, lockUntil := u.lastLogin, u.loginAttempts, u.lockUntil;
      isNew, persistedPassword := false, u.password;
    }

    /** `save()`: the hook hashes the password only when it is new or was
        changed since it was stored, so a stored hash is never hashed again. */
    method Save(hash: string -> string)
      modifies this
      ensures old(isNew) || old(password) != old(persistedPassword) ==>
                Record() == old(Record()).(password := hash(old(password)))
      ensures !old(isNew) && old(password) == old(persistedPassword) ==> Record() == old(Record())
      ensures !isNew && persistedPassword == password
    {
      if isNew || password != persistedPassword {
        password := hash(password);
      }
      isNew := false;
      persistedPassword := password;
    }
  }
}
