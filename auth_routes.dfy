/** routes/auth.js: registration, login with its lock-out, the `/me`
    profile update and the password change. bcrypt is the pair of
    uninterpreted functions `hash` and `matches`; the email format check and
    `normalizeEmail` are functions passed in as well. */
module AuthRoutes {
  import opened Common
  import opened UserModel
  import opened AuthMiddleware
  import opened UsersRoutes

  /** The characters a regular expression's `.` does not match. */
  predicate IsLineTerminator(c: char) {
    c == '\n' || c == '\r' || c == '\U{2028}' || c == '\U{2029}'
  }

  /** The text before the first line terminator. */
  function FirstLine(s: string): (r: string)
    ensures r <= s
    ensures forall k :: 0 <= k < |r| ==> !IsLineTerminator(r[k])
    ensures |r| < |s| ==> IsLineTerminator(s[|r|])
  {
    if s == [] || IsLineTerminator(s[0]) then [] else [s[0]] + FirstLine(s[1..])
  }

  predicate HasLower(s: string) { exists k :: 0 <= k < |s| && 'a' <= s[k] <= 'z' }
  predicate HasUpper(s: string) { exists k :: 0 <= k < |s| && 'A' <= s[k] <= 'Z' }
  predicate HasDigit(s: string) { exists k :: 0 <= k < |s| && '0' <= s[k] <= '9' }

  /** The password rule of registration and of the password change: at least
      six characters, and `^(?=.*[a-z])(?=.*[A-Z])(?=.*\d)`, whose lookaheads
      cannot see past the first line break. */
  predicate PasswordRuleOk(p: string) {
    var line := FirstLine(p);
    |p| >= 6 && HasLower(line) && HasUpper(line) && HasDigit(line)
  }

  lemma {:induction false} FirstLineWhole(s: string)
    requires forall k :: 0 <= k < |s| ==> !IsLineTerminator(s[k])
    ensures FirstLine(s) == s
  {
    if s != [] {
      FirstLineWhole(s[1..]);
      assert [s[0]] + s[1..] == s;
    }
  }

  lemma {:induction false} FirstLineStops(a: string, c: char, b: string)
    requires forall k :: 0 <= k < |a| ==> !IsLineTerminator(a[k])
    requires IsLineTerminator(c)
    ensures FirstLine(a + [c] + b) == a
  {
    if a != [] {
      FirstLineStops(a[1..], c, b);
      assert (a + [c] + b)[1..] == a[1..] + [c] + b;
      assert [a[0]] + a[1..] == a;
    } else {
      assert (a + [c] + b)[0] == c;
    }
  }

  /** On a password without line breaks the rule is exactly: at least six
      characters, a lowercase and an uppercase letter and a digit. */
  lemma PasswordRuleAccepts(p: string)
    requires forall k :: 0 <= k < |p| ==> !IsLineTerminator(p[k])
    ensures PasswordRuleOk(p) <==> |p| >= 6 && HasLower(p) && HasUpper(p) && HasDigit(p)
  {
    FirstLineWhole(p);
  }

  /** The lookaheads stop at the first line break: after one, only the
      length still counts what follows it. */
  lemma PasswordRuleFirstLineOnly(a: string, c: char, b: string)
    requires forall k :: 0 <= k < |a| ==> !IsLineTerminator(a[k])
    requires IsLineTerminator(c)
    ensures PasswordRuleOk(a + [c] + b) <==> |a| + 1 + |b| >= 6 && HasLower(a) && HasUpper(a) && HasDigit(a)
  {
    FirstLineStops(a, c, b);
  }

  /** A one-line password with the three classes passes. */
  lemma PasswordRuleExample()
    ensures PasswordRuleOk("Secret1")
  {
    var p := "Secret1";
    PasswordRuleAccepts(p);
    assert 'a' <= p[1] <= 'z' && 'A' <= p[0] <= 'Z' && '0' <= p[6] <= '9';
  }

  /** The same characters with the digit moved to a second line fail the rule. */
  lemma PasswordRuleSecondLineDigit()
    ensures !PasswordRuleOk("Secret\n1")
  {
    var w := "Secret";
    PasswordRuleFirstLineOnly(w, '\n', "1");
    assert w + ['\n'] + "1" == "Secret\n1";
    assert forall k :: 0 <= k < |w| ==> !('0' <= w[k] <= '9');
  }

  /** What registration and login answer with: the user's safe view and the
      claims of the token that is also set as a cookie. */
  datatype Session = Session(message: string, user: SafeUser, token: Claims)

  /** `POST /register`. Validation (400) comes first, then the email
      uniqueness check (409); both leave the store unchanged. A new user
      always gets the role `user` and the hash of the given password. */
  method Register(users: seq<User>, name: string, email: string, password: string,
                  isEmail: string -> bool, normalizeEmail: string -> string, hash: string -> string,
                  newId: Id, now: Millis)
    returns (reply: Reply<Session>, users': seq<User>)
    ensures var valid := 2 <= |Trim(name)| <= 100 && isEmail(email) && PasswordRuleOk(password);
      && (!valid ==> reply == Failure(400, "Validation failed") && users' == users)
      && (valid && FindByEmail(users, normalizeEmail(email)).Some? ==>
            reply == Failure(409, "User with this email already exists") && users' == users)
      && (valid && FindByEmail(users, normalizeEmail(email)).None? ==>
            var u := User(newId, Trim(name), normalizeEmail(email), hash(password), UserRole, true, None, "",
                          DEFAULT_PREFERENCES, None, 0, None, now);
            && users' == users + [u]
            && reply == Success(201, Session("User registered successfully", ToSafeObject(u, now),
                                             GenerateClaims(newId, now))))
  {
    if !(2 <= |Trim(name)| <= 100 && isEmail(email) && PasswordRuleOk(password)) {
      return Failure(400, "Validation failed"), users;
    }
    var normalized := normalizeEmail(email);
    if FindByEmail(users, normalized).Some? {
      return Failure(409, "User with this email already exists"), users;
    }
    var doc := new UserDoc.Create(newId, Trim(name), normalized, password, UserRole, now);
    doc.Save(hash);
    var u := doc.Record();
    users' := users + [u];
    reply := Success(201, Session("User registered successfully", ToSafeObject(u, now), GenerateClaims(newId, now)));
  }

  const BAD_CREDENTIALS := "Invalid email or password"

  /** `POST /login`. In order: validation (400); unknown email (401); a
      locked account (423) before the password is looked at, so even the
      right password is refused and nothing is counted; a deactivated account
      (401); a wrong password (401 with the same words as an unknown email)
      records exactly one failed attempt; the right password resets the
      counters and issues a token. The reply shows the user as it was read,
      before the reset. */
  method Login(users: seq<User>, email: string, password: string,
               isEmail: string -> bool, normalizeEmail: string -> string, matches: (string, string) -> bool,
               now: Millis)
    returns (reply: Reply<Session>, users': seq<User>)
    ensures var found := FindByEmail(users, normalizeEmail(email));
      && (!isEmail(email) || password == "" ==> reply == Failure(400, "Validation failed") && users' == users)
      && (isEmail(email) && password != "" ==>
            && (found.None? ==> reply == Failure(401, BAD_CREDENTIALS) && users' == users)
            && (found.Some? ==>
                  var i := found.value;
                  var u := users[i];
                  && (IsLocked(u, now) ==>
                        reply == Failure(423, "Account is temporarily locked due to too many failed login attempts")
                        && users' == users)
                  && (!IsLocked(u, now) && !u.isActive ==>
                        reply == Failure(401, "Account is deactivated") && users' == users)
                  && (!IsLocked(u, now) && u.isActive && !matches(password, u.password) ==>
                        reply == Failure(401, BAD_CREDENTIALS) && users' == users[i := AfterFailedLogin(u, now)])
                  && (!IsLocked(u, now) && u.isActive && matches(password, u.password) ==>
                        && users' == users[i := AfterSuccessfulLogin(u, now)]
                        && reply == Success(200, Session("Login successful", ToSafeObject(u, now),
                                                         GenerateClaims(u.id, now))))))
  {
    if !isEmail(email) || password == "" {
      return Failure(400, "Validation failed"), users;
    }
    var found := FindByEmail(users, normalizeEmail(email));
    if found.None? {
      return Failure(401, BAD_CREDENTIALS), users;
    }
    var i := found.value;
    var u := users[i];
    if IsLocked(u, now) {
      return Failure(423, "Account is temporarily locked due to too many failed login attempts"), users;
    }
    if !u.isActive {
      return Failure(401, "Account is deactivated"), users;
    }
    if !matches(password, u.password) {
      users' := users[i := AfterFailedLogin(u, now)];
      return Failure(401, BAD_CREDENTIALS), users';
    }
    users' := users[i := AfterSuccessfulLogin(u, now)];
    reply := Success(200, Session("Login successful", ToSafeObject(u, now), GenerateClaims(u.id, now)));
  }

  /** The string express-validator's `trim()` and `isLength()` work on: a
      string as is, a number or a boolean by `String(v)`, an object by its
      `toString()`, and `null` (the model's remaining value) as "". */
  function SanitizerString(v: Value): (r: string)
    ensures v.Str? || v.Int? || v.Bool? ==> CastString(v) == Some(r)
    ensures v.Obj? ==> r == "[object Object]"
    ensures v.Other? ==> r == ""
  {
    if CastString(v).Some? then CastString(v).value
    else if v.Obj? then "[object Object]"
    else ""
  }

  /** The validators of `PUT /me`, each skipped when its field is absent;
      `name` and `bio` are measured after the `trim()` sanitizer. */
  predicate MeBodyValid(body: Body) {
    && ("name" in body ==> 2 <= |Trim(SanitizerString(body["name"]))| <= 100)
    && ("bio" in body ==> |Trim(SanitizerString(body["bio"]))| <= 500)
    && ("preferences" in body && body["preferences"].Obj? ==>
          var f := body["preferences"].fields;
          && ("newsletter" in f ==> f["newsletter"].Bool?)
          && ("notifications" in f ==> f["notifications"].Bool?)
          && ("theme" in f ==> f["theme"].Str? && ParseTheme(f["theme"].s).Some?))
  }

  /** The body after the `trim()` sanitizers, which replace `name` and
      `bio`, whatever their type, by their trimmed string. */
  function Sanitized(body: Body): (r: Body)
    ensures r.Keys == body.Keys
    ensures forall k :: k in body && k != "name" && k != "bio" ==> r[k] == body[k]
    ensures forall k :: k in body && (k == "name" || k == "bio") ==> r[k] == Str(Trim(SanitizerString(body[k])))
  {
    map k | k in body :: if k == "name" || k == "bio" then Str(Trim(SanitizerString(body[k]))) else body[k]
  }

  /** The strings the `trim()` sanitizer makes of the number 42 and of `null`. */
  lemma NonStringsTrimmed()
    ensures Trim(SanitizerString(Int(42))) == "42"
    ensures Trim(SanitizerString(Other)) == ""
  {
    FortyTwoRendered();
    TrimUnpadded("42");
  }

  /** A number for the name and `null` for the bio pass the validators of `PUT /me`. */
  lemma MeNonStringsValid()
    ensures MeBodyValid(map["name" := Int(42), "bio" := Other])
  {
    NonStringsTrimmed();
  }

  /** The sanitizers of `PUT /me` turn a number for the name and `null` for
      the bio into the strings "42" and "", which is what reaches the store. */
  lemma MeNonStringsSanitized()
    ensures Sanitized(map["name" := Int(42), "bio" := Other]) == map["name" := Str("42"), "bio" := Str("")]
  {
    NonStringsTrimmed();
    var sb := Sanitized(map["name" := Int(42), "bio" := Other]);
    assert sb.Keys == {"name", "bio"};
  }

  /** On a body that passes the `PUT /me` validators, the store update
      refuses only a `preferences` value that is not an object. */
  lemma MeUpdateAccepted(body: Body)
    requires MeBodyValid(body)
    ensures (forall k :: k in Sanitized(body) && k in PROFILE_FIELDS ==> ProfileValueOk(k, Sanitized(body)[k]))
        <==> ("preferences" in body ==> body["preferences"].Obj?)
  {
    var sb := Sanitized(body);
    if "name" in body {
      TrimIdempotent(SanitizerString(body["name"]));
      assert ProfileValueOk("name", sb["name"]);
    }
    if "bio" in body {
      assert ProfileValueOk("bio", sb["bio"]);
    }
    if "preferences" in body && body["preferences"].Obj? {
      var f := body["preferences"].fields;
      assert "newsletter" in f ==> f["newsletter"] in CAST_TRUE + CAST_FALSE by {
        if "newsletter" in f { assert CastBoolean(f["newsletter"]).Some?; }
      }
      assert "notifications" in f ==> f["notifications"] in CAST_TRUE + CAST_FALSE by {
        if "notifications" in f { assert CastBoolean(f["notifications"]).Some?; }
      }
      assert ProfileValueOk("preferences", sb["preferences"]);
    }
  }

  /** `PUT /me`: validation (400, store unchanged), then the sanitized body's
      whitelisted fields go through the same store update as `PUT
      /me/profile`. On a valid body the update succeeds for an existing user
      unless `preferences` is not an object, and stores the trimmed name and
      bio and the given preferences. Fields outside the whitelist never change. */
  method UpdateMe(users: seq<User>, meId: Id, body: Body, now: Millis)
    returns (reply: Reply<ProfileReply>, users': seq<User>)
    ensures !MeBodyValid(body) ==> reply == Failure(400, "Validation failed") && users' == users
    ensures |users'| == |users|
    ensures forall j :: 0 <= j < |users| ==>
              users'[j].(name := users[j].name, bio := users[j].bio, preferences := users[j].preferences) == users[j]
    ensures forall j :: 0 <= j < |users| && users[j].id != meId ==> users'[j] == users[j]
    ensures reply.Failure? && MeBodyValid(body) ==> reply == Failure(500, "Failed to update profile") && users' == users
    ensures MeBodyValid(body) ==>
      var i := FindUser(users, meId);
      && (i.None? ==> reply.Failure?)
      && (i.Some? ==> (reply.Success? <==> ("preferences" in body ==> body["preferences"].Obj?)))
      && (i.Some? && reply.Success? ==>
            var u := users[i.value];
            && users'[i.value].name == (if "name" in body then Trim(SanitizerString(body["name"])) else u.name)
            && users'[i.value].bio == (if "bio" in body then Trim(SanitizerString(body["bio"])) else u.bio)
            && ("preferences" in body ==> PreferencesFrom(body["preferences"]) == Some(users'[i.value].preferences))
            && ("preferences" !in body ==> users'[i.value].preferences == u.preferences)
            && reply.body.user == ToSafeObject(users'[i.value], now))
  {
    if !MeBodyValid(body) {
      return Failure(400, "Validation failed"), users;
    }
    var updates := PickAllowed(Sanitized(body));
    reply, users' := UpdateStoredProfile(users, meId, updates, now);
    MeUpdateAccepted(body);
    if "name" in body {
      TrimIdempotent(SanitizerString(body["name"]));
    }
  }

  /** `PUT /change-password`. Validation (400) first; a vanished account
      gives 500; a wrong current password gives 401 and changes nothing;
      otherwise the new password is stored hashed. The save hook hashes only
      a changed value, so a new password equal to the stored hash string is
      kept as it is. */
  method ChangePassword(users: seq<User>, meId: Id, currentPassword: string, newPassword: string,
                        matches: (string, string) -> bool, hash: string -> string)
    returns (reply: Reply<string>, users': seq<User>)
    ensures var valid := currentPassword != "" && PasswordRuleOk(newPassword);
      var i := FindUser(users, meId);
      && (!valid ==> reply == Failure(400, "Validation failed") && users' == users)
      && (valid && i.None? ==> reply == Failure(500, "Failed to change password") && users' == users)
      && (valid && i.Some? && !matches(currentPassword, users[i.value].password) ==>
            reply == Failure(401, "Current password is incorrect") && users' == users)
      && (valid && i.Some? && matches(currentPassword, users[i.value].password) ==>
            && reply == Success(200, "Password changed successfully")
            && users' == users[i.value := users[i.value].(password :=
                 if newPassword != users[i.value].password then hash(newPassword) else newPassword)])
  {
    if !(currentPassword != "" && PasswordRuleOk(newPassword)) {
      return Failure(400, "Validation failed"), users;
    }
    var i := FindUser(users, meId);
    if i.None? {
      return Failure(500, "Failed to change password"), users;
    }
    if !matches(currentPassword, users[i.value].password) {
      return Failure(401, "Current password is incorrect"), users;
    }
    var doc := new UserDoc.Load(users[i.value]);
    doc.password := newPassword;
    doc.Save(hash);
    users' := users[i.value := doc.Record()];
    reply := Success(200, "Password changed successfully");
  }
}
