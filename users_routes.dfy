/** routes/users.js: the public profile of a user and the profile update,
    whose field whitelist and store update the `/auth/me` update shares. */
module UsersRoutes {
  import opened Common
  import opened UserModel

  /** The only keys a profile update copies from the request body. */
  const PROFILE_FIELDS: set<string> := {"name", "bio", "preferences"}

  /** The `Object.keys(req.body).forEach` loop: copies every whitelisted key
      of the body, and nothing else, into `updates`. */
  method PickAllowed(body: Body) returns (updates: Body)
    ensures updates.Keys == body.Keys * PROFILE_FIELDS
    ensures forall k :: k in updates ==> updates[k] == body[k]
  {
    updates := map[];
    var keys := body.Keys;
    while keys != {}
      invariant keys <= body.Keys
      invariant updates.Keys == (body.Keys - keys) * PROFILE_FIELDS
      invariant forall k :: k in updates ==> k in body && updates[k] == body[k]
      decreases keys
    {
      var k :| k in keys;
      if k in PROFILE_FIELDS {
        updates := updates[k := body[k]];
      }
      keys := keys - {k};
    }
  }

  /** A boolean preference as stored after the update: its schema default
      when absent, otherwise the Mongoose Boolean cast of the given value,
      nothing when that cast fails. */
  function BoolPreference(fields: map<string, Value>, k: string): (r: Option<bool>)
    ensures r == Some(true) <==> k !in fields || fields[k] in CAST_TRUE
    ensures r == Some(false) <==> k in fields && fields[k] in CAST_FALSE
    ensures k in fields && fields[k].Bool? ==> r == Some(fields[k].b)
  {
    if k !in fields then Some(true) else CastBoolean(fields[k])
  }

  /** A theme name rendered from a number or a boolean is never in the enum. */
  lemma ThemeNeedsString(v: Value)
    requires CastString(v).Some? && ParseTheme(CastString(v).value).Some?
    ensures v == Str(CastString(v).value)
  {
    var t := ParseTheme(CastString(v).value).value;
    assert ThemeName(t)[0] == 'l' || ThemeName(t)[0] == 'd' || ThemeName(t)[0] == 'a';
  }

  /** The theme as stored after the update: `light` when absent, otherwise
      the String cast of the given value if it passes the enum. */
  function ThemePreference(fields: map<string, Value>): (r: Option<Theme>)
    ensures "theme" !in fields ==> r == Some(Light)
    ensures "theme" in fields ==> (r.Some? <==> fields["theme"].Str? && ParseTheme(fields["theme"].s).Some?)
    ensures "theme" in fields && r.Some? ==> fields["theme"] == Str(ThemeName(r.value))
  {
    if "theme" !in fields then Some(Light)
    else
      var cast := CastString(fields["theme"]);
      if cast.None? then None
      else
        var t := ParseTheme(cast.value);
        if t.Some? then ThemeNeedsString(fields["theme"]); t else t
  }

  /** The `preferences` object an update stores, read back with the schema
      defaults filling what it leaves out; nothing when the value is not an
      object, a flag does not cast to a boolean or the theme fails the enum. */
  function PreferencesFrom(v: Value): (r: Option<Preferences>)
    ensures r.Some? <==>
      && v.Obj?
      && ("newsletter" in v.fields ==> v.fields["newsletter"] in CAST_TRUE + CAST_FALSE)
      && ("notifications" in v.fields ==> v.fields["notifications"] in CAST_TRUE + CAST_FALSE)
      && ("theme" in v.fields ==> v.fields["theme"].Str? && ParseTheme(v.fields["theme"].s).Some?)
    ensures r.Some? ==> r.value.newsletter == ("newsletter" !in v.fields || v.fields["newsletter"] in CAST_TRUE)
    ensures r.Some? ==> r.value.notifications == ("notifications" !in v.fields || v.fields["notifications"] in CAST_TRUE)
    ensures r.Some? && "theme" !in v.fields ==> r.value.theme == Light
    ensures r.Some? && "theme" in v.fields ==> v.fields["theme"] == Str(ThemeName(r.value.theme))
  {
    if !v.Obj? then None
    else
      var newsletter := BoolPreference(v.fields, "newsletter");
      var notifications := BoolPreference(v.fields, "notifications");
      var theme := ThemePreference(v.fields);
      if newsletter.None? || notifications.None? || theme.None? then None
      else Some(Preferences(newsletter.value, notifications.value, theme.value))
  }

  /** The maximum lengths of the schema. */
  const NAME_MAX := 100
  const BIO_MAX := 500

  /** One whitelisted field passes the schema's casting, setters and update validators. */
  predicate ProfileValueOk(k: string, v: Value) {
    if k == "name" then CastString(v).Some? && 1 <= |Trim(CastString(v).value)| <= NAME_MAX
    else if k == "bio" then CastString(v).Some? && |CastString(v).value| <= BIO_MAX
    else if k == "preferences" then PreferencesFrom(v).Some?
    else true
  }

  /** `findByIdAndUpdate(id, updates, { runValidators: true })` on one record:
      each value is cast to its path's type, the name is trimmed by the
      schema, the bio is stored as cast, a preferences object replaces the
      old one. Only the three whitelisted fields can change. */
  function ApplyProfileUpdates(u: User, updates: Body): (r: Option<User>)
    ensures r.Some? <==> forall k :: k in updates && k in PROFILE_FIELDS ==> ProfileValueOk(k, updates[k])
    ensures r.Some? ==> r.value.(name := u.name, bio := u.bio, preferences := u.preferences) == u
    ensures r.Some? ==> r.value.name == if "name" in updates then Trim(CastString(updates["name"]).value) else u.name
    ensures r.Some? ==> r.value.bio == if "bio" in updates then CastString(updates["bio"]).value else u.bio
    ensures r.Some? ==> r.value.preferences == if "preferences" in updates then PreferencesFrom(updates["preferences"]).value
                                                 else u.preferences
  {
    if ("name" in updates && !ProfileValueOk("name", updates["name"]))
       || ("bio" in updates && !ProfileValueOk("bio", updates["bio"]))
       || ("preferences" in updates && !ProfileValueOk("preferences", updates["preferences"]))
    then None
    else
      Some(u.(name := if "name" in updates then Trim(CastString(updates["name"]).value) else u.name,
              bio := if "bio" in updates then CastString(updates["bio"]).value else u.bio,
              preferences := if "preferences" in updates then PreferencesFrom(updates["preferences"]).value
                             else u.preferences))
  }

  lemma FortyTwoRendered()
    ensures CastString(Int(42)) == Some("42")
  {
    assert NatToString(4) == ['4'];
    assert ('0' as int + 42 % 10) as char == '2';
    assert NatToString(42) == NatToString(4) + ['2'];
    assert IntToString(42) == NatToString(42);
    assert ['4'] + ['2'] == "42";
  }

  /** A number given for the name is cast, not refused: it is stored as its digits. */
  lemma NumberNameCast(u: User)
    ensures ApplyProfileUpdates(u, map["name" := Int(42)]) == Some(u.(name := "42"))
  {
    FortyTwoRendered();
    TrimUnpadded("42");
  }

  /** The string "false" for a flag is cast to the boolean false, not refused. */
  lemma StringFlagCast(u: User)
    ensures ApplyProfileUpdates(u, map["preferences" := Obj(map["newsletter" := Str("false")])])
         == Some(u.(preferences := Preferences(false, true, Light)))
  {
    var f := map["newsletter" := Str("false")];
    assert Str("false") in CAST_FALSE;
    assert BoolPreference(f, "newsletter") == Some(false);
    assert PreferencesFrom(Obj(f)) == Some(Preferences(false, true, Light));
  }

  /** What the profile endpoints answer with. */
  datatype ProfileReply = ProfileReply(message: string, user: SafeUser)

  /** The store update both profile endpoints end with. A missing record or a
      value that fails casting or validation gives 500 and leaves the store
      unchanged; otherwise the record is updated and returned in its safe view. */
  method UpdateStoredProfile(users: seq<User>, meId: Id, updates: Body, now: Millis)
    returns (reply: Reply<ProfileReply>, users': seq<User>)
    ensures var i := FindUser(users, meId);
      && (i.None? || ApplyProfileUpdates(users[i.value], updates).None? ==>
            reply == Failure(500, "Failed to update profile") && users' == users)
      && (i.Some? && ApplyProfileUpdates(users[i.value], updates).Some? ==>
            var v := ApplyProfileUpdates(users[i.value], updates).value;
            && users' == users[i.value := v]
            && reply == Success(200, ProfileReply("Profile updated successfully", ToSafeObject(v, now))))
    ensures |users'| == |users|
    ensures forall j :: 0 <= j < |users| ==>
              users'[j].(name := users[j].name, bio := users[j].bio, preferences := users[j].preferences) == users[j]
    ensures forall j :: 0 <= j < |users| && users[j].id != meId ==> users'[j] == users[j]
  {
    var i := FindUser(users, meId);
    if i.None? {
      return Failure(500, "Failed to update profile"), users;
    }
    var updated := ApplyProfileUpdates(users[i.value], updates);
    if updated.None? {
      return Failure(500, "Failed to update profile"), users;
    }
    users' := users[i.value := updated.value];
    reply := Success(200, ProfileReply("Profile updated successfully", ToSafeObject(updated.value, now)));
  }

  /** `PUT /me/profile`: no request validation; whitelist, then store update.
      Role, email, password, activity, avatar, counters and timestamps of
      every record stay as they were, whatever the body holds. */
  method UpdateProfile(users: seq<User>, meId: Id, body: Body, now: Millis)
    returns (reply: Reply<ProfileReply>, users': seq<User>)
    ensures |users'| == |users|
    ensures forall j :: 0 <= j < |users| ==>
              users'[j].(name := users[j].name, bio := users[j].bio, preferences := users[j].preferences) == users[j]
    ensures forall j :: 0 <= j < |users| && users[j].id != meId ==> users'[j] == users[j]
    ensures reply.Failure? ==> reply == Failure(500, "Failed to update profile") && users' == users
    ensures var i := FindUser(users, meId);
      && (i.None? ==> reply.Failure?)
      && (i.Some? ==>
            (reply.Success? <==> forall k :: k in body && k in PROFILE_FIELDS ==> ProfileValueOk(k, body[k])))
      && (i.Some? && reply.Success? ==>
            var u := users[i.value];
            && users'[i.value].name == (if "name" in body then Trim(CastString(body["name"]).value) else u.name)
            && users'[i.value].bio == (if "bio" in body then CastString(body["bio"]).value else u.bio)
            && users'[i.value].preferences == (if "preferences" in body then PreferencesFrom(body["preferences"]).value
                                               else u.preferences)
            && reply.body.user == ToSafeObject(users'[i.value], now))
  {
    var updates := PickAllowed(body);
    reply, users' := UpdateStoredProfile(users, meId, updates, now);
  }

  /** The public profile as `res.json` serializes it: the selected paths
      plus the virtuals that `toJSON: { virtuals: true }` adds. */
  datatype PublicProfile = PublicProfile(id: Id, name: string, bio: string, avatar: Option<string>, createdAt: Millis,
                                         displayName: string, isLocked: bool)

  /** The document `findById(id).select('name bio avatar createdAt')` loads:
      only the selected paths are set, and a path the projection leaves out
      gets no schema default, so `isActive`, `email` and `lockUntil` are unset. */
  datatype ProjectedUser = ProjectedUser(id: Id, name: string, bio: string, avatar: Option<string>,
                                         createdAt: Millis, isActive: Option<bool>)

  function ProjectProfile(u: User): ProjectedUser {
    ProjectedUser(u.id, u.name, u.bio, u.avatar, u.createdAt, None)
  }

  /** Serializing a projected document. `isLocked` reads the unset
      `lockUntil` and is false. `displayName` is the name when it is not
      empty; otherwise it splits the unset `email`, which throws. */
  function SerializeProfile(p: ProjectedUser): (r: Option<PublicProfile>)
    ensures r.Some? <==> p.name != ""
    ensures r.Some? ==> r.value.displayName == r.value.name == p.name && !r.value.isLocked
    ensures r.Some? ==> r.value.(displayName := "", isLocked := false)
                        == PublicProfile(p.id, p.name, p.bio, p.avatar, p.createdAt, "", false)
  {
    if p.name != "" then Some(PublicProfile(p.id, p.name, p.bio, p.avatar, p.createdAt, p.name, false))
    else None
  }

  /** JavaScript truthiness of an optional boolean: `undefined` is falsy. */
  predicate Truthy(b: Option<bool>) {
    b.Some? && b.value
  }

  /** `GET /profile/:id` as written: the activity test reads the projected
      document, whose `isActive` is unset and so falsy, and every request is
      answered 404. */
  function GetPublicProfileAsWritten(users: seq<User>, id: Id): (r: Reply<PublicProfile>)
    ensures r == Failure(404, "User not found")
  {
    match FindUser(users, id)
    case None => Failure(404, "User not found")
    case Some(i) =>
      var p := ProjectProfile(users[i]);
      if !Truthy(p.isActive) then Failure(404, "User not found")
      else match SerializeProfile(p)
        case None => Failure(500, "Failed to get user profile")
        case Some(view) => Success(200, view)
  }

  /** An existing, active user with a name has their profile hidden by the
      route as written and shown by the intended one. */
  lemma ActiveProfileHiddenAsWritten(u: User)
    requires u.isActive && u.name != ""
    ensures GetPublicProfileAsWritten([u], u.id) == Failure(404, "User not found")
    ensures GetPublicProfile([u], u.id)
         == Success(200, PublicProfile(u.id, u.name, u.bio, u.avatar, u.createdAt, u.name, false))
  {
    assert FindUser([u], u.id) == Some(0);
  }

  /** `GET /profile/:id` as intended: 404 unless the user exists and is
      active. The reply shows the public fields, `displayName` (the full
      document's display name) and `isLocked` false, even for a locked
      account. A user without a name makes the serialization throw (500). */
  function GetPublicProfile(users: seq<User>, id: Id): (r: Reply<PublicProfile>)
    ensures FindUser(users, id).None? || !users[FindUser(users, id).value].isActive ==> r == Failure(404, "User not found")
    ensures FindUser(users, id).Some? && users[FindUser(users, id).value].isActive ==>
      var u := users[FindUser(users, id).value];
      && (u.name == "" ==> r == Failure(500, "Failed to get user profile"))
      && (u.name != "" ==> r == Success(200, PublicProfile(u.id, u.name, u.bio, u.avatar, u.createdAt,
                                                           DisplayName(u), false)))
  {
    match FindUser(users, id)
    case None => Failure(404, "User not found")
    case Some(i) =>
      var u := users[i];
      if !u.isActive then Failure(404, "User not found")
      else match SerializeProfile(ProjectProfile(u))
        case None => Failure(500, "Failed to get user profile")
        case Some(view) => Success(200, view)
  }
}
