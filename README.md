# Compassion Course content site: versioned content, login lock-out and access control

This project models the server side of the Compassion Course site, an Express
application over MongoDB (through Mongoose), together with the browser-side
Firestore content service. It covers three connected pieces of logic.

- **Content versioning.** A content item has a `version` counter and an
  append-only `history`. The Mongoose pre-save hook, `createBackup` and
  `restoreFromHistory` maintain them, and the admin routes create, update,
  delete and restore items through them. The Firestore `ContentService` has
  its own variant, in which every update is meant to take a snapshot. As
  written its update always fails (see "## Findings"), and the model keeps
  both that behaviour and the intended one. Its grouping and
  statistics folds are modelled too.
- **Login lock-out.** `isLocked`, `incLoginAttempts` and
  `resetLoginAttempts` on a user form a small state machine. The login route
  drives it in a fixed decision order.
- **Access control.**
  - Token extraction and `authenticateToken` / `optionalAuth`.
  - The role gates.
  - The admin guards on user status and role.
  - The field whitelists of every update route.
  - The public read routes.

One Dafny module per source file:

| module | file |
|---|---|
| `ContentModel` | `content_model.dfy` |
| `UserModel` | `user_model.dfy` |
| `AuthMiddleware` | `auth_middleware.dfy` |
| `AuthRoutes` | `auth_routes.dfy` |
| `UsersRoutes` | `users_routes.dfy` |
| `ContentRoutes` | `content_routes.dfy` |
| `AdminRoutes` | `admin_routes.dfy` |
| `FirebaseContent` | `firebase_content.dfy` |

Three helper modules support them:

- `Common`: `Option`, the JSON body `Value`, the HTTP `Reply`, `Filter`, `Select`, `FindFirst` and JavaScript `trim()`.
- `Sorting`: a stable sort by an integer key, standing for Mongoose `.sort`.
- `Grouping`: the fold that fills a plain JavaScript object keyed by section. It is modelled as an association list in insertion order, which is how such an object enumerates keys that are not array indices.

**Stores.**
- A Mongoose collection is a `seq` of records in natural order. A handler receives it and returns the new one, and `findOne`/`findById` take the first match.
- The Firestore collection is a `map` from document id to document.

**Documents.**
- A Mongoose document is a `class` whose methods update its fields in place: `ContentModel.ContentDoc` and `UserModel.UserDoc`.
- These classes keep the state Mongoose tracks beside the fields: `isNew`, the value as last stored (which decides `isModified`) and `_original_content`.
- The route handlers load such a document, mutate it and `save()` it, as the source does.

**Environment.**
- bcrypt is the pair of uninterpreted functions `hash` and `matches`.
- JWT decoding is a function returning the token's claims and whether its signature holds.
- The email format check and `normalizeEmail` are functions passed in.
- The clock is a parameter `now`, in milliseconds; token times are in seconds.

## Model

| member | source | states |
|---|---|---|
| Common.Trim | routes/auth.js:16 | `trim()` removes exactly the leading and trailing JavaScript whitespace: the result is the middle slice of the input and starts and ends with a non-space |
| Common.TrimIdempotent | routes/auth.js:178-184 | trimming twice (sanitizer, then the schema's `trim` setter) gives what trimming once gives |
| Common.TrimUnpadded | routes/auth.js:16 | a string with no white space at either end is its own trim |
| Common.IntToString | models/Content.js:137 | a number's string form is a sign exactly for negative numbers, followed by its digits |
| Common.NatToStringRoundTrip | models/Content.js:137 | reading the digits of a number's string form back gives the number |
| Common.CastString | models/User.js:5-10 | a String path takes a string as is and a number or boolean by its string form, and refuses an object or anything else |
| Common.CastBoolean | models/User.js:44-51 | a Boolean path takes `true`, "true", 1, "1", "yes" as true and `false`, "false", 0, "0", "no" as false, and refuses any other value |
| Common.SelectCommute | routes/admin.js:50 | selecting the items of one section and one order value gives the same items in either order |
| Sorting.SortBySortsAndPermutes | routes/admin.js:50 | a `.sort` returns the same items, as a multiset, ordered by the key |
| Sorting.SortByStable | routes/admin.js:50 | the sort is stable: the items of one key keep their relative order, so successive sorts give the compound `{ section, order, createdAt }` order |
| Grouping.GroupByGroups | routes/content.js:47-53 | the section fold lists each key once, puts under each key exactly the items with that key in input order (none empty), and every item's key has a group |
| Grouping.GroupByTotal | public/js/firebase-content.js:275-283 | the group sizes add up to the number of items, so no item is lost or duplicated |
| Grouping.CountByIsSizes | public/js/firebase-content.js:302-307 | the counting `forEach` gives, key by key and in the same order, the sizes of the groups the grouping fold builds |
| Grouping.GroupByKeysAscending | routes/content.js:42-53 | grouping a list sorted by an injective rank of its keys lists the keys once each, in strictly ascending rank |
| ContentModel.ParseType | models/Content.js:21-25 | the `type` enum accepts exactly the four type names |
| ContentModel.ParseSection | models/Content.js:26-40 | the `section` enum accepts exactly the nine section names |
| ContentModel.SectionRankIsNameOrder | routes/content.js:43 | the section rank orders sections exactly as MongoDB orders their names as strings |
| ContentModel.SaveVersioning | models/Content.js:86-99 | a save of an existing document whose body changed appends exactly one entry holding `_original_content` (or, when unset, the new body) at the pre-increment version and raises the version by exactly one; a new or unchanged document is saved as it is; earlier entries and all other fields are untouched |
| ContentModel.CreateBackupEffect | models/Content.js:115-124 | `createBackup` appends one entry with the current body, version and user, with the note defaulting to 'Manual backup', and leaves version and body alone |
| ContentModel.RestoreNetEffect | models/Content.js:127-148 | a valid restore first appends the backup of the current body and version, sets the body and the last modifier; because the body changed, the save hook then appends a second entry holding the restored body and the version rises by two (by one when the restored body equals the current one) |
| ContentModel.ContentDoc.Create | models/Content.js:3-77 | a new item is published, at version 1, with no history |
| ContentModel.ContentDoc.Save | models/Content.js:86-99 | the stored record after `save()` is the versioned one and the document is then neither new nor modified |
| ContentModel.ContentDoc.CreateBackup | models/Content.js:115-124 | the document holds the backed-up record saved through the hook; history only grows |
| ContentModel.ContentDoc.RestoreFromHistory | models/Content.js:127-148 | an index outside the history throws 'Invalid version index' and changes nothing; a valid one gives the restored record saved through the hook; history only grows |
| ContentModel.GetPublishedBySection | models/Content.js:102-107 | exactly the published items of that section, each as many times as it is stored, sorted by `order` |
| ContentModel.GetByKey | models/Content.js:110-112 | the query key is trimmed by the `trim` setter of the key path (line 8); a published item with the trimmed key, and none exactly when no published item has it |
| UserModel.ParseRole | models/User.js:25-29 | the role enum accepts exactly 'user', 'admin' and 'super-admin' |
| UserModel.ParseTheme | models/User.js:52-56 | the theme enum accepts exactly 'light', 'dark' and 'auto' |
| UserModel.DisplayName | models/User.js:82-84 | the name when non-empty, otherwise the part of the email before its first '@' |
| UserModel.FailedLoginEffect | models/User.js:116-133 | an expired lock is removed and the count restarts at 1; otherwise the count rises by exactly one, and a lock of now + 2 h is set only when the new count reaches 5 on an account not currently locked, so an active lock is never extended; no other field changes |
| UserModel.SuccessfulLoginEffect | models/User.js:136-141 | a reset clears the counter and the lock, stamps the login time, leaves the account unlocked and changes nothing else |
| UserModel.FailuresBelowLimit | models/User.js:116-133 | fewer than five failures from an unlocked record count each failure and set no lock |
| UserModel.FiveFailuresLock | models/User.js:116-133 | five failures from a clean record lock the account until two hours after the fifth, and it is locked throughout that window |
| UserModel.ToSafeObject | models/User.js:154-160 | the safe view carries every field but the password, the counter and the lock time, plus the two virtuals |
| UserModel.SafeObjectDropsOnlySecrets | models/User.js:154-160 | two records have the same safe view iff they agree on everything but the three secrets (and on the lock state the virtual reveals) |
| UserModel.FindActive | models/User.js:144-146 | exactly the active users |
| UserModel.FindByRole | models/User.js:149-151 | exactly the active users with that role |
| UserModel.UserDoc.Create | models/User.js:4-74 | a new user gets the schema defaults: active, empty bio, default preferences, no counters or lock |
| UserModel.UserDoc.Save | models/User.js:92-104 | the password is hashed when the document is new or the password changed since it was stored, and left as it is otherwise, so a stored hash is never hashed again |
| AuthMiddleware.Split | middleware/auth.js:9 | `split(' ')` yields at least one piece, none containing the separator |
| AuthMiddleware.JoinSplit | middleware/auth.js:9 | joining the pieces of a split gives the string back |
| AuthMiddleware.SplitJoin | middleware/auth.js:9 | splitting a join of separator-free pieces gives the pieces back |
| AuthMiddleware.ExtractToken | middleware/auth.js:8-9 | the non-empty `token` cookie, otherwise the second space-separated word of the Authorization header, otherwise none |
| AuthMiddleware.SchemeWordIgnored | middleware/auth.js:8-9 | the header `<scheme> <token>` yields the token whatever the scheme word is, 'Bearer' or not |
| AuthMiddleware.Verify | middleware/auth.js:18 | a token verifies iff it decodes, its signature holds and `exp` is still ahead; a valid signature past `exp` is expired; anything else is invalid |
| AuthMiddleware.GenerateClaims | middleware/auth.js:133-143 | an issued token names the user, is issued at the current second, expires 24 h later and carries the site's issuer and audience |
| AuthMiddleware.IssuedTokenLifetime | middleware/auth.js:133-143 | a properly signed issued token verifies to its user for 24 hours and is expired from then on |
| AuthMiddleware.IssuerAndAudienceIgnored | middleware/auth.js:18 | tokens whose claims differ only in issuer and audience verify alike |
| AuthMiddleware.AuthenticateToken | middleware/auth.js:5-55 | the rejections come in the order no token, invalid, expired, store failure (500), no such user, deactivated; the request passes on exactly when an existing active user is found, and only then is that user (without password) attached |
| AuthMiddleware.OptionalAuth | middleware/auth.js:111-130 | always passes the request on; attaches the user only when the token verifies to an existing active user, and otherwise leaves the request as it was |
| AuthMiddleware.RequireRole | middleware/auth.js:92-108 | passes iff there is a user whose role is listed; 401 without a user, 403 naming the roles otherwise |
| AuthMiddleware.RequireAdmin | middleware/auth.js:58-72 | passes iff the user is an admin or a super-admin; 401 without a user, 403 otherwise |
| AuthMiddleware.RequireSuperAdmin | middleware/auth.js:75-89 | passes iff the user is a super-admin; 401 without a user, 403 otherwise |
| AuthMiddleware.RoleGatesAgree | middleware/auth.js:58-108 | `requireAdmin` decides and answers with the same status as `requireRole(['admin','super-admin'])`, and `requireSuperAdmin` as `requireRole(['super-admin'])` |
| AuthMiddleware.CookieOptionsMatch | middleware/auth.js:146-166 | setting and clearing the cookie use the same `httpOnly`, `secure`, `sameSite` and `path`; only setting carries a lifetime, 24 h, the token's own |
| AuthRoutes.PasswordRuleAccepts | routes/auth.js:23-27 | for every password without line breaks: it passes iff it has at least six characters, a lowercase and an uppercase letter and a digit |
| AuthRoutes.PasswordRuleFirstLineOnly | routes/auth.js:23-27 | for every password with a line break: it passes iff it has at least six characters and its first line has the three classes; what follows the break counts only for the length |
| AuthRoutes.PasswordRuleExample | routes/auth.js:23-27 | "Secret1" passes the rule |
| AuthRoutes.PasswordRuleSecondLineDigit | routes/auth.js:23-27 | "Secret\n1", the same characters with the digit on a second line, fails the rule |
| AuthRoutes.Register | routes/auth.js:41-88 | validation failure gives 400 and a taken email 409, both with no user created; otherwise exactly one user is added, always with role 'user', the hashed password, the normalised email and the defaults, and a 24-hour token is issued |
| AuthRoutes.Login | routes/auth.js:91-152 | in order: 400; unknown email 401; locked 423 with nothing counted even for the right password; deactivated 401; a wrong password gives the same 401 words as an unknown email and records exactly one failed attempt; the right one resets the counters and issues a token |
| AuthRoutes.SanitizerString | routes/auth.js:175-184 | the string the sanitizer and length validator see: a string as is, a number or boolean as its cast string, an object as "[object Object]", `null` as "" |
| AuthRoutes.Sanitized | routes/auth.js:175-184 | the sanitizers replace `name` and `bio`, whatever their type, by their trimmed string and leave every other key as it is |
| AuthRoutes.NonStringsTrimmed | routes/auth.js:175-184 | the trimmed strings of the number 42 and of `null` are "42" and "" |
| AuthRoutes.MeNonStringsValid | routes/auth.js:175-184 | `{"name": 42, "bio": null}` passes the validators |
| AuthRoutes.MeNonStringsSanitized | routes/auth.js:175-184 | `{"name": 42, "bio": null}` reaches the store as `{"name": "42", "bio": ""}` |
| AuthRoutes.MeUpdateAccepted | routes/auth.js:175-222 | on a body that passes the validators, the store update refuses only a `preferences` value that is not an object |
| AuthRoutes.UpdateMe | routes/auth.js:175-234 | invalid input gives 400 with nothing changed; on valid input an existing requester's update succeeds iff `preferences` is absent or an object, and then stores the trimmed strings the sanitizers made of name and bio and the given preferences; only these three fields of the requester can change, and every other field of every user stays |
| AuthRoutes.ChangePassword | routes/auth.js:237-282 | 400 for invalid input; 500 for a vanished account; a wrong current password gives 401 and changes nothing; otherwise only the password changes, stored hashed |
| UsersRoutes.PickAllowed | routes/users.js:37-45 | the loop copies exactly the whitelisted keys the body has, with their values |
| UsersRoutes.BoolPreference | models/User.js:44-51 | a preference flag is true when absent or given a true-like value, false for a false-like value, and refused otherwise |
| UsersRoutes.ThemePreference | models/User.js:52-56 | the theme is 'light' when absent and otherwise accepted iff it is a string in the enum |
| UsersRoutes.PreferencesFrom | models/User.js:43-57 | a preferences value is stored iff it is an object whose flags cast to booleans and whose theme is in the enum; each flag is then true when absent or true-like, and the theme 'light' when absent |
| UsersRoutes.ApplyProfileUpdates | routes/users.js:47-51 | the update succeeds iff every whitelisted value casts and validates; then only name (cast, then trimmed), bio (cast) and preferences change |
| UsersRoutes.NumberNameCast | routes/users.js:47-51 | a number given for the name is stored as its digits, not refused |
| UsersRoutes.StringFlagCast | routes/users.js:47-51 | the string "false" for the newsletter flag is stored as false, not refused |
| UsersRoutes.UpdateStoredProfile | routes/users.js:47-60 | a missing user or a rejected value gives 500 with the store unchanged; otherwise that user is replaced by the updated record and shown in its safe view; no other user and no other field changes |
| UsersRoutes.UpdateProfile | routes/users.js:35-61 | for an existing user, success iff every whitelisted field of the body casts and validates, and then the cast values are stored; role, email, password, activity and all other fields of every user stay, whatever the body holds |
| UsersRoutes.SerializeProfile | models/User.js:70-89 | `toJSON` with virtuals on the projected document: `isLocked` is false, `displayName` is the name, and an empty name throws because `email` is not loaded |
| UsersRoutes.GetPublicProfile | routes/users.js:8-22 | as intended: 404 unless the user exists and is active; otherwise id, name, bio, avatar and creation time, plus the virtuals `displayName` (equal to the full document's) and `isLocked` (false even for a locked account); 500 for an empty name |
| UsersRoutes.GetPublicProfileAsWritten | routes/users.js:10-15 | as written, the activity test reads a document projected without `isActive`, so every request gets 404 |
| UsersRoutes.ActiveProfileHiddenAsWritten | routes/users.js:10-15 | an existing active user with a name is refused by the route as written and shown by the intended one |
| ContentRoutes.SectionEndpoint | routes/content.js:8-19 | exactly the published items of that section, sorted by `order` |
| ContentRoutes.KeyEndpoint | routes/content.js:22-37 | 404 'Content not found' iff no published item has the trimmed key; otherwise a published item with it |
| ContentRoutes.PaddedKeyFound | routes/content.js:22-37 | `GET /key/%20about` serves the published item stored under "about" |
| ContentRoutes.AllPublishedFacts | routes/content.js:42-44 | the sorted list holds exactly the published items, without history or last modifier, one per stored item, ordered by section |
| ContentRoutes.AllContentSectionOrder | routes/content.js:42-53 | the grouped reply lists each section once, in strictly ascending section rank |
| ContentRoutes.AllContentNameOrder | routes/content.js:42-53 | the grouped reply lists the sections in the string order of their names, the order the query's `section` sort gives |
| ContentRoutes.AllContentGroupsSorted | routes/content.js:40-60 | each section's list is non-empty and sorted by `order` |
| ContentRoutes.AllContentGroupsExact | routes/content.js:40-60 | each section lists exactly the published items of that section |
| ContentRoutes.AllContentCovers | routes/content.js:40-60 | every published item's section is present among the groups |
| ContentRoutes.AllContentTotal | routes/content.js:40-60 | the groups hold as many items as are published, so none is listed twice |
| FirebaseContent.CreatedContent | public/js/firebase-content.js:143-154 | `isPublished` is true unless explicitly false; `order` defaults to 0 and `type` to 'text'; version 1, empty history, created and last modified by the caller |
| FirebaseContent.CreateContent | public/js/firebase-content.js:141-169 | the created document is stored under a fresh id and no other document changes |
| FirebaseContent.GetContentById | public/js/firebase-content.js:119-138 | the stored document, or 'Content not found' exactly when the id is absent |
| FirebaseContent.PreviousVersion | public/js/firebase-content.js:185 | `version \|\| 1`: the stored version unless it is absent or 0 |
| FirebaseContent.UpdateContentAsWritten | public/js/firebase-content.js:172-207 | as written, every call fails and writes nothing: 'Content not found' for a missing id, the SDK's refusal of a `serverTimestamp()` inside an array for an existing one |
| FirebaseContent.UpdateRefusedAsWritten | public/js/firebase-content.js:183-200 | for every existing document the written update fails with the store unchanged, where the corrected one succeeds and changes the document |
| FirebaseContent.UpdateContent | public/js/firebase-content.js:172-207 | corrected (client timestamp in the history entry): a missing id returns the not-found result and writes nothing; otherwise only that document is replaced by its update |
| FirebaseContent.UpdateSnapshots | public/js/firebase-content.js:183-198 | in the corrected write, every update appends exactly one entry with the previous body and version (1 when missing), attributed to the caller, and raises the version by one whether or not the body changed; the creation fields stay unless the caller supplies them |
| FirebaseContent.UpdateIgnoresBookkeeping | public/js/firebase-content.js:192-198 | a caller's `version`, `history`, `lastModifiedBy` and `updatedAt` are always overridden |
| FirebaseContent.TwoUpdates | public/js/firebase-content.js:172-207 | in the corrected write, two updates leave two entries, the second holding the first update's body, and raise the version by two |
| FirebaseContent.DeleteContent | public/js/firebase-content.js:210-218 | exactly that id is removed, every other document stays |
| FirebaseContent.GroupContentBySection | public/js/firebase-content.js:275-283 | the reduce puts every item exactly once under its own section, in input order, and the group sizes add up to the number of items |
| FirebaseContent.GetContentStats | public/js/firebase-content.js:286-314 | a failed read is passed on; otherwise published + unpublished = total, and the per-section counts are the group sizes and add up to total |
| AdminRoutes.AdminGate | routes/admin.js:10-11 | a handler runs iff the request authenticates to an existing active user who is an admin or super-admin |
| AdminRoutes.BuildContentFilter | routes/admin.js:44-46 | a non-empty section filters by section; a present `published` selects published items only for the literal 'true' |
| AdminRoutes.ListContent | routes/admin.js:40-57 | exactly the matching items, as a multiset, ordered by section, by `order` within a section, and newest first within equal section and order |
| AdminRoutes.TiesNewestFirst | routes/admin.js:50 | the three stable sorts leave the items of one section and one order value newest first |
| AdminRoutes.SectionGroupsOrdered | routes/admin.js:50 | sorting by section keeps each section's items in `order` order |
| AdminRoutes.CreateType | routes/admin.js:107 | the type defaults to 'text' when absent; a given type is accepted iff it is a string in the enum, and is then that type |
| AdminRoutes.CreateContent | routes/admin.js:75-140 | 400 for a bad key, title, body, section or order; 409 for a taken key; 500 for a type outside the enum; all with nothing created; otherwise exactly one published item at version 1 with empty history, trimmed fields, `order` 0 and type 'text' by default and the requester as last modifier |
| AdminRoutes.PatchedStep | routes/admin.js:191-196 | one round of the whitelist loop assigns the next field when the body has it and extends the patch by that field |
| AdminRoutes.AssignField | routes/admin.js:193-195 | assigning one field changes that field of the document and nothing else |
| AdminRoutes.UpdateContent | routes/admin.js:142-214 | 400, then 404 for a missing id, then 500 for a bad type, each with the store unchanged; otherwise only that item is replaced by the patched record saved through the hook |
| AdminRoutes.UpdateContentEffect | routes/admin.js:182-199 | each whitelisted field the body holds is copied (trimmed where sanitized), every other field stays, the requester becomes last modifier; a changed body adds one entry with the body as it was before the request and raises the version by one, otherwise history and version stay |
| AdminRoutes.DeleteContent | routes/admin.js:216-230 | 404 for a missing id; otherwise exactly that item is removed and the rest keep their order |
| AdminRoutes.RestoreContent | routes/admin.js:251-272 | 404 for a missing id; a non-number or out-of-range index gives 500 'Invalid version index' with nothing changed; otherwise that item is replaced by the restored record saved through the hook |
| AdminRoutes.BuildUserFilter | routes/admin.js:279-281 | a non-empty role filters by role; a present `active` selects active users only for the literal 'true' |
| AdminRoutes.CeilDiv | routes/admin.js:295 | `Math.ceil(total / limit)` for either sign of the limit |
| AdminRoutes.ListedViews | routes/admin.js:283-284 | each listed user is shown as its safe view, read without the lock time |
| AdminRoutes.PageWindow | routes/admin.js:286-287 | the page skips `(page-1)*limit` users and shows at most `limit` of the rest (all of them for limit 0) |
| AdminRoutes.ListUsers | routes/admin.js:275-303 | page 1 and limit 50 by default; a negative skip gives 500; otherwise the total counts the matching users, `pages` is the ceiling of total over limit (null for limit 0), and the page holds the matching users, newest first, from position `(page-1)*limit` on, at most `limit` of them |
| AdminRoutes.ListUsersOrder | routes/admin.js:283-285 | the listed users are exactly the matching ones, newest first |
| AdminRoutes.ToggleStatus | routes/admin.js:321-344 | 404 for a missing user; 403 with no change for a super-admin; otherwise only `isActive` is negated, so a second toggle restores the record |
| AdminRoutes.ChangeRole | routes/admin.js:346-381 | the role is checked against the enum (400) before the permission check (403 unless the requester is a super-admin), then 404; only then does the role, and nothing else, change |

## Left out

- bcrypt hashing and comparison are the uninterpreted `hash` and `matches`. JWT signing and secret handling are a `decode` function giving claims and signature validity.
- The email format check and `normalizeEmail` are function parameters. The schema's `lowercase` and `trim` setters on `email` (models/User.js:15-16) also run on save and on the `findOne({ email })` filter. The model does not apply them. This matters only if `normalizeEmail` gave an upper-case or padded address, and express-validator's `normalizeEmail` lower-cases by default, after `isEmail` has refused any white space. The email regular expressions of the schema and of express-validator are not modelled.
- The clock is the parameter `now`.
- The save hook's `modifiedAt: this.updatedAt || new Date()` (models/Content.js:93) is the same `now`. The model does not tell the record's last `updatedAt` from the current time.
- Firestore `serverTimestamp()` on a document field is the same `now`. So is the client timestamp the corrected `FirebaseContent.UpdateContent` puts in its history entry.
- `FirebaseContent.UpdateContentAsWritten` gives only the reason of the SDK's error message. The location suffix the SDK appends to it is not modelled.
- Store failures are not modelled. The exception is the database failure inside `authenticateToken`, the flag `dbError`. Any other thrown error (a lost connection, a duplicate-key index violation on update) would give the route's 500 and is not modelled.
- The unique indexes on content `key` and user `email` are not modelled. Only the explicit existence checks in create and register are.
- `populate`, the reply `message` wrappers and the `details` array of a 400 are not modelled. A reply carries the status and the record or error text.
- Request bodies are JSON values. express-validator's acceptance of numeric or boolean strings (`"5"`, `"true"`) is not modelled: only JSON integers and booleans pass those validators.
- The Mongoose casts are modelled for the User schema's String and Boolean paths, which `PUT /me/profile` relies on without validators. They are not modelled for the Content schema: there the admin validators and assignments take only values of the field's own JSON type.
- `Common.CastString` renders every integer in plain digits. JavaScript switches to exponent notation from 10^21, so larger numbers given for a name or bio are not modelled. Neither are fractions or arrays, which `Value.Other` stands for. A `null` is also `Other`: the model refuses it, where Mongoose would store a null bio.
- `Grouping`: a JavaScript object enumerates array-index keys (`"2"`, `"10"`) first, in numeric order, before the other keys in insertion order. The model keeps insertion order for every key. This is exact for the content section enum. A Firestore section named by a number would be listed in another order by `GroupContentBySection` and `GetContentStats`, which the model does not capture.
- `FirebaseContent.GroupContentBySection`: a section named like an inherited `Object.prototype` property (`"constructor"`, `"__proto__"`, `"toString"` and the like) is not modelled. The reduce finds the inherited value, which is truthy, so no array is made, and `.push` then throws a TypeError. The model groups such a section like any other.
- `FirebaseContent.GetContentStats`: the same sections are not modelled. For `"__proto__"` the `++` assigns NaN to the prototype slot, which is ignored, so those items are not counted and the per-section counts no longer add up to `total`. For `"constructor"` and the other inherited names, the count becomes NaN. The model counts them like any other section and keeps `Total(bySection) == total`.
- String lengths are counted in characters everywhere. express-validator's `isLength` counts code points and skips the variation selectors U+FE0E and U+FE0F. The schemas' `maxlength` (models/Content.js:9,15; models/User.js:9,40) counts UTF-16 code units. A key, title, name or bio with characters outside the Basic Multilingual Plane can pass the validator and still exceed `maxlength`. The save then throws and the route answers 500. The members below store such strings instead:
- `AdminRoutes.CreateContent` does not model the 500 for a key or title over `maxlength` in UTF-16 units.
- `AdminRoutes.UpdateContent` does not model the 500 for a key or title over `maxlength` in UTF-16 units.
- `AuthRoutes.Register` does not model the 500 for a name over `maxlength` in UTF-16 units.
- `AuthRoutes.UpdateMe` does not model the 500 for a name or bio over `maxlength` in UTF-16 units.
- `UsersRoutes.UpdateProfile` does not model the refusal of a name or bio over `maxlength` in UTF-16 units.
- `AuthRoutes.UpdateMe`: `Value.Other` is read as `null`, which the sanitizer turns into "". Fractions and arrays, which `Other` also stands for, are not modelled. The sanitizer would give their `String()` or the first element's string.
- Concurrent requests racing on the same document are not modelled: each handler runs alone.
- The Firestore query and subscription methods (`getAllContent`, `getPublishedContent`, `getContentBySection`, the `subscribe` listeners) are query and listener plumbing and are left out. `GetContentStats` takes the result of `getAllContent` as its input.
- `FirebaseContent.CreatedContent`: a missing `section` and a non-boolean `isPublished` in the caller's data are not modelled.
- `FirebaseContent.UpdateContent`: the SDK's rejection of an `undefined` body inside the history entry is not modelled. The entry keeps the body as absent.
- `FirebaseContent.TwoUpdates` requires a stored version that is absent or not negative. A version of -1 is bumped to 0, which `|| 1` then reads as 1, so the two-update count does not hold for it. The service never writes a negative version.
- The admin `GET /stats`, `GET /content/:id`, `GET /content/:id/history` and `GET /users/:id` routes only read a record and reply with it. They are not modelled. Their data comes from `ContentModel.FindContent`, `UserModel.FindUser` and the record's `history` field.
- `POST /logout`, `GET /me`, `GET /me/profile` and `POST /refresh` only clear a cookie, return `ToSafeObject` or reissue the claims of `GenerateClaims`. They are not modelled as handlers.
- Mongoose `.select` projections are not modelled, except where the reply's shape depends on them:
  - the public listing drops history and last modifier;
  - the public profile shows only its four fields and the two virtuals;
  - the admin user listing shows the safe view without the lock.
- `AdminRoutes.ListUsers`: ties between users with the same creation time keep the store's natural order, which MongoDB does not promise.
- `AdminRoutes.ListUsers` does not model non-numeric `page` or `limit` query strings. Those make `parseInt` give NaN and `limit * 1` give NaN.
- `AdminRoutes.ListContent`: the tie order of equal `(section, order, createdAt)` keys is the store's natural order, which MongoDB does not promise.
- The content fields under `metadata` other than `lastModifiedBy` (`description`, `keywords`, `author`) are not modelled. Neither are the `timestamps` field `updatedAt` of Mongoose records nor the `keywords` of content.
- The front-end scripts, the Firestore auth wrapper, the configuration, the server bootstrap, rate limiting and database seeding are not modelled.

## Findings

| source | as written | input that shows it | evidently intended | confidence | as-written member | corrected member |
|---|---|---|---|---|---|---|
| public/js/firebase-content.js:183-200 | the history entry appended to the `history` array carries `modifiedAt: serverTimestamp()`. The Firestore SDK refuses a `serverTimestamp()` sentinel inside an array, so `updateDoc` throws and the catch returns `success: false` | `updateContent(id, {title: "x"}, uid)` for any existing `id`: the result is a failure and nothing is written | the entry is stamped with a client timestamp (`Timestamp.now()`), and the update is written with its snapshot | high, not executed (rests on the SDK's refusal of sentinels inside arrays) | FirebaseContent.UpdateContentAsWritten, FirebaseContent.UpdateRefusedAsWritten | FirebaseContent.UpdateContent |
| routes/users.js:10-15 | the user is loaded with `.select('name bio avatar createdAt')`, which leaves `isActive` unset, and then `!user.isActive` is tested, so the test always fails | any existing user with `isActive` true: the route answers 404 'User not found' | 404 only for a missing or deactivated user, otherwise the four public fields and the virtuals | medium, not executed (depends on Mongoose giving no default to a path a projection leaves out) | UsersRoutes.GetPublicProfileAsWritten, UsersRoutes.ActiveProfileHiddenAsWritten | UsersRoutes.GetPublicProfile |
