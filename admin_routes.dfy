/** routes/admin.js: the admin gate, content management (list, create,
    update, delete, restore) and user management (list, toggle-status, role
    change). The two collections are sequences in natural order, passed in
    and returned. */
module AdminRoutes {
  import opened Common
  import opened Sorting
  import opened ContentModel
  import opened UserModel
  import opened AuthMiddleware

  /** `router.use(authenticateToken); router.use(requireAdmin)`: a handler
      runs only for an authenticated, active admin or super-admin. */
  method AdminGate(req: Request, decode: string -> Option<Decoded>, users: seq<User>,
                   dbError: bool, nowSeconds: int) returns (outcome: Outcome)
    modifies req
    ensures var s := SessionUser(ExtractToken(req.cookieToken, req.authorization), decode, users, nowSeconds);
      && (outcome == Next <==> !dbError && s.Some? && (s.value.role == AdminRole || s.value.role == SuperAdminRole))
      && (outcome == Next ==> req.user == s)
  {
    outcome := AuthenticateToken(req, decode, users, dbError, nowSeconds);
    if outcome == Next {
      outcome := RequireAdmin(req.user);
    }
  }

  // ---------------------------------------------------------------- content

  /** The query filter of `GET /content`. */
  datatype ContentQuery = ContentQuery(section: Option<string>, isPublished: Option<bool>)

  /** Builds the filter field by field: a non-empty `section` is matched
      exactly; a present `published` selects published items only when it is
      the literal "true", and unpublished ones for any other text. */
  method BuildContentFilter(section: Option<string>, published: Option<string>) returns (f: ContentQuery)
    ensures f.section == if section.Some? && section.value != "" then section else None
    ensures f.isPublished.Some? <==> published.Some?
    ensures f.isPublished == Some(true) <==> published == Some("true")
  {
    f := ContentQuery(None, None);
    if section.Some? && section.value != "" {
      f := f.(section := section);
    }
    if published.Some? {
      f := f.(isPublished := Some(published.value == "true"));
    }
  }

  predicate MatchesContent(f: ContentQuery, d: ContentRecord) {
    && (f.section.Some? ==> SectionName(d.section) == f.section.value)
    && (f.isPublished.Some? ==> d.isPublished == f.isPublished.value)
  }

  function SectionRankOf(d: ContentRecord): int {
    SectionRank(d.section)
  }

  function NewestFirst(d: ContentRecord): int {
    -d.createdAt
  }

  /** `Content.find(filter).sort({ section: 1, order: 1, createdAt: -1 })`:
      exactly the matching items, ordered by section, by `order` within a
      section, and newest first within equal section and order. */
  function ListContent(docs: seq<ContentRecord>, f: ContentQuery): (r: seq<ContentRecord>)
    ensures multiset(r) == multiset(Filter(docs, (d: ContentRecord) => MatchesContent(f, d)))
    ensures forall d :: d in r <==> d in docs && MatchesContent(f, d)
    ensures SortedBy(r, SectionRankOf)
    ensures forall c :: SortedBy(Select(r, SectionRankOf, c), OrderOf)
    ensures forall c, o :: SortedBy(Select(Select(r, SectionRankOf, c), OrderOf, o), NewestFirst)
  {
    var m := Filter(docs, (d: ContentRecord) => MatchesContent(f, d));
    var byOrder := SortBy(SortBy(m, NewestFirst), OrderOf);
    SortBySortsAndPermutes(m, NewestFirst);
    SortBySortsAndPermutes(SortBy(m, NewestFirst), OrderOf);
    SortBySortsAndPermutes(byOrder, SectionRankOf);
    var r := SortBy(byOrder, SectionRankOf);
    assert forall d :: d in r <==> d in multiset(r);
    assert forall d :: d in m <==> d in multiset(m);
    SectionGroupsOrdered(byOrder);
    TiesNewestFirst(m);
    r
  }

  /** After the three stable sorts, the items of one section and one order
      value keep the newest-first order of the first sort. */
  lemma TiesNewestFirst(m: seq<ContentRecord>)
    ensures var r := SortBy(SortBy(SortBy(m, NewestFirst), OrderOf), SectionRankOf);
      forall c, o :: SortedBy(Select(Select(r, SectionRankOf, c), OrderOf, o), NewestFirst)
  {
    var byNew := SortBy(m, NewestFirst);
    var byOrder := SortBy(byNew, OrderOf);
    var r := SortBy(byOrder, SectionRankOf);
    SortBySortsAndPermutes(m, NewestFirst);
    forall c, o ensures SortedBy(Select(Select(r, SectionRankOf, c), OrderOf, o), NewestFirst) {
      SortByStable(byOrder, SectionRankOf, c);
      SelectCommute(byOrder, SectionRankOf, c, OrderOf, o);
      SortByStable(byNew, OrderOf, o);
      SelectSorted(byNew, OrderOf, o, NewestFirst);
      SelectSorted(Select(byNew, OrderOf, o), SectionRankOf, c, NewestFirst);
    }
  }

  lemma SectionGroupsOrdered(s: seq<ContentRecord>)
    requires SortedBy(s, OrderOf)
    ensures forall c :: SortedBy(Select(SortBy(s, SectionRankOf), SectionRankOf, c), OrderOf)
  {
    forall c ensures SortedBy(Select(SortBy(s, SectionRankOf), SectionRankOf, c), OrderOf) {
      SortByStable(s, SectionRankOf, c);
      SelectSorted(s, SectionRankOf, c, OrderOf);
    }
  }

  predicate KeyChar(c: char) {
    ('a' <= c <= 'z') || ('0' <= c <= '9') || c == '-' || c == '_'
  }

  /** A trimmed key: 1 to 100 characters from `[a-z0-9-_]`. */
  predicate ValidKey(k: string) {
    1 <= |k| <= 100 && forall i :: 0 <= i < |k| ==> KeyChar(k[i])
  }

  predicate ValidTitle(v: Value) { v.Str? && 1 <= |Trim(v.s)| <= 200 }
  predicate ValidBody(v: Value) { v.Str? && |Trim(v.s)| >= 1 }
  predicate ValidSection(v: Value) { v.Str? && ParseSection(v.s).Some? }
  predicate ValidOrder(v: Value) { v.Int? && v.n >= 0 }
  predicate ValidKeyValue(v: Value) { v.Str? && ValidKey(Trim(v.s)) }

  /** The validators of `POST /content`; `type` has none. */
  predicate CreateBodyValid(body: Body) {
    && "key" in body && ValidKeyValue(body["key"])
    && "title" in body && ValidTitle(body["title"])
    && "content" in body && ValidBody(body["content"])
    && "section" in body && ValidSection(body["section"])
    && ("order" in body ==> ValidOrder(body["order"]))
  }

  /** The type a created item gets: 'text' when absent, otherwise the value
      if it passes the schema enum. */
  function CreateType(body: Body): (r: Option<ContentType>)
    ensures "type" !in body ==> r == Some(Text)
    ensures "type" in body ==> (r.Some? <==> body["type"].Str? && ParseType(body["type"].s).Some?)
    ensures "type" in body && r.Some? ==> body["type"] == Str(TypeName(r.value))
  {
    if "type" !in body then Some(Text)
    else if body["type"].Str? then ParseType(body["type"].s)
    else None
  }

  /** `findOne({ key })`, whose key the path's `trim` setter trims first. */
  function FindKey(docs: seq<ContentRecord>, key: string): (r: Option<nat>)
    ensures r.Some? ==> r.value < |docs| && docs[r.value].key == Trim(key)
    ensures r.None? <==> forall j :: 0 <= j < |docs| ==> docs[j].key != Trim(key)
  {
    FindFirst(docs, (d: ContentRecord) => d.key == Trim(key))
  }

  /** `POST /content`. In order: validation (400); a taken key (409); a
      `type` outside the enum fails the save (500). All three leave the store
      unchanged. Otherwise a new published item at version 1 with no history
      is stored, with the trimmed key, title and body, `order` 0 and type
      'text' by default, and the requester as last modifier; an
      `isPublished` in the body is ignored. */
  method CreateContent(docs: seq<ContentRecord>, body: Body, requesterId: Id, newId: Id, now: Millis)
    returns (reply: Reply<ContentRecord>, docs': seq<ContentRecord>)
    requires forall j :: 0 <= j < |docs| ==> docs[j].id != newId
    ensures !CreateBodyValid(body) ==> reply == Failure(400, "Validation failed") && docs' == docs
    ensures CreateBodyValid(body) ==>
      var key := Trim(body["key"].s);
      && (FindKey(docs, key).Some? ==>
            reply == Failure(409, "Content with this key already exists") && docs' == docs)
      && (FindKey(docs, key).None? && CreateType(body).None? ==>
            reply == Failure(500, "Failed to create content") && docs' == docs)
      && (FindKey(docs, key).None? && CreateType(body).Some? ==>
            var created := ContentRecord(newId, key, Trim(body["title"].s), Trim(body["content"].s),
                                         CreateType(body).value, ParseSection(body["section"].s).value, true,
                                         if "order" in body then body["order"].n else 0,
                                         Some(requesterId), 1, [], now);
            && docs' == docs + [created]
            && reply == Success(201, created))
  {
    if !CreateBodyValid(body) {
      return Failure(400, "Validation failed"), docs;
    }
    var key := Trim(body["key"].s);
    if FindKey(docs, key).Some? {
      return Failure(409, "Content with this key already exists"), docs;
    }
    var ctype := CreateType(body);
    if ctype.None? {
      return Failure(500, "Failed to create content"), docs;
    }
    var order := if "order" in body then body["order"].n else 0;
    var doc := new ContentDoc.Create(newId, key, Trim(body["title"].s), Trim(body["content"].s), ctype.value,
                                     ParseSection(body["section"].s).value, order, Some(requesterId), now);
    doc.Save(now);
    docs' := docs + [doc.Record()];
    reply := Success(201, doc.Record());
  }

  /** The fields `PUT /content/:id` may copy from the body. */
  datatype Field = KeyField | TitleField | BodyField | SectionField | OrderField | PublishedField | TypeField

  /** The body key of each field. */
  function FieldName(f: Field): string {
    match f
    case KeyField => "key"
    case TitleField => "title"
    case BodyField => "content"
    case SectionField => "section"
    case OrderField => "order"
    case PublishedField => "isPublished"
    case TypeField => "type"
  }

  /** The whitelist, in the order the handler walks it. */
  const CONTENT_FIELDS: seq<Field> := [KeyField, TitleField, BodyField, SectionField, OrderField, PublishedField, TypeField]

  /** The validators of `PUT /content/:id`, each skipped when its field is
      absent; `type` has none. */
  predicate UpdateBodyValid(body: Body) {
    && ("key" in body ==> ValidKeyValue(body["key"]))
    && ("title" in body ==> ValidTitle(body["title"]))
    && ("content" in body ==> ValidBody(body["content"]))
    && ("section" in body ==> ValidSection(body["section"]))
    && ("order" in body ==> ValidOrder(body["order"]))
    && ("isPublished" in body ==> body["isPublished"].Bool?)
  }

  /** A `type` in the body passes the schema enum when the document is saved. */
  predicate UpdateTypeOk(body: Body) {
    "type" !in body || (body["type"].Str? && ParseType(body["type"].s).Some?)
  }

  /** `content[field] = value` for a value that passed validation; the
      string fields hold the value the `trim()` sanitizer left in the body. */
  function AssignedField(r: ContentRecord, field: Field, v: Value): ContentRecord {
    match field
    case KeyField => if v.Str? then r.(key := Trim(v.s)) else r
    case TitleField => if v.Str? then r.(title := Trim(v.s)) else r
    case BodyField => if v.Str? then r.(content := Trim(v.s)) else r
    case SectionField => if v.Str? && ParseSection(v.s).Some? then r.(section := ParseSection(v.s).value) else r
    case OrderField => if v.Int? then r.(order := v.n) else r
    case PublishedField => if v.Bool? then r.(isPublished := v.b) else r
    case TypeField => if v.Str? && ParseType(v.s).Some? then r.(ctype := ParseType(v.s).value) else r
  }

  /** The record after the first `n` rounds of the `allowedUpdates.forEach`
      loop: each of the first `n` whitelisted fields holds the body's value
      when the body has one of the right kind, every other field is as it
      was. */
  function PatchedUpTo(r: ContentRecord, body: Body, n: nat): ContentRecord
    requires n <= |CONTENT_FIELDS|
  {
    r.(key := if 0 < n && "key" in body && body["key"].Str? then Trim(body["key"].s) else r.key,
       title := if 1 < n && "title" in body && body["title"].Str? then Trim(body["title"].s) else r.title,
       content := if 2 < n && "content" in body && body["content"].Str? then Trim(body["content"].s) else r.content,
       section := if 3 < n && "section" in body && body["section"].Str? && ParseSection(body["section"].s).Some?
                  then ParseSection(body["section"].s).value else r.section,
       order := if 4 < n && "order" in body && body["order"].Int? then body["order"].n else r.order,
       isPublished := if 5 < n && "isPublished" in body && body["isPublished"].Bool? then body["isPublished"].b
                      else r.isPublished,
       ctype := if 6 < n && "type" in body && body["type"].Str? && ParseType(body["type"].s).Some?
                then ParseType(body["type"].s).value else r.ctype)
  }

  /** The record after the whole loop. */
  function Patched(r: ContentRecord, body: Body): ContentRecord {
    PatchedUpTo(r, body, |CONTENT_FIELDS|)
  }

  /** One round of the loop: assigning the next whitelisted field, when the
      body has it, extends the patch by that field. */
  lemma PatchedStep(r: ContentRecord, body: Body, n: nat)
    requires n < |CONTENT_FIELDS|
    ensures var f := CONTENT_FIELDS[n];
      PatchedUpTo(r, body, n + 1)
        == if FieldName(f) in body then AssignedField(PatchedUpTo(r, body, n), f, body[FieldName(f)])
           else PatchedUpTo(r, body, n)
  {
    if n < 3 {
      PatchedStepText(r, body, n);
    } else if n < 5 {
      PatchedStepPlace(r, body, n);
    } else {
      PatchedStepKind(r, body, n);
    }
  }

  /** The rounds of the three text fields. */
  lemma PatchedStepText(r: ContentRecord, body: Body, n: nat)
    requires n < 3
    ensures var f := CONTENT_FIELDS[n];
      PatchedUpTo(r, body, n + 1)
        == if FieldName(f) in body then AssignedField(PatchedUpTo(r, body, n), f, body[FieldName(f)])
           else PatchedUpTo(r, body, n)
  {
    var p := PatchedUpTo(r, body, n);
    var q := PatchedUpTo(r, body, n + 1);
    if n == 0 {
      assert q == if "key" in body && body["key"].Str? then p.(key := Trim(body["key"].s)) else p;
    } else if n == 1 {
      assert q == if "title" in body && body["title"].Str? then p.(title := Trim(body["title"].s)) else p;
    } else {
      assert q == if "content" in body && body["content"].Str? then p.(content := Trim(body["content"].s)) else p;
    }
  }

  /** The rounds of section and order. */
  lemma PatchedStepPlace(r: ContentRecord, body: Body, n: nat)
    requires 3 <= n < 5
    ensures var f := CONTENT_FIELDS[n];
      PatchedUpTo(r, body, n + 1)
        == if FieldName(f) in body then AssignedField(PatchedUpTo(r, body, n), f, body[FieldName(f)])
           else PatchedUpTo(r, body, n)
  {
    var p := PatchedUpTo(r, body, n);
    var q := PatchedUpTo(r, body, n + 1);
    if n == 3 {
      assert q == if "section" in body && body["section"].Str? && ParseSection(body["section"].s).Some?
                  then p.(section := ParseSection(body["section"].s).value) else p;
    } else {
      assert q == if "order" in body && body["order"].Int? then p.(order := body["order"].n) else p;
    }
  }

  /** The rounds of publication and type. */
  lemma PatchedStepKind(r: ContentRecord, body: Body, n: nat)
    requires 5 <= n < |CONTENT_FIELDS|
    ensures var f := CONTENT_FIELDS[n];
      PatchedUpTo(r, body, n + 1)
        == if FieldName(f) in body then AssignedField(PatchedUpTo(r, body, n), f, body[FieldName(f)])
           else PatchedUpTo(r, body, n)
  {
    var p := PatchedUpTo(r, body, n);
    var q := PatchedUpTo(r, body, n + 1);
    if n == 5 {
      assert q == if "isPublished" in body && body["isPublished"].Bool? then p.(isPublished := body["isPublished"].b) else p;
    } else {
      assert q == if "type" in body && body["type"].Str? && ParseType(body["type"].s).Some?
                  then p.(ctype := ParseType(body["type"].s).value) else p;
    }
  }

  /** `content[field] = value` on the document. */
  method AssignField(doc: ContentDoc, field: Field, v: Value)
    modifies doc
    ensures doc.Record() == AssignedField(old(doc.Record()), field, v)
    ensures doc.isNew == old(doc.isNew) && doc.persistedContent == old(doc.persistedContent)
    ensures doc.originalContent == old(doc.originalContent)
  {
    match field {
      case KeyField =>
        if v.Str? { doc.key := Trim(v.s); }
      case TitleField =>
        if v.Str? { doc.title := Trim(v.s); }
      case BodyField =>
        if v.Str? { doc.content := Trim(v.s); }
      case SectionField =>
        if v.Str? && ParseSection(v.s).Some? { doc.section := ParseSection(v.s).value; }
      case OrderField =>
        if v.Int? { doc.order := v.n; }
      case PublishedField =>
        if v.Bool? { doc.isPublished := v.b; }
      case TypeField =>
        if v.Str? && ParseType(v.s).Some? { doc.ctype := ParseType(v.s).value; }
    }
  }

  /** `PUT /content/:id`. In order: validation (400); a missing id (404); a
      `type` outside the enum fails the save (500); all three leave the store
      unchanged. Otherwise `_original_content` is set to the stored body, the
      whitelisted fields present in the body are copied, the requester
      becomes the last modifier, and the document is saved through the
      versioning hook. */
  method UpdateContent(docs: seq<ContentRecord>, id: Id, body: Body, requesterId: Id, now: Millis)
    returns (reply: Reply<ContentRecord>, docs': seq<ContentRecord>)
    ensures !UpdateBodyValid(body) ==> reply == Failure(400, "Validation failed") && docs' == docs
    ensures UpdateBodyValid(body) && FindContent(docs, id).None? ==>
              reply == Failure(404, "Content not found") && docs' == docs
    ensures UpdateBodyValid(body) && FindContent(docs, id).Some? && !UpdateTypeOk(body) ==>
              reply == Failure(500, "Failed to update content") && docs' == docs
    ensures UpdateBodyValid(body) && FindContent(docs, id).Some? && UpdateTypeOk(body) ==>
              var i := FindContent(docs, id).value;
              var r := docs[i];
              var saved := Versioned(Patched(r, body).(lastModifiedBy := Some(requesterId)), false, r.content, r.content, now);
              && docs' == docs[i := saved]
              && reply == Success(200, saved)
  {
    if !UpdateBodyValid(body) {
      return Failure(400, "Validation failed"), docs;
    }
    var found := FindContent(docs, id);
    if found.None? {
      return Failure(404, "Content not found"), docs;
    }
    if !UpdateTypeOk(body) {
      return Failure(500, "Failed to update content"), docs;
    }
    var i := found.value;
    var doc := new ContentDoc.Load(docs[i]);
    doc.originalContent := doc.content;
    var n := 0;
    while n < |CONTENT_FIELDS|
      invariant 0 <= n <= |CONTENT_FIELDS|
      invariant doc.Record() == PatchedUpTo(docs[i], body, n)
      invariant !doc.isNew && doc.persistedContent == docs[i].content && doc.originalContent == docs[i].content
    {
      var field := CONTENT_FIELDS[n];
      PatchedStep(docs[i], body, n);
      if FieldName(field) in body {
        AssignField(doc, field, body[FieldName(field)]);
      }
      n := n + 1;
    }
    doc.lastModifiedBy := Some(requesterId);
    doc.Save(now);
    docs' := docs[i := doc.Record()];
    reply := Success(200, doc.Record());
  }

  /** What an accepted update stores: each whitelisted field the body holds,
      trimmed where the sanitizer trims it, every other field as it was, and
      the requester as last modifier. When the body text changed, one history
      entry keeps the text as it was before the request (or the new text, for
      an item whose stored text was empty), at the old version, attributed to
      the requester, and the version rises by one; otherwise history and
      version stay. */
  lemma UpdateContentEffect(r: ContentRecord, body: Body, requesterId: Id, now: Millis)
    requires UpdateBodyValid(body) && UpdateTypeOk(body)
    ensures var s := Versioned(Patched(r, body).(lastModifiedBy := Some(requesterId)), false, r.content, r.content, now);
      var text := if "content" in body then Trim(body["content"].s) else r.content;
      && s.id == r.id && s.createdAt == r.createdAt && s.lastModifiedBy == Some(requesterId)
      && s.key == (if "key" in body then Trim(body["key"].s) else r.key)
      && s.title == (if "title" in body then Trim(body["title"].s) else r.title)
      && s.content == text
      && s.section == (if "section" in body then ParseSection(body["section"].s).value else r.section)
      && s.order == (if "order" in body then body["order"].n else r.order)
      && s.isPublished == (if "isPublished" in body then body["isPublished"].b else r.isPublished)
      && s.ctype == (if "type" in body then ParseType(body["type"].s).value else r.ctype)
      && (text != r.content ==>
            && s.version == r.version + 1
            && s.history == r.history + [HistoryEntry(if r.content != "" then r.content else text,
                                                       r.version, Some(requesterId), now, AUTO_SAVED_NOTE)])
      && (text == r.content ==> s.version == r.version && s.history == r.history)
  {
    var p := Patched(r, body).(lastModifiedBy := Some(requesterId));
    assert p.content == if "content" in body then Trim(body["content"].s) else r.content;
    SaveVersioning(p, false, r.content, r.content, now);
  }

  /** `DELETE /content/:id`: 404 for a missing id; otherwise exactly that
      item is removed and the others keep their order. */
  method DeleteContent(docs: seq<ContentRecord>, id: Id) returns (reply: Reply<string>, docs': seq<ContentRecord>)
    ensures FindContent(docs, id).None? ==> reply == Failure(404, "Content not found") && docs' == docs
    ensures FindContent(docs, id).Some? ==>
      var i := FindContent(docs, id).value;
      && docs' == docs[..i] + docs[i + 1..]
      && multiset(docs') + multiset{docs[i]} == multiset(docs)
      && reply == Success(200, "Content deleted successfully")
  {
    var found := FindContent(docs, id);
    if found.None? {
      return Failure(404, "Content not found"), docs;
    }
    var i := found.value;
    docs' := docs[..i] + docs[i + 1..];
    assert docs == docs[..i] + [docs[i]] + docs[i + 1..];
    reply := Success(200, "Content deleted successfully");
  }

  /** `POST /content/:id/restore/:versionIndex`: 404 for a missing id; an
      index that is not a number or is outside the history gives 500 with the
      model's message and leaves the store unchanged; otherwise the restored
      document, saved through the hook, replaces the stored one. */
  method RestoreContent(docs: seq<ContentRecord>, id: Id, versionIndex: Option<int>, requesterId: Id, now: Millis)
    returns (reply: Reply<ContentRecord>, docs': seq<ContentRecord>)
    ensures FindContent(docs, id).None? ==> reply == Failure(404, "Content not found") && docs' == docs
    ensures FindContent(docs, id).Some? ==>
      var i := FindContent(docs, id).value;
      var ok := versionIndex.Some? && 0 <= versionIndex.value < |docs[i].history|;
      && (!ok ==> reply == Failure(500, "Invalid version index") && docs' == docs)
      && (ok ==>
            var saved := Versioned(WithRestored(docs[i], versionIndex.value, requesterId, now),
                                   false, docs[i].content, "", now);
            && docs' == docs[i := saved]
            && reply == Success(200, saved))
  {
    var found := FindContent(docs, id);
    if found.None? {
      return Failure(404, "Content not found"), docs;
    }
    var i := found.value;
    var doc := new ContentDoc.Load(docs[i]);
    // parseInt yields NaN for a non-number, and NaN fails both bounds
    var index := if versionIndex.Some? then versionIndex.value else -1;
    var error := doc.RestoreFromHistory(index, requesterId, now);
    if error.Some? {
      return Failure(500, error.value), docs;
    }
    docs' := docs[i := doc.Record()];
    reply := Success(200, doc.Record());
  }

  // ------------------------------------------------------------------ users

  /** The query filter of `GET /users`. */
  datatype UserQuery = UserQuery(role: Option<string>, isActive: Option<bool>)

  method BuildUserFilter(role: Option<string>, active: Option<string>) returns (f: UserQuery)
    ensures f.role == if role.Some? && role.value != "" then role else None
    ensures f.isActive.Some? <==> active.Some?
    ensures f.isActive == Some(true) <==> active == Some("true")
    ensures f == UserQuery(if role.Some? && role.value != "" then role else None,
                           if active.Some? then Some(active.value == "true") else None)
  {
    f := UserQuery(None, None);
    if role.Some? && role.value != "" {
      f := f.(role := role);
    }
    if active.Some? {
      f := f.(isActive := Some(active.value == "true"));
    }
  }

  predicate MatchesUser(f: UserQuery, u: User) {
    && (f.role.Some? ==> RoleName(u.role) == f.role.value)
    && (f.isActive.Some? ==> u.isActive == f.isActive.value)
  }

  /** `Math.ceil(a / b)` for a non-zero divisor. */
  function CeilDiv(a: nat, b: int): (r: int)
    requires b != 0
    ensures b > 0 ==> (r - 1) * b < a <= r * b
    ensures b < 0 ==> r * b <= a < (r - 1) * b
  {
    if b > 0 then (a + b - 1) / b else -(a / -b)
  }

  /** The listing shows each user as its safe view, read without
      `loginAttempts` and `lockUntil`, so its `isLocked` is always false. */
  function ListedViews(us: seq<User>, now: Millis): (r: seq<SafeUser>)
    ensures |r| == |us|
    ensures forall k :: 0 <= k < |us| ==> r[k] == ToSafeObject(us[k].(lockUntil := None), now)
  {
    if us == [] then [] else [ToSafeObject(us[0].(lockUntil := None), now)] + ListedViews(us[1..], now)
  }

  datatype Pagination = Pagination(page: int, pages: Option<int>, total: nat)
  datatype UserPage = UserPage(users: seq<SafeUser>, pagination: Pagination)

  function CreatedNewestFirst(u: User): int {
    -u.createdAt
  }

  /** The users of one page: `limit(l).skip(s)` over the sorted list; a zero
      limit means no limit and a negative one is taken by its size. */
  function PageWindow(sorted: seq<User>, skip: nat, limit: int): (r: seq<User>)
    ensures skip >= |sorted| ==> r == []
    ensures skip < |sorted| && limit == 0 ==> r == sorted[skip..]
    ensures skip < |sorted| && limit != 0 ==>
      var size := if limit > 0 then limit else -limit;
      r == sorted[skip..if skip + size < |sorted| then skip + size else |sorted|]
  {
    if skip >= |sorted| then []
    else if limit == 0 then sorted[skip..]
    else
      var size := if limit > 0 then limit else -limit;
      sorted[skip..if skip + size < |sorted| then skip + size else |sorted|]
  }

  /** `GET /users`: page 1 and limit 50 by default; a negative skip
      `(page-1)*limit` makes the query fail (500). Otherwise the matching
      users, newest first, in the window of that page, with `pages =
      ceil(total/limit)`, which JSON shows as null when the limit is zero. */
  method ListUsers(users: seq<User>, role: Option<string>, active: Option<string>,
                   page: Option<int>, limit: Option<int>, now: Millis) returns (reply: Reply<UserPage>)
    ensures var p := if page.Some? then page.value else 1;
      var l := if limit.Some? then limit.value else 50;
      && ((p - 1) * l < 0 ==> reply == Failure(500, "Failed to get users"))
      && ((p - 1) * l >= 0 ==>
            && reply.Success?
            && reply.body.pagination.page == p
            && reply.body.pagination.total == |Filter(users, (u: User) => MatchesUser(UserQuery(
                   if role.Some? && role.value != "" then role else None,
                   if active.Some? then Some(active.value == "true") else None), u))|
            && (l == 0 ==> reply.body.pagination.pages.None?)
            && (l != 0 ==> reply.body.pagination.pages == Some(CeilDiv(reply.body.pagination.total, l)))
            && |reply.body.users| <= (if l == 0 then reply.body.pagination.total else if l > 0 then l else -l)
            && reply.body.users == ListedViews(PageWindow(SortBy(Filter(users, (u: User) => MatchesUser(UserQuery(
                   if role.Some? && role.value != "" then role else None,
                   if active.Some? then Some(active.value == "true") else None), u)), CreatedNewestFirst),
                   (p - 1) * l, l), now))
  {
    var f := BuildUserFilter(role, active);
    var p := if page.Some? then page.value else 1;
    var l := if limit.Some? then limit.value else 50;
    var skip := (p - 1) * l;
    if skip < 0 {
      return Failure(500, "Failed to get users");
    }
    var matching := Filter(users, (u: User) => MatchesUser(f, u));
    var sorted := SortBy(matching, CreatedNewestFirst);
    SortByLength(matching, CreatedNewestFirst);
    var shown := PageWindow(sorted, skip, l);
    var pages := if l == 0 then None else Some(CeilDiv(|matching|, l));
    reply := Success(200, UserPage(ListedViews(shown, now), Pagination(p, pages, |matching|)));
  }

  /** The listing's order and content: the sorted list is exactly the
      matching users, newest first. */
  lemma ListUsersOrder(users: seq<User>, f: UserQuery)
    ensures var sorted := SortBy(Filter(users, (u: User) => MatchesUser(f, u)), CreatedNewestFirst);
      && multiset(sorted) == multiset(Filter(users, (u: User) => MatchesUser(f, u)))
      && (forall i, j :: 0 <= i < j < |sorted| ==> sorted[i].createdAt >= sorted[j].createdAt)
  {
    var m := Filter(users, (u: User) => MatchesUser(f, u));
    SortBySortsAndPermutes(m, CreatedNewestFirst);
  }

  datatype UserReply = UserReply(message: string, user: SafeUser)

  /** `PUT /users/:id/toggle-status`: 404 for a missing user; 403 for a
      super-admin, unchanged; otherwise `isActive` is negated and nothing
      else changes (the password is not re-hashed), so a second toggle
      restores the record. */
  method ToggleStatus(users: seq<User>, id: Id, hash: string -> string, now: Millis)
    returns (reply: Reply<UserReply>, users': seq<User>)
    ensures FindUser(users, id).None? ==> reply == Failure(404, "User not found") && users' == users
    ensures FindUser(users, id).Some? ==>
      var i := FindUser(users, id).value;
      var u := users[i];
      && (u.role == SuperAdminRole ==> reply == Failure(403, "Cannot modify super-admin status") && users' == users)
      && (u.role != SuperAdminRole ==>
            var v := u.(isActive := !u.isActive);
            && users' == users[i := v]
            && reply == Success(200, UserReply(if v.isActive then "User activated successfully"
                                               else "User deactivated successfully", ToSafeObject(v, now))))
  {
    var found := FindUser(users, id);
    if found.None? {
      return Failure(404, "User not found"), users;
    }
    var i := found.value;
    var doc := new UserDoc.Load(users[i]);
    if doc.role == SuperAdminRole {
      return Failure(403, "Cannot modify super-admin status"), users;
    }
    doc.isActive := !doc.isActive;
    doc.Save(hash);
    var v := doc.Record();
    users' := users[i := v];
    reply := Success(200, UserReply(if v.isActive then "User activated successfully"
                                    else "User deactivated successfully", ToSafeObject(v, now)));
  }

  /** `PUT /users/:id/role`. In order: a role outside the enum (400), a
      requester who is not a super-admin (403), a missing user (404); all
      leave the store unchanged. Otherwise only the role changes. */
  method ChangeRole(users: seq<User>, requester: User, id: Id, body: Body, hash: string -> string, now: Millis)
    returns (reply: Reply<UserReply>, users': seq<User>)
    ensures var newRole := if "role" in body && body["role"].Str? then ParseRole(body["role"].s) else None;
      && (newRole.None? ==> reply == Failure(400, "Validation failed") && users' == users)
      && (newRole.Some? && requester.role != SuperAdminRole ==>
            reply == Failure(403, "Only super-admin can change user roles") && users' == users)
      && (newRole.Some? && requester.role == SuperAdminRole && FindUser(users, id).None? ==>
            reply == Failure(404, "User not found") && users' == users)
      && (newRole.Some? && requester.role == SuperAdminRole && FindUser(users, id).Some? ==>
            var i := FindUser(users, id).value;
            var v := users[i].(role := newRole.value);
            && users' == users[i := v]
            && reply == Success(200, UserReply("User role updated successfully", ToSafeObject(v, now))))
  {
    var newRole := if "role" in body && body["role"].Str? then ParseRole(body["role"].s) else None;
    if newRole.None? {
      return Failure(400, "Validation failed"), users;
    }
    if requester.role != SuperAdminRole {
      return Failure(403, "Only super-admin can change user roles"), users;
    }
    var found := FindUser(users, id);
    if found.None? {
      return Failure(404, "User not found"), users;
    }
    var i := found.value;
    var doc := new UserDoc.Load(users[i]);
    doc.role := newRole.value;
    doc.Save(hash);
    var v := doc.Record();
    users' := users[i := v];
    reply := Success(200, UserReply("User role updated successfully", ToSafeObject(v, now)));
  }
}
