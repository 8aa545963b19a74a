/** models/Content.js: a content item with its version counter and its
    append-only history, the pre-save versioning hook, the manual backup, the
    restore from history, and the two query helpers. */
module ContentModel {
  import opened Common
  import opened Sorting

  datatype ContentType = Text | Html | Markdown | Json

  datatype Section = Hero | About | Programs | Testimonials | Cta | Footer | Navigation | Statistics | General

  function TypeName(t: ContentType): string {
    match t
    case Text => "text"
    case Html => "html"
    case Markdown => "markdown"
    case Json => "json"
  }

  /** The schema's enum check on `type`. */
  function ParseType(name: string): (r: Option<ContentType>)
    ensures r.Some? ==> TypeName(r.value) == name
    ensures r.None? ==> forall t :: TypeName(t) != name
  {
    if name == "text" then Some(Text)
    else if name == "html" then Some(Html)
    else if name == "markdown" then Some(Markdown)
    else if name == "json" then Some(Json)
    else None
  }

  function SectionName(s: Section): string {
    match s
    case Hero => "hero"
    case About => "about"
    case Programs => "programs"
    case Testimonials => "testimonials"
    case Cta => "cta"
    case Footer => "footer"
    case Navigation => "navigation"
    case Statistics => "statistics"
    case General => "general"
  }

  /** The nine-value enum check on `section` (schema and route validators). */
  function ParseSection(name: string): (r: Option<Section>)
    ensures r.Some? ==> SectionName(r.value) == name
    ensures r.None? ==> forall s :: SectionName(s) != name
  {
    if name == "hero" then Some(Hero)
    else if name == "about" then Some(About)
    else if name == "programs" then Some(Programs)
    else if name == "testimonials" then Some(Testimonials)
    else if name == "cta" then Some(Cta)
    else if name == "footer" then Some(Footer)
    else if name == "navigation" then Some(Navigation)
    else if name == "statistics" then Some(Statistics)
    else if name == "general" then Some(General)
    else None
  }

  /** A section's place when `section` is sorted as a string, the way a
      `.sort({ section: 1 })` query orders it. */
  function SectionRank(s: Section): int {
    match s
    case About => 0
    case Cta => 1
    case Footer => 2
    case General => 3
    case Hero => 4
    case Navigation => 5
    case Programs => 6
    case Statistics => 7
    case Testimonials => 8
  }

  /** Lexicographic order on strings, as MongoDB compares them. */
  ghost predicate StringBefore(a: string, b: string) {
    if a == [] then b != []
    else if b == [] then false
    else a[0] < b[0] || (a[0] == b[0] && StringBefore(a[1..], b[1..]))
  }

  lemma {:induction false} StringBeforeIrreflexive(s: string)
    ensures !StringBefore(s, s)
  {
    if s != [] {
      StringBeforeIrreflexive(s[1..]);
    }
  }

  /** The rank puts the sections exactly in the string order of their names. */
  lemma SectionRankIsNameOrder(a: Section, b: Section)
    ensures SectionRank(a) < SectionRank(b) <==> StringBefore(SectionName(a), SectionName(b))
  {
    if a == b {
      StringBeforeIrreflexive(SectionName(a));
    } else {
      // no two names share their first letter, so that letter decides
      assert SectionName(a)[0] != SectionName(b)[0];
      assert SectionRank(a) < SectionRank(b) <==> SectionName(a)[0] < SectionName(b)[0];
    }
  }

  /** One entry of `history`. */
  datatype HistoryEntry = HistoryEntry(
    content: string,
    version: int,
    modifiedBy: Option<Id>,
    modifiedAt: Millis,
    note: string)

  /** A stored content document. */
  datatype ContentRecord = ContentRecord(
    id: Id,
    key: string,
    title: string,
    content: string,
    ctype: ContentType,
    section: Section,
    isPublished: bool,
    order: int,
    lastModifiedBy: Option<Id>,
    version: int,
    history: seq<HistoryEntry>,
    createdAt: Millis)

  const AUTO_SAVED_NOTE := "Auto-saved version"
  const MANUAL_BACKUP_NOTE := "Manual backup"

  /** The note of the entry `restoreFromHistory` pushes before it overwrites the body. */
  function RestoreNote(restoredVersion: int): string {
    "Backup before restoring to version " + IntToString(restoredVersion)
  }

  /** What the pre-save hook leaves: when the body differs from the stored one
      and the document is not new, one entry holding the `_original_content`
      side channel (or, when that is unset or empty, the current body) at the
      current version is appended, and the version goes up by one. */
  function Versioned(r: ContentRecord, isNew: bool, persistedContent: string, originalContent: string, now: Millis): ContentRecord {
    if r.content != persistedContent && !isNew then
      var body := if originalContent != "" then originalContent else r.content;
      r.(history := r.history + [HistoryEntry(body, r.version, r.lastModifiedBy, now, AUTO_SAVED_NOTE)],
         version := r.version + 1)
    else r
  }

  /** What `createBackup` does before it saves. */
  function WithBackup(r: ContentRecord, userId: Id, note: string, now: Millis): ContentRecord {
    var text := if note == "" then MANUAL_BACKUP_NOTE else note;
    r.(history := r.history + [HistoryEntry(r.content, r.version, Some(userId), now, text)])
  }

  /** What `restoreFromHistory` does to a valid index before it saves. */
  function WithRestored(r: ContentRecord, i: nat, userId: Id, now: Millis): ContentRecord
    requires i < |r.history|
  {
    var past := r.history[i];
    r.(history := r.history + [HistoryEntry(r.content, r.version, Some(userId), now, RestoreNote(past.version))],
       content := past.content,
       version := r.version + 1,
       lastModifiedBy := Some(userId))
  }

  /** The fields of a record that the history bookkeeping never touches. */
  function WithoutVersioning(r: ContentRecord): ContentRecord {
    r.(version := 0, history := [])
  }

  /** A save of an existing document whose body changed appends exactly one
      entry, at the pre-increment version, and raises the version by exactly
      one; any other save changes nothing. Earlier entries are kept. */
  lemma SaveVersioning(r: ContentRecord, isNew: bool, persistedContent: string, originalContent: string, now: Millis)
    ensures var s := Versioned(r, isNew, persistedContent, originalContent, now);
      && WithoutVersioning(s) == WithoutVersioning(r)
      && r.history <= s.history
      && (r.content != persistedContent && !isNew ==>
            && |s.history| == |r.history| + 1
            && s.version == r.version + 1
            && s.history[|r.history|].version == r.version
            && s.history[|r.history|].modifiedBy == r.lastModifiedBy
            && s.history[|r.history|].note == AUTO_SAVED_NOTE
            && s.history[|r.history|].content == (if originalContent != "" then originalContent else r.content))
      && (r.content == persistedContent || isNew ==> s == r)
  {
  }

  /** `createBackup` on a document without an unsaved body change appends one
      entry with the current body and version, and leaves the version alone. */
  lemma CreateBackupEffect(r: ContentRecord, isNew: bool, originalContent: string, userId: Id, note: string, now: Millis)
    ensures var s := Versioned(WithBackup(r, userId, note, now), isNew, r.content, originalContent, now);
      && s.history == r.history + [s.history[|r.history|]]
      && s.history[|r.history|].content == r.content
      && s.history[|r.history|].version == r.version
      && s.history[|r.history|].modifiedBy == Some(userId)
      && s.history[|r.history|].note == (if note == "" then MANUAL_BACKUP_NOTE else note)
      && s.version == r.version
      && s.content == r.content
  {
  }

  /** The net effect of `restoreFromHistory` on a document loaded from the
      store: the backup entry, then, because the body changed, a second entry
      from the save hook holding the restored body; the version rises by two.
      When the restored body equals the current one only the backup entry is
      added and the version rises by one. */
  lemma RestoreNetEffect(r: ContentRecord, i: nat, userId: Id, now: Millis)
    requires i < |r.history|
    ensures var s := Versioned(WithRestored(r, i, userId, now), false, r.content, "", now);
      var n := |r.history|;
      && s.content == r.history[i].content
      && s.lastModifiedBy == Some(userId)
      && r.history <= s.history
      && n < |s.history|
      && s.history[n] == HistoryEntry(r.content, r.version, Some(userId), now, RestoreNote(r.history[i].version))
      && (r.history[i].content != r.content ==>
            && |s.history| == n + 2
            && s.history[n + 1] == HistoryEntry(r.history[i].content, r.version + 1, Some(userId), now, AUTO_SAVED_NOTE)
            && s.version == r.version + 2)
      && (r.history[i].content == r.content ==>
            && |s.history| == n + 1
            && s.version == r.version + 1)
  {
  }

  /** A Mongoose document of the Content model: the stored fields plus what
      Mongoose keeps beside them (`isNew`, the body as last stored, which
      decides `isModified('content')`, and the ad hoc `_original_content`). */
  class ContentDoc {
    const id: Id
    const createdAt: Millis
    var key: string
    var title: string
    var content: string
    var ctype: ContentType
    var section: Section
    var isPublished: bool
    var order: int
    var lastModifiedBy: Option<Id>
    var version: int
    var history: seq<HistoryEntry>

    var isNew: bool
    var persistedContent: string
    /** `_original_content`; the empty string stands for unset, as `||` reads both as false. */
    var originalContent: string

    function Record(): ContentRecord
      reads this
    {
      ContentRecord(id, key, title, content, ctype, section, isPublished, order,
                    lastModifiedBy, version, history, createdAt)
    }

    /** `new Content({...})`: the schema defaults give a published item at version 1 with no history. */
    constructor Create(id: Id, key: string, title: string, content: string, ctype: ContentType,
                       section: Section, order: int, lastModifiedBy: Option<Id>, now: Millis)
      ensures Record() == ContentRecord(id, key, title, content, ctype, section, true, order,
                                        lastModifiedBy, 1, [], now)
      ensures isNew && originalContent == ""
    {
      this.id, this.createdAt := id, now;
      this.key, this.title, this.content := key, title, content;
      this.ctype, this.section, this.isPublished, this.order := ctype, section, true, order;
      this.lastModifiedBy, this.version, this.history := lastModifiedBy, 1, [];
      isNew, persistedContent, originalContent := true, "", "";
    }

    /** A document read back from the store. */
    constructor Load(r: ContentRecord)
      ensures Record() == r
      ensures !isNew && persistedContent == r.content && originalContent == ""
    {
      id, createdAt := r.id, r.createdAt;
      key, title, content := r.key, r.title, r.content;
      ctype, section, isPublished, order := r.ctype, r.section, r.isPublished, r.order;
      lastModifiedBy, version, history := r.lastModifiedBy, r.version, r.history;
      isNew, persistedContent, originalContent := false, r.content, "";
    }

    /** `save()`: runs the versioning hook, then the document is stored. */
    method Save(now: Millis)
      modifies this
      ensures Record() == Versioned(old(Record()), old(isNew), old(persistedContent), old(originalContent), now)
      ensures !isNew && persistedContent == content && originalContent == old(originalContent)
    {
      if content != persistedContent && !isNew {
        var body := if originalContent != "" then originalContent else content;
        history := history + [HistoryEntry(body, version, lastModifiedBy, now, AUTO_SAVED_NOTE)];
        version := version + 1;
      }
      isNew := false;
      persistedContent := content;
    }

    /** `createBackup(userId, note)`: push the current body, then save. */
    method CreateBackup(userId: Id, note: string, now: Millis)
      modifies this
      ensures Record() == Versioned(WithBackup(old(Record()), userId, note, now),
                                    old(isNew), old(persistedContent), old(originalContent), now)
      ensures old(history) <= history
      ensures !isNew && persistedContent == content
    {
      var text := if note == "" then MANUAL_BACKUP_NOTE else note;
      history := history + [HistoryEntry(content, version, Some(userId), now, text)];
      Save(now);
    }

    /** `restoreFromHistory(versionIndex, userId)`: an index outside the
        history throws "Invalid version index" and changes nothing; a valid
        one pushes a backup, restores the body, bumps the version, stamps the
        user and saves, so the save hook runs on top of it. */
    method RestoreFromHistory(versionIndex: int, userId: Id, now: Millis) returns (error: Option<string>)
      modifies this
      ensures error.None? <==> 0 <= versionIndex < |old(history)|
      ensures error.Some? ==> error.value == "Invalid version index"
      ensures error.None? ==>
        Record() == Versioned(WithRestored(old(Record()), versionIndex, userId, now),
                              old(isNew), old(persistedContent), old(originalContent), now)
      ensures error.Some? ==> Record() == old(Record()) && isNew == old(isNew)
                              && persistedContent == old(persistedContent)
      ensures old(history) <= history
    {
      if 0 <= versionIndex < |history| {
        var past := history[versionIndex];
        history := history + [HistoryEntry(content, version, Some(userId), now, RestoreNote(past.version))];
        content := past.content;
        version := version + 1;
        lastModifiedBy := Some(userId);
        Save(now);
        return None;
      }
      return Some("Invalid version index");
    }
  }

  function OrderOf(d: ContentRecord): int {
    d.order
  }

  function PublishedIn(section: string): ContentRecord -> bool {
    (d: ContentRecord) => d.isPublished && SectionName(d.section) == section
  }

  /** `getPublishedBySection(section)`: the published items of that section,
      sorted by `order`; each such item of the collection appears exactly once. */
  function GetPublishedBySection(docs: seq<ContentRecord>, section: string): (r: seq<ContentRecord>)
    ensures forall d :: d in r <==> d in docs && d.isPublished && SectionName(d.section) == section
    ensures forall d: ContentRecord :: d.isPublished && SectionName(d.section) == section ==> multiset(r)[d] == multiset(docs)[d]
    ensures SortedBy(r, OrderOf)
  {
    var matching := Filter(docs, PublishedIn(section));
    SortBySortsAndPermutes(matching, OrderOf);
    FilterMultiset(docs, PublishedIn(section));
    SortBy(matching, OrderOf)
  }

  /** `getByKey(key)`: the first published item with that key, if any. The
      query casts the key through the path's `trim` setter, so a padded key
      finds the item stored under its trimmed form. */
  function GetByKey(docs: seq<ContentRecord>, key: string): (r: Option<ContentRecord>)
    ensures r.Some? ==> r.value in docs && r.value.key == Trim(key) && r.value.isPublished
    ensures r.None? <==> forall d :: d in docs ==> !(d.key == Trim(key) && d.isPublished)
  {
    match FindFirst(docs, (d: ContentRecord) => d.key == Trim(key) && d.isPublished)
    case None => None
    case Some(i) => Some(docs[i])
  }

  /** `findById`: the position of the document with that id. */
  function FindContent(docs: seq<ContentRecord>, id: Id): (r: Option<nat>)
    ensures r.Some? ==> r.value < |docs| && docs[r.value].id == id
    ensures r.None? <==> forall j :: 0 <= j < |docs| ==> docs[j].id != id
  {
    FindFirst(docs, (d: ContentRecord) => d.id == id)
  }
}
