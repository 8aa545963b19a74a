/** public/js/firebase-content.js: the browser-side `ContentService` over a
    Firestore `content` collection. The collection is a map from document id
    to document; `serverTimestamp()` is the parameter `now`. */
module FirebaseContent {
  import opened Common
  import opened Grouping

  /** What a call resolves to: `{ success: true, ... }` or `{ success: false, error }`. */
  datatype Outcome<T> = Ok(value: T) | Err(error: string)

  /** A history entry; `content` is absent when the document had no body. */
  datatype FireEntry = FireEntry(content: Option<string>, version: int, modifiedBy: string, modifiedAt: Millis, note: string)

  /** A stored document. `version` is absent for a document written without
      one; a missing history is read as `[]`, exactly as `history || []` does. */
  datatype FireContent = FireContent(
    key: Option<string>,
    title: Option<string>,
    content: Option<string>,
    section: string,
    ctype: string,
    order: int,
    isPublished: bool,
    createdAt: Millis,
    updatedAt: Millis,
    createdBy: string,
    lastModifiedBy: string,
    version: Option<int>,
    history: seq<FireEntry>)

  /** The fields a caller passes to `createContent`. */
  datatype ContentData = ContentData(key: Option<string>, title: Option<string>, content: Option<string>,
                                     section: string, ctype: Option<string>, order: Option<int>,
                                     isPublished: Option<bool>)

  /** The fields a caller passes to `updateContent`, bookkeeping fields
      included: the spread copies whatever the caller supplies. */
  datatype Updates = Updates(key: Option<string>, title: Option<string>, content: Option<string>,
                             section: Option<string>, ctype: Option<string>, order: Option<int>,
                             isPublished: Option<bool>, createdAt: Option<Millis>, createdBy: Option<string>,
                             version: Option<int>, history: Option<seq<FireEntry>>,
                             lastModifiedBy: Option<string>, updatedAt: Option<Millis>)

  const AUTO_SAVED := "Auto-saved version"

  function Or<T>(o: Option<T>, d: T): T {
    if o.Some? then o.value else d
  }

  /** The document `createContent` writes. `isPublished` defaults to true
      only when absent; `order || 0` and `type || 'text'` replace the falsy
      values 0 and "" as well; the document starts at version 1 with no
      history, created and last modified by the caller. */
  function CreatedContent(data: ContentData, userId: string, now: Millis): (r: FireContent)
    ensures r.isPublished == (data.isPublished != Some(false))
    ensures r.order == (if data.order.Some? then data.order.value else 0)
    ensures r.ctype != ""
    ensures data.ctype.Some? && data.ctype.value != "" ==> r.ctype == data.ctype.value
    ensures data.ctype.None? || data.ctype.value == "" ==> r.ctype == "text"
    ensures r.version == Some(1) && r.history == []
    ensures r.createdBy == userId && r.lastModifiedBy == userId && r.createdAt == now && r.updatedAt == now
    ensures r.key == data.key && r.title == data.title && r.content == data.content && r.section == data.section
  {
    FireContent(data.key, data.title, data.content, data.section,
                if data.ctype.Some? && data.ctype.value != "" then data.ctype.value else "text",
                Or(data.order, 0), Or(data.isPublished, true), now, now, userId, userId, Some(1), [])
  }

  /** `createContent`: `addDoc` stores the document under a fresh id. */
  function CreateContent(store: map<string, FireContent>, newId: string, data: ContentData, userId: string, now: Millis)
    : (r: (Outcome<FireContent>, map<string, FireContent>))
    requires newId !in store
    ensures r.0 == Ok(CreatedContent(data, userId, now))
    ensures r.1 == store[newId := CreatedContent(data, userId, now)]
    ensures r.1.Keys == store.Keys + {newId}
  {
    (Ok(CreatedContent(data, userId, now)), store[newId := CreatedContent(data, userId, now)])
  }

  /** `getContentById`. */
  function GetContentById(store: map<string, FireContent>, id: string): (r: Outcome<FireContent>)
    ensures r.Ok? <==> id in store
    ensures r.Ok? ==> r.value == store[id]
    ensures r.Err? ==> r.error == "Content not found"
  {
    if id in store then Ok(store[id]) else Err("Content not found")
  }

  /** The version a document counts as having: `version || 1`. */
  function PreviousVersion(cur: FireContent): (v: int)
    ensures cur.version.Some? && cur.version.value != 0 ==> v == cur.version.value
    ensures cur.version.None? || cur.version.value == 0 ==> v == 1
  {
    if cur.version.Some? && cur.version.value != 0 then cur.version.value else 1
  }

  /** The document after `updateDoc(ref, updateData)`: the caller's fields
      merged in, then the timestamp, last modifier, version and history set by
      the service over whatever the caller supplied for them. */
  function Updated(cur: FireContent, updates: Updates, userId: string, now: Millis): FireContent {
    var prev := PreviousVersion(cur);
    var entry := FireEntry(cur.content, prev, userId, now, AUTO_SAVED);
    cur.(key := if updates.key.Some? then updates.key else cur.key,
         title := if updates.title.Some? then updates.title else cur.title,
         content := if updates.content.Some? then updates.content else cur.content,
         section := Or(updates.section, cur.section),
         ctype := Or(updates.ctype, cur.ctype),
         order := Or(updates.order, cur.order),
         isPublished := Or(updates.isPublished, cur.isPublished),
         createdAt := Or(updates.createdAt, cur.createdAt),
         createdBy := Or(updates.createdBy, cur.createdBy),
         updatedAt := now,
         lastModifiedBy := userId,
         version := Some(prev + 1),
         history := cur.history + [entry])
  }

  /** The reason the Firestore SDK gives when `updateDoc` meets a
      `serverTimestamp()` sentinel inside an array. */
  const SENTINEL_IN_ARRAY := "Function updateDoc() called with invalid data. serverTimestamp() is not currently supported inside arrays"

  /** `updateContent` as written: the history entry it appends carries a
      `serverTimestamp()` sentinel, and the SDK refuses a sentinel inside an
      array before anything is sent, so the catch turns every update of an
      existing document into a failure and nothing is written. */
  function UpdateContentAsWritten(store: map<string, FireContent>, id: string, updates: Updates, userId: string, now: Millis)
    : (r: (Outcome<()>, map<string, FireContent>))
    ensures r.0.Err? && r.1 == store
    ensures id !in store ==> r.0.error == "Content not found"
    ensures id in store ==> r.0.error == SENTINEL_IN_ARRAY
  {
    match GetContentById(store, id)
    case Err(e) => (Err(e), store)
    case Ok(_) => (Err(SENTINEL_IN_ARRAY), store)
  }

  /** The discrepancy: for any existing document the written update fails
      and leaves the store as it was, where the intended one (an entry with a
      client timestamp) succeeds and records the update. */
  lemma UpdateRefusedAsWritten(store: map<string, FireContent>, id: string, updates: Updates, userId: string, now: Millis)
    requires id in store
    ensures UpdateContentAsWritten(store, id, updates, userId, now) == (Err(SENTINEL_IN_ARRAY), store)
    ensures UpdateContent(store, id, updates, userId, now).0 == Ok(())
    ensures UpdateContent(store, id, updates, userId, now).1[id] != store[id]
  {
    var u := Updated(store[id], updates, userId, now);
    assert |u.history| == |store[id].history| + 1;
  }

  /** `updateContent` as intended, with the history entry stamped by the
      client's clock (`now`) rather than a sentinel: a missing id returns the
      not-found result and writes nothing; otherwise the document is replaced
      by its update. */
  function UpdateContent(store: map<string, FireContent>, id: string, updates: Updates, userId: string, now: Millis)
    : (r: (Outcome<()>, map<string, FireContent>))
    ensures id !in store ==> r == (Err("Content not found"), store)
    ensures id in store ==> r.0 == Ok(()) && r.1 == store[id := Updated(store[id], updates, userId, now)]
    ensures r.1.Keys == store.Keys
    ensures forall other :: other in store && other != id ==> r.1[other] == store[other]
  {
    match GetContentById(store, id)
    case Err(e) => (Err(e), store)
    case Ok(cur) => (Ok(()), store[id := Updated(cur, updates, userId, now)])
  }

  /** Every update appends exactly one entry holding the previous body and
      the previous version (1 when missing), attributed to the caller, and
      raises the version by one whether or not the body changed; the caller's
      own `version`, `history` and `lastModifiedBy` never survive. The
      creation fields stay unless the caller supplies them, as the spread
      lets it. */
  lemma UpdateSnapshots(cur: FireContent, updates: Updates, userId: string, now: Millis)
    ensures var u := Updated(cur, updates, userId, now);
      && u.history == cur.history + [FireEntry(cur.content, PreviousVersion(cur), userId, now, AUTO_SAVED)]
      && u.version == Some(PreviousVersion(cur) + 1)
      && u.lastModifiedBy == userId
      && u.content == (if updates.content.Some? then updates.content else cur.content)
      && (updates.createdAt.None? ==> u.createdAt == cur.createdAt)
      && (updates.createdBy.None? ==> u.createdBy == cur.createdBy)
  {
  }

  /** The caller's `version`, `history`, `lastModifiedBy` and `updatedAt`
      have no effect: the update is the same as one without them. */
  lemma UpdateIgnoresBookkeeping(cur: FireContent, updates: Updates, userId: string, now: Millis)
    ensures Updated(cur, updates, userId, now)
         == Updated(cur, updates.(version := None, history := None, lastModifiedBy := None, updatedAt := None), userId, now)
  {
  }

  /** Two updates in a row leave two entries, the second holding the body
      the first one wrote, and raise the version by two, for any stored
      version the service itself can have written (none is negative; a -1
      would be bumped to 0, which `|| 1` then reads as 1). */
  lemma TwoUpdates(cur: FireContent, a: Updates, b: Updates, userId: string, t1: Millis, t2: Millis)
    requires cur.version.None? || cur.version.value >= 0
    ensures var once := Updated(cur, a, userId, t1);
      var twice := Updated(once, b, userId, t2);
      && |twice.history| == |cur.history| + 2
      && twice.history[|cur.history|].content == cur.content
      && twice.history[|cur.history| + 1].content == once.content
      && twice.history[|cur.history| + 1].version == PreviousVersion(cur) + 1
      && twice.version == Some(PreviousVersion(cur) + 2)
  {
  }

  /** `deleteContent`. */
  function DeleteContent(store: map<string, FireContent>, id: string): (r: (Outcome<()>, map<string, FireContent>))
    ensures r.0 == Ok(())
    ensures r.1.Keys == store.Keys - {id}
    ensures forall other :: other in r.1 ==> r.1[other] == store[other]
  {
    (Ok(()), map k | k in store && k != id :: store[k])
  }

  function SectionOf(c: FireContent): string {
    c.section
  }

  /** `groupContentBySection`: the `reduce` that pushes every item onto the
      array of its section, creating the array on first sight. */
  method GroupContentBySection(content: seq<FireContent>) returns (groups: Groups<string, FireContent>)
    ensures groups == GroupBy(content, SectionOf)
    ensures GroupedBy(groups, content, SectionOf)
    ensures Total(Sizes(groups)) == |content|
  {
    groups := [];
    var i := 0;
    while i < |content|
      invariant 0 <= i <= |content|
      invariant groups == GroupBy(content[..i], SectionOf)
    {
      assert content[..i + 1][..i] == content[..i];
      groups := Push(groups, content[i].section, content[i]);
      i := i + 1;
    }
    assert content[..|content|] == content;
    GroupByGroups(content, SectionOf);
    GroupByTotal(content, SectionOf);
  }

  datatype Stats = Stats(total: nat, published: nat, unpublished: nat, bySection: Counts<string>)

  function IsPublished(c: FireContent): bool { c.isPublished }
  function IsUnpublished(c: FireContent): bool { !c.isPublished }

  /** `getContentStats` over the result of `getAllContent`: a failure is
      passed on; otherwise the totals, and `bySection` counted in a
      `forEach`. Published and unpublished items add up to the total, and so
      do the per-section counts, each of which is the size of that
      section's group. */
  method GetContentStats(all: Outcome<seq<FireContent>>) returns (r: Outcome<Stats>)
    ensures all.Err? ==> r == Err(all.error)
    ensures all.Ok? ==>
      && r.Ok?
      && r.value.total == |all.value|
      && r.value.published == |Filter(all.value, IsPublished)|
      && r.value.unpublished == |Filter(all.value, IsUnpublished)|
      && r.value.published + r.value.unpublished == r.value.total
      && r.value.bySection == Sizes(GroupBy(all.value, SectionOf))
      && Total(r.value.bySection) == r.value.total
  {
    if all.Err? {
      return Err(all.error);
    }
    var content := all.value;
    var bySection: Counts<string> := [];
    var i := 0;
    while i < |content|
      invariant 0 <= i <= |content|
      invariant bySection == CountBy(content[..i], SectionOf)
    {
      assert content[..i + 1][..i] == content[..i];
      bySection := Bump(bySection, content[i].section);
      i := i + 1;
    }
    assert content[..|content|] == content;
    FilterComplement(content, IsPublished, IsUnpublished);
    CountByIsSizes(content, SectionOf);
    GroupByTotal(content, SectionOf);
    r := Ok(Stats(|content|, |Filter(content, IsPublished)|, |Filter(content, IsUnpublished)|, bySection));
  }
}
