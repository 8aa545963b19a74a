/** routes/content.js: the public read endpoints. */
module ContentRoutes {
  import opened Common
  import opened Sorting
  import opened Grouping
  import opened ContentModel

  /** `GET /section/:section`: the published items of that section, ordered by
      `order`, as the model's static returns them. */
  function SectionEndpoint(docs: seq<ContentRecord>, section: string): (r: Reply<seq<ContentRecord>>)
    ensures r.Success? && r.status == 200
    ensures forall d :: d in r.body <==> d in docs && d.isPublished && SectionName(d.section) == section
    ensures SortedBy(r.body, OrderOf)
  {
    Success(200, GetPublishedBySection(docs, section))
  }

  /** `GET /key/:key`: 404 unless a published item has that key once trimmed. */
  function KeyEndpoint(docs: seq<ContentRecord>, key: string): (r: Reply<ContentRecord>)
    ensures r.Failure? <==> forall d :: d in docs ==> !(d.key == Trim(key) && d.isPublished)
    ensures r.Failure? ==> r == Failure(404, "Content not found")
    ensures r.Success? ==> r.status == 200 && r.body in docs && r.body.key == Trim(key) && r.body.isPublished
  {
    match GetByKey(docs, key)
    case None => Failure(404, "Content not found")
    case Some(d) => Success(200, d)
  }

  /** A key requested with a leading space finds the published item stored
      under the key without it. */
  lemma PaddedKeyFound(d: ContentRecord)
    requires d.key == "about" && d.isPublished
    ensures KeyEndpoint([d], " about") == Success(200, d)
  {
    PaddedAboutTrimmed();
    assert GetByKey([d], " about") == Some(d);
  }

  /** The key of the request above, once trimmed. */
  lemma PaddedAboutTrimmed()
    ensures Trim(" about") == "about"
  {
    TrimLeadingSpace(' ', "about");
    TrimUnpadded("about");
    assert " about" == [' '] + "about";
  }

  /** An item as `GET /` shows it: without its history and last modifier. */
  datatype PublicContent = PublicContent(id: Id, key: string, title: string, content: string, ctype: ContentType,
                                         section: Section, isPublished: bool, order: int, version: int,
                                         createdAt: Millis)

  function Public(d: ContentRecord): PublicContent {
    PublicContent(d.id, d.key, d.title, d.content, d.ctype, d.section, d.isPublished, d.order, d.version, d.createdAt)
  }

  function Project(s: seq<ContentRecord>): (r: seq<PublicContent>)
    ensures |r| == |s|
    ensures forall k :: 0 <= k < |s| ==> r[k] == Public(s[k])
  {
    if s == [] then [] else [Public(s[0])] + Project(s[1..])
  }

  function PublicOrder(p: PublicContent): int { p.order }
  function PublicRank(p: PublicContent): int { SectionRank(p.section) }
  function PublicSection(p: PublicContent): Section { p.section }
  function Published(d: ContentRecord): bool { d.isPublished }

  /** The ordered list `GET /` groups: the published items, projected,
      sorted by section and then by order. */
  function AllPublished(docs: seq<ContentRecord>): seq<PublicContent> {
    SortBy(SortBy(Project(Filter(docs, Published)), PublicOrder), PublicRank)
  }

  /** `GET /`: the published items grouped by section with the `reduce` fold. */
  function AllContent(docs: seq<ContentRecord>): Groups<Section, PublicContent> {
    GroupBy(AllPublished(docs), PublicSection)
  }

  lemma {:induction false} SelectBySectionIsByRank(s: seq<PublicContent>, sec: Section)
    ensures Select(s, PublicSection, sec) == Select(s, PublicRank, SectionRank(sec))
  {
    if s != [] {
      SelectBySectionIsByRank(s[1..], sec);
      SectionRankIsNameOrder(s[0].section, sec);
    }
  }

  /** The sorted list is a permutation of the projected published items. */
  lemma AllPublishedPermutes(docs: seq<ContentRecord>)
    ensures multiset(AllPublished(docs)) == multiset(Project(Filter(docs, Published)))
    ensures SortedBy(AllPublished(docs), PublicRank)
  {
    var m := Project(Filter(docs, Published));
    SortBySortsAndPermutes(m, PublicOrder);
    SortBySortsAndPermutes(SortBy(m, PublicOrder), PublicRank);
  }

  /** An item is projected from the published ones iff some published item shows as it. */
  lemma ProjectedPublished(docs: seq<ContentRecord>)
    ensures forall p :: p in Project(Filter(docs, Published)) <==> exists d :: d in docs && d.isPublished && Public(d) == p
  {
    var f := Filter(docs, Published);
    var m := Project(f);
    forall p | p in m ensures exists d :: d in docs && d.isPublished && Public(d) == p {
      var k :| 0 <= k < |m| && m[k] == p;
      assert f[k] in f;
    }
    forall d | d in docs && d.isPublished ensures Public(d) in m {
      assert d in f;
      var k :| 0 <= k < |f| && f[k] == d;
      assert m[k] == Public(d);
    }
  }

  /** The sorted list holds exactly the projected published items, ordered
      by section. */
  lemma AllPublishedFacts(docs: seq<ContentRecord>)
    ensures var s := AllPublished(docs);
      && |s| == |Filter(docs, Published)|
      && SortedBy(s, PublicRank)
      && (forall p :: p in s <==> exists d :: d in docs && d.isPublished && Public(d) == p)
  {
    var s := AllPublished(docs);
    var m := Project(Filter(docs, Published));
    AllPublishedPermutes(docs);
    ProjectedPublished(docs);
    assert |s| == |m| by {
      assert |multiset(s)| == |multiset(m)|;
    }
    forall p ensures p in s <==> p in m {
      assert p in s <==> p in multiset(s);
      assert p in m <==> p in multiset(m);
    }
  }

  lemma SectionRankInjective()
    ensures forall a: Section, b: Section :: SectionRank(a) == SectionRank(b) ==> a == b
  {
    forall a: Section, b: Section | SectionRank(a) == SectionRank(b) ensures a == b {
      SectionRankIsNameOrder(a, b);
    }
  }

  /** Sections appear once each, in ascending rank. */
  lemma AllContentSectionOrder(docs: seq<ContentRecord>)
    ensures KeysAscending(AllContent(docs), SectionRank)
  {
    var s := AllPublished(docs);
    AllPublishedFacts(docs);
    SectionRankInjective();
    forall i, j | 0 <= i < j < |s| ensures SectionRank(PublicSection(s[i])) <= SectionRank(PublicSection(s[j])) {
      assert PublicRank(s[i]) <= PublicRank(s[j]);
    }
    GroupByKeysAscending(s, PublicSection, SectionRank);
  }

  /** Sections appear in the string order of their names, as the query's
      `section` sort leaves them. */
  lemma AllContentNameOrder(docs: seq<ContentRecord>)
    ensures var g := AllContent(docs);
      forall i, j :: 0 <= i < j < |g| ==> StringBefore(SectionName(g[i].0), SectionName(g[j].0))
  {
    AllContentSectionOrder(docs);
    var g := AllContent(docs);
    forall i, j | 0 <= i < j < |g| ensures StringBefore(SectionName(g[i].0), SectionName(g[j].0)) {
      SectionRankIsNameOrder(g[i].0, g[j].0);
    }
  }

  /** Each section lists its items ordered by `order`. */
  lemma AllContentGroupsSorted(docs: seq<ContentRecord>)
    ensures var g := AllContent(docs);
      forall i :: 0 <= i < |g| ==> SortedBy(g[i].1, PublicOrder) && g[i].1 != []
  {
    var byOrder := SortBy(Project(Filter(docs, Published)), PublicOrder);
    var s := SortBy(byOrder, PublicRank);
    SortBySortsAndPermutes(Project(Filter(docs, Published)), PublicOrder);
    GroupByGroups(s, PublicSection);
    var g := GroupBy(s, PublicSection);
    forall i | 0 <= i < |g| ensures SortedBy(g[i].1, PublicOrder) {
      SelectBySectionIsByRank(s, g[i].0);
      SortByStable(byOrder, PublicRank, SectionRank(g[i].0));
      SelectSorted(byOrder, PublicRank, SectionRank(g[i].0), PublicOrder);
    }
  }

  /** Each section lists exactly the published items of that section. */
  lemma AllContentGroupsExact(docs: seq<ContentRecord>)
    ensures var g := AllContent(docs);
      forall i, p :: 0 <= i < |g| ==>
        (p in g[i].1 <==> p.section == g[i].0 && exists d :: d in docs && d.isPublished && Public(d) == p)
  {
    AllPublishedFacts(docs);
    GroupByGroups(AllPublished(docs), PublicSection);
  }

  /** Every published item's section has a group. */
  lemma AllContentCovers(docs: seq<ContentRecord>)
    ensures forall d :: d in docs && d.isPublished ==> d.section in Keys(AllContent(docs))
  {
    var s := AllPublished(docs);
    AllPublishedFacts(docs);
    GroupByGroups(s, PublicSection);
    forall d | d in docs && d.isPublished ensures d.section in Keys(AllContent(docs)) {
      assert Public(d) in s;
      assert PublicSection(Public(d)) == d.section;
    }
  }

  /** The groups hold as many items as there are published ones. */
  lemma AllContentTotal(docs: seq<ContentRecord>)
    ensures Total(Sizes(AllContent(docs))) == |Filter(docs, Published)|
  {
    AllPublishedFacts(docs);
    GroupByTotal(AllPublished(docs), PublicSection);
  }
}
