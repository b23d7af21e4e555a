/**
 * The Help Center content as the Zendesk server keeps it (categories, the sections inside
 * them, the articles inside those, and the permission groups), the client-side objects
 * the API hands out for them, and the name lookups the facade performs on listings.
 */
module Remote {
  import opened Wrappers
  import opened JavaText

  // ---------------------------------------------------------------------------
  // Server-side records

  datatype CategoryRecord = CategoryRecord(id: int, name: string, description: string, position: int)

  datatype SectionRecord =
    SectionRecord(id: int, categoryId: int, name: string, description: string, position: int)

  /** What an article says, apart from its id. */
  datatype ArticleData = ArticleData(
    sectionId: int,
    title: string,
    body: string,
    draft: bool,
    promoted: bool,
    position: int,
    labelNames: seq<string>,
    permissionGroupId: Option<int>,
    commentsDisabled: bool)

  datatype ArticleRecord = ArticleRecord(id: int, data: ArticleData)

  datatype PermissionGroup = PermissionGroup(id: int, name: string)

  /** The whole server: listings in the order the API returns them, and the id the
      server gives the next record it creates. */
  datatype Store = Store(
    categories: seq<CategoryRecord>,
    sections: seq<SectionRecord>,
    articles: seq<ArticleRecord>,
    groups: seq<PermissionGroup>,
    nextId: int)

  // ---------------------------------------------------------------------------
  // Client-side objects (org.zendesk.client.v2.model.hc)

  class Category {
    var id: int
    var name: string
    var description: string
    var position: int

    function View(): CategoryRecord
      reads this
    {
      CategoryRecord(id, name, description, position)
    }

    /** `new Category()`: nothing set; the name reads as "". */
    constructor ()
      ensures View() == CategoryRecord(0, "", "", 0)
    {
      id, name, description, position := 0, "", "", 0;
    }

    /** The object the client builds from a server answer. */
    constructor FromRecord(r: CategoryRecord)
      ensures View() == r
    {
      id, name, description, position := r.id, r.name, r.description, r.position;
    }
  }

  class Section {
    var id: int
    var categoryId: int
    var name: string
    var description: string
    var position: int

    function View(): SectionRecord
      reads this
    {
      SectionRecord(id, categoryId, name, description, position)
    }

    /** `new Section()`: nothing set; the name reads as "". */
    constructor ()
      ensures View() == SectionRecord(0, 0, "", "", 0)
    {
      id, categoryId, name, description, position := 0, 0, "", "", 0;
    }

    constructor FromRecord(r: SectionRecord)
      ensures View() == r
    {
      id, categoryId, name, description, position := r.id, r.categoryId, r.name, r.description, r.position;
    }
  }

  class Article {
    /** `None` until the server has created the article. */
    var id: Option<int>
    var sectionId: int
    var title: string
    var body: string
    var draft: bool
    var promoted: bool
    var position: int
    var labelNames: seq<string>
    var permissionGroupId: Option<int>
    var commentsDisabled: bool

    function Data(): ArticleData
      reads this
    {
      ArticleData(sectionId, title, body, draft, promoted, position, labelNames, permissionGroupId, commentsDisabled)
    }

    /** `new Article()`: no id, every other field at its default. */
    constructor ()
      ensures id == None
      ensures Data() == ArticleData(0, "", "", false, false, 0, [], None, false)
    {
      id, sectionId, title, body := None, 0, "", "";
      draft, promoted, position, labelNames := false, false, 0, [];
      permissionGroupId, commentsDisabled := None, false;
    }

    constructor FromRecord(r: ArticleRecord)
      ensures id == Some(r.id) && Data() == r.data
    {
      id := Some(r.id);
      sectionId, title, body := r.data.sectionId, r.data.title, r.data.body;
      draft, promoted, position, labelNames := r.data.draft, r.data.promoted, r.data.position, r.data.labelNames;
      permissionGroupId, commentsDisabled := r.data.permissionGroupId, r.data.commentsDisabled;
    }
  }

  // ---------------------------------------------------------------------------
  // Lookups: `stream(...).filter(v -> v.getName().equalsIgnoreCase(key)).findFirst()`

  /** Index of the first name equal to `key` ignoring case. */
  function FirstIgnoringCase(names: seq<string>, key: string): (r: Option<nat>)
    ensures r.Some? ==> r.value < |names| && EqualsIgnoreCase(names[r.value], key)
    ensures r.Some? ==> forall j | 0 <= j < r.value :: !EqualsIgnoreCase(names[j], key)
    ensures r.None? <==> forall j | 0 <= j < |names| :: !EqualsIgnoreCase(names[j], key)
  {
    if names == [] then None
    else if EqualsIgnoreCase(names[0], key) then Some(0)
    else match FirstIgnoringCase(names[1..], key)
      case None => None
      case Some(i) => Some(i + 1)
  }

  lemma EqualsIgnoreCaseReflexive(s: string)
    ensures EqualsIgnoreCase(s, s)
  {
  }

  /** A name added at the end is found from then on: by itself if nothing before it
      matches, otherwise the earlier match still wins. */
  lemma {:induction false} FirstIgnoringCaseAppend(names: seq<string>, name: string, key: string)
    requires EqualsIgnoreCase(name, key)
    ensures FirstIgnoringCase(names + [name], key)
            == if FirstIgnoringCase(names, key).Some? then FirstIgnoringCase(names, key) else Some(|names|)
  {
    if names != [] {
      assert (names + [name])[1..] == names[1..] + [name];
      FirstIgnoringCaseAppend(names[1..], name, key);
    }
  }

  function CategoryNames(cs: seq<CategoryRecord>): seq<string> {
    seq(|cs|, i requires 0 <= i < |cs| => cs[i].name)
  }

  function SectionNames(ss: seq<SectionRecord>): seq<string> {
    seq(|ss|, i requires 0 <= i < |ss| => ss[i].name)
  }

  function ArticleTitles(arts: seq<ArticleRecord>): seq<string> {
    seq(|arts|, i requires 0 <= i < |arts| => arts[i].data.title)
  }

  function GroupNames(gs: seq<PermissionGroup>): seq<string> {
    seq(|gs|, i requires 0 <= i < |gs| => gs[i].name)
  }

  /** `zendesk.getSections(category)`: the sections of one category, in listing order. */
  function SectionsIn(ss: seq<SectionRecord>, categoryId: int): (r: seq<SectionRecord>)
    ensures |r| <= |ss|
    ensures forall j | 0 <= j < |r| :: r[j].categoryId == categoryId && r[j] in ss
    ensures forall s | s in ss && s.categoryId == categoryId :: s in r
  {
    if ss == [] then []
    else if ss[0].categoryId == categoryId then [ss[0]] + SectionsIn(ss[1..], categoryId)
    else SectionsIn(ss[1..], categoryId)
  }

  /** `zendesk.getArticles(section)`: the articles of one section, in listing order. */
  function ArticlesIn(arts: seq<ArticleRecord>, sectionId: int): (r: seq<ArticleRecord>)
    ensures |r| <= |arts|
    ensures forall j | 0 <= j < |r| :: r[j].data.sectionId == sectionId && r[j] in arts
    ensures forall a | a in arts && a.data.sectionId == sectionId :: a in r
  {
    if arts == [] then []
    else if arts[0].data.sectionId == sectionId then [arts[0]] + ArticlesIn(arts[1..], sectionId)
    else ArticlesIn(arts[1..], sectionId)
  }

  /** The listing of a category keeps the server's order: a section listed after the
      others comes after them in the category's listing, when it belongs there, and an
      empty server lists nothing.  With these two facts the listing is the order-preserving
      selection of the category's sections. */
  lemma {:induction false} SectionsInAppend(ss: seq<SectionRecord>, s: SectionRecord, categoryId: int)
    ensures SectionsIn([], categoryId) == []
    ensures SectionsIn(ss + [s], categoryId)
            == SectionsIn(ss, categoryId) + (if s.categoryId == categoryId then [s] else [])
  {
    if ss != [] {
      assert (ss + [s])[1..] == ss[1..] + [s];
      SectionsInAppend(ss[1..], s, categoryId);
    } else {
      assert ss + [s] == [s];
    }
  }

  /** The listing of a section keeps the server's order, as for categories. */
  lemma {:induction false} ArticlesInAppend(arts: seq<ArticleRecord>, a: ArticleRecord, sectionId: int)
    ensures ArticlesIn([], sectionId) == []
    ensures ArticlesIn(arts + [a], sectionId)
            == ArticlesIn(arts, sectionId) + (if a.data.sectionId == sectionId then [a] else [])
  {
    if arts != [] {
      assert (arts + [a])[1..] == arts[1..] + [a];
      ArticlesInAppend(arts[1..], a, sectionId);
    } else {
      assert arts + [a] == [a];
    }
  }

  /** The first category named `name` (ignoring case). */
  function FindCategory(st: Store, name: string): (r: Option<CategoryRecord>) {
    match FirstIgnoringCase(CategoryNames(st.categories), name)
      case None => None
      case Some(i) => Some(st.categories[i])
  }

  /** The first section of category `categoryId` named `name` (ignoring case). */
  function FindSection(st: Store, categoryId: int, name: string): (r: Option<SectionRecord>) {
    var ss := SectionsIn(st.sections, categoryId);
    match FirstIgnoringCase(SectionNames(ss), name)
      case None => None
      case Some(i) => Some(ss[i])
  }

  /** The first article of section `sectionId` titled `title` (ignoring case). */
  function FindArticle(st: Store, sectionId: int, title: string): (r: Option<ArticleRecord>) {
    var arts := ArticlesIn(st.articles, sectionId);
    match FirstIgnoringCase(ArticleTitles(arts), title)
      case None => None
      case Some(i) => Some(arts[i])
  }

  /** Lookups find a record whose name matches, and find one whenever one matches. */
  lemma FindCategorySound(st: Store, name: string)
    ensures FindCategory(st, name).Some? ==>
              FindCategory(st, name).value in st.categories
              && EqualsIgnoreCase(FindCategory(st, name).value.name, name)
    ensures FindCategory(st, name).None? <==>
              forall c | c in st.categories :: !EqualsIgnoreCase(c.name, name)
  {
    var names := CategoryNames(st.categories);
    if FindCategory(st, name).None? {
      forall c | c in st.categories
        ensures !EqualsIgnoreCase(c.name, name)
      {
        var j :| 0 <= j < |st.categories| && st.categories[j] == c;
        assert names[j] == c.name;
      }
    }
  }

  lemma FindSectionSound(st: Store, categoryId: int, name: string)
    ensures FindSection(st, categoryId, name).Some? ==>
              var s := FindSection(st, categoryId, name).value;
              s in st.sections && s.categoryId == categoryId && EqualsIgnoreCase(s.name, name)
    ensures FindSection(st, categoryId, name).None? <==>
              forall s | s in st.sections && s.categoryId == categoryId :: !EqualsIgnoreCase(s.name, name)
  {
    var ss := SectionsIn(st.sections, categoryId);
    var names := SectionNames(ss);
    if FindSection(st, categoryId, name).None? {
      forall s | s in st.sections && s.categoryId == categoryId
        ensures !EqualsIgnoreCase(s.name, name)
      {
        var j :| 0 <= j < |ss| && ss[j] == s;
        assert names[j] == s.name;
      }
    }
  }

  lemma FindArticleSound(st: Store, sectionId: int, title: string)
    ensures FindArticle(st, sectionId, title).Some? ==>
              var a := FindArticle(st, sectionId, title).value;
              a in st.articles && a.data.sectionId == sectionId && EqualsIgnoreCase(a.data.title, title)
    ensures FindArticle(st, sectionId, title).None? <==>
              forall a | a in st.articles && a.data.sectionId == sectionId :: !EqualsIgnoreCase(a.data.title, title)
  {
    var arts := ArticlesIn(st.articles, sectionId);
    var titles := ArticleTitles(arts);
    if FindArticle(st, sectionId, title).None? {
      forall a | a in st.articles && a.data.sectionId == sectionId
        ensures !EqualsIgnoreCase(a.data.title, title)
      {
        var j :| 0 <= j < |arts| && arts[j] == a;
        assert titles[j] == a.data.title;
      }
    }
  }

  // ---------------------------------------------------------------------------
  // Server-side effects of the write calls

  /** `createCategory`: the server stores the category under the next id. */
  function CategoryCreated(st: Store, name: string, description: string, position: int): Store {
    st.(categories := st.categories + [CategoryRecord(st.nextId, name, description, position)],
        nextId := st.nextId + 1)
  }

  function SectionCreated(st: Store, categoryId: int, name: string, description: string, position: int): Store {
    st.(sections := st.sections + [SectionRecord(st.nextId, categoryId, name, description, position)],
        nextId := st.nextId + 1)
  }

  function ArticleCreated(st: Store, data: ArticleData): Store {
    st.(articles := st.articles + [ArticleRecord(st.nextId, data)], nextId := st.nextId + 1)
  }

  /** `updateCategory`: the record with the same id takes the new values. */
  function CategoryUpdated(st: Store, r: CategoryRecord): Store {
    st.(categories := seq(|st.categories|, i requires 0 <= i < |st.categories| =>
          if st.categories[i].id == r.id then r else st.categories[i]))
  }

  function SectionUpdated(st: Store, r: SectionRecord): Store {
    st.(sections := seq(|st.sections|, i requires 0 <= i < |st.sections| =>
          if st.sections[i].id == r.id then r else st.sections[i]))
  }

  function ArticleUpdated(st: Store, id: int, data: ArticleData): Store {
    st.(articles := seq(|st.articles|, i requires 0 <= i < |st.articles| =>
          if st.articles[i].id == id then ArticleRecord(id, data) else st.articles[i]))
  }

  /** `deleteArticle`: every record with that id is gone, the others stay in order. */
  function ArticleDeleted(st: Store, id: int): (r: Store)
    ensures forall a | a in r.articles :: a.id != id && a in st.articles
    ensures forall a | a in st.articles && a.id != id :: a in r.articles
  {
    st.(articles := Without(st.articles, id))
  }

  function Without(arts: seq<ArticleRecord>, id: int): (r: seq<ArticleRecord>)
    ensures forall a | a in r :: a.id != id && a in arts
    ensures forall a | a in arts && a.id != id :: a in r
  {
    if arts == [] then []
    else if arts[0].id == id then Without(arts[1..], id)
    else [arts[0]] + Without(arts[1..], id)
  }

  /** After a category is created, looking up its name finds it, unless an earlier
      category already answers to that name: a second get-or-create takes the "found"
      branch. */
  lemma CreateThenFindCategory(st: Store, name: string, description: string, position: int)
    ensures var st' := CategoryCreated(st, name, description, position);
            FindCategory(st', name)
            == if FindCategory(st, name).Some? then FindCategory(st, name)
               else Some(CategoryRecord(st.nextId, name, description, position))
  {
    var rec := CategoryRecord(st.nextId, name, description, position);
    var st' := CategoryCreated(st, name, description, position);
    assert CategoryNames(st'.categories) == CategoryNames(st.categories) + [name];
    EqualsIgnoreCaseReflexive(name);
    FirstIgnoringCaseAppend(CategoryNames(st.categories), name, name);
  }

  lemma CreateThenFindSection(st: Store, categoryId: int, name: string, description: string, position: int)
    ensures var st' := SectionCreated(st, categoryId, name, description, position);
            FindSection(st', categoryId, name)
            == if FindSection(st, categoryId, name).Some? then FindSection(st, categoryId, name)
               else Some(SectionRecord(st.nextId, categoryId, name, description, position))
  {
    var rec := SectionRecord(st.nextId, categoryId, name, description, position);
    var st' := SectionCreated(st, categoryId, name, description, position);
    SectionsInAppend(st.sections, rec, categoryId);
    var ss := SectionsIn(st.sections, categoryId);
    assert SectionNames(ss + [rec]) == SectionNames(ss) + [name];
    EqualsIgnoreCaseReflexive(name);
    FirstIgnoringCaseAppend(SectionNames(ss), name, name);
  }
}
