/**
 * `ZendeskFacade`: the resilient client the synchronisation goes through.  Every
 * operation runs the bounded retry loop of module `Retry`; the server-side effect of
 * the one attempt that goes through is applied to the store, and the objects handed
 * back are fresh client-side copies of the records the server answered with.
 *
 * Each operation is specified twice: by a pure function on (store, channel) that says
 * what the call does (`GetCategoryCall`, `AddCategoryCall`, ...), about which the lemmas
 * at the end of the module are proved, and by the method of class `ZendeskFacade` that
 * does it in place and is proved to agree with that function.
 */
module Facade {
  import opened Wrappers
  import opened JavaText
  import opened RateLimit
  import opened Retry
  import opened Remote

  /** A call's effect: the store and channel afterwards, and what it returned. */
  datatype Call<T> = Call(store: Store, channel: Channel, result: Option<T>)

  // ---------------------------------------------------------------------------
  // Categories

  /** `getCategory(name)`: the first category whose name equals `name` ignoring case;
      empty when there is none or the retries ran out. */
  function GetCategoryCall(st: Store, ch: Channel, max: int, name: string): Call<CategoryRecord> {
    Call(st, AfterRetry(ch, max), if Answered(max, ch) then FindCategory(st, name) else None)
  }

  /** `addCategory(name, description, position)` */
  function AddCategoryCall(st: Store, ch: Channel, max: int, name: string, description: string, position: int)
    : Call<CategoryRecord>
  {
    if Answered(max, ch) then
      Call(CategoryCreated(st, name, description, position), AfterRetry(ch, max),
           Some(CategoryRecord(st.nextId, name, description, position)))
    else Call(st, AfterRetry(ch, max), None)
  }

  /** The test `updateCategory` and `updateSection` make before anything else: same name,
      same description ignoring case, same position. */
  predicate NoUpdateNeeded(name: string, description: string, position: int,
                           newName: string, newDescription: string, newPosition: int) {
    name == newName && EqualsIgnoreCase(description, newDescription) && position == newPosition
  }

  /** The passed category object after `updateCategory`: the new values are written
      into it by the first attempt, before the request, whatever the request's fate. */
  function EditedCategory(max: int, c: CategoryRecord, newName: string, newDescription: string, newPosition: int)
    : CategoryRecord
  {
    if NoUpdateNeeded(c.name, c.description, c.position, newName, newDescription, newPosition) || max < 1 then c
    else c.(name := newName, description := newDescription, position := newPosition)
  }

  /** `updateCategory(category, newName, newDescription, newPosition)` */
  function UpdateCategoryCall(st: Store, ch: Channel, max: int, c: CategoryRecord,
                              newName: string, newDescription: string, newPosition: int): Call<CategoryRecord>
  {
    if NoUpdateNeeded(c.name, c.description, c.position, newName, newDescription, newPosition) then
      Call(st, ch, Some(c))
    else
      var edited := EditedCategory(max, c, newName, newDescription, newPosition);
      if Answered(max, ch) then Call(CategoryUpdated(st, edited), AfterRetry(ch, max), Some(edited))
      else Call(st, AfterRetry(ch, max), None)
  }

  /** Get-or-create: look the category up by `key`; when found, update it to the given
      values if `update` is set, else return it; when not found (or the lookup ran out
      of attempts), create it.  With `key == name` this is `getCategory(name, description,
      position, update)`; the rename-aware variant looks up by the old name instead. */
  function GetOrAddCategoryCall(st: Store, ch: Channel, max: int, key: string,
                                name: string, description: string, position: int, update: bool)
    : Call<CategoryRecord>
  {
    var found := GetCategoryCall(st, ch, max, key);
    if found.result.Some? then
      if update then UpdateCategoryCall(found.store, found.channel, max, found.result.value, name, description, position)
      else found
    else AddCategoryCall(found.store, found.channel, max, name, description, position)
  }

  /** The lookup key of the rename-aware get-or-create: the old name when one is given. */
  function RenameKey(oldName: string, name: string): string {
    if IsBlank(oldName) then name else oldName
  }

  // ---------------------------------------------------------------------------
  // Sections

  /** `getSection(category, name)` */
  function GetSectionCall(st: Store, ch: Channel, max: int, categoryId: int, name: string): Call<SectionRecord> {
    Call(st, AfterRetry(ch, max), if Answered(max, ch) then FindSection(st, categoryId, name) else None)
  }

  /** `getSection(categoryName, name)`: no section request when the category is not found. */
  function GetSectionByNameCall(st: Store, ch: Channel, max: int, categoryName: string, name: string)
    : Call<SectionRecord>
  {
    var c := GetCategoryCall(st, ch, max, categoryName);
    if c.result.None? then Call(c.store, c.channel, None)
    else GetSectionCall(c.store, c.channel, max, c.result.value.id, name)
  }

  /** `addSection(category, name, description, position)` */
  function AddSectionCall(st: Store, ch: Channel, max: int, categoryId: int,
                          name: string, description: string, position: int): Call<SectionRecord>
  {
    if Answered(max, ch) then
      Call(SectionCreated(st, categoryId, name, description, position), AfterRetry(ch, max),
           Some(SectionRecord(st.nextId, categoryId, name, description, position)))
    else Call(st, AfterRetry(ch, max), None)
  }

  /** `addSection(categoryName, name, description, position)` */
  function AddSectionByNameCall(st: Store, ch: Channel, max: int, categoryName: string,
                                name: string, description: string, position: int): Call<SectionRecord>
  {
    var c := GetCategoryCall(st, ch, max, categoryName);
    if c.result.None? then Call(c.store, c.channel, None)
    else AddSectionCall(c.store, c.channel, max, c.result.value.id, name, description, position)
  }

  function EditedSection(max: int, s: SectionRecord, newName: string, newDescription: string, newPosition: int)
    : SectionRecord
  {
    if NoUpdateNeeded(s.name, s.description, s.position, newName, newDescription, newPosition) || max < 1 then s
    else s.(name := newName, description := newDescription, position := newPosition)
  }

  /** `updateSection(section, newName, newDescription, newPosition)` */
  function UpdateSectionCall(st: Store, ch: Channel, max: int, s: SectionRecord,
                             newName: string, newDescription: string, newPosition: int): Call<SectionRecord>
  {
    if NoUpdateNeeded(s.name, s.description, s.position, newName, newDescription, newPosition) then
      Call(st, ch, Some(s))
    else
      var edited := EditedSection(max, s, newName, newDescription, newPosition);
      if Answered(max, ch) then Call(SectionUpdated(st, edited), AfterRetry(ch, max), Some(edited))
      else Call(st, AfterRetry(ch, max), None)
  }

  /** `getSection(category, name, description, position, update)`, looking up by `key`. */
  function GetOrAddSectionCall(st: Store, ch: Channel, max: int, categoryId: int, key: string,
                               name: string, description: string, position: int, update: bool)
    : Call<SectionRecord>
  {
    var found := GetSectionCall(st, ch, max, categoryId, key);
    if found.result.Some? then
      if update then UpdateSectionCall(found.store, found.channel, max, found.result.value, name, description, position)
      else found
    else AddSectionCall(found.store, found.channel, max, categoryId, name, description, position)
  }

  /** `getSection(categoryName, name, description, position, update)` */
  function GetOrAddSectionByNameCall(st: Store, ch: Channel, max: int, categoryName: string,
                                     name: string, description: string, position: int, update: bool)
    : Call<SectionRecord>
  {
    var found := GetSectionByNameCall(st, ch, max, categoryName, name);
    if found.result.Some? then
      if update then UpdateSectionCall(found.store, found.channel, max, found.result.value, name, description, position)
      else found
    else AddSectionByNameCall(found.store, found.channel, max, categoryName, name, description, position)
  }

  // ---------------------------------------------------------------------------
  // Articles and permission groups

  /** `getArticle(section, title)` */
  function GetArticleCall(st: Store, ch: Channel, max: int, sectionId: int, title: string): Call<ArticleRecord> {
    Call(st, AfterRetry(ch, max), if Answered(max, ch) then FindArticle(st, sectionId, title) else None)
  }

  /** `addArticle(article)`: the server stores the article's data under the next id. */
  function AddArticleCall(st: Store, ch: Channel, max: int, data: ArticleData): Call<ArticleRecord> {
    if Answered(max, ch) then
      Call(ArticleCreated(st, data), AfterRetry(ch, max), Some(ArticleRecord(st.nextId, data)))
    else Call(st, AfterRetry(ch, max), None)
  }

  /** `updateArticle(article)` for an article that has an id. */
  function UpdateArticleCall(st: Store, ch: Channel, max: int, id: int, data: ArticleData): Call<ArticleRecord> {
    if Answered(max, ch) then
      Call(ArticleUpdated(st, id, data), AfterRetry(ch, max), Some(ArticleRecord(id, data)))
    else Call(st, AfterRetry(ch, max), None)
  }

  /** The id of the first permission group named `title` ignoring case, in listing
      order (`findFirst` keeps the encounter order even on a parallel stream). */
  function FindGroup(st: Store, title: string): (r: Option<int>)
    ensures r.Some? ==> exists i | 0 <= i < |st.groups| ::
                          st.groups[i].id == r.value && EqualsIgnoreCase(st.groups[i].name, title)
                          && forall j | 0 <= j < i :: !EqualsIgnoreCase(st.groups[j].name, title)
    ensures r.None? <==> forall g | g in st.groups :: !EqualsIgnoreCase(g.name, title)
  {
    var names := GroupNames(st.groups);
    assert forall j | 0 <= j < |st.groups| :: names[j] == st.groups[j].name;
    match FirstIgnoringCase(names, title)
    case None =>
      None
    case Some(i) =>
      assert EqualsIgnoreCase(st.groups[i].name, title);
      Some(st.groups[i].id)
  }

  // ---------------------------------------------------------------------------
  // Client-side views of returned objects

  function CategoryView(r: Option<Category>): Option<CategoryRecord>
    reads if r.Some? then {r.value} else {}
  {
    if r.Some? then Some(r.value.View()) else None
  }

  function SectionView(r: Option<Section>): Option<SectionRecord>
    reads if r.Some? then {r.value} else {}
  {
    if r.Some? then Some(r.value.View()) else None
  }

  function ArticleView(r: Option<Article>): Option<ArticleRecord>
    reads if r.Some? then {r.value} else {}
  {
    if r.Some? && r.value.id.Some? then Some(ArticleRecord(r.value.id.value, r.value.Data())) else None
  }

  /** The articles of a listing, as records, when they all have ids. */
  ghost predicate Lists(list: seq<Article>, recs: seq<ArticleRecord>)
    reads set k | 0 <= k < |list| :: list[k]
  {
    |list| == |recs|
    && forall k | 0 <= k < |list| :: list[k].id == Some(recs[k].id) && list[k].Data() == recs[k].data
  }

  class ZendeskFacade {
    /** `zendesk.max-attempts` */
    const maxRequestAttempts: int
    /** The server's content. */
    var store: Store
    /** The answers still to come, the sleeps asked for, the requests sent. */
    var channel: Channel

    constructor (maxRequestAttempts: int, store: Store, script: seq<Attempt>)
      ensures this.maxRequestAttempts == maxRequestAttempts
      ensures this.store == store && channel == Channel(script, [], 0)
    {
      this.maxRequestAttempts := maxRequestAttempts;
      this.store := store;
      channel := Channel(script, [], 0);
    }

    /** `apiRateLimitWait(seconds)`: sleeps `seconds * 1000` milliseconds. */
    method ApiRateLimitWait(seconds: int)
      modifies this
      ensures channel == old(channel).(sleeps := old(channel.sleeps) + [SleepMillis(seconds)])
      ensures store == old(store)
    {
      channel := channel.(sleeps := channel.sleeps + [SleepMillis(seconds)]);
    }

    /** The loop shared by every operation: up to `maxRequestAttempts` requests, stopping
        at the first that goes through; a rate-limit answer waits its `Retry-After`
        delay, any other failure retries at once.  Says whether a request went through. */
    method RetryLoop() returns (ok: bool)
      modifies this
      ensures channel == AfterRetry(old(channel), maxRequestAttempts)
      ensures ok == Answered(maxRequestAttempts, old(channel))
      ensures store == old(store)
    {
      var i := 0;
      while i < maxRequestAttempts
        invariant 0 <= i && (i <= maxRequestAttempts || i == 0)
        invariant store == old(store)
        invariant AfterRetry(old(channel), maxRequestAttempts) == AfterRetry(channel, maxRequestAttempts - i)
        invariant Answered(maxRequestAttempts, old(channel)) == Answered(maxRequestAttempts - i, channel)
      {
        AfterRetryStep(channel, maxRequestAttempts - i);
        var answer := Next(channel.script);
        channel := channel.(script := Rest(channel.script), requests := channel.requests + 1);
        match answer {
          case Ok =>
            return true;
          case RateLimited(e) =>
            ApiRateLimitWait(GetRetryAfter(e));
          case Failed =>
        }
        i := i + 1;
      }
      AfterRetryNone(channel, maxRequestAttempts - i);
      return false;
    }

    /** `getCategory(categoryName)` */
    method GetCategory(categoryName: string) returns (r: Option<Category>)
      modifies this
      ensures Call(store, channel, CategoryView(r)) == GetCategoryCall(old(store), old(channel), maxRequestAttempts, categoryName)
      ensures r.Some? ==> fresh(r.value)
    {
      var ok := RetryLoop();
      if ok {
        var i := FirstIgnoringCase(CategoryNames(store.categories), categoryName);
        if i.Some? {
          var c := new Category.FromRecord(store.categories[i.value]);
          return Some(c);
        }
      }
      return None;
    }

    /** `addCategory(name, description, position)` */
    method AddCategory(name: string, description: string, position: int) returns (r: Option<Category>)
      modifies this
      ensures Call(store, channel, CategoryView(r)) == AddCategoryCall(old(store), old(channel), maxRequestAttempts, name, description, position)
      ensures r.Some? ==> fresh(r.value)
    {
      var id := store.nextId;
      var ok := RetryLoop();
      if ok {
        store := CategoryCreated(store, name, description, position);
        var c := new Category.FromRecord(CategoryRecord(id, name, description, position));
        return Some(c);
      }
      return None;
    }

    /** `updateCategory(category, newName, newDescription, newPosition)`: the passed
        object itself comes back, with no request, when nothing changes; otherwise it is
        overwritten with the new values before the request is sent. */
    method UpdateCategory(category: Category, newName: string, newDescription: string, newPosition: int)
      returns (r: Option<Category>)
      modifies this, category
      ensures Call(store, channel, CategoryView(r))
              == UpdateCategoryCall(old(store), old(channel), maxRequestAttempts, old(category.View()), newName, newDescription, newPosition)
      ensures category.View() == EditedCategory(maxRequestAttempts, old(category.View()), newName, newDescription, newPosition)
      ensures NoUpdateNeeded(old(category.name), old(category.description), old(category.position), newName, newDescription, newPosition)
              ==> r == Some(category)
      ensures r.Some? ==> r.value == category || fresh(r.value)
    {
      if category.name == newName && EqualsIgnoreCase(category.description, newDescription) && category.position == newPosition {
        return Some(category);
      }
      if maxRequestAttempts >= 1 {
        category.name, category.description, category.position := newName, newDescription, newPosition;
      }
      var ok := RetryLoop();
      if ok {
        store := CategoryUpdated(store, category.View());
        var c := new Category.FromRecord(category.View());
        return Some(c);
      }
      return None;
    }

    /** `getCategory(name, description, position, update)` */
    method GetOrAddCategory(name: string, description: string, position: int, update: bool) returns (r: Option<Category>)
      modifies this
      ensures Call(store, channel, CategoryView(r))
              == GetOrAddCategoryCall(old(store), old(channel), maxRequestAttempts, name, name, description, position, update)
      ensures r.Some? ==> fresh(r.value)
    {
      r := GetOrAddRenamedCategory("", name, description, position, update);
    }

    /** The rename-aware get-or-create: the category is looked up under `oldName` when
        that is not blank, and under `name` otherwise. */
    method GetOrAddRenamedCategory(oldName: string, name: string, description: string, position: int, update: bool)
      returns (r: Option<Category>)
      modifies this
      ensures Call(store, channel, CategoryView(r))
              == GetOrAddCategoryCall(old(store), old(channel), maxRequestAttempts, RenameKey(oldName, name), name, description, position, update)
      ensures r.Some? ==> fresh(r.value)
    {
      var found := GetCategory(RenameKey(oldName, name));
      if found.Some? {
        if update {
          r := UpdateCategory(found.value, name, description, position);
        } else {
          r := found;
        }
      } else {
        r := AddCategory(name, description, position);
      }
    }

    /** `getSection(category, sectionName)` */
    method GetSection(category: Category, sectionName: string) returns (r: Option<Section>)
      modifies this
      ensures Call(store, channel, SectionView(r)) == GetSectionCall(old(store), old(channel), maxRequestAttempts, category.id, sectionName)
      ensures r.Some? ==> fresh(r.value)
    {
      var ok := RetryLoop();
      if ok {
        var ss := SectionsIn(store.sections, category.id);
        var i := FirstIgnoringCase(SectionNames(ss), sectionName);
        if i.Some? {
          var s := new Section.FromRecord(ss[i.value]);
          return Some(s);
        }
      }
      return None;
    }

    /** `getSection(categoryName, sectionName)` */
    method GetSectionByName(categoryName: string, sectionName: string) returns (r: Option<Section>)
      modifies this
      ensures Call(store, channel, SectionView(r)) == GetSectionByNameCall(old(store), old(channel), maxRequestAttempts, categoryName, sectionName)
      ensures r.Some? ==> fresh(r.value)
    {
      var c := GetCategory(categoryName);
      if c.None? {
        return None;
      }
      r := GetSection(c.value, sectionName);
    }

    /** `addSection(category, name, description, position)` */
    method AddSection(category: Category, name: string, description: string, position: int) returns (r: Option<Section>)
      modifies this
      ensures Call(store, channel, SectionView(r)) == AddSectionCall(old(store), old(channel), maxRequestAttempts, category.id, name, description, position)
      ensures r.Some? ==> fresh(r.value)
    {
      var id := store.nextId;
      var ok := RetryLoop();
      if ok {
        store := SectionCreated(store, category.id, name, description, position);
        var s := new Section.FromRecord(SectionRecord(id, category.id, name, description, position));
        return Some(s);
      }
      return None;
    }

    /** `addSection(categoryName, name, description, position)` */
    method AddSectionByName(categoryName: string, name: string, description: string, position: int) returns (r: Option<Section>)
      modifies this
      ensures Call(store, channel, SectionView(r)) == AddSectionByNameCall(old(store), old(channel), maxRequestAttempts, categoryName, name, description, position)
      ensures r.Some? ==> fresh(r.value)
    {
      var c := GetCategory(categoryName);
      if c.None? {
        return None;
      }
      r := AddSection(c.value, name, description, position);
    }

    /** `updateSection(section, newName, newDescription, newPosition)` */
    method UpdateSection(section: Section, newName: string, newDescription: string, newPosition: int)
      returns (r: Option<Section>)
      modifies this, section
      ensures Call(store, channel, SectionView(r))
              == UpdateSectionCall(old(store), old(channel), maxRequestAttempts, old(section.View()), newName, newDescription, newPosition)
      ensures section.View() == EditedSection(maxRequestAttempts, old(section.View()), newName, newDescription, newPosition)
      ensures NoUpdateNeeded(old(section.name), old(section.description), old(section.position), newName, newDescription, newPosition)
              ==> r == Some(section)
      ensures r.Some? ==> r.value == section || fresh(r.value)
    {
      if section.name == newName && EqualsIgnoreCase(section.description, newDescription) && section.position == newPosition {
        return Some(section);
      }
      if maxRequestAttempts >= 1 {
        section.name, section.description, section.position := newName, newDescription, newPosition;
      }
      var ok := RetryLoop();
      if ok {
        store := SectionUpdated(store, section.View());
        var s := new Section.FromRecord(section.View());
        return Some(s);
      }
      return None;
    }

    /** `getSection(categoryName, name, description, position, update)` */
    method GetOrAddSectionByName(categoryName: string, name: string, description: string, position: int, update: bool)
      returns (r: Option<Section>)
      modifies this
      ensures Call(store, channel, SectionView(r))
              == GetOrAddSectionByNameCall(old(store), old(channel), maxRequestAttempts, categoryName, name, description, position, update)
      ensures r.Some? ==> fresh(r.value)
    {
      var found := GetSectionByName(categoryName, name);
      if found.Some? {
        if update {
          r := UpdateSection(found.value, name, description, position);
        } else {
          r := found;
        }
      } else {
        r := AddSectionByName(categoryName, name, description, position);
      }
    }

    /** `getSection(category, name, description, position, update)` */
    method GetOrAddSection(category: Category, name: string, description: string, position: int, update: bool)
      returns (r: Option<Section>)
      modifies this
      ensures Call(store, channel, SectionView(r))
              == GetOrAddSectionCall(old(store), old(channel), maxRequestAttempts, category.id, name, name, description, position, update)
      ensures r.Some? ==> fresh(r.value)
    {
      r := GetOrAddRenamedSection(category, "", name, description, position, update);
    }

    /** The rename-aware variant: the section is looked up under `oldName` when that is
        not blank, and under `name` otherwise. */
    method GetOrAddRenamedSection(category: Category, oldName: string, name: string, description: string, position: int, update: bool)
      returns (r: Option<Section>)
      modifies this
      ensures Call(store, channel, SectionView(r))
              == GetOrAddSectionCall(old(store), old(channel), maxRequestAttempts, category.id, RenameKey(oldName, name), name, description, position, update)
      ensures r.Some? ==> fresh(r.value)
    {
      var found := GetSection(category, RenameKey(oldName, name));
      if found.Some? {
        if update {
          r := UpdateSection(found.value, name, description, position);
        } else {
          r := found;
        }
      } else {
        r := AddSection(category, name, description, position);
      }
    }

    /** Fresh client objects for a listing. */
    method Materialise(recs: seq<ArticleRecord>) returns (list: seq<Article>)
      ensures Lists(list, recs)
      ensures forall k | 0 <= k < |list| :: fresh(list[k])
    {
      list := [];
      var j := 0;
      while j < |recs|
        invariant j <= |recs| && Lists(list, recs[..j])
        invariant forall k | 0 <= k < |list| :: fresh(list[k])
      {
        var a := new Article.FromRecord(recs[j]);
        list := list + [a];
        j := j + 1;
      }
      assert recs[..j] == recs;
    }

    /** `getArticles(section)`: the section's articles, or an empty list when the
        retries ran out. */
    method GetArticles(section: Section) returns (list: seq<Article>)
      modifies this
      ensures store == old(store) && channel == AfterRetry(old(channel), maxRequestAttempts)
      ensures Answered(maxRequestAttempts, old(channel)) ==> Lists(list, ArticlesIn(old(store).articles, section.id))
      ensures !Answered(maxRequestAttempts, old(channel)) ==> list == []
      ensures forall k | 0 <= k < |list| :: fresh(list[k])
    {
      var ok := RetryLoop();
      list := [];
      if ok {
        list := Materialise(ArticlesIn(store.articles, section.id));
      }
    }

    /** `getArticles()`: every article of the Help Center, with the same retry loop. */
    method GetAllArticles() returns (list: seq<Article>)
      modifies this
      ensures store == old(store) && channel == AfterRetry(old(channel), maxRequestAttempts)
      ensures Answered(maxRequestAttempts, old(channel)) ==> Lists(list, old(store).articles)
      ensures !Answered(maxRequestAttempts, old(channel)) ==> list == []
      ensures forall k | 0 <= k < |list| :: fresh(list[k])
    {
      var ok := RetryLoop();
      list := [];
      if ok {
        list := Materialise(store.articles);
      }
    }

    /** `getArticle(section, articleTitle)` */
    method GetArticle(section: Section, articleTitle: string) returns (r: Option<Article>)
      modifies this
      ensures Call(store, channel, ArticleView(r)) == GetArticleCall(old(store), old(channel), maxRequestAttempts, section.id, articleTitle)
      ensures r.Some? ==> fresh(r.value) && r.value.id.Some?
    {
      var ok := RetryLoop();
      if ok {
        var arts := ArticlesIn(store.articles, section.id);
        var i := FirstIgnoringCase(ArticleTitles(arts), articleTitle);
        if i.Some? {
          var a := new Article.FromRecord(arts[i.value]);
          return Some(a);
        }
      }
      return None;
    }

    /** `addArticle(article)` */
    method AddArticle(article: Article) returns (r: Option<Article>)
      modifies this
      ensures Call(store, channel, ArticleView(r)) == AddArticleCall(old(store), old(channel), maxRequestAttempts, article.Data())
      ensures r.Some? ==> fresh(r.value) && r.value.id.Some?
    {
      var id := store.nextId;
      var ok := RetryLoop();
      if ok {
        store := ArticleCreated(store, article.Data());
        var a := new Article.FromRecord(ArticleRecord(id, article.Data()));
        return Some(a);
      }
      return None;
    }

    /** `updateArticle(article)`.  An article without an id is refused by the client
        before any request, on every attempt. */
    method UpdateArticle(article: Article) returns (r: Option<Article>)
      modifies this
      ensures article.id.None? ==> r.None? && store == old(store) && channel == old(channel)
      ensures article.id.Some? ==>
                Call(store, channel, ArticleView(r))
                == UpdateArticleCall(old(store), old(channel), maxRequestAttempts, article.id.value, article.Data())
      ensures r.Some? ==> fresh(r.value) && r.value.id.Some?
    {
      if article.id.None? {
        return None;
      }
      var ok := RetryLoop();
      if ok {
        store := ArticleUpdated(store, article.id.value, article.Data());
        var a := new Article.FromRecord(ArticleRecord(article.id.value, article.Data()));
        return Some(a);
      }
      return None;
    }

    /** `removeArticle(article)`: true when the deletion went through. */
    method RemoveArticle(article: Article) returns (removed: bool)
      modifies this
      ensures article.id.None? ==> !removed && store == old(store) && channel == old(channel)
      ensures article.id.Some? ==>
                removed == Answered(maxRequestAttempts, old(channel))
                && channel == AfterRetry(old(channel), maxRequestAttempts)
                && store == (if removed then ArticleDeleted(old(store), article.id.value) else old(store))
    {
      if article.id.None? {
        return false;
      }
      removed := RetryLoop();
      if removed {
        store := ArticleDeleted(store, article.id.value);
      }
    }

    /** `getPermissionGroupId(title)`: a single request with no retry loop; when it fails
        the exception reaches the caller, reported here as `failed`. */
    method GetPermissionGroupId(title: string) returns (groupId: Option<int>, failed: bool)
      modifies this
      ensures store == old(store)
      ensures channel == old(channel).(script := Rest(old(channel.script)), requests := old(channel.requests) + 1)
      ensures failed <==> !Next(old(channel.script)).Ok?
      ensures groupId == if failed then None else FindGroup(store, title)
    {
      var answer := Next(channel.script);
      channel := channel.(script := Rest(channel.script), requests := channel.requests + 1);
      if !answer.Ok? {
        return None, true;
      }
      return FindGroup(store, title), false;
    }
  }

  // ---------------------------------------------------------------------------
  // Properties of the calls

  /** Get-or-create never creates when the lookup answered and found a match; and when
      the lookup found nothing, or ran out of attempts, it creates, even if a matching
      category exists on the server. */
  lemma GetOrAddCategoryBranches(st: Store, ch: Channel, max: int, key: string,
                                 name: string, description: string, position: int, update: bool)
    ensures var c := GetOrAddCategoryCall(st, ch, max, key, name, description, position, update);
            Answered(max, ch) && FindCategory(st, key).Some? ==>
              |c.store.categories| == |st.categories| && c.store.nextId == st.nextId
    ensures var c := GetOrAddCategoryCall(st, ch, max, key, name, description, position, update);
            !Answered(max, ch) || FindCategory(st, key).None? ==>
              c == AddCategoryCall(st, AfterRetry(ch, max), max, name, description, position)
  {
  }

  /** With a server that answers every request, running get-or-create twice creates at
      most one category: the second run finds what the first one created or found. */
  lemma GetOrAddCategoryIdempotent(st: Store, ch: Channel, max: int,
                                   name: string, description: string, position: int)
    requires max >= 1 && ch.script == []
    ensures var c1 := GetOrAddCategoryCall(st, ch, max, name, name, description, position, false);
            var c2 := GetOrAddCategoryCall(c1.store, c1.channel, max, name, name, description, position, false);
            c2.store == c1.store && c2.result == c1.result
  {
    var c1 := GetOrAddCategoryCall(st, ch, max, name, name, description, position, false);
    assert RetryRun(max, []) == Run(true, 1, [], []);
    assert c1.channel.script == [];
    CreateThenFindCategory(st, name, description, position);
  }

  /** An update answered by the server, repeated with the same values, sends nothing. */
  lemma UpdateCategoryThenNoUpdate(st: Store, ch: Channel, max: int, c: CategoryRecord,
                                   newName: string, newDescription: string, newPosition: int)
    ensures var c1 := UpdateCategoryCall(st, ch, max, c, newName, newDescription, newPosition);
            c1.result.Some? && max >= 1 ==>
              UpdateCategoryCall(c1.store, c1.channel, max, c1.result.value, newName, newDescription, newPosition)
              == Call(c1.store, c1.channel, c1.result)
  {
    EqualsIgnoreCaseReflexive(newDescription);
  }

  lemma GetOrAddSectionBranches(st: Store, ch: Channel, max: int, categoryId: int, key: string,
                                name: string, description: string, position: int, update: bool)
    ensures var c := GetOrAddSectionCall(st, ch, max, categoryId, key, name, description, position, update);
            Answered(max, ch) && FindSection(st, categoryId, key).Some? ==>
              |c.store.sections| == |st.sections| && c.store.nextId == st.nextId
    ensures var c := GetOrAddSectionCall(st, ch, max, categoryId, key, name, description, position, update);
            !Answered(max, ch) || FindSection(st, categoryId, key).None? ==>
              c == AddSectionCall(st, AfterRetry(ch, max), max, categoryId, name, description, position)
  {
  }

  lemma GetOrAddSectionIdempotent(st: Store, ch: Channel, max: int, categoryId: int,
                                  name: string, description: string, position: int)
    requires max >= 1 && ch.script == []
    ensures var c1 := GetOrAddSectionCall(st, ch, max, categoryId, name, name, description, position, false);
            var c2 := GetOrAddSectionCall(c1.store, c1.channel, max, categoryId, name, name, description, position, false);
            c2.store == c1.store && c2.result == c1.result
  {
    var c1 := GetOrAddSectionCall(st, ch, max, categoryId, name, name, description, position, false);
    assert RetryRun(max, []) == Run(true, 1, [], []);
    assert c1.channel.script == [];
    CreateThenFindSection(st, categoryId, name, description, position);
  }

  lemma UpdateSectionThenNoUpdate(st: Store, ch: Channel, max: int, s: SectionRecord,
                                  newName: string, newDescription: string, newPosition: int)
    ensures var c1 := UpdateSectionCall(st, ch, max, s, newName, newDescription, newPosition);
            c1.result.Some? && max >= 1 ==>
              UpdateSectionCall(c1.store, c1.channel, max, c1.result.value, newName, newDescription, newPosition)
              == Call(c1.store, c1.channel, c1.result)
  {
    EqualsIgnoreCaseReflexive(newDescription);
  }

  /** Section lookup and creation by category name stop, without touching sections and
      with only the category lookup's requests sent, when the category is not found. */
  lemma ByNameWithoutCategory(st: Store, ch: Channel, max: int, categoryName: string,
                              name: string, description: string, position: int)
    requires GetCategoryCall(st, ch, max, categoryName).result.None?
    ensures GetSectionByNameCall(st, ch, max, categoryName, name) == Call(st, AfterRetry(ch, max), None)
    ensures AddSectionByNameCall(st, ch, max, categoryName, name, description, position) == Call(st, AfterRetry(ch, max), None)
  {
  }
}
