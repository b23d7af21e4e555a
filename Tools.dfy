/**
 * `ZendeskTools`: resolves the (category, section) pair a directory's properties name,
 * getting or creating them through the facade, and builds or refreshes the article a
 * document is published as.  `ZendeskHierarchy` is the two-field object the whole walk
 * shares and this code updates in place.
 */
module Tools {
  import opened Wrappers
  import opened JavaText
  import opened Retry
  import opened Remote
  import opened Facade
  import opened Documents

  /** `ZendeskHierarchy`: the category and section files are currently published under. */
  class ZendeskHierarchy {
    var category: Category?
    var section: Section?

    constructor ()
      ensures category == null && section == null
    {
      category, section := null, null;
    }
  }

  datatype HierarchyView = HierarchyView(category: Option<CategoryRecord>, section: Option<SectionRecord>)

  function ViewOf(h: ZendeskHierarchy): HierarchyView
    reads h, h.category, h.section
  {
    HierarchyView(if h.category == null then None else Some(h.category.View()),
                  if h.section == null then None else Some(h.section.View()))
  }

  /** The property keys (`properties.template.*`). */
  datatype Templates = Templates(
    categoryTitle: string, categoryOldTitle: string, categoryDescription: string, categoryPosition: string,
    sectionTitle: string, sectionOldTitle: string, sectionDescription: string, sectionPosition: string)

  /** `properties.getProperty(key, default)`; a missing name or old name reads as "". */
  function Property(props: map<string, string>, key: string, default: string): string {
    if key in props then props[key] else default
  }

  /** What `updateHierarchy` did: the server and channel afterwards, the hierarchy it
      left, its answer, and whether `Integer.valueOf` threw out of it. */
  datatype Resolution = Resolution(store: Store, channel: Channel, hierarchy: HierarchyView, ok: bool, aborted: bool)

  /** The directory's category and section, as its properties give them. */
  datatype Wanted = Wanted(catName: string, catOldName: string, catDesc: string, catPos: Option<int>,
                           secName: string, secOldName: string, secDesc: string, secPos: Option<int>)

  function WantedOf(t: Templates, props: map<string, string>): Wanted {
    Wanted(Property(props, t.categoryTitle, ""), Property(props, t.categoryOldTitle, ""),
           Property(props, t.categoryDescription, ""),
           ParseInteger(Property(props, t.categoryPosition, "0"), INT_MIN, INT_MAX),
           Property(props, t.sectionTitle, ""), Property(props, t.sectionOldTitle, ""),
           Property(props, t.sectionDescription, ""),
           ParseInteger(Property(props, t.sectionPosition, "0"), INT_MIN, INT_MAX))
  }

  /** Whether the category must be (re)loaded: a name is given and no current category
      answers to it. */
  predicate NeedsCategory(h: HierarchyView, w: Wanted) {
    !IsBlank(w.catName) && (h.category.None? || !EqualsIgnoreCase(h.category.value.name, w.catName))
  }

  predicate NeedsSection(h: HierarchyView, w: Wanted) {
    !IsBlank(w.secName) && (h.section.None? || !EqualsIgnoreCase(h.section.value.name, w.secName))
  }

  /** `updateHierarchy(hierarchy, properties)` */
  function ResolveHierarchy(w: Wanted, update: bool, st: Store, ch: Channel, max: int, h: HierarchyView): Resolution {
    if w.catPos.None? || w.secPos.None? then Resolution(st, ch, h, false, true)
    else if IsBlank(w.catName) && IsBlank(w.secName) then Resolution(st, ch, h, false, false)
    else
      var h1 := if IsBlank(w.secName) then h.(section := None) else h;
      if NeedsCategory(h1, w) then
        var c := GetOrAddCategoryCall(st, ch, max, RenameKey(w.catOldName, w.catName), w.catName, w.catDesc, w.catPos.value, update);
        if c.result.None? then Resolution(c.store, c.channel, h1, false, false)
        else ResolveSection(w, update, c.store, c.channel, max, h1.(category := c.result))
      else ResolveSection(w, update, st, ch, max, h1)
  }

  /** The section half of `updateHierarchy`, once the category is settled. */
  function ResolveSection(w: Wanted, update: bool, st: Store, ch: Channel, max: int, h: HierarchyView): Resolution
    requires w.secPos.Some?
  {
    if NeedsSection(h, w) then
      if h.category.None? then Resolution(st, ch, h, false, false)
      else
        var s := GetOrAddSectionCall(st, ch, max, h.category.value.id, RenameKey(w.secOldName, w.secName), w.secName, w.secDesc, w.secPos.value, update);
        if s.result.None? then Resolution(s.store, s.channel, h, false, false)
        else Resolution(s.store, s.channel, h.(section := s.result), true, false)
    else Resolution(st, ch, h, true, false)
  }

  /** The article `createArticle` builds for a document. */
  function ArticleFor(d: DocumentData, sectionId: int, contents: string, groupId: Option<int>, commentsDisabled: bool)
    : ArticleData
  {
    ArticleData(sectionId, d.title, contents, d.draft, d.promoted, d.position, d.tags, groupId, commentsDisabled)
  }

  /** A new, not yet created article holding `data`. */
  method NewArticle(data: ArticleData) returns (article: Article)
    ensures fresh(article) && article.id.None? && article.Data() == data
  {
    article := new Article();
    article.sectionId, article.title, article.body := data.sectionId, data.title, data.body;
    article.draft, article.promoted, article.position := data.draft, data.promoted, data.position;
    article.labelNames, article.permissionGroupId := data.labelNames, data.permissionGroupId;
    article.commentsDisabled := data.commentsDisabled;
  }

  /** The article `updateArticle` leaves: the document's title, draft flag, tags, promoted
      flag and position, and the new body; section, permission group and comment setting
      as they were. */
  function Refreshed(a: ArticleData, d: DocumentData, contents: string): ArticleData {
    a.(title := d.title, body := contents, draft := d.draft, labelNames := d.tags,
       promoted := d.promoted, position := d.position)
  }

  class ZendeskTools {
    const facade: ZendeskFacade
    const templates: Templates
    /** `zendesk.forced-update` */
    const shouldUpdate: bool
    /** `zendesk.permission-group-title` */
    const permissionGroupTitle: string
    /** `zendesk.comments-disabled` */
    const commentsDisabled: bool

    constructor (facade: ZendeskFacade, templates: Templates, shouldUpdate: bool,
                 permissionGroupTitle: string, commentsDisabled: bool)
      ensures this.facade == facade && this.templates == templates && this.shouldUpdate == shouldUpdate
      ensures this.permissionGroupTitle == permissionGroupTitle && this.commentsDisabled == commentsDisabled
    {
      this.facade := facade;
      this.templates := templates;
      this.shouldUpdate := shouldUpdate;
      this.permissionGroupTitle := permissionGroupTitle;
      this.commentsDisabled := commentsDisabled;
    }

    /** `updateHierarchy(hierarchy, properties)`: `aborted` stands for the
        `NumberFormatException` a position that is not an `int` throws, before anything
        else happens. */
    method UpdateHierarchy(hierarchy: ZendeskHierarchy, properties: map<string, string>) returns (ok: bool, aborted: bool)
      modifies hierarchy, facade
      ensures Resolution(facade.store, facade.channel, ViewOf(hierarchy), ok, aborted)
              == ResolveHierarchy(WantedOf(templates, properties), shouldUpdate, old(facade.store), old(facade.channel),
                                  facade.maxRequestAttempts, old(ViewOf(hierarchy)))
      ensures hierarchy.category == old(hierarchy.category) || fresh(hierarchy.category)
      ensures hierarchy.section == old(hierarchy.section) || hierarchy.section == null || fresh(hierarchy.section)
    {
      var w := WantedOf(templates, properties);
      if w.catPos.None? || w.secPos.None? {
        return false, true;
      }
      if IsBlank(w.catName) && IsBlank(w.secName) {
        return false, false;
      }
      if IsBlank(w.secName) {
        hierarchy.section := null;
      }
      if !IsBlank(w.catName) && (hierarchy.category == null || !EqualsIgnoreCase(hierarchy.category.name, w.catName)) {
        var c := facade.GetOrAddRenamedCategory(w.catOldName, w.catName, w.catDesc, w.catPos.value, shouldUpdate);
        if c.Some? {
          hierarchy.category := c.value;
        } else {
          return false, false;
        }
      }
      if !IsBlank(w.secName) && (hierarchy.section == null || !EqualsIgnoreCase(hierarchy.section.name, w.secName)) {
        if hierarchy.category == null {
          return false, false;
        }
        var s := facade.GetOrAddRenamedSection(hierarchy.category, w.secOldName, w.secName, w.secDesc, w.secPos.value, shouldUpdate);
        if s.Some? {
          hierarchy.section := s.value;
        } else {
          return false, false;
        }
      }
      return true, false;
    }

    /** `createArticle(document, section, contents, groupId)`: nothing for a missing
        document or section or blank contents; otherwise a new article (no id yet) built
        from the document, whose permission group is `groupId` or, when none is given,
        the group named `permissionGroupTitle`, which costs one request and makes the
        whole call fail when that request does.  When no group has that name the lookup
        answers `null`, which the conditional unboxes to `long`: the resulting
        `NullPointerException` is caught and the call gives nothing as well. */
    method CreateArticle(document: Document?, section: Section?, contents: string, groupId: Option<int>)
      returns (r: Option<Article>)
      modifies facade
      ensures document == null || section == null || IsBlank(contents) ==>
                r.None? && facade.store == old(facade.store) && facade.channel == old(facade.channel)
      ensures document != null && section != null && !IsBlank(contents) ==>
                facade.store == old(facade.store)
                && facade.channel == (if groupId.Some? then old(facade.channel)
                                      else old(facade.channel).(script := Rest(old(facade.channel.script)),
                                                                requests := old(facade.channel.requests) + 1))
                && (r.Some? <==> groupId.Some? || (Next(old(facade.channel.script)).Ok?
                                                    && FindGroup(old(facade.store), permissionGroupTitle).Some?))
                && (r.Some? ==>
                      fresh(r.value) && r.value.id.None?
                      && r.value.Data() == ArticleFor(document.View(), section.id, contents,
                                                      if groupId.Some? then groupId else FindGroup(facade.store, permissionGroupTitle),
                                                      commentsDisabled))
    {
      if document == null || section == null || IsBlank(contents) {
        return None;
      }
      var group := groupId;
      if groupId.None? {
        var found, failed := facade.GetPermissionGroupId(permissionGroupTitle);
        if failed || found.None? {
          return None;
        }
        group := found;
      }
      var article := NewArticle(ArticleFor(document.View(), section.id, contents, group, commentsDisabled));
      return Some(article);
    }

    /** `updateArticle(article, document, contents)`: refreshes the passed article in place
        and hands it back; nothing for a missing article or document or blank contents. */
    method UpdateArticle(article: Article?, document: Document?, contents: string) returns (r: Option<Article>)
      modifies article
      ensures article == null || document == null || IsBlank(contents) ==>
                r.None? && (article != null ==> article.Data() == old(article.Data()))
      ensures article != null && document != null && !IsBlank(contents) ==>
                r == Some(article) && article.Data() == Refreshed(old(article.Data()), document.View(), contents)
      ensures article != null ==> article.id == old(article.id)
    {
      if article == null || document == null || IsBlank(contents) {
        return None;
      }
      article.title, article.body, article.draft := document.title, contents, document.draft;
      article.labelNames, article.promoted, article.position := document.tags, document.promoted, document.position;
      return Some(article);
    }
  }

  // ---------------------------------------------------------------------------
  // Properties of hierarchy resolution and article building

  /** Neither name given: `false`, and nothing changes. */
  lemma ResolveNeitherName(w: Wanted, update: bool, st: Store, ch: Channel, max: int, h: HierarchyView)
    requires w.catPos.Some? && w.secPos.Some? && IsBlank(w.catName) && IsBlank(w.secName)
    ensures ResolveHierarchy(w, update, st, ch, max, h) == Resolution(st, ch, h, false, false)
  {
  }

  /** A blank section name drops the current section, even when the category then
      cannot be loaded. */
  lemma ResolveBlankSectionClears(w: Wanted, update: bool, st: Store, ch: Channel, max: int, h: HierarchyView)
    requires w.catPos.Some? && w.secPos.Some? && !IsBlank(w.catName) && IsBlank(w.secName)
    ensures ResolveHierarchy(w, update, st, ch, max, h).hierarchy.section.None?
  {
  }

  /** A category that already answers to the wanted name (or no name at all) is kept,
      and no category request is sent. */
  lemma ResolveKeepsCategory(w: Wanted, update: bool, st: Store, ch: Channel, max: int, h: HierarchyView)
    requires w.catPos.Some? && w.secPos.Some?
    requires IsBlank(w.catName) || (h.category.Some? && EqualsIgnoreCase(h.category.value.name, w.catName))
    ensures ResolveHierarchy(w, update, st, ch, max, h).hierarchy.category == h.category
    ensures !NeedsSection(h, w) ==> ResolveHierarchy(w, update, st, ch, max, h).channel == ch
  {
  }

  /** A section to load with no category to put it in: `false`, with no request. */
  lemma ResolveSectionWithoutCategory(w: Wanted, update: bool, st: Store, ch: Channel, max: int, h: HierarchyView)
    requires w.catPos.Some? && w.secPos.Some? && IsBlank(w.catName) && h.category.None? && NeedsSection(h, w)
    ensures ResolveHierarchy(w, update, st, ch, max, h) == Resolution(st, ch, h, false, false)
  {
  }

  /** A section is only ever placed under a category; then a `true` answer leaves a
      category when one was named, and a category and a section when a section was
      named. */
  lemma ResolveOkHasHierarchy(w: Wanted, update: bool, st: Store, ch: Channel, max: int, h: HierarchyView)
    requires h.section.Some? ==> h.category.Some?
    ensures var r := ResolveHierarchy(w, update, st, ch, max, h);
            r.hierarchy.section.Some? ==> r.hierarchy.category.Some?
    ensures var r := ResolveHierarchy(w, update, st, ch, max, h);
            r.ok ==> (!IsBlank(w.catName) ==> r.hierarchy.category.Some?)
                     && (!IsBlank(w.secName) ==> r.hierarchy.category.Some? && r.hierarchy.section.Some?)
  {
    var h1 := if IsBlank(w.secName) then h.(section := None) else h;
    if w.catPos.Some? && w.secPos.Some? && !(IsBlank(w.catName) && IsBlank(w.secName)) {
      if NeedsCategory(h1, w) {
        var c := GetOrAddCategoryCall(st, ch, max, RenameKey(w.catOldName, w.catName), w.catName, w.catDesc, w.catPos.value, update);
        if c.result.Some? {
          ResolveSectionShape(w, update, c.store, c.channel, max, h1.(category := c.result));
        }
      } else {
        ResolveSectionShape(w, update, st, ch, max, h1);
      }
    }
  }

  /** The section half keeps the category, places a section only under one, and on a
      `true` answer leaves a section whenever one was named. */
  lemma ResolveSectionShape(w: Wanted, update: bool, st: Store, ch: Channel, max: int, h: HierarchyView)
    requires w.secPos.Some? && (h.section.Some? ==> h.category.Some?)
    ensures var r := ResolveSection(w, update, st, ch, max, h);
            r.hierarchy.category == h.category
            && (r.hierarchy.section.Some? ==> r.hierarchy.category.Some?)
            && (r.ok && !IsBlank(w.secName) ==> r.hierarchy.section.Some?)
  {
  }

  /** Against a server that answers every request, resolution succeeds whenever the
      positions are numbers and a category is named. */
  lemma ResolveSucceedsWhenAnswered(w: Wanted, update: bool, st: Store, ch: Channel, max: int, h: HierarchyView)
    requires max >= 1 && ch.script == []
    requires w.catPos.Some? && w.secPos.Some? && !IsBlank(w.catName)
    ensures ResolveHierarchy(w, update, st, ch, max, h).ok
  {
    assert RetryRun(max, []) == Run(true, 1, [], []);
    var h1 := if IsBlank(w.secName) then h.(section := None) else h;
    if NeedsCategory(h1, w) {
      var c := GetOrAddCategoryCall(st, ch, max, RenameKey(w.catOldName, w.catName), w.catName, w.catDesc, w.catPos.value, update);
      assert c.result.Some? && c.channel.script == [];
    }
  }

  /** Refreshing an article built for a document with another document gives the article
      building would give for that document, in the same section and group. */
  lemma RefreshedArticleFor(d: DocumentData, d': DocumentData, sectionId: int, contents: string, contents': string,
                            groupId: Option<int>, commentsDisabled: bool)
    ensures Refreshed(ArticleFor(d, sectionId, contents, groupId, commentsDisabled), d', contents')
            == ArticleFor(d', sectionId, contents', groupId, commentsDisabled)
  {
  }
}
