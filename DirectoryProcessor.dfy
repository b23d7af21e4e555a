/**
 * `DirectoryProcessor`: the recursive walk over a documentation tree.  Each directory's
 * properties settle the shared hierarchy; when they do, its AsciiDoc files are processed
 * and, with the clean flag, the articles of its section that no local file is titled
 * after are removed; then every subdirectory is walked with the same hierarchy object.
 *
 * The file system is an input: a directory is its path, its properties (empty when the
 * properties file cannot be read), whether listing it works, and its entries in listing
 * order.  The parallel streams of the source are walked one entry at a time, in listing
 * order.
 */
module Walk {
  import opened Wrappers
  import opened JavaText
  import opened Outcomes
  import opened Retry
  import opened Remote
  import opened Facade
  import opened Documents
  import opened Tools
  import opened Files

  datatype Entry =
    | File(name: string, lines: Option<seq<string>>, rendered: Option<string>)
    | Folder(dir: Directory)

  datatype Directory = Directory(path: string, properties: map<string, string>, readable: bool, entries: seq<Entry>)

  /** Only regular files named `*.adoc` or `*.asciidoc` are documents. */
  predicate IsSource(e: Entry) {
    e.File? && (EndsWith(e.name, ".adoc") || EndsWith(e.name, ".asciidoc"))
  }

  function FilePath(dir: string, name: string): string {
    dir + "/" + name
  }

  /** What a part of the walk did: server, channel and hierarchy afterwards, its own
      tally, and whether an exception escaped. */
  datatype Walked = Walked(store: Store, channel: Channel, hierarchy: HierarchyView, tally: Tally, aborted: bool)

  /** `Collectors.toMap(Article::getTitle, ...)` accepts the listing: no title twice. */
  predicate DistinctTitles(arts: seq<ArticleRecord>) {
    forall i, j | 0 <= i < j < |arts| :: arts[i].data.title != arts[j].data.title
  }

  /** The titles of the documents among `entries` that can be read. */
  function LocalTitles(titleKey: string, entries: seq<Entry>): set<string> {
    if entries == [] then {}
    else
      var e := entries[|entries| - 1];
      var earlier := LocalTitles(titleKey, entries[..|entries| - 1]);
      if IsSource(e) && e.lines.Some? then earlier + {DocumentParam(e.lines.value, titleKey, "")} else earlier
  }

  /** The remote articles whose titles no local document has, in listing order. */
  function Stale(arts: seq<ArticleRecord>, local: set<string>): (r: seq<ArticleRecord>)
    ensures |r| <= |arts|
  {
    if arts == [] then []
    else
      var a := arts[|arts| - 1];
      Stale(arts[..|arts| - 1], local) + (if a.data.title !in local then [a] else [])
  }

  datatype Removal = Removal(store: Store, channel: Channel, tally: Tally)

  /** `removeArticle` for each article in turn, counting deletions and failures. */
  function Removals(st: Store, ch: Channel, max: int, arts: seq<ArticleRecord>): Removal {
    if arts == [] then Removal(st, ch, map[])
    else RemovalStep(Removals(st, ch, max, arts[..|arts| - 1]), max, arts[|arts| - 1])
  }

  /** One `removeArticle` call and the outcome it adds. */
  function RemovalStep(r: Removal, max: int, a: ArticleRecord): Removal {
    if Answered(max, r.channel) then Removal(ArticleDeleted(r.store, a.id), AfterRetry(r.channel, max), Bumped(r.tally, DelSuccess))
    else Removal(r.store, AfterRetry(r.channel, max), Bumped(r.tally, DelFailure))
  }

  /** The ids of a listing. */
  function Ids(arts: seq<ArticleRecord>): set<int> {
    set a | a in arts :: a.id
  }

  /** The titles of a listing. */
  function TitleSet(arts: seq<ArticleRecord>): set<string> {
    set a | a in arts :: a.data.title
  }

  /** Only an empty listing has no ids. */
  lemma NoIdsNoArticles(arts: seq<ArticleRecord>)
    ensures Ids(arts) == {} ==> arts == []
  {
    if arts != [] {
      assert arts[0].id in Ids(arts);
    }
  }

  /** No two articles of the server share an id. */
  predicate UniqueIds(st: Store) {
    forall i, j | 0 <= i < j < |st.articles| :: st.articles[i].id != st.articles[j].id
  }

  class DirectoryProcessor {
    const fileProcessor: FileProcessor
    /** `zendesk.clean` */
    const clean: bool

    constructor (fileProcessor: FileProcessor, clean: bool)
      ensures this.fileProcessor == fileProcessor && this.clean == clean
    {
      this.fileProcessor := fileProcessor;
      this.clean := clean;
    }

    function Max(): int {
      fileProcessor.tools.facade.maxRequestAttempts
    }

    /** `processAllFiles` over the first entries of a readable listing. */
    function FilesSpec(st: Store, ch: Channel, h: HierarchyView, dir: Directory, parentProps: map<string, string>,
                       es: seq<Entry>): Walked
    {
      if es == [] then Walked(st, ch, h, map[], false)
      else
        var w := FilesSpec(st, ch, h, dir, parentProps, es[..|es| - 1]);
        var e := es[|es| - 1];
        if w.aborted || !IsSource(e) then w
        else FileStep(w, dir, parentProps, e)
    }

    /** `fileProcessor.process` of one file after the walk `w`, its tally added to `w`'s. */
    function FileStep(w: Walked, dir: Directory, parentProps: map<string, string>, e: Entry): Walked
      requires e.File?
    {
      var f := fileProcessor.ProcessSpec(w.store, w.channel, w.hierarchy, FilePath(dir.path, e.name),
                                         parentProps, dir.properties, e.lines, e.rendered);
      Walked(f.store, f.channel, f.hierarchy, Merged(w.tally, f.tally), f.aborted)
    }

    lemma FilesStep(st: Store, ch: Channel, h: HierarchyView, dir: Directory, parentProps: map<string, string>, k: nat)
      requires k < |dir.entries|
      ensures var w := FilesSpec(st, ch, h, dir, parentProps, dir.entries[..k]);
              var e := dir.entries[k];
              FilesSpec(st, ch, h, dir, parentProps, dir.entries[..k + 1])
              == if w.aborted || !IsSource(e) then w else FileStep(w, dir, parentProps, e)
    {
      assert dir.entries[..k + 1][..k] == dir.entries[..k];
    }

    /** `processAllFiles(directoryPath, hierarchy)` */
    function AllFilesSpec(st: Store, ch: Channel, h: HierarchyView, dir: Directory, parentProps: map<string, string>): Walked {
      if !dir.readable then Walked(st, ch, h, Bumped(map[], PubFailure), false)
      else FilesSpec(st, ch, h, dir, parentProps, dir.entries)
    }

    /** `removeStaleArticles(directoryPath, hierarchy)` */
    function RemoveSpec(st: Store, ch: Channel, h: HierarchyView, dir: Directory): Walked {
      if h.section.None? || h.category.None? then Walked(st, ch, h, Bumped(map[], NoResult), false)
      else
        var arts := if Answered(Max(), ch) then ArticlesIn(st.articles, h.section.value.id) else [];
        RemoveListedSpec(st, AfterRetry(ch, Max()), h, dir, arts)
    }

    /** The part of `removeStaleArticles` after the section was listed as `arts`. */
    function RemoveListedSpec(st: Store, ch: Channel, h: HierarchyView, dir: Directory, arts: seq<ArticleRecord>): Walked {
      if !DistinctTitles(arts) then Walked(st, ch, h, map[], true)
      else if !dir.readable then Walked(st, ch, h, Bumped(map[], DelFailure), false)
      else
        var r := Removals(st, ch, Max(), Stale(arts, LocalTitles(fileProcessor.templates.title, dir.entries)));
        Walked(r.store, r.channel, h, r.tally, false)
    }

    /** `process(directoryPath, hierarchy)`; `parentProps` are the properties of the
        directory above, which a file's own `process` may fall back on. */
    function DirSpec(st: Store, ch: Channel, h: HierarchyView, dir: Directory, parentProps: map<string, string>): Walked
      decreases dir, 2
    {
      var w := OwnSpec(st, ch, h, dir, parentProps);
      if w.aborted then w
      else
        var s := AllSubdirsSpec(w.store, w.channel, w.hierarchy, dir);
        Walked(s.store, s.channel, s.hierarchy, Merged(w.tally, s.tally), s.aborted)
    }

    /** The part of `process` before the subdirectories: settle the hierarchy, then
        process the files and remove stale articles, or count the directory as skipped. */
    function OwnSpec(st: Store, ch: Channel, h: HierarchyView, dir: Directory, parentProps: map<string, string>): Walked {
      var r := ResolveHierarchy(WantedOf(fileProcessor.tools.templates, dir.properties), fileProcessor.tools.shouldUpdate,
                                st, ch, Max(), h);
      if r.aborted then Walked(r.store, r.channel, r.hierarchy, map[], true)
      else if !r.ok then Walked(r.store, r.channel, r.hierarchy, Bumped(map[], DirSkipped), false)
      else ResolvedSpec(r.store, r.channel, r.hierarchy, dir, parentProps)
    }

    /** The files of a directory whose hierarchy was settled, then the stale articles. */
    function ResolvedSpec(st: Store, ch: Channel, h: HierarchyView, dir: Directory, parentProps: map<string, string>): Walked {
      var f := AllFilesSpec(st, ch, h, dir, parentProps);
      if f.aborted || !clean then f
      else
        var s := RemoveSpec(f.store, f.channel, f.hierarchy, dir);
        Walked(s.store, s.channel, s.hierarchy, Merged(f.tally, s.tally), s.aborted)
    }

    /** `processAllDirectories(directoryPath, hierarchy)` */
    function AllSubdirsSpec(st: Store, ch: Channel, h: HierarchyView, dir: Directory): Walked
      decreases dir, 1
    {
      if !dir.readable then Walked(st, ch, h, Bumped(map[], PubFailure), false)
      else SubdirsSpec(st, ch, h, dir, dir.entries)
    }

    function SubdirsSpec(st: Store, ch: Channel, h: HierarchyView, dir: Directory, es: seq<Entry>): Walked
      requires es <= dir.entries
      decreases dir, 0, |es|
    {
      if es == [] then Walked(st, ch, h, map[], false)
      else
        var w := SubdirsSpec(st, ch, h, dir, es[..|es| - 1]);
        var e := es[|es| - 1];
        assert e in dir.entries;
        if w.aborted || !e.Folder? then w
        else Descend(w, e.dir, dir.properties)
    }

    /** `process` of one subdirectory after the walk `w`, its tally added to `w`'s. */
    function Descend(w: Walked, sub: Directory, parentProps: map<string, string>): Walked
      decreases sub, 3
    {
      var d := DirSpec(w.store, w.channel, w.hierarchy, sub, parentProps);
      Walked(d.store, d.channel, d.hierarchy, Merged(w.tally, d.tally), d.aborted)
    }

    lemma SubdirsStep(st: Store, ch: Channel, h: HierarchyView, dir: Directory, k: nat)
      requires k < |dir.entries|
      ensures var w := SubdirsSpec(st, ch, h, dir, dir.entries[..k]);
              var e := dir.entries[k];
              SubdirsSpec(st, ch, h, dir, dir.entries[..k + 1])
              == if w.aborted || !e.Folder? then w else Descend(w, e.dir, dir.properties)
    {
      assert dir.entries[..k + 1][..k] == dir.entries[..k];
    }

    /** `process(directoryPath, hierarchy)`: `aborted` when an exception (a position that
        is not a number, a title listed twice) escaped. */
    method Process(dir: Directory, parentProps: map<string, string>, hierarchy: ZendeskHierarchy)
      returns (result: ProcessingResult, aborted: bool)
      modifies hierarchy, fileProcessor.tools.facade
      ensures fresh(result)
      ensures Walked(fileProcessor.tools.facade.store, fileProcessor.tools.facade.channel, ViewOf(hierarchy),
                     result.results, aborted)
              == DirSpec(old(fileProcessor.tools.facade.store), old(fileProcessor.tools.facade.channel),
                         old(ViewOf(hierarchy)), dir, parentProps)
      decreases dir, 2
    {
      result, aborted := ProcessOwn(dir, parentProps, hierarchy);
      if aborted {
        return;
      }
      var subdirs;
      subdirs, aborted := ProcessAllDirectories(dir, hierarchy);
      result := result.Merge(subdirs);
    }

    /** The part of `process` before the subdirectories. */
    method ProcessOwn(dir: Directory, parentProps: map<string, string>, hierarchy: ZendeskHierarchy)
      returns (result: ProcessingResult, aborted: bool)
      modifies hierarchy, fileProcessor.tools.facade
      ensures fresh(result)
      ensures Walked(fileProcessor.tools.facade.store, fileProcessor.tools.facade.channel, ViewOf(hierarchy),
                     result.results, aborted)
              == OwnSpec(old(fileProcessor.tools.facade.store), old(fileProcessor.tools.facade.channel),
                         old(ViewOf(hierarchy)), dir, parentProps)
    {
      result := new ProcessingResult();
      var ok;
      ok, aborted := fileProcessor.tools.UpdateHierarchy(hierarchy, dir.properties);
      if aborted {
        return;
      }
      if !ok {
        result := result.Add(DirSkipped);
      } else {
        aborted := ProcessResolved(dir, parentProps, hierarchy, result);
      }
    }

    /** The branch of `process` taken when the hierarchy was settled, adding to the empty
        `result`. */
    method ProcessResolved(dir: Directory, parentProps: map<string, string>, hierarchy: ZendeskHierarchy,
                           result: ProcessingResult)
      returns (aborted: bool)
      requires result.results == map[]
      modifies hierarchy, fileProcessor.tools.facade, result
      ensures Walked(fileProcessor.tools.facade.store, fileProcessor.tools.facade.channel, ViewOf(hierarchy),
                     result.results, aborted)
              == ResolvedSpec(old(fileProcessor.tools.facade.store), old(fileProcessor.tools.facade.channel),
                              old(ViewOf(hierarchy)), dir, parentProps)
    {
      var files;
      files, aborted := ProcessAllFiles(dir, parentProps, hierarchy);
      var self := result.Merge(files);
      MergedEmpty(files.results);
      if aborted || !clean {
        return;
      }
      var removed;
      removed, aborted := RemoveStaleArticles(dir, hierarchy);
      self := result.Merge(removed);
    }

    /** `processAllFiles(directoryPath, hierarchy)` */
    method ProcessAllFiles(dir: Directory, parentProps: map<string, string>, hierarchy: ZendeskHierarchy)
      returns (result: ProcessingResult, aborted: bool)
      modifies hierarchy, fileProcessor.tools.facade
      ensures fresh(result)
      ensures Walked(fileProcessor.tools.facade.store, fileProcessor.tools.facade.channel, ViewOf(hierarchy),
                     result.results, aborted)
              == AllFilesSpec(old(fileProcessor.tools.facade.store), old(fileProcessor.tools.facade.channel),
                              old(ViewOf(hierarchy)), dir, parentProps)
    {
      var facade := fileProcessor.tools.facade;
      if !dir.readable {
        result := new ProcessingResult.Of(PubFailure);
        return result, false;
      }
      ghost var st0, ch0, h0 := facade.store, facade.channel, ViewOf(hierarchy);
      result := new ProcessingResult();
      aborted := false;
      var k := 0;
      while k < |dir.entries|
        invariant k <= |dir.entries| && fresh(result)
        invariant Walked(facade.store, facade.channel, ViewOf(hierarchy), result.results, aborted)
                  == FilesSpec(st0, ch0, h0, dir, parentProps, dir.entries[..k])
      {
        var e := dir.entries[k];
        FilesStep(st0, ch0, h0, dir, parentProps, k);
        if !aborted && IsSource(e) {
          aborted := ProcessOneFile(dir, parentProps, e, hierarchy, result);
        }
        k := k + 1;
      }
      assert dir.entries[..k] == dir.entries;
    }

    /** One AsciiDoc file of `processAllFiles`, its outcomes added to `result`. */
    method ProcessOneFile(dir: Directory, parentProps: map<string, string>, e: Entry, hierarchy: ZendeskHierarchy,
                          result: ProcessingResult)
      returns (aborted: bool)
      requires e.File?
      modifies hierarchy, fileProcessor.tools.facade, result
      ensures Walked(fileProcessor.tools.facade.store, fileProcessor.tools.facade.channel, ViewOf(hierarchy),
                     result.results, aborted)
              == FileStep(old(Walked(fileProcessor.tools.facade.store, fileProcessor.tools.facade.channel, ViewOf(hierarchy),
                                     result.results, false)), dir, parentProps, e)
    {
      var processed;
      processed, aborted := fileProcessor.Process(FilePath(dir.path, e.name), hierarchy, parentProps, dir.properties,
                                                  e.lines, e.rendered);
      var _ := result.Merge(processed);
    }

    /** `removeStaleArticles(directoryPath, hierarchy)` */
    method RemoveStaleArticles(dir: Directory, hierarchy: ZendeskHierarchy) returns (result: ProcessingResult, aborted: bool)
      modifies fileProcessor.tools.facade
      ensures fresh(result)
      ensures Walked(fileProcessor.tools.facade.store, fileProcessor.tools.facade.channel, ViewOf(hierarchy),
                     result.results, aborted)
              == RemoveSpec(old(fileProcessor.tools.facade.store), old(fileProcessor.tools.facade.channel),
                            ViewOf(hierarchy), dir)
    {
      var facade := fileProcessor.tools.facade;
      if hierarchy.section == null || hierarchy.category == null {
        result := new ProcessingResult.Of(NoResult);
        return result, false;
      }
      ghost var arts := if Answered(Max(), facade.channel) then ArticlesIn(facade.store.articles, hierarchy.section.id) else [];
      var list := facade.GetArticles(hierarchy.section);
      result, aborted := RemoveListed(dir, hierarchy, list, arts);
    }

    /** `removeStaleArticles` once the section's articles are listed. */
    method RemoveListed(dir: Directory, hierarchy: ZendeskHierarchy, list: seq<Article>, ghost arts: seq<ArticleRecord>)
      returns (result: ProcessingResult, aborted: bool)
      requires hierarchy.category != null && hierarchy.section != null
      requires Lists(list, arts)
      modifies fileProcessor.tools.facade
      ensures fresh(result)
      ensures Walked(fileProcessor.tools.facade.store, fileProcessor.tools.facade.channel, ViewOf(hierarchy),
                     result.results, aborted)
              == RemoveListedSpec(old(fileProcessor.tools.facade.store), old(fileProcessor.tools.facade.channel),
                                  ViewOf(hierarchy), dir, arts)
    {
      var distinct := HasDistinctTitles(list, arts);
      if !distinct {
        result := new ProcessingResult();
        return result, true;
      }
      if !dir.readable {
        result := new ProcessingResult.Of(DelFailure);
        return result, false;
      }
      var local := ReadTitles(dir, hierarchy);
      result := RemoveAll(list, arts, local);
      aborted := false;
    }

    /** The titles of the documents of a readable directory (`read` of each AsciiDoc
        file, under a complete hierarchy). */
    method ReadTitles(dir: Directory, hierarchy: ZendeskHierarchy) returns (local: set<string>)
      requires hierarchy.category != null && hierarchy.section != null
      ensures local == LocalTitles(fileProcessor.templates.title, dir.entries)
    {
      local := {};
      var k := 0;
      while k < |dir.entries|
        invariant k <= |dir.entries|
        invariant local == LocalTitles(fileProcessor.templates.title, dir.entries[..k])
      {
        var e := dir.entries[k];
        assert dir.entries[..k + 1][..k] == dir.entries[..k];
        if IsSource(e) {
          var d := fileProcessor.Read(FilePath(dir.path, e.name), e.lines, hierarchy);
          if d.Some? {
            local := local + {d.value.title};
          }
        }
        k := k + 1;
      }
      assert dir.entries[..k] == dir.entries;
    }

    /** Removes the listed articles whose titles are not among `local`, in listing
        order. */
    method RemoveAll(list: seq<Article>, ghost arts: seq<ArticleRecord>, local: set<string>) returns (result: ProcessingResult)
      requires Lists(list, arts)
      modifies fileProcessor.tools.facade
      ensures fresh(result)
      ensures var r := Removals(old(fileProcessor.tools.facade.store), old(fileProcessor.tools.facade.channel), Max(),
                                Stale(arts, local));
              fileProcessor.tools.facade.store == r.store && fileProcessor.tools.facade.channel == r.channel
              && result.results == r.tally
    {
      var facade := fileProcessor.tools.facade;
      ghost var st0, ch0 := facade.store, facade.channel;
      result := new ProcessingResult();
      var k := 0;
      while k < |list|
        invariant k <= |list| && fresh(result) && Lists(list, arts)
        invariant Removal(facade.store, facade.channel, result.results) == Removals(st0, ch0, Max(), Stale(arts[..k], local))
      {
        assert list[k].title == arts[k].data.title && list[k].id == Some(arts[k].id);
        RemovalsStep(st0, ch0, Max(), arts, k, local);
        RemoveIfStale(list[k], arts[k], local, result);
        k := k + 1;
      }
      assert arts[..k] == arts;
    }

    /** The body of the removal loop: the article goes when its title is not among
        `local`. */
    method RemoveIfStale(article: Article, ghost a: ArticleRecord, local: set<string>, result: ProcessingResult)
      requires article.id == Some(a.id) && article.title == a.data.title
      modifies fileProcessor.tools.facade, result
      ensures var before := old(Removal(fileProcessor.tools.facade.store, fileProcessor.tools.facade.channel, result.results));
              Removal(fileProcessor.tools.facade.store, fileProcessor.tools.facade.channel, result.results)
              == if a.data.title !in local then RemovalStep(before, Max(), a) else before
    {
      if article.title !in local {
        RemoveOne(article, a, result);
      }
    }

    /** The removal of one stale article. */
    method RemoveOne(article: Article, ghost a: ArticleRecord, result: ProcessingResult)
      requires article.id == Some(a.id)
      modifies fileProcessor.tools.facade, result
      ensures Removal(fileProcessor.tools.facade.store, fileProcessor.tools.facade.channel, result.results)
              == RemovalStep(old(Removal(fileProcessor.tools.facade.store, fileProcessor.tools.facade.channel, result.results)), Max(), a)
    {
      var removed := fileProcessor.tools.facade.RemoveArticle(article);
      var _ := result.Add(if removed then DelSuccess else DelFailure);
    }

    /** `processAllDirectories(directoryPath, hierarchy)` */
    method ProcessAllDirectories(dir: Directory, hierarchy: ZendeskHierarchy) returns (result: ProcessingResult, aborted: bool)
      modifies hierarchy, fileProcessor.tools.facade
      ensures fresh(result)
      ensures Walked(fileProcessor.tools.facade.store, fileProcessor.tools.facade.channel, ViewOf(hierarchy),
                     result.results, aborted)
              == AllSubdirsSpec(old(fileProcessor.tools.facade.store), old(fileProcessor.tools.facade.channel),
                                old(ViewOf(hierarchy)), dir)
      decreases dir, 1
    {
      var facade := fileProcessor.tools.facade;
      if !dir.readable {
        result := new ProcessingResult.Of(PubFailure);
        return result, false;
      }
      ghost var st0, ch0, h0 := facade.store, facade.channel, ViewOf(hierarchy);
      result := new ProcessingResult();
      aborted := false;
      var k := 0;
      while k < |dir.entries|
        invariant k <= |dir.entries| && fresh(result)
        invariant Walked(facade.store, facade.channel, ViewOf(hierarchy), result.results, aborted)
                  == SubdirsSpec(st0, ch0, h0, dir, dir.entries[..k])
      {
        var e := dir.entries[k];
        SubdirsStep(st0, ch0, h0, dir, k);
        if !aborted && e.Folder? {
          aborted := ProcessFolder(e.dir, dir.properties, hierarchy, result);
        }
        k := k + 1;
      }
      assert dir.entries[..k] == dir.entries;
    }

    /** One subdirectory of `processAllDirectories`, its outcomes added to `result`. */
    method ProcessFolder(sub: Directory, parentProps: map<string, string>, hierarchy: ZendeskHierarchy, result: ProcessingResult)
      returns (aborted: bool)
      modifies hierarchy, fileProcessor.tools.facade, result
      ensures Walked(fileProcessor.tools.facade.store, fileProcessor.tools.facade.channel, ViewOf(hierarchy),
                     result.results, aborted)
              == Descend(old(Walked(fileProcessor.tools.facade.store, fileProcessor.tools.facade.channel, ViewOf(hierarchy),
                                    result.results, false)), sub, parentProps)
      decreases sub, 4
    {
      var processed;
      processed, aborted := Process(sub, parentProps, hierarchy);
      var _ := result.Merge(processed);
    }

    /** What `removeStaleArticles` does: nothing but `RT_NONE` without a complete hierarchy;
        otherwise it aborts exactly when the listing repeats a title, and when it goes
        ahead on a readable directory it makes one attempt per remote title that no local
        document has, deletes only articles, and keeps every article of other sections and
        every article whose title a local document has. */
    lemma RemoveSpecEffect(st: Store, ch: Channel, h: HierarchyView, dir: Directory)
      ensures var w := RemoveSpec(st, ch, h, dir);
              w.hierarchy == h
              && w.store.(articles := st.articles) == st
              && (forall a | a in w.store.articles :: a in st.articles)
      ensures h.section.None? || h.category.None? ==>
                RemoveSpec(st, ch, h, dir) == Walked(st, ch, h, map[NoResult := 1], false)
      ensures h.section.Some? && h.category.Some? ==>
                var listed := if Answered(Max(), ch) then ArticlesIn(st.articles, h.section.value.id) else [];
                var local := LocalTitles(fileProcessor.templates.title, dir.entries);
                var w := RemoveSpec(st, ch, h, dir);
                (w.aborted <==> !DistinctTitles(listed))
                && (!w.aborted && dir.readable ==>
                      Count(w.tally, DelSuccess) + Count(w.tally, DelFailure) == |TitleSet(listed) - local|
                      && w.tally.Keys <= {DelSuccess, DelFailure})
                && (UniqueIds(st) ==>
                      forall a | a in st.articles && (a.data.sectionId != h.section.value.id || a.data.title in local) ::
                        a in w.store.articles)
    {
      if h.section.Some? && h.category.Some? {
        var sid := h.section.value.id;
        var listed := if Answered(Max(), ch) then ArticlesIn(st.articles, sid) else [];
        var local := LocalTitles(fileProcessor.templates.title, dir.entries);
        var ch' := AfterRetry(ch, Max());
        if DistinctTitles(listed) && dir.readable {
          StaleRemovalCount(st, ch', Max(), listed, local);
          if UniqueIds(st) {
            StaleRemovalKeeps(st, ch', Max(), listed, local, sid);
          }
        }
      }
    }

    /** Only AsciiDoc files are processed: a run of entries none of which is one leaves
        the server, the channel and the hierarchy alone and counts nothing. */
    lemma {:induction false} NonSourcesIgnored(st: Store, ch: Channel, h: HierarchyView, dir: Directory,
                                               parentProps: map<string, string>, es: seq<Entry>)
      requires forall j | 0 <= j < |es| :: !IsSource(es[j])
      ensures FilesSpec(st, ch, h, dir, parentProps, es) == Walked(st, ch, h, map[], false)
    {
      if es != [] {
        NonSourcesIgnored(st, ch, h, dir, parentProps, es[..|es| - 1]);
      }
    }

    /** A directory whose properties settle nothing counts one `RT_DIR_SKIPPED`, publishes
        and removes nothing of its own, and its subdirectories are still walked. */
    lemma SkippedDirectoryDescends(st: Store, ch: Channel, h: HierarchyView, dir: Directory, parentProps: map<string, string>)
      ensures var r := ResolveHierarchy(WantedOf(fileProcessor.tools.templates, dir.properties), fileProcessor.tools.shouldUpdate,
                                        st, ch, Max(), h);
              var w := DirSpec(st, ch, h, dir, parentProps);
              !r.aborted && !r.ok ==>
                var s := AllSubdirsSpec(r.store, r.channel, r.hierarchy, dir);
                w.store == s.store && w.channel == s.channel && w.aborted == s.aborted
                && Count(w.tally, DirSkipped) == 1 + Count(s.tally, DirSkipped)
                && Count(w.tally, PubSuccess) == Count(s.tally, PubSuccess)
                && Count(w.tally, DelSuccess) == Count(s.tally, DelSuccess)
    {
      MergedCount(map[DirSkipped := 1], AllSubdirsSpec(st, ch, h, dir).tally, DirSkipped);
      var r := ResolveHierarchy(WantedOf(fileProcessor.tools.templates, dir.properties), fileProcessor.tools.shouldUpdate,
                                st, ch, Max(), h);
      var s := AllSubdirsSpec(r.store, r.channel, r.hierarchy, dir);
      MergedCount(Bumped(map[], DirSkipped), s.tally, DirSkipped);
      MergedCount(Bumped(map[], DirSkipped), s.tally, PubSuccess);
      MergedCount(Bumped(map[], DirSkipped), s.tally, DelSuccess);
    }

    /** Without the clean flag no stale article is looked for: the settled branch is the
        files alone. */
    lemma UncleanPublishesOnly(st: Store, ch: Channel, h: HierarchyView, dir: Directory, parentProps: map<string, string>)
      requires !clean
      ensures ResolvedSpec(st, ch, h, dir, parentProps) == AllFilesSpec(st, ch, h, dir, parentProps)
    {
    }

    /** `Collectors.toMap` over the listing: whether no title occurs twice. */
    method HasDistinctTitles(list: seq<Article>, ghost arts: seq<ArticleRecord>) returns (distinct: bool)
      requires Lists(list, arts)
      ensures distinct == DistinctTitles(arts)
    {
      var seen: set<string> := {};
      var k := 0;
      while k < |list|
        invariant k <= |list|
        invariant seen == set i | 0 <= i < k :: arts[i].data.title
        invariant DistinctTitles(arts[..k])
      {
        var t := list[k].title;
        assert t == arts[k].data.title;
        if t in seen {
          ghost var i :| 0 <= i < k && arts[i].data.title == t;
          assert !DistinctTitles(arts) by {
            assert arts[i].data.title == arts[k].data.title;
          }
          return false;
        }
        seen := seen + {t};
        k := k + 1;
      }
      assert arts[..k] == arts;
      return true;
    }
  }

  lemma StaleStep(arts: seq<ArticleRecord>, k: nat, local: set<string>)
    requires k < |arts|
    ensures Stale(arts[..k + 1], local)
            == Stale(arts[..k], local) + (if arts[k].data.title !in local then [arts[k]] else [])
  {
    assert arts[..k + 1][..k] == arts[..k];
  }

  /** One more listed article: removed after the earlier stale ones when it is stale. */
  lemma RemovalsStep(st: Store, ch: Channel, max: int, arts: seq<ArticleRecord>, k: nat, local: set<string>)
    requires k < |arts|
    ensures var r := Removals(st, ch, max, Stale(arts[..k], local));
            Removals(st, ch, max, Stale(arts[..k + 1], local))
            == if arts[k].data.title !in local then RemovalStep(r, max, arts[k]) else r
  {
    StaleStep(arts, k, local);
    if arts[k].data.title !in local {
      RemovalsAppend(st, ch, max, Stale(arts[..k], local), arts[k]);
    } else {
      assert Stale(arts[..k + 1], local) == Stale(arts[..k], local);
    }
  }

  lemma RemovalsAppend(st: Store, ch: Channel, max: int, arts: seq<ArticleRecord>, a: ArticleRecord)
    ensures Removals(st, ch, max, arts + [a]) == RemovalStep(Removals(st, ch, max, arts), max, a)
  {
    assert (arts + [a])[..|arts|] == arts;
  }

  /** Removing one article more of a listing, read as a prefix. */
  lemma RemovalsPrefixStep(st: Store, ch: Channel, max: int, arts: seq<ArticleRecord>, k: int)
    requires 0 <= k < |arts|
    ensures Removals(st, ch, max, arts[..k + 1]) == RemovalStep(Removals(st, ch, max, arts[..k]), max, arts[k])
  {
    assert arts[..k + 1] == arts[..k] + [arts[k]];
    RemovalsAppend(st, ch, max, arts[..k], arts[k]);
  }

  /** The local titles are exactly the titles of the readable documents. */
  lemma {:induction false} LocalTitlesExact(titleKey: string, entries: seq<Entry>)
    ensures forall t | t in LocalTitles(titleKey, entries) ::
              exists e | e in entries :: IsSource(e) && e.lines.Some? && t == DocumentParam(e.lines.value, titleKey, "")
    ensures forall e | e in entries && IsSource(e) && e.lines.Some? :: DocumentParam(e.lines.value, titleKey, "") in LocalTitles(titleKey, entries)
  {
    if entries != [] {
      var e := entries[|entries| - 1];
      var init := entries[..|entries| - 1];
      LocalTitlesExact(titleKey, init);
      assert forall x | x in init :: x in entries;
      assert forall x | x in entries :: x in init || x == e;
    }
  }

  /** The stale articles are exactly the listed ones whose titles are not local. */
  lemma {:induction false} StaleExact(arts: seq<ArticleRecord>, local: set<string>)
    ensures forall a | a in Stale(arts, local) :: a in arts && a.data.title !in local
    ensures forall a | a in arts && a.data.title !in local :: a in Stale(arts, local)
  {
    if arts != [] {
      var init := arts[..|arts| - 1];
      StaleExact(init, local);
      assert forall x | x in init :: x in arts;
      assert forall x | x in arts :: x in init || x == arts[|arts| - 1];
    }
  }

  /** Removing a listing article by article: one `RT_DEL_SUCCESS` or `RT_DEL_FAILURE` per
      article, only articles change, nothing is added, and every article whose id is not
      in the listing stays. */
  lemma {:induction false} RemovalsEffect(st: Store, ch: Channel, max: int, arts: seq<ArticleRecord>)
    ensures var r := Removals(st, ch, max, arts);
            Count(r.tally, DelSuccess) + Count(r.tally, DelFailure) == |arts|
            && r.tally.Keys <= {DelSuccess, DelFailure}
            && r.store.(articles := st.articles) == st
            && (forall a | a in r.store.articles :: a in st.articles)
            && (forall a | a in st.articles && a.id !in Ids(arts) :: a in r.store.articles)
  {
    if arts != [] {
      var init := arts[..|arts| - 1];
      var last := arts[|arts| - 1];
      RemovalsEffect(st, ch, max, init);
      var r := Removals(st, ch, max, init);
      assert forall x | x in init :: x in arts;
      assert Ids(init) <= Ids(arts);
      assert last.id in Ids(arts);
      BumpedCount(r.tally, DelSuccess, DelFailure);
      BumpedCount(r.tally, DelFailure, DelSuccess);
    }
  }

  /** Against a server that answers every request, every listed article is deleted and
      each deletion counts as a success. */
  lemma {:induction false} RemovalsAnswered(st: Store, ch: Channel, max: int, arts: seq<ArticleRecord>)
    requires max >= 1 && ch.script == []
    ensures var r := Removals(st, ch, max, arts);
            r.channel.script == []
            && Count(r.tally, DelSuccess) == |arts|
            && forall a | a in r.store.articles :: a.id !in Ids(arts)
  {
    if arts != [] {
      var init := arts[..|arts| - 1];
      RemovalsAnswered(st, ch, max, init);
      assert RetryRun(max, []) == Run(true, 1, [], []);
      assert forall x | x in arts :: x in init || x == arts[|arts| - 1];
    }
  }

  /** The titles of the stale articles are the remote titles less the local ones. */
  lemma StaleTitles(arts: seq<ArticleRecord>, local: set<string>)
    ensures TitleSet(Stale(arts, local)) == TitleSet(arts) - local
  {
    StaleExact(arts, local);
  }

  /** Dropping articles from a listing keeps its titles distinct. */
  lemma {:induction false} StaleDistinct(arts: seq<ArticleRecord>, local: set<string>)
    requires DistinctTitles(arts)
    ensures DistinctTitles(Stale(arts, local))
  {
    if arts != [] {
      var init := arts[..|arts| - 1];
      var last := arts[|arts| - 1];
      StaleDistinct(init, local);
      StaleExact(init, local);
      var s := Stale(init, local);
      forall a | a in s
        ensures a.data.title != last.data.title
      {
        var j :| 0 <= j < |init| && init[j] == a;
        assert arts[j] == a;
      }
    }
  }

  /** A listing with distinct titles has as many titles as articles. */
  lemma {:induction false} DistinctTitleCount(arts: seq<ArticleRecord>)
    requires DistinctTitles(arts)
    ensures |TitleSet(arts)| == |arts|
  {
    if arts != [] {
      var init := arts[..|arts| - 1];
      var last := arts[|arts| - 1];
      DistinctTitlesInit(arts);
      DistinctTitleCount(init);
      TitleSetSnoc(init, last);
      assert init + [last] == arts;
    }
  }

  /** The listing without its last article still has distinct titles, none of them the
      last article's. */
  lemma DistinctTitlesInit(arts: seq<ArticleRecord>)
    requires arts != [] && DistinctTitles(arts)
    ensures DistinctTitles(arts[..|arts| - 1])
    ensures arts[|arts| - 1].data.title !in TitleSet(arts[..|arts| - 1])
  {
    var init := arts[..|arts| - 1];
    forall a | a in init
      ensures a.data.title != arts[|arts| - 1].data.title
    {
      var j :| 0 <= j < |init| && init[j] == a;
      assert arts[j] == a;
    }
  }

  lemma TitleSetSnoc(init: seq<ArticleRecord>, last: ArticleRecord)
    ensures TitleSet(init + [last]) == TitleSet(init) + {last.data.title}
  {
    assert forall x | x in init + [last] :: x in init || x == last;
  }

  /** Removing the stale articles of a listing with distinct titles makes one attempt per
      remote title that no local document has. */
  lemma StaleRemovalCount(st: Store, ch: Channel, max: int, listed: seq<ArticleRecord>, local: set<string>)
    requires DistinctTitles(listed)
    ensures var r := Removals(st, ch, max, Stale(listed, local));
            Count(r.tally, DelSuccess) + Count(r.tally, DelFailure) == |TitleSet(listed) - local|
            && r.tally.Keys <= {DelSuccess, DelFailure}
            && r.store.(articles := st.articles) == st
            && (forall a | a in r.store.articles :: a in st.articles)
  {
    var stale := Stale(listed, local);
    RemovalsEffect(st, ch, max, stale);
    StaleTitles(listed, local);
    StaleDistinct(listed, local);
    DistinctTitleCount(stale);
  }

  /** Removing the stale articles of a section's listing keeps, on a server whose ids are
      unique, every article of another section and every article with a local title. */
  lemma StaleRemovalKeeps(st: Store, ch: Channel, max: int, listed: seq<ArticleRecord>, local: set<string>, sid: int)
    requires UniqueIds(st)
    requires forall j | 0 <= j < |listed| :: listed[j] in st.articles && listed[j].data.sectionId == sid
    ensures forall a | a in st.articles && (a.data.sectionId != sid || a.data.title in local) ::
              a in Removals(st, ch, max, Stale(listed, local)).store.articles
  {
    var stale := Stale(listed, local);
    RemovalsEffect(st, ch, max, stale);
    StaleExact(listed, local);
    forall a | a in st.articles && (a.data.sectionId != sid || a.data.title in local)
      ensures a.id !in Ids(stale)
    {
      forall b | b in stale
        ensures b.id != a.id
      {
        var k :| 0 <= k < |listed| && listed[k] == b;
        assert b != a;
        var i :| 0 <= i < |st.articles| && st.articles[i] == a;
        var j :| 0 <= j < |st.articles| && st.articles[j] == b;
      }
    }
  }
}
