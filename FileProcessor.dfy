/**
 * `FileProcessor`: one AsciiDoc file.  The document's metadata is read from its comment
 * lines, the hierarchy is completed from the parent directories when needed, and the
 * rendered document is published (updating the article of the same title, or creating
 * one) or printed.  Reading the file and rendering it are inputs here: the lines of the
 * file (`None` when it cannot be read) and the rendered HTML (`None` when rendering
 * fails).
 */
module Files {
  import opened Wrappers
  import opened JavaText
  import opened Outcomes
  import opened Retry
  import opened Remote
  import opened Facade
  import opened Documents
  import opened Tools

  /** The metadata keys (`asciidoc.template.*`). */
  datatype DocTemplates = DocTemplates(title: string, titleOld: string, position: string,
                                       draft: string, promoted: string, tags: string)

  // ---------------------------------------------------------------------------
  // Metadata parameters

  /** The lines a parameter is taken from: any line containing the key, or for boolean
      and integer parameters only comment lines (starting with `//`) containing it. */
  predicate IsParamLine(line: string, key: string, commentOnly: bool) {
    (!commentOnly || StartsWith(line, "//")) && Contains(line, key)
  }

  /** Index of the first parameter line for `key`. */
  function FirstParamLine(lines: seq<string>, key: string, commentOnly: bool): (r: Option<nat>)
    ensures r.Some? ==> r.value < |lines| && IsParamLine(lines[r.value], key, commentOnly)
    ensures r.Some? ==> forall j | 0 <= j < r.value :: !IsParamLine(lines[j], key, commentOnly)
    ensures r.None? <==> forall j | 0 <= j < |lines| :: !IsParamLine(lines[j], key, commentOnly)
  {
    if lines == [] then None
    else if IsParamLine(lines[0], key, commentOnly) then Some(0)
    else match FirstParamLine(lines[1..], key, commentOnly)
      case None => None
      case Some(i) => Some(i + 1)
  }

  /** A string parameter's value in its line: the key removed, then every `/`, then trimmed. */
  function LineValue(line: string, key: string): (v: string)
    ensures '/' !in v
    ensures v == [] || (v[0] > ' ' && v[|v| - 1] > ' ')
  {
    var unslashed := Replace(Replace(line, key, ""), "/", "");
    ReplaceCharByEmpty(Replace(line, key, ""), '/');
    TrimKeepsOut(unslashed, '/');
    Trim(unslashed)
  }

  lemma TrimKeepsOut(s: string, c: char)
    requires c !in s
    ensures c !in Trim(s)
  {
    var r := Trim(s);
    var a := LeadingSpace(s);
    forall k | 0 <= k < |r| ensures r[k] != c {
      assert r[k] == s[a + k];
    }
  }

  /** A boolean or integer parameter's value in its line: every `/` removed, then the
      key, then trimmed. */
  function CommentValue(line: string, key: string): (v: string)
    ensures v == [] || (v[0] > ' ' && v[|v| - 1] > ' ')
  {
    Trim(Replace(Replace(line, "/", ""), key, ""))
  }

  /** `getDocumentParam(lines, key, override)`: a non-blank override wins; otherwise the
      value in the first line containing the key, or "" when there is none. */
  function DocumentParam(lines: seq<string>, key: string, override: string): (r: string)
    ensures !IsBlank(override) ==> r == override
    ensures IsBlank(override) ==> '/' !in r && (r == [] || (r[0] > ' ' && r[|r| - 1] > ' '))
    ensures IsBlank(override) && FirstParamLine(lines, key, false).None? ==> r == ""
  {
    if !IsBlank(override) then override
    else match FirstParamLine(lines, key, false)
      case None => LineValue("", key)
      case Some(i) => LineValue(lines[i], key)
  }

  /** `getDocumentBooleanParam(lines, key)`: no comment line with the key is false; an
      empty value is true; otherwise true exactly for "true" in any case. */
  function BooleanParam(lines: seq<string>, key: string): (b: bool)
    ensures FirstParamLine(lines, key, true).None? ==> !b
  {
    match FirstParamLine(lines, key, true)
    case None => false
    case Some(i) =>
      var v := CommentValue(lines[i], key);
      IsBlank(v) || EqualsIgnoreCase(v, "true")
  }

  /** `getDocumentIntParam(lines, key, default)`: the value when `Integer.valueOf` accepts
      it, the default when there is no comment line with the key or it does not. */
  function IntParam(lines: seq<string>, key: string, default: int): (n: int)
    ensures INT_MIN <= default <= INT_MAX ==> INT_MIN <= n <= INT_MAX
    ensures FirstParamLine(lines, key, true).None? ==> n == default
  {
    match FirstParamLine(lines, key, true)
    case None => default
    case Some(i) => ParseInteger(CommentValue(lines[i], key), INT_MIN, INT_MAX).GetOr(default)
  }

  /** The non-blank pieces, each trimmed. */
  function TrimNonBlank(pieces: seq<string>): (r: seq<string>)
    ensures |r| <= |pieces|
    ensures forall k | 0 <= k < |r| :: r[k] == [] || (r[k][0] > ' ' && r[k][|r[k]| - 1] > ' ')
  {
    if pieces == [] then []
    else if IsBlank(pieces[0]) then TrimNonBlank(pieces[1..])
    else [Trim(pieces[0])] + TrimNonBlank(pieces[1..])
  }

  /** The tags of a document: the tag value split on commas, blank entries dropped, the
      others trimmed. */
  function Tags(value: string): seq<string> {
    TrimNonBlank(JavaSplit(value, ','))
  }

  /** `Integer.MAX_VALUE`, the position of a document that does not give one. */
  const DEFAULT_POSITION: int := INT_MAX

  /** The document `read` builds from the file's lines under the current category and
      section. */
  function ReadDocument(t: DocTemplates, inputFilename: string, lines: seq<string>,
                        category: string, section: string): DocumentData
  {
    DocumentData(inputFilename, category, section,
                 DocumentParam(lines, t.title, ""), DocumentParam(lines, t.titleOld, ""),
                 IntParam(lines, t.position, DEFAULT_POSITION),
                 BooleanParam(lines, t.draft), BooleanParam(lines, t.promoted),
                 Join(lines, '\n'), Tags(DocumentParam(lines, t.tags, "")))
  }

  // ---------------------------------------------------------------------------
  // Publishing

  /** The title the existing article is looked up under first: the old title when the
      document gives one. */
  function RequestTitle(d: DocumentData): string {
    if IsBlank(d.oldTitle) then d.title else d.oldTitle
  }

  function PublishedKind(d: DocumentData): ResultType {
    if d.draft then PubDraft else PubSuccess
  }

  /** `getArticle` with the hierarchy's section; without a section every attempt fails
      before sending anything. */
  function LookupArticle(st: Store, ch: Channel, max: int, sec: Option<SectionRecord>, title: string): Call<ArticleRecord> {
    if sec.None? then Call(st, ch, None) else GetArticleCall(st, ch, max, sec.value.id, title)
  }

  /** The article a document replaces: the one under its request title, else the one
      under its title. */
  function FindExisting(st: Store, ch: Channel, max: int, sec: Option<SectionRecord>, d: DocumentData): Call<ArticleRecord> {
    var first := LookupArticle(st, ch, max, sec, RequestTitle(d));
    if first.result.Some? then first else LookupArticle(first.store, first.channel, max, sec, d.title)
  }

  /** The permission group of a new article: the configured group, or the one named
      `groupTitle`, which costs one request; `None` when that request fails or no group
      has that name. */
  function GroupFor(st: Store, ch: Channel, group: Option<int>, groupTitle: string): Call<Option<int>> {
    if group.Some? then Call(st, ch, Some(group))
    else Call(st, ch.(script := Rest(ch.script), requests := ch.requests + 1),
              if Next(ch.script).Ok? && FindGroup(st, groupTitle).Some? then Some(FindGroup(st, groupTitle)) else None)
  }

  /** What publishing did: the server and channel afterwards and the one outcome. */
  datatype Publication = Publication(store: Store, channel: Channel, outcome: ResultType)

  /** Publishing over an existing article: refreshed from the document and sent back. */
  function PublishOver(st: Store, ch: Channel, max: int, existing: ArticleRecord, d: DocumentData, converted: string)
    : Publication
  {
    if IsBlank(converted) then Publication(st, ch, PubFailure)
    else
      var u := UpdateArticleCall(st, ch, max, existing.id, Refreshed(existing.data, d, converted));
      Publication(u.store, u.channel, if u.result.None? then PubFailure else PublishedKind(d))
  }

  /** Publishing a new article built from the document. */
  function PublishNew(st: Store, ch: Channel, max: int, sec: Option<SectionRecord>, d: DocumentData, converted: string,
                      group: Option<int>, groupTitle: string, commentsDisabled: bool): Publication
  {
    if sec.None? || IsBlank(converted) then Publication(st, ch, PubFailure)
    else
      var g := GroupFor(st, ch, group, groupTitle);
      if g.result.None? then Publication(g.store, g.channel, PubFailure)
      else
        var a := AddArticleCall(g.store, g.channel, max, ArticleFor(d, sec.value.id, converted, g.result.value, commentsDisabled));
        Publication(a.store, a.channel, if a.result.None? then PubFailure else PublishedKind(d))
  }

  /** `publishOrPrint` in publishing mode. */
  function Publish(st: Store, ch: Channel, max: int, sec: Option<SectionRecord>, d: DocumentData, converted: string,
                   group: Option<int>, groupTitle: string, commentsDisabled: bool): Publication
  {
    var found := FindExisting(st, ch, max, sec, d);
    if found.result.Some? then PublishOver(found.store, found.channel, max, found.result.value, d, converted)
    else PublishNew(found.store, found.channel, max, sec, d, converted, group, groupTitle, commentsDisabled)
  }

  /** The hierarchy `process` works under: when it lacks a category or a section, it is
      updated from the grandparent directory's properties, then the parent's. */
  function CompleteHierarchy(t: Templates, update: bool, st: Store, ch: Channel, max: int, h: HierarchyView,
                             categoryProps: map<string, string>, sectionProps: map<string, string>): Resolution
  {
    if h.category.Some? && h.section.Some? then Resolution(st, ch, h, true, false)
    else
      var r1 := ResolveHierarchy(WantedOf(t, categoryProps), update, st, ch, max, h);
      if r1.aborted || !r1.ok then r1
      else ResolveHierarchy(WantedOf(t, sectionProps), update, r1.store, r1.channel, max, r1.hierarchy)
  }

  /** What processing one file did: server, channel and hierarchy afterwards, the tally,
      and whether an exception escaped. */
  datatype FileRun = FileRun(store: Store, channel: Channel, hierarchy: HierarchyView, tally: Tally, aborted: bool)

  class FileProcessor {
    const templates: DocTemplates
    /** `zendesk.publish` */
    const performPublication: bool
    /** The configured permission group id, if any. */
    const group: Option<int>
    const tools: ZendeskTools

    constructor (templates: DocTemplates, performPublication: bool, group: Option<int>, tools: ZendeskTools)
      ensures this.templates == templates && this.performPublication == performPublication
      ensures this.group == group && this.tools == tools
    {
      this.templates := templates;
      this.performPublication := performPublication;
      this.group := group;
      this.tools := tools;
    }

    /** `publishOrPrint` as a whole. */
    function PublishOrPrintSpec(st: Store, ch: Channel, sec: Option<SectionRecord>, d: DocumentData, converted: string)
      : Publication
    {
      if performPublication then
        Publish(st, ch, tools.facade.maxRequestAttempts, sec, d, converted, group, tools.permissionGroupTitle, tools.commentsDisabled)
      else Publication(st, ch, FilePrinted)
    }

    /** The part of `process` after the hierarchy, for a named file: read, render,
        publish or print. */
    function PublishFile(st: Store, ch: Channel, h: HierarchyView, inputFilename: string,
                         lines: Option<seq<string>>, rendered: Option<string>): FileRun
    {
      if lines.None? || h.category.None? || h.section.None? || rendered.None? then
        FileRun(st, ch, h, map[], false)
      else
        var d := ReadDocument(templates, inputFilename, lines.value, h.category.value.name, h.section.value.name);
        var p := PublishOrPrintSpec(st, ch, h.section, d, rendered.value);
        FileRun(p.store, p.channel, h, Bumped(map[], p.outcome), false)
    }

    /** `process(inputFilename, hierarchy)` as a whole, from the properties of the
        file's grandparent and parent directories, its lines and its rendering. */
    function ProcessSpec(st: Store, ch: Channel, h: HierarchyView, inputFilename: string,
                         categoryProps: map<string, string>, sectionProps: map<string, string>,
                         lines: Option<seq<string>>, rendered: Option<string>): FileRun
    {
      ProcessUnder(CompleteHierarchy(tools.templates, tools.shouldUpdate, st, ch, tools.facade.maxRequestAttempts, h,
                                     categoryProps, sectionProps),
                   inputFilename, lines, rendered)
    }

    /** The rest of `process`, once the hierarchy has been completed (or not). */
    function ProcessUnder(r: Resolution, inputFilename: string, lines: Option<seq<string>>, rendered: Option<string>): FileRun
    {
      if r.aborted then FileRun(r.store, r.channel, r.hierarchy, map[], true)
      else if !r.ok then FileRun(r.store, r.channel, r.hierarchy, Bumped(map[], DirSkipped), false)
      else if IsBlank(inputFilename) then FileRun(r.store, r.channel, r.hierarchy, map[], false)
      else PublishFile(r.store, r.channel, r.hierarchy, inputFilename, lines, rendered)
    }

    /** `read(inputFilename, hierarchy)`: nothing when the file cannot be read or the
        hierarchy lacks a category or section (the `NullPointerException` is caught). */
    method Read(inputFilename: string, lines: Option<seq<string>>, hierarchy: ZendeskHierarchy) returns (d: Option<Document>)
      ensures lines.None? || hierarchy.category == null || hierarchy.section == null ==> d.None?
      ensures lines.Some? && hierarchy.category != null && hierarchy.section != null ==>
                d.Some? && fresh(d.value)
                && d.value.View() == ReadDocument(templates, inputFilename, lines.value,
                                                  hierarchy.category.name, hierarchy.section.name)
    {
      if lines.None? || hierarchy.category == null || hierarchy.section == null {
        return None;
      }
      var ls := lines.value;
      var doc := new Document();
      var self := doc.SetInputFilename(inputFilename);
      self := self.SetCategory(hierarchy.category.name);
      self := self.SetSection(hierarchy.section.name);
      self := self.SetTitle(DocumentParam(ls, templates.title, ""));
      self := self.SetOldTitle(DocumentParam(ls, templates.titleOld, ""));
      self := self.SetPosition(IntParam(ls, templates.position, DEFAULT_POSITION));
      self := self.SetDraft(BooleanParam(ls, templates.draft));
      self := self.SetPromoted(BooleanParam(ls, templates.promoted));
      self := self.SetContents(Join(ls, '\n'));
      self := self.SetTags(Tags(DocumentParam(ls, templates.tags, "")));
      return Some(doc);
    }

    /** The two `getArticle` lookups of `publishOrPrint`. */
    method FindExistingArticle(document: Document, hierarchy: ZendeskHierarchy) returns (requested: Option<Article>)
      modifies tools.facade
      ensures Call(tools.facade.store, tools.facade.channel, ArticleView(requested))
              == FindExisting(old(tools.facade.store), old(tools.facade.channel), tools.facade.maxRequestAttempts,
                              ViewOf(hierarchy).section, document.View())
      ensures requested.Some? ==> fresh(requested.value) && requested.value.id.Some?
    {
      requested := None;
      if hierarchy.section != null {
        var requestTitle := if IsBlank(document.oldTitle) then document.title else document.oldTitle;
        requested := tools.facade.GetArticle(hierarchy.section, requestTitle);
        if requested.None? {
          requested := tools.facade.GetArticle(hierarchy.section, document.title);
        }
      }
    }

    /** The update branch of `publishOrPrint`. */
    method PublishOverArticle(existing: Article, document: Document, converted: string) returns (outcome: ResultType)
      requires existing.id.Some?
      modifies existing, tools.facade
      ensures Publication(tools.facade.store, tools.facade.channel, outcome)
              == PublishOver(old(tools.facade.store), old(tools.facade.channel), tools.facade.maxRequestAttempts,
                             ArticleRecord(old(existing.id.value), old(existing.Data())), document.View(), converted)
    {
      var newArticle := tools.UpdateArticle(existing, document, converted);
      if newArticle.None? {
        return PubFailure;
      }
      var processed := tools.facade.UpdateArticle(newArticle.value);
      if processed.None? {
        return PubFailure;
      }
      outcome := if document.draft then PubDraft else PubSuccess;
    }

    /** The create branch of `publishOrPrint`. */
    method PublishNewArticle(document: Document, hierarchy: ZendeskHierarchy, converted: string) returns (outcome: ResultType)
      modifies tools.facade
      ensures Publication(tools.facade.store, tools.facade.channel, outcome)
              == PublishNew(old(tools.facade.store), old(tools.facade.channel), tools.facade.maxRequestAttempts,
                            ViewOf(hierarchy).section, document.View(), converted,
                            group, tools.permissionGroupTitle, tools.commentsDisabled)
    {
      var newArticle := tools.CreateArticle(document, hierarchy.section, converted, group);
      if newArticle.None? {
        return PubFailure;
      }
      var processed := tools.facade.AddArticle(newArticle.value);
      if processed.None? {
        return PubFailure;
      }
      outcome := if document.draft then PubDraft else PubSuccess;
    }

    /** The publishing branch of `publishOrPrint`: update the article found under the
        document's request title or title, or create one. */
    method PublishDocument(document: Document, converted: string, hierarchy: ZendeskHierarchy) returns (outcome: ResultType)
      modifies tools.facade
      ensures Publication(tools.facade.store, tools.facade.channel, outcome)
              == Publish(old(tools.facade.store), old(tools.facade.channel), tools.facade.maxRequestAttempts,
                         ViewOf(hierarchy).section, document.View(), converted,
                         group, tools.permissionGroupTitle, tools.commentsDisabled)
    {
      var requested := FindExistingArticle(document, hierarchy);
      if requested.Some? {
        outcome := PublishOverArticle(requested.value, document, converted);
      } else {
        outcome := PublishNewArticle(document, hierarchy, converted);
      }
    }

    /** `publishOrPrint(document, convertedDocument, hierarchy)`: exactly one outcome. */
    method PublishOrPrint(document: Document, converted: string, hierarchy: ZendeskHierarchy) returns (result: ProcessingResult)
      modifies tools.facade
      ensures fresh(result)
      ensures var p := PublishOrPrintSpec(old(tools.facade.store), old(tools.facade.channel), ViewOf(hierarchy).section,
                                          document.View(), converted);
              tools.facade.store == p.store && tools.facade.channel == p.channel
              && result.results == Bumped(map[], p.outcome)
    {
      if !performPublication {
        result := new ProcessingResult.Of(FilePrinted);
        return;
      }
      var outcome := PublishDocument(document, converted, hierarchy);
      if outcome == PubDraft {
        result := new ProcessingResult();
        result := result.Add(PubDraft);
      } else {
        result := new ProcessingResult.Of(outcome);
      }
    }

    /** The hierarchy half of `process`. */
    method CompleteHierarchyOf(hierarchy: ZendeskHierarchy, categoryProps: map<string, string>, sectionProps: map<string, string>)
      returns (ok: bool, aborted: bool)
      modifies hierarchy, tools.facade
      ensures Resolution(tools.facade.store, tools.facade.channel, ViewOf(hierarchy), ok, aborted)
              == CompleteHierarchy(tools.templates, tools.shouldUpdate, old(tools.facade.store), old(tools.facade.channel),
                                   tools.facade.maxRequestAttempts, old(ViewOf(hierarchy)), categoryProps, sectionProps)
    {
      if hierarchy.category != null && hierarchy.section != null {
        return true, false;
      }
      ok, aborted := tools.UpdateHierarchy(hierarchy, categoryProps);
      if ok && !aborted {
        ok, aborted := tools.UpdateHierarchy(hierarchy, sectionProps);
      }
    }

    /** `read(...).ifPresent(d -> convert(d).ifPresent(cd -> publishOrPrint(d, cd, hierarchy)))`:
        the result of publishing or printing, when the file could be read and rendered. */
    method ReadAndPublish(inputFilename: string, hierarchy: ZendeskHierarchy,
                          lines: Option<seq<string>>, rendered: Option<string>)
      returns (published: Option<ProcessingResult>)
      modifies tools.facade
      ensures published.Some? ==> fresh(published.value)
      ensures var f := PublishFile(old(tools.facade.store), old(tools.facade.channel), ViewOf(hierarchy),
                                   inputFilename, lines, rendered);
              tools.facade.store == f.store && tools.facade.channel == f.channel
              && (if published.Some? then published.value.results else map[]) == f.tally
    {
      var d := Read(inputFilename, lines, hierarchy);
      if d.None? || rendered.None? {
        return None;
      }
      var result := PublishOrPrint(d.value, rendered.value, hierarchy);
      return Some(result);
    }

    /** `process(inputFilename, hierarchy)`: `aborted` when a directory's position
        property made `updateHierarchy` throw. */
    method Process(inputFilename: string, hierarchy: ZendeskHierarchy,
                   categoryProps: map<string, string>, sectionProps: map<string, string>,
                   lines: Option<seq<string>>, rendered: Option<string>)
      returns (result: ProcessingResult, aborted: bool)
      modifies hierarchy, tools.facade
      ensures fresh(result)
      ensures FileRun(tools.facade.store, tools.facade.channel, ViewOf(hierarchy), result.results, aborted)
              == ProcessSpec(old(tools.facade.store), old(tools.facade.channel), old(ViewOf(hierarchy)),
                             inputFilename, categoryProps, sectionProps, lines, rendered)
    {
      result := new ProcessingResult();
      var ok;
      ok, aborted := CompleteHierarchyOf(hierarchy, categoryProps, sectionProps);
      if !aborted {
        ProcessFile(result, ok, inputFilename, hierarchy, lines, rendered);
      }
    }

    /** The rest of `process` once `updateHierarchy` returned `ok`, adding to the
        empty `result`. */
    method ProcessFile(result: ProcessingResult, ok: bool, inputFilename: string, hierarchy: ZendeskHierarchy,
                       lines: Option<seq<string>>, rendered: Option<string>)
      requires result.results == map[]
      modifies result, tools.facade
      ensures FileRun(tools.facade.store, tools.facade.channel, ViewOf(hierarchy), result.results, false)
              == ProcessUnder(Resolution(old(tools.facade.store), old(tools.facade.channel), ViewOf(hierarchy), ok, false),
                              inputFilename, lines, rendered)
    {
      var self;
      if !ok {
        self := result.Add(DirSkipped);
      }
      if !IsBlank(inputFilename) && result.Get(DirSkipped) == 0 {
        var published := ReadAndPublish(inputFilename, hierarchy, lines, rendered);
        if published.Some? {
          MergedEmpty(published.value.results);
          self := result.Merge(published.value);
        }
      }
    }

    /** A file contributes at most one outcome, none when an exception escaped, and a
        file whose directories could not be resolved is never published. */
    lemma ProcessCountsOnce(st: Store, ch: Channel, h: HierarchyView, inputFilename: string,
                            categoryProps: map<string, string>, sectionProps: map<string, string>,
                            lines: Option<seq<string>>, rendered: Option<string>)
      ensures var f := ProcessSpec(st, ch, h, inputFilename, categoryProps, sectionProps, lines, rendered);
              Total(f.tally) <= 1 && (f.aborted ==> f.tally == map[])
              && (Count(f.tally, DirSkipped) == 1 ==> Total(f.tally) == 1)
    {
      var f := ProcessSpec(st, ch, h, inputFilename, categoryProps, sectionProps, lines, rendered);
      assert Total(map[]) == 0;
      if f.tally != map[] {
        var k :| f.tally == Bumped(map[], k);
        TotalBumped(map[], k);
      }
    }
  }

  // ---------------------------------------------------------------------------
  // Properties of metadata reading

  /** A comment line `// <key> <value>` gives back its value as a string parameter. */
  lemma LineValueReadsBack(key: string, v: string)
    requires |key| > 0 && key[0] != '/' && key[0] != ' ' && '/' !in key
    requires '/' !in v && (v == [] || (v[0] > ' ' && v[|v| - 1] > ' '))
    requires !Contains(" " + v, key)
    ensures LineValue("// " + key + " " + v, key) == v
  {
    var line := "// " + key + " " + v;
    assert line == "// " + key + (" " + v);
    KeyRemovedAfter("// ", key, " " + v);
    var r1 := Replace(line, key, "");
    assert r1 == "//" + ("  " + v);
    SlashesRemoved("  " + v);
    var r2 := Replace(r1, "/", "");
    assert r2 == "  " + v;
    TrimPadded("  ", v);
    assert LineValue(line, key) == Trim(r2);
  }

  /** A comment line `// <key> <value>` gives back its value as a boolean or integer
      parameter. */
  lemma CommentValueReadsBack(key: string, v: string)
    requires |key| > 0 && key[0] != ' ' && '/' !in key
    requires '/' !in v && (v == [] || (v[0] > ' ' && v[|v| - 1] > ' '))
    requires !Contains(" " + v, key)
    ensures CommentValue("// " + key + " " + v, key) == v
  {
    var line := "// " + key + " " + v;
    var r1 := Replace(line, "/", "");
    CommentUnslashed(key, v);
    assert r1 == " " + key + (" " + v);
    KeyRemovedAfter(" ", key, " " + v);
    var r2 := Replace(r1, key, "");
    assert r2 == "  " + v;
    TrimPadded("  ", v);
    assert CommentValue(line, key) == Trim(r2);
  }

  /** The slashes of a comment line go first. */
  lemma CommentUnslashed(key: string, v: string)
    requires '/' !in key && '/' !in v
    ensures Replace("// " + key + " " + v, "/", "") == " " + key + (" " + v)
  {
    var unslashed := " " + key + (" " + v);
    assert "// " + key + " " + v == "//" + unslashed;
    SlashesRemoved(unslashed);
  }

  /** A key whose first character does not occur in `pre` and that does not occur in
      `post` is removed once. */
  lemma KeyRemovedAfter(pre: string, key: string, post: string)
    requires |key| > 0 && key[0] !in pre
    requires !Contains(post, key)
    ensures Replace(pre + key + post, key, "") == pre + post
  {
    var s := pre + key + post;
    assert NoneBefore(s, key, |pre|) by {
      forall i | 0 <= i < |pre|
        ensures !OccursAt(s, key, i)
      {
        assert s[i] == pre[i];
      }
    }
    ReplaceSingleOccurrence(pre, key, post, "");
    assert pre + "" + post == pre + post;
  }

  /** Removing the slashes of `//` followed by text without any. */
  lemma SlashesRemoved(s: string)
    requires '/' !in s
    ensures Replace("//" + s, "/", "") == s
  {
    ReplaceCharAppend("//", s, '/', "");
    NoSlashAbsent(s);
    assert Replace("//", "/", "") == [];
  }

  lemma NoSlashAbsent(s: string)
    requires '/' !in s
    ensures Replace(s, "/", "") == s
  {
    assert !Contains(s, "/") by {
      forall i | 0 <= i <= |s| - 1 ensures !OccursAt(s, "/", i) {
        assert s[i] in s;
      }
    }
    ReplaceAbsent(s, "/", "");
  }

  /** A document whose first mention of each key is a comment line `// <key> <value>`
      reads back every value: the string as written, the boolean as "true", "" (true) or
      anything else (false), and the integer as printed by Java. */
  lemma {:induction false} ParamsReadBack(lines: seq<string>, i: nat, key: string, v: string)
    requires |key| > 0 && key[0] != '/' && key[0] != ' ' && '/' !in key
    requires '/' !in v && (v == [] || (v[0] > ' ' && v[|v| - 1] > ' ')) && !Contains(" " + v, key)
    requires i < |lines| && lines[i] == "// " + key + " " + v
    requires forall j | 0 <= j < i :: !Contains(lines[j], key)
    ensures DocumentParam(lines, key, "") == v
    ensures BooleanParam(lines, key) == (IsBlank(v) || EqualsIgnoreCase(v, "true"))
    ensures forall n | INT_MIN <= n <= INT_MAX && v == DecimalString(n) :: IntParam(lines, key, DEFAULT_POSITION) == n
  {
    var line := "// " + key + " " + v;
    assert OccursAt(line, key, 3);
    assert StartsWith(line, "//");
    FirstParamLineAt(lines, i, key, false);
    FirstParamLineAt(lines, i, key, true);
    LineValueReadsBack(key, v);
    CommentValueReadsBack(key, v);
    forall n | INT_MIN <= n <= INT_MAX && v == DecimalString(n)
      ensures IntParam(lines, key, DEFAULT_POSITION) == n
    {
      ParseDecimalString(n, INT_MIN, INT_MAX);
    }
  }

  lemma {:induction false} FirstParamLineAt(lines: seq<string>, i: nat, key: string, commentOnly: bool)
    requires i < |lines| && IsParamLine(lines[i], key, commentOnly)
    requires forall j | 0 <= j < i :: !Contains(lines[j], key)
    ensures FirstParamLine(lines, key, commentOnly) == Some(i)
  {
    if i > 0 {
      FirstParamLineAt(lines[1..], i - 1, key, commentOnly);
    }
  }

  /** The tags written as a comma-separated list of trimmed, non-blank names without
      commas are read back as that list. */
  lemma TagsReadBack(tags: seq<string>)
    requires forall k | 0 <= k < |tags| :: !IsBlank(tags[k]) && ',' !in tags[k]
                                           && tags[k][0] > ' ' && tags[k][|tags[k]| - 1] > ' '
    ensures Tags(Join(tags, ',')) == tags
  {
    if tags == [] {
      assert JavaSplit([], ',') == [[]];
    } else {
      JavaSplitJoin(tags, ',');
      TrimNonBlankKeeps(tags);
    }
  }

  lemma {:induction false} TrimNonBlankKeeps(tags: seq<string>)
    requires forall k | 0 <= k < |tags| :: !IsBlank(tags[k]) && tags[k][0] > ' ' && tags[k][|tags[k]| - 1] > ' '
    ensures TrimNonBlank(tags) == tags
  {
    if tags != [] {
      TrimTrimmed(tags[0]);
      TrimNonBlankKeeps(tags[1..]);
    }
  }

  // ---------------------------------------------------------------------------
  // Properties of publishing

  /** An article the server holds in a section under some title can be found there by
      that title. */
  lemma FindableWhenHeld(st: Store, sectionId: int, a: ArticleRecord)
    requires a in st.articles && a.data.sectionId == sectionId
    ensures FindArticle(st, sectionId, a.data.title).Some?
  {
    EqualsIgnoreCaseReflexive(a.data.title);
    FindArticleSound(st, sectionId, a.data.title);
  }

  /** Against a server that answers every request, publishing rendered text into a
      section with a known permission group succeeds, leaves an article under the
      document's title in that section, and creates one exactly when none was found under
      the request title or the title. */
  lemma PublishedIsFindable(st: Store, ch: Channel, max: int, sec: Option<SectionRecord>, d: DocumentData,
                            converted: string, group: Option<int>, groupTitle: string, commentsDisabled: bool)
    requires max >= 1 && ch.script == [] && sec.Some? && !IsBlank(converted)
    requires group.Some? || FindGroup(st, groupTitle).Some?
    ensures var p := Publish(st, ch, max, sec, d, converted, group, groupTitle, commentsDisabled);
            p.outcome == PublishedKind(d) && FindArticle(p.store, sec.value.id, d.title).Some?
    ensures var p := Publish(st, ch, max, sec, d, converted, group, groupTitle, commentsDisabled);
            |p.store.articles| == |st.articles| + (if FindExisting(st, ch, max, sec, d).result.Some? then 0 else 1)
  {
    assert RetryRun(max, []) == Run(true, 1, [], []);
    var sid := sec.value.id;
    var found := FindExisting(st, ch, max, sec, d);
    assert found.store == st && found.channel.script == [];
    if found.result.Some? {
      var e := found.result.value;
      assert Some(e) == FindArticle(st, sid, RequestTitle(d)) || Some(e) == FindArticle(st, sid, d.title);
      FindArticleSound(st, sid, RequestTitle(d));
      FindArticleSound(st, sid, d.title);
      PublishOverFindable(st, found.channel, max, sid, e, d, converted);
    } else {
      PublishNewFindable(st, found.channel, max, sec, d, converted, group, groupTitle, commentsDisabled);
    }
  }

  lemma PublishOverFindable(st: Store, ch: Channel, max: int, sectionId: int, e: ArticleRecord, d: DocumentData, converted: string)
    requires max >= 1 && ch.script == [] && !IsBlank(converted)
    requires e in st.articles && e.data.sectionId == sectionId
    ensures var p := PublishOver(st, ch, max, e, d, converted);
            p.outcome == PublishedKind(d) && FindArticle(p.store, sectionId, d.title).Some?
            && |p.store.articles| == |st.articles|
  {
    assert RetryRun(max, []) == Run(true, 1, [], []);
    var k :| 0 <= k < |st.articles| && st.articles[k] == e;
    var st' := ArticleUpdated(st, e.id, Refreshed(e.data, d, converted));
    assert st'.articles[k] == ArticleRecord(e.id, Refreshed(e.data, d, converted));
    FindableWhenHeld(st', sectionId, st'.articles[k]);
  }

  lemma PublishNewFindable(st: Store, ch: Channel, max: int, sec: Option<SectionRecord>, d: DocumentData,
                           converted: string, group: Option<int>, groupTitle: string, commentsDisabled: bool)
    requires max >= 1 && ch.script == [] && sec.Some? && !IsBlank(converted)
    requires group.Some? || FindGroup(st, groupTitle).Some?
    ensures var p := PublishNew(st, ch, max, sec, d, converted, group, groupTitle, commentsDisabled);
            p.outcome == PublishedKind(d) && FindArticle(p.store, sec.value.id, d.title).Some?
            && |p.store.articles| == |st.articles| + 1
  {
    assert RetryRun(max, []) == Run(true, 1, [], []);
    var g := GroupFor(st, ch, group, groupTitle);
    assert g.result.Some? && g.store == st && g.channel.script == [];
    var data := ArticleFor(d, sec.value.id, converted, g.result.value, commentsDisabled);
    var st' := ArticleCreated(st, data);
    assert st'.articles[|st.articles|] == ArticleRecord(st.nextId, data);
    FindableWhenHeld(st', sec.value.id, ArticleRecord(st.nextId, data));
  }

  /** Renaming: when the server answers and the section holds an article under the
      document's old title, that article, and no other, takes the document's title and
      contents; nothing is created. */
  lemma PublishRenames(st: Store, ch: Channel, max: int, sec: Option<SectionRecord>, d: DocumentData,
                       converted: string, group: Option<int>, groupTitle: string, commentsDisabled: bool)
    requires max >= 1 && ch.script == [] && sec.Some? && !IsBlank(converted) && !IsBlank(d.oldTitle)
    requires FindArticle(st, sec.value.id, d.oldTitle).Some?
    ensures var e := FindArticle(st, sec.value.id, d.oldTitle).value;
            Publish(st, ch, max, sec, d, converted, group, groupTitle, commentsDisabled).store
            == ArticleUpdated(st, e.id, Refreshed(e.data, d, converted))
  {
    assert RetryRun(max, []) == Run(true, 1, [], []);
  }

  /** Without a section nothing is sent: the lookups fail before any request and no
      article can be built, so the file counts as a publication failure. */
  lemma PublishWithoutSection(st: Store, ch: Channel, max: int, d: DocumentData, converted: string,
                              group: Option<int>, groupTitle: string, commentsDisabled: bool)
    ensures Publish(st, ch, max, None, d, converted, group, groupTitle, commentsDisabled) == Publication(st, ch, PubFailure)
  {
  }

  /** Without a configured group and with no group of the configured name, a document
      that matches no existing article is not published: the group lookup costs its one
      request, the server is left as it was, and the file counts as a publication
      failure. */
  lemma PublishWithoutGroup(st: Store, ch: Channel, max: int, sec: Option<SectionRecord>, d: DocumentData,
                            converted: string, groupTitle: string, commentsDisabled: bool)
    requires FindExisting(st, ch, max, sec, d).result.None?
    requires FindGroup(st, groupTitle).None?
    ensures var p := Publish(st, ch, max, sec, d, converted, None, groupTitle, commentsDisabled);
            p.outcome == PubFailure && p.store == st
    ensures var found := FindExisting(st, ch, max, sec, d);
            var p := Publish(st, ch, max, sec, d, converted, None, groupTitle, commentsDisabled);
            sec.Some? && !IsBlank(converted) ==> p.channel.requests == found.channel.requests + 1
  {
    var found := FindExisting(st, ch, max, sec, d);
    assert found.store == st;
  }

  /** A failed publication leaves the server as it was (a successful one may too, when it
      sends an article exactly as the server already holds it). */
  lemma PublishFailureChangesNothing(st: Store, ch: Channel, max: int, sec: Option<SectionRecord>, d: DocumentData,
                                     converted: string, group: Option<int>, groupTitle: string, commentsDisabled: bool)
    ensures var p := Publish(st, ch, max, sec, d, converted, group, groupTitle, commentsDisabled);
            p.outcome == PubFailure ==> p.store == st
    ensures var p := Publish(st, ch, max, sec, d, converted, group, groupTitle, commentsDisabled);
            p.outcome != PubFailure ==> p.outcome == PublishedKind(d)
  {
    var found := FindExisting(st, ch, max, sec, d);
    assert found.store == st;
  }
}
