# asciidoc2zendesk, modelled in Dafny

asciidoc2zendesk publishes a tree of AsciiDoc files to a Zendesk Help Center. Every
directory carries a properties file that names the Help Center category and section its
files belong to. Every file carries comment lines holding its title, old title, position,
tags and draft and promoted flags. One run walks the tree from the configured directory.
For each directory it settles the category and section, getting or creating them on the
server. It renders each AsciiDoc file and publishes it: it updates the article of the
same title (or old title) in that section, or creates one. With the clean flag it then
removes the section's articles that no local file is titled after. A run may instead
delete every article of the Help Center. Every server request goes through a bounded
retry loop that waits out rate-limit answers. The run ends with a tally of outcomes.
Before and after rendering, a few text processors rewrite macros and strip `<code>` tags.

The project models that core:

- `Outcomes`: the outcome tally (`ProcessingResult`).
- `RateLimit` and `Retry`: the rate-limit exception and the retry loop.
- `Remote`: the server's content, as a value the requests act on.
- `Facade`: `ZendeskFacade`. Each request is a pure function on (store, channel), and a
  method of class `ZendeskFacade` performs it in place, proved equal to that function.
- `Tools`: `ZendeskTools` and the shared `ZendeskHierarchy`.
- `Documents`: `Document`.
- `Files`: `FileProcessor`.
- `Walk`: `DirectoryProcessor`.
- `Processing`: `Processor`.
- `Runners`: both `DocProcessorApplicationRunner` classes.
- `Preprocessors`, `CodeBlocks` and `BlockMacros`: the macro preprocessors, the code-tag
  postprocessor, and the video and note block macros.
- `Patterns`: where a greedy `java.util.regex` match lands.
- `JavaText`: the JDK and commons-lang string functions the code relies on, over `seq<char>`.

The server is a value (`Remote.Store`). Its answers are a script of outcomes, one per
request: success, a rate-limit answer with its delay, or any other failure. The file
system is an input too. A directory is its path, its properties, whether it can be
listed, and its entries in listing order. A file is its lines (absent when unreadable)
and its rendering (absent when rendering fails). The stateful classes (`ZendeskFacade`,
`ZendeskHierarchy`, `ProcessingResult`, `Document`, `Article`, the processors) are Dafny
classes whose methods change their fields. Each such method is proved against a
function that states the whole effect, and the lemmas state what those functions promise.

## Model

| member | source | states |
|---|---|---|
| Outcomes.ProcessingResult.constructor | src/main/java/ws/slink/model/ProcessingResult.java:28-29 | a new result records nothing |
| Outcomes.ProcessingResult.Of | src/main/java/ws/slink/model/ProcessingResult.java:31-33 | a result built from a kind holds exactly one outcome of that kind |
| Outcomes.ProcessingResult.Add | src/main/java/ws/slink/model/ProcessingResult.java:35-40 | `add` raises the counter of its kind by one (creating it at 1) and returns the receiver |
| Outcomes.ProcessingResult.MergeKind | src/main/java/ws/slink/model/ProcessingResult.java:46-49 | `merge(kind)` is `add(kind)` and returns the receiver |
| Outcomes.ProcessingResult.Merge | src/main/java/ws/slink/model/ProcessingResult.java:51-62 | every kind of either tally ends at the sum of both counters; the other tally is untouched unless it is the receiver, and merging a tally into itself doubles it |
| Outcomes.CountUnseen | src/main/java/ws/slink/model/ProcessingResult.java:42-44 | `get` of a kind never recorded is 0 |
| Outcomes.BumpedCount | src/main/java/ws/slink/model/ProcessingResult.java:35-40 | one `add` raises its own kind by one and leaves every other kind alone |
| Outcomes.MergedCount | src/main/java/ws/slink/model/ProcessingResult.java:51-62 | a merged tally counts, for every kind, the sum of the two counts |
| Outcomes.MergedEmpty | src/main/java/ws/slink/model/ProcessingResult.java:51-62 | merging with an empty result changes nothing, on either side |
| Outcomes.MergedCommutes | src/main/java/ws/slink/model/ProcessingResult.java:51-62 | the order of two merges does not matter |
| Outcomes.MergedAssociates | src/main/java/ws/slink/model/ProcessingResult.java:51-62 | nor does the grouping of three |
| Outcomes.PartlyMergedStep | src/main/java/ws/slink/model/ProcessingResult.java:54-60 | one step of the `forEach` turns one more kind's counter into the sum |
| Outcomes.PartlyMergedAll | src/main/java/ws/slink/model/ProcessingResult.java:52-53 | once every key of the union is visited, the partial merge is the merge |
| Outcomes.TotalMerged | src/main/java/ws/slink/model/ProcessingResult.java:51-62 | merging adds the totals |
| Outcomes.TotalBumped | src/main/java/ws/slink/model/ProcessingResult.java:35-40 | each `add` records exactly one outcome |
| RateLimit.FromResponse | src/main/java/org/zendesk/client/v2/ZendeskResponseRateLimitException.java:16-23 | the delay is always a `long` value |
| RateLimit.FromResponseParsed | src/main/java/org/zendesk/client/v2/ZendeskResponseRateLimitException.java:19 | a header that is an optional sign and decimal digits naming a `long` sets the delay to that number: at most 0 after a `-`, the value of the digits otherwise |
| RateLimit.FromResponseDecimal | src/main/java/org/zendesk/client/v2/ZendeskResponseRateLimitException.java:19 | a `long` written as Java prints it is read back exactly |
| RateLimit.FromResponseDefault | src/main/java/org/zendesk/client/v2/ZendeskResponseRateLimitException.java:12-22 | a missing header, or one that is not a decimal `long`, leaves the default of 60 seconds |
| RateLimit.Copy | src/main/java/org/zendesk/client/v2/ZendeskResponseRateLimitException.java:25-28 | the copy carries the same delay |
| Retry.RetryRun | src/main/java/ws/slink/zendesk/ZendeskFacade.java:53-74 | with no attempts allowed nothing is sent; otherwise between 1 and `maxRequestAttempts` requests go out, all of them when none goes through |
| Retry.FirstOk | src/main/java/ws/slink/zendesk/ZendeskFacade.java:54-71 | the index of the first answer that goes through, with every earlier answer a failure |
| Retry.RetryRunFirstOk | src/main/java/ws/slink/zendesk/ZendeskFacade.java:54-73 | the loop gets an answer exactly when the first successful answer comes within `maxRequestAttempts` requests, and then it sent exactly the requests up to it |
| Retry.RetryRunSleeps | src/main/java/ws/slink/zendesk/ZendeskFacade.java:60-61 | the loop consumes one scripted answer per request and sleeps after exactly the rate-limit answers among them, for their delays, in order; other failures are retried at once |
| Retry.AfterRetryStep | src/main/java/ws/slink/zendesk/ZendeskFacade.java:54-71 | one turn of the loop: a success ends it, a rate-limit answer sleeps and leaves a loop one attempt shorter, any other failure leaves a loop one attempt shorter |
| Retry.AfterRetryNone | src/main/java/ws/slink/zendesk/ZendeskFacade.java:72-73 | with no attempt left nothing is sent and there is no answer |
| Facade.ZendeskFacade.constructor | src/main/java/ws/slink/zendesk/ZendeskFacade.java:30-44 | the client starts with the configured attempt bound, the server's content and no request sent |
| Facade.ZendeskFacade.ApiRateLimitWait | src/main/java/ws/slink/zendesk/ZendeskFacade.java:457-464 | one sleep of `seconds * 1000` milliseconds, computed as a `long`, is recorded; nothing else changes |
| Retry.SleepMillis | src/main/java/ws/slink/zendesk/ZendeskFacade.java:460 | the sleep argument is `seconds * 1000` when that fits a `long`, and otherwise that product wrapped around modulo 2^64 into the `long` range |
| Facade.ZendeskFacade.RetryLoop | src/main/java/ws/slink/zendesk/ZendeskFacade.java:54-73 | the loop's channel afterwards and its answer are those of the retry function; the server is untouched |
| Facade.ZendeskFacade.GetCategory | src/main/java/ws/slink/zendesk/ZendeskFacade.java:53-74 | the first category named `categoryName` ignoring case, as a fresh object, or empty when none or the retries ran out |
| Facade.ZendeskFacade.AddCategory | src/main/java/ws/slink/zendesk/ZendeskFacade.java:83-105 | on an answer the server stores the category under the next id and a fresh copy comes back; otherwise nothing is stored |
| Facade.ZendeskFacade.UpdateCategory | src/main/java/ws/slink/zendesk/ZendeskFacade.java:115-142 | the passed object comes back with no request when name, description (ignoring case) and position are unchanged; otherwise it is overwritten first and the server's record takes the values when the request goes through |
| Facade.ZendeskFacade.GetOrAddCategory | src/main/java/ws/slink/zendesk/ZendeskFacade.java:152-166 | found by name: updated when `update` is set, returned otherwise; not found or unanswered: created |
| Facade.ZendeskFacade.GetOrAddRenamedCategory | src/main/java/com/dxfeed/zendesk/ZendeskTools.java:91 | the same get-or-create, looking the category up under the old name when one is given |
| Facade.ZendeskFacade.GetSection | src/main/java/ws/slink/zendesk/ZendeskFacade.java:175-196 | the first section of the category named `sectionName` ignoring case, or empty |
| Facade.ZendeskFacade.GetSectionByName | src/main/java/ws/slink/zendesk/ZendeskFacade.java:197-205 | the category is looked up by name first; no section request when it is not found |
| Facade.ZendeskFacade.AddSection | src/main/java/ws/slink/zendesk/ZendeskFacade.java:214-237 | on an answer the server stores the section in the category under the next id |
| Facade.ZendeskFacade.AddSectionByName | src/main/java/ws/slink/zendesk/ZendeskFacade.java:238-246 | the same, after looking the category up by name; nothing when it is not found |
| Facade.ZendeskFacade.UpdateSection | src/main/java/ws/slink/zendesk/ZendeskFacade.java:256-283 | as `updateCategory`, for a section |
| Facade.ZendeskFacade.GetOrAddSectionByName | src/main/java/ws/slink/zendesk/ZendeskFacade.java:294-308 | get-or-create of a section under a category named by name |
| Facade.ZendeskFacade.GetOrAddSection | src/main/java/ws/slink/zendesk/ZendeskFacade.java:309-323 | get-or-create of a section under a category object |
| Facade.ZendeskFacade.GetOrAddRenamedSection | src/main/java/com/dxfeed/zendesk/ZendeskTools.java:107 | the same, looking the section up under the old name when one is given |
| Facade.ZendeskFacade.Materialise | src/main/java/ws/slink/zendesk/ZendeskFacade.java:329-331 | one fresh article object per listed record, in order, each carrying its id and data |
| Facade.ZendeskFacade.GetArticles | src/main/java/ws/slink/zendesk/ZendeskFacade.java:326-346 | the section's articles in listing order, or an empty list when the retries ran out |
| Facade.ZendeskFacade.GetAllArticles | src/main/java/ws/slink/parser/Processor.java:34 | every article of the Help Center in listing order, or an empty list when the retries ran out |
| Facade.ZendeskFacade.GetArticle | src/main/java/ws/slink/zendesk/ZendeskFacade.java:350-371 | the first article of the section titled `articleTitle` ignoring case, or empty |
| Facade.ZendeskFacade.AddArticle | src/main/java/ws/slink/zendesk/ZendeskFacade.java:372-390 | on an answer the server stores the article's data under the next id and a fresh copy with that id comes back |
| Facade.ZendeskFacade.UpdateArticle | src/main/java/ws/slink/zendesk/ZendeskFacade.java:391-423 | on an answer the record with the article's id takes its data; an article without an id fails every attempt without a request |
| Facade.ZendeskFacade.RemoveArticle | src/main/java/ws/slink/zendesk/ZendeskFacade.java:424-441 | true exactly when the deletion went through, and then every record with that id is gone |
| Facade.ZendeskFacade.GetPermissionGroupId | src/main/java/ws/slink/zendesk/ZendeskFacade.java:447-455 | one request without retry: the id of the first group named `title` ignoring case, or a failure that reaches the caller |
| Facade.FindGroup | src/main/java/ws/slink/zendesk/ZendeskFacade.java:447-455 | the id found belongs to the first group in listing order whose name matches ignoring case, and nothing is found exactly when no group matches |
| Facade.GetOrAddCategoryBranches | src/main/java/ws/slink/zendesk/ZendeskFacade.java:152-166 | a lookup that answered and found a match never creates; a lookup that found nothing or ran out of attempts creates, even when a matching category exists |
| Facade.GetOrAddCategoryIdempotent | src/main/java/ws/slink/zendesk/ZendeskFacade.java:152-166 | against a server that always answers, running get-or-create twice creates at most one category and returns the same one |
| Facade.UpdateCategoryThenNoUpdate | src/main/java/ws/slink/zendesk/ZendeskFacade.java:115-121 | an answered update repeated with the same values sends nothing and changes nothing |
| Facade.GetOrAddSectionBranches | src/main/java/ws/slink/zendesk/ZendeskFacade.java:309-323 | as for categories, for sections |
| Facade.GetOrAddSectionIdempotent | src/main/java/ws/slink/zendesk/ZendeskFacade.java:309-323 | as for categories, for sections |
| Facade.UpdateSectionThenNoUpdate | src/main/java/ws/slink/zendesk/ZendeskFacade.java:256-262 | as for categories, for sections |
| Facade.ByNameWithoutCategory | src/main/java/ws/slink/zendesk/ZendeskFacade.java:197-246 | when the category name is not found, section lookup and creation stop with only the category lookup's requests sent |
| Remote.Category.constructor | src/main/java/com/dxfeed/DocProcessorApplicationRunner.java:47 | `new Category()` has every field at its default and the name reads as "" |
| Remote.Category.FromRecord | src/main/java/ws/slink/zendesk/ZendeskFacade.java:90 | the object the client builds from an answer holds that answer's values |
| Remote.Section.constructor | src/main/java/com/dxfeed/DocProcessorApplicationRunner.java:47 | `new Section()` has every field at its default |
| Remote.Section.FromRecord | src/main/java/ws/slink/zendesk/ZendeskFacade.java:222 | the object built from an answer holds that answer's values |
| Remote.Article.constructor | src/main/java/com/dxfeed/zendesk/ZendeskTools.java:123 | `new Article()` has no id and every field at its default |
| Remote.Article.FromRecord | src/main/java/ws/slink/zendesk/ZendeskFacade.java:375 | the object built from an answer carries its id and data |
| Remote.FirstIgnoringCase | src/main/java/ws/slink/zendesk/ZendeskFacade.java:56-59 | `filter(equalsIgnoreCase).findFirst()`: the first match, no match before it, and none exactly when no name matches |
| Remote.FirstIgnoringCaseAppend | src/main/java/ws/slink/zendesk/ZendeskFacade.java:56-59 | a matching name appended to a listing is found unless an earlier name already matches |
| Remote.SectionsIn | src/main/java/ws/slink/zendesk/ZendeskFacade.java:178-181 | the listing of a category holds only that category's sections, each taken from the server, and every one of them |
| Remote.ArticlesIn | src/main/java/ws/slink/zendesk/ZendeskFacade.java:329-331 | the listing of a section holds only that section's articles, each taken from the server, and every one of them |
| Remote.SectionsInAppend | src/main/java/ws/slink/zendesk/ZendeskFacade.java:178-181 | the category's listing keeps the server's order: empty for an empty server, and a section listed last on the server comes last in its category's listing and is absent from the others |
| Remote.ArticlesInAppend | src/main/java/ws/slink/zendesk/ZendeskFacade.java:329-331 | the section's listing keeps the server's order: empty for an empty server, and an article listed last on the server comes last in its section's listing and is absent from the others |
| Remote.FindCategorySound | src/main/java/ws/slink/zendesk/ZendeskFacade.java:53-74 | a category lookup finds a category whose name matches ignoring case, and finds nothing only when none matches |
| Remote.FindSectionSound | src/main/java/ws/slink/zendesk/ZendeskFacade.java:175-196 | the same for a section of one category |
| Remote.FindArticleSound | src/main/java/ws/slink/zendesk/ZendeskFacade.java:350-371 | the same for an article of one section, by title |
| Remote.ArticleDeleted | src/main/java/ws/slink/zendesk/ZendeskFacade.java:424-441 | deletion removes every record with the id and keeps every other one |
| Remote.Without | src/main/java/ws/slink/zendesk/ZendeskFacade.java:427 | the listing without an id keeps exactly the other records |
| Remote.CreateThenFindCategory | src/main/java/ws/slink/zendesk/ZendeskFacade.java:83-105 | after a category is created, looking its name up finds it, or the earlier category that already matched |
| Remote.CreateThenFindSection | src/main/java/ws/slink/zendesk/ZendeskFacade.java:214-237 | the same for a section in its category |
| Documents.Document.constructor | src/main/java/ws/slink/model/Document.java:15-24 | a new document has position 0, is neither draft nor promoted, and has no text |
| Documents.Document.SetInputFilename | src/main/java/ws/slink/model/Document.java:15 | the fluent setter changes that one field and returns the document |
| Documents.Document.SetCategory | src/main/java/ws/slink/model/Document.java:16 | likewise for the category |
| Documents.Document.SetSection | src/main/java/ws/slink/model/Document.java:17 | likewise for the section |
| Documents.Document.SetTitle | src/main/java/ws/slink/model/Document.java:18 | likewise for the title |
| Documents.Document.SetOldTitle | src/main/java/ws/slink/model/Document.java:19 | likewise for the old title |
| Documents.Document.SetPosition | src/main/java/ws/slink/model/Document.java:20 | likewise for the position |
| Documents.Document.SetDraft | src/main/java/ws/slink/model/Document.java:21 | likewise for the draft flag |
| Documents.Document.SetPromoted | src/main/java/ws/slink/model/Document.java:22 | likewise for the promoted flag |
| Documents.Document.SetContents | src/main/java/ws/slink/model/Document.java:23 | likewise for the contents |
| Documents.Document.SetTags | src/main/java/ws/slink/model/Document.java:24 | likewise for the tags |
| Documents.Document.CanPublish | src/main/java/ws/slink/model/Document.java:39-44 | true exactly when category, section and title each hold a character that is not white space |
| Documents.Document.ToString | src/main/java/ws/slink/model/Document.java:27-37 | the text is the title, ` (`, the category, `, `, the section, `) ` and the file name, each at its place |
| Tools.ZendeskHierarchy.constructor | src/main/java/ws/slink/parser/Processor.java:45 | a new hierarchy has neither category nor section |
| Tools.ZendeskTools.constructor | src/main/java/com/dxfeed/zendesk/ZendeskTools.java:25-62 | the tools keep the configured keys and settings |
| Tools.ZendeskTools.UpdateHierarchy | src/main/java/com/dxfeed/zendesk/ZendeskTools.java:64-117 | the answer, the hierarchy left and the server's state are those of the resolution function; a position that is not an `int` throws before anything happens; the category and section objects are the old ones or fresh answers |
| Tools.NewArticle | src/main/java/com/dxfeed/zendesk/ZendeskTools.java:123-130 | a fresh article with no id holding the given data |
| Tools.ZendeskTools.CreateArticle | src/main/java/com/dxfeed/zendesk/ZendeskTools.java:119-143 | nothing without a document or section or with blank contents; otherwise a new article without id built from the document, whose group is the given one or the first one named by the configured title; that lookup costs one request, and the call gives nothing when the request fails or no group has the name, as the unboxing of a `null` id throws and is caught |
| Tools.ZendeskTools.UpdateArticle | src/main/java/com/dxfeed/zendesk/ZendeskTools.java:145-159 | nothing for a missing article or document or blank contents; otherwise the passed article itself, with title, body, draft, tags, promoted flag and position from the document and its id kept |
| Tools.ResolveNeitherName | src/main/java/com/dxfeed/zendesk/ZendeskTools.java:76-79 | neither name given: `false`, nothing changes |
| Tools.ResolveBlankSectionClears | src/main/java/com/dxfeed/zendesk/ZendeskTools.java:82-84 | a blank section name drops the current section, even when the category then fails |
| Tools.ResolveKeepsCategory | src/main/java/com/dxfeed/zendesk/ZendeskTools.java:87 | a current category answering to the name (or no name) is kept, and without a section to load no request is sent |
| Tools.ResolveSectionWithoutCategory | src/main/java/com/dxfeed/zendesk/ZendeskTools.java:103-106 | a section to load with no category: `false` and no request |
| Tools.ResolveOkHasHierarchy | src/main/java/com/dxfeed/zendesk/ZendeskTools.java:64-117 | a section is only ever placed under a category, and a `true` answer leaves the named category and, when named, the section |
| Tools.ResolveSectionShape | src/main/java/com/dxfeed/zendesk/ZendeskTools.java:102-114 | the section half keeps the category and, on `true`, leaves the named section |
| Tools.ResolveSucceedsWhenAnswered | src/main/java/com/dxfeed/zendesk/ZendeskTools.java:64-117 | against a server that always answers, the resolution succeeds whenever the positions are numbers and a category is named |
| Tools.RefreshedArticleFor | src/main/java/com/dxfeed/zendesk/ZendeskTools.java:145-159 | refreshing an article built for one document with another gives the article built for the other, in the same section and group |
| Files.FirstParamLine | src/main/java/ws/slink/parser/FileProcessor.java:265-268 | `filter(...).findFirst()`: the first line containing the key (and, for boolean and integer parameters, starting with `//`), with none before it, and none exactly when no line qualifies |
| Files.LineValue | src/main/java/ws/slink/parser/FileProcessor.java:270-272 | a string value after removing the key and every `/` and trimming holds no `/` and neither starts nor ends with white space |
| Files.CommentValue | src/main/java/ws/slink/parser/FileProcessor.java:283-286 | a boolean or integer value after removing every `/` and the key and trimming neither starts nor ends with white space |
| Files.DocumentParam | src/main/java/ws/slink/parser/FileProcessor.java:262-274 | a non-blank override wins; otherwise the trimmed value of the first line containing the key, or "" when there is none |
| Files.BooleanParam | src/main/java/ws/slink/parser/FileProcessor.java:275-290 | false when no comment line holds the key |
| Files.IntParam | src/main/java/ws/slink/parser/FileProcessor.java:291-310 | the default when no comment line holds the key; always an `int` when the default is one |
| Files.TrimNonBlank | src/main/java/ws/slink/parser/FileProcessor.java:167-171 | the tags keep at most the pieces there were, each trimmed |
| Files.LineValueReadsBack | src/main/java/ws/slink/parser/FileProcessor.java:262-274 | a comment line `// <key> <value>` gives back the value as a string parameter |
| Files.CommentValueReadsBack | src/main/java/ws/slink/parser/FileProcessor.java:283-286 | the same line gives back the value as a boolean or integer parameter |
| Files.ParamsReadBack | src/main/java/ws/slink/parser/FileProcessor.java:160-164 | when the first mention of a key is `// <key> <value>`, the string parameter reads the value, the boolean parameter is true exactly for "" or "true" in any case, and the integer parameter reads any `int` Java prints |
| Files.FirstParamLineAt | src/main/java/ws/slink/parser/FileProcessor.java:265-268 | the first line holding the key is the one found |
| Files.TagsReadBack | src/main/java/ws/slink/parser/FileProcessor.java:166-172 | tags written as a comma-separated list of trimmed, non-blank names without commas read back as that list |
| Files.TrimNonBlankKeeps | src/main/java/ws/slink/parser/FileProcessor.java:169-170 | trimmed, non-blank pieces are kept as they are |
| Files.FileProcessor.constructor | src/main/java/ws/slink/parser/FileProcessor.java:43-67 | the processor keeps its keys, its publish flag, its group and its tools |
| Files.FileProcessor.Read | src/main/java/ws/slink/parser/FileProcessor.java:145-189 | nothing when the file cannot be read or the hierarchy lacks a category or section; otherwise a fresh document with the file name, the hierarchy's names and the parameters read from the lines (position `Integer.MAX_VALUE` when absent) |
| Files.FileProcessor.FindExistingArticle | src/main/java/ws/slink/parser/FileProcessor.java:215-222 | the article under the old title when one is given and found, else the one under the title |
| Files.FileProcessor.PublishOverArticle | src/main/java/ws/slink/parser/FileProcessor.java:225-227 | the found article, refreshed from the document, is sent back as an update; the outcome is a success (or a draft) exactly when the update goes through |
| Files.FileProcessor.PublishNewArticle | src/main/java/ws/slink/parser/FileProcessor.java:228-243 | a new article built from the document is created in the hierarchy's section; the outcome is a failure, with nothing created, when the section is missing, the text is blank, the group is neither configured nor found, or a request fails |
| Files.FileProcessor.PublishDocument | src/main/java/ws/slink/parser/FileProcessor.java:213-253 | update the article found under the request title or the title, or create one; the server's state and the outcome are those of the publishing function |
| Files.FileProcessor.PublishOrPrint | src/main/java/ws/slink/parser/FileProcessor.java:211-260 | exactly one outcome: printed when publication is off, otherwise published, draft or failure |
| Files.FileProcessor.CompleteHierarchyOf | src/main/java/ws/slink/parser/FileProcessor.java:121-138 | a hierarchy lacking a category or section is updated from the grandparent directory's properties, then, when that succeeds, from the parent's |
| Files.FileProcessor.ReadAndPublish | src/main/java/ws/slink/parser/FileProcessor.java:140 | publishing happens only for a file that was read and rendered, and its outcome is the result |
| Files.FileProcessor.Process | src/main/java/ws/slink/parser/FileProcessor.java:118-143 | the whole of `process`: state, hierarchy, tally and abort are those of the file function |
| Files.FileProcessor.ProcessFile | src/main/java/ws/slink/parser/FileProcessor.java:132-141 | after an unresolved hierarchy the file counts as a skipped directory; otherwise a named file is read and published |
| Files.FileProcessor.ProcessCountsOnce | src/main/java/ws/slink/parser/FileProcessor.java:118-143 | a file contributes at most one outcome, none when an exception escaped, and a skipped directory is its only outcome |
| Files.FindableWhenHeld | src/main/java/ws/slink/zendesk/ZendeskFacade.java:350-371 | an article the section holds under a title is found by that title |
| Files.PublishedIsFindable | src/main/java/ws/slink/parser/FileProcessor.java:213-253 | against a server that always answers, publishing rendered text into a section with a configured or existing permission group succeeds, leaves an article under the document's title there, and creates one exactly when none was found |
| Files.PublishOverFindable | src/main/java/ws/slink/parser/FileProcessor.java:225-240 | the update branch keeps the number of articles and leaves the title findable |
| Files.PublishNewFindable | src/main/java/ws/slink/parser/FileProcessor.java:228-243 | with a configured or existing permission group, the create branch adds one article under the title |
| Files.PublishWithoutGroup | src/main/java/com/dxfeed/zendesk/ZendeskTools.java:132-142 | with no configured group and no group of the configured name, a document that matches no article fails to publish after one lookup request, and the server is unchanged |
| Files.PublishRenames | src/main/java/ws/slink/parser/FileProcessor.java:215-227 | with an old title found in the section, that article and no other takes the new title and contents, and nothing is created |
| Files.PublishWithoutSection | src/main/java/ws/slink/parser/FileProcessor.java:217-235 | without a section nothing is sent and the file is a publication failure |
| Files.PublishFailureChangesNothing | src/main/java/ws/slink/parser/FileProcessor.java:233-253 | a failure leaves the server as it was; any other outcome is success or draft by the document's flag |
| Walk.DirectoryProcessor.constructor | src/main/java/ws/slink/parser/DirectoryProcessor.java:31-36 | the walker keeps its file processor and the clean flag |
| Walk.DirectoryProcessor.Process | src/main/java/ws/slink/parser/DirectoryProcessor.java:38-53 | the whole of `process(directory, hierarchy)`: the server's state, the shared hierarchy, the tally and the abort flag are those of the directory function |
| Walk.DirectoryProcessor.ProcessOwn | src/main/java/ws/slink/parser/DirectoryProcessor.java:40-49 | the directory's own part: an unresolved hierarchy counts one skipped directory; a resolved one processes the files and, with the clean flag, removes stale articles |
| Walk.DirectoryProcessor.ProcessResolved | src/main/java/ws/slink/parser/DirectoryProcessor.java:45-49 | the files, then the stale articles when the clean flag is set, their tallies merged |
| Walk.DirectoryProcessor.ProcessAllFiles | src/main/java/ws/slink/parser/DirectoryProcessor.java:96-113 | every AsciiDoc file of a readable directory is processed in listing order, the tallies merged; an unreadable directory counts one publication failure |
| Walk.DirectoryProcessor.ProcessOneFile | src/main/java/ws/slink/parser/DirectoryProcessor.java:103-105 | one file of the listing, its tally merged into the directory's |
| Walk.DirectoryProcessor.RemoveStaleArticles | src/main/java/ws/slink/parser/DirectoryProcessor.java:55-94 | without a category or section one `RT_NONE`; otherwise the section's articles are listed and the stale ones removed |
| Walk.DirectoryProcessor.RemoveListed | src/main/java/ws/slink/parser/DirectoryProcessor.java:63-93 | a listing with a repeated title aborts (`toMap` throws); an unreadable directory counts one removal failure; otherwise the stale articles are removed |
| Walk.DirectoryProcessor.ReadTitles | src/main/java/ws/slink/parser/DirectoryProcessor.java:66-75 | the titles of the readable AsciiDoc files of the directory |
| Walk.DirectoryProcessor.RemoveAll | src/main/java/ws/slink/parser/DirectoryProcessor.java:78-85 | the listed articles whose titles no local file has are removed in listing order, one outcome each |
| Walk.DirectoryProcessor.RemoveIfStale | src/main/java/ws/slink/parser/DirectoryProcessor.java:81-85 | one listed article is removed exactly when its title is not local |
| Walk.DirectoryProcessor.RemoveOne | src/main/java/ws/slink/parser/DirectoryProcessor.java:81-85 | one removal request: a success deletes the article and counts `RT_DEL_SUCCESS`, a failure counts `RT_DEL_FAILURE` |
| Walk.DirectoryProcessor.ProcessAllDirectories | src/main/java/ws/slink/parser/DirectoryProcessor.java:115-132 | every subdirectory is walked in listing order with the same hierarchy, the tallies merged; an unreadable directory counts one publication failure |
| Walk.DirectoryProcessor.ProcessFolder | src/main/java/ws/slink/parser/DirectoryProcessor.java:124 | one subdirectory walked, its tally merged in |
| Walk.DirectoryProcessor.HasDistinctTitles | src/main/java/ws/slink/parser/DirectoryProcessor.java:63-64 | the listing is accepted by `Collectors.toMap` exactly when no title occurs twice |
| Walk.DirectoryProcessor.FilesStep | src/main/java/ws/slink/parser/DirectoryProcessor.java:99-105 | the file walk over one more entry: unchanged for a non-AsciiDoc entry or after an abort, one more file otherwise |
| Walk.DirectoryProcessor.SubdirsStep | src/main/java/ws/slink/parser/DirectoryProcessor.java:118-124 | the subdirectory walk over one more entry: unchanged for a file or after an abort, one more directory otherwise |
| Walk.DirectoryProcessor.RemoveSpecEffect | src/main/java/ws/slink/parser/DirectoryProcessor.java:55-94 | stale removal leaves the hierarchy, deletes only articles and never adds any; without a category or section it is one `RT_NONE`; it aborts exactly on a repeated title; on a readable directory it makes one attempt per remote title no local document has; on a server with unique ids it keeps every article of other sections and every article with a local title |
| Walk.DirectoryProcessor.NonSourcesIgnored | src/main/java/ws/slink/parser/DirectoryProcessor.java:101-102 | entries that are not AsciiDoc files change nothing and count nothing |
| Walk.DirectoryProcessor.SkippedDirectoryDescends | src/main/java/ws/slink/parser/DirectoryProcessor.java:42-50 | a directory whose hierarchy does not settle counts one skipped directory, publishes and removes nothing of its own, and its subdirectories are still walked |
| Walk.DirectoryProcessor.UncleanPublishesOnly | src/main/java/ws/slink/parser/DirectoryProcessor.java:46-48 | without the clean flag no stale article is looked for |
| Walk.StaleStep | src/main/java/ws/slink/parser/DirectoryProcessor.java:81-82 | one more listed article is stale exactly when its title is not local |
| Walk.RemovalsStep | src/main/java/ws/slink/parser/DirectoryProcessor.java:81-85 | removing over one more listed article: one more removal exactly when it is stale |
| Walk.RemovalsAppend | src/main/java/ws/slink/parser/DirectoryProcessor.java:81-85 | removals over a listing extended by one article end with that article's removal |
| Walk.RemovalsPrefixStep | src/main/java/ws/slink/parser/Processor.java:34-42 | removals over one more article of a listing |
| Walk.StaleExact | src/main/java/ws/slink/parser/DirectoryProcessor.java:81-82 | the stale articles are exactly the listed ones whose titles are not local |
| Walk.LocalTitlesExact | src/main/java/ws/slink/parser/DirectoryProcessor.java:66-75 | the local titles are exactly the titles of the readable AsciiDoc files |
| Walk.RemovalsEffect | src/main/java/ws/slink/parser/DirectoryProcessor.java:81-85 | removing a listing makes one attempt per article, records only removal outcomes, changes only articles, adds none and keeps every article whose id is not listed |
| Walk.RemovalsAnswered | src/main/java/ws/slink/parser/Processor.java:34-42 | against a server that always answers, every listed article is deleted and counted as a success |
| Walk.StaleTitles | src/main/java/ws/slink/parser/DirectoryProcessor.java:66-82 | the titles of the stale articles are the remote titles less the local ones |
| Walk.StaleDistinct | src/main/java/ws/slink/parser/DirectoryProcessor.java:63-82 | dropping articles keeps titles distinct |
| Walk.DistinctTitleCount | src/main/java/ws/slink/parser/DirectoryProcessor.java:63-64 | a listing with distinct titles has as many titles as articles |
| Walk.StaleRemovalCount | src/main/java/ws/slink/parser/DirectoryProcessor.java:63-85 | removal makes one attempt per remote title that no local file has |
| Walk.StaleRemovalKeeps | src/main/java/ws/slink/parser/DirectoryProcessor.java:63-85 | on a server with unique ids, removal keeps every article of other sections and every article with a local title |
| Processing.Processor.constructor | src/main/java/ws/slink/parser/Processor.java:23-28 | the processor keeps the delete-all flag and its walker |
| Processing.Processor.Process | src/main/java/ws/slink/parser/Processor.java:30-59 | delete-all removes every listed article; otherwise a non-blank directory is walked from an empty hierarchy; the summary counts each printed kind, 0 for a kind never seen, and none is produced when an exception escaped |
| Processing.Processor.DeleteAll | src/main/java/ws/slink/parser/Processor.java:34-42 | every article listed is removed in turn, one outcome each |
| Processing.Processor.DeleteAllCounts | src/main/java/ws/slink/parser/Processor.java:33-42 | delete-all makes one attempt per listed article, counts nothing else, and only removes articles |
| Processing.Processor.DeleteAllEmpties | src/main/java/ws/slink/parser/Processor.java:33-42 | against a server that always answers, delete-all empties the Help Center and every removal is a success |
| Processing.Processor.BlankDirectoryDoesNothing | src/main/java/ws/slink/parser/Processor.java:43-46 | without delete-all and without a directory nothing happens and every counter is 0 |
| Runners.CheckConfiguration | src/main/java/ws/slink/DocProcessorApplicationRunner.java:52-59 | the configuration is accepted exactly when url, user and token are all given or none is, and there is a directory or delete-all |
| Runners.CheckConfigurationWithFile | src/main/java/com/dxfeed/DocProcessorApplicationRunner.java:71-78 | the same, where a single file also counts as something to process |
| Runners.FileCheckWeaker | src/main/java/com/dxfeed/DocProcessorApplicationRunner.java:71-78 | the second check accepts everything the first does, and the same when no file is given |
| Runners.Runner.constructor | src/main/java/ws/slink/DocProcessorApplicationRunner.java:25 | the runner keeps its configuration and processor |
| Runners.Runner.Run | src/main/java/ws/slink/DocProcessorApplicationRunner.java:35-50 | a rejected configuration exits with 1 and sends nothing; an accepted one runs the processor once and exits with 0, unless an exception escaped |
| Runners.FileRunner.constructor | src/main/java/com/dxfeed/DocProcessorApplicationRunner.java:30-32 | the runner keeps its configuration, processor and client state |
| Runners.FileRunner.Run | src/main/java/com/dxfeed/DocProcessorApplicationRunner.java:41-69 | test mode only reads and renders the test file and exits with 0; otherwise an uninitialised client exits with 2, a rejected configuration with 1, and an accepted one runs the processor once |
| Patterns.LastIndexBefore | src/main/java/com/dxfeed/processor/CodeBlockPostProcessor.java:15 | the last position before a bound holding a character, with none after it, or none at all |
| Patterns.LastOccurrenceBefore | src/main/java/com/dxfeed/processor/CodeBlockPostProcessor.java:15-18 | the last position before a bound where a key occurs up to ASCII case, with none after it, or none at all |
| Preprocessors.MatchLink | src/main/java/ws/slink/processor/ZendeskLinkMacroPreProcessor.java:16-17 | a match places `link:` before the `[` that follows its target |
| Preprocessors.MatchLinkGreedy | src/main/java/ws/slink/processor/ZendeskLinkMacroPreProcessor.java:16-25 | the pattern matches the line exactly when some `link:` has a `[` and then a `]` after it; the greedy match takes the last such `link:` and, for it, the last such `[` |
| Preprocessors.RewriteLink | src/main/java/ws/slink/processor/ZendeskLinkMacroPreProcessor.java:24-33 | a line that does not match, or whose target starts with `http://`, `https://` or `/`, is unchanged; otherwise the matched `link:` text, as spelled in the line, becomes `zlink:` where it stands, the text before and after it has its own copies of that spelling replaced, and the line grows |
| Preprocessors.RewriteLinkSingle | src/main/java/ws/slink/processor/ZendeskLinkMacroPreProcessor.java:29 | when the matched spelling occurs nowhere else in the line, the result is the line with just that `link:` turned into `zlink:` |
| Preprocessors.ProcessLinks | src/main/java/ws/slink/processor/ZendeskLinkMacroPreProcessor.java:20-36 | the lines are rewritten one by one, in order, none added or dropped |
| Preprocessors.AlnumEnd | src/main/java/ws/slink/processor/VideoMacroPreProcessor.java:16 | the end of the run of ASCII letters and digits starting at a position |
| Preprocessors.VideoTailShape | src/main/java/ws/slink/processor/VideoMacroPreProcessor.java:16 | after a `video::` the rest of the pattern matches exactly when an id, a `[` and a later `]` follow |
| Preprocessors.LastVideoBefore | src/main/java/ws/slink/processor/VideoMacroPreProcessor.java:16-17 | the last `video::` before a bound after which the rest of the pattern matches, or none |
| Preprocessors.MatchVideo | src/main/java/ws/slink/processor/VideoMacroPreProcessor.java:16-17 | a match places `video::` inside the line |
| Preprocessors.MatchVideoGreedy | src/main/java/ws/slink/processor/VideoMacroPreProcessor.java:16-25 | the pattern matches exactly when the line has a `video::`, an id of letters and digits, a `[` and a `]` in a row, and the greedy match takes the last such `video::` |
| Preprocessors.RewriteVideo | src/main/java/ws/slink/processor/VideoMacroPreProcessor.java:24-30 | a line without a match is unchanged; in a matching line the matched `video::` text, as spelled in the line, becomes `zvideo::` where it stands, the text before and after it has its own copies of that spelling replaced, and the line grows |
| Preprocessors.RewriteVideoUnchanged | src/main/java/ws/slink/processor/VideoMacroPreProcessor.java:24-30 | a line is left as it is exactly when the video pattern does not match it |
| Preprocessors.RewriteVideoSingle | src/main/java/ws/slink/processor/VideoMacroPreProcessor.java:27 | when the matched spelling occurs nowhere else in the line, the result is the line with just that `video::` turned into `zvideo::` |
| Preprocessors.ReplaceMatched | src/main/java/ws/slink/processor/VideoMacroPreProcessor.java:27 | `line.replace(m.group(2), z)` for a macro name matched at a position replaces that copy in place and the text on either side on its own, and a longer replacement lengthens the line |
| Preprocessors.ProcessVideos | src/main/java/ws/slink/processor/VideoMacroPreProcessor.java:20-33 | the lines are rewritten one by one, in order |
| CodeBlocks.MatchStart | src/main/java/com/dxfeed/processor/CodeBlockPostProcessor.java:15-17 | a match of the opening pattern spans `<code ` and at least one character up to a `>` |
| CodeBlocks.MatchStartGreedy | src/main/java/com/dxfeed/processor/CodeBlockPostProcessor.java:15-31 | the opening pattern matches exactly when some `<code ` has a `>` after it; the greedy match takes the last such `<code ` and runs to the last `>` of the line |
| CodeBlocks.StripStart | src/main/java/com/dxfeed/processor/CodeBlockPostProcessor.java:30-34 | a line is unchanged exactly when it has no opening tag; otherwise groups 1 and 3 are kept and the match cut out |
| CodeBlocks.MatchEnd | src/main/java/com/dxfeed/processor/CodeBlockPostProcessor.java:16-18 | the closing pattern matches at the last `</code>`, and not at all when there is none |
| CodeBlocks.StripEnd | src/main/java/com/dxfeed/processor/CodeBlockPostProcessor.java:35-39 | a line is unchanged exactly when it has no `</code>`; otherwise the last one is cut out |
| CodeBlocks.ProcessStringCuts | src/main/java/com/dxfeed/processor/CodeBlockPostProcessor.java:28-41 | processing a line cuts at most two runs out of it and keeps the rest in order |
| CodeBlocks.CutAfterCut | src/main/java/com/dxfeed/processor/CodeBlockPostProcessor.java:33-38 | the second cut, made in what the first left, is two cuts of the original line |
| CodeBlocks.ProcessStringDeletesOnly | src/main/java/com/dxfeed/processor/CodeBlockPostProcessor.java:28-41 | a line only loses characters |
| CodeBlocks.ProcessStringUnchanged | src/main/java/com/dxfeed/processor/CodeBlockPostProcessor.java:28-41 | a line is left alone exactly when it has neither an opening tag closed by `>` nor a closing tag |
| CodeBlocks.ProcessStringKeepsOut | src/main/java/com/dxfeed/processor/CodeBlockPostProcessor.java:28-41 | no character absent from a line appears after processing it |
| CodeBlocks.ProcessLines | src/main/java/com/dxfeed/processor/CodeBlockPostProcessor.java:24 | one processed line per input line |
| CodeBlocks.ProcessLineByLine | src/main/java/com/dxfeed/processor/CodeBlockPostProcessor.java:21-26 | the output's lines are the input's lines processed one for one, as long as the last is not emptied |
| CodeBlocks.ProcessLinesKeepOut | src/main/java/com/dxfeed/processor/CodeBlockPostProcessor.java:24 | processing brings no line break into any line |
| CodeBlocks.TagsOfRun | src/main/java/com/dxfeed/processor/CodeBlockPostProcessor.java:23-24 | a tag inside a line is a tag of the document |
| CodeBlocks.ProcessWithoutTags | src/main/java/com/dxfeed/processor/CodeBlockPostProcessor.java:21-26 | a document without tags comes back with only its trailing line breaks removed |
| BlockMacros.UpToQuote | src/main/java/com/dxfeed/processor/VideoBlockMacroProcessor.java:36 | the text before the first `"` |
| BlockMacros.UpToQuoteOf | src/main/java/com/dxfeed/processor/VideoBlockMacroProcessor.java:36 | a value without `"` followed by `"` reads back as the value |
| BlockMacros.SplitAtQuoteOf | src/main/java/com/dxfeed/processor/VideoBlockMacroProcessor.java:36 | the value and what follows its closing `"` read back |
| BlockMacros.EmbedLinkRoundTrip | src/main/java/com/dxfeed/processor/VideoBlockMacroProcessor.java:21-25 | the player link names the service (Vimeo or YouTube, ignoring case) and the video it was built for, and is empty exactly for any other service |
| BlockMacros.LinkUnquoted | src/main/java/com/dxfeed/processor/VideoBlockMacroProcessor.java:21-25 | a link holds a `"` only when the video id does |
| BlockMacros.ReadSizeOf | src/main/java/com/dxfeed/processor/VideoBlockMacroProcessor.java:27-31 | a width or height attribute reads back as its value, and a blank value as absent |
| BlockMacros.ReadVideoOf | src/main/java/com/dxfeed/processor/VideoBlockMacroProcessor.java:33-39 | player markup reads back as its link and sizes, a blank size as absent |
| BlockMacros.VideoBlockRoundTrip | src/main/java/com/dxfeed/processor/VideoBlockMacroProcessor.java:15-41 | a macro with a service yields markup whose `iframe` plays the link for that service and carries the non-blank width and height unchanged |
| BlockMacros.NoteBlockRoundTrip | src/main/java/com/dxfeed/processor/NoteBlockMacroProcessor.java:15-32 | the note text comes back verbatim, and the class carries the `type` exactly when it is not blank |
| JavaText.Trim | src/main/java/ws/slink/parser/FileProcessor.java:272 | `String.trim` cuts only characters at or below U+0020, at both ends, and leaves none there |
| JavaText.TrimTrimmed | src/main/java/ws/slink/parser/FileProcessor.java:272 | a string already trimmed is its own trim |
| JavaText.TrimPadded | src/main/java/ws/slink/parser/FileProcessor.java:272 | trimming undoes white space put in front of a trimmed string |
| JavaText.ReplaceAbsent | src/main/java/ws/slink/parser/FileProcessor.java:270 | replacing a target that does not occur changes nothing |
| JavaText.ReplaceSingleOccurrence | src/main/java/ws/slink/parser/FileProcessor.java:270 | a target that occurs once is replaced once |
| JavaText.ReplaceAround | src/main/java/ws/slink/processor/ZendeskLinkMacroPreProcessor.java:29 | a copy of the target that no other copy overlaps from the left is replaced where it stands, and the text before and after it is replaced separately |
| JavaText.ReplaceNotShorter | src/main/java/ws/slink/processor/ZendeskLinkMacroPreProcessor.java:29 | a replacement at least as long as the target never shortens the line |
| JavaText.ReplaceOccurringLonger | src/main/java/ws/slink/processor/ZendeskLinkMacroPreProcessor.java:29 | an occurring target replaced by a longer text lengthens the line |
| JavaText.ReplaceOccurringHolds | src/main/java/ws/slink/processor/VideoMacroPreProcessor.java:27 | after an occurring target is replaced, the replacement occurs |
| JavaText.SplitOn | src/main/java/ws/slink/parser/FileProcessor.java:167 | every piece of a split lacks the delimiter |
| JavaText.JoinSplitOn | src/main/java/com/dxfeed/processor/CodeBlockPostProcessor.java:23-25 | splitting on a character and joining on it gives the text back |
| JavaText.SplitOnJoin | src/main/java/com/dxfeed/processor/CodeBlockPostProcessor.java:23-25 | joining pieces without the delimiter and splitting again gives the pieces back |
| JavaText.JavaSplit | src/main/java/com/dxfeed/processor/CodeBlockPostProcessor.java:23 | no piece of Java's split holds the delimiter |
| JavaText.JavaSplitPiecesOccur | src/main/java/com/dxfeed/processor/CodeBlockPostProcessor.java:23 | every piece of Java's split is a run of the input |
| JavaText.JoinJavaSplit | src/main/java/com/dxfeed/processor/CodeBlockPostProcessor.java:23-25 | Java's split-then-join on one character loses exactly the trailing delimiters |
| JavaText.JavaSplitJoin | src/main/java/com/dxfeed/processor/CodeBlockPostProcessor.java:23-25 | Java's split gives back the pieces of a join when none contains the delimiter and the last is not empty |
| JavaText.ParseInteger | src/main/java/ws/slink/parser/FileProcessor.java:305 | a parsed value lies within the type's range |
| JavaText.NatDigitsValue | src/main/java/org/zendesk/client/v2/ZendeskResponseRateLimitException.java:19 | the decimal digits of a number read back as that number |
| JavaText.ParseDecimalString | src/main/java/org/zendesk/client/v2/ZendeskResponseRateLimitException.java:19 | every value in range, printed as Java prints it, parses back to itself |

## Left out

- Reading files, property files and directory listings, and rendering AsciiDoc to HTML with Asciidoctor: their results are inputs to the model.
- The Jsoup post-processors for images, tables and admonitions, and the inline `zlink` macro: they act on the rendered HTML, which the model takes as given.
- Spring configuration, command-line parsing into the configuration, `System.exit` and closing the application context: the runners return the exit code instead.
- Logging, `Document.print` and the summary printed at the end of a run: they only write text.
- The clock and the timing of a run in `Processor`: time is not modelled.
- The title and file-name warning in `FileProcessor`: it only logs.
- Parallel streams over directory entries and over stale articles: the model walks them one at a time in listing order, and removes stale articles in listing order rather than in hash-set order.
- A file's path is its directory's path, `/` and its name, not the operating system's absolute path.
- `Collectors.toMap` failing on two remote articles of one title, and a position property that is not a number: the exceptions escape the run; the model sets an `aborted` flag that stops the walk.
- Null strings: the model uses the empty string, which every guard in the source treats the same way as null.
- Documents.Document.ToString: Java's string concatenation prints a missing title, category, section or file name as `null`; the model holds the empty string there and prints nothing in its place.
- Case-insensitive comparison folds ASCII letters only.
- JavaText.ParseInteger: only ASCII `0`-`9` are digits; `Integer.valueOf` and `Long.valueOf` also accept the decimal digits of other scripts (for example Arabic-Indic digits), so a position or `Retry-After` value written in those digits is a parse failure in the model, because the Unicode digit tables are not modelled.
- Both `DirectoryProcessor` classes are one model: they differ only in how a directory's properties are read, which is an input here.
- Runners.FileRunner.Run: the `com.dxfeed.parser.Processor` this runner calls is not part of this model; the `ws.slink` directory processor stands in for it, so its single-file path is not modelled, and a run configured with only a file publishes nothing in the model.
- Whether the client is initialised, and the test-mode output, are inputs and results of the runner, not a connection.
- The translation update inside the article update of `ZendeskFacade`: translations are not part of the model's store.
- `Remote.Store`: the server's own behaviour beyond storing and listing categories, sections and articles, and its numbering of new entities, is not modelled; new ids are the next free number.
- Facade.ZendeskFacade.ApiRateLimitWait: a negative sleep argument, from a negative `Retry-After` value or from `seconds * 1000` wrapping around, makes `Thread.sleep` throw `IllegalArgumentException` out of the call; the model records the negative sleep and the retry loop goes on, because the loop's result has no way to carry that exception.
- The permission-group lookup has no retry loop in the source; the model answers it in one request.
- Listing every article of the Help Center and the rename-aware category and section lookups are called from `ZendeskTools` and `Processor` but not defined in `ZendeskFacade.java`: the model gives them the same retry and get-or-create shape as the calls that are.
- `ProcessingResult.add` is private in the source and called from other classes, and some result kinds used by callers are missing from the enum: the model makes `add` callable and includes those kinds.
- `createBlock` of the Asciidoctor extension API: the block macros return the markup they would pass to it.
- The unused thread-local in `CodeBlockPostProcessor`, and attribute maps: attribute values are strings.
- The vendored Zendesk client and its model classes: only the fields the core reads and writes are modelled.
