/**
 * `Processor`: one run of the synchronisation.  With `delete-all` every article of the
 * Help Center is removed, one request each; otherwise a configured directory is walked
 * from an empty hierarchy.  The run ends with a summary of the outcome counters.
 *
 * The root directory and the properties of the directory above it are inputs; the
 * configured `dir` is the root's path.
 */
module Processing {
  import opened Wrappers
  import opened JavaText
  import opened Outcomes
  import opened Retry
  import opened Remote
  import opened Facade
  import opened Tools
  import opened Walk

  /** The counters the summary prints, in its order.  Drafts are counted by the walk but
      not printed. */
  datatype Summary = Summary(
    published: nat,
    publishErrors: nat,
    removed: nat,
    removalErrors: nat,
    hidden: nat,
    skippedDirectories: nat,
    printed: nat)

  /** `result.get(kind).get()` for each printed kind: 0 for a kind never recorded. */
  function SummaryOf(t: Tally): Summary {
    Summary(Count(t, PubSuccess), Count(t, PubFailure), Count(t, DelSuccess), Count(t, DelFailure),
            Count(t, FileSkipped), Count(t, DirSkipped), Count(t, FilePrinted))
  }

  /** What a run did to the server and the channel, the tally it summarises, and whether
      an exception escaped before the summary. */
  datatype RunResult = RunResult(store: Store, channel: Channel, tally: Tally, aborted: bool)

  class Processor {
    /** `deleteAll` */
    const deleteAll: bool
    const directoryProcessor: DirectoryProcessor

    constructor (deleteAll: bool, directoryProcessor: DirectoryProcessor)
      ensures this.deleteAll == deleteAll && this.directoryProcessor == directoryProcessor
    {
      this.deleteAll := deleteAll;
      this.directoryProcessor := directoryProcessor;
    }

    /** The one `ZendeskFacade` of the application. */
    function Facade(): ZendeskFacade {
      directoryProcessor.fileProcessor.tools.facade
    }

    function Max(): int {
      Facade().maxRequestAttempts
    }

    /** The delete-all branch: list every article, then remove each in listing order. */
    function DeleteAllSpec(st: Store, ch: Channel): Removal {
      var arts := if Answered(Max(), ch) then st.articles else [];
      Removals(st, AfterRetry(ch, Max()), Max(), arts)
    }

    /** `process()` up to the summary. */
    function ProcessSpec(st: Store, ch: Channel, root: Directory, rootParentProps: map<string, string>): RunResult {
      if deleteAll then
        var r := DeleteAllSpec(st, ch);
        RunResult(r.store, r.channel, r.tally, false)
      else if IsBlank(root.path) then RunResult(st, ch, map[], false)
      else
        var w := directoryProcessor.DirSpec(st, ch, HierarchyView(None, None), root, rootParentProps);
        RunResult(w.store, w.channel, w.tally, w.aborted)
    }

    /** `process()`: the summary, or `None` when an exception escaped the walk. */
    method Process(root: Directory, rootParentProps: map<string, string>) returns (summary: Option<Summary>)
      modifies Facade()
      ensures var r := ProcessSpec(old(Facade().store), old(Facade().channel), root, rootParentProps);
              Facade().store == r.store && Facade().channel == r.channel
              && summary == if r.aborted then None else Some(SummaryOf(r.tally))
    {
      var result;
      if deleteAll {
        result := DeleteAll();
      } else {
        result := new ProcessingResult();
        if !IsBlank(root.path) {
          var hierarchy := new ZendeskHierarchy();
          assert ViewOf(hierarchy) == HierarchyView(None, None);
          var walked, aborted := directoryProcessor.Process(root, rootParentProps, hierarchy);
          if aborted {
            return None;
          }
          var self := result.Merge(walked);
          MergedEmpty(walked.results);
        }
      }
      summary := Some(SummaryOf(result.results));
    }

    /** The delete-all branch: every article listed is removed in turn. */
    method DeleteAll() returns (result: ProcessingResult)
      modifies Facade()
      ensures fresh(result)
      ensures var r := DeleteAllSpec(old(Facade().store), old(Facade().channel));
              Facade().store == r.store && Facade().channel == r.channel && result.results == r.tally
    {
      var facade := Facade();
      ghost var arts := if Answered(Max(), facade.channel) then facade.store.articles else [];
      var list := facade.GetAllArticles();
      ghost var st0, ch0 := facade.store, facade.channel;
      result := new ProcessingResult();
      var k := 0;
      while k < |list|
        invariant k <= |list| && fresh(result) && Lists(list, arts)
        invariant Removal(facade.store, facade.channel, result.results) == Removals(st0, ch0, Max(), arts[..k])
      {
        assert list[k].id == Some(arts[k].id);
        RemovalsPrefixStep(st0, ch0, Max(), arts, k);
        directoryProcessor.RemoveOne(list[k], arts[k], result);
        k := k + 1;
      }
      assert arts[..k] == arts;
    }

    /** Delete-all makes one removal attempt per article the listing returned, counts
        nothing else, and changes nothing on the server but articles, which it only
        removes. */
    lemma DeleteAllCounts(st: Store, ch: Channel, root: Directory, rootParentProps: map<string, string>)
      requires deleteAll
      ensures var r := ProcessSpec(st, ch, root, rootParentProps);
              var s := SummaryOf(r.tally);
              !r.aborted
              && s.removed + s.removalErrors == (if Answered(Max(), ch) then |st.articles| else 0)
              && s.published == 0 && s.publishErrors == 0 && s.hidden == 0
              && s.skippedDirectories == 0 && s.printed == 0
              && r.store.(articles := st.articles) == st
              && (forall a | a in r.store.articles :: a in st.articles)
    {
      var arts := if Answered(Max(), ch) then st.articles else [];
      RemovalsEffect(st, AfterRetry(ch, Max()), Max(), arts);
    }

    /** Against a server that answers every request, delete-all empties the Help Center
        and every removal counts as a success. */
    lemma DeleteAllEmpties(st: Store, ch: Channel, root: Directory, rootParentProps: map<string, string>)
      requires deleteAll && Max() >= 1 && ch.script == []
      ensures var r := ProcessSpec(st, ch, root, rootParentProps);
              r.store.articles == [] && SummaryOf(r.tally).removed == |st.articles|
    {
      assert RetryRun(Max(), []) == Run(true, 1, [], []);
      var ch' := AfterRetry(ch, Max());
      RemovalsEffect(st, ch', Max(), st.articles);
      RemovalsAnswered(st, ch', Max(), st.articles);
      var left := Removals(st, ch', Max(), st.articles).store.articles;
      assert Ids(left) <= Ids(st.articles);
      assert Ids(left) !! Ids(st.articles);
      NoIdsNoArticles(left);
    }

    /** Without delete-all and without a directory nothing happens and every counter of
        the summary is 0. */
    lemma BlankDirectoryDoesNothing(st: Store, ch: Channel, root: Directory, rootParentProps: map<string, string>)
      requires !deleteAll && IsBlank(root.path)
      ensures var r := ProcessSpec(st, ch, root, rootParentProps);
              r.store == st && r.channel == ch && !r.aborted
              && SummaryOf(r.tally) == Summary(0, 0, 0, 0, 0, 0, 0)
    {
    }
  }
}
