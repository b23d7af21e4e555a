/**
 * The outcome tally of a synchronisation run: how many documents, directories and
 * removals ended in each way.  `ProcessingResult` keeps a map from outcome kind to
 * counter that `add` and `merge` update in place.
 */
module Outcomes {

  /** Every outcome kind the code records, including the kinds the callers use beyond the
      five of the declared enum (`RT_DIR_SKIPPED`, `RT_PUB_DRAFT`, `RT_FILE_PRINTED`,
      `RT_FILE_SKIPPED`, `RT_NONE`). */
  datatype ResultType =
    | PubSuccess    // RT_PUB_SUCCESS: an article was published
    | PubFailure    // RT_PUB_FAILURE: an article could not be published
    | DelSuccess    // RT_DEL_SUCCESS: a stale article was removed
    | DelFailure    // RT_DEL_FAILURE: a stale article could not be removed
    | Skipped       // RT_SKIPPED: a hidden document was skipped
    | DirSkipped    // RT_DIR_SKIPPED: a directory's hierarchy could not be resolved
    | PubDraft      // RT_PUB_DRAFT: an article was published as a draft
    | FilePrinted   // RT_FILE_PRINTED: a document was printed instead of published
    | FileSkipped   // RT_FILE_SKIPPED
    | NoResult      // RT_NONE: stale removal had nothing to work on

  /** The contents of a tally: only kinds seen so far have an entry. */
  type Tally = map<ResultType, nat>

  /** `results.getOrDefault(key, new AtomicInteger(0))` */
  function Count(t: Tally, key: ResultType): nat {
    if key in t then t[key] else 0
  }

  /** The tally after one more `key`. */
  function Bumped(t: Tally, key: ResultType): Tally {
    t[key := Count(t, key) + 1]
  }

  /** Both tallies added up, kind by kind, over the union of their kinds. */
  function Merged(a: Tally, b: Tally): Tally {
    map k | k in a.Keys + b.Keys :: Count(a, k) + Count(b, k)
  }

  /** Number of outcomes recorded, of any kind. */
  function Total(t: Tally): nat {
    Count(t, PubSuccess) + Count(t, PubFailure) + Count(t, DelSuccess) + Count(t, DelFailure)
    + Count(t, Skipped) + Count(t, DirSkipped) + Count(t, PubDraft) + Count(t, FilePrinted)
    + Count(t, FileSkipped) + Count(t, NoResult)
  }

  /** A kind never seen counts 0. */
  lemma CountUnseen(t: Tally, key: ResultType)
    requires key !in t
    ensures Count(t, key) == 0
  {
  }

  /** One more `key` adds exactly one to `key` and leaves every other kind as it was. */
  lemma BumpedCount(t: Tally, key: ResultType, other: ResultType)
    ensures Count(Bumped(t, key), key) == Count(t, key) + 1
    ensures other != key ==> Count(Bumped(t, key), other) == Count(t, other)
  {
  }

  /** A merged tally counts, for every kind, the sum of the two counts. */
  lemma MergedCount(a: Tally, b: Tally, key: ResultType)
    ensures Count(Merged(a, b), key) == Count(a, key) + Count(b, key)
  {
  }

  /** Merging an empty tally changes nothing, on either side. */
  lemma MergedEmpty(t: Tally)
    ensures Merged(t, map[]) == t
    ensures Merged(map[], t) == t
  {
    assert Merged(t, map[]).Keys == t.Keys;
    assert Merged(map[], t).Keys == t.Keys;
  }

  /** The order in which two tallies are merged does not matter. */
  lemma MergedCommutes(a: Tally, b: Tally)
    ensures Merged(a, b) == Merged(b, a)
  {
    assert Merged(a, b).Keys == Merged(b, a).Keys;
  }

  /** Nor does the grouping of three merges. */
  lemma MergedAssociates(a: Tally, b: Tally, c: Tally)
    ensures Merged(Merged(a, b), c) == Merged(a, Merged(b, c))
  {
    assert Merged(Merged(a, b), c).Keys == Merged(a, Merged(b, c)).Keys;
  }

  /** `a` with the kinds in `done` already merged with `b`: the state of `merge` part way. */
  function PartlyMerged(a: Tally, b: Tally, done: set<ResultType>): Tally {
    map k | k in a.Keys + done :: if k in done then Count(a, k) + Count(b, k) else a[k]
  }

  /** One step of `merge`: the counter of one more kind becomes the sum. */
  lemma PartlyMergedStep(p: Tally, a: Tally, b: Tally, done: set<ResultType>, k: ResultType, sum: nat)
    requires p == PartlyMerged(a, b, done) && k !in done && sum == Count(p, k) + Count(b, k)
    ensures p[k := sum] == PartlyMerged(a, b, done + {k})
  {
    assert Count(p, k) == Count(a, k);
    assert p[k := sum].Keys == PartlyMerged(a, b, done + {k}).Keys;
  }

  lemma PartlyMergedAll(a: Tally, b: Tally, done: set<ResultType>)
    requires done == a.Keys + b.Keys
    ensures PartlyMerged(a, b, done) == Merged(a, b)
  {
  }

  /** Merging adds the totals. */
  lemma TotalMerged(a: Tally, b: Tally)
    ensures Total(Merged(a, b)) == Total(a) + Total(b)
  {
    MergedCount(a, b, PubSuccess);
    MergedCount(a, b, PubFailure);
    MergedCount(a, b, DelSuccess);
    MergedCount(a, b, DelFailure);
    MergedCount(a, b, Skipped);
    MergedCount(a, b, DirSkipped);
    MergedCount(a, b, PubDraft);
    MergedCount(a, b, FilePrinted);
    MergedCount(a, b, FileSkipped);
    MergedCount(a, b, NoResult);
  }

  /** Each `add` records exactly one outcome. */
  lemma TotalBumped(t: Tally, key: ResultType)
    ensures Total(Bumped(t, key)) == Total(t) + 1
  {
    BumpedCount(t, key, PubSuccess);
    BumpedCount(t, key, PubFailure);
    BumpedCount(t, key, DelSuccess);
    BumpedCount(t, key, DelFailure);
    BumpedCount(t, key, Skipped);
    BumpedCount(t, key, DirSkipped);
    BumpedCount(t, key, PubDraft);
    BumpedCount(t, key, FilePrinted);
    BumpedCount(t, key, FileSkipped);
    BumpedCount(t, key, NoResult);
  }

  /** `ProcessingResult`: a mutable tally. */
  class ProcessingResult {
    var results: Tally

    /** `new ProcessingResult()`: nothing recorded. */
    constructor ()
      ensures results == map[]
    {
      results := map[];
    }

    /** `new ProcessingResult(type)`: one outcome of kind `kind`. */
    constructor Of(kind: ResultType)
      ensures results == Bumped(map[], kind)
    {
      results := map[kind := 1];
    }

    /** `add(key)`: one more outcome of kind `key`; returns the receiver. */
    method Add(key: ResultType) returns (self: ProcessingResult)
      modifies this
      ensures results == Bumped(old(results), key)
      ensures self == this
    {
      var n := Count(results, key);
      results := results[key := n + 1];
      self := this;
    }

    /** `get(key)`: the counter of `key`, 0 when never recorded. */
    function Get(key: ResultType): (n: nat)
      reads this
    {
      Count(results, key)
    }

    /** `merge(ResultType)`: the same as `add`. */
    method MergeKind(kind: ResultType) returns (self: ProcessingResult)
      modifies this
      ensures results == Bumped(old(results), kind)
      ensures self == this
    {
      self := Add(kind);
    }

    /** `merge(ProcessingResult)`: every kind of either tally becomes the sum of both
        counters.  The kinds are visited one by one in no fixed order, reading `other`
        as it is at that moment, so merging a tally into itself doubles it. */
    method Merge(other: ProcessingResult) returns (self: ProcessingResult)
      modifies this
      ensures results == Merged(old(results), old(other.results))
      ensures other != this ==> other.results == old(other.results)
      ensures self == this
    {
      ghost var a, b := results, other.results;
      var keys := results.Keys + other.results.Keys;
      assert keys == a.Keys + b.Keys;
      var todo := keys;
      ghost var done: set<ResultType> := {};
      while todo != {}
        invariant todo <= keys && done == keys - todo
        invariant results == PartlyMerged(a, b, done)
        invariant other == this ==> a == b
        invariant other != this ==> other.results == b
        decreases |todo|
      {
        var k :| k in todo;
        assert Count(other.results, k) == Count(b, k);
        var sum := Count(results, k) + Count(other.results, k);
        PartlyMergedStep(results, a, b, done, k, sum);
        results := results[k := sum];
        todo := todo - {k};
        done := done + {k};
      }
      assert done == keys;
      PartlyMergedAll(a, b, done);
      self := this;
    }
  }
}
