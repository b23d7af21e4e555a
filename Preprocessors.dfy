/**
 * The two AsciiDoc preprocessors that rename macros line by line before rendering:
 * `ZendeskLinkMacroPreProcessor` turns a relative `link:` into `zlink:`, and
 * `VideoMacroPreProcessor` turns `video::` into `zvideo::`.  Each line is matched against
 * one greedy, case-insensitive pattern; a matching line has every copy of the matched
 * macro name replaced.
 */
module Preprocessors {
  import opened Wrappers
  import opened JavaText
  import opened Patterns

  // ---------------------------------------------------------------------------
  // `link:` (pattern `(.*)(link:)(.*)(\[)(.*)(\])(.*)`)

  /** A way the link pattern matches the whole line: `link:` at `i`, the `[` of group 4
      at `j` and the `]` of group 6 at `k`. */
  predicate LinkShape(line: string, i: int, j: int, k: int) {
    OccursAtIgnoreCase(line, "link:", i) && i + 5 <= j < k < |line| && line[j] == '[' && line[k] == ']'
  }

  /** Where the greedy match puts `link:` and the `[` after its target. */
  datatype LinkMatch = LinkMatch(key: nat, open: nat)

  /** The match `Matcher.matches()` finds: the last `]`, the last `[` before it, and the
      last `link:` that ends before that `[`. */
  function MatchLink(line: string): (m: Option<LinkMatch>)
    ensures m.Some? ==> m.value.key + 5 <= m.value.open < |line|
  {
    match LastIndexBefore(line, ']', |line|)
    case None => None
    case Some(k) =>
      match LastIndexBefore(line, '[', k)
      case None => None
      case Some(j) =>
        if j < 5 then None
        else
          match LastOccurrenceBefore(line, "link:", j - 4)
          case None => None
          case Some(i) => Some(LinkMatch(i, j))
  }

  /** The match found is the greedy one: the line matches exactly when some `link:` has a
      `[` and then a `]` after it, and the match takes the last such `link:` and, for it,
      the last such `[`. */
  lemma MatchLinkGreedy(line: string)
    ensures MatchLink(line).None? <==> forall i, j, k :: !LinkShape(line, i, j, k)
    ensures MatchLink(line).Some? ==>
              var m := MatchLink(line).value;
              (exists k :: LinkShape(line, m.key, m.open, k))
              && forall i, j, k | LinkShape(line, i, j, k) :: i < m.key || (i == m.key && j <= m.open)
  {
    var lastClose := LastIndexBefore(line, ']', |line|);
    if lastClose.Some? {
      var k0 := lastClose.value;
      var lastOpen := LastIndexBefore(line, '[', k0);
      // every shape has its `[` at or before the last `[` that precedes the last `]`
      forall i, j, k | LinkShape(line, i, j, k)
        ensures lastOpen.Some? && j <= lastOpen.value
      {
        assert k <= k0;
        assert j < k0;
      }
      if lastOpen.Some? && lastOpen.value >= 5 {
        var j0 := lastOpen.value;
        var key := LastOccurrenceBefore(line, "link:", j0 - 4);
        if key.Some? {
          assert LinkShape(line, key.value, j0, k0);
        }
      }
    }
  }

  /** The target text between `link:` and `[` names another site or an absolute path. */
  predicate IsExternal(target: string) {
    StartsWith(target, "http://") || StartsWith(target, "https://") || StartsWith(target, "/")
  }

  /** A macro name whose first letter differs, ignoring case, from all its others cannot
      overlap a copy of itself: no copy of the text at `i` starts in the few positions
      before `i` that would make it overlap. */
  lemma KeyAlone(line: string, key: string, i: int)
    requires |key| > 0 && OccursAtIgnoreCase(line, key, i)
    requires forall d | 0 < d < |key| :: FoldCase(key[d]) != FoldCase(key[0])
    ensures NoneStraddles(line, line[i..i + |key|], i)
  {
    var spelled := line[i..i + |key|];
    forall q | 0 <= q < i && i < q + |key|
      ensures !OccursAt(line, spelled, q)
    {
      var d := i - q;
      assert FoldCase(spelled[d]) != FoldCase(spelled[0]);
      assert line[i] == spelled[0] && line[q..q + |key|][d] == line[i];
    }
  }

  /** Replacing the spelling found at `i` of such a macro name: that copy is replaced
      where it stands and the text on either side on its own. */
  lemma ReplaceKey(line: string, key: string, i: int, z: string)
    requires |key| > 0 && OccursAtIgnoreCase(line, key, i)
    requires forall d | 0 < d < |key| :: FoldCase(key[d]) != FoldCase(key[0])
    ensures var spelled := line[i..i + |key|];
            Replace(line, spelled, z) == Replace(line[..i], spelled, z) + z + Replace(line[i + |key|..], spelled, z)
  {
    var spelled := line[i..i + |key|];
    KeyAlone(line, key, i);
    assert line == line[..i] + spelled + line[i + |key|..];
    ReplaceAround(line[..i], spelled, line[i + |key|..], z);
  }

  /** `line.replace(m.group(2), z)` for a macro name `key` matched at `i`: the copy at `i`
      is replaced where it stands, the text on either side on its own, and a longer `z`
      makes the line grow and occur in it. */
  function ReplaceMatched(line: string, key: string, i: nat, z: string): (r: string)
    requires |key| > 0 && OccursAtIgnoreCase(line, key, i)
    requires forall d | 0 < d < |key| :: FoldCase(key[d]) != FoldCase(key[0])
    requires |z| > |key|
    ensures var spelled := line[i..i + |key|];
            r == Replace(line[..i], spelled, z) + z + Replace(line[i + |key|..], spelled, z)
    ensures |r| > |line| && Contains(r, z)
  {
    var spelled := line[i..i + |key|];
    assert OccursAt(line, spelled, i);
    ReplaceOccurringLonger(line, spelled, z);
    ReplaceOccurringHolds(line, spelled, z);
    ReplaceKey(line, key, i, z);
    Replace(line, spelled, z)
  }

  /** The initial of `link:` is none of its other letters, ignoring case. */
  lemma LinkInitialOnce()
    ensures forall d | 0 < d < 5 :: FoldCase("link:"[d]) != FoldCase("link:"[0])
  {
  }

  /** The initial of `video::` is none of its other letters, ignoring case. */
  lemma VideoInitialOnce()
    ensures forall d | 0 < d < 7 :: FoldCase("video::"[d]) != FoldCase("video::"[0])
  {
  }

  /** One line of `ZendeskLinkMacroPreProcessor.process`: unchanged unless it matches with
      a relative target.  Then the matched `link:` text (as spelled in the line) becomes
      `zlink:` where it stands, every other copy of that spelling before or after it is
      replaced as well, and the line grows and holds a `zlink:` macro. */
  function RewriteLink(line: string): (r: string)
    ensures (forall i, j, k :: !LinkShape(line, i, j, k)) ==> r == line
    ensures MatchLink(line).Some? ==>
              var m := MatchLink(line).value;
              var key := line[m.key..m.key + 5];
              if IsExternal(line[m.key + 5..m.open]) then r == line
              else r == Replace(line[..m.key], key, "zlink:") + "zlink:" + Replace(line[m.key + 5..], key, "zlink:")
                   && |r| > |line| && Contains(r, "zlink:")
  {
    MatchLinkGreedy(line);
    match MatchLink(line)
    case None => line
    case Some(m) =>
      if IsExternal(line[m.key + 5..m.open]) then line
      else
        LinkInitialOnce();
        ReplaceMatched(line, "link:", m.key, "zlink:")
  }

  /** A rewritten line whose matched `link:` spelling occurs nowhere else is the line with
      just that macro name turned into `zlink:`. */
  lemma RewriteLinkSingle(line: string)
    requires MatchLink(line).Some?
    requires var m := MatchLink(line).value; !IsExternal(line[m.key + 5..m.open])
    requires var m := MatchLink(line).value;
             !Contains(line[..m.key], line[m.key..m.key + 5]) && !Contains(line[m.key + 5..], line[m.key..m.key + 5])
    ensures var m := MatchLink(line).value;
            RewriteLink(line) == line[..m.key] + "zlink:" + line[m.key + 5..]
  {
    var m := MatchLink(line).value;
    var key := line[m.key..m.key + 5];
    ReplaceAbsent(line[..m.key], key, "zlink:");
    ReplaceAbsent(line[m.key + 5..], key, "zlink:");
  }

  /** `ZendeskLinkMacroPreProcessor.process`: the lines rewritten one by one, in order. */
  method ProcessLinks(lines: seq<string>) returns (newLines: seq<string>)
    ensures |newLines| == |lines|
    ensures forall k | 0 <= k < |lines| :: newLines[k] == RewriteLink(lines[k])
  {
    newLines := [];
    for k := 0 to |lines|
      invariant |newLines| == k
      invariant forall q | 0 <= q < k :: newLines[q] == RewriteLink(lines[q])
    {
      newLines := newLines + [RewriteLink(lines[k])];
    }
  }

  // ---------------------------------------------------------------------------
  // `video::` (pattern `(.*)(video::)([0-9a-zA-Z]+)(\[)(.*)(\])(.*)`)

  predicate IsAsciiAlnum(c: char) {
    '0' <= c <= '9' || 'a' <= c <= 'z' || 'A' <= c <= 'Z'
  }

  /** A way the video pattern matches the whole line: `video::` at `i`, a non-empty id of
      letters and digits up to the `[` at `j`, and a `]` at `k`. */
  predicate VideoShape(line: string, i: int, j: int, k: int) {
    OccursAtIgnoreCase(line, "video::", i) && i + 7 < j < k < |line|
    && (forall p | i + 7 <= p < j :: IsAsciiAlnum(line[p]))
    && line[j] == '[' && line[k] == ']'
  }

  /** The end of the run of letters and digits that starts at `p`. */
  function AlnumEnd(s: string, p: nat): (e: nat)
    requires p <= |s|
    ensures p <= e <= |s|
    ensures forall q | p <= q < e :: IsAsciiAlnum(s[q])
    ensures e < |s| ==> !IsAsciiAlnum(s[e])
    decreases |s| - p
  {
    if p == |s| || !IsAsciiAlnum(s[p]) then p else AlnumEnd(s, p + 1)
  }

  /** The rest of the video pattern matches after a `video::` at `i`. */
  predicate VideoTailAt(line: string, i: nat) {
    OccursAtIgnoreCase(line, "video::", i)
    && var e := AlnumEnd(line, i + 7);
       var close := LastIndexBefore(line, ']', |line|);
       i + 7 < e < |line| && line[e] == '[' && close.Some? && e < close.value
  }

  lemma VideoTailShape(line: string, i: nat)
    ensures VideoTailAt(line, i) <==> exists j, k :: VideoShape(line, i, j, k)
  {
    if VideoTailAt(line, i) {
      assert VideoShape(line, i, AlnumEnd(line, i + 7), LastIndexBefore(line, ']', |line|).value);
    }
    if j, k :| VideoShape(line, i, j, k) {
      var e := AlnumEnd(line, i + 7);
      assert e == j by {
        assert !IsAsciiAlnum(line[j]);
      }
      assert LastIndexBefore(line, ']', |line|).value >= k;
    }
  }

  /** The last `video::` before `n` after which the rest of the pattern matches. */
  function LastVideoBefore(line: string, n: nat): (r: Option<nat>)
    ensures r.Some? ==> r.value < n && VideoTailAt(line, r.value)
                        && forall q | r.value < q < n :: !VideoTailAt(line, q)
    ensures r.None? ==> forall q | 0 <= q < n :: !VideoTailAt(line, q)
  {
    if n == 0 then None
    else if VideoTailAt(line, n - 1) then Some(n - 1)
    else LastVideoBefore(line, n - 1)
  }

  /** Where the greedy match puts `video::`. */
  function MatchVideo(line: string): (m: Option<nat>)
    ensures m.Some? ==> m.value + 7 <= |line| && OccursAtIgnoreCase(line, "video::", m.value)
  {
    LastVideoBefore(line, |line|)
  }

  /** The line matches exactly when it has some `video::`, id, `[` and `]` in a row, and
      the match takes the last `video::` that starts one. */
  lemma MatchVideoGreedy(line: string)
    ensures MatchVideo(line).None? <==> forall i, j, k :: !VideoShape(line, i, j, k)
    ensures MatchVideo(line).Some? ==>
              (exists j, k :: VideoShape(line, MatchVideo(line).value, j, k))
              && forall i, j, k | VideoShape(line, i, j, k) :: i <= MatchVideo(line).value
  {
    var m := MatchVideo(line);
    forall i, j, k | VideoShape(line, i, j, k)
      ensures m.Some? && i <= m.value
    {
      VideoTailShape(line, i);
    }
    if m.Some? {
      VideoTailShape(line, m.value);
    }
  }

  /** One line of `VideoMacroPreProcessor.process`: unchanged when no match is found.
      In a matching line the matched `video::` text (as spelled in the line) becomes
      `zvideo::` where it stands, every other copy of that spelling before or after it is
      replaced as well, and the line grows and holds a `zvideo::` macro. */
  function RewriteVideo(line: string): (r: string)
    ensures MatchVideo(line).None? ==> r == line
    ensures MatchVideo(line).Some? ==>
              var i := MatchVideo(line).value;
              var key := line[i..i + 7];
              r == Replace(line[..i], key, "zvideo::") + "zvideo::" + Replace(line[i + 7..], key, "zvideo::")
              && |r| > |line| && Contains(r, "zvideo::")
  {
    match MatchVideo(line)
    case None => line
    case Some(i) =>
      VideoInitialOnce();
      ReplaceMatched(line, "video::", i, "zvideo::")
  }

  /** A line is left as it is exactly when the video pattern does not match it. */
  lemma RewriteVideoUnchanged(line: string)
    ensures (forall i, j, k :: !VideoShape(line, i, j, k)) <==> RewriteVideo(line) == line
  {
    MatchVideoGreedy(line);
  }

  /** A rewritten line whose matched `video::` spelling occurs nowhere else is the line
      with just that macro name turned into `zvideo::`. */
  lemma RewriteVideoSingle(line: string)
    requires MatchVideo(line).Some?
    requires var i := MatchVideo(line).value;
             !Contains(line[..i], line[i..i + 7]) && !Contains(line[i + 7..], line[i..i + 7])
    ensures var i := MatchVideo(line).value;
            RewriteVideo(line) == line[..i] + "zvideo::" + line[i + 7..]
  {
    var i := MatchVideo(line).value;
    var key := line[i..i + 7];
    ReplaceAbsent(line[..i], key, "zvideo::");
    ReplaceAbsent(line[i + 7..], key, "zvideo::");
  }

  /** `VideoMacroPreProcessor.process`: the lines rewritten one by one, in order. */
  method ProcessVideos(lines: seq<string>) returns (newLines: seq<string>)
    ensures |newLines| == |lines|
    ensures forall k | 0 <= k < |lines| :: newLines[k] == RewriteVideo(lines[k])
  {
    newLines := [];
    for k := 0 to |lines|
      invariant |newLines| == k
      invariant forall q | 0 <= q < k :: newLines[q] == RewriteVideo(lines[q])
    {
      newLines := newLines + [RewriteVideo(lines[k])];
    }
  }
}
