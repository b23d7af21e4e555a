/**
 * `CodeBlockPostProcessor`: after rendering, the HTML is cut into lines and every line
 * loses its last opening `<code …>` tag (up to the last `>` of the line) and then its last
 * `</code>`, each found by a greedy, case-insensitive pattern.  Only deletion happens.
 */
module CodeBlocks {
  import opened Wrappers
  import opened JavaText
  import opened Patterns

  // ---------------------------------------------------------------------------
  // `<code …>` (pattern `(.*)(<code .*>)(.*)`)

  /** A way the opening pattern matches the whole line: `<code ` at `i` and the `>` that
      closes group 2 at `k`. */
  predicate StartShape(line: string, i: int, k: int) {
    OccursAtIgnoreCase(line, "<code ", i) && i + 6 <= k < |line| && line[k] == '>'
  }

  /** The characters `line[start..end]` that a match takes out. */
  datatype Span = Span(start: nat, end: nat)

  /** The match `Matcher.matches()` finds: the last `>` of the line, and the last `<code `
      that ends at or before it. */
  function MatchStart(line: string): (m: Option<Span>)
    ensures m.Some? ==> m.value.start + 6 < m.value.end <= |line|
  {
    match LastIndexBefore(line, '>', |line|)
    case None => None
    case Some(k) =>
      if k < 6 then None
      else
        match LastOccurrenceBefore(line, "<code ", k - 5)
        case None => None
        case Some(i) => Some(Span(i, k + 1))
  }

  /** The line matches exactly when some `<code ` has a `>` after it; the match takes the
      last such `<code ` and runs to the last `>` of the line. */
  lemma MatchStartGreedy(line: string)
    ensures MatchStart(line).None? <==> forall i, k :: !StartShape(line, i, k)
    ensures MatchStart(line).Some? ==>
              var m := MatchStart(line).value;
              StartShape(line, m.start, m.end - 1)
              && forall i, k | StartShape(line, i, k) :: i <= m.start && k < m.end
  {
    var lastClose := LastIndexBefore(line, '>', |line|);
    if lastClose.Some? {
      var k0 := lastClose.value;
      forall i, k | StartShape(line, i, k)
        ensures k <= k0 && k0 >= 6 && i < k0 - 5
      {
      }
    }
    if MatchStart(line).Some? {
      var m := MatchStart(line).value;
      assert StartShape(line, m.start, m.end - 1);
    }
  }

  /** `matcherA.group(1) + matcherA.group(3)` when the line matches, the line otherwise. */
  function StripStart(line: string): (r: string)
    ensures (forall i, k :: !StartShape(line, i, k)) <==> r == line
    ensures MatchStart(line).Some? ==>
              var m := MatchStart(line).value;
              r == line[..m.start] + line[m.end..] && |r| == |line| - (m.end - m.start)
  {
    MatchStartGreedy(line);
    match MatchStart(line)
    case None => line
    case Some(m) => line[..m.start] + line[m.end..]
  }

  // ---------------------------------------------------------------------------
  // `</code>` (pattern `(.*)(</code>)(.*)`)

  /** Where the greedy match puts `</code>`: its last occurrence. */
  function MatchEnd(line: string): (m: Option<nat>)
    ensures m.Some? ==> OccursAtIgnoreCase(line, "</code>", m.value)
                        && forall q | m.value < q :: !OccursAtIgnoreCase(line, "</code>", q)
    ensures m.None? <==> forall q :: !OccursAtIgnoreCase(line, "</code>", q)
  {
    LastOccurrenceBefore(line, "</code>", |line|)
  }

  /** `matcherB.group(1) + matcherB.group(3)` when the line matches, the line otherwise. */
  function StripEnd(line: string): (r: string)
    ensures (forall q :: !OccursAtIgnoreCase(line, "</code>", q)) <==> r == line
    ensures MatchEnd(line).Some? ==>
              var j := MatchEnd(line).value;
              r == line[..j] + line[j + 7..] && |r| == |line| - 7
  {
    match MatchEnd(line)
    case None => line
    case Some(j) => line[..j] + line[j + 7..]
  }

  // ---------------------------------------------------------------------------
  // One line, the whole document

  /** `processString`: the opening tag goes first, then the closing tag is looked for in
      what is left. */
  function ProcessString(line: string): string {
    StripEnd(StripStart(line))
  }

  /** `r` is `s` with at most two runs of characters cut out, the rest kept in order. */
  ghost predicate TwoCuts(s: string, r: string) {
    exists a, b, c, d | 0 <= a <= b <= c <= d <= |s| :: r == s[..a] + s[b..c] + s[d..]
  }

  /** Cutting `[j, j + n)` out of `s[..i] + s[e..]` cuts at most two runs out of `s`:
      the bounds of those runs. */
  lemma CutAfterCut(s: string, i: nat, e: nat, j: nat, n: nat) returns (a: nat, b: nat, c: nat, d: nat)
    requires i <= e <= |s| && j + n <= i + (|s| - e)
    ensures a <= b <= c <= d <= |s|
    ensures var t := s[..i] + s[e..];
            t[..j] + t[j + n..] == s[..a] + s[b..c] + s[d..]
  {
    var t := s[..i] + s[e..];
    if j + n <= i {
      a, b, c, d := j, j + n, i, e;
      assert t[..j] == s[..j];
      assert t[j + n..] == s[j + n..i] + s[e..];
    } else if i <= j {
      a, b, c, d := i, e, e + (j - i), e + (j - i) + n;
      assert t[..j] == s[..i] + s[e..c];
      assert t[j + n..] == s[d..];
    } else {
      a, b, c, d := j, e + (j + n - i), e + (j + n - i), e + (j + n - i);
      assert t[..j] == s[..j];
      assert t[j + n..] == s[d..];
      assert s[b..c] == [];
    }
  }

  /** The bounds of the runs that processing a line cuts out. */
  lemma ProcessStringCuts(line: string) returns (a: nat, b: nat, c: nat, d: nat)
    ensures a <= b <= c <= d <= |line|
    ensures ProcessString(line) == line[..a] + line[b..c] + line[d..]
  {
    var t := StripStart(line);
    var i, e := |line|, |line|;
    if MatchStart(line).Some? {
      i, e := MatchStart(line).value.start, MatchStart(line).value.end;
    }
    assert t == line[..i] + line[e..];
    if MatchEnd(t).Some? {
      a, b, c, d := CutAfterCut(line, i, e, MatchEnd(t).value, 7);
    } else {
      a, b, c, d := CutAfterCut(line, i, e, 0, 0);
      assert t[..0] + t[0..] == t;
    }
  }

  /** Each line only loses characters: at most two runs are cut out of it. */
  lemma ProcessStringDeletesOnly(line: string)
    ensures TwoCuts(line, ProcessString(line))
  {
    var a, b, c, d := ProcessStringCuts(line);
  }

  /** A line is left alone exactly when it has neither an opening tag followed by `>` nor a
      closing tag. */
  lemma ProcessStringUnchanged(line: string)
    ensures ProcessString(line) == line <==>
              (forall i, k :: !StartShape(line, i, k)) && (forall q :: !OccursAtIgnoreCase(line, "</code>", q))
  {
    var t := StripStart(line);
    assert |StripEnd(t)| <= |t| <= |line|;
  }

  /** Characters that a line does not hold do not appear after processing it. */
  lemma ProcessStringKeepsOut(line: string, c: char)
    requires c !in line
    ensures c !in ProcessString(line)
  {
    var a, b, x, d := ProcessStringCuts(line);
    assert c !in line[..a] && c !in line[b..x] && c !in line[d..];
  }

  /** `process`: the rendered document split into lines on `\n` (trailing empty lines
      dropped, as `String.split` does), each line processed, joined again with `\n`. */
  function Process(document: string): string {
    Join(ProcessLines(JavaSplit(document, '\n')), '\n')
  }

  /** The stream's `map(processString)`. */
  function ProcessLines(lines: seq<string>): (out: seq<string>)
    ensures |out| == |lines|
  {
    seq(|lines|, k requires 0 <= k < |lines| => ProcessString(lines[k]))
  }

  /** The lines of the output are the processed lines of the input, one for one, as long
      as the last of them is not emptied. */
  lemma ProcessLineByLine(document: string)
    requires var lines := JavaSplit(document, '\n');
             |lines| >= 1 && ProcessString(lines[|lines| - 1]) != []
    ensures var lines := JavaSplit(document, '\n');
            JavaSplit(Process(document), '\n') == ProcessLines(lines)
  {
    var lines := JavaSplit(document, '\n');
    var out := ProcessLines(lines);
    assert out[|out| - 1] == ProcessString(lines[|lines| - 1]);
    ProcessLinesKeepOut(lines, '\n');
    JavaSplitJoin(out, '\n');
    assert Process(document) == Join(out, '\n');
  }

  /** Processing brings no new character into any line. */
  lemma ProcessLinesKeepOut(lines: seq<string>, c: char)
    requires forall k | 0 <= k < |lines| :: c !in lines[k]
    ensures forall k | 0 <= k < |lines| :: c !in ProcessLines(lines)[k]
  {
    forall k | 0 <= k < |lines|
      ensures c !in ProcessLines(lines)[k]
    {
      ProcessStringKeepsOut(lines[k], c);
    }
  }

  /** Inside a run, positions shift by where the run starts. */
  lemma SliceOfRun(s: string, run: string, p: int, i: int, n: int)
    requires OccursAt(s, run, p) && 0 <= i && 0 <= n && i + n <= |run|
    ensures run[i..i + n] == s[p + i..p + i + n]
  {
    forall t | i <= t < i + n
      ensures run[t] == s[p + t]
    {
      assert run[t] == s[p..p + |run|][t];
    }
  }

  /** A tag in a run of `s` is a tag of `s`, shifted by where the run starts. */
  lemma TagsOfRun(s: string, run: string, p: int)
    requires OccursAt(s, run, p)
    ensures forall i, k | StartShape(run, i, k) :: StartShape(s, p + i, p + k)
    ensures forall q | OccursAtIgnoreCase(run, "</code>", q) :: OccursAtIgnoreCase(s, "</code>", p + q)
  {
    forall i, k | StartShape(run, i, k)
      ensures StartShape(s, p + i, p + k)
    {
      SliceOfRun(s, run, p, i, 6);
      SliceOfRun(s, run, p, k, 1);
      assert run[k] == run[k..k + 1][0];
    }
    forall q | OccursAtIgnoreCase(run, "</code>", q)
      ensures OccursAtIgnoreCase(s, "</code>", p + q)
    {
      SliceOfRun(s, run, p, q, 7);
    }
  }

  /** A document without tags comes back with only its trailing line breaks removed. */
  lemma ProcessWithoutTags(document: string)
    requires forall i, k :: !StartShape(document, i, k)
    requires forall q :: !OccursAtIgnoreCase(document, "</code>", q)
    ensures Process(document) == StripTrailing(document, '\n')
  {
    var lines := JavaSplit(document, '\n');
    var out := ProcessLines(lines);
    forall k | 0 <= k < |lines|
      ensures out[k] == lines[k]
    {
      JavaSplitPiecesOccur(document, '\n', k);
      var p :| OccursAt(document, lines[k], p);
      TagsOfRun(document, lines[k], p);
      ProcessStringUnchanged(lines[k]);
    }
    assert out == lines;
    JoinJavaSplit(document, '\n');
  }
}
