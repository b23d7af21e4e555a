/**
 * The parts of java.lang.String, java.lang.Character, java.lang.Integer/Long and
 * org.apache.commons.lang.StringUtils that the synchronisation code relies on,
 * written out over `seq<char>`.
 */
module JavaText {
  import opened Wrappers

  // ---------------------------------------------------------------------------
  // Blank and trim

  /** `Character.isWhitespace`: the ASCII controls 9-13 and 28-31, the space, and the
      Unicode space/line/paragraph separators except the non-breaking ones. */
  predicate IsWhitespace(c: char) {
    var n := c as int;
    (9 <= n <= 13) || (28 <= n <= 32)
    || n == 0x1680 || (0x2000 <= n <= 0x2006) || (0x2008 <= n <= 0x200A)
    || n == 0x2028 || n == 0x2029 || n == 0x205F || n == 0x3000
  }

  /** `StringUtils.isBlank` (a null string is modelled as the empty string). */
  predicate IsBlank(s: string) {
    forall i | 0 <= i < |s| :: IsWhitespace(s[i])
  }

  /** How many characters at or below U+0020 open `s`: where `String.trim` starts. */
  function LeadingSpace(s: string): (n: nat)
    ensures n <= |s| && (n == |s| || s[n] > ' ')
    ensures forall i | 0 <= i < n :: s[i] <= ' '
  {
    if s != [] && s[0] <= ' ' then 1 + LeadingSpace(s[1..]) else 0
  }

  /** Length of `s` without the characters at or below U+0020 that close it: where
      `String.trim` ends. */
  function TrailingEnd(s: string): (m: nat)
    ensures m <= |s| && (m == 0 || s[m - 1] > ' ')
    ensures forall i | m <= i < |s| :: s[i] <= ' '
  {
    if s != [] && s[|s| - 1] <= ' ' then TrailingEnd(s[..|s| - 1]) else |s|
  }

  /** `r` is `s` with `a` characters cut at the front, some at the back, and every
      character cut is at or below U+0020. */
  ghost predicate CutsOnlySpace(s: string, r: string, a: int) {
    0 <= a && a + |r| <= |s| && r == s[a..a + |r|]
    && (forall i | 0 <= i < a :: s[i] <= ' ')
    && (forall i | a + |r| <= i < |s| :: s[i] <= ' ')
  }

  /** `String.trim`: what remains after cutting the characters at or below U+0020 from
      both ends neither starts nor ends with such a character. */
  function Trim(s: string): (r: string)
    ensures r == [] || (r[0] > ' ' && r[|r| - 1] > ' ')
    ensures CutsOnlySpace(s, r, LeadingSpace(s))
  {
    var a := LeadingSpace(s);
    if a == |s| then [] else s[a..TrailingEnd(s)]
  }

  /** A string that neither starts nor ends with a character at or below U+0020 is its
      own trim. */
  lemma TrimTrimmed(s: string)
    requires s == [] || (s[0] > ' ' && s[|s| - 1] > ' ')
    ensures Trim(s) == s
  {
  }

  lemma {:induction false} LeadingSpacePadded(pad: string, v: string)
    requires forall i | 0 <= i < |pad| :: pad[i] <= ' '
    requires v == [] || v[0] > ' '
    ensures LeadingSpace(pad + v) == |pad|
  {
    if pad != [] {
      assert (pad + v)[1..] == pad[1..] + v;
      LeadingSpacePadded(pad[1..], v);
    }
  }

  /** Trimming undoes padding a trimmed string with white space in front. */
  lemma TrimPadded(pad: string, v: string)
    requires forall i | 0 <= i < |pad| :: pad[i] <= ' '
    requires v == [] || (v[0] > ' ' && v[|v| - 1] > ' ')
    ensures Trim(pad + v) == v
  {
    var s := pad + v;
    LeadingSpacePadded(pad, v);
    if v != [] {
      assert s[|s| - 1] == v[|v| - 1];
      assert TrailingEnd(s) == |s|;
      assert s[|pad|..|s|] == v;
    }
  }

  // ---------------------------------------------------------------------------
  // Comparison and search

  /** Case folding of `String.equalsIgnoreCase`, restricted to ASCII letters. */
  function FoldCase(c: char): char {
    if 'A' <= c <= 'Z' then (c as int + 32) as char else c
  }

  predicate EqualsIgnoreCase(a: string, b: string) {
    |a| == |b| && forall i | 0 <= i < |a| :: FoldCase(a[i]) == FoldCase(b[i])
  }

  predicate StartsWith(s: string, prefix: string) {
    |prefix| <= |s| && s[..|prefix|] == prefix
  }

  predicate EndsWith(s: string, suffix: string) {
    |suffix| <= |s| && s[|s| - |suffix|..] == suffix
  }

  predicate OccursAt(s: string, p: string, i: int) {
    0 <= i && i + |p| <= |s| && s[i..i + |p|] == p
  }

  /** `String.contains` */
  predicate Contains(s: string, p: string) {
    exists i | 0 <= i <= |s| - |p| :: OccursAt(s, p, i)
  }

  /** `p` occurs at `i` of `s` up to ASCII case. */
  predicate OccursAtIgnoreCase(s: string, p: string, i: int) {
    0 <= i && i + |p| <= |s| && EqualsIgnoreCase(s[i..i + |p|], p)
  }

  // ---------------------------------------------------------------------------
  // Replace

  /** `String.replace(target, replacement)` with an empty target: the replacement goes
      before every character and at the end. */
  function Interleave(s: string, replacement: string): string {
    if s == [] then replacement else replacement + [s[0]] + Interleave(s[1..], replacement)
  }

  /** `String.replace(CharSequence, CharSequence)`: every occurrence of `target`, scanned
      left to right without overlaps, becomes `replacement`. */
  function Replace(s: string, target: string, replacement: string): string
    decreases |s|
  {
    if |target| == 0 then Interleave(s, replacement)
    else if |s| < |target| then s
    else if s[..|target|] == target then replacement + Replace(s[|target|..], target, replacement)
    else [s[0]] + Replace(s[1..], target, replacement)
  }

  /** Replacing a target that does not occur changes nothing. */
  lemma {:induction false} ReplaceAbsent(s: string, target: string, replacement: string)
    requires |target| > 0 && !Contains(s, target)
    ensures Replace(s, target, replacement) == s
    decreases |s|
  {
    if |s| >= |target| {
      assert !OccursAt(s, target, 0);
      if !Contains(s[1..], target) {
        ReplaceAbsent(s[1..], target, replacement);
      } else {
        var i :| 0 <= i <= |s[1..]| - |target| && OccursAt(s[1..], target, i);
        assert s[i + 1..i + 1 + |target|] == s[1..][i..i + |target|];
        assert OccursAt(s, target, i + 1);
      }
    }
  }

  /** Deleting every copy of one character leaves none of it behind. */
  lemma {:induction false} ReplaceCharByEmpty(s: string, c: char)
    ensures c !in Replace(s, [c], "")
    decreases |s|
  {
    if |s| >= 1 {
      ReplaceCharByEmpty(s[1..], c);
    }
  }

  /** No occurrence of `p` in `s` starts before position `n`. */
  ghost predicate NoneBefore(s: string, p: string, n: int) {
    forall i | 0 <= i < n :: !OccursAt(s, p, i)
  }

  lemma NoneBeforeTail(s: string, p: string, n: int)
    requires s != [] && n > 0 && NoneBefore(s, p, n)
    ensures NoneBefore(s[1..], p, n - 1)
  {
    forall i | 0 <= i < n - 1
      ensures !OccursAt(s[1..], p, i)
    {
      if OccursAt(s[1..], p, i) {
        assert s[i + 1..i + 1 + |p|] == s[1..][i..i + |p|];
        assert OccursAt(s, p, i + 1);
      }
    }
  }

  /** When the target occurs nowhere in `pre` nor in `post`, and no occurrence starts
      inside `pre`, only the copy between them is replaced. */
  lemma {:induction false} ReplaceSingleOccurrence(pre: string, p: string, post: string, r: string)
    requires |p| > 0 && NoneBefore(pre + p + post, p, |pre|) && !Contains(post, p)
    ensures Replace(pre + p + post, p, r) == pre + r + post
    decreases |pre|
  {
    var s := pre + p + post;
    if pre == [] {
      ReplaceAtFront(p, post, r);
      assert s == p + post;
    } else {
      assert !OccursAt(s, p, 0);
      ReplaceOtherHead(s, p, r);
      NoneBeforeTail(s, p, |pre|);
      assert s[1..] == pre[1..] + p + post;
      ReplaceSingleOccurrence(pre[1..], p, post, r);
      assert Replace(s, p, r) == [pre[0]] + (pre[1..] + r + post);
      assert pre == [pre[0]] + pre[1..];
    }
  }

  /** No copy of `p` in `s` starts less than `|p|` before position `n`. */
  ghost predicate NoneStraddles(s: string, p: string, n: int) {
    forall q | 0 <= q < n && n < q + |p| :: !OccursAt(s, p, q)
  }

  /** A copy of the target that no other copy overlaps from the left is replaced where it
      stands, and the text on either side is replaced on its own. */
  lemma {:induction false} ReplaceAround(a: string, p: string, b: string, r: string)
    requires |p| > 0 && NoneStraddles(a + p + b, p, |a|)
    ensures Replace(a + p + b, p, r) == Replace(a, p, r) + r + Replace(b, p, r)
    decreases |a|, 1
  {
    var s := a + p + b;
    if a == [] {
      assert s == p + b;
      ReplaceAtHead(p, b, r);
    } else if s[..|p|] == p {
      ReplaceAroundMatch(a, p, b, r);
    } else {
      ReplaceAroundOther(a, p, b, r);
    }
  }

  lemma ReplaceAtHead(p: string, b: string, r: string)
    requires |p| > 0
    ensures Replace(p + b, p, r) == r + Replace(b, p, r)
  {
    assert (p + b)[..|p|] == p && (p + b)[|p|..] == b;
    ReplaceMatchingHead(p + b, p, r);
  }

  /** Shifting the window: no copy straddles `n` in `s` when none straddles `n + d`
      in `t + s` with `|t| == d`. */
  lemma NoneStraddlesTail(t: string, s: string, p: string, n: int)
    requires NoneStraddles(t + s, p, n + |t|)
    ensures NoneStraddles(s, p, n)
  {
    forall q | 0 <= q < n && n < q + |p|
      ensures !OccursAt(s, p, q)
    {
      if OccursAt(s, p, q) {
        assert (t + s)[q + |t|..q + |t| + |p|] == s[q..q + |p|];
        assert OccursAt(t + s, p, q + |t|);
      }
    }
  }

  lemma {:induction false} ReplaceAroundMatch(a: string, p: string, b: string, r: string)
    requires |p| > 0 && a != [] && NoneStraddles(a + p + b, p, |a|)
    requires (a + p + b)[..|p|] == p
    ensures Replace(a + p + b, p, r) == Replace(a, p, r) + r + Replace(b, p, r)
    decreases |a|, 0
  {
    HeadMatchInPrefix(a, p, b);
    var a' := a[|p|..];
    assert a + p + b == p + (a' + p + b);
    ReplaceAtHead(p, a' + p + b, r);
    ReplaceAtHead(p, a', r);
    NoneStraddlesTail(p, a' + p + b, p, |a'|);
    ReplaceAround(a', p, b, r);
  }

  /** A match at the front that straddles nothing lies wholly in the prefix. */
  lemma HeadMatchInPrefix(a: string, p: string, b: string)
    requires |p| > 0 && a != [] && NoneStraddles(a + p + b, p, |a|)
    requires (a + p + b)[..|p|] == p
    ensures |a| >= |p| && a == p + a[|p|..]
  {
    assert OccursAt(a + p + b, p, 0);
    assert a[..|p|] == p;
  }

  lemma {:induction false} ReplaceAroundOther(a: string, p: string, b: string, r: string)
    requires |p| > 0 && a != [] && NoneStraddles(a + p + b, p, |a|)
    requires (a + p + b)[..|p|] != p
    ensures Replace(a + p + b, p, r) == Replace(a, p, r) + r + Replace(b, p, r)
    decreases |a|, 0
  {
    var s := a + p + b;
    var a' := a[1..];
    var rest := a' + p + b;
    assert s == [a[0]] + rest;
    ReplaceOtherHead(s, p, r);
    assert s[1..] == rest;
    NoneStraddlesTail([a[0]], rest, p, |a'|);
    ReplaceAround(a', p, b, r);
    ReplaceFirstKept(a, p, r, s[..|p|]);
    assert Replace(s, p, r) == [a[0]] + (Replace(a', p, r) + r + Replace(b, p, r));
  }

  /** A string that does not start with the target keeps its first character. */
  lemma ReplaceFirstKept(a: string, p: string, r: string, head: string)
    requires a != [] && |p| > 0 && head != p
    requires |a| >= |p| ==> a[..|p|] == head
    ensures Replace(a, p, r) == [a[0]] + Replace(a[1..], p, r)
  {
    if |a| < |p| {
      assert Replace(a[1..], p, r) == a[1..];
      assert a == [a[0]] + a[1..];
    } else {
      ReplaceOtherHead(a, p, r);
    }
  }

  /** The target at the front of a string whose rest lacks it is the one replacement. */
  lemma ReplaceAtFront(p: string, post: string, r: string)
    requires |p| > 0 && !Contains(post, p)
    ensures Replace(p + post, p, r) == r + post
  {
    var s := p + post;
    assert s[..|p|] == p && s[|p|..] == post;
    ReplaceMatchingHead(s, p, r);
    ReplaceAbsent(post, p, r);
  }


  /** Replacing a single character distributes over concatenation. */
  lemma {:induction false} ReplaceCharAppend(a: string, b: string, c: char, r: string)
    ensures Replace(a + b, [c], r) == Replace(a, [c], r) + Replace(b, [c], r)
    decreases |a|
  {
    if a == [] {
      assert a + b == b;
    } else {
      assert (a + b)[1..] == a[1..] + b;
      assert (a + b)[..1] == a[..1] == [a[0]];
      ReplaceCharAppend(a[1..], b, c, r);
    }
  }

  lemma ReplaceMatchingHead(s: string, p: string, r: string)
    requires |p| > 0 && |p| <= |s| && s[..|p|] == p
    ensures Replace(s, p, r) == r + Replace(s[|p|..], p, r)
  {
  }

  lemma ReplaceOtherHead(s: string, p: string, r: string)
    requires 0 < |p| <= |s| && s[..|p|] != p
    ensures Replace(s, p, r) == [s[0]] + Replace(s[1..], p, r)
  {
  }

  /** A replacement at least as long as the target never shortens the string. */
  lemma {:induction false} ReplaceNotShorter(s: string, p: string, r: string)
    requires 0 < |p| <= |r|
    ensures |Replace(s, p, r)| >= |s|
    decreases |s|
  {
    if |s| >= |p| {
      if s[..|p|] == p {
        ReplaceNotShorter(s[|p|..], p, r);
      } else {
        ReplaceNotShorter(s[1..], p, r);
      }
    }
  }

  /** An occurrence of `p` in `s` that does not start at the front is one in `s[1..]`. */
  lemma OccurrenceInTail(s: string, p: string)
    requires |p| <= |s| && s[..|p|] != p && Contains(s, p)
    ensures Contains(s[1..], p)
  {
    var i :| 0 <= i <= |s| - |p| && OccursAt(s, p, i);
    assert i > 0;
    assert s[1..][i - 1..i - 1 + |p|] == s[i..i + |p|];
    assert OccursAt(s[1..], p, i - 1);
  }

  /** When the target occurs and the replacement is longer, the result is longer. */
  lemma {:induction false} ReplaceOccurringLonger(s: string, p: string, r: string)
    requires 0 < |p| < |r| && Contains(s, p)
    ensures |Replace(s, p, r)| > |s|
    decreases |s|
  {
    if s[..|p|] == p {
      ReplaceMatchingHead(s, p, r);
      ReplaceNotShorter(s[|p|..], p, r);
    } else {
      ReplaceOtherHead(s, p, r);
      OccurrenceInTail(s, p);
      ReplaceOccurringLonger(s[1..], p, r);
    }
  }

  /** When the target occurs, the replacement occurs in the result. */
  lemma {:induction false} ReplaceOccurringHolds(s: string, p: string, r: string)
    requires 0 < |p| && Contains(s, p)
    ensures Contains(Replace(s, p, r), r)
    decreases |s|
  {
    if s[..|p|] == p {
      ReplaceMatchingHead(s, p, r);
      assert OccursAt(Replace(s, p, r), r, 0);
    } else {
      ReplaceOtherHead(s, p, r);
      OccurrenceInTail(s, p);
      ReplaceOccurringHolds(s[1..], p, r);
      ContainsCons(s[0], Replace(s[1..], p, r), r);
    }
  }

  /** An occurrence survives putting a character in front. */
  lemma ContainsCons(c: char, t: string, r: string)
    requires Contains(t, r)
    ensures Contains([c] + t, r)
  {
    var j :| 0 <= j <= |t| - |r| && OccursAt(t, r, j);
    assert ([c] + t)[j + 1..j + 1 + |r|] == t[j..j + |r|];
    assert OccursAt([c] + t, r, j + 1);
  }

  // ---------------------------------------------------------------------------
  // Split and join

  /** Every piece of `s` between occurrences of `c`, including empty ones at either end. */
  function SplitOn(s: string, c: char): (pieces: seq<string>)
    ensures |pieces| >= 1
    ensures forall k | 0 <= k < |pieces| :: c !in pieces[k]
  {
    if s == [] then [[]]
    else if s[0] == c then [[]] + SplitOn(s[1..], c)
    else
      var rest := SplitOn(s[1..], c);
      [[s[0]] + rest[0]] + rest[1..]
  }

  /** `Collectors.joining(delimiter)` with a one-character delimiter. */
  function Join(pieces: seq<string>, c: char): string {
    if pieces == [] then []
    else if |pieces| == 1 then pieces[0]
    else pieces[0] + [c] + Join(pieces[1..], c)
  }

  /** Splitting and joining again on the same character gives back the input. */
  lemma {:induction false} JoinSplitOn(s: string, c: char)
    ensures Join(SplitOn(s, c), c) == s
  {
    if s != [] {
      JoinSplitOn(s[1..], c);
      var rest := SplitOn(s[1..], c);
      if s[0] != c && |rest| > 1 {
        assert SplitOn(s, c)[1..] == rest[1..];
      }
    }
  }

  /** A string without the delimiter is one piece. */
  lemma {:induction false} SplitOnNoDelimiter(a: string, c: char)
    requires c !in a
    ensures SplitOn(a, c) == [a]
  {
    if a != [] {
      assert a[0] != c && c !in a[1..];
      SplitOnNoDelimiter(a[1..], c);
      assert [a[0]] + a[1..] == a;
    }
  }

  lemma {:induction false} SplitOnDelimited(a: string, b: string, c: char)
    requires c !in a
    ensures SplitOn(a + [c] + b, c) == [a] + SplitOn(b, c)
  {
    if a == [] {
      assert (a + [c] + b)[1..] == b;
    } else {
      assert (a + [c] + b)[1..] == a[1..] + [c] + b;
      assert (a + [c] + b)[0] == a[0] != c;
      SplitOnDelimited(a[1..], b, c);
      assert [a[0]] + a[1..] == a;
    }
  }

  /** Joining pieces that do not contain the delimiter and splitting again gives back the
      pieces. */
  lemma {:induction false} SplitOnJoin(pieces: seq<string>, c: char)
    requires |pieces| >= 1 && forall k | 0 <= k < |pieces| :: c !in pieces[k]
    ensures SplitOn(Join(pieces, c), c) == pieces
  {
    if |pieces| == 1 {
      SplitOnNoDelimiter(pieces[0], c);
    } else {
      SplitOnJoin(pieces[1..], c);
      SplitOnDelimited(pieces[0], Join(pieces[1..], c), c);
    }
  }

  function DropTrailingEmpty(pieces: seq<string>): (r: seq<string>)
    ensures |r| <= |pieces| && r == pieces[..|r|]
    ensures r == [] || r[|r| - 1] != []
  {
    if pieces == [] then []
    else if pieces[|pieces| - 1] == [] then DropTrailingEmpty(pieces[..|pieces| - 1])
    else pieces
  }

  /** `String.split` with a one-character literal pattern and no limit: no match gives the
      input alone, otherwise the pieces with trailing empty strings removed. */
  function JavaSplit(s: string, c: char): (pieces: seq<string>)
    ensures forall k | 0 <= k < |pieces| :: c !in pieces[k]
  {
    if c !in s then [s] else DropTrailingEmpty(SplitOn(s, c))
  }

  /** `run` occurs somewhere in `s`. */
  ghost predicate IsRun(s: string, run: string) {
    exists p :: OccursAt(s, run, p)
  }

  /** A run of the tail of `s` is a run of `s`. */
  lemma RunOfTail(s: string, run: string)
    requires s != [] && IsRun(s[1..], run)
    ensures IsRun(s, run)
  {
    var p :| OccursAt(s[1..], run, p);
    assert s[p + 1..p + 1 + |run|] == s[1..][p..p + |run|];
    assert OccursAt(s, run, p + 1);
  }

  /** The first piece of a split is where `s` begins, and every piece is a run of `s`. */
  lemma {:induction false} SplitOnPiecesOccur(s: string, c: char)
    ensures var pieces := SplitOn(s, c);
            StartsWith(s, pieces[0]) && forall k | 0 <= k < |pieces| :: IsRun(s, pieces[k])
  {
    var pieces := SplitOn(s, c);
    if s == [] {
      assert OccursAt(s, pieces[0], 0);
    } else {
      var t := s[1..];
      SplitOnPiecesOccur(t, c);
      var rest := SplitOn(t, c);
      if s[0] == c {
        assert pieces == [[]] + rest;
        assert OccursAt(s, pieces[0], 0);
        forall k | 1 <= k < |pieces|
          ensures IsRun(s, pieces[k])
        {
          assert pieces[k] == rest[k - 1];
          RunOfTail(s, rest[k - 1]);
        }
      } else {
        assert pieces == [[s[0]] + rest[0]] + rest[1..];
        assert s[..|pieces[0]|] == [s[0]] + t[..|rest[0]|];
        assert OccursAt(s, pieces[0], 0);
        forall k | 1 <= k < |pieces|
          ensures IsRun(s, pieces[k])
        {
          assert pieces[k] == rest[k];
          RunOfTail(s, rest[k]);
        }
      }
    }
  }

  /** Every piece of Java's split is a run of the input. */
  lemma JavaSplitPiecesOccur(s: string, c: char, k: int)
    requires 0 <= k < |JavaSplit(s, c)|
    ensures IsRun(s, JavaSplit(s, c)[k])
  {
    if c !in s {
      assert OccursAt(s, s, 0);
    } else {
      SplitOnPiecesOccur(s, c);
      assert JavaSplit(s, c)[k] == SplitOn(s, c)[k];
    }
  }

  /** `s` without the copies of `c` at its end. */
  function StripTrailing(s: string, c: char): string {
    if s != [] && s[|s| - 1] == c then StripTrailing(s[..|s| - 1], c) else s
  }

  lemma {:induction false} SplitOnLastPieceNonEmpty(s: string, c: char)
    requires s != [] && s[|s| - 1] != c
    ensures SplitOn(s, c)[|SplitOn(s, c)| - 1] != []
  {
    if |s| > 1 {
      SplitOnLastPieceNonEmpty(s[1..], c);
    }
  }

  lemma {:induction false} SplitOnAppendDelimiter(s: string, c: char)
    ensures SplitOn(s + [c], c) == SplitOn(s, c) + [[]]
  {
    if s != [] {
      assert (s + [c])[1..] == s[1..] + [c];
      SplitOnAppendDelimiter(s[1..], c);
    }
  }

  /** Java's split-then-join on one character loses exactly the trailing delimiters. */
  lemma {:induction false} JoinJavaSplit(s: string, c: char)
    ensures Join(JavaSplit(s, c), c) == StripTrailing(s, c)
    decreases |s|
  {
    if c !in s {
      if s != [] {
        assert s[|s| - 1] in s;
      }
    } else if s[|s| - 1] == c {
      var t := s[..|s| - 1];
      assert s == t + [c];
      SplitOnAppendDelimiter(t, c);
      assert SplitOn(s, c)[..|SplitOn(s, c)| - 1] == SplitOn(t, c);
      if c in t {
        JoinJavaSplit(t, c);
      } else {
        if t == [] {
          assert DropTrailingEmpty(SplitOn(t, c)) == [];
        } else {
          assert t[|t| - 1] in t;
          SplitOnLastPieceNonEmpty(t, c);
          JoinSplitOn(t, c);
          assert StripTrailing(t, c) == t;
        }
      }
    } else {
      SplitOnLastPieceNonEmpty(s, c);
      JoinSplitOn(s, c);
    }
  }

  /** Java's `split` gives back the pieces a join was made of, as long as none contains
      the delimiter and the last is not empty. */
  lemma JavaSplitJoin(pieces: seq<string>, c: char)
    requires |pieces| >= 1 && forall k | 0 <= k < |pieces| :: c !in pieces[k]
    requires |pieces| == 1 || pieces[|pieces| - 1] != []
    ensures JavaSplit(Join(pieces, c), c) == pieces
  {
    SplitOnJoin(pieces, c);
    if |pieces| == 1 {
      assert Join(pieces, c) == pieces[0];
    } else {
      assert Join(pieces, c) == pieces[0] + [c] + Join(pieces[1..], c);
      assert c in Join(pieces, c);
    }
  }

  // ---------------------------------------------------------------------------
  // Decimal integers

  const INT_MIN: int := -0x8000_0000
  const INT_MAX: int := 0x7FFF_FFFF
  const LONG_MIN: int := -0x8000_0000_0000_0000
  const LONG_MAX: int := 0x7FFF_FFFF_FFFF_FFFF

  predicate IsDigit(c: char) {
    '0' <= c <= '9'
  }

  predicate AllDigits(s: string) {
    forall i | 0 <= i < |s| :: IsDigit(s[i])
  }

  function DigitsValue(s: string): nat
    requires AllDigits(s)
  {
    if s == [] then 0 else DigitsValue(s[..|s| - 1]) * 10 + (s[|s| - 1] as int - '0' as int)
  }

  /** The digits after an optional leading sign. */
  function Unsigned(s: string): string {
    if s != [] && (s[0] == '-' || s[0] == '+') then s[1..] else s
  }

  /** The text is a sign, if any, followed by one or more decimal digits. */
  predicate IsDecimal(s: string) {
    Unsigned(s) != [] && AllDigits(Unsigned(s))
  }

  function DecimalValue(s: string): int
    requires IsDecimal(s)
  {
    var v: int := DigitsValue(Unsigned(s));
    if s[0] == '-' then -v else v
  }

  /** `Integer.valueOf` (bounds INT_MIN..INT_MAX) and `Long.valueOf` (LONG_MIN..LONG_MAX)
      over ASCII digits: `None` stands for the NumberFormatException.  Java also accepts
      the decimal digits of other scripts; those are not digits here. */
  function ParseInteger(s: string, lo: int, hi: int): (r: Option<int>)
    ensures r.Some? ==> lo <= r.value <= hi
  {
    if IsDecimal(s) && lo <= DecimalValue(s) <= hi then Some(DecimalValue(s)) else None
  }

  /** Decimal digits of a natural number, most significant first, no leading zero. */
  function NatDigits(n: nat): (r: string)
    ensures r != [] && AllDigits(r)
    decreases n
  {
    if n < 10 then [('0' as int + n) as char]
    else NatDigits(n / 10) + [('0' as int + n % 10) as char]
  }

  lemma {:induction false} NatDigitsValue(n: nat)
    ensures DigitsValue(NatDigits(n)) == n
    decreases n
  {
    if n >= 10 {
      NatDigitsValue(n / 10);
      var d := NatDigits(n);
      assert d[..|d| - 1] == NatDigits(n / 10);
    }
  }

  /** `Integer.toString` / `Long.toString` */
  function DecimalString(n: int): string {
    if n < 0 then "-" + NatDigits(-n) else NatDigits(n)
  }

  /** Every value in range, written the way Java prints it, parses back to itself. */
  lemma ParseDecimalString(n: int, lo: int, hi: int)
    requires lo <= n <= hi
    ensures ParseInteger(DecimalString(n), lo, hi) == Some(n)
  {
    var s := DecimalString(n);
    if n < 0 {
      var d := NatDigits(-n);
      NatDigitsValue(-n);
      assert s == "-" + d && s[0] == '-';
      assert Unsigned(s) == d;
      assert IsDecimal(s);
      assert DecimalValue(s) == n;
    } else {
      var d := NatDigits(n);
      NatDigitsValue(n);
      assert s[0] != '-' && s[0] != '+';
      assert Unsigned(s) == d;
      assert IsDecimal(s);
      assert DecimalValue(s) == n;
    }
  }
}
