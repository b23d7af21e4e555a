/**
 * Backwards searches used to describe where a greedy `java.util.regex` match lands.
 * A pattern of the shape `(.*)(key)...` matched with `Matcher.matches()` tries the
 * longest first group first, so the key it settles on is the last one from which the
 * rest of the pattern can still match.  The patterns are compiled with
 * `CASE_INSENSITIVE` and without `UNICODE_CASE`, so only ASCII letters fold.
 */
module Patterns {
  import opened Wrappers
  import opened JavaText

  /** The last position before `n` holding `c`. */
  function LastIndexBefore(s: string, c: char, n: nat): (r: Option<nat>)
    requires n <= |s|
    ensures r.Some? ==> r.value < n && s[r.value] == c && forall q | r.value < q < n :: s[q] != c
    ensures r.None? ==> forall q | 0 <= q < n :: s[q] != c
  {
    if n == 0 then None
    else if s[n - 1] == c then Some(n - 1)
    else LastIndexBefore(s, c, n - 1)
  }

  /** The last position before `n` where `key` occurs up to ASCII case. */
  function LastOccurrenceBefore(s: string, key: string, n: nat): (r: Option<nat>)
    ensures r.Some? ==> r.value < n && OccursAtIgnoreCase(s, key, r.value)
                        && forall q | r.value < q < n :: !OccursAtIgnoreCase(s, key, q)
    ensures r.None? ==> forall q | 0 <= q < n :: !OccursAtIgnoreCase(s, key, q)
  {
    if n == 0 then None
    else if OccursAtIgnoreCase(s, key, n - 1) then Some(n - 1)
    else LastOccurrenceBefore(s, key, n - 1)
  }
}
