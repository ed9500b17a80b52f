/** JavaScript string primitives the detectors rely on, over `seq<char>`:
    ASCII character classes, `indexOf` and `split` with a string separator. */
module Strings {

  datatype Option<T> = None | Some(value: T)

  /** `isDigit`: the character lies between "0" and "9". */
  predicate IsDigit(c: char) { '0' <= c <= '9' }

  predicate IsAsciiLetter(c: char) { 'a' <= c <= 'z' || 'A' <= c <= 'Z' }

  /** The regular-expression class `[a-zA-Z0-9]`. */
  predicate IsAsciiAlnum(c: char) { IsAsciiLetter(c) || IsDigit(c) }

  /** `pat` occurs in `s` starting at index `k`. */
  predicate OccursAt(s: string, pat: string, k: int) {
    0 <= k && k + |pat| <= |s| && s[k..k + |pat|] == pat
  }

  /** `s.indexOf(pat, from)` for a non-empty pattern; `None` stands for -1.
      The result is the first occurrence at or after `from`. */
  function IndexOf(s: string, pat: string, from: nat): (r: Option<nat>)
    requires |pat| > 0
    ensures r.Some? ==> from <= r.value && OccursAt(s, pat, r.value)
    ensures r.Some? ==> forall j :: from <= j < r.value ==> !OccursAt(s, pat, j)
    ensures r.None? ==> forall j :: from <= j ==> !OccursAt(s, pat, j)
    decreases |s| - from
  {
    if from + |pat| > |s| then None
    else if s[from..from + |pat|] == pat then Some(from)
    else IndexOf(s, pat, from + 1)
  }

  /** The pieces of `s[from..]` between the occurrences of `sep`, left to right. */
  function SplitFrom(s: string, sep: string, from: nat): (parts: seq<string>)
    requires |sep| > 0 && from <= |s|
    decreases |s| - from
  {
    match IndexOf(s, sep, from)
    case None => [s[from..]]
    case Some(k) => [s[from..k]] + SplitFrom(s, sep, k + |sep|)
  }

  /** `s.split(sep)` for a non-empty separator. */
  function Split(s: string, sep: string): (parts: seq<string>)
    requires |sep| > 0
  {
    SplitFrom(s, sep, 0)
  }

  /** Splitting never yields an empty list, and it yields a single piece
      exactly when `sep` does not occur from `from` on. */
  lemma {:induction false} SplitFromShape(s: string, sep: string, from: nat)
    requires |sep| > 0 && from <= |s|
    ensures |SplitFrom(s, sep, from)| >= 1
    ensures IndexOf(s, sep, from).None? <==> |SplitFrom(s, sep, from)| == 1
    decreases |s| - from
  {
    match IndexOf(s, sep, from)
    case None =>
    case Some(k) =>
      SplitFromShape(s, sep, k + |sep|);
  }

  /** A single-character pattern occurs exactly where that character stands. */
  lemma OccursAtChar(s: string, c: char, k: int)
    ensures OccursAt(s, [c], k) <==> 0 <= k < |s| && s[k] == c
  {
    if 0 <= k < |s| {
      assert s[k..k + 1] == [s[k]];
    }
  }

  /** When `sep` occurs in `s` at `k` and at no index at or after `k + |sep|`,
      and at no index before `k`, `s.split(sep)` is the two pieces around `k`. */
  lemma SplitAround(s: string, sep: string, k: nat)
    requires |sep| > 0 && OccursAt(s, sep, k)
    requires forall j :: 0 <= j < k ==> !OccursAt(s, sep, j)
    requires forall j :: k + |sep| <= j ==> !OccursAt(s, sep, j)
    ensures Split(s, sep) == [s[..k], s[k + |sep|..]]
  {
    assert IndexOf(s, sep, 0) == Some(k);
    assert IndexOf(s, sep, k + |sep|).None?;
    assert SplitFrom(s, sep, k + |sep|) == [s[k + |sep|..]];
  }

  /** Conversely, a split into exactly two pieces happens at the first
      occurrence `k` of `sep`, with no further occurrence from `k + |sep|` on. */
  lemma SplitTwoPieces(s: string, sep: string) returns (k: nat)
    requires |sep| > 0 && |Split(s, sep)| == 2
    ensures OccursAt(s, sep, k)
    ensures forall j :: 0 <= j < k ==> !OccursAt(s, sep, j)
    ensures forall j :: k + |sep| <= j ==> !OccursAt(s, sep, j)
    ensures Split(s, sep) == [s[..k], s[k + |sep|..]]
  {
    SplitFromShape(s, sep, 0);
    k := IndexOf(s, sep, 0).value;
    assert Split(s, sep) == [s[..k]] + SplitFrom(s, sep, k + |sep|);
    SplitFromShape(s, sep, k + |sep|);
  }
}
