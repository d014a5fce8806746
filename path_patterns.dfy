/**
 * The two regular expressions of src/lib/router.ts, written as explicit parsers.
 *
 *   delta regex       /((?:\/\w+)+\/)(?:(\d+))/    used by RouterBloc.$paginationDelta
 *   paginationRegex   /((?:\/\w+)+)\/(.+)/          used by PaginatedRouteMatcher and
 *                                                   InWidgetPaginationMatcherHelper
 *
 * Neither is anchored, and `exec` reports one match: JavaScript's backtracking engine tries
 * start positions from left to right and, at a start, takes the first success in its order of
 * preference: more repetitions of the greedy group first, then longer runs of the final greedy
 * atom. Inside a repetition `\w+` can only be followed by `/`, so every successful repetition
 * takes a maximal word run; preferring more repetitions is therefore preferring a later end of
 * group 1. The reported match is thus the one with the least start, then the greatest end of
 * group 1, then the greatest end of the last group; `IsReportedDeltaMatch` and
 * `IsReportedPageMatch` say so, and `DeltaExec` and `PaginationExec` are proved to return it.
 */
module PathPatterns {
  import opened Wrappers
  import opened JsNumbers

  /** `\w`: an ASCII letter, a digit or `_`. */
  predicate IsWordChar(c: char) {
    ('A' <= c <= 'Z') || ('a' <= c <= 'z') || IsDecimalDigit(c) || c == '_'
  }

  /** The characters that `.` does not match. */
  predicate IsLineTerminator(c: char) {
    c == '\n' || c == '\r' || c == '\U{2028}' || c == '\U{2029}'
  }

  /** `s[i..j]` is a word of the language of `(?:\/\w+)+`: one or more `/` each followed by a word run. */
  predicate IsSegments(s: string, i: int, j: int) {
    && 0 <= i < j <= |s|
    && s[i] == '/'
    && IsWordChar(s[j - 1])
    && (forall k :: i <= k < j ==> s[k] == '/' || IsWordChar(s[k]))
    && (forall k :: i <= k < j - 1 && s[k] == '/' ==> IsWordChar(s[k + 1]))
  }

  /** Where the delta regex matches: group 1 is `s[i..p]`, group 2 (the page digits) `s[p..d]`. */
  predicate DeltaMatchesAt(s: string, i: int, p: int, d: int) {
    && 0 <= i && i + 2 <= p < d <= |s|
    && IsSegments(s, i, p - 1)
    && s[p - 1] == '/'
    && forall k :: p <= k < d ==> IsDecimalDigit(s[k])
  }

  /** Where paginationRegex matches: group 1 is `s[i..p]`, then `/`, group 2 is `s[p + 1..e]`. */
  predicate PageMatchesAt(s: string, i: int, p: int, e: int) {
    && 0 <= i < p
    && p + 1 < e <= |s|
    && IsSegments(s, i, p)
    && s[p] == '/'
    && forall k :: p < k < e ==> !IsLineTerminator(s[k])
  }

  /** The positions of one match: where it starts, where group 1 ends, where it ends. */
  datatype Match = Match(start: nat, split: nat, end: nat)

  /** A match at `(i, p, e)` is preferred by `exec` to none over `m`. */
  predicate NotPreferredTo(m: Match, i: int, p: int, e: int) {
    m.start < i || (m.start == i && (p < m.split || (p == m.split && e <= m.end)))
  }

  /** `m` is the match `exec` of the delta regex reports on `s`. */
  ghost predicate IsReportedDeltaMatch(s: string, m: Match) {
    && DeltaMatchesAt(s, m.start, m.split, m.end)
    && forall i, p, d :: DeltaMatchesAt(s, i, p, d) ==> NotPreferredTo(m, i, p, d)
  }

  /** `m` is the match `paginationRegex.exec` reports on `s`. */
  ghost predicate IsReportedPageMatch(s: string, m: Match) {
    && PageMatchesAt(s, m.start, m.split, m.end)
    && forall i, p, e :: PageMatchesAt(s, i, p, e) ==> NotPreferredTo(m, i, p, e)
  }

  // ---------------------------------------------------------------------------------------------
  // Scanning

  /** Position `k` may lie inside a word of `(?:\/\w+)+` that goes on past it. */
  predicate ChainStep(s: string, k: int)
    requires 0 <= k < |s|
  {
    IsWordChar(s[k]) || (s[k] == '/' && k + 1 < |s| && IsWordChar(s[k + 1]))
  }

  /** The end of the longest run of chain steps from `i`. */
  function ChainEnd(s: string, i: nat): (e: nat)
    requires i <= |s|
    ensures i <= e <= |s|
    ensures forall k :: i <= k < e ==> ChainStep(s, k)
    ensures e < |s| ==> !ChainStep(s, e)
    decreases |s| - i
  {
    if i < |s| && ChainStep(s, i) then ChainEnd(s, i + 1) else i
  }

  /** The end of the longest run of decimal digits from `i` (the greedy `\d+`). */
  function DigitEnd(s: string, i: nat): (e: nat)
    requires i <= |s|
    ensures i <= e <= |s|
    ensures forall k :: i <= k < e ==> IsDecimalDigit(s[k])
    ensures e < |s| ==> !IsDecimalDigit(s[e])
    decreases |s| - i
  {
    if i < |s| && IsDecimalDigit(s[i]) then DigitEnd(s, i + 1) else i
  }

  /** The end of the longest run of characters other than line terminators from `i` (the greedy `.+`). */
  function LineEnd(s: string, i: nat): (e: nat)
    requires i <= |s|
    ensures i <= e <= |s|
    ensures forall k :: i <= k < e ==> !IsLineTerminator(s[k])
    ensures e < |s| ==> IsLineTerminator(s[e])
    decreases |s| - i
  {
    if i < |s| && !IsLineTerminator(s[i]) then LineEnd(s, i + 1) else i
  }

  // ---------------------------------------------------------------------------------------------
  // The delta regex

  /** `p` can end group 1 of the delta regex: a `/` before it and a digit at it. */
  predicate DeltaSplitOk(s: string, p: int) {
    1 <= p < |s| && s[p - 1] == '/' && IsDecimalDigit(s[p])
  }

  /** The greatest `p` in `[lo, q]` at which group 1 of the delta regex can end. */
  function LastDeltaSplit(s: string, lo: nat, q: nat): (r: Option<nat>)
    requires 1 <= lo && q <= |s|
    ensures r.Some? ==> lo <= r.value <= q && DeltaSplitOk(s, r.value)
    ensures r.Some? ==> forall p :: r.value < p <= q ==> !DeltaSplitOk(s, p)
    ensures r.None? ==> forall p :: lo <= p <= q ==> !DeltaSplitOk(s, p)
    decreases q
  {
    if q < lo then None
    else if DeltaSplitOk(s, q) then Some(q)
    else LastDeltaSplit(s, lo, q - 1)
  }

  /** A delta match starting at `i` is exactly a split after a chain of segments and a digit run after it. */
  lemma DeltaMatchesAtIff(s: string, i: nat, p: int, d: int)
    requires i < |s|
    ensures DeltaMatchesAt(s, i, p, d) <==>
              s[i] == '/' && i + 2 <= p <= ChainEnd(s, i) && DeltaSplitOk(s, p) && p < d <= DigitEnd(s, p)
  {
    var e := ChainEnd(s, i);
    if DeltaMatchesAt(s, i, p, d) {
      forall k | i <= k < p ensures ChainStep(s, k) {
        if k == p - 1 {
          assert IsDecimalDigit(s[p]);
        } else if k < p - 2 && s[k] == '/' {
          assert IsWordChar(s[k + 1]);
        }
      }
    }
    if s[i] == '/' && i + 2 <= p <= e && DeltaSplitOk(s, p) && p < d <= DigitEnd(s, p) {
      assert ChainStep(s, p - 2);
      forall k | i <= k < p - 1 ensures s[k] == '/' || IsWordChar(s[k]) {
        assert ChainStep(s, k);
      }
      forall k | i <= k < p - 2 && s[k] == '/' ensures IsWordChar(s[k + 1]) {
        assert ChainStep(s, k);
      }
      assert IsSegments(s, i, p - 1);
    }
  }

  /** The delta match `exec` would report if the search started, and had to succeed, at `i`. */
  function DeltaExecAt(s: string, i: nat): (r: Option<Match>)
    requires i < |s|
    ensures r.Some? ==> r.value.start == i && DeltaMatchesAt(s, i, r.value.split, r.value.end)
    ensures r.Some? ==> forall p, d :: DeltaMatchesAt(s, i, p, d) ==> NotPreferredTo(r.value, i, p, d)
    ensures r.None? ==> forall p, d :: !DeltaMatchesAt(s, i, p, d)
  {
    if s[i] != '/' then
      assert forall p, d :: !DeltaMatchesAt(s, i, p, d);
      None
    else
      var e := ChainEnd(s, i);
      match LastDeltaSplit(s, i + 2, e)
      case None =>
        assert forall p, d :: !DeltaMatchesAt(s, i, p, d) by {
          forall p, d ensures !DeltaMatchesAt(s, i, p, d) { DeltaMatchesAtIff(s, i, p, d); }
        }
        None
      case Some(p) =>
        var m := Match(i, p, DigitEnd(s, p));
        assert DeltaMatchesAt(s, i, p, m.end) by { DeltaMatchesAtIff(s, i, p, m.end); }
        assert forall p', d :: DeltaMatchesAt(s, i, p', d) ==> NotPreferredTo(m, i, p', d) by {
          forall p', d | DeltaMatchesAt(s, i, p', d) ensures NotPreferredTo(m, i, p', d) {
            DeltaMatchesAtIff(s, i, p', d);
          }
        }
        Some(m)
  }

  /** The leftmost delta match starting at or after `i`. */
  function DeltaExecFrom(s: string, i: nat): (r: Option<Match>)
    requires i <= |s|
    ensures r.Some? ==> i <= r.value.start && DeltaMatchesAt(s, r.value.start, r.value.split, r.value.end)
    ensures r.Some? ==> forall j, p, d :: i <= j && DeltaMatchesAt(s, j, p, d) ==> NotPreferredTo(r.value, j, p, d)
    ensures r.None? ==> forall j, p, d :: i <= j ==> !DeltaMatchesAt(s, j, p, d)
    decreases |s| - i
  {
    if i == |s| then None
    else
      match DeltaExecAt(s, i)
      case Some(m) => Some(m)
      case None => DeltaExecFrom(s, i + 1)
  }

  /** `exec` of the delta regex: the reported match, or `None` (JavaScript's `null`) when there is none. */
  function DeltaExec(s: string): (r: Option<Match>)
    ensures r.Some? ==> IsReportedDeltaMatch(s, r.value)
    ensures r.None? ==> forall i, p, d :: !DeltaMatchesAt(s, i, p, d)
  {
    DeltaExecFrom(s, 0)
  }

  // ---------------------------------------------------------------------------------------------
  // paginationRegex

  /** `p` can end group 1 of paginationRegex: a `/` at it and a character `.` matches after it. */
  predicate PageSplitOk(s: string, p: int) {
    0 <= p && p + 1 < |s| && s[p] == '/' && !IsLineTerminator(s[p + 1])
  }

  /** The greatest `p` in `[lo, q]` at which group 1 of paginationRegex can end. */
  function LastPageSplit(s: string, lo: nat, q: nat): (r: Option<nat>)
    requires q <= |s|
    ensures r.Some? ==> lo <= r.value <= q && PageSplitOk(s, r.value)
    ensures r.Some? ==> forall p :: r.value < p <= q ==> !PageSplitOk(s, p)
    ensures r.None? ==> forall p :: lo <= p <= q ==> !PageSplitOk(s, p)
    decreases q
  {
    if q < lo then None
    else if PageSplitOk(s, q) then Some(q)
    else if q == 0 then None
    else LastPageSplit(s, lo, q - 1)
  }

  /** A pagination match starting at `i` is exactly a `/` after a chain of segments and a rest after it. */
  lemma PageMatchesAtIff(s: string, i: nat, p: int, e: int)
    requires i < |s|
    ensures PageMatchesAt(s, i, p, e) <==>
              s[i] == '/' && i < p <= ChainEnd(s, i) && PageSplitOk(s, p) && p + 1 < e <= LineEnd(s, p + 1)
  {
    var c := ChainEnd(s, i);
    if PageMatchesAt(s, i, p, e) {
      forall k | i <= k < p ensures ChainStep(s, k) {
        if k < p - 1 && s[k] == '/' {
          assert IsWordChar(s[k + 1]);
        }
      }
    }
    if s[i] == '/' && i < p <= c && PageSplitOk(s, p) && p + 1 < e <= LineEnd(s, p + 1) {
      assert ChainStep(s, p - 1);
      forall k | i <= k < p ensures s[k] == '/' || IsWordChar(s[k]) {
        assert ChainStep(s, k);
      }
      forall k | i <= k < p - 1 && s[k] == '/' ensures IsWordChar(s[k + 1]) {
        assert ChainStep(s, k);
      }
      assert IsSegments(s, i, p);
    }
  }

  /** The pagination match `exec` would report if the search started, and had to succeed, at `i`. */
  function PageExecAt(s: string, i: nat): (r: Option<Match>)
    requires i < |s|
    ensures r.Some? ==> r.value.start == i && PageMatchesAt(s, i, r.value.split, r.value.end)
    ensures r.Some? ==> forall p, e :: PageMatchesAt(s, i, p, e) ==> NotPreferredTo(r.value, i, p, e)
    ensures r.None? ==> forall p, e :: !PageMatchesAt(s, i, p, e)
  {
    if s[i] != '/' then
      assert forall p, e :: !PageMatchesAt(s, i, p, e);
      None
    else
      var c := ChainEnd(s, i);
      match LastPageSplit(s, i + 1, c)
      case None =>
        assert forall p, e :: !PageMatchesAt(s, i, p, e) by {
          forall p, e ensures !PageMatchesAt(s, i, p, e) { PageMatchesAtIff(s, i, p, e); }
        }
        None
      case Some(p) =>
        var m := Match(i, p, LineEnd(s, p + 1));
        assert PageMatchesAt(s, i, p, m.end) by { PageMatchesAtIff(s, i, p, m.end); }
        assert forall p', e :: PageMatchesAt(s, i, p', e) ==> NotPreferredTo(m, i, p', e) by {
          forall p', e | PageMatchesAt(s, i, p', e) ensures NotPreferredTo(m, i, p', e) {
            PageMatchesAtIff(s, i, p', e);
          }
        }
        Some(m)
  }

  /** The leftmost pagination match starting at or after `i`. */
  function PageExecFrom(s: string, i: nat): (r: Option<Match>)
    requires i <= |s|
    ensures r.Some? ==> i <= r.value.start && PageMatchesAt(s, r.value.start, r.value.split, r.value.end)
    ensures r.Some? ==> forall j, p, e :: i <= j && PageMatchesAt(s, j, p, e) ==> NotPreferredTo(r.value, j, p, e)
    ensures r.None? ==> forall j, p, e :: i <= j ==> !PageMatchesAt(s, j, p, e)
    decreases |s| - i
  {
    if i == |s| then None
    else
      match PageExecAt(s, i)
      case Some(m) => Some(m)
      case None => PageExecFrom(s, i + 1)
  }

  /** `paginationRegex.exec`: the reported match, or `None` (JavaScript's `null`) when there is none. */
  function PaginationExec(s: string): (r: Option<Match>)
    ensures r.Some? ==> IsReportedPageMatch(s, r.value)
    ensures r.None? ==> forall i, p, e :: !PageMatchesAt(s, i, p, e)
  {
    PageExecFrom(s, 0)
  }

  // ---------------------------------------------------------------------------------------------
  // What the two regexes report on the paths the router builds

  /** `P` is a whole path of segments, `/a/b/c`: the language of `(?:\/\w+)+`. */
  predicate IsSegmentPath(P: string) {
    IsSegments(P, 0, |P|)
  }

  /** Segments, a `/` and a rest without `/` or line terminators: group 1 is the segments, group 2 the rest. */
  lemma {:induction false} PaginationOfSegmentsAndRest(P: string, rest: string)
    requires IsSegmentPath(P)
    requires rest != [] && forall k :: 0 <= k < |rest| ==> rest[k] != '/' && !IsLineTerminator(rest[k])
    ensures PaginationExec(P + "/" + rest) == Some(Match(0, |P|, |P| + 1 + |rest|))
  {
    var s := P + "/" + rest;
    forall k | 0 <= k < |P| ensures s[k] == P[k] { }
    forall k | |P| < k < |s| ensures s[k] == rest[k - |P| - 1] { }
    assert IsSegments(s, 0, |P|);
    assert PageMatchesAt(s, 0, |P|, |s|);
    var m := PaginationExec(s).value;
    assert NotPreferredTo(m, 0, |P|, |s|);
  }

  /** Segments ending in `/` and then digits: group 1 is the segments with the `/`, group 2 the digits. */
  lemma {:induction false} DeltaOfSegmentsAndDigits(A: string, ds: string)
    requires 2 <= |A| && IsSegments(A, 0, |A| - 1) && A[|A| - 1] == '/'
    requires ds != [] && forall k :: 0 <= k < |ds| ==> IsDecimalDigit(ds[k])
    ensures DeltaExec(A + ds) == Some(Match(0, |A|, |A| + |ds|))
  {
    var s := A + ds;
    forall k | 0 <= k < |A| ensures s[k] == A[k] { }
    forall k | |A| <= k < |s| ensures s[k] == ds[k - |A|] { }
    assert IsSegments(s, 0, |A| - 1);
    assert DeltaMatchesAt(s, 0, |A|, |s|);
    var m := DeltaExec(s).value;
    assert NotPreferredTo(m, 0, |A|, |s|);
  }

  /** Without a digit right after some `/`, the delta regex matches nowhere. */
  lemma NoDigitAfterSlash(s: string)
    requires forall k :: 0 < k < |s| && s[k - 1] == '/' ==> !IsDecimalDigit(s[k])
    ensures DeltaExec(s) == None
  {
  }

  /** A path with fewer than two `/` matches neither regex; `/baz` is not paginated. */
  lemma NoMatchWithoutTwoSlashes(s: string)
    requires forall i, j :: 0 <= i < j < |s| && s[i] == '/' ==> s[j] != '/'
    ensures DeltaExec(s) == None
    ensures PaginationExec(s) == None
  {
  }

  /** Group 1 of a delta match is a word of segments followed by `/`. */
  lemma DeltaGroupOne(s: string, i: int, p: int, d: int)
    requires DeltaMatchesAt(s, i, p, d)
    ensures 2 <= |s[i..p]| && IsSegments(s[i..p], 0, |s[i..p]| - 1) && s[i..p][|s[i..p]| - 1] == '/'
  {
    var A := s[i..p];
    forall k | 0 <= k < |A| ensures A[k] == s[i + k] { }
  }

  /** Group 1 of a `paginationRegex` match is a whole path of segments. */
  lemma PageGroupOne(s: string, i: int, p: int, e: int)
    requires PageMatchesAt(s, i, p, e)
    ensures IsSegmentPath(s[i..p])
  {
    var P := s[i..p];
    forall k | 0 <= k < |P| ensures P[k] == s[i + k] { }
  }
}
