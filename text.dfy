/** Character classes and the regular-expression scans the bot runs over message text.
    A global `match` returns the leftmost, longest matches one after another; the
    functions below compute exactly those matches by scanning positions left to right. */
module Text {

  /** `[0-9]` */
  predicate IsDigit(c: char)
  {
    '0' <= c <= '9'
  }

  predicate AllDigits(s: string)
  {
    forall i :: 0 <= i < |s| ==> IsDigit(s[i])
  }

  predicate HasDigit(s: string)
  {
    exists i :: 0 <= i < |s| && IsDigit(s[i])
  }

  /** End of the digit run starting at `p`: where a greedy `[0-9]+` stops. */
  function RunEnd(s: string, p: nat): (e: nat)
    requires p <= |s|
    ensures p <= e <= |s|
    ensures AllDigits(s[p..e])
    ensures e == |s| || !IsDigit(s[e])
    decreases |s| - p
  {
    if p < |s| && IsDigit(s[p]) then RunEnd(s, p + 1) else p
  }

  /** A run of digits that cannot be extended to the right ends where `RunEnd` says. */
  lemma {:induction false} RunEndExact(s: string, p: nat, q: nat)
    requires p <= q <= |s|
    requires AllDigits(s[p..q])
    requires q == |s| || !IsDigit(s[q])
    ensures RunEnd(s, p) == q
    decreases q - p
  {
    if p < q {
      assert IsDigit(s[p..q][0]);
      assert s[p + 1..q] == s[p..q][1..];
      RunEndExact(s, p + 1, q);
    }
  }

  /** A run never crosses a non-digit. */
  lemma {:induction false} RunEndStops(s: string, p: nat, m: nat)
    requires p <= m < |s| && !IsDigit(s[m])
    ensures RunEnd(s, p) <= m
    decreases m - p
  {
    if p < m && IsDigit(s[p]) {
      RunEndStops(s, p + 1, m);
    }
  }

  /** `s.match(/[0-9]+/g)` from position `p` on (the empty sequence stands for `null`). */
  function RunsFrom(s: string, p: nat): (runs: seq<string>)
    requires p <= |s|
    ensures forall r :: r in runs ==> r != [] && AllDigits(r)
    decreases |s| - p
  {
    if p == |s| then []
    else if IsDigit(s[p]) then
      var e := RunEnd(s, p);
      [s[p..e]] + RunsFrom(s, e)
    else RunsFrom(s, p + 1)
  }

  function DigitRuns(s: string): seq<string>
  {
    RunsFrom(s, 0)
  }

  /** The digit-run match finds something exactly when the text holds a digit. */
  lemma DigitRunsEmpty(s: string)
    ensures DigitRuns(s) == [] <==> !HasDigit(s)
  {
    if HasDigit(s) {
      var i :| 0 <= i < |s| && IsDigit(s[i]);
      RunsFromReaches(s, 0, i);
    } else {
      RunsFromNoDigit(s, 0);
    }
  }

  lemma {:induction false} RunsFromReaches(s: string, p: nat, i: nat)
    requires p <= i < |s| && IsDigit(s[i])
    ensures RunsFrom(s, p) != []
    decreases |s| - p
  {
    if !IsDigit(s[p]) {
      RunsFromReaches(s, p + 1, i);
    }
  }

  lemma {:induction false} RunsFromNoDigit(s: string, p: nat)
    requires p <= |s| && !HasDigit(s)
    ensures RunsFrom(s, p) == []
    decreases |s| - p
  {
    if p < |s| {
      RunsFromNoDigit(s, p + 1);
    }
  }

  /** Every maximal run of digits in `s` is one of the matches of `/[0-9]+/g`. */
  lemma {:induction false} MaximalRunListed(s: string, k: nat, p: nat, q: nat)
    requires k <= p < q <= |s|
    requires AllDigits(s[p..q])
    requires p == 0 || !IsDigit(s[p - 1])
    requires q == |s| || !IsDigit(s[q])
    ensures s[p..q] in RunsFrom(s, k)
    decreases |s| - k
  {
    assert IsDigit(s[p..q][0]);
    if k == p {
      RunEndExact(s, p, q);
    } else if IsDigit(s[k]) {
      RunEndStops(s, k, p - 1);
      MaximalRunListed(s, RunEnd(s, k), p, q);
    } else {
      MaximalRunListed(s, k + 1, p, q);
    }
  }

  predicate OccursAt(s: string, pat: string, j: nat)
  {
    j + |pat| <= |s| && s[j..j + |pat|] == pat
  }

  /** `String.prototype.indexOf(pat, k)`: the first position at or after `k` where `pat`
      occurs, or -1. */
  function IndexFrom(s: string, pat: string, k: nat): (r: int)
    ensures r == -1 || (k <= r && OccursAt(s, pat, r))
    ensures forall j :: k <= j && (r == -1 || j < r) ==> !OccursAt(s, pat, j)
    decreases |s| - k
  {
    if k + |pat| > |s| then -1
    else if s[k..k + |pat|] == pat then k
    else IndexFrom(s, pat, k + 1)
  }

  function IndexOf(s: string, pat: string): int
  {
    IndexFrom(s, pat, 0)
  }
}
