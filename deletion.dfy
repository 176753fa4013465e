/** `DeleteSchedules`: how a `/del …` message becomes one `RemoveSchedules` query. */
module Deletion {
  import opened Wrappers
  import opened Text
  import opened Numbers
  import opened Seqs
  import opened Queries
  import opened ChatIds
  import opened Store

  /** One match of `[0-9]+-[0-9]+`, by position: `s[start..dash]` and `s[dash + 1..end]`
      are the two digit runs around the `-`, and `left` and `right` their values. */
  datatype RangeMatch = RangeMatch(start: nat, dash: nat, end: nat, left: nat, right: nat)

  predicate IsRangeMatch(s: string, m: RangeMatch)
  {
    m.start < m.dash && m.dash + 1 < m.end <= |s| && s[m.dash] == '-'
    && AllDigits(s[m.start..m.dash]) && AllDigits(s[m.dash + 1..m.end])
    && (m.end == |s| || !IsDigit(s[m.end]))
    && m.left == DigitsValue(s[m.start..m.dash]) && m.right == DigitsValue(s[m.dash + 1..m.end])
  }

  /** `[0-9]+-[0-9]+` at position `p`. Backtracking cannot help a greedy first run: a
      shorter one is followed by a digit, not by `-`. */
  function RangeAt(s: string, p: nat): (m: Option<RangeMatch>)
    requires p <= |s|
    ensures m.Some? ==> m.value.start == p && IsRangeMatch(s, m.value)
  {
    var e := RunEnd(s, p);
    if p < e && e + 1 < |s| && s[e] == '-' && IsDigit(s[e + 1]) then
      var q := RunEnd(s, e + 1);
      Some(RangeMatch(p, e, q, DigitsValue(s[p..e]), DigitsValue(s[e + 1..q])))
    else None
  }

  /** `s.match(/[0-9]+-[0-9]+/g)` from position `p` on. */
  function RangesFrom(s: string, p: nat): (ms: seq<RangeMatch>)
    requires p <= |s|
    ensures forall k :: 0 <= k < |ms| ==> IsRangeMatch(s, ms[k]) && p <= ms[k].start
    decreases |s| - p
  {
    if p == |s| then []
    else
      match RangeAt(s, p)
      case Some(m) =>
        var rest := RangesFrom(s, m.end);
        assert forall k :: 1 <= k < |rest| + 1 ==> ([m] + rest)[k] == rest[k - 1];
        [m] + rest
      case None => RangesFrom(s, p + 1)
  }

  function Ranges(s: string): (ms: seq<RangeMatch>)
    ensures forall k :: 0 <= k < |ms| ==> IsRangeMatch(s, ms[k])
  {
    RangesFrom(s, 0)
  }

  /** `range.indexOf('-')` finds the dash between the two runs, so the two substrings the
      code converts are exactly the runs. */
  lemma DashIndex(s: string, m: RangeMatch)
    requires IsRangeMatch(s, m)
    ensures IndexOf(s[m.start..m.end], "-") == m.dash - m.start
    ensures s[m.start..m.end][..m.dash - m.start] == s[m.start..m.dash]
    ensures s[m.start..m.end][m.dash - m.start + 1..] == s[m.dash + 1..m.end]
  {
    var r, k := s[m.start..m.end], m.dash - m.start;
    assert OccursAt(r, "-", k) by {
      assert r[k..k + 1] == [s[m.dash]];
    }
    forall j | 0 <= j < k
      ensures !OccursAt(r, "-", j)
    {
      assert r[j] == s[m.start + j] == s[m.start..m.dash][j];
      assert IsDigit(r[j]);
      assert r[j..j + 1][0] == r[j];
    }
    var i := IndexOf(r, "-");
    assert i == -1 || OccursAt(r, "-", i);
    assert i != -1 && !(i < k) && !(k < i);
  }

  /** `leftNum` and `rightNum` after the swap at lines 102-106: the two numbers of the
      range, lower first. */
  function Endpoints(m: RangeMatch): (b: (nat, nat))
    ensures b.0 <= b.1 && {b.0, b.1} == {m.left, m.right}
  {
    if m.left > m.right then (m.right, m.left) else (m.left, m.right)
  }

  /** `lo, lo + 1, …, last`, empty when `last < lo`. */
  function Upto(lo: int, last: int): (r: seq<int>)
    ensures |r| == if last < lo then 0 else last - lo + 1
    ensures forall k :: 0 <= k < |r| ==> r[k] == lo + k
    decreases last - lo
  {
    if last < lo then [] else Upto(lo, last - 1) + [last]
  }

  /** The ids the inner loop at line 107 pushes for a range. */
  function Expand(lo: int, hi: int): seq<int>
  {
    Upto(lo, if hi - lo <= 10 then hi else lo + 10)
  }

  /** A range `lo-hi` contributes exactly the ids from `lo` to the smaller of `hi` and
      `lo + 10`: never more than eleven, and `lo` itself whenever `lo <= hi`. */
  lemma ExpandSpec(lo: int, hi: int)
    ensures |Expand(lo, hi)| <= 11
    ensures forall x :: x in Expand(lo, hi) <==> lo <= x <= hi && x <= lo + 10
  {
    var last := if hi - lo <= 10 then hi else lo + 10;
    var r := Upto(lo, last);
    forall x
      ensures x in r <==> lo <= x <= last
    {
      if lo <= x <= last {
        assert r[x - lo] == x;
      }
    }
  }

  /** `parseInt(nums[i], 10)` applied to every digit run. */
  function Values(runs: seq<string>): (vs: seq<int>)
    requires forall k :: 0 <= k < |runs| ==> AllDigits(runs[k])
    ensures |vs| == |runs|
    ensures forall k :: 0 <= k < |runs| ==> vs[k] == DigitsValue(runs[k])
  {
    if runs == [] then [] else Values(runs[..|runs| - 1]) + [DigitsValue(runs[|runs| - 1])]
  }

  /** Everything the range loop pushes, range by range. */
  function Expansions(ms: seq<RangeMatch>): seq<int>
  {
    if ms == [] then []
    else
      var b := Endpoints(ms[|ms| - 1]);
      Expansions(ms[..|ms| - 1]) + Expand(b.0, b.1)
  }

  /** What the handler does with the text: clear everything, complain, or remove `ids`
      with `query`. */
  datatype Resolution = ClearAll | Invalid | Remove(ids: seq<int>, query: string)

  /** The resolver as a whole: the `all` directive at index 5 (`"/del ".length`) wins;
      without any digit run there is nothing to delete; otherwise the runs and the range
      expansions, without duplicates and in ascending order, go into one query. The three
      outcomes: `all` at index 5 clears the chat; otherwise a text without any digit makes
      no store call; otherwise there is something to remove. */
  function Resolved(text: string): (r: Resolution)
    ensures r == ClearAll <==> IndexOf(text, "all") == 5
    ensures r == Invalid <==> IndexOf(text, "all") != 5 && !HasDigit(text)
    ensures r.Remove? <==> IndexOf(text, "all") != 5 && HasDigit(text)
  {
    DigitRunsEmpty(text);
    if IndexOf(text, "all") == |"/del "| then ClearAll
    else
      var runs := DigitRuns(text);
      if runs == [] then Invalid
      else
        var ids := Sort(Dedup(Values(runs) + Expansions(Ranges(text))));
        Remove(ids, Strip(Clauses(ids)))
  }

  /** Lines 97-110: every range pushes its ids onto `nums`. */
  method PushRanges(nums0: seq<int>, text: string, ranges: seq<RangeMatch>) returns (nums: seq<int>)
    requires forall k :: 0 <= k < |ranges| ==> IsRangeMatch(text, ranges[k])
    ensures nums == nums0 + Expansions(ranges)
  {
    nums := nums0;
    for i := 0 to |ranges|
      invariant nums == nums0 + Expansions(ranges[..i])
    {
      nums := PushRange(nums, text, ranges, i);
      ExpansionsSnoc(ranges, i);
    }
    assert ranges[..|ranges|] == ranges;
  }

  lemma ExpansionsSnoc(ms: seq<RangeMatch>, i: nat)
    requires i < |ms|
    ensures Expansions(ms[..i + 1]) == Expansions(ms[..i]) + Expand(Endpoints(ms[i]).0, Endpoints(ms[i]).1)
  {
    assert ms[..i + 1][..i] == ms[..i];
  }

  /** Lines 94-96: `parseInt` on every run, in place. */
  method ParseRuns(runs: seq<string>) returns (nums: seq<int>)
    requires forall k :: 0 <= k < |runs| ==> AllDigits(runs[k])
    ensures nums == Values(runs)
  {
    nums := [];
    for i := 0 to |runs|
      invariant nums == Values(runs[..i])
    {
      nums := nums + [DigitsValue(runs[i])];
      assert runs[..i + 1][..i] == runs[..i];
    }
    assert runs[..|runs|] == runs;
  }

  /** Lines 98-106 for one range: split at the dash, convert both halves with unary `+`,
      swap them if reversed, then push. */
  method PushRange(nums: seq<int>, text: string, ranges: seq<RangeMatch>, i: nat)
    returns (out: seq<int>)
    requires forall k :: 0 <= k < |ranges| ==> IsRangeMatch(text, ranges[k])
    requires i < |ranges|
    ensures out == nums + Expand(Endpoints(ranges[i]).0, Endpoints(ranges[i]).1)
  {
    var m := ranges[i];
    var range := text[m.start..m.end];
    var index := IndexOf(range, "-");
    DashIndex(text, m);
    var left: nat := DigitsValue(range[..index]);
    var right: nat := DigitsValue(range[index + 1..]);
    if left > right {
      left, right := right, left;
    }
    assert (left, right) == Endpoints(m);
    out := PushSpan(nums, left, right);
  }

  /** Line 107: `for (j = lo; j <= hi && j - lo <= 10; j++) nums.push(j)`. */
  method PushSpan(nums: seq<int>, lo: int, hi: int) returns (out: seq<int>)
    requires lo <= hi
    ensures out == nums + Expand(lo, hi)
  {
    out := nums;
    var j := lo;
    while j <= hi && j - lo <= 10
      invariant lo <= j <= hi + 1 && j <= lo + 11
      invariant out == nums + Upto(lo, j - 1)
      decreases hi - j
    {
      out := out + [j];
      j := j + 1;
    }
  }

  /** Lines 88-122: the `all` test, the collected ids, then the filter, the sort and the
      query built clause by clause. */
  method Resolve(text: string) returns (r: Resolution)
    ensures r == Resolved(text)
  {
    if IndexOf(text, "all") == |"/del "| {
      return ClearAll;
    }
    var nums := ParseRuns(DigitRuns(text));
    nums := PushRanges(nums, text, Ranges(text));
    if DigitRuns(text) == [] {
      return Invalid;
    }
    nums := Dedup(nums);
    nums := Sort(nums);
    var query := "";
    for i := 0 to |nums|
      invariant query == Clauses(nums[..i])
    {
      query := query + Clause(nums[i]);
      assert nums[..i + 1][..i] == nums[..i];
    }
    assert nums[..|nums|] == nums;
    query := Strip(query);
    return Remove(nums, query);
  }

  /** The store calls for a resolution. */
  function CallsFor(chat: string, r: Resolution): seq<StoreCall>
  {
    match r
    case ClearAll => [ClearAllSchedules(chat)]
    case Invalid => []
    case Remove(_, query) => [RemoveSchedules(chat, query), ReorderSchedules(chat)]
  }

  function ReplyFor(r: Resolution): Reply
  {
    match r
    case ClearAll => Cleared
    case Invalid => InvalidDelete
    case Remove(ids, _) => Deleted(ids)
  }

  /** `DeleteSchedules`: the chat's key, the resolver, then the store calls and the reply. */
  method DeleteSchedules(db: Db, chatId: int, text: string) returns (reply: Reply)
    requires db.Valid()
    modifies db
    ensures db.Valid() && db.Counted()
    ensures db.calls == old(db.calls) + CallsFor(FormatChatId(chatId), Resolved(text))
    ensures reply == ReplyFor(Resolved(text))
  {
    var chat := FormatChatId(chatId);
    var r := Resolve(text);
    match r
    case ClearAll =>
      db.Issue(ClearAllSchedules(chat));
      reply := Cleared;
    case Invalid =>
      reply := InvalidDelete;
    case Remove(ids, query) =>
      ghost var before := db.calls;
      db.Issue(RemoveSchedules(chat, query));
      db.Issue(ReorderSchedules(chat));
      AppendAssoc(before, [RemoveSchedules(chat, query)], [ReorderSchedules(chat)]);
      assert [RemoveSchedules(chat, query)] + [ReorderSchedules(chat)] == CallsFor(chat, r);
      reply := Deleted(ids);
  }

  /** The ids removed are duplicate-free and strictly ascending, are exactly the digit runs
      plus the range expansions, and the query joins them with ` OR ` and nothing after. */
  lemma ResolvedIds(text: string)
    requires Resolved(text).Remove?
    ensures var ids := Resolved(text).ids;
      ids != [] && Ascending(ids) && NoDup(ids)
      && (forall x :: x in ids <==>
            x in Values(DigitRuns(text)) || x in Expansions(Ranges(text)))
      && Resolved(text).query == OrJoin(ids)
  {
    var runs := DigitRuns(text);
    var nums := Values(runs) + Expansions(Ranges(text));
    FilterThenSort(nums);
    assert Values(runs)[0] in nums;
    StripClauses(Sort(Dedup(nums)));
  }

  /** `filter` on first occurrence followed by the numeric `sort`: the distinct ids in
      strictly ascending order. */
  lemma FilterThenSort(nums: seq<int>)
    ensures Ascending(Sort(Dedup(nums))) && NoDup(Sort(Dedup(nums)))
    ensures forall x :: x in Sort(Dedup(nums)) <==> x in nums
  {
    DedupSpec(nums);
    SortAscending(Dedup(nums));
  }

  /** Any other ascending list of the same ids is the same list: the order is not a choice. */
  lemma ResolvedIdsUnique(text: string, xs: seq<int>)
    requires Resolved(text).Remove?
    requires Ascending(xs)
    requires forall x :: x in xs <==> x in Values(DigitRuns(text)) || x in Expansions(Ranges(text))
    ensures xs == Resolved(text).ids
  {
    ResolvedIds(text);
    AscendingUnique(xs, Resolved(text).ids);
  }

  /** Every id a range expands to is in the expansions of the message. */
  lemma {:induction false} ExpansionsInclude(ms: seq<RangeMatch>, k: nat, x: int)
    requires k < |ms| && x in Expand(Endpoints(ms[k]).0, Endpoints(ms[k]).1)
    ensures x in Expansions(ms)
  {
    if k < |ms| - 1 {
      ExpansionsInclude(ms[..|ms| - 1], k, x);
    }
  }

  /** Each range `a-b` of the message contributes exactly `lo..min(hi, lo + 10)` with
      `lo <= hi` its two numbers: at most eleven ids, all of them removed. */
  lemma RangeContribution(text: string, k: nat)
    requires Resolved(text).Remove? && k < |Ranges(text)|
    ensures var m := Ranges(text)[k];
      var b := Endpoints(m);
      var lo, hi := b.0, b.1;
      lo <= hi && {lo, hi} == {DigitsValue(text[m.start..m.dash]), DigitsValue(text[m.dash + 1..m.end])}
      && |Expand(lo, hi)| <= 11
      && (forall x :: x in Expand(lo, hi) <==> lo <= x <= hi && x <= lo + 10)
      && (forall x :: x in Expand(lo, hi) ==> x in Resolved(text).ids)
  {
    var b := Endpoints(Ranges(text)[k]);
    ExpandSpec(b.0, b.1);
    ExpansionRemoved(text, k);
  }

  lemma ExpansionRemoved(text: string, k: nat)
    requires Resolved(text).Remove? && k < |Ranges(text)|
    ensures var b := Endpoints(Ranges(text)[k]);
      forall x :: x in Expand(b.0, b.1) ==> x in Resolved(text).ids
  {
    var ms := Ranges(text);
    var b := Endpoints(ms[k]);
    ResolvedIds(text);
    forall x | x in Expand(b.0, b.1)
      ensures x in Resolved(text).ids
    {
      ExpansionsInclude(ms, k, x);
    }
  }

  /** Where the range scan may be: at the ends of the text, after or before a non-digit, or
      inside a digit run whose previous position did not start a range. */
  predicate Fresh(s: string, p: nat)
    requires p <= |s|
  {
    p == 0 || p == |s| || !IsDigit(s[p - 1]) || !IsDigit(s[p]) || RangeAt(s, p - 1).None?
  }

  lemma RangeAtInRun(s: string, p: nat)
    requires 0 < p < |s| && IsDigit(s[p - 1]) && IsDigit(s[p])
    ensures RangeAt(s, p - 1).None? <==> RangeAt(s, p).None?
  {
    assert RunEnd(s, p - 1) == RunEnd(s, p);
  }

  /** A range match always starts at the beginning of a digit run. */
  lemma {:induction false} RangesStartClean(s: string, p: nat)
    requires p <= |s| && Fresh(s, p)
    ensures forall m :: m in RangesFrom(s, p) ==> m.start == 0 || !IsDigit(s[m.start - 1])
    decreases |s| - p
  {
    if p < |s| {
      match RangeAt(s, p)
      case Some(m) =>
        assert m.end == |s| || !IsDigit(s[m.end]);
        RangesStartClean(s, m.end);
        FoundRangeStartsClean(s, p);
      case None =>
        RangesStartClean(s, p + 1);
        assert RangesFrom(s, p) == RangesFrom(s, p + 1);
    }
  }

  /** The step of `RangesStartClean` where a range is found at `p`. */
  lemma FoundRangeStartsClean(s: string, p: nat)
    requires p < |s| && Fresh(s, p) && RangeAt(s, p).Some?
    requires forall m :: m in RangesFrom(s, RangeAt(s, p).value.end) ==> m.start == 0 || !IsDigit(s[m.start - 1])
    ensures forall m :: m in RangesFrom(s, p) ==> m.start == 0 || !IsDigit(s[m.start - 1])
  {
    var m := RangeAt(s, p).value;
    if p > 0 && IsDigit(s[p - 1]) {
      RangeAtInRun(s, p);
    }
    assert m.start == 0 || !IsDigit(s[m.start - 1]);
    var rest := RangesFrom(s, m.end);
    assert RangesFrom(s, p) == [m] + rest;
    forall x | x in RangesFrom(s, p)
      ensures x.start == 0 || !IsDigit(s[x.start - 1])
    {
      if x != m {
        assert x in rest;
      }
    }
  }

  lemma ValuesMember(runs: seq<string>, r: string)
    requires forall k :: 0 <= k < |runs| ==> AllDigits(runs[k])
    requires r in runs
    ensures AllDigits(r) && DigitsValue(r) in Values(runs)
  {
    var k :| 0 <= k < |runs| && runs[k] == r;
    assert Values(runs)[k] == DigitsValue(r);
  }

  /** Every digit run of the message is removed. */
  lemma RunRemoved(text: string, r: string)
    requires Resolved(text).Remove? && r in DigitRuns(text)
    ensures AllDigits(r) && DigitsValue(r) in Resolved(text).ids
  {
    ValuesMember(DigitRuns(text), r);
    ResolvedIds(text);
  }

  /** A range match of the message lies within it and starts a digit run. */
  lemma RangeBounds(text: string, k: nat)
    requires k < |Ranges(text)|
    ensures var m := Ranges(text)[k];
      IsRangeMatch(text, m) && (m.start == 0 || !IsDigit(text[m.start - 1]))
  {
    RangesStartClean(text, 0);
    assert Ranges(text)[k] in RangesFrom(text, 0);
  }

  /** Both halves of every range match are digit-run matches too. */
  lemma RangeHalvesAreRuns(text: string, k: nat)
    requires k < |Ranges(text)|
    ensures var m := Ranges(text)[k];
      text[m.start..m.dash] in DigitRuns(text) && text[m.dash + 1..m.end] in DigitRuns(text)
  {
    var m := Ranges(text)[k];
    RangeBounds(text, k);
    assert !IsDigit(text[m.dash]);
    MaximalRunListed(text, 0, m.start, m.dash);
    MaximalRunListed(text, 0, m.dash + 1, m.end);
  }

  /** Both numbers of every range are removed, even when the eleven-id cap cuts the
      expansion short: the digit-run match has already picked each of them up. */
  lemma RangeEndpointsRemoved(text: string, k: nat)
    requires Resolved(text).Remove? && k < |Ranges(text)|
    ensures Endpoints(Ranges(text)[k]).0 in Resolved(text).ids
    ensures Endpoints(Ranges(text)[k]).1 in Resolved(text).ids
  {
    var m := Ranges(text)[k];
    RangeNumbersRemoved(text, k);
    var b := Endpoints(m);
    assert (b.0 == m.left || b.0 == m.right) && (b.1 == m.left || b.1 == m.right);
  }

  /** The two numbers of a range, as written, are removed. */
  lemma RangeNumbersRemoved(text: string, k: nat)
    requires Resolved(text).Remove? && k < |Ranges(text)|
    ensures Ranges(text)[k].left in Resolved(text).ids && Ranges(text)[k].right in Resolved(text).ids
  {
    RangeNumbersAreRunValues(text, k);
    ResolvedIds(text);
  }

  /** The two numbers of a range are values of digit runs of the message. */
  lemma RangeNumbersAreRunValues(text: string, k: nat)
    requires k < |Ranges(text)|
    ensures Ranges(text)[k].left in Values(DigitRuns(text)) && Ranges(text)[k].right in Values(DigitRuns(text))
  {
    var m := Ranges(text)[k];
    RangeBounds(text, k);
    RangeHalvesAreRuns(text, k);
    ValuesMember(DigitRuns(text), text[m.start..m.dash]);
    ValuesMember(DigitRuns(text), text[m.dash + 1..m.end]);
  }
}
