/** Admission control of `HandleTextMessage` (lines 410-446): which of the dates found in a
    message become drafts. The counter `count` starts at 1 and grows by one per staged
    draft; a new text is staged only while `count + schedulesCount < MaximumCountOfSchedules`. */
module Admission {
  import opened Wrappers
  import opened Store

  /** A date the parser found: its text (`parsedDate.string`) and what `ProcessParsedDate`
      made of it, `None` standing for `undefined`. */
  datatype Candidate = Candidate(text: string, params: Option<DateParams>)

  /** What happens to one candidate. */
  datatype Verdict =
    | AlreadyScheduled  // `GetScheduleByText` found it: reported, not staged
    | Staged            // a new draft
    | Unparsable        // within capacity but `ProcessParsedDate` gave nothing
    | OverCapacity      // refused: the chat is full

  function StagedCount(vs: seq<Verdict>): nat
  {
    if vs == [] then 0
    else StagedCount(vs[..|vs| - 1]) + (if vs[|vs| - 1] == Staged then 1 else 0)
  }

  /** The test at lines 414-419 for one candidate, with `staged` drafts so far
      (`count == 1 + staged`). */
  function Judge(c: Candidate, stored: set<string>, staged: nat, schedulesCount: int, max: int): (v: Verdict)
    ensures v == AlreadyScheduled <==> c.text in stored
    ensures v == Staged || v == Unparsable <==> c.text !in stored && schedulesCount + staged < max - 1
    ensures v == Staged ==> c.params.Some?
  {
    if c.text in stored then AlreadyScheduled
    else if 1 + staged + schedulesCount < max then
      if c.params.Some? then Staged else Unparsable
    else OverCapacity
  }

  /** The verdicts of the loop at line 412, candidate by candidate. `stored` holds the texts
      `GetScheduleByText` finds in the chat. */
  function Verdicts(cs: seq<Candidate>, stored: set<string>, schedulesCount: int, max: int): (vs: seq<Verdict>)
    ensures |vs| == |cs|
  {
    if cs == [] then []
    else
      var init := Verdicts(cs[..|cs| - 1], stored, schedulesCount, max);
      init + [Judge(cs[|cs| - 1], stored, StagedCount(init), schedulesCount, max)]
  }

  /** `new Schedule(chatID, 0, parsedDate.string, username, target_date, period_time,
      max_date)`. */
  function MakeSchedule(chat: string, username: string, c: Candidate): Schedule
    requires c.params.Some?
  {
    var p := c.params.value;
    Schedule(chat, 0, c.text, username, p.targetDate, p.periodTime, p.maxDate)
  }

  /** The drafts the loop pushes onto `pendingSchedules[chatID]`, in order. */
  function Drafts(chat: string, username: string, cs: seq<Candidate>, stored: set<string>,
                  schedulesCount: int, max: int): (ds: seq<Schedule>)
    ensures |ds| <= |cs|
  {
    if cs == [] then []
    else
      var init := cs[..|cs| - 1];
      var c := cs[|cs| - 1];
      var v := Judge(c, stored, StagedCount(Verdicts(init, stored, schedulesCount, max)), schedulesCount, max);
      Drafts(chat, username, init, stored, schedulesCount, max)
        + (if v == Staged then [MakeSchedule(chat, username, c)] else [])
  }

  /** The chat never goes over capacity: once anything is staged, the stored schedules
      and the drafts together number at most `MaximumCountOfSchedules - 1`. */
  lemma {:induction false} StagedBound(cs: seq<Candidate>, stored: set<string>, schedulesCount: int, max: int)
    ensures var n := StagedCount(Verdicts(cs, stored, schedulesCount, max));
      n == 0 || schedulesCount + n <= max - 1
  {
    if cs != [] {
      var init := Verdicts(cs[..|cs| - 1], stored, schedulesCount, max);
      StagedBound(cs[..|cs| - 1], stored, schedulesCount, max);
      assert Verdicts(cs, stored, schedulesCount, max)[..|cs| - 1] == init;
    }
  }

  /** The loop is a left-to-right scan: the verdicts of a prefix are a prefix of the
      verdicts. */
  lemma {:induction false} VerdictsPrefix(cs: seq<Candidate>, stored: set<string>, schedulesCount: int, max: int, i: nat)
    requires i <= |cs|
    ensures Verdicts(cs[..i], stored, schedulesCount, max) == Verdicts(cs, stored, schedulesCount, max)[..i]
    decreases |cs|
  {
    if i < |cs| {
      var vs := Verdicts(cs, stored, schedulesCount, max);
      VerdictsPrefix(cs[..|cs| - 1], stored, schedulesCount, max, i);
      assert cs[..|cs| - 1][..i] == cs[..i];
      assert vs[..|cs| - 1][..i] == vs[..i];
    } else {
      assert cs[..i] == cs;
    }
  }

  /** Each candidate is judged with the number of drafts staged before it. */
  lemma VerdictAt(cs: seq<Candidate>, stored: set<string>, schedulesCount: int, max: int, i: nat)
    requires i < |cs|
    ensures var vs := Verdicts(cs, stored, schedulesCount, max);
      vs[i] == Judge(cs[i], stored, StagedCount(vs[..i]), schedulesCount, max)
  {
    var vs := Verdicts(cs, stored, schedulesCount, max);
    VerdictsPrefix(cs, stored, schedulesCount, max, i + 1);
    VerdictsPrefix(cs, stored, schedulesCount, max, i);
    assert cs[..i + 1][..i] == cs[..i];
    assert vs[..i + 1][..i] == vs[..i];
  }

  lemma {:induction false} StagedCountMonotone(vs: seq<Verdict>, i: nat, j: nat)
    requires i <= j <= |vs|
    ensures StagedCount(vs[..i]) <= StagedCount(vs[..j])
    decreases j - i
  {
    if i < j {
      StagedCountMonotone(vs, i, j - 1);
      assert vs[..j][..j - 1] == vs[..j - 1];
    }
  }

  /** A candidate is staged exactly when its text is new, `ProcessParsedDate` gave dates
      and `count + schedulesCount < MaximumCountOfSchedules` still holds; a text that is
      already stored is never staged. */
  lemma StagedExactly(cs: seq<Candidate>, stored: set<string>, schedulesCount: int, max: int, i: nat)
    requires i < |cs|
    ensures var vs := Verdicts(cs, stored, schedulesCount, max);
      (vs[i] == Staged <==>
         cs[i].text !in stored && cs[i].params.Some?
         && 1 + StagedCount(vs[..i]) + schedulesCount < max)
      && (cs[i].text in stored ==> vs[i] == AlreadyScheduled)
  {
    VerdictAt(cs, stored, schedulesCount, max, i);
  }

  /** Once one candidate is refused for capacity, every later new text in the same message
      is refused too. */
  lemma RefusalIsFinal(cs: seq<Candidate>, stored: set<string>, schedulesCount: int, max: int, i: nat, j: nat)
    requires i < j < |cs|
    requires Verdicts(cs, stored, schedulesCount, max)[i] == OverCapacity
    requires cs[j].text !in stored
    ensures Verdicts(cs, stored, schedulesCount, max)[j] == OverCapacity
  {
    var vs := Verdicts(cs, stored, schedulesCount, max);
    VerdictAt(cs, stored, schedulesCount, max, i);
    VerdictAt(cs, stored, schedulesCount, max, j);
    StagedCountMonotone(vs, i, j);
  }

  /** The drafts are one per staged candidate, all for this chat and this author, with id
      0 and a text the chat does not hold yet. */
  lemma {:induction false} DraftsStaged(chat: string, username: string, cs: seq<Candidate>,
                                        stored: set<string>, schedulesCount: int, max: int)
    ensures var ds := Drafts(chat, username, cs, stored, schedulesCount, max);
      |ds| == StagedCount(Verdicts(cs, stored, schedulesCount, max))
      && forall k :: 0 <= k < |ds| ==>
           ds[k].chatid == chat && ds[k].id == 0 && ds[k].username == username && ds[k].text !in stored
  {
    if cs != [] {
      var init := cs[..|cs| - 1];
      DraftsStaged(chat, username, init, stored, schedulesCount, max);
      var vs := Verdicts(cs, stored, schedulesCount, max);
      assert vs[..|cs| - 1] == Verdicts(init, stored, schedulesCount, max);
    }
  }
}
