/** The handlers of `botActions.js` that keep state between messages: the module-level
    `pendingSchedules` map (the drafts of each chat not committed yet) and the list
    `tzPendingConfirmationUsers` (the users asked for their UTC offset). */
module Actions {
  import opened Wrappers
  import opened Seqs
  import opened Text
  import opened Numbers
  import opened ChatIds
  import opened Language
  import opened TimeZone
  import opened Store
  import opened Admission

  /** `pendingSchedules[chatID]`, an absent entry counting as empty. */
  function Pending(m: map<string, seq<Schedule>>, chat: string): seq<Schedule>
  {
    if chat in m then m[chat] else []
  }

  /** No private chat holds drafts between two messages. */
  predicate PrivateDraftsFlushed(m: map<string, seq<Schedule>>)
  {
    forall k :: k in m && !IsGroupKey(k) ==> m[k] == []
  }

  /** The map after the drafts `ds` were pushed for `chat`; the entry is created on the
      first push only. */
  function WithDrafts(m: map<string, seq<Schedule>>, chat: string, ds: seq<Schedule>): map<string, seq<Schedule>>
  {
    if ds == [] then m else m[chat := Pending(m, chat) + ds]
  }

  /** The author recorded on a draft: the sender's name in a group, `none` in private. */
  function Author(inGroup: bool, fromUsername: string): string
  {
    if inGroup then fromUsername else "none"
  }

  // ---------------------------------------------------------------------------------------
  // Timezone negotiation (`ConfrimTimeZone`)

  /** The write that stores a parsed offset: a new user is added with the default
      language, a known one gets the offset updated. */
  function TzCall(user: int, tz: Tz, hasUser: bool, language: Lang): StoreCall
  {
    if hasUser then SetUserTz(user, tz) else AddUser(user, tz, language)
  }

  function TzCalls(user: int, text: string, hasUser: bool, language: Lang): (cs: seq<StoreCall>)
    ensures |cs| <= 1
  {
    match ParseOffset(text)
    case Some(tz) => [TzCall(user, tz, hasUser, language)]
    case None => []
  }

  function TzUsers(users: seq<int>, user: int, text: string): seq<int>
  {
    if ParseOffset(text).Some? then Splice1(users, IndexOfValue(users, user)) else users
  }

  function TzReply(text: string): Reply
  {
    match ParseOffset(text)
    case Some(tz) => TzDefined(tz)
    case None => TzInvalidInput
  }

  /** A listed user who sends a text with a digit gets exactly one write of the offset
      read from it and leaves the list, nobody else does; a text without a digit changes
      nothing and is answered with the invalid-input reply. */
  lemma ConfirmOutcome(users: seq<int>, user: int, text: string, hasUser: bool, language: Lang)
    requires NoDup(users) && user in users
    ensures HasDigit(text) ==>
      ParseOffset(text).Some?
      && var tz := ParseOffset(text).value;
      TzCalls(user, text, hasUser, language)
         == [if hasUser then SetUserTz(user, tz) else AddUser(user, tz, language)]
      && TzReply(text) == TzDefined(tz)
      && NoDup(TzUsers(users, user, text))
      && forall y :: y in TzUsers(users, user, text) <==> y in users && y != user
    ensures !HasDigit(text) ==>
      TzCalls(user, text, hasUser, language) == [] && TzUsers(users, user, text) == users
      && TzReply(text) == TzInvalidInput
  {
    RemoveUser(users, user);
  }

  /** How the three sample offsets are written. */
  lemma SampleOffsetTexts()
    ensures FormatClock('+', 3, 30) == "+3:30" && FormatClock('-', 5, 30) == "-5:30"
    ensures ['-'] + NatToString(5) == "-5"
  {
    assert NatToString(3) == "3" && NatToString(5) == "5" && DigitChar(0) == '0';
    assert NatToString(30) == NatToString(3) + [DigitChar(0)] == "30";
  }

  /** The offsets the handler is documented to read: `+3:30` is 12600 seconds. */
  lemma PlusClockExample()
    ensures ParseOffset("+3:30") == Some(Seconds(12600))
  {
    SampleOffsetTexts();
    ClockRoundTrip("", '+', 3, 30, "");
    assert "" + FormatClock('+', 3, 30) + "" == FormatClock('+', 3, 30);
  }

  /** `-5:30` is -19800 seconds: the sign applies to the minutes too. */
  lemma MinusClockExample()
    ensures ParseOffset("-5:30") == Some(Seconds(-19800))
  {
    SampleOffsetTexts();
    ClockRoundTrip("", '-', 5, 30, "");
    assert "" + FormatClock('-', 5, 30) + "" == FormatClock('-', 5, 30);
  }

  /** `-5` is -18000 seconds, by the bare-hour fallback. */
  lemma MinusHourExample()
    ensures ParseOffset("-5") == Some(Seconds(-18000))
  {
    SampleOffsetTexts();
    HourRoundTrip("", '-', 5);
    assert "" + ['-'] + NatToString(5) == ['-'] + NatToString(5);
  }

  // ---------------------------------------------------------------------------------------
  // The `/N` route of `HandleTextMessage`

  /** A message starting with `/`. */
  predicate IsCommand(text: string)
  {
    text != [] && text[0] == '/'
  }

  function ByIdCalls(chat: string, text: string): seq<StoreCall>
    requires IsCommand(text)
  {
    match ParseInt(text[1..])
    case Some(n) => [RemoveScheduleById(chat, n), ReorderSchedules(chat)]
    case None => []
  }

  function ByIdReply(text: string): Reply
    requires IsCommand(text)
  {
    match ParseInt(text[1..])
    case Some(n) => Deleted([n])
    case None => NoReply
  }

  /** `/N`, with `N` the number of a listed reminder, removes that reminder and renumbers
      the chat; a command with no digit in it makes no call and no reply. */
  lemma ByIdOutcome(chat: string, n: nat, text: string)
    requires IsCommand(text)
    ensures ByIdCalls(chat, "/" + NatToString(n)) == [RemoveScheduleById(chat, n), ReorderSchedules(chat)]
    ensures ByIdReply("/" + NatToString(n)) == Deleted([n])
    ensures !HasDigit(text[1..]) ==> ByIdCalls(chat, text) == [] && ByIdReply(text) == NoReply
  {
    assert ("/" + NatToString(n))[1..] == NatToString(n);
    ParseIntRoundTrip(n);
    ParseIntNeedsDigit(text[1..]);
  }

  // ---------------------------------------------------------------------------------------
  // Parsing a message into drafts

  /** Whether the loop at line 412 wrote anything into `reply`: every candidate does,
      except one `ProcessParsedDate` cannot use in a group chat. */
  function Wrote(inGroup: bool, vs: seq<Verdict>): bool
  {
    if vs == [] then false
    else Wrote(inGroup, vs[..|vs| - 1]) || !inGroup || vs[|vs| - 1] != Unparsable
  }

  /** Whether `shouldWarn` is set: in a private chat of an unregistered user, by a new text
      within capacity. */
  function Warns(inGroup: bool, hasUser: bool, vs: seq<Verdict>): bool
  {
    if vs == [] then false
    else Warns(inGroup, hasUser, vs[..|vs| - 1])
         || (!inGroup && !hasUser && (vs[|vs| - 1] == Staged || vs[|vs| - 1] == Unparsable))
  }

  lemma {:induction false} WroteExactly(inGroup: bool, vs: seq<Verdict>)
    ensures Wrote(inGroup, vs) <==> exists k :: 0 <= k < |vs| && (!inGroup || vs[k] != Unparsable)
  {
    if vs != [] {
      var init := vs[..|vs| - 1];
      WroteExactly(inGroup, init);
      if !inGroup || vs[|vs| - 1] != Unparsable {
        assert vs[|vs| - 1] in vs;
      }
      if exists k :: 0 <= k < |init| && (!inGroup || init[k] != Unparsable) {
        var k :| 0 <= k < |init| && (!inGroup || init[k] != Unparsable);
        assert vs[k] == init[k];
      }
      if exists k :: 0 <= k < |vs| && (!inGroup || vs[k] != Unparsable) {
        var k :| 0 <= k < |vs| && (!inGroup || vs[k] != Unparsable);
        if k < |init| {
          assert init[k] == vs[k];
        }
      }
    }
  }

  lemma {:induction false} WarnsExactly(inGroup: bool, hasUser: bool, vs: seq<Verdict>)
    ensures Warns(inGroup, hasUser, vs)
       <==> !inGroup && !hasUser && exists k :: 0 <= k < |vs| && (vs[k] == Staged || vs[k] == Unparsable)
  {
    if vs != [] {
      var init := vs[..|vs| - 1];
      WarnsExactly(inGroup, hasUser, init);
      if vs[|vs| - 1] == Staged || vs[|vs| - 1] == Unparsable {
        assert vs[|vs| - 1] in vs;
      }
      if exists k :: 0 <= k < |init| && (init[k] == Staged || init[k] == Unparsable) {
        var k :| 0 <= k < |init| && (init[k] == Staged || init[k] == Unparsable);
        assert vs[k] == init[k];
      }
      if exists k :: 0 <= k < |vs| && (vs[k] == Staged || vs[k] == Unparsable) {
        var k :| 0 <= k < |vs| && (vs[k] == Staged || vs[k] == Unparsable);
        if k < |init| {
          assert init[k] == vs[k];
        }
      }
    }
  }

  /** The reply to a parsed message: nothing when `reply` stayed empty, otherwise the
      report, with the confirm/decline prompt in a group chat that had dates and the
      timezone warning when `shouldWarn` was set. */
  function ParseReply(inGroup: bool, hasUser: bool, cands: seq<Candidate>, vs: seq<Verdict>): Reply
  {
    var said := if cands == [] then !inGroup else Wrote(inGroup, vs);
    if said then ParseReport(inGroup && cands != [], Warns(inGroup, hasUser, vs)) else NoReply
  }

  /** A private chat is always answered, with the warning exactly when an unregistered
      user sent a new text within capacity. A group chat is answered only when some date
      was already stored, staged or refused, and then always with the prompt and never
      with the warning. */
  lemma ParseReplyOutcome(inGroup: bool, hasUser: bool, cands: seq<Candidate>, vs: seq<Verdict>)
    requires |vs| == |cands|
    ensures !inGroup ==>
      ParseReply(inGroup, hasUser, cands, vs)
      == ParseReport(false, !hasUser && exists k :: 0 <= k < |vs| && (vs[k] == Staged || vs[k] == Unparsable))
    ensures inGroup ==>
      (ParseReply(inGroup, hasUser, cands, vs) != NoReply <==> exists k :: 0 <= k < |vs| && vs[k] != Unparsable)
    ensures inGroup && ParseReply(inGroup, hasUser, cands, vs) != NoReply ==>
      ParseReply(inGroup, hasUser, cands, vs) == ParseReport(true, false)
  {
    WroteExactly(inGroup, vs);
    WarnsExactly(inGroup, hasUser, vs);
    if !inGroup && cands != [] {
      assert vs[0] in vs;
    }
  }

  /** The drafts of a chat after a parsed message, and the store calls that commit them:
      a private chat commits its new drafts in one call and keeps none; a group chat makes
      no commit and keeps them after those it already had. */
  lemma StageOutcome(m: map<string, seq<Schedule>>, chat: string, ds: seq<Schedule>)
    requires PrivateDraftsFlushed(m)
    ensures !IsGroupKey(chat) ==>
      Pending(WithDrafts(m, chat, ds), chat) == ds
      && PrivateDraftsFlushed(if ds == [] then WithDrafts(m, chat, ds) else WithDrafts(m, chat, ds)[chat := []])
    ensures IsGroupKey(chat) ==>
      Pending(WithDrafts(m, chat, ds), chat) == Pending(m, chat) + ds
      && PrivateDraftsFlushed(WithDrafts(m, chat, ds))
    ensures forall k :: k != chat ==> Pending(WithDrafts(m, chat, ds), k) == Pending(m, k)
    ensures ds != [] ==> WithDrafts(m, chat, ds)[chat := []] == m[chat := []]
  {
    if ds != [] {
      assert m[chat := Pending(m, chat) + ds][chat := []] == m[chat := []];
    }
  }

  /** The capacity test counts stored reminders only (line 410), while a group chat keeps
      its drafts across messages until they are confirmed. With `MaximumCountOfSchedules`
      4 and nothing stored, each message may stage 3 - 0 = 3 drafts at most, yet the same two
      new dates sent twice leave 4 drafts waiting, which one confirm commits together. */
  lemma GroupDraftsOutgrowCapacity(chat: string, author: string, a: Candidate, b: Candidate)
    requires IsGroupKey(chat) && a.params.Some? && b.params.Some?
    ensures var ds := Drafts(chat, author, [a, b], {}, 0, 4);
      StagedCount(Verdicts([a, b], {}, 0, 4)) == 2
      && |Pending(WithDrafts(WithDrafts(map[], chat, ds), chat, ds), chat)| == 4
  {
    var vs := Verdicts([a, b], {}, 0, 4);
    assert [a, b][..1] == [a] && [a][..0] == [];
    assert Verdicts([a], {}, 0, 4) == [Staged];
    assert vs == [Staged, Staged];
    assert vs[..1] == [Staged] && [Staged][..0] == [];
    DraftsStaged(chat, author, [a, b], {}, 0, 4);
  }

  /** What the loop at line 412 has built after `i` candidates, from the map `m0`. */
  ghost predicate Staging(m0: map<string, seq<Schedule>>, m: map<string, seq<Schedule>>, chat: string,
                          author: string, inGroup: bool, hasUser: bool, cs: seq<Candidate>,
                          stored: set<string>, schedulesCount: int, max: int, i: nat,
                          count: int, wrote: bool, warn: bool)
    requires i <= |cs|
  {
    var vs := Verdicts(cs[..i], stored, schedulesCount, max);
    count == 1 + StagedCount(vs)
    && m == WithDrafts(m0, chat, Drafts(chat, author, cs[..i], stored, schedulesCount, max))
    && wrote == Wrote(inGroup, vs) && warn == Warns(inGroup, hasUser, vs)
  }

  /** The bot's state: the database handle and the settings it was started with, the
      drafts of each chat and the users asked for their offset. */
  class Bot {
    const db: Db
    const maximumCountOfSchedules: int
    const repeatScheduleTime: int
    var pendingSchedules: map<string, seq<Schedule>>
    var tzPendingConfirmationUsers: seq<int>

    ghost predicate Valid()
      reads this, db
    {
      db.Valid() && NoDup(tzPendingConfirmationUsers) && PrivateDraftsFlushed(pendingSchedules)
    }

    constructor (db: Db, maximumCountOfSchedules: int, repeatScheduleTime: int)
      requires db.Valid()
      ensures Valid() && this.db == db
      ensures this.maximumCountOfSchedules == maximumCountOfSchedules
      ensures this.repeatScheduleTime == repeatScheduleTime
      ensures pendingSchedules == map[] && tzPendingConfirmationUsers == []
    {
      this.db := db;
      this.maximumCountOfSchedules := maximumCountOfSchedules;
      this.repeatScheduleTime := repeatScheduleTime;
      pendingSchedules := map[];
      tzPendingConfirmationUsers := [];
    }

    /** `StartTimeZoneDetermination` (lines 149-182), with `curTz` what `GetUserTZ`
        returns: a private chat gets the setup keyboard, naming the current offset unless
        it is 0; in a group the sender is listed once and asked to type an offset. */
    method StartTimeZoneDetermination(chatId: int, user: int, curTz: Tz) returns (reply: Reply)
      requires Valid()
      modifies this
      ensures Valid() && pendingSchedules == old(pendingSchedules)
      ensures chatId >= 0 ==>
        tzPendingConfirmationUsers == old(tzPendingConfirmationUsers)
        && reply == TzSetupKeyboard(if curTz == Seconds(0) then None else Some(curTz))
      ensures chatId < 0 ==>
        tzPendingConfirmationUsers
          == old(tzPendingConfirmationUsers) + (if user in old(tzPendingConfirmationUsers) then [] else [user])
        && reply == TzGroupPrompt
    {
      var current := None;
      if curTz != Seconds(0) {
        current := Some(curTz);
      }
      if chatId >= 0 {
        return TzSetupKeyboard(current);
      }
      if IndexOfValue(tzPendingConfirmationUsers, user) < 0 {
        tzPendingConfirmationUsers := tzPendingConfirmationUsers + [user];
      }
      reply := TzGroupPrompt;
    }

    /** `ConfrimTimeZone` (lines 255-304), with `hasUser` what `HasUserID` returns. */
    method ConfirmTimeZone(user: int, text: string, hasUser: bool) returns (reply: Reply)
      requires Valid()
      modifies this, db
      ensures Valid() && db.Counted() && pendingSchedules == old(pendingSchedules)
      ensures db.calls == old(db.calls) + TzCalls(user, text, hasUser, db.defaultUserLanguage)
      ensures tzPendingConfirmationUsers == TzUsers(old(tzPendingConfirmationUsers), user, text)
      ensures reply == TzReply(text)
    {
      match ParseOffset(text)
      case Some(ts) =>
        if !hasUser {
          db.Issue(AddUser(user, ts, db.defaultUserLanguage));
        } else {
          db.Issue(SetUserTz(user, ts));
        }
        RemoveUser(tzPendingConfirmationUsers, user);
        tzPendingConfirmationUsers :=
          Splice1(tzPendingConfirmationUsers, IndexOfValue(tzPendingConfirmationUsers, user));
        reply := TzDefined(ts);
      case None =>
        reply := TzInvalidInput;
    }

    /** The loop at lines 412-446: each candidate is judged and the new ones within
        capacity are pushed onto the chat's drafts; `count` is one more than the number
        staged. */
    method StageCandidates(chat: string, author: string, inGroup: bool, hasUser: bool,
                           cands: seq<Candidate>, stored: set<string>, schedulesCount: int)
      returns (wrote: bool, warn: bool)
      modifies this
      ensures tzPendingConfirmationUsers == old(tzPendingConfirmationUsers)
      ensures pendingSchedules
           == WithDrafts(old(pendingSchedules), chat,
                     Drafts(chat, author, cands, stored, schedulesCount, maximumCountOfSchedules))
      ensures wrote == Wrote(inGroup, Verdicts(cands, stored, schedulesCount, maximumCountOfSchedules))
      ensures warn == Warns(inGroup, hasUser, Verdicts(cands, stored, schedulesCount, maximumCountOfSchedules))
    {
      var count := 1;
      wrote, warn := false, false;
      assert cands[..0] == [];
      for i := 0 to |cands|
        invariant tzPendingConfirmationUsers == old(tzPendingConfirmationUsers)
        invariant Staging(old(pendingSchedules), pendingSchedules, chat, author, inGroup, hasUser, cands, stored,
                          schedulesCount, maximumCountOfSchedules, i, count, wrote, warn)
      {
        count, wrote, warn := StageOne(chat, author, inGroup, hasUser, cands, stored, schedulesCount,
                                       i, count, wrote, warn, old(pendingSchedules));
      }
      assert cands[..|cands|] == cands;
    }

    /** One pass of the loop at line 412: the candidate is reported if stored, pushed if new,
        within capacity and dated, and refused if over capacity. */
    method StageOne(chat: string, author: string, inGroup: bool, hasUser: bool,
                    cands: seq<Candidate>, stored: set<string>, schedulesCount: int,
                    i: nat, count: int, wrote: bool, warn: bool, ghost m0: map<string, seq<Schedule>>)
      returns (count': int, wrote': bool, warn': bool)
      requires i < |cands|
      requires Staging(m0, pendingSchedules, chat, author, inGroup, hasUser, cands, stored,
                       schedulesCount, maximumCountOfSchedules, i, count, wrote, warn)
      modifies this
      ensures tzPendingConfirmationUsers == old(tzPendingConfirmationUsers)
      ensures Staging(m0, pendingSchedules, chat, author, inGroup, hasUser, cands, stored,
                      schedulesCount, maximumCountOfSchedules, i + 1, count', wrote', warn')
    {
      ghost var v := Judge(cands[i], stored, StagedCount(Verdicts(cands[..i], stored, schedulesCount, maximumCountOfSchedules)),
                           schedulesCount, maximumCountOfSchedules);
      StagingStep(m0, pendingSchedules, chat, author, inGroup, hasUser, cands, stored, schedulesCount,
                  maximumCountOfSchedules, i, count, wrote, warn);
      count', wrote', warn' := count, wrote, warn;
      var c := cands[i];
      if c.text in stored {
        assert v == AlreadyScheduled;
        wrote' := true;
      } else if count + schedulesCount < maximumCountOfSchedules {
        if c.params.Some? {
          assert v == Staged;
          var drafts := if chat in pendingSchedules then pendingSchedules[chat] else [];
          var newSchedule := MakeSchedule(chat, author, c);
          pendingSchedules := pendingSchedules[chat := drafts + [newSchedule]];
          count' := count + 1;
          wrote' := true;
        } else {
          assert v == Unparsable;
          if !inGroup {
            wrote' := true;
          }
        }
        if !inGroup && !hasUser {
          warn' := true;
        }
      } else {
        assert v == OverCapacity;
        wrote' := true;
      }
    }

    /** The region "PARSE SCHEDULE" (lines 388-481): the sender's language is stored, the
        candidates the date parser found are staged, a private chat commits its drafts at
        once, and the report is sent. */
    method ParseSchedules(chatId: int, user: int, fromUsername: string, text: string, hasUser: bool,
                          cands: seq<Candidate>, stored: set<string>, schedulesCount: int)
      returns (reply: Reply)
      requires Valid()
      modifies this, db
      ensures Valid() && db.Counted()
      ensures tzPendingConfirmationUsers == old(tzPendingConfirmationUsers)
      ensures var chat := FormatChatId(chatId);
        var ds := Drafts(chat, Author(chatId < 0, fromUsername), cands, stored, schedulesCount,
                         maximumCountOfSchedules);
        var vs := Verdicts(cands, stored, schedulesCount, maximumCountOfSchedules);
        db.calls == old(db.calls) + [SetUserLanguage(user, DetermineLanguage(text))]
                    + (if chatId >= 0 && ds != [] then [AddNewSchedules(chat, ds)] else [])
        && pendingSchedules == (if chatId >= 0 && ds != [] then old(pendingSchedules)[chat := []]
                                else WithDrafts(old(pendingSchedules), chat, ds))
        && reply == ParseReply(chatId < 0, hasUser, cands, vs)
    {
      var chat := FormatChatId(chatId);
      var inGroup := chat[0] == '_';
      var language := DetermineLanguage(text);
      db.Issue(SetUserLanguage(user, language));
      var author := if inGroup then fromUsername else "none";
      ghost var m0 := pendingSchedules;
      var wrote, warn := StageCandidates(chat, author, inGroup, hasUser, cands, stored, schedulesCount);
      StageOutcome(m0, chat, Drafts(chat, author, cands, stored, schedulesCount, maximumCountOfSchedules));
      FlushPrivate(chat);
      var said := if |cands| == 0 then !inGroup else wrote;
      if said {
        reply := ParseReport(inGroup && |cands| > 0, warn);
      } else {
        reply := NoReply;
      }
    }

    /** Lines 448-451: a private chat commits its drafts at once and keeps none. */
    method FlushPrivate(chat: string)
      requires db.Valid()
      modifies this, db
      ensures db.Valid() && db.Counted()
      ensures tzPendingConfirmationUsers == old(tzPendingConfirmationUsers)
      ensures var drafts := Pending(old(pendingSchedules), chat);
        var commit := !IsGroupKey(chat) && drafts != [];
        db.calls == old(db.calls) + (if commit then [AddNewSchedules(chat, drafts)] else [])
        && pendingSchedules == (if commit then old(pendingSchedules)[chat := []] else old(pendingSchedules))
    {
      var inGroup := chat != [] && chat[0] == '_';
      if !inGroup && chat in pendingSchedules && |pendingSchedules[chat]| > 0 {
        db.Issue(AddNewSchedules(chat, pendingSchedules[chat]));
        pendingSchedules := pendingSchedules[chat := []];
      }
    }

    /** `HandleTextMessage` (lines 367-482): a listed user's message is read as an offset,
        `/N` removes reminder `N`, anything else is parsed for dates. `hasUser`,
        `schedulesCount` and `stored` are what `HasUserID`, `GetSchedules` and
        `GetScheduleByText` return; `cands` is what the date parser finds. */
    method HandleTextMessage(chatId: int, user: int, fromUsername: string, text: string, hasUser: bool,
                             cands: seq<Candidate>, stored: set<string>, schedulesCount: int)
      returns (reply: Reply)
      requires Valid()
      modifies this, db
      ensures Valid() && db.Counted()
      ensures user in old(tzPendingConfirmationUsers) ==>
        db.calls == old(db.calls) + TzCalls(user, text, hasUser, db.defaultUserLanguage)
        && tzPendingConfirmationUsers == TzUsers(old(tzPendingConfirmationUsers), user, text)
        && pendingSchedules == old(pendingSchedules) && reply == TzReply(text)
      ensures user !in old(tzPendingConfirmationUsers) && IsCommand(text) ==>
        db.calls == old(db.calls) + ByIdCalls(FormatChatId(chatId), text)
        && tzPendingConfirmationUsers == old(tzPendingConfirmationUsers)
        && pendingSchedules == old(pendingSchedules) && reply == ByIdReply(text)
      ensures user !in old(tzPendingConfirmationUsers) && !IsCommand(text) ==>
        var chat := FormatChatId(chatId);
        var ds := Drafts(chat, Author(chatId < 0, fromUsername), cands, stored, schedulesCount,
                         maximumCountOfSchedules);
        db.calls == old(db.calls) + [SetUserLanguage(user, DetermineLanguage(text))]
                    + (if chatId >= 0 && ds != [] then [AddNewSchedules(chat, ds)] else [])
        && tzPendingConfirmationUsers == old(tzPendingConfirmationUsers)
        && pendingSchedules == (if chatId >= 0 && ds != [] then old(pendingSchedules)[chat := []]
                                else WithDrafts(old(pendingSchedules), chat, ds))
        && reply == ParseReply(chatId < 0, hasUser, cands,
                               Verdicts(cands, stored, schedulesCount, maximumCountOfSchedules))
    {
      var chat := FormatChatId(chatId);
      if IndexOfValue(tzPendingConfirmationUsers, user) >= 0 {
        reply := ConfirmTimeZone(user, text, hasUser);
      } else if |text| > 0 && text[0] == '/' {
        match ParseInt(text[1..])
        case Some(scheduleId) =>
          db.Issue(RemoveScheduleById(chat, scheduleId));
          db.Issue(ReorderSchedules(chat));
          reply := Deleted([scheduleId]);
        case None =>
          reply := NoReply;
      } else {
        reply := ParseSchedules(chatId, user, fromUsername, text, hasUser, cands, stored, schedulesCount);
      }
    }

    /** `HandleCallbackQuery` (lines 310-360) for a button pressed in chat `chatId`.
        `found` is what `GetScheduleByText` returns for the reminder's text and `now` the
        clock: `repeat` files the reminder again `repeatScheduleTime` milliseconds from
        now, in whole seconds; `confirm` commits the chat's drafts if there are any and
        empties them in any case; `delete` and other data change no state. */
    method HandleCallbackQuery(chatId: int, data: string, now: int, found: Option<Schedule>)
      requires Valid()
      modifies this, db
      ensures Valid() && db.Counted()
      ensures tzPendingConfirmationUsers == old(tzPendingConfirmationUsers)
      ensures data == "repeat" ==>
        pendingSchedules == old(pendingSchedules)
        && db.calls == old(db.calls)
             + (if found.Some? then [AddNewSchedule(found.value.(targetDate := Div(now + repeatScheduleTime, 1000)))]
                else [])
      ensures data == "confirm" ==>
        var chat := FormatChatId(chatId);
        pendingSchedules == old(pendingSchedules)[chat := []]
        && db.calls == old(db.calls)
             + (if Pending(old(pendingSchedules), chat) != [] then [AddNewSchedules(chat, Pending(old(pendingSchedules), chat))]
                else [])
      ensures data != "repeat" && data != "confirm" ==>
        pendingSchedules == old(pendingSchedules) && db.calls == old(db.calls)
    {
      var chat := FormatChatId(chatId);
      if data == "repeat" {
        if found.Some? {
          var targetDate := Div(now + repeatScheduleTime, 1000);
          var schedule := found.value.(targetDate := targetDate);
          db.Issue(AddNewSchedule(schedule));
        }
      } else if data == "confirm" {
        if chat in pendingSchedules && |pendingSchedules[chat]| > 0 {
          db.Issue(AddNewSchedules(chat, pendingSchedules[chat]));
        }
        pendingSchedules := pendingSchedules[chat := []];
      }
    }

    /** The timer set at line 465: when it fires, the drafts of the prompted chat are
        discarded. */
    method DiscardOnTimeout(chatId: int)
      requires Valid()
      modifies this
      ensures Valid() && tzPendingConfirmationUsers == old(tzPendingConfirmationUsers)
      ensures pendingSchedules == old(pendingSchedules)[FormatChatId(chatId) := []]
      ensures Pending(pendingSchedules, FormatChatId(chatId)) == []
    {
      var chat := FormatChatId(chatId);
      pendingSchedules := pendingSchedules[chat := []];
    }
  }

  // ---------------------------------------------------------------------------------------
  // Line 209 as written: the scan files each reminder's text in the draft map

  /** A slot of `pendingSchedules` as the source can leave it: a list of drafts, or the
      text of a reminder stored there at line 209. */
  datatype Slot = Queue(drafts: seq<Schedule>) | Note(text: string)

  /** The draft map after the scan's first loop as written: each due schedule's text goes
      under the key of lines 197-200, which has `-` in place of `_`. */
  function NoteDue(m: map<string, Slot>, due: seq<Schedule>): (r: map<string, Slot>)
    ensures forall k :: k in m ==> k in r
    ensures forall j :: 0 <= j < |due| ==> RestoreChatId(due[j].chatid) in r && r[RestoreChatId(due[j].chatid)].Note?
  {
    if due == [] then m
    else
      var init, d := due[..|due| - 1], due[|due| - 1];
      assert forall j :: 0 <= j < |init| ==> init[j] == due[j];
      NoteDue(m, init)[RestoreChatId(d.chatid) := Note(d.text)]
  }

  /** `pendingSchedules[chatID].push(newSchedule)` at line 431 as written: an absent slot
      starts a list, a list grows by the draft, and `push` on a text throws a `TypeError`
      (`None`). */
  function PushAsWritten(m: map<string, Slot>, chat: string, s: Schedule): (r: Option<map<string, Slot>>)
    ensures r.None? <==> chat in m && m[chat].Note?
    ensures r.Some? ==> r.value == m[chat := Queue((if chat in m then m[chat].drafts else []) + [s])]
  {
    if chat !in m then
      assert [] + [s] == [s];
      Some(m[chat := Queue([s])])
    else
      match m[chat]
      case Queue(ds) => Some(m[chat := Queue(ds + [s])])
      case Note(_) => None
  }

  /** The test at line 448 as written: `length > 0` holds of a non-empty text too, which
      is then handed to `AddNewSchedules` as if it were a list of drafts. */
  predicate CommitsAsWritten(m: map<string, Slot>, chat: string)
  {
    !IsGroupKey(chat) && chat in m
    && match m[chat]
       case Queue(ds) => ds != []
       case Note(t) => t != []
  }

  /** In a private chat the key the scan rebuilds is the key `FormatChatId` gives, so once a
      reminder of that chat fires, its next message cannot stage a draft (the push
      throws), and a message that stages nothing commits the reminder's text. */
  lemma ReminderBreaksPrivateDrafts(id: nat, d: Schedule, s: Schedule)
    requires d.chatid == FormatChatId(id)
    ensures var m := NoteDue(map[], [d]);
      PushAsWritten(m, FormatChatId(id), s).None?
      && (d.text != [] ==> CommitsAsWritten(m, FormatChatId(id)))
  {
    RestoreFormat(id);
    var m := NoteDue(map[], [d]);
    assert RestoreChatId(d.chatid) == FormatChatId(id) && [d][..0] == [];
    assert NoteDue(map[], []) == map[];
    assert m == map[][FormatChatId(id) := Note(d.text)];
  }

  /** Pushing one more draft onto the map. */
  lemma PushDraft(m: map<string, seq<Schedule>>, chat: string, ds: seq<Schedule>, s: Schedule)
    ensures WithDrafts(m, chat, ds + [s])
         == WithDrafts(m, chat, ds)[chat := Pending(WithDrafts(m, chat, ds), chat) + [s]]
  {
    var p := Pending(m, chat);
    if ds != [] {
      assert p + ds + [s] == p + (ds + [s]);
      assert m[chat := p + ds][chat := p + ds + [s]] == m[chat := p + (ds + [s])];
    } else {
      assert ds + [s] == [s];
    }
  }

  /** The step of the loop at line 412, on the specification functions. */
  /** One candidate judged, on the loop's state: a staged draft is appended to the chat's
      queue and counted, and the flags take the candidate's verdict into account. */
  lemma StagingStep(m0: map<string, seq<Schedule>>, m: map<string, seq<Schedule>>, chat: string,
                    author: string, inGroup: bool, hasUser: bool, cs: seq<Candidate>,
                    stored: set<string>, schedulesCount: int, max: int, i: nat,
                    count: int, wrote: bool, warn: bool)
    requires i < |cs|
    requires Staging(m0, m, chat, author, inGroup, hasUser, cs, stored, schedulesCount, max, i, count, wrote, warn)
    ensures var v := Judge(cs[i], stored, StagedCount(Verdicts(cs[..i], stored, schedulesCount, max)), schedulesCount, max);
      Staging(m0, if v == Staged then m[chat := Pending(m, chat) + [MakeSchedule(chat, author, cs[i])]] else m,
              chat, author, inGroup, hasUser, cs, stored, schedulesCount, max, i + 1,
              if v == Staged then count + 1 else count, wrote || !inGroup || v != Unparsable,
              warn || (!inGroup && !hasUser && (v == Staged || v == Unparsable)))
  {
    var ds := Drafts(chat, author, cs[..i], stored, schedulesCount, max);
    StageStep(chat, author, inGroup, hasUser, cs, stored, schedulesCount, max, i);
    assert ds + [] == ds;
    if cs[i].text !in stored && cs[i].params.Some? {
      PushDraft(m0, chat, ds, MakeSchedule(chat, author, cs[i]));
    }
  }

  lemma StageStep(chat: string, author: string, inGroup: bool, hasUser: bool, cs: seq<Candidate>,
                  stored: set<string>, schedulesCount: int, max: int, i: nat)
    requires i < |cs|
    ensures var vs := Verdicts(cs[..i], stored, schedulesCount, max);
      var v := Judge(cs[i], stored, StagedCount(vs), schedulesCount, max);
      var vs' := Verdicts(cs[..i + 1], stored, schedulesCount, max);
      StagedCount(vs') == StagedCount(vs) + (if v == Staged then 1 else 0)
      && Wrote(inGroup, vs') == (Wrote(inGroup, vs) || !inGroup || v != Unparsable)
      && Warns(inGroup, hasUser, vs')
         == (Warns(inGroup, hasUser, vs) || (!inGroup && !hasUser && (v == Staged || v == Unparsable)))
      && Drafts(chat, author, cs[..i + 1], stored, schedulesCount, max)
         == Drafts(chat, author, cs[..i], stored, schedulesCount, max)
            + (if v == Staged then [MakeSchedule(chat, author, cs[i])] else [])
  {
    assert cs[..i + 1][..i] == cs[..i];
    var vs := Verdicts(cs[..i], stored, schedulesCount, max);
    var vs' := Verdicts(cs[..i + 1], stored, schedulesCount, max);
    assert vs'[..i] == vs;
  }
}
