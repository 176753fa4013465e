/** `CheckExpiredSchedules` and `GetDeletingIDsIndex`: the periodic scan that announces
    due reminders and removes them, one batch per chat. */
module Scanner {
  import opened Wrappers
  import opened Numbers
  import opened Seqs
  import opened Queries
  import opened ChatIds
  import opened Store

  /** An entry of `deletingIDs`: the accumulated `id = n OR …` text of one chat. */
  datatype Batch = Batch(s: string, chatID: string)

  /** The reminder sent for a due schedule: the numeric chat id `+chatID` (`None` where
      that is not a plain decimal), the `@username` mention if any, and the text. */
  datatype Notice = Notice(target: Option<int>, mention: Option<string>, text: string)

  /** `GetDeletingIDsIndex`: the position of the first batch of `chat`, or `false`. */
  method GetDeletingIDsIndex(chat: string, batches: seq<Batch>) returns (r: Option<nat>)
    ensures r.Some? ==> r.value < |batches| && batches[r.value].chatID == chat
    ensures r.Some? ==> forall k :: 0 <= k < r.value ==> batches[k].chatID != chat
    ensures r.None? <==> forall k :: 0 <= k < |batches| ==> batches[k].chatID != chat
  {
    var i := 0;
    while i < |batches|
      invariant i <= |batches|
      invariant forall k :: 0 <= k < i ==> batches[k].chatID != chat
    {
      if batches[i].chatID == chat {
        return Some(i);
      }
      i := i + 1;
    }
    return None;
  }

  /** The `chatid` keys of the due schedules, in scan order. */
  function Keys(due: seq<Schedule>): (ks: seq<string>)
    ensures |ks| == |due| && forall k :: 0 <= k < |due| ==> ks[k] == due[k].chatid
  {
    if due == [] then [] else Keys(due[..|due| - 1]) + [due[|due| - 1].chatid]
  }

  /** `ChatIDs` after the first loop: each chat of the due schedules once, no other, in
      order of first appearance. */
  function ChatsOf(due: seq<Schedule>): (cs: seq<string>)
    ensures NoDup(cs)
    ensures forall c :: c in cs <==> exists k :: 0 <= k < |due| && due[k].chatid == c
  {
    DedupSpec(Keys(due));
    KeysSpec(due);
    Dedup(Keys(due))
  }

  lemma KeysSpec(due: seq<Schedule>)
    ensures forall c :: c in Keys(due) <==> exists k :: 0 <= k < |due| && due[k].chatid == c
  {
    var ks := Keys(due);
    forall c | c in ks
      ensures exists k :: 0 <= k < |due| && due[k].chatid == c
    {
      var k :| 0 <= k < |ks| && ks[k] == c;
      assert due[k].chatid == c;
    }
  }

  /** The ids of `chat` among the due schedules, in scan order: at most one per schedule. */
  function IdsOf(due: seq<Schedule>, chat: string): (ids: seq<int>)
    ensures |ids| <= |due|
  {
    if due == [] then []
    else
      var last := due[|due| - 1];
      IdsOf(due[..|due| - 1], chat) + (if last.chatid == chat then [last.id] else [])
  }

  /** The removal and the reorder of each chat, in the order of `ChatIDs`. */
  function PlanFor(chats: seq<string>, due: seq<Schedule>): (plan: seq<StoreCall>)
    ensures |plan| == 2 * |chats|
  {
    if chats == [] then []
    else
      var c := chats[|chats| - 1];
      PlanFor(chats[..|chats| - 1], due)
        + [RemoveSchedules(c, Strip(Clauses(IdsOf(due, c)))), ReorderSchedules(c)]
  }

  /** The store calls of the second loop: two per chat. */
  function ScanPlan(due: seq<Schedule>): (plan: seq<StoreCall>)
    ensures |plan| == 2 * |ChatsOf(due)|
  {
    PlanFor(ChatsOf(due), due)
  }

  /** The message for one due schedule. */
  function NoticeFor(d: Schedule): Notice
  {
    Notice(DecimalValue(RestoreChatId(d.chatid)),
           if d.username != "none" then Some(d.username) else None,
           d.text)
  }

  /** A reminder goes to the chat it was stored for: the key `FormatChatId(id)` is turned
      back into `id`; the author is mentioned unless the name is `none`. */
  lemma NoticeTarget(d: Schedule, id: int)
    requires d.chatid == FormatChatId(id)
    ensures NoticeFor(d).target == Some(id)
    ensures NoticeFor(d).mention.Some? <==> d.username != "none"
    ensures NoticeFor(d).text == d.text
  {
    RestoreFormat(id);
  }

  /** The messages of the first loop, one per due schedule, in scan order. */
  function Notices(due: seq<Schedule>): seq<Notice>
  {
    seq(|due|, k requires 0 <= k < |due| => NoticeFor(due[k]))
  }

  /** What the first loop has built after `i` schedules: the chats, and one batch per chat
      holding all of its ids so far. */
  ghost predicate Grouped(due: seq<Schedule>, i: nat, chatIDs: seq<string>, batches: seq<Batch>)
    requires i <= |due|
  {
    chatIDs == ChatsOf(due[..i]) && |batches| == |chatIDs|
    && forall k :: 0 <= k < |batches| ==>
         batches[k] == Batch(Clauses(IdsOf(due[..i], chatIDs[k])), chatIDs[k])
  }

  /** `CheckExpiredSchedules` over the schedules `due` that `CheckActiveSchedules(now)`
      returns. Every due schedule is announced (a failed send is caught and changes
      nothing else); then each chat gets one removal of all of its due ids and one reorder;
      `db.sending` is set for the whole run, so that no call of the scan is made while it
      is off, and cleared at the end. */
  method CheckExpiredSchedules(db: Db, now: int, due: seq<Schedule>) returns (notices: seq<Notice>)
    requires db.Valid()
    modifies db
    ensures db.Valid() && !db.sending
    ensures db.calls == old(db.calls) + [CheckActiveSchedules(now)] + ScanPlan(due)
    ensures db.idleCalls == old(db.idleCalls)
    ensures notices == Notices(due)
  {
    db.sending := true;
    db.Issue(CheckActiveSchedules(now));
    notices := [];
    if |due| > 0 {
      var chatIDs, batches;
      chatIDs, batches, notices := GroupDue(due);
      DedupSpec(Keys(due));
      RemoveBatches(db, due, chatIDs, batches);
    } else {
      assert Notices(due) == [] && ScanPlan(due) == [];
    }
    db.sending := false;
  }

  /** Lines 196-233: announce each due schedule and collect the chats and their batches. */
  method GroupDue(due: seq<Schedule>) returns (chatIDs: seq<string>, batches: seq<Batch>, notices: seq<Notice>)
    ensures chatIDs == ChatsOf(due) && |batches| == |chatIDs|
    ensures forall k :: 0 <= k < |batches| ==>
              batches[k] == Batch(Clauses(IdsOf(due, chatIDs[k])), chatIDs[k])
    ensures notices == Notices(due)
  {
    chatIDs, batches, notices := [], [], [];
    for i := 0 to |due|
      invariant Grouped(due, i, chatIDs, batches)
      invariant notices == Notices(due)[..i]
    {
      chatIDs, batches := GroupOne(due, i, chatIDs, batches);
      NoticesStep(due, i);
      notices := notices + [NoticeFor(due[i])];
    }
    NoticesStep(due, |due|);
    GroupedAll(due, chatIDs, batches);
  }

  /** The notices grow by one per scanned schedule. */
  lemma NoticesStep(due: seq<Schedule>, i: nat)
    requires i <= |due|
    ensures i < |due| ==> Notices(due)[..i + 1] == Notices(due)[..i] + [NoticeFor(due[i])]
    ensures i == |due| ==> Notices(due)[..i] == Notices(due)
  {
    if i < |due| {
      assert Notices(due)[..i + 1] == Notices(due)[..i] + [Notices(due)[i]];
    }
  }

  /** After the whole scan, the chats and batches are those of all due schedules. */
  lemma GroupedAll(due: seq<Schedule>, chatIDs: seq<string>, batches: seq<Batch>)
    requires Grouped(due, |due|, chatIDs, batches)
    ensures chatIDs == ChatsOf(due) && |batches| == |chatIDs|
    ensures forall k :: 0 <= k < |batches| ==>
              batches[k] == Batch(Clauses(IdsOf(due, chatIDs[k])), chatIDs[k])
  {
    assert due[..|due|] == due;
  }

  /** One iteration of the first loop: the chat is listed if new, and the schedule's id is
      appended to the chat's batch, which is opened if there is none yet. */
  method GroupOne(due: seq<Schedule>, i: nat, chatIDs: seq<string>, batches: seq<Batch>)
    returns (chatIDs': seq<string>, batches': seq<Batch>)
    requires i < |due| && Grouped(due, i, chatIDs, batches)
    ensures Grouped(due, i + 1, chatIDs', batches')
  {
    var d := due[i];
    chatIDs' := chatIDs;
    if d.chatid !in chatIDs {
      chatIDs' := chatIDs + [d.chatid];
    }
    var index := GetDeletingIDsIndex(d.chatid, batches);
    if index.None? {
      GroupNewChat(due, i, chatIDs, batches);
      assert chatIDs' == chatIDs + [d.chatid];
      batches' := batches + [Batch(Clause(d.id), d.chatid)];
    } else {
      GroupKnownChat(due, i, chatIDs, batches, index.value);
      assert chatIDs' == chatIDs;
      var b := batches[index.value];
      batches' := batches[index.value := Batch(b.s + Clause(d.id), b.chatID)];
    }
  }

  /** The first schedule of a chat opens its batch. */
  lemma GroupNewChat(due: seq<Schedule>, i: nat, chatIDs: seq<string>, batches: seq<Batch>)
    requires i < |due| && Grouped(due, i, chatIDs, batches)
    requires forall k :: 0 <= k < |batches| ==> batches[k].chatID != due[i].chatid
    ensures due[i].chatid !in chatIDs
    ensures Grouped(due, i + 1, chatIDs + [due[i].chatid], batches + [Batch(Clause(due[i].id), due[i].chatid)])
  {
    var c := due[i].chatid;
    assert forall k :: 0 <= k < |chatIDs| ==> chatIDs[k] == batches[k].chatID;
    var id := due[i].id;
    GroupStep(due, i);
    var cs, bs := chatIDs + [c], batches + [Batch(Clause(id), c)];
    forall k | 0 <= k < |bs|
      ensures bs[k] == Batch(Clauses(IdsOf(due[..i + 1], cs[k])), cs[k])
    {
      if k < |batches| {
        assert cs[k] == chatIDs[k] != c;
        assert IdsOf(due[..i + 1], cs[k]) == IdsOf(due[..i], cs[k]);
      } else {
        assert IdsOf(due[..i + 1], c) == [] + [id];
        assert Clauses([id]) == Clauses([]) + Clause(id);
      }
    }
  }

  /** A later schedule of a chat extends the batch of that chat and no other. */
  lemma GroupKnownChat(due: seq<Schedule>, i: nat, chatIDs: seq<string>, batches: seq<Batch>, k: nat)
    requires i < |due| && Grouped(due, i, chatIDs, batches)
    requires k < |batches| && batches[k].chatID == due[i].chatid
    ensures due[i].chatid in chatIDs
    ensures Grouped(due, i + 1, chatIDs, batches[k := Batch(batches[k].s + Clause(due[i].id), batches[k].chatID)])
  {
    var c, id := due[i].chatid, due[i].id;
    assert chatIDs[k] == c;
    GroupStep(due, i);
    var bs := batches[k := Batch(batches[k].s + Clause(id), c)];
    forall m | 0 <= m < |bs|
      ensures bs[m] == Batch(Clauses(IdsOf(due[..i + 1], chatIDs[m])), chatIDs[m])
    {
      var ids := IdsOf(due[..i], chatIDs[m]);
      if m == k {
        assert IdsOf(due[..i + 1], c) == ids + [id];
        assert Clauses(ids + [id]) == Clauses(ids) + Clause(id) by {
          assert (ids + [id])[..|ids|] == ids;
        }
      } else {
        assert chatIDs[m] != c by {
          DedupSpec(Keys(due[..i]));
        }
        assert IdsOf(due[..i + 1], chatIDs[m]) == ids;
      }
    }
  }

  /** Lines 235-243: for each chat, its batch with the trailing ` OR ` cut, then a reorder. */
  method RemoveBatches(db: Db, due: seq<Schedule>, chatIDs: seq<string>, batches: seq<Batch>)
    requires db.Valid() && NoDup(chatIDs) && |batches| == |chatIDs|
    requires forall k :: 0 <= k < |batches| ==>
               batches[k] == Batch(Clauses(IdsOf(due, chatIDs[k])), chatIDs[k])
    modifies db
    ensures db.Valid() && db.Counted()
    ensures db.calls == old(db.calls) + PlanFor(chatIDs, due)
  {
    for j := 0 to |chatIDs|
      invariant db.Valid() && db.Counted()
      invariant db.calls == old(db.calls) + PlanFor(chatIDs[..j], due)
    {
      RemoveBatch(db, due, chatIDs, batches, j);
      PlanForStep(chatIDs, due, j);
      AppendAssoc(old(db.calls), PlanFor(chatIDs[..j], due),
                  [RemoveSchedules(chatIDs[j], Strip(Clauses(IdsOf(due, chatIDs[j])))), ReorderSchedules(chatIDs[j])]);
    }
    assert chatIDs[..|chatIDs|] == chatIDs;
  }

  /** One pass of the second loop: the chat's batch is found, cut and removed, then the
      chat is reordered. */
  method RemoveBatch(db: Db, due: seq<Schedule>, chatIDs: seq<string>, batches: seq<Batch>, j: nat)
    requires db.Valid() && NoDup(chatIDs) && |batches| == |chatIDs| && j < |chatIDs|
    requires forall k :: 0 <= k < |batches| ==>
               batches[k] == Batch(Clauses(IdsOf(due, chatIDs[k])), chatIDs[k])
    modifies db
    ensures db.Valid() && db.Counted()
    ensures db.calls == old(db.calls) + [RemoveSchedules(chatIDs[j], Strip(Clauses(IdsOf(due, chatIDs[j])))),
                                         ReorderSchedules(chatIDs[j])]
  {
    var chat := chatIDs[j];
    assert batches[j].chatID == chat;
    var index := GetDeletingIDsIndex(chat, batches);
    assert index.Some? && chatIDs[index.value] == chat;
    NoDupIndex(chatIDs, index.value, j);
    if index.Some? {
      var s := batches[index.value].s;
      s := Strip(s);
      db.Issue(RemoveSchedules(chat, s));
    }
    db.Issue(ReorderSchedules(chat));
  }

  lemma NoDupIndex<T>(xs: seq<T>, i: nat, j: nat)
    requires NoDup(xs) && i < |xs| && j < |xs| && xs[i] == xs[j]
    ensures i == j
  {
  }

  lemma PlanForStep(chats: seq<string>, due: seq<Schedule>, j: nat)
    requires j < |chats|
    ensures PlanFor(chats[..j + 1], due)
         == PlanFor(chats[..j], due)
            + [RemoveSchedules(chats[j], Strip(Clauses(IdsOf(due, chats[j])))), ReorderSchedules(chats[j])]
  {
    assert chats[..j + 1][..j] == chats[..j];
  }

  /** One step of the first loop, stated on the specification functions. */
  lemma GroupStep(due: seq<Schedule>, i: nat)
    requires i < |due|
    ensures Keys(due[..i + 1]) == Keys(due[..i]) + [due[i].chatid]
    ensures ChatsOf(due[..i + 1])
         == ChatsOf(due[..i]) + (if due[i].chatid in ChatsOf(due[..i]) then [] else [due[i].chatid])
    ensures forall c :: IdsOf(due[..i + 1], c) == IdsOf(due[..i], c) + (if due[i].chatid == c then [due[i].id] else [])
    ensures forall c :: c !in ChatsOf(due[..i]) ==> IdsOf(due[..i], c) == []
  {
    var p := due[..i + 1];
    assert p[..i] == due[..i];
    var ks := Keys(due[..i]);
    DedupSpec(ks);
    forall c | c !in ChatsOf(due[..i])
      ensures IdsOf(due[..i], c) == []
    {
      IdsOfAbsent(due[..i], c);
    }
  }

  lemma {:induction false} IdsOfAbsent(due: seq<Schedule>, c: string)
    requires c !in Keys(due)
    ensures IdsOf(due, c) == []
  {
    if due != [] {
      var init := due[..|due| - 1];
      assert Keys(due) == Keys(init) + [due[|due| - 1].chatid];
      IdsOfAbsent(init, c);
    }
  }

  /** The plan is two calls per chat: its removal, then its reorder. */
  lemma {:induction false} PlanForAt(chats: seq<string>, due: seq<Schedule>, k: nat)
    requires k < |chats|
    ensures |PlanFor(chats, due)| == 2 * |chats|
    ensures PlanFor(chats, due)[2 * k] == RemoveSchedules(chats[k], Strip(Clauses(IdsOf(due, chats[k]))))
    ensures PlanFor(chats, due)[2 * k + 1] == ReorderSchedules(chats[k])
  {
    var init, c := chats[..|chats| - 1], chats[|chats| - 1];
    var p := PlanFor(init, due);
    assert PlanFor(chats, due) == p + [RemoveSchedules(c, Strip(Clauses(IdsOf(due, c)))), ReorderSchedules(c)];
    if k < |init| {
      PlanForAt(init, due, k);
      assert init[k] == chats[k];
    }
  }

  /** The ids of a chat are exactly its due schedules' ids, and every due chat has some. */
  lemma {:induction false} IdsOfSpec(due: seq<Schedule>, c: string)
    ensures forall x :: x in IdsOf(due, c) <==> exists k :: 0 <= k < |due| && due[k].chatid == c && due[k].id == x
  {
    if due != [] {
      var init := due[..|due| - 1];
      IdsOfSpec(init, c);
      forall x
        ensures x in IdsOf(due, c) <==> exists k :: 0 <= k < |due| && due[k].chatid == c && due[k].id == x
      {
        if exists k :: 0 <= k < |due| && due[k].chatid == c && due[k].id == x {
          var k :| 0 <= k < |due| && due[k].chatid == c && due[k].id == x;
          if k < |init| {
            assert init[k] == due[k];
          }
        }
        if x in IdsOf(init, c) {
          var k :| 0 <= k < |init| && init[k].chatid == c && init[k].id == x;
          assert due[k] == init[k];
        }
      }
    }
  }

  /** The plan of the scan: for the `k`-th chat to appear, one `RemoveSchedules` whose
      query joins all of that chat's due ids with ` OR ` (nothing trailing), then one
      `ReorderSchedules`; two calls per chat and nothing else. */
  lemma ScanPlanShape(due: seq<Schedule>, k: nat)
    requires k < |ChatsOf(due)|
    ensures var c := ChatsOf(due)[k];
      |ScanPlan(due)| == 2 * |ChatsOf(due)|
      && IdsOf(due, c) != []
      && ScanPlan(due)[2 * k] == RemoveSchedules(c, OrJoin(IdsOf(due, c)))
      && ScanPlan(due)[2 * k + 1] == ReorderSchedules(c)
  {
    var c := ChatsOf(due)[k];
    PlanForAt(ChatsOf(due), due, k);
    assert c in ChatsOf(due);
    var j :| 0 <= j < |due| && due[j].chatid == c;
    IdsOfSpec(due, c);
    assert due[j].id in IdsOf(due, c);
    StripClauses(IdsOf(due, c));
  }

  /** No chat is removed or reordered twice in one scan. */
  lemma OneBatchPerChat(due: seq<Schedule>, i: nat, j: nat)
    requires i < j < |ChatsOf(due)|
    ensures ScanPlan(due)[2 * i].RemoveSchedules? && ScanPlan(due)[2 * j].RemoveSchedules?
    ensures ScanPlan(due)[2 * i].chat != ScanPlan(due)[2 * j].chat
    ensures ScanPlan(due)[2 * i + 1].ReorderSchedules? && ScanPlan(due)[2 * j + 1].ReorderSchedules?
    ensures ScanPlan(due)[2 * i + 1].chat != ScanPlan(due)[2 * j + 1].chat
  {
    PlanForAt(ChatsOf(due), due, i);
    PlanForAt(ChatsOf(due), due, j);
  }

  /** Chats are handled in the order in which they first appear among the due schedules. */
  lemma ChatsInFirstAppearanceOrder(due: seq<Schedule>, i: nat, j: nat)
    requires i < j < |ChatsOf(due)|
    ensures ChatsOf(due)[i] in Keys(due) && ChatsOf(due)[j] in Keys(due)
    ensures FirstIndex(Keys(due), ChatsOf(due)[i]) < FirstIndex(Keys(due), ChatsOf(due)[j])
  {
    DedupFirstAppearance(Keys(due), i, j);
  }

  /** With nothing due, the scan makes no call beyond the due-query. */
  lemma NothingDue()
    ensures ScanPlan([]) == [] && Notices([]) == []
  {
  }
}
