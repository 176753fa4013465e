# Reminder bot actions, modelled in Dafny

This project models the decision logic of the reminder bot's action handlers in
`BotCode/frontend/bot/botActions.js`. The Telegram transport, the date parser and the
database are abstract:

- every database write the bot makes is appended to a call trace (`Store.Db.calls`), and
  every database call is taken to succeed (see "## Left out");
- everything the bot reads from the database, the clock or the date parser is a parameter;
- every message the bot sends is a tag (`Store.Reply`).

What is left is modelled in the source's own form:

- pure helpers become functions;
- the loops that build arrays become methods with loop invariants;
- the handlers that change the module-level `pendingSchedules` map and the
  `tzPendingConfirmationUsers` list become methods of the class `Actions.Bot`.

Modules:

- `Seqs`: the first-occurrence `filter`, the numeric `sort` and sortedness.
- `Text`: digit classes, the greedy `[0-9]+` scan, and `indexOf`.
- `Numbers`: `Number.prototype.div`, decimal strings, and `parseInt` without a radix.
- `ChatIds`: `FormatChatId` and the scanner's `_`→`-` rewrite.
- `Language`: `DetermineLanguage`.
- `Queries`: the `id = a OR id = b` text built by two handlers.
- `TimeZone`: the offset parser of `ConfrimTimeZone`, and `indexOf`/`splice` on the pending-user list.
- `Store`: the database handle. It holds the `sending` flag and the call trace, and ghost-counts the calls made while the flag is off.
- `Deletion`: `DeleteSchedules`.
- `Admission`: the capacity test of the parse loop.
- `Scanner`: `GetDeletingIDsIndex` and `CheckExpiredSchedules`.
- `Actions`: the `Bot` class and the text, callback, timezone and timeout handlers, and the
  scan's write into the draft map as the code has it (see "## Findings").

Three behaviours of the code are easy to misread; the model follows the code in each:

- **Admission capacity.** A new date is staged only while
  `count + schedulesCount < MaximumCountOfSchedules`, with `count` starting at 1 and
  `schedulesCount` counting stored reminders only. So the drafts staged by one message,
  plus the stored reminders, number at most `MaximumCountOfSchedules - 1`; this is the
  bound `Admission.StagedBound` proves. Drafts a group chat keeps from earlier messages
  are not counted, so a group can queue more than that before a confirm commits them
  all (`Actions.GroupDraftsOutgrowCapacity`).
- **Group prompt.** The test `typeof (schedule) === 'undefined'` at line 458 names a variable
  that is not in scope there, so it always holds. In a group chat the confirm/decline
  prompt is therefore sent whenever the reply is non-empty and the parser found dates.
- **`GetDeletingIDsIndex`.** It returns the `for … in` key, which is a string. Only its use as an
  index and its comparison with `false` matter, so it is modelled as an optional position.

## Model

| member | source | states |
|---|---|---|
| Numbers.Div | BotCode/frontend/bot/botActions.js:18-20 | `div` is floor division: for a positive divisor `q*b <= a < q*b + b`, mirrored for a negative one |
| Language.LanguageOfConcat | BotCode/frontend/bot/botActions.js:25-29 | joining two texts that get the same language keeps that language (Cyrillic and Latin counts add up) |
| Language.PureScripts | BotCode/frontend/bot/botActions.js:25-29 | a text with no Cyrillic letter is EN (ties go to EN); a non-empty all-Cyrillic text is RU |
| Language.DetermineLanguage | BotCode/frontend/bot/botActions.js:25-29 | a text read as Russian is less than half Latin letters; one read as English is at most half Cyrillic |
| Language.CountsBounded | BotCode/frontend/bot/botActions.js:25-29 | the two letter counts together never exceed the text length |
| Scanner.GetDeletingIDsIndex | BotCode/frontend/bot/botActions.js:31-40 | returns the first batch of the chat, or none exactly when no batch belongs to the chat |
| ChatIds.FormatChatId | BotCode/frontend/bot/botActions.js:45-51 | the key never starts with `-`; it starts with `_` iff the id is negative; negative ids are `_` plus the digits of the magnitude, others their decimal string |
| ChatIds.RestoreFormat | BotCode/frontend/bot/botActions.js:198-200 | the scanner's `_`→`-` rewrite of a key gives back the id's decimal string, and unary `+` on it the id |
| ChatIds.FormatChatIdInjective | BotCode/frontend/bot/botActions.js:45-51 | two chats never share a key |
| Numbers.DigitsRoundTrip | BotCode/frontend/bot/botActions.js:45-51 | reading back the decimal digits of `n` gives `n` |
| Numbers.DecimalRoundTrip | BotCode/frontend/bot/botActions.js:198-200 | unary `+` reads back every `toString(10)`, negative ones included |
| Numbers.ParseInt | BotCode/frontend/bot/botActions.js:377 | `parseInt` is negative only after a leading `-` (past the white space) and never positive after one |
| Numbers.ParseIntRoundTrip | BotCode/frontend/bot/botActions.js:377-382 | `parseInt` reads back `n.toString(10)` |
| Numbers.ParseIntNeedsDigit | BotCode/frontend/bot/botActions.js:377-378 | `parseInt` yields a number only for text that holds a digit |
| Text.RunsFrom | BotCode/frontend/bot/botActions.js:92 | every match of `[0-9]+` is a non-empty run of digits |
| Deletion.RangesFrom | BotCode/frontend/bot/botActions.js:93 | every match of `[0-9]+-[0-9]+` is a digit run, a dash and a maximal digit run, at or after the scan position |
| Text.DigitRunsEmpty | BotCode/frontend/bot/botActions.js:92-93 | the global `[0-9]+` match is `null` exactly when the text has no digit |
| Deletion.Resolve | BotCode/frontend/bot/botActions.js:88-124 | the imperative resolver (pushes, filter, sort, query loop) computes `Resolved(text)` |
| Deletion.PushRanges | BotCode/frontend/bot/botActions.js:97-110 | the range loop appends exactly the expansion of every range, in order |
| Deletion.PushRange | BotCode/frontend/bot/botActions.js:98-110 | one range is split at its dash, swapped if reversed and expanded onto `nums` |
| Deletion.PushSpan | BotCode/frontend/bot/botActions.js:107-109 | the inner loop appends exactly `lo..min(hi, lo+10)` |
| Deletion.ParseRuns | BotCode/frontend/bot/botActions.js:94-96 | `parseInt` of every digit run, in order |
| Deletion.DeleteSchedules | BotCode/frontend/bot/botActions.js:84-142 | the calls are `ClearAllSchedules`, nothing, or one `RemoveSchedules` then one `ReorderSchedules`, as the resolution says; the reply tags match |
| Deletion.Resolved | BotCode/frontend/bot/botActions.js:88-124 | `all` at index 5 clears the chat; otherwise no digit means the invalid reply; otherwise something is removed (each an iff) |
| Deletion.ResolvedIds | BotCode/frontend/bot/botActions.js:111-124 | the removed ids are non-empty, strictly ascending and duplicate-free, and are exactly the digit runs plus the range expansions; the query is their ` OR ` join with nothing trailing |
| Deletion.ResolvedIdsUnique | BotCode/frontend/bot/botActions.js:111-115 | any ascending list with the same members is the resolved list |
| Deletion.FilterThenSort | BotCode/frontend/bot/botActions.js:111-115 | `filter` on first occurrence then `sort` gives an ascending duplicate-free list of the same members |
| Deletion.ExpandSpec | BotCode/frontend/bot/botActions.js:107-109 | a range expands to exactly `lo..min(hi, lo+10)`, at most 11 ids |
| Deletion.Endpoints | BotCode/frontend/bot/botActions.js:100-106 | a reversed range is swapped: the pair is ordered and holds the two numbers |
| Deletion.RangeContribution | BotCode/frontend/bot/botActions.js:97-110 | each range of the message contributes at most 11 ids, all removed, with `lo <= hi` its two numbers |
| Deletion.RangeEndpointsRemoved | BotCode/frontend/bot/botActions.js:92-110 | both numbers of every range are removed even when the cap cuts the expansion short |
| Deletion.RangeNumbersRemoved | BotCode/frontend/bot/botActions.js:92-101 | the two numbers of every range, as written, are among the removed ids |
| Deletion.RunRemoved | BotCode/frontend/bot/botActions.js:92-96 | every digit run's value is removed |
| Deletion.RangeHalvesAreRuns | BotCode/frontend/bot/botActions.js:92-93 | both halves of a range match are also digit-run matches |
| Deletion.DashIndex | BotCode/frontend/bot/botActions.js:98-101 | `indexOf('-')` in a range match finds its dash, so the halves are its two numbers |
| Queries.StripClauses | BotCode/frontend/bot/botActions.js:117-124 | appending `id = n OR ` per id and cutting four characters yields the ` OR ` join |
| Seqs.DedupSpec | BotCode/frontend/bot/botActions.js:111-113 | the first-occurrence filter leaves no duplicate and keeps every member |
| Seqs.DedupFirstAppearance | BotCode/frontend/bot/botActions.js:202-204 | the filtered list keeps the order of first appearance |
| Seqs.SortAscending | BotCode/frontend/bot/botActions.js:114-115 | the numeric sort gives an ascending list |
| Seqs.Sort | BotCode/frontend/bot/botActions.js:114-115 | the sort is a permutation: same length, same multiset of elements |
| Seqs.Insert | BotCode/frontend/bot/botActions.js:114-115 | inserting adds exactly one occurrence of the element |
| Seqs.AscendingUnique | BotCode/frontend/bot/botActions.js:111-115 | two strictly ascending lists with the same members are equal |
| TimeZone.ParseOffset | BotCode/frontend/bot/botActions.js:257-280 | the handler reads an offset exactly when the message holds a digit |
| TimeZone.MatchNeedsDigit | BotCode/frontend/bot/botActions.js:257-270 | one of the two patterns matches exactly when the message holds a digit |
| TimeZone.FirstClock | BotCode/frontend/bot/botActions.js:257-262 | a match of the signed `H:MM` pattern has non-empty hour digits and digit minutes |
| TimeZone.FirstClockLeftmost | BotCode/frontend/bot/botActions.js:257-262 | `matches[0]` is the leftmost match: none exactly when no position matches, otherwise the match at the first position that does |
| TimeZone.FirstHour | BotCode/frontend/bot/botActions.js:268-270 | a match of the signed bare-hour pattern has non-empty hour digits and no minutes |
| TimeZone.FirstHourLeftmost | BotCode/frontend/bot/botActions.js:268-270 | the bare-hour `matches[0]` is the leftmost match, as for the clock pattern |
| TimeZone.OffsetOf | BotCode/frontend/bot/botActions.js:262-280 | `NaN` exactly for an en or em dash; after `-` the offset is never positive and otherwise never negative, because `parseInt` gives the hours the sign and `negative` gives it to the minutes; 0 only for zero hours and minutes |
| TimeZone.ClockRoundTrip | BotCode/frontend/bot/botActions.js:257-280 | `±H:MM` written after digit-free text, and followed by anything not starting with a digit, parses to `±(H*3600 + MM*60)`: the `H:MM` form wins and the sign applies to both parts |
| TimeZone.HourRoundTrip | BotCode/frontend/bot/botActions.js:269-280 | `±H` closing an otherwise digit-free text parses to `±H*3600` by the hour-only fallback |
| TimeZone.SkipPrefix | BotCode/frontend/bot/botActions.js:257-269 | no match of either pattern starts in a digit-free prefix that is not followed by a digit |
| TimeZone.Splice1 | BotCode/frontend/bot/botActions.js:286 | `splice(k, 1)` removes the element at `k`; -1 removes the last element; a start past the end changes nothing |
| TimeZone.IndexOfValue | BotCode/frontend/bot/botActions.js:286 | `indexOf` is -1 exactly when the user is absent, else the first position |
| TimeZone.RemoveUser | BotCode/frontend/bot/botActions.js:286 | `splice(indexOf(u), 1)` removes the listed user and no one else and keeps the list duplicate-free; for an absent user it drops the last entry |
| Actions.ConfirmOutcome | BotCode/frontend/bot/botActions.js:255-304 | a listed user's text with a digit gets exactly one `AddUser` or `SetUserTz` of the parsed offset, `tzDefined`, and leaves the list; without a digit, no call, the list unchanged and the invalid-input reply |
| Actions.PlusClockExample | BotCode/frontend/bot/botActions.js:257-280 | `+3:30` is 12600 seconds |
| Actions.MinusClockExample | BotCode/frontend/bot/botActions.js:257-280 | `-5:30` is -19800 seconds |
| Actions.MinusHourExample | BotCode/frontend/bot/botActions.js:269-280 | `-5` is -18000 seconds |
| Actions.ByIdOutcome | BotCode/frontend/bot/botActions.js:375-386 | `/N` removes reminder `N`, renumbers the chat and replies `Deleted(N)`; a command without a digit makes no call and no reply |
| Actions.WroteExactly | BotCode/frontend/bot/botActions.js:412-446 | the loop writes into `reply` iff some candidate was stored, staged or refused, or, in a private chat, any candidate was seen |
| Actions.WarnsExactly | BotCode/frontend/bot/botActions.js:439-441 | `shouldWarn` is set iff the chat is private, the user is unregistered and some new text was within capacity |
| Actions.ParseReplyOutcome | BotCode/frontend/bot/botActions.js:405-479 | a private chat is always answered, with the warning exactly as above; a group chat is answered iff some date was not unparsable, and then always with the prompt and never with the warning |
| Actions.StageOutcome | BotCode/frontend/bot/botActions.js:420-451 | in a private chat the chat's list equals the new drafts before the flush, and emptying it keeps every private list empty; in a group the drafts append to those already waiting; other chats are untouched |
| Actions.PushDraft | BotCode/frontend/bot/botActions.js:420-431 | pushing one draft extends the chat's list by that draft |
| Actions.StageStep | BotCode/frontend/bot/botActions.js:412-446 | one iteration adds one to the staged count exactly for a staged candidate, updates the `reply`/`shouldWarn` flags and the drafts accordingly |
| Actions.StagingStep | BotCode/frontend/bot/botActions.js:412-446 | one candidate judged on the loop's state: a staged draft is appended to the chat's list and counted, and the `reply`/`shouldWarn` flags take the verdict into account |
| Actions.Bot.constructor | BotCode/frontend/bot/botActions.js:12 | the bot starts with no drafts and no user waiting for an offset |
| Actions.GroupDraftsOutgrowCapacity | BotCode/frontend/bot/botActions.js:410-451 | with `MaximumCountOfSchedules` 4 and nothing stored, two messages each staging two new dates in a group leave 4 drafts waiting |
| Actions.Bot.StartTimeZoneDetermination | BotCode/frontend/bot/botActions.js:149-182 | a private chat gets the setup keyboard, naming the current offset unless it is 0, and the list is unchanged; in a group the user is appended only if absent (no duplicates) and gets the group prompt |
| Actions.Bot.ConfirmTimeZone | BotCode/frontend/bot/botActions.js:255-304 | store calls, list and reply are exactly those `ConfirmOutcome` characterises; the drafts are untouched |
| Actions.Bot.StageCandidates | BotCode/frontend/bot/botActions.js:412-446 | the loop pushes exactly the admitted drafts onto the chat's list and sets the `reply`/`shouldWarn` flags as `Wrote`/`Warns` of the verdicts |
| Actions.Bot.ParseSchedules | BotCode/frontend/bot/botActions.js:388-481 | stores the detected language, then a private chat commits its new drafts in one `AddNewSchedules` and keeps none, while a group keeps them pending; the reply is `ParseReply` of the verdicts |
| Actions.Bot.FlushPrivate | BotCode/frontend/bot/botActions.js:448-451 | a private chat with drafts commits them in one `AddNewSchedules` and empties its list; otherwise nothing changes |
| Actions.Bot.HandleTextMessage | BotCode/frontend/bot/botActions.js:367-482 | a listed user's text goes to the offset parser, `/…` to delete-by-id, anything else to parsing; each route's calls, list, drafts and reply are stated |
| Actions.Bot.HandleCallbackQuery | BotCode/frontend/bot/botActions.js:310-360 | `repeat` re-adds the found reminder at `div(now + repeatScheduleTime, 1000)`; `confirm` commits non-empty drafts and always empties them; `delete` and others change nothing |
| Actions.Bot.DiscardOnTimeout | BotCode/frontend/bot/botActions.js:465-472 | the timeout empties the chat's drafts and nothing else |
| Admission.Judge | BotCode/frontend/bot/botActions.js:413-444 | a candidate is reported as stored iff its text is stored; it is within capacity iff new and `schedulesCount + staged < Max - 1`; staged only with date parameters |
| Admission.Verdicts | BotCode/frontend/bot/botActions.js:412-446 | one verdict per candidate |
| Admission.Drafts | BotCode/frontend/bot/botActions.js:420-432 | at most one draft per candidate |
| Admission.StagedBound | BotCode/frontend/bot/botActions.js:402-444 | once one message stages anything, the drafts it staged plus the stored reminders number at most `MaximumCountOfSchedules - 1` |
| Admission.StagedExactly | BotCode/frontend/bot/botActions.js:413-432 | a candidate is staged iff its text is new, the parser gave dates and `count + schedulesCount < Max`; a stored text is never staged |
| Admission.RefusalIsFinal | BotCode/frontend/bot/botActions.js:417-444 | after one capacity refusal every later new text in the message is refused too |
| Admission.DraftsStaged | BotCode/frontend/bot/botActions.js:420-432 | one draft per staged candidate, all for this chat and author, with id 0 and a text the chat does not hold |
| Admission.VerdictAt | BotCode/frontend/bot/botActions.js:412-432 | each candidate is judged with the count of drafts staged before it |
| Admission.VerdictsPrefix | BotCode/frontend/bot/botActions.js:412 | the verdicts of a prefix of the candidates are a prefix of the verdicts |
| Store.Db.Issue | BotCode/frontend/bot/botActions.js:240-242 | one awaited store call is appended to the trace |
| Scanner.CheckExpiredSchedules | BotCode/frontend/bot/botActions.js:188-248 | the trace gains the due-query then exactly the scan plan, every call made while `sending` is on, `sending` off at the end; one notice per due schedule in order |
| Scanner.GroupDue | BotCode/frontend/bot/botActions.js:196-233 | `ChatIDs` is the chats in order of first appearance, and each chat's batch holds all its due ids in scan order |
| Scanner.GroupOne | BotCode/frontend/bot/botActions.js:196-233 | one step of the first loop keeps the chats in first-appearance order and every batch holding all ids of its chat so far |
| Scanner.RemoveBatches | BotCode/frontend/bot/botActions.js:235-243 | the removal loop issues exactly the plan: per chat, its `RemoveSchedules` then its `ReorderSchedules` |
| Scanner.ScanPlanShape | BotCode/frontend/bot/botActions.js:226-243 | for the k-th chat, one `RemoveSchedules` whose query joins all of its due ids with ` OR ` (none trailing), then one `ReorderSchedules`; two calls per chat |
| Scanner.OneBatchPerChat | BotCode/frontend/bot/botActions.js:235-243 | no chat is removed or reordered twice in one scan |
| Scanner.ChatsInFirstAppearanceOrder | BotCode/frontend/bot/botActions.js:202-204 | chats are handled in the order they first appear among the due schedules |
| Scanner.ChatsOf | BotCode/frontend/bot/botActions.js:202-204 | `ChatIDs` is duplicate-free and holds exactly the chats of the due schedules |
| Scanner.IdsOf | BotCode/frontend/bot/botActions.js:227-232 | a chat's batch has at most one id per due schedule |
| Scanner.PlanFor | BotCode/frontend/bot/botActions.js:235-243 | the second loop makes two calls per chat |
| Scanner.ScanPlan | BotCode/frontend/bot/botActions.js:235-243 | the scan's removal plan has two calls per chat of the due schedules |
| Scanner.IdsOfSpec | BotCode/frontend/bot/botActions.js:227-232 | a chat's batch holds exactly the ids of its due schedules |
| Scanner.NoticeTarget | BotCode/frontend/bot/botActions.js:197-213 | a reminder is sent to the chat it was stored for, mentioning the author unless the name is `none` |
| Actions.NoteDue | BotCode/frontend/bot/botActions.js:196-209 | as written, the scan leaves a text in the draft map for every due chat, under the key of lines 197-200 |
| Actions.PushAsWritten | BotCode/frontend/bot/botActions.js:427-431 | as written, `push` fails exactly on a slot that holds a text; otherwise it appends the draft |
| Actions.ReminderBreaksPrivateDrafts | BotCode/frontend/bot/botActions.js:197-209 | as written, after a private chat's reminder fires, the chat's next draft cannot be pushed, and a message that stages none commits the reminder's text |
| Scanner.NothingDue | BotCode/frontend/bot/botActions.js:192 | with nothing due, no call follows the due-query and nothing is sent |

## Left out

- Telegram transport: replies, keyboards, message edits and deletions, `answerCbQuery`, and the reply wording (`LoadReplies`, `rp.*`). Messages are modelled as `Reply` tags only.
- Date parsing (`parseDate`, `parseString`, `ProcessParsedDate`, `FormDateStringFormat`): foreign libraries. What they find is the `cands` parameter, and `None` stands for `undefined` date parameters.
- `LoadSchedulesList`: date arithmetic with `Date` and time-zone offsets on the list-rendering path, which makes no state change.
- Database internals: the SQL of `RemoveSchedules`, the renumbering of `ReorderSchedules`, and which schedules `CheckActiveSchedules` returns. Writes are a call trace. Reads (`GetScheduleByText`, `GetSchedules`, `HasUserID`, `GetUserTZ`, and the due list) are parameters.
- `GetUserLanguage` is used only for reply text. `GetUserTZ` gives the `curTz` that `StartTimeZoneDetermination` shows, the dates rendered in replies, and the offset that `ProcessParsedDate` uses at line 418 to compute a draft's dates. That last use is folded into the `cands` parameter, whose date parameters are taken as already computed with it.
- Concurrency and timers: `async` interleaving, and the `setTimeout` callbacks. The draft timeout is the separate method `DiscardOnTimeout`. The keyboard-removal timer of the scan is left out.
- Scanner.CheckExpiredSchedules: a failed send is caught and has no effect on the plan, so notices are values and send failures are not modelled.
- The write `pendingSchedules[chatID] = schedule.text` at line 209 stores a string into the draft map. For a group chat the key has `-` where `FormatChatId` puts `_`, so nothing reads it. For a private chat it is the key the text handler uses; see "## Findings". The model keeps the map typed as chat → drafts and leaves this write out of the handlers. `Actions.NoteDue`, `Actions.PushAsWritten` and `Actions.CommitsAsWritten` model it as written.
- Logging (`console.log`, `console.error`).
- JavaScript numbers are unbounded integers here: precision loss above 2^53 is not modelled.
- Numbers.Div: division by zero (`Infinity`/`NaN` in JavaScript) is excluded by the precondition. Every caller divides by 1000.
- Numbers.DecimalValue: gives the value of plain decimal strings only. It is used where the key came from `FormatChatId`.
- Offsets signed with an en dash or em dash: `parseInt` gives `NaN`, which is modelled as the tag `TimeZone.NaN` and not as a number.
- Actions.Bot.HandleCallbackQuery: a `repeat` whose reminder is no longer stored throws in the source before any write. The model makes no call and does not model the exception.
- Actions.Bot.StartTimeZoneDetermination: the private-chat path returns from inside `try`, so it never reaches the list. Only that outcome is modelled, not a failing reply.
- Actions.Bot.ConfirmTimeZone: the caller at line 371 does not await it. The model runs it to completion.
- String positions: JavaScript indexes strings by UTF-16 code unit, the model by character. `msgText.indexOf('all')`, compared with 5 in `Deletion.Resolved`, can differ when a character outside the Basic Multilingual Plane comes earlier, which only matters for a message not starting with `/del `.
- Scanner.CheckExpiredSchedules: assumes that every awaited database call succeeds. In the source a rejection at line 191, 210, 240 or 242 ends the scan before line 246: the rest of the plan is not issued and `db.sending` stays on for good. The contract's full plan and `!db.sending` hold only for a scan without a rejection.
- Actions.Bot.FlushPrivate: assumes that `AddNewSchedules` succeeds. In the source a rejection at line 449 skips the reset at line 450, so the drafts stay queued and the chat's next message commits them again. The invariant that no private chat holds drafts (`PrivateDraftsFlushed`, part of `Actions.Bot.Valid`) holds only while no such call is rejected.
- Actions.Bot.ParseSchedules: assumes that `SetUserLanguage`, `GetSchedules`, `GetScheduleByText`, `HasUserID` and `AddNewSchedules` succeed. In the source a rejection ends the handler where it happens, with the drafts pushed so far left in the map and no reply.
- Actions.Bot.HandleTextMessage: makes the same assumption on each route. A rejected `RemoveScheduleById` or `ReorderSchedules` ends the `/N` route without a reply; the other routes are as in `ParseSchedules` and `ConfirmTimeZone`.
- Actions.Bot.ConfirmTimeZone: assumes that `HasUserID`, `AddUser` and `SetUserTz` succeed. In the source a rejection at lines 281-285 skips the `splice` at line 286, so the user stays listed.
- Deletion.DeleteSchedules: assumes that its calls succeed. A rejection ends the handler without a reply and leaves no state in memory.

## Findings

| source | as written | input that shows it | evidently intended | confidence | as-written member | corrected member |
|---|---|---|---|---|---|---|
| BotCode/frontend/bot/botActions.js:209 | the scan stores the reminder's text in `pendingSchedules` under the chat's key, which for a private chat is the key the text handler uses for its drafts | a private chat with one due reminder, then a message in that chat with a new date: `push` on the string throws at line 431; a message that stages nothing instead passes the string to `AddNewSchedules` at line 449 | the scan leaves the draft map alone, so the chat's next message stages and commits only its own drafts, as `Actions.StageOutcome` proves for the model, whose scan changes only the database | medium, not executed | Actions.ReminderBreaksPrivateDrafts | Actions.StageOutcome |
