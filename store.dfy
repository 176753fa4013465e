/** The database as the bot sees it. Its internals (SQL, renumbering, the due-query) are
    not part of this model: every write the bot makes is recorded, in order, as a call on
    an abstract trace, and everything the bot reads from the database is handed to the
    handlers as a parameter. */
module Store {
  import opened Wrappers
  import opened TimeZone
  import opened Language

  /** What `ProcessParsedDate` makes of a parsed date. */
  datatype DateParams = DateParams(targetDate: int, periodTime: int, maxDate: int)

  /** A stored reminder: `new Schedule(chatid, id, text, username, target_date,
      period_time, max_date)`. */
  datatype Schedule = Schedule(chatid: string, id: int, text: string, username: string,
                               targetDate: int, periodTime: int, maxDate: int)

  /** The messages the bot sends, as tags: their wording, keyboards and formatting are not
      part of this model. */
  datatype Reply =
    | NoReply
    | Cleared
    | Deleted(ids: seq<int>)
    | InvalidDelete
    | TzSetupKeyboard(current: Option<Tz>)  // the current offset is shown unless it is 0
    | TzGroupPrompt
    | TzDefined(tz: Tz)
    | TzInvalidInput
    | ParseReport(confirmPrompt: bool, tzWarning: bool)

  /** The `dbManagement` writes the bot issues. */
  datatype StoreCall =
    | ClearAllSchedules(chat: string)
    | RemoveSchedules(chat: string, query: string)
    | RemoveScheduleById(chat: string, id: int)
    | ReorderSchedules(chat: string)
    | AddNewSchedule(schedule: Schedule)
    | AddNewSchedules(chat: string, schedules: seq<Schedule>)
    | AddUser(user: int, tz: Tz, lang: Lang)
    | SetUserTz(user: int, tz: Tz)
    | SetUserLanguage(user: int, lang: Lang)
    | CheckActiveSchedules(now: int)

  /** The `db` object: its `sending` flag, its default language and the trace of calls
      made on it. `idleCalls` counts the calls made while `sending` was off. */
  class Db {
    var sending: bool
    var calls: seq<StoreCall>
    ghost var idleCalls: nat
    const defaultUserLanguage: Lang

    ghost predicate Valid()
      reads this
    {
      idleCalls <= |calls|
    }

    /** Since the previous state the flag has not moved, and each new call was counted as
        idle exactly when the flag is off. */
    twostate predicate Counted()
      reads this
    {
      sending == old(sending) && |old(calls)| <= |calls|
      && idleCalls == old(idleCalls) + (if sending then 0 else |calls| - |old(calls)|)
    }

    constructor (language: Lang)
      ensures Valid() && !sending && calls == [] && defaultUserLanguage == language
    {
      sending := false;
      calls := [];
      idleCalls := 0;
      defaultUserLanguage := language;
    }

    /** One awaited call on the database. */
    method Issue(c: StoreCall)
      requires Valid()
      modifies this
      ensures Valid()
      ensures calls == old(calls) + [c]
      ensures Counted()
    {
      calls := calls + [c];
      if !sending {
        idleCalls := idleCalls + 1;
      }
    }
  }
}
