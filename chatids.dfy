/** The string key under which the bot files a chat: the decimal chat id with `_` in place
    of the minus sign of a group chat (`FormatChatId`), and the scanner's way back. */
module ChatIds {
  import opened Wrappers
  import opened Numbers

  /** `FormatChatId`: a negative (group) id becomes `_` and its digits, a non-negative
      (private) id is its plain decimal string. */
  function FormatChatId(id: int): (key: string)
    ensures key != [] && key[0] != '-'
    ensures key[0] == '_' <==> id < 0
    ensures id < 0 ==> key == "_" + NatToString(-id)
    ensures id >= 0 ==> key == NatToString(id)
  {
    var s := IntToString(id);
    if s[0] == '-' then "_" + s[1..] else s
  }

  /** A key of a group chat, as `HandleTextMessage` tests it (`chatID[0] === '_'`). */
  predicate IsGroupKey(key: string)
  {
    key != [] && key[0] == '_'
  }

  /** The rewrite the expiration scanner applies to a stored key before sending:
      a leading `_` becomes `-` again. */
  function RestoreChatId(key: string): string
  {
    if key != [] && key[0] == '_' then "-" + key[1..] else key
  }

  /** Restoring a formatted key gives back the decimal string of the id, and unary `+`
      on it gives back the id the scanner sends to. */
  lemma RestoreFormat(id: int)
    ensures RestoreChatId(FormatChatId(id)) == IntToString(id)
    ensures DecimalValue(RestoreChatId(FormatChatId(id))) == Some(id)
  {
    DecimalRoundTrip(id);
  }

  /** Different chats never share a key. */
  lemma FormatChatIdInjective(a: int, b: int)
    requires FormatChatId(a) == FormatChatId(b)
    ensures a == b
  {
    RestoreFormat(a);
    RestoreFormat(b);
  }
}
