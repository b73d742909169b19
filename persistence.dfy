/** The idempotency store: three SQLite tables, each a map keyed by its
    UNIQUE column(s), so that `INSERT OR REPLACE` is a map update. Times are
    whole seconds; `now` stands for SQLite's `CURRENT_TIMESTAMP` and for
    Python's `datetime.utcnow()`. */
module Persistence {
  import opened Wrappers
  import opened Text

  /** A `processed_messages` row, keyed by `(message_id, chat_id)`. */
  datatype MessageRow = MessageRow(userId: Option<int>, timestamp: int, processedAt: int)

  /** A `processed_reactions` row, keyed by `reaction_key`. */
  datatype ReactionRow = ReactionRow(chatId: int, messageId: int, userId: Option<int>, emoji: string, processedAt: int)

  /** A `bot_state` row, keyed by `key`. */
  datatype StateRow = StateRow(value: string, updatedAt: int)

  /** A row as `get_recent_processed_messages` returns it. */
  datatype ProcessedMessage = ProcessedMessage(
    messageId: int, chatId: int, userId: Option<int>, timestamp: int, processedAt: int)

  const SecondsPerDay := 86400

  /** The bot-state key under which a chat's last processed time is kept. */
  function LastProcessedKey(chatId: int): string {
    "last_processed_" + IntToString(chatId)
  }

  /** Different chats never share a last-processed key. */
  lemma LastProcessedKeyInjective(a: int, b: int)
    requires LastProcessedKey(a) == LastProcessedKey(b)
    ensures a == b
  {
    var prefix := "last_processed_";
    assert LastProcessedKey(a)[|prefix|..] == IntToString(a);
    assert LastProcessedKey(b)[|prefix|..] == IntToString(b);
    IntToStringInjective(a, b);
  }

  type MessageTable = map<(int, int), MessageRow>

  /** The keys of a chat's rows. */
  function KeysOfChat(table: MessageTable, chatId: int): set<(int, int)> {
    set k | k in table && k.1 == chatId
  }

  /** A stored row as the query returns it. */
  function RowOf(table: MessageTable, k: (int, int)): ProcessedMessage
    requires k in table
  {
    ProcessedMessage(k.0, k.1, table[k].userId, table[k].timestamp, table[k].processedAt)
  }

  /** Among finitely many stored rows one has the latest timestamp. */
  lemma LatestExists(table: MessageTable, keys: set<(int, int)>)
    requires keys != {} && keys <= table.Keys
    ensures exists k :: k in keys && forall k2 :: k2 in keys ==> table[k2].timestamp <= table[k].timestamp
  {
    var x :| x in keys;
    if keys != {x} {
      LatestExists(table, keys - {x});
      var y :| y in keys - {x} && forall k2 :: k2 in keys - {x} ==> table[k2].timestamp <= table[y].timestamp;
      if table[x].timestamp <= table[y].timestamp {
        assert forall k2 :: k2 in keys ==> table[k2].timestamp <= table[y].timestamp;
      } else {
        assert forall k2 :: k2 in keys ==> table[k2].timestamp <= table[x].timestamp;
      }
    } else {
      assert forall k2 :: k2 in keys ==> k2 == x;
    }
  }

  function MessageIds(rows: seq<ProcessedMessage>): set<int> {
    set i | 0 <= i < |rows| :: rows[i].messageId
  }

  /** `PersistenceManager`. */
  class PersistenceManager {
    var messages: map<(int, int), MessageRow>
    var reactions: map<string, ReactionRow>
    var state: map<string, StateRow>

    /** Opening the database creates missing tables and keeps existing rows. */
    constructor (messages: map<(int, int), MessageRow>, reactions: map<string, ReactionRow>, state: map<string, StateRow>)
      ensures this.messages == messages && this.reactions == reactions && this.state == state
    {
      this.messages := messages;
      this.reactions := reactions;
      this.state := state;
    }

    /** `is_message_processed`. */
    predicate IsMessageProcessed(messageId: int, chatId: int)
      reads this
    {
      (messageId, chatId) in messages
    }

    /** `is_reaction_processed`. */
    predicate IsReactionProcessed(reactionKey: string)
      reads this
    {
      reactionKey in reactions
    }

    /** `get_bot_state`: the stored value, or `None` for an unknown key. */
    function GetBotState(key: string): (r: Option<string>)
      reads this
      ensures r.Some? <==> key in state
      ensures r.Some? ==> r.value == state[key].value
    {
      if key in state then Some(state[key].value) else None
    }

    /** `get_last_processed_timestamp`: an empty or missing value gives `None`,
        and so does one `datetime.fromisoformat` (the parameter `fromIso`)
        rejects. */
    function GetLastProcessedTimestamp(chatId: int, fromIso: string -> Option<int>): (r: Option<int>)
      reads this
      ensures r.Some? ==> LastProcessedKey(chatId) in state
                          && fromIso(state[LastProcessedKey(chatId)].value) == r
      ensures LastProcessedKey(chatId) !in state ==> r.None?
      ensures LastProcessedKey(chatId) in state && state[LastProcessedKey(chatId)].value != "" ==>
                  r == fromIso(state[LastProcessedKey(chatId)].value)
      ensures LastProcessedKey(chatId) in state && state[LastProcessedKey(chatId)].value == "" ==> r.None?
    {
      var stored := GetBotState(LastProcessedKey(chatId));
      if stored.Some? && stored.value != "" then fromIso(stored.value) else None
    }

    /** `mark_message_processed`: an upsert on `(message_id, chat_id)` whose
        `processed_at` is fresh; a missing timestamp defaults to `now`. */
    method MarkMessageProcessed(messageId: int, chatId: int, userId: Option<int>, timestamp: Option<int>, now: int)
      modifies this
      ensures messages == old(messages)[(messageId, chatId) :=
                MessageRow(userId, if timestamp.Some? then timestamp.value else now, now)]
      ensures reactions == old(reactions) && state == old(state)
      ensures IsMessageProcessed(messageId, chatId)
      ensures forall m, c :: (m, c) != (messageId, chatId) ==>
                IsMessageProcessed(m, c) == old(IsMessageProcessed(m, c))
      ensures |messages| == old(|messages|) + (if (messageId, chatId) in old(messages) then 0 else 1)
    {
      var stamp := if timestamp.Some? then timestamp.value else now;
      messages := messages[(messageId, chatId) := MessageRow(userId, stamp, now)];
    }

    /** `mark_reaction_processed`: an upsert on `reaction_key`. */
    method MarkReactionProcessed(reactionKey: string, chatId: int, messageId: int, userId: Option<int>,
                                 now: int, reactionEmoji: string := "\U{1F44D}")
      modifies this
      ensures reactions == old(reactions)[reactionKey := ReactionRow(chatId, messageId, userId, reactionEmoji, now)]
      ensures messages == old(messages) && state == old(state)
      ensures IsReactionProcessed(reactionKey)
      ensures forall k :: k != reactionKey ==> IsReactionProcessed(k) == old(IsReactionProcessed(k))
      ensures |reactions| == old(|reactions|) + (if reactionKey in old(reactions) then 0 else 1)
    {
      reactions := reactions[reactionKey := ReactionRow(chatId, messageId, userId, reactionEmoji, now)];
    }

    /** `set_bot_state`: an upsert on `key` stamped with `now`. */
    method SetBotState(key: string, value: string, now: int)
      modifies this
      ensures state == old(state)[key := StateRow(value, now)]
      ensures messages == old(messages) && reactions == old(reactions)
      ensures GetBotState(key) == Some(value)
      ensures forall k :: k != key ==> GetBotState(k) == old(GetBotState(k))
    {
      state := state[key := StateRow(value, now)];
    }

    /** `set_last_processed_timestamp`: the `isoformat()` rendering (the
        parameter `toIso`) under the chat's key. When `fromisoformat` reads
        that rendering back, the chat's last processed time is the one set,
        and no other chat's changes. */
    method SetLastProcessedTimestamp(chatId: int, timestamp: int, toIso: int -> string,
                                     fromIso: string -> Option<int>, now: int)
      modifies this
      ensures state == old(state)[LastProcessedKey(chatId) := StateRow(toIso(timestamp), now)]
      ensures messages == old(messages) && reactions == old(reactions)
      ensures toIso(timestamp) != "" && fromIso(toIso(timestamp)) == Some(timestamp)
              ==> GetLastProcessedTimestamp(chatId, fromIso) == Some(timestamp)
      ensures forall c :: c != chatId ==>
                GetLastProcessedTimestamp(c, fromIso) == old(GetLastProcessedTimestamp(c, fromIso))
    {
      SetBotState(LastProcessedKey(chatId), toIso(timestamp), now);
      forall c | c != chatId
        ensures LastProcessedKey(c) != LastProcessedKey(chatId)
      {
        if LastProcessedKey(c) == LastProcessedKey(chatId) {
          LastProcessedKeyInjective(c, chatId);
        }
      }
    }

    /** `cleanup_old_data`: deletes exactly the processed messages and
        reactions stamped before `now - daysToKeep` days; bot state stays. */
    method CleanupOldData(now: int, daysToKeep: int := 30)
      modifies this
      ensures var cutoff := now - daysToKeep * SecondsPerDay;
        && messages.Keys == set k | k in old(messages) && old(messages)[k].processedAt >= cutoff
        && reactions.Keys == set k | k in old(reactions) && old(reactions)[k].processedAt >= cutoff
      ensures forall k :: k in messages ==> k in old(messages) && messages[k] == old(messages)[k]
      ensures forall k :: k in reactions ==> k in old(reactions) && reactions[k] == old(reactions)[k]
      ensures state == old(state)
    {
      var cutoff := now - daysToKeep * SecondsPerDay;
      messages := map k | k in messages && messages[k].processedAt >= cutoff :: messages[k];
      reactions := map k | k in reactions && reactions[k].processedAt >= cutoff :: reactions[k];
    }

    function ReactionKeysOfChat(chatId: int): set<string>
      reads this
    {
      set k | k in reactions && reactions[k].chatId == chatId
    }

    /** `get_processed_messages_count`: a falsy chat id (`None` or 0) counts
        every row. */
    function GetProcessedMessagesCount(chatId: Option<int>): (n: nat)
      reads this
      ensures n <= |messages|
      ensures chatId.None? || chatId.value == 0 ==> n == |messages|
      ensures chatId.Some? && chatId.value != 0 ==> n == |KeysOfChat(messages, chatId.value)|
    {
      if chatId.Some? && chatId.value != 0 then
        SubsetCardinality(KeysOfChat(messages, chatId.value), messages.Keys);
        |KeysOfChat(messages, chatId.value)|
      else |messages|
    }

    /** `get_processed_reactions_count`: a falsy chat id counts every row. */
    function GetProcessedReactionsCount(chatId: Option<int>): (n: nat)
      reads this
      ensures n <= |reactions|
      ensures chatId.None? || chatId.value == 0 ==> n == |reactions|
      ensures chatId.Some? && chatId.value != 0 ==> n == |ReactionKeysOfChat(chatId.value)|
    {
      if chatId.Some? && chatId.value != 0 then
        SubsetCardinality(ReactionKeysOfChat(chatId.value), reactions.Keys);
        |ReactionKeysOfChat(chatId.value)|
      else |reactions|
    }

    /** `get_recent_processed_messages`: the chat's rows, latest timestamp
        first, at most `limit` of them (a negative limit means no limit, as in
        SQLite); rows with equal timestamps come in no particular order. */
    method GetRecentProcessedMessages(chatId: int, limit: int := 100) returns (rows: seq<ProcessedMessage>)
      ensures forall i :: 0 <= i < |rows| ==>
                (rows[i].messageId, chatId) in messages && rows[i] == RowOf(messages, (rows[i].messageId, chatId))
      ensures forall i, j :: 0 <= i < j < |rows| ==> rows[i].timestamp >= rows[j].timestamp
      ensures forall i, j :: 0 <= i < j < |rows| ==> rows[i].messageId != rows[j].messageId
      ensures var n := |KeysOfChat(messages, chatId)|;
                |rows| == if 0 <= limit < n then limit else n
      ensures forall k :: k in KeysOfChat(messages, chatId) && k.0 !in MessageIds(rows) ==>
                forall i :: 0 <= i < |rows| ==> messages[k].timestamp <= rows[i].timestamp
    {
      var table := messages;
      var keys := KeysOfChat(table, chatId);
      var remaining := keys;
      rows := [];
      while remaining != {} && (limit < 0 || |rows| < limit)
        invariant Selection(table, chatId, keys, remaining, rows, limit)
        decreases |remaining|
      {
        LatestExists(table, remaining);
        var k :| k in remaining && forall k2 :: k2 in remaining ==> table[k2].timestamp <= table[k].timestamp;
        SelectionStep(table, chatId, keys, remaining, rows, limit, k);
        rows := rows + [RowOf(table, k)];
        remaining := remaining - {k};
      }
      SelectionDone(table, chatId, keys, remaining, rows, limit);
    }
  }

  /** The state of the query part-way: `rows` are the latest of the chat's
      rows in descending order, `remaining` the ones not yet taken. */
  predicate Selection(table: MessageTable, chatId: int, keys: set<(int, int)>,
                      remaining: set<(int, int)>, rows: seq<ProcessedMessage>, limit: int)
  {
    && keys == KeysOfChat(table, chatId)
    && remaining <= keys
    && |rows| + |remaining| == |keys|
    && (limit >= 0 ==> |rows| <= limit)
    && (forall i :: 0 <= i < |rows| ==>
          (rows[i].messageId, chatId) in keys && rows[i] == RowOf(table, (rows[i].messageId, chatId))
          && (rows[i].messageId, chatId) !in remaining)
    && (forall i, j :: 0 <= i < j < |rows| ==> rows[i].timestamp >= rows[j].timestamp)
    && (forall i, j :: 0 <= i < j < |rows| ==> rows[i].messageId != rows[j].messageId)
    && (forall k :: k in keys ==> k in remaining || k.0 in MessageIds(rows))
    && (forall k :: k in remaining ==> forall i :: 0 <= i < |rows| ==> table[k].timestamp <= rows[i].timestamp)
  }

  /** Taking the latest remaining row keeps the selection in order. */
  lemma SelectionStep(table: MessageTable, chatId: int, keys: set<(int, int)>,
                      remaining: set<(int, int)>, rows: seq<ProcessedMessage>, limit: int, k: (int, int))
    requires Selection(table, chatId, keys, remaining, rows, limit)
    requires limit < 0 || |rows| < limit
    requires k in remaining && forall k2 :: k2 in remaining ==> table[k2].timestamp <= table[k].timestamp
    ensures Selection(table, chatId, keys, remaining - {k}, rows + [RowOf(table, k)], limit)
  {
    var row := RowOf(table, k);
    var longer := rows + [row];
    MessageIdsSnoc(rows, row);
    assert k.1 == chatId;
    assert forall i :: 0 <= i < |rows| ==> longer[i] == rows[i];
    assert longer[|rows|] == row;
  }

  /** When the loop stops, the selection is the query's answer. */
  lemma SelectionDone(table: MessageTable, chatId: int, keys: set<(int, int)>,
                      remaining: set<(int, int)>, rows: seq<ProcessedMessage>, limit: int)
    requires Selection(table, chatId, keys, remaining, rows, limit)
    requires !(remaining != {} && (limit < 0 || |rows| < limit))
    ensures |rows| == if 0 <= limit < |keys| then limit else |keys|
    ensures forall k :: k in keys && k.0 !in MessageIds(rows) ==>
              forall i :: 0 <= i < |rows| ==> table[k].timestamp <= rows[i].timestamp
  {
  }

  lemma MessageIdsSnoc(rows: seq<ProcessedMessage>, row: ProcessedMessage)
    ensures MessageIds(rows + [row]) == MessageIds(rows) + {row.messageId}
  {
    var longer := rows + [row];
    forall x | x in MessageIds(rows) ensures x in MessageIds(longer) {
      var i :| 0 <= i < |rows| && rows[i].messageId == x;
      assert longer[i] == rows[i];
    }
    assert longer[|rows|] == row;
  }

  /** A subset has no more elements than its superset. */
  lemma SubsetCardinality<T>(a: set<T>, b: set<T>)
    requires a <= b
    ensures |a| <= |b|
  {
    if a != {} {
      var x :| x in a;
      SubsetCardinality(a - {x}, b - {x});
    }
  }
}
