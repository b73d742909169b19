/** The context buffer: the recent messages of whitelisted chats, kept for a
    day, from which the reaction pipeline takes its context window. */
module MessageHandling {
  import opened Wrappers
  import opened Text
  import opened Audit
  import opened Helpers
  import opened Config
  import opened Persistence

  /** The sender as far as the buffer looks at it. */
  datatype Sender = Sender(username: Option<string>)

  /** An incoming Telegram message. `date` is Telethon's UTC datetime, in
      seconds. */
  datatype IncomingMessage = IncomingMessage(
    id: int, chatId: int, senderId: Option<int>, sender: Option<Sender>, text: string, date: int)

  /** A buffered message (the `msg_data` dictionary). */
  datatype BufferedMessage = BufferedMessage(
    id: int, text: string, username: Option<string>, timestamp: int, userId: Option<int>, chatId: int)

  /** How long messages stay in the buffer. */
  const BufferSeconds := 24 * 60 * 60

  /** The prune: the messages whose timestamp, compared without its UTC
      offset, is after the cutoff, in their original order. */
  function Prune(msgs: seq<BufferedMessage>, cutoff: int): (r: seq<BufferedMessage>)
    ensures |r| <= |msgs|
    ensures forall m :: m in r <==> m in msgs && m.timestamp > cutoff
  {
    if msgs == [] then []
    else
      var last := msgs[|msgs| - 1];
      Prune(msgs[..|msgs| - 1], cutoff)
        + (if CompareDatetimeWithCutoff(Aware(last.timestamp, 0), cutoff) then [last] else [])
  }

  /** Pruning distributes over concatenation, so survivors keep their order. */
  lemma {:induction false} PruneDistributes(a: seq<BufferedMessage>, b: seq<BufferedMessage>, cutoff: int)
    ensures Prune(a + b, cutoff) == Prune(a, cutoff) + Prune(b, cutoff)
    decreases |b|
  {
    if b != [] {
      var init := b[..|b| - 1];
      var last := b[|b| - 1];
      var keep := if CompareDatetimeWithCutoff(Aware(last.timestamp, 0), cutoff) then [last] else [];
      assert (a + b)[..|a + b| - 1] == a + init;
      assert (a + b)[|a + b| - 1] == last;
      assert Prune(a + b, cutoff) == Prune(a + init, cutoff) + keep;
      assert Prune(b, cutoff) == Prune(init, cutoff) + keep;
      PruneDistributes(a, init, cutoff);
    } else {
      assert a + b == a;
    }
  }

  /** A message dated at or before the cutoff is dropped by the very prune
      that follows its own append. */
  lemma StaleMessageDropped(msgs: seq<BufferedMessage>, m: BufferedMessage, cutoff: int)
    requires m.timestamp <= cutoff
    ensures Prune(msgs + [m], cutoff) == Prune(msgs, cutoff)
  {
    assert (msgs + [m])[..|msgs|] == msgs;
  }

  predicate SortedByTimestamp(s: seq<BufferedMessage>) {
    forall i, j :: 0 <= i < j < |s| ==> s[i].timestamp <= s[j].timestamp
  }

  /** Inserting after every element whose timestamp is not later. */
  function Insert(m: BufferedMessage, sorted: seq<BufferedMessage>): (r: seq<BufferedMessage>)
    ensures |r| == |sorted| + 1
    ensures forall x :: x in r <==> x == m || x in sorted
  {
    if sorted == [] then [m]
    else if sorted[|sorted| - 1].timestamp <= m.timestamp then sorted + [m]
    else Insert(m, sorted[..|sorted| - 1]) + [sorted[|sorted| - 1]]
  }

  lemma {:induction false} InsertPermutes(m: BufferedMessage, sorted: seq<BufferedMessage>)
    ensures multiset(Insert(m, sorted)) == multiset(sorted) + multiset{m}
    decreases |sorted|
  {
    if sorted != [] && sorted[|sorted| - 1].timestamp > m.timestamp {
      var init := sorted[..|sorted| - 1];
      assert sorted == init + [sorted[|sorted| - 1]];
      InsertPermutes(m, init);
    }
  }

  lemma {:induction false} InsertSorted(m: BufferedMessage, sorted: seq<BufferedMessage>)
    requires SortedByTimestamp(sorted)
    ensures SortedByTimestamp(Insert(m, sorted))
    decreases |sorted|
  {
    if sorted != [] && sorted[|sorted| - 1].timestamp > m.timestamp {
      var last := sorted[|sorted| - 1];
      var init := sorted[..|sorted| - 1];
      assert sorted == init + [last];
      InsertSorted(m, init);
      var front := Insert(m, init);
      forall x | x in front ensures x.timestamp <= last.timestamp {
        if x != m {
          assert x in sorted;
        }
      }
      assert Insert(m, sorted) == front + [last];
    }
  }

  /** `sorted(msgs, key=timestamp)`: a stable sort by timestamp. */
  function SortByTimestamp(msgs: seq<BufferedMessage>): (r: seq<BufferedMessage>)
    ensures SortedByTimestamp(r)
    ensures multiset(r) == multiset(msgs)
    ensures |r| == |msgs|
  {
    if msgs == [] then []
    else
      var init := msgs[..|msgs| - 1];
      var last := msgs[|msgs| - 1];
      assert msgs == init + [last];
      InsertPermutes(last, SortByTimestamp(init));
      InsertSorted(last, SortByTimestamp(init));
      Insert(last, SortByTimestamp(init))
  }

  /** The messages with a given timestamp, in order. */
  function WithTimestamp(s: seq<BufferedMessage>, t: int): seq<BufferedMessage> {
    if s == [] then []
    else WithTimestamp(s[..|s| - 1], t) + (if s[|s| - 1].timestamp == t then [s[|s| - 1]] else [])
  }

  lemma WithTimestampSnoc(s: seq<BufferedMessage>, m: BufferedMessage, t: int)
    ensures WithTimestamp(s + [m], t) == WithTimestamp(s, t) + (if m.timestamp == t then [m] else [])
  {
    assert (s + [m])[..|s|] == s;
  }

  lemma {:induction false} InsertStable(m: BufferedMessage, sorted: seq<BufferedMessage>, t: int)
    ensures WithTimestamp(Insert(m, sorted), t)
            == WithTimestamp(sorted, t) + (if m.timestamp == t then [m] else [])
    decreases |sorted|
  {
    if sorted != [] {
      var last := sorted[|sorted| - 1];
      var init := sorted[..|sorted| - 1];
      assert sorted == init + [last];
      if last.timestamp <= m.timestamp {
        WithTimestampSnoc(sorted, m, t);
      } else {
        InsertStable(m, init, t);
        WithTimestampSnoc(Insert(m, init), last, t);
        WithTimestampSnoc(init, last, t);
      }
    }
  }

  /** The sort is stable: messages with equal timestamps keep their order. */
  lemma {:induction false} SortStable(msgs: seq<BufferedMessage>, t: int)
    ensures WithTimestamp(SortByTimestamp(msgs), t) == WithTimestamp(msgs, t)
  {
    if msgs != [] {
      var init := msgs[..|msgs| - 1];
      var last := msgs[|msgs| - 1];
      assert msgs == init + [last];
      SortStable(init, t);
      InsertStable(last, SortByTimestamp(init), t);
      WithTimestampSnoc(init, last, t);
    }
  }

  /** Python's `s[-n:]`. `[-0:]` is the whole list, and a negative `n` makes
      `-n` an ordinary start index. */
  function PySuffix<T>(s: seq<T>, n: int): (r: seq<T>)
    ensures n == 0 ==> r == s
    ensures n > 0 ==> r == s[|s| - (if n < |s| then n else |s|)..]
    ensures n < 0 ==> r == s[(if -n < |s| then -n else |s|)..]
  {
    if n == 0 then s
    else if n > 0 then (if n >= |s| then s else s[|s| - n..])
    else (if -n >= |s| then [] else s[-n..])
  }

  /** `get_context_messages` for a window `n` of at least one: the
      `min(n, len)` latest messages, oldest first; any message left out is
      no later than every message kept. */
  lemma ContextWindow(msgs: seq<BufferedMessage>, n: int)
    requires n >= 1
    ensures var window := PySuffix(SortByTimestamp(msgs), n);
      && |window| == (if n < |msgs| then n else |msgs|)
      && SortedByTimestamp(window)
      && multiset(window) <= multiset(msgs)
      && forall i, j :: 0 <= i < |msgs| - |window| && 0 <= j < |window| ==>
           SortByTimestamp(msgs)[i].timestamp <= window[j].timestamp
  {
    var sorted := SortByTimestamp(msgs);
    var start := |sorted| - (if n < |sorted| then n else |sorted|);
    assert PySuffix(sorted, n) == sorted[start..];
    SortedSuffix(sorted, start);
  }

  /** A suffix of a sorted list: sorted, part of the list, and no earlier
      element is later than any of its elements. */
  lemma SortedSuffix(sorted: seq<BufferedMessage>, start: nat)
    requires SortedByTimestamp(sorted) && start <= |sorted|
    ensures SortedByTimestamp(sorted[start..])
    ensures multiset(sorted[start..]) <= multiset(sorted)
    ensures forall i, j :: 0 <= i < start && 0 <= j < |sorted| - start ==>
              sorted[i].timestamp <= sorted[start..][j].timestamp
  {
    assert sorted == sorted[..start] + sorted[start..];
    assert multiset(sorted) == multiset(sorted[..start]) + multiset(sorted[start..]);
    forall i, j | 0 <= i < start && 0 <= j < |sorted| - start
      ensures sorted[i].timestamp <= sorted[start..][j].timestamp
    {
      assert sorted[start..][j] == sorted[start + j];
    }
  }

  /** Any Python suffix of a sorted list is sorted and part of the list. */
  lemma PySuffixOfSorted(sorted: seq<BufferedMessage>, n: int)
    requires SortedByTimestamp(sorted)
    ensures SortedByTimestamp(PySuffix(sorted, n))
    ensures multiset(PySuffix(sorted, n)) <= multiset(sorted)
  {
    var r := PySuffix(sorted, n);
    var start := |sorted| - |r|;
    assert r == sorted[start..];
    SortedSuffix(sorted, start);
  }

  /** With a window of 0 the whole sorted buffer is the context. */
  lemma ContextWindowZero(msgs: seq<BufferedMessage>)
    ensures PySuffix(SortByTimestamp(msgs), 0) == SortByTimestamp(msgs)
    ensures |PySuffix(SortByTimestamp(msgs), 0)| == |msgs|
  {
  }

  /** `MessageHandler`. */
  class MessageHandler {
    const config: BotConfig
    const store: PersistenceManager?
    /** The redaction chain of `sanitize_message`. */
    const redact: string -> string
    /** Python's `hash()` on strings, used by `anonymize_username`. */
    const nameHash: string -> int
    const maxContextMessages: int
    const anonymizeUsernames: bool
    var recentMessages: seq<BufferedMessage>
    /** The events this handler has written to the security log. */
    ghost var audit: seq<AuditEvent>

    /** Only messages of whitelisted chats are ever buffered. */
    ghost predicate Valid()
      reads this
    {
      forall i :: 0 <= i < |recentMessages| ==> IsChatWhitelisted(config, recentMessages[i].chatId)
    }

    constructor (config: BotConfig, store: PersistenceManager?, redact: string -> string, nameHash: string -> int)
      ensures this.config == config && this.store == store
      ensures this.redact == redact && this.nameHash == nameHash
      ensures maxContextMessages == config.maxContextMessages
      ensures anonymizeUsernames == config.anonymizeUsernames
      ensures recentMessages == [] && audit == []
      ensures Valid()
    {
      this.config := config;
      this.store := store;
      this.redact := redact;
      this.nameHash := nameHash;
      maxContextMessages := config.maxContextMessages;
      anonymizeUsernames := config.anonymizeUsernames;
      recentMessages := [];
      audit := [];
    }

    /** The `msg_data` built for an accepted message. */
    function ToBuffered(message: IncomingMessage): BufferedMessage {
      var username := if message.sender.Some? then message.sender.value.username else Some("Unknown");
      BufferedMessage(
        message.id,
        SanitizeMessage(message.text, redact),
        AnonymizeUsername(username, anonymizeUsernames, nameHash),
        message.date,
        message.senderId,
        message.chatId)
    }

    /** The message passes every gate of `store_message`. */
    predicate Accepts(message: IncomingMessage)
      reads this, store
    {
      && |message.text| >= 10
      && IsChatWhitelisted(config, message.chatId)
      && !(store != null && store.IsMessageProcessed(message.id, message.chatId))
    }

    /** `store_message`. Short text is ignored; a non-whitelisted chat is
        logged; a message already marked processed is skipped; otherwise the
        message is appended, marked processed, and the buffer is pruned to
        the last day, which may drop the new message itself. */
    method StoreMessage(message: IncomingMessage, now: int)
      requires Valid()
      modifies this, store
      ensures Valid()
      ensures |message.text| < 10 ==>
                && recentMessages == old(recentMessages) && audit == old(audit)
                && (store != null ==> store.messages == old(store.messages))
      ensures |message.text| >= 10 && !IsChatWhitelisted(config, message.chatId) ==>
                && recentMessages == old(recentMessages)
                && audit == old(audit) + [AuditEvent(UnauthorizedMessage,
                     "Message from non-whitelisted chat: " + IntToString(message.chatId), None)]
                && (store != null ==> store.messages == old(store.messages))
      ensures |message.text| >= 10 && IsChatWhitelisted(config, message.chatId)
              && store != null && old(store.IsMessageProcessed(message.id, message.chatId)) ==>
                && recentMessages == old(recentMessages) && audit == old(audit)
                && store.messages == old(store.messages)
      ensures old(Accepts(message)) ==>
                && recentMessages == Prune(old(recentMessages) + [ToBuffered(message)], now - BufferSeconds)
                && audit == old(audit)
                && (store != null ==> store.messages == old(store.messages)[(message.id, message.chatId) :=
                      MessageRow(message.senderId, message.date, now)])
      ensures old(Accepts(message)) ==> forall m :: m in recentMessages ==> m.timestamp > now - BufferSeconds
      ensures store != null ==> store.reactions == old(store.reactions) && store.state == old(store.state)
    {
      if message.text == "" || |message.text| < 10 {
        return;
      }
      if !IsChatWhitelisted(config, message.chatId) {
        audit := audit + [AuditEvent(UnauthorizedMessage,
          "Message from non-whitelisted chat: " + IntToString(message.chatId), None)];
        return;
      }
      if store != null && store.IsMessageProcessed(message.id, message.chatId) {
        return;
      }
      var entry := ToBuffered(message);
      recentMessages := recentMessages + [entry];
      if store != null {
        store.MarkMessageProcessed(message.id, message.chatId, message.senderId, Some(message.date), now);
      }
      var cutoff := now - BufferSeconds;
      recentMessages := Prune(recentMessages, cutoff);
    }

    /** `get_context_messages`: the buffer sorted by timestamp, then its
        last `maxContextMessages` entries, Python slice rules included. */
    function GetContextMessages(): (r: seq<BufferedMessage>)
      reads this
      ensures SortedByTimestamp(r)
      ensures multiset(r) <= multiset(recentMessages)
      ensures maxContextMessages == 0 ==> |r| == |recentMessages|
      ensures maxContextMessages >= 1 ==>
                |r| == if maxContextMessages < |recentMessages| then maxContextMessages else |recentMessages|
      ensures maxContextMessages < 0 ==>
                |r| == if -maxContextMessages < |recentMessages| then |recentMessages| + maxContextMessages else 0
    {
      PySuffixOfSorted(SortByTimestamp(recentMessages), maxContextMessages);
      PySuffix(SortByTimestamp(recentMessages), maxContextMessages)
    }

    /** `find_message_by_id`: the first buffered message with that id. */
    method FindMessageById(messageId: int) returns (r: Option<BufferedMessage>)
      ensures r.None? <==> forall i :: 0 <= i < |recentMessages| ==> recentMessages[i].id != messageId
      ensures r.Some? ==> exists i :: 0 <= i < |recentMessages| && recentMessages[i] == r.value
                            && r.value.id == messageId
                            && forall j :: 0 <= j < i ==> recentMessages[j].id != messageId
    {
      var i := 0;
      while i < |recentMessages|
        invariant 0 <= i <= |recentMessages|
        invariant forall j :: 0 <= j < i ==> recentMessages[j].id != messageId
      {
        if recentMessages[i].id == messageId {
          return Some(recentMessages[i]);
        }
        i := i + 1;
      }
      return None;
    }
  }
}
