/** The reaction pipeline: a 👍 on a message of a whitelisted chat by a
    whitelisted user, not seen before and within the user's rate limit,
    becomes a trigger for issue analysis. */
module ReactionHandling {
  import opened Wrappers
  import opened Text
  import opened Audit
  import opened Config
  import opened RateLimiting
  import opened Persistence

  /** `UpdateMessageReactions.CONSTRUCTOR_ID`. */
  const ReactionUpdateId := 0x5e1b3cb8
  /** Channel and supergroup ids are shifted below this (negated) base. */
  const ChannelBase := 1000000000000
  const ThumbsUp := "\U{1F44D}"
  /** The in-memory key cache is cut down once it holds more than this ... */
  const MemoryCap := 1000
  /** ... to this many keys. */
  const MemoryKeep := 500

  /** A peer: which of `chat_id`, `channel_id`, `user_id` it carries. */
  datatype Peer = PeerChat(chatId: int) | PeerChannel(channelId: int) | PeerUser(userId: int) | OtherPeer

  /** A reaction; only plain emoji reactions carry an `emoticon`. */
  datatype Reaction = ReactionEmoji(emoticon: string) | OtherReaction

  /** An entry of `recent_reactions`: the reaction and who made it. */
  datatype PeerReaction = PeerReaction(reaction: Reaction, peerId: Peer)

  /** `reactions`: the per-emoji `results` and the `recent_reactions` (an
      absent list is the empty one). */
  datatype MessageReactions = MessageReactions(results: seq<Reaction>, recentReactions: seq<PeerReaction>)

  /** A raw update; every attribute the handler probes may be missing. */
  datatype Update = Update(
    constructorId: Option<int>, peer: Option<Peer>, msgId: Option<int>, reactions: Option<MessageReactions>)

  /** The dictionary returned for a reaction that triggers analysis. */
  datatype ReactionTrigger = ReactionTrigger(messageId: int, userId: int, chatId: int, reactionKey: string)

  /** What the gates decide before the rate limiter is asked. */
  datatype Verdict =
    | Ignored
    | ChatRejected(chatId: int)
    | UserRejected(userId: int)
    | Candidate(chatId: int, msgId: int, userId: int, key: string)

  /** The chat id a peer stands for: groups negated, channels shifted below
      `-ChannelBase`, users as they are. */
  function PeerToChatId(peer: Peer): Option<int> {
    match peer
    case PeerChat(c) => Some(-c)
    case PeerChannel(c) => Some(-ChannelBase - c)
    case PeerUser(u) => Some(u)
    case OtherPeer => None
  }

  /** Positive group, channel and user ids land in three disjoint ranges, as
      long as group ids stay below the channel base. */
  lemma PeerRanges(peer: Peer)
    ensures peer.PeerChat? && 0 < peer.chatId < ChannelBase ==>
              -ChannelBase < PeerToChatId(peer).value < 0
    ensures peer.PeerChannel? && peer.channelId > 0 ==> PeerToChatId(peer).value < -ChannelBase
    ensures peer.PeerUser? && peer.userId > 0 ==> PeerToChatId(peer).value > 0
    ensures PeerToChatId(peer).None? <==> peer.OtherPeer?
  {
  }

  /** The peer is recovered from the chat id, given the kind and the range
      group ids stay in. */
  lemma PeerToChatIdInjective(p: Peer, q: Peer)
    requires PeerToChatId(p).Some? && PeerToChatId(p) == PeerToChatId(q)
    requires p.PeerChat? ==> 0 < p.chatId < ChannelBase
    requires q.PeerChat? ==> 0 < q.chatId < ChannelBase
    requires p.PeerChannel? ==> p.channelId > 0
    requires q.PeerChannel? ==> q.channelId > 0
    requires p.PeerUser? ==> p.userId > 0
    requires q.PeerUser? ==> q.userId > 0
    ensures p == q
  {
    PeerRanges(p);
    PeerRanges(q);
  }

  predicate IsThumbsUp(r: Reaction) {
    r.ReactionEmoji? && r.emoticon == ThumbsUp
  }

  predicate HasThumbsUp(results: seq<Reaction>) {
    exists i :: 0 <= i < |results| && IsThumbsUp(results[i])
  }

  /** `f"{chat_id}_{msg_id}_👍"`. */
  function ReactionKey(chatId: int, msgId: int): string {
    IntToString(chatId) + "_" + IntToString(msgId) + "_" + ThumbsUp
  }

  /** Distinct (chat, message) pairs have distinct keys, so deduplication by
      key is deduplication by message. */
  lemma ReactionKeyInjective(c1: int, m1: int, c2: int, m2: int)
    requires ReactionKey(c1, m1) == ReactionKey(c2, m2)
    ensures c1 == c2 && m1 == m2
  {
    var tail := "_" + ThumbsUp;
    KeyShape(IntToString(c1), IntToString(m1), ThumbsUp);
    KeyShape(IntToString(c2), IntToString(m2), ThumbsUp);
    NoUnderscore(c1);
    NoUnderscore(c2);
    SplitAtFirst(IntToString(c1), IntToString(m1) + tail, IntToString(c2), IntToString(m2) + tail, '_');
    SuffixCancel(IntToString(m1), IntToString(m2), tail);
    IntToStringInjective(c1, c2);
    IntToStringInjective(m1, m2);
  }

  lemma KeyShape(a: string, b: string, t: string)
    ensures a + "_" + b + "_" + t == a + ['_'] + (b + ("_" + t))
  {
  }

  lemma SuffixCancel(x: string, y: string, t: string)
    requires x + t == y + t
    ensures x == y
  {
    assert x == (x + t)[..|x|] && y == (y + t)[..|y|];
  }

  lemma NoUnderscore(i: int)
    ensures '_' !in IntToString(i)
  {
    if '_' in IntToString(i) {
      IntToStringChars(i, '_');
    }
  }

  /** The user of the first 👍 in `recent_reactions` made by a user peer. */
  function ReactingUser(recent: seq<PeerReaction>): (r: Option<int>)
    ensures r.Some? ==> exists i :: 0 <= i < |recent| && IsThumbsUp(recent[i].reaction)
                                    && recent[i].peerId == PeerUser(r.value)
    ensures r.None? ==> forall i :: 0 <= i < |recent| ==>
                          !(IsThumbsUp(recent[i].reaction) && recent[i].peerId.PeerUser?)
  {
    if recent == [] then None
    else if IsThumbsUp(recent[0].reaction) && recent[0].peerId.PeerUser? then Some(recent[0].peerId.userId)
    else
      var r := ReactingUser(recent[1..]);
      assert forall i :: 1 <= i < |recent| ==> recent[i] == recent[1..][i - 1];
      r
  }

  /** A reaction update whose peer maps to a chat id. */
  predicate IsMappedReactionUpdate(update: Update) {
    update.constructorId == Some(ReactionUpdateId) && update.peer.Some? && PeerToChatId(update.peer.value).Some?
  }

  /** Every gate before the user gate passes: a whitelisted chat, a message
      id, a 👍 among the results and a key seen neither durably nor in memory. */
  predicate PassesUpToUser(update: Update, cfg: BotConfig, durable: set<string>, memory: set<string>) {
    && IsMappedReactionUpdate(update)
    && IsChatWhitelisted(cfg, PeerToChatId(update.peer.value).value)
    && update.msgId.Some? && update.msgId.value != 0
    && update.reactions.Some? && HasThumbsUp(update.reactions.value.results)
    && ReactionKey(PeerToChatId(update.peer.value).value, update.msgId.value) !in durable
    && ReactionKey(PeerToChatId(update.peer.value).value, update.msgId.value) !in memory
  }

  /** The gates of `process_reaction_update` in order, given the keys in
      durable storage and in the memory cache. */
  function Screen(update: Update, cfg: BotConfig, durable: set<string>, memory: set<string>): (v: Verdict)
    ensures IsMappedReactionUpdate(update) && !IsChatWhitelisted(cfg, PeerToChatId(update.peer.value).value) ==>
                  v == ChatRejected(PeerToChatId(update.peer.value).value)
    ensures PassesUpToUser(update, cfg, durable, memory)
              && ReactingUser(update.reactions.value.recentReactions).Some?
              && !IsUserWhitelisted(cfg, ReactingUser(update.reactions.value.recentReactions).value) ==>
                  v == UserRejected(ReactingUser(update.reactions.value.recentReactions).value)
    ensures PassesUpToUser(update, cfg, durable, memory)
              && ReactingUser(update.reactions.value.recentReactions).Some?
              && IsUserWhitelisted(cfg, ReactingUser(update.reactions.value.recentReactions).value) ==>
                  v == Candidate(PeerToChatId(update.peer.value).value, update.msgId.value,
                                 ReactingUser(update.reactions.value.recentReactions).value,
                                 ReactionKey(PeerToChatId(update.peer.value).value, update.msgId.value))
    ensures PassesUpToUser(update, cfg, durable, memory)
              && ReactingUser(update.reactions.value.recentReactions).None? ==>
                  v == Ignored
    ensures !PassesUpToUser(update, cfg, durable, memory)
              && !(IsMappedReactionUpdate(update) && !IsChatWhitelisted(cfg, PeerToChatId(update.peer.value).value)) ==>
                  v == Ignored
    ensures v.ChatRejected? ==> !IsChatWhitelisted(cfg, v.chatId)
    ensures v.UserRejected? ==> v.userId !in cfg.whitelistedUsers
    ensures v.Candidate? ==>
              && update.constructorId == Some(ReactionUpdateId)
              && update.peer.Some? && PeerToChatId(update.peer.value) == Some(v.chatId)
              && IsChatWhitelisted(cfg, v.chatId)
              && update.msgId == Some(v.msgId) && v.msgId != 0
              && update.reactions.Some? && HasThumbsUp(update.reactions.value.results)
              && v.key == ReactionKey(v.chatId, v.msgId)
              && v.key !in durable && v.key !in memory
              && ReactingUser(update.reactions.value.recentReactions) == Some(v.userId)
              && v.userId in cfg.whitelistedUsers
  {
    if update.constructorId != Some(ReactionUpdateId) || update.peer.None? then Ignored
    else if PeerToChatId(update.peer.value).None? then Ignored
    else
      var chatId := PeerToChatId(update.peer.value).value;
      if !IsChatWhitelisted(cfg, chatId) then ChatRejected(chatId)
      else if update.msgId.None? || update.msgId.value == 0 || update.reactions.None? then Ignored
      else if !HasThumbsUp(update.reactions.value.results) then Ignored
      else
        var key := ReactionKey(chatId, update.msgId.value);
        if key in durable || key in memory then Ignored
        else
          var user := ReactingUser(update.reactions.value.recentReactions);
          if user.None? then Ignored
          else if !IsUserWhitelisted(cfg, user.value) then UserRejected(user.value)
          else Candidate(chatId, update.msgId.value, user.value, key)
  }

  /** Once a candidate's key is stored (durably or in memory), the same
      update is ignored: a reaction triggers at most once. */
  lemma DuplicateIgnored(update: Update, cfg: BotConfig, durable: set<string>, memory: set<string>,
                         durable': set<string>, memory': set<string>)
    requires Screen(update, cfg, durable, memory).Candidate?
    requires Screen(update, cfg, durable, memory).key in durable' + memory'
    ensures Screen(update, cfg, durable', memory') == Ignored
  {
  }

  /** Chat and user gates do not depend on the stored keys: a rejection
      stays a rejection whatever has been processed. */
  lemma RejectionIndependentOfKeys(update: Update, cfg: BotConfig, durable: set<string>, memory: set<string>,
                                   durable': set<string>, memory': set<string>)
    requires Screen(update, cfg, durable, memory).ChatRejected?
    ensures Screen(update, cfg, durable', memory') == Screen(update, cfg, durable, memory)
  {
  }

  /** The loop over `reactions.results`: is there a 👍 among them? */
  method FindThumbsUp(results: seq<Reaction>) returns (found: bool)
    ensures found <==> HasThumbsUp(results)
  {
    var i := 0;
    while i < |results|
      invariant 0 <= i <= |results|
      invariant forall j :: 0 <= j < i ==> !IsThumbsUp(results[j])
    {
      if results[i].ReactionEmoji? && results[i].emoticon == ThumbsUp {
        return true;
      }
      i := i + 1;
    }
    return false;
  }

  /** The loop over `recent_reactions` that attributes the 👍 to a user. */
  method FindReactingUser(recent: seq<PeerReaction>) returns (userId: Option<int>)
    ensures userId == ReactingUser(recent)
  {
    var i := 0;
    while i < |recent|
      invariant 0 <= i <= |recent|
      invariant ReactingUser(recent[i..]) == ReactingUser(recent)
    {
      var entry := recent[i];
      assert recent[i..][1..] == recent[i + 1..];
      if entry.reaction.ReactionEmoji? && entry.reaction.emoticon == ThumbsUp {
        if entry.peerId.PeerUser? {
          return Some(entry.peerId.userId);
        }
      }
      i := i + 1;
    }
    return None;
  }

  /** Every set holds subsets of each smaller size. */
  lemma {:induction false} SubsetOfSize<T>(s: set<T>, n: nat)
    requires n <= |s|
    ensures exists r :: r <= s && |r| == n
  {
    if n == 0 {
      assert {} <= s;
    } else {
      var x :| x in s;
      SubsetOfSize(s - {x}, n - 1);
      var r :| r <= s - {x} && |r| == n - 1;
      assert r + {x} <= s && |r + {x}| == n;
    }
  }

  /** `ReactionHandler`. */
  class ReactionHandler {
    const config: BotConfig
    const limiter: RateLimiter
    const store: PersistenceManager?
    /** `processed_reactions`, the in-memory key cache. */
    var processed: set<string>
    /** The events this handler has written to the security log. */
    ghost var audit: seq<AuditEvent>

    ghost predicate Valid()
      reads this, limiter
    {
      limiter.Valid() && |processed| <= MemoryCap
    }

    constructor (config: BotConfig, limiter: RateLimiter, store: PersistenceManager?)
      requires limiter.Valid()
      ensures this.config == config && this.limiter == limiter && this.store == store
      ensures processed == {} && audit == []
      ensures Valid()
    {
      this.config := config;
      this.limiter := limiter;
      this.store := store;
      processed := {};
      audit := [];
    }

    /** The keys recorded in durable storage (none without a store). */
    function DurableKeys(): set<string>
      reads this, store
    {
      if store == null then {} else store.reactions.Keys
    }

    /** `process_reaction_update`. Anything that fails a gate yields no
        trigger; the chat and user gates and the rate limit are logged; a
        candidate is charged to the rate limiter, and if admitted its key is
        recorded in memory and in the store and the trigger returned. */
    method ProcessReactionUpdate(update: Update, now: int) returns (r: Option<ReactionTrigger>)
      requires Valid()
      modifies this, limiter, store
      ensures Valid()
      ensures var v := Screen(update, config, old(DurableKeys()), old(processed));
        !v.Candidate? ==>
          && r.None? && processed == old(processed) && limiter.requests == old(limiter.requests)
          && (store != null ==> store.reactions == old(store.reactions))
      ensures Screen(update, config, old(DurableKeys()), old(processed)).Ignored? ==> audit == old(audit)
      ensures var v := Screen(update, config, old(DurableKeys()), old(processed));
        v.ChatRejected? ==>
          audit == old(audit) + [AuditEvent(UnauthorizedChatReaction, "Chat ID: " + IntToString(v.chatId), None)]
      ensures var v := Screen(update, config, old(DurableKeys()), old(processed));
        v.UserRejected? ==>
          audit == old(audit) + [AuditEvent(UnauthorizedUserReaction, "User ID: " + IntToString(v.userId), None)]
      ensures var v := Screen(update, config, old(DurableKeys()), old(processed));
        v.Candidate? ==>
          var step := Step(old(limiter.requests), limiter.maxRequests, limiter.windowSeconds, v.userId, now);
          && limiter.requests == step.1
          && (!step.0 ==>
                && r.None? && processed == old(processed)
                && (store != null ==> store.reactions == old(store.reactions))
                && audit == old(audit) + [AuditEvent(RateLimitExceeded, "User: " + IntToString(v.userId), Some(v.userId))])
          && (step.0 ==>
                && r == Some(ReactionTrigger(v.msgId, v.userId, v.chatId, v.key))
                && audit == old(audit)
                && (store != null ==> store.reactions == old(store.reactions)[v.key :=
                      ReactionRow(v.chatId, v.msgId, Some(v.userId), ThumbsUp, now)])
                && processed <= old(processed) + {v.key}
                && (|old(processed)| < MemoryCap ==> processed == old(processed) + {v.key})
                && (|old(processed)| >= MemoryCap ==> |processed| == MemoryKeep))
      ensures r.Some? && store != null ==> Screen(update, config, DurableKeys(), processed).Ignored?
      ensures store != null ==> store.messages == old(store.messages) && store.state == old(store.state)
    {
      ghost var v := Screen(update, config, DurableKeys(), processed);
      if update.constructorId != Some(ReactionUpdateId) || update.peer.None? {
        return None;
      }
      var chat := PeerToChatId(update.peer.value);
      if chat.None? {
        return None;
      }
      var chatId := chat.value;
      if !IsChatWhitelisted(config, chatId) {
        audit := audit + [AuditEvent(UnauthorizedChatReaction, "Chat ID: " + IntToString(chatId), None)];
        return None;
      }
      if update.msgId.None? || update.msgId.value == 0 || update.reactions.None? {
        return None;
      }
      var msgId := update.msgId.value;
      var reactions := update.reactions.value;
      var found := FindThumbsUp(reactions.results);
      if !found {
        return None;
      }
      var key := ReactionKey(chatId, msgId);
      if store != null && store.IsReactionProcessed(key) {
        return None;
      }
      if key in processed {
        return None;
      }
      var user := FindReactingUser(reactions.recentReactions);
      if user.None? {
        return None;
      }
      var userId := user.value;
      if !IsUserWhitelisted(config, userId) {
        audit := audit + [AuditEvent(UnauthorizedUserReaction, "User ID: " + IntToString(userId), None)];
        return None;
      }
      assert v == Candidate(chatId, msgId, userId, key);
      var allowed := limiter.IsAllowed(userId, now);
      if !allowed {
        audit := audit + [AuditEvent(RateLimitExceeded, "User: " + IntToString(userId), Some(userId))];
        return None;
      }
      processed := processed + {key};
      if store != null {
        store.MarkReactionProcessed(key, chatId, msgId, Some(userId), now, ThumbsUp);
      }
      if |processed| > MemoryCap {
        SubsetOfSize(processed, MemoryKeep);
        var kept :| kept <= processed && |kept| == MemoryKeep;
        processed := kept;
      }
      if store != null {
        assert key in DurableKeys();
        DuplicateIgnored(update, config, old(DurableKeys()), old(processed), DurableKeys(), processed);
      }
      return Some(ReactionTrigger(msgId, userId, chatId, key));
    }
  }
}
