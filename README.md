# Ellie ticket bot: the reaction pipeline in Dafny

This project models the event-processing core of a Telegram bot. The bot watches
whitelisted chats. It keeps the last day of messages as context, and when a
whitelisted user puts a 👍 on a message it produces one trigger for issue analysis.
The trigger carries the message, the user, the chat and a deduplication key. The
context then goes to an n8n webhook, signed with HMAC-SHA256.

The model covers these parts, one module each:

- **`ReactionHandling`**: `ReactionHandler.process_reaction_update`. Its gates run in a
  fixed order: constructor id, peer to chat id, chat whitelist, 👍 search,
  deduplication (durable store, then the in-memory key set), attribution from
  `recent_reactions`, user whitelist, rate limit, commit. The gates are a pure
  function `Screen`. The class method is proved against it and against the rate
  limiter's `Step`.
- **`RateLimiting`**: the sliding-window `RateLimiter`, with a per-user map of
  request times.
- **`MessageHandling`**: the context buffer. It covers the gated append, the
  24-hour prune, the context window (a stable sort, then Python's `[-n:]`) and
  lookup by id.
- **`Persistence`**: the SQLite idempotency store. Its three tables are maps keyed by
  their UNIQUE columns. Writes are `INSERT OR REPLACE` upserts. The module also
  covers retention deletion, counts, and the newest-first query.
- **`Webhook`**: the `send_context_to_n8n` decision table, the payload, the
  signature and the headers.
- **`Config`**: the environment check, configuration loading and
  comma-separated whitelists. The environment is a `map<string, string>`.
- **`Helpers`** (username anonymisation, the cutoff comparison, the
  sanitiser's pass-through) and **`Validation`** (the constant JSON Schema of
  `validate_openai_response`, read per JSON Schema Validation draft 2020-12).
- **`Text`**: the parts of Python's `str()`, `int()`, `strip()`, `split()` and `lower()`
  that the above rely on.

External collaborators become parameters. Each of these is a function-typed
parameter or a class constant:

- Python's salted `hash()`;
- the regex chain of `sanitize_message`;
- HMAC-SHA256 hex digests;
- `json.dumps(..., sort_keys=True)`;
- `isoformat` / `fromisoformat`.

Clock readings and HTTP outcomes are inputs. Times are whole seconds (UTC). Each
handler and the webhook client keep their writes to the security log as an
append-only ghost sequence `audit` of `AuditEvent(type, details, user id)`.

Behaviours of the source that the model keeps on purpose:

- A context window of 0 returns the whole sorted buffer (`[-0:]`). A negative
  window drops entries from the front.
- A just-appended message is itself subject to the 24-hour prune. An old-dated
  message is therefore marked processed but absent from the buffer.
- A reaction rejected after the deduplication check marks nothing, so a later
  identical update can still trigger. This covers unattributed, unauthorised and
  rate-limited reactions.
- The deduplication key has no user id: one trigger per (chat, message, 👍).
- When the in-memory key set overflows, it shrinks to an arbitrary 500-key subset
  (set order is unspecified). That subset may lose the key just added. Only the
  durable store then guarantees deduplication.
- Count queries treat chat id 0 like no filter.
- The cutoff comparison drops the UTC offset without converting.
- The signature covers the key-sorted serialisation. The posted body is the
  HTTP library's own serialisation of the same payload. The model records the
  payload value and does not equate the two byte strings.

## Model

| member | source | states |
|---|---|---|
| ReactionHandling.ReactionHandler.ProcessReactionUpdate | bot/handlers/reaction_handler.py:35-139 | Gate failures give no trigger. They leave the in-memory set, the store and the rate limiter untouched. A chat rejection appends exactly one UNAUTHORIZED_CHAT_REACTION event and a user rejection exactly one UNAUTHORIZED_USER_REACTION event. A candidate is charged to the limiter exactly as `Step`. A denial logs RATE_LIMIT_EXCEEDED with the user id and marks nothing. An admission returns (msg id, user id, chat id, key), upserts the key's row in the store and adds the key to memory; on overflow memory becomes a 500-key subset. With a store, replaying the same update is then ignored. The in-memory set never exceeds 1000 keys. |
| ReactionHandling.ReactionHandler.constructor | bot/handlers/reaction_handler.py:13-19 | Starts with an empty key set and an empty audit trail, sharing the given limiter and store. |
| ReactionHandling.Screen | bot/handlers/reaction_handler.py:38-104 | A candidate has passed every gate in order: the right constructor id, a mapped peer, a whitelisted chat, a non-zero msg id, a 👍 in the results, its key in neither store, an attributed user, and that user whitelisted. A chat rejection names a chat that is not whitelisted; a user rejection names a user who is not whitelisted. Conversely, a mapped reaction update from a chat that is not whitelisted gives that chat's rejection. When every earlier gate passes, an attributed user who is not whitelisted gives that user's rejection, and a whitelisted one gives the candidate with key `{chat}_{msg}_👍`. When no 👍 comes from a user peer, the update is ignored. Every other update is ignored too. |
| ReactionHandling.DuplicateIgnored | bot/handlers/reaction_handler.py:74-84 | Once a candidate's key is in the durable or in-memory keys, the same update is ignored: at most one trigger per (chat, message, 👍). |
| ReactionHandling.RejectionIndependentOfKeys | bot/handlers/reaction_handler.py:55-59 | A chat rejection happens before deduplication and does not depend on any processed keys. |
| ReactionHandling.PeerRanges | bot/handlers/reaction_handler.py:45-53 | Positive group ids map into (-10^12, 0), positive channel ids below -10^12, positive user ids above 0; only an unrecognised peer has no chat id. |
| ReactionHandling.PeerToChatIdInjective | bot/handlers/reaction_handler.py:45-53 | Under those ranges, two peers with the same chat id are the same peer. |
| ReactionHandling.ReactionKeyInjective | bot/handlers/reaction_handler.py:74 | Equal keys `"{chat}_{msg}_👍"` mean equal chat and message ids. |
| ReactionHandling.ReactingUser | bot/handlers/reaction_handler.py:87-94 | A found user made a 👍 in `recent_reactions` through a user peer; when none is found, no entry is a 👍 by a user peer. |
| ReactionHandling.FindThumbsUp | bot/handlers/reaction_handler.py:68-70 | The scan of `results` succeeds exactly when some result is a 👍 emoji reaction. |
| ReactionHandling.FindReactingUser | bot/handlers/reaction_handler.py:86-94 | The scan of `recent_reactions` returns the first 👍 made through a user peer (the reference `ReactingUser`). |
| ReactionHandling.SubsetOfSize | bot/handlers/reaction_handler.py:125-127 | Any set of at least 500 keys has a 500-key subset, so the truncation can always be taken. |
| Config.IsUserWhitelisted | bot/handlers/reaction_handler.py:21-26 | A user passes exactly when listed; an empty user whitelist admits nobody. |
| Config.ChatWhitelistRule | bot/handlers/message_handler.py:23-28 | Chat admission shared by both handlers: with no whitelisted chats exactly the primary chat is admitted, otherwise exactly the listed chats. |
| Config.LoadedChatPolicy | bot/core/config.py:104-109 | For a loaded configuration, a chat is admitted exactly when it is in the whitelist (the primary chat has been added to it). |
| RateLimiting.RateLimiter.IsAllowed | bot/security/rate_limiter.py:17-29 | The result and new map are exactly `Step` of the old map; every user's list stays within `max_requests`. |
| RateLimiting.RateLimiter.constructor | bot/security/rate_limiter.py:12-15 | Defaults 5 requests per 60 seconds; starts with no recorded requests. |
| RateLimiting.Step | bot/security/rate_limiter.py:20-29 | The call admits exactly when the pruned list holds fewer than `max_requests` times. The user's list becomes the pruned list, plus `now` exactly when admitted. Every other user's list is unchanged. |
| RateLimiting.InWindow | bot/security/rate_limiter.py:23 | Keeps exactly the times `t` with `now - t < window`, never more than it was given. Each such time keeps as many copies as it had, so requests made in the same second are all counted. |
| RateLimiting.InWindowIdempotent | bot/security/rate_limiter.py:23 | Pruning again at the same instant removes nothing more. |
| RateLimiting.InWindowEmpty | bot/security/rate_limiter.py:23 | If every time is at least a window old, nothing survives. |
| RateLimiting.StepKeepsBound | bot/security/rate_limiter.py:25-29 | If every list is within the limit before a call, every list is within it after. |
| RateLimiting.BurstStep | bot/security/rate_limiter.py:25-29 | After one call at `now`, the window at `now` holds one more request if admitted and the same number if denied. |
| RateLimiting.SameInstantBurst | bot/security/rate_limiter.py:23-29 | In a burst of calls in one second, the i-th is admitted exactly when the requests already in the window plus i are below the limit. |
| RateLimiting.FiveThenDenied | bot/security/rate_limiter.py:12 | With defaults and nothing recent, six calls in one second answer true five times, then false. |
| RateLimiting.ResumesAfterWindow | bot/security/rate_limiter.py:23-28 | Once every stored time is at least a window old, a call is admitted again. |
| MessageHandling.MessageHandler.StoreMessage | bot/handlers/message_handler.py:30-75 | Text under 10 characters changes nothing. A non-whitelisted chat changes nothing but one UNAUTHORIZED_MESSAGE event. An already-processed (id, chat) changes nothing. An accepted message is appended with sanitised text and anonymised name, its row is upserted in the store, and the buffer is pruned. Afterwards every buffered message is under a day old, and only whitelisted chats are ever buffered. |
| MessageHandling.MessageHandler.constructor | bot/handlers/message_handler.py:15-21 | The window and anonymisation flag come from the configuration; the buffer starts empty. |
| MessageHandling.MessageHandler.GetContextMessages | bot/handlers/message_handler.py:77-79 | The result is sorted by timestamp and drawn from the buffer. It holds min(N, len) messages for a window N of at least 1, and the whole buffer for N = 0. For a negative N it holds len - \|N\| messages, or none when \|N\| >= len, because Python's `[-N:]` then drops the first \|N\|. |
| MessageHandling.MessageHandler.FindMessageById | bot/handlers/message_handler.py:81-86 | Returns the first buffered message with that id, and None exactly when there is none; the buffer is not modified. |
| MessageHandling.Prune | bot/handlers/message_handler.py:66-72 | Keeps exactly the messages dated after the cutoff. |
| MessageHandling.PruneDistributes | bot/handlers/message_handler.py:69-72 | Pruning a concatenation prunes each part, so survivors keep their relative order. |
| MessageHandling.StaleMessageDropped | bot/handlers/message_handler.py:54-72 | A message dated at or before the cutoff leaves the buffer as if it had never been appended. |
| MessageHandling.SortByTimestamp | bot/handlers/message_handler.py:79 | The result is ordered by timestamp and is a permutation of the input. |
| MessageHandling.SortStable | bot/handlers/message_handler.py:79 | Messages with equal timestamps keep their original order. |
| MessageHandling.PySuffix | bot/handlers/message_handler.py:79 | Python `s[-n:]`: the whole list for 0, the last min(n, len) for positive n, and the list without its first -n entries for negative n. |
| MessageHandling.ContextWindow | bot/handlers/message_handler.py:79 | For N at least 1 the window holds min(N, len) messages, in ascending order, drawn from the buffer, and no message left out is later than one kept. |
| MessageHandling.ContextWindowZero | bot/handlers/message_handler.py:79 | With N = 0 the context is the whole sorted buffer. |
| Persistence.PersistenceManager.constructor | bot/storage/persistence.py:19-63 | The manager opens over the given tables. |
| Persistence.PersistenceManager.MarkMessageProcessed | bot/storage/persistence.py:111-125 | Upsert on (message id, chat id). The row holds the latest user and timestamp (default now) and a fresh processed time. The message then counts as processed, answers for other keys are unchanged, and the row count grows only for a new key. |
| Persistence.PersistenceManager.MarkReactionProcessed | bot/storage/persistence.py:137-148 | Upsert on the reaction key (emoji defaults to 👍). The key then counts as processed, other keys are unchanged, and the count grows only for a new key. |
| Persistence.PersistenceManager.GetBotState | bot/storage/persistence.py:150-156 | The stored value for a known key, None for an unknown one. |
| Persistence.PersistenceManager.SetBotState | bot/storage/persistence.py:158-168 | Upsert; reading the key back gives the value and other keys read as before. |
| Persistence.PersistenceManager.GetLastProcessedTimestamp | bot/storage/persistence.py:170-178 | A non-empty value stored under `last_processed_{chat}` is returned as `fromisoformat` parses it, so a value that parses comes back as that timestamp. An empty value or a missing key gives None. |
| Persistence.PersistenceManager.SetLastProcessedTimestamp | bot/storage/persistence.py:180-182 | Stores the ISO text under `last_processed_{chat}`. When the ISO pair round-trips, reading it back gives the timestamp; other chats read as before. |
| Persistence.LastProcessedKeyInjective | bot/storage/persistence.py:172 | Distinct chats have distinct state keys. |
| Persistence.PersistenceManager.CleanupOldData | bot/storage/persistence.py:184-208 | In both processed tables it deletes exactly the rows processed before `now - days * 86400` and leaves surviving rows as they were; the state table is untouched. |
| Persistence.PersistenceManager.GetProcessedMessagesCount | bot/storage/persistence.py:210-218 | A non-zero chat id counts that chat's rows; None or 0 counts all rows; never more than all rows. |
| Persistence.PersistenceManager.GetProcessedReactionsCount | bot/storage/persistence.py:220-228 | The same, for reactions. |
| Persistence.PersistenceManager.GetRecentProcessedMessages | bot/storage/persistence.py:230-242 | Rows all belong to the chat and are stored rows. They come newest first with distinct message ids, `limit` of them (all when fewer or when `limit` is negative). No row left out is newer than one returned. |
| Persistence.SelectionStep | bot/storage/persistence.py:234-241 | Taking the newest remaining row keeps the selection invariant of the newest-first query. |
| Persistence.SelectionDone | bot/storage/persistence.py:234-241 | When the selection stops it has the promised size and no left-out row is newer. |
| Webhook.WebhookClient.SendContextToN8n | bot/integrations/webhook.py:31-101 | The answer, the log and the posts follow `Decide`. A post carries the signed payload, the `sha256=` header, a 30-second timeout and TLS verification. |
| Webhook.WebhookClient.SendIssue | bot/integrations/webhook.py:104-107 | Behaves as `SendContextToN8n` with an empty context. |
| Webhook.WebhookClient.constructor | bot/integrations/webhook.py:18-21 | Holds the URL, secret and foreign functions; nothing logged or posted yet. |
| Webhook.Decide | bot/integrations/webhook.py:33-101 | No URL: true, no post, no event. URL without secret: false, no post, WEBHOOK_NO_SECRET. Otherwise a post: true exactly on status 200 with WEBHOOK_SUCCESS; another status gives WEBHOOK_ERROR with the status; an exception gives WEBHOOK_EXCEPTION with its text. |
| Webhook.PayloadFields | bot/integrations/webhook.py:45-72 | `source` is "telegram", `type` is "issue_analysis_request", `security_version` is "1.0"; chat id and trigger user come from the trigger message, `trigger_user_id` is the user id, and the trigger and context are carried. |
| Webhook.ContextJson | bot/integrations/webhook.py:60-70 | The context list has the input's length and order, item by item. |
| Webhook.MessageRoundTrip | bot/integrations/webhook.py:61-68 | A payload message copies id, text, username, timestamp, user id and chat id: reading it back gives the message. |
| Webhook.ContextRoundTrip | bot/integrations/webhook.py:60-70 | The payload's `context_messages` has the context's length, and each item reads back as the corresponding context message. |
| Webhook.SignatureBySerialisation | bot/integrations/webhook.py:23-29 | The signature depends on the payload only through its key-sorted serialisation. |
| Webhook.Headers | bot/integrations/webhook.py:75-79 | Three headers, the first `X-Webhook-Signature` with value `sha256=` followed by the hex signature. |
| Helpers.AnonymizeUsername | bot/utils/helpers.py:28-35 | Without the flag the name is returned unchanged. With it, an empty, missing or "Unknown" name becomes "User", and any other name becomes "User_" plus a decimal below 1000 (of `abs(hash) % 1000`). |
| Helpers.CompareDatetimeWithCutoff | bot/utils/helpers.py:38-50 | True exactly for a datetime whose wall-clock reading, offset dropped, is after the cutoff; anything else (a failed comparison) gives False. |
| Helpers.OffsetIgnored | bot/utils/helpers.py:41-45 | The UTC offset is ignored: with a positive offset the instant may be at or before the cutoff yet compare after it, and the reverse for a negative one. |
| Helpers.SanitizeMessage | bot/utils/helpers.py:9-25 | Empty text comes back unchanged; any other text goes through the redaction chain. |
| Helpers.ShortDecimal | bot/utils/helpers.py:35 | The anonymised suffix, below 1000, has at most three digits. |
| Validation.ValidateCharacterization | bot/utils/validation.py:11-35 | The validator accepts exactly an object whose known keys have their declared shapes and which has either the title/description/priority group or `no_issue`. |
| Validation.PropertiesCharacterization | bot/utils/validation.py:13-20 | The `properties` keyword holds exactly when every present known key has its declared shape. |
| Validation.AnyOfCharacterization | bot/utils/validation.py:21-24 | The `anyOf` branches hold exactly when one of the two required groups is present. |
| Validation.PropertySchemasValid | bot/utils/validation.py:14-18 | Each property schema means: a string of at most 200 or 2000 characters, an integer in 1..4, an array of strings. |
| Validation.StringListValid | bot/utils/validation.py:17-18 | The list schema accepts exactly arrays of strings. |
| Validation.IssueAccepted | bot/utils/validation.py:14-16 | An object with title ≤ 200, description ≤ 2000 and priority 1..4 validates. |
| Validation.NoIssueAccepted | bot/utils/validation.py:19 | An object with only a boolean `no_issue` validates. |
| Validation.NoGroupRejected | bot/utils/validation.py:21-24 | An object with neither required group is rejected. |
| Validation.BadPriorityRejected | bot/utils/validation.py:16 | A priority that is not an integer in 1..4 is rejected. |
| Validation.OverlongTextRejected | bot/utils/validation.py:14-15 | A title over 200 or a description over 2000 characters is rejected. |
| Validation.NonStringListEntryRejected | bot/utils/validation.py:17-18 | A non-string entry in `labels` or `related_messages` is rejected. |
| Config.ValidateEnvironment | bot/core/config.py:22-79 | The loop-based check agrees with `CheckEnvironment`. |
| Config.CheckEnvironmentCharacterization | bot/core/config.py:37-77 | The environment passes exactly when all six required variables are set and non-empty, TELEGRAM_API_ID parses, and every entry of a non-empty whitelist parses. |
| Config.MissingVariableRejected | bot/core/config.py:37-48 | A missing or empty required variable fails the check, and that variable is among those reported. |
| Config.NoneMissing | bot/core/config.py:38-42 | Nothing is reported missing exactly when every required variable is set and non-empty. |
| Config.EntriesParse | bot/core/config.py:63-77 | The entry loop succeeds exactly when every comma-separated entry parses after stripping. |
| Config.ParseWhitelist | bot/core/config.py:118-129 | Computes the whitelist set of the string. |
| Config.ParseUserWhitelist | bot/core/config.py:131-142 | Computes the same function as `ParseWhitelist`. |
| Config.ParseEntry | bot/core/config.py:126 | `int(entry.strip())` is the parse of the entry itself. |
| Config.WhitelistMembership | bot/core/config.py:118-129 | An empty string gives the empty set. Otherwise an integer is in the set exactly when some comma-separated entry parses to it; unparsable entries are skipped. |
| Config.IdsOfMembership | bot/core/config.py:124-128 | An integer is collected exactly when some entry parses to it. |
| Config.WhitelistRoundTrip | bot/core/config.py:118-129 | Rendering a non-empty list of ids comma-separated and parsing it gives back exactly those ids. |
| Config.ConfigFromEnv | bot/core/config.py:81-116 | A loaded configuration has its primary chat in the whitelist, a secret whenever a webhook URL is set, and the parsed user whitelist. |
| Config.NewBotConfig | bot/core/config.py:18-20 | A failed check is reported as such; otherwise the result is the loaded configuration. |
| Config.PrimaryChat | bot/core/config.py:103-112 | A parsable CHAT_ID becomes the primary chat and is whitelisted; an unparsable or missing one leaves none. |
| Config.SecretRule | bot/core/config.py:114-116 | A webhook URL without a secret fails to load. |
| Config.ValidatedEnvironmentLoads | bot/core/config.py:56-91 | After a passing check, every whitelist entry parses and lands in the loaded whitelist. |
| Config.ValidatedEnvironmentHasSecret | bot/core/config.py:24-48 | After a passing check the secret rule cannot fail. |
| Config.Defaults | bot/core/config.py:97-101 | Unset flags and limits take their defaults: anonymisation on, encryption off, 25 context messages, 5 requests. |
| Config.FlagSpelling | bot/core/config.py:98 | A flag is on exactly when its value, lower-cased, is "true". |
| Text.ParseIntOfStrip | bot/core/config.py:126 | Stripping white space does not change what `int()` reads. |
| Text.ParseIntOfIntToString | bot/core/config.py:126 | `int(str(i)) == i`. |
| Text.IntToStringInjective | bot/handlers/reaction_handler.py:74 | Distinct integers render differently. |
| Text.JoinSplit | bot/core/config.py:124 | Joining the pieces of a split gives the string back. |
| Text.SplitJoin | bot/core/config.py:124 | Splitting a join of separator-free pieces gives the pieces back. |

## Left out

- bot/core/bot.py, bot/security/encryption.py and bot/integrations/openai_client.py
  are not part of this model. They handle the Telegram client lifecycle, file
  encryption and a remote model call; the validator they use is modelled.
- The security logger's rotating file and its text format (`EVENT: … | USER: …`,
  where a falsy user id is omitted) are left out. Each handler records its calls
  as `AuditEvent` values instead.
- `fetch_message_from_telegram` and the HTTP post are network calls. The post's
  status or exception is an input. An attempt is recorded whenever a URL and a
  secret are set, even if the post raised before any byte was sent.
- The internals of HMAC-SHA256, JSON byte serialisation, `hash()`, the sanitiser
  regexes and ISO date formatting are foreign functions passed in.
- SQLite details are left out: connection handling, vacuum, file permissions,
  the `id` rowid columns, `get_stats`, and storage errors. Dates are compared as
  whole seconds, not as stored text.
- Persistence.PersistenceManager.GetRecentProcessedMessages: rows with equal
  timestamps may come in any order; SQLite leaves that order unspecified as well.
- Persistence.PersistenceManager.CleanupOldData: the deleted-row counts are only
  logged, so they are not returned.
- Wall-clock reads and `time.time()` floats become integer seconds passed in.
  Concurrency between asyncio handlers is left out; one event is handled at a time.
- Text.ParseInt: Python `int()` also accepts underscores between digits and
  non-ASCII decimal digits; the model accepts only surrounding white space, one
  sign and ASCII digits.
- Text.Lower: only ASCII letters are lower-cased. That suffices for comparing
  with "true".
- Config.ConfigFromEnv: an empty CHAT_ID stays the empty string in Python and is
  modelled as no primary chat. Both never equal a chat id. The missing-variable
  report keeps the names, not the description text.
- MessageHandling.IncomingMessage: a missing message text is modelled as the
  empty string, which the length gate treats the same way.
- MessageHandling.MessageHandler.GetContextMessages: the ordering "no message left
  out is later than one kept" is stated in the lemma `ContextWindow`, not in this
  function's own contract.
