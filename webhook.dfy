/** The n8n webhook client: whether to send, the payload it signs and posts,
    and how it reads the HTTP outcome. HMAC-SHA256 (RFC 2104 over FIPS 180-4),
    `json.dumps(..., sort_keys=True)` and `datetime.isoformat` are foreign
    functions handed in as parameters; the post itself is an input outcome. */
module Webhook {
  import opened Wrappers
  import opened Text
  import opened Json
  import opened Audit
  import opened Config
  import opened MessageHandling

  /** The end of one post: a status code, or an exception with its text. */
  datatype HttpOutcome = Status(code: int) | Raised(message: string)

  /** One attempted post: where, the payload (the body is aiohttp's own
      serialisation of it, not the signed bytes), headers and options. */
  datatype Request = Request(
    url: string, payload: Json, headers: seq<(string, string)>, timeoutSeconds: int, verifySsl: bool)

  /** What `send_context_to_n8n` does for a given configuration and outcome:
      its answer, whether it posts, and the security event it logs. */
  datatype Decision = Decision(result: bool, posts: bool, event: Option<AuditEvent>)

  const PostTimeoutSeconds := 30

  function OptString(v: Option<string>): Json {
    if v.Some? then JString(v.value) else JNull
  }

  function OptInt(v: Option<int>): Json {
    if v.Some? then JInt(v.value) else JNull
  }

  /** One message as the payload carries it; the timestamp goes through
      `isoformat` (`toIso`). */
  function MessageJson(m: BufferedMessage, toIso: int -> string): Json {
    JObject([
      ("id", JInt(m.id)),
      ("text", JString(m.text)),
      ("username", OptString(m.username)),
      ("timestamp", JString(toIso(m.timestamp))),
      ("user_id", OptInt(m.userId)),
      ("chat_id", JInt(m.chatId))])
  }

  /** The `context_messages` list comprehension. */
  function ContextJson(msgs: seq<BufferedMessage>, toIso: int -> string): (items: seq<Json>)
    ensures |items| == |msgs|
    ensures forall i :: 0 <= i < |msgs| ==> items[i] == MessageJson(msgs[i], toIso)
  {
    seq(|msgs|, i requires 0 <= i < |msgs| => MessageJson(msgs[i], toIso))
  }

  /** The payload of `send_context_to_n8n`; `nowIso` is
      `datetime.now().isoformat()`. */
  function Payload(trigger: BufferedMessage, context: seq<BufferedMessage>, userId: int,
                   nowIso: string, toIso: int -> string): Json
  {
    JObject([
      ("source", JString("telegram")),
      ("type", JString("issue_analysis_request")),
      ("chat_id", JInt(trigger.chatId)),
      ("trigger_user", OptString(trigger.username)),
      ("trigger_user_id", JInt(userId)),
      ("timestamp", JString(nowIso)),
      ("trigger_message", MessageJson(trigger, toIso)),
      ("context_messages", JArray(ContextJson(context, toIso))),
      ("security_version", JString("1.0"))])
  }

  /** The fixed and copied fields of the payload. */
  lemma PayloadFields(trigger: BufferedMessage, context: seq<BufferedMessage>, userId: int,
                      nowIso: string, toIso: int -> string)
    ensures var fields := Payload(trigger, context, userId, nowIso, toIso).fields;
      && Get(fields, "source") == Some(JString("telegram"))
      && Get(fields, "type") == Some(JString("issue_analysis_request"))
      && Get(fields, "chat_id") == Some(JInt(trigger.chatId))
      && Get(fields, "trigger_user") == Some(OptString(trigger.username))
      && Get(fields, "trigger_user_id") == Some(JInt(userId))
      && Get(fields, "trigger_message") == Some(MessageJson(trigger, toIso))
      && Get(fields, "context_messages") == Some(JArray(ContextJson(context, toIso)))
      && Get(fields, "security_version") == Some(JString("1.0"))
  {
    var fields := Payload(trigger, context, userId, nowIso, toIso).fields;
    PayloadKeysDistinct(trigger, context, userId, nowIso, toIso);
    GetDistinct(fields, 0);
    GetDistinct(fields, 1);
    GetDistinct(fields, 2);
    GetDistinct(fields, 3);
    GetDistinct(fields, 4);
    GetDistinct(fields, 6);
    GetDistinct(fields, 7);
    GetDistinct(fields, 8);
  }

  lemma PayloadKeysDistinct(trigger: BufferedMessage, context: seq<BufferedMessage>, userId: int,
                            nowIso: string, toIso: int -> string)
    ensures DistinctKeys(Payload(trigger, context, userId, nowIso, toIso).fields)
  {
    var keys := ["source", "type", "chat_id", "trigger_user", "trigger_user_id", "timestamp",
                 "trigger_message", "context_messages", "security_version"];
    var fields := Payload(trigger, context, userId, nowIso, toIso).fields;
    assert forall i :: 0 <= i < |fields| ==> fields[i].0 == keys[i];
    assert forall i, j :: 0 <= i < j < |keys| ==> keys[i] != keys[j];
  }

  lemma MessageKeysDistinct(m: BufferedMessage, toIso: int -> string)
    ensures DistinctKeys(MessageJson(m, toIso).fields)
  {
    var keys := ["id", "text", "username", "timestamp", "user_id", "chat_id"];
    var fields := MessageJson(m, toIso).fields;
    assert forall i :: 0 <= i < |fields| ==> fields[i].0 == keys[i];
    assert forall i, j :: 0 <= i < j < |keys| ==> keys[i] != keys[j];
  }

  /** Reading a payload message back; `fromIso` is `datetime.fromisoformat`. */
  function MessageOfJson(j: Json, fromIso: string -> Option<int>): Option<BufferedMessage> {
    if !j.JObject? then None
    else
      var id := Get(j.fields, "id");
      var text := Get(j.fields, "text");
      var username := Get(j.fields, "username");
      var timestamp := Get(j.fields, "timestamp");
      var userId := Get(j.fields, "user_id");
      var chatId := Get(j.fields, "chat_id");
      if !(id.Some? && id.value.JInt?) then None
      else if !(text.Some? && text.value.JString?) then None
      else if !(username.Some? && (username.value.JNull? || username.value.JString?)) then None
      else if !(timestamp.Some? && timestamp.value.JString? && fromIso(timestamp.value.s).Some?) then None
      else if !(userId.Some? && (userId.value.JNull? || userId.value.JInt?)) then None
      else if !(chatId.Some? && chatId.value.JInt?) then None
      else Some(BufferedMessage(
        id.value.i,
        text.value.s,
        if username.value.JString? then Some(username.value.s) else None,
        fromIso(timestamp.value.s).value,
        if userId.value.JInt? then Some(userId.value.i) else None,
        chatId.value.i))
  }

  /** Each payload message carries the whole buffered message: reading it
      back gives the message again, when `fromIso` inverts `toIso`. */
  lemma MessageRoundTrip(m: BufferedMessage, toIso: int -> string, fromIso: string -> Option<int>)
    requires fromIso(toIso(m.timestamp)) == Some(m.timestamp)
    ensures MessageOfJson(MessageJson(m, toIso), fromIso) == Some(m)
  {
    var fields := MessageJson(m, toIso).fields;
    MessageKeysDistinct(m, toIso);
    GetDistinct(fields, 0);
    GetDistinct(fields, 1);
    GetDistinct(fields, 2);
    GetDistinct(fields, 3);
    GetDistinct(fields, 4);
    GetDistinct(fields, 5);
    DecodeFromLookups(fields, m, toIso, fromIso);
  }

  lemma DecodeFromLookups(fields: seq<(string, Json)>, m: BufferedMessage,
                          toIso: int -> string, fromIso: string -> Option<int>)
    requires fromIso(toIso(m.timestamp)) == Some(m.timestamp)
    requires Get(fields, "id") == Some(JInt(m.id))
    requires Get(fields, "text") == Some(JString(m.text))
    requires Get(fields, "username") == Some(OptString(m.username))
    requires Get(fields, "timestamp") == Some(JString(toIso(m.timestamp)))
    requires Get(fields, "user_id") == Some(OptInt(m.userId))
    requires Get(fields, "chat_id") == Some(JInt(m.chatId))
    ensures MessageOfJson(JObject(fields), fromIso) == Some(m)
  {
  }

  /** The context in the payload is the input context: same length, same
      order, every message recoverable. */
  lemma ContextRoundTrip(trigger: BufferedMessage, context: seq<BufferedMessage>, userId: int,
                         nowIso: string, toIso: int -> string, fromIso: string -> Option<int>)
    requires forall t :: fromIso(toIso(t)) == Some(t)
    ensures var c := Get(Payload(trigger, context, userId, nowIso, toIso).fields, "context_messages");
      && c.Some? && c.value.JArray? && |c.value.items| == |context|
      && forall i :: 0 <= i < |context| ==> MessageOfJson(c.value.items[i], fromIso) == Some(context[i])
  {
    PayloadFields(trigger, context, userId, nowIso, toIso);
    forall i | 0 <= i < |context|
      ensures MessageOfJson(ContextJson(context, toIso)[i], fromIso) == Some(context[i])
    {
      MessageRoundTrip(context[i], toIso, fromIso);
    }
  }

  /** `generate_webhook_signature`: the hex HMAC of the secret and the
      key-sorted serialisation. */
  function Signature(secret: string, payload: Json, hmacHex: (string, string) -> string,
                     dumpsSorted: Json -> string): string
  {
    hmacHex(secret, dumpsSorted(payload))
  }

  /** The signature sees the payload only through its key-sorted
      serialisation: payloads that serialise alike sign alike. */
  lemma SignatureBySerialisation(secret: string, p: Json, q: Json,
                                 hmacHex: (string, string) -> string, dumpsSorted: Json -> string)
    requires dumpsSorted(p) == dumpsSorted(q)
    ensures Signature(secret, p, hmacHex, dumpsSorted) == Signature(secret, q, hmacHex, dumpsSorted)
  {
  }

  /** The request headers for a signature. */
  function Headers(signature: string): (h: seq<(string, string)>)
    ensures |h| == 3 && h[0].0 == "X-Webhook-Signature" && |h[0].1| == 7 + |signature|
    ensures h[0].1[..7] == "sha256=" && h[0].1[7..] == signature
  {
    [("X-Webhook-Signature", "sha256=" + signature),
     ("Content-Type", "application/json"),
     ("User-Agent", "EllieTicketBot/1.0")]
  }

  /** The decision table of `send_context_to_n8n`. */
  function Decide(url: Option<string>, secret: Option<string>, outcome: HttpOutcome): (d: Decision)
    ensures !Truthy(url) ==> d.result && !d.posts && d.event.None?
    ensures Truthy(url) && !Truthy(secret) ==>
              !d.result && !d.posts
              && d.event == Some(AuditEvent(WebhookNoSecret, "Webhook request attempted without secret", None))
    ensures Truthy(url) && Truthy(secret) ==> d.posts && d.event.Some?
    ensures d.posts ==> (d.result <==> outcome == Status(200))
    ensures d.posts && outcome == Status(200) ==>
              d.event == Some(AuditEvent(WebhookSuccess, "Context sent to n8n webhook", None))
    ensures d.posts && outcome.Status? && outcome.code != 200 ==>
              d.event == Some(AuditEvent(WebhookError, "Status: " + IntToString(outcome.code), None))
    ensures d.posts && outcome.Raised? ==>
              d.event == Some(AuditEvent(WebhookException, outcome.message, None))
  {
    if !Truthy(url) then Decision(true, false, None)
    else if !Truthy(secret) then
      Decision(false, false, Some(AuditEvent(WebhookNoSecret, "Webhook request attempted without secret", None)))
    else
      match outcome
      case Status(code) =>
        if code == 200 then Decision(true, true, Some(AuditEvent(WebhookSuccess, "Context sent to n8n webhook", None)))
        else Decision(false, true, Some(AuditEvent(WebhookError, "Status: " + IntToString(code), None)))
      case Raised(message) =>
        Decision(false, true, Some(AuditEvent(WebhookException, message, None)))
  }

  function EventsOf(d: Decision): seq<AuditEvent> {
    if d.event.Some? then [d.event.value] else []
  }

  /** `WebhookClient`. */
  class WebhookClient {
    const webhookUrl: Option<string>
    const webhookSecret: Option<string>
    /** `hmac.new(secret, message, sha256).hexdigest()` on UTF-8 strings. */
    const hmacHex: (string, string) -> string
    /** `json.dumps(payload, sort_keys=True)`. */
    const dumpsSorted: Json -> string
    /** `datetime.isoformat` on message timestamps. */
    const toIso: int -> string
    /** The events this client has written to the security log. */
    ghost var audit: seq<AuditEvent>
    /** The posts this client has attempted. */
    ghost var attempts: seq<Request>

    constructor (webhookUrl: Option<string>, webhookSecret: Option<string>, hmacHex: (string, string) -> string,
                 dumpsSorted: Json -> string, toIso: int -> string)
      ensures this.webhookUrl == webhookUrl && this.webhookSecret == webhookSecret
      ensures this.hmacHex == hmacHex && this.dumpsSorted == dumpsSorted && this.toIso == toIso
      ensures audit == [] && attempts == []
    {
      this.webhookUrl := webhookUrl;
      this.webhookSecret := webhookSecret;
      this.hmacHex := hmacHex;
      this.dumpsSorted := dumpsSorted;
      this.toIso := toIso;
      audit := [];
      attempts := [];
    }

    /** `generate_webhook_signature` (only reached with a secret set). */
    function GenerateWebhookSignature(payload: Json): string
      requires webhookSecret.Some?
    {
      Signature(webhookSecret.value, payload, hmacHex, dumpsSorted)
    }

    /** The request `send_context_to_n8n` posts. */
    function RequestFor(trigger: BufferedMessage, context: seq<BufferedMessage>, userId: int, nowIso: string)
      : Request
      requires webhookUrl.Some? && webhookSecret.Some?
    {
      var payload := Payload(trigger, context, userId, nowIso, toIso);
      Request(webhookUrl.value, payload, Headers(GenerateWebhookSignature(payload)), PostTimeoutSeconds, true)
    }

    /** `send_context_to_n8n`. Without a URL it answers true and sends
        nothing; without a secret it logs and answers false; otherwise it
        signs and posts the payload and answers by the outcome, `outcome`
        standing for what the post returned or raised. */
    method SendContextToN8n(trigger: BufferedMessage, context: seq<BufferedMessage>, userId: int,
                            nowIso: string, outcome: HttpOutcome) returns (ok: bool)
      modifies this
      ensures var d := Decide(webhookUrl, webhookSecret, outcome);
        && ok == d.result
        && audit == old(audit) + EventsOf(d)
        && attempts == old(attempts) + (if d.posts then [RequestFor(trigger, context, userId, nowIso)] else [])
    {
      if !Truthy(webhookUrl) {
        return true;
      }
      if !Truthy(webhookSecret) {
        audit := audit + [AuditEvent(WebhookNoSecret, "Webhook request attempted without secret", None)];
        return false;
      }
      var payload := Payload(trigger, context, userId, nowIso, toIso);
      var signature := GenerateWebhookSignature(payload);
      var headers := Headers(signature);
      attempts := attempts + [Request(webhookUrl.value, payload, headers, PostTimeoutSeconds, true)];
      match outcome {
        case Status(code) =>
          if code == 200 {
            audit := audit + [AuditEvent(WebhookSuccess, "Context sent to n8n webhook", None)];
            return true;
          } else {
            audit := audit + [AuditEvent(WebhookError, "Status: " + IntToString(code), None)];
            return false;
          }
        case Raised(message) =>
          audit := audit + [AuditEvent(WebhookException, message, None)];
          return false;
      }
    }

    /** `send_issue`: the deprecated entry point, which sends the trigger with
        an empty context. */
    method SendIssue<IssueData>(issueData: IssueData, trigger: BufferedMessage, userId: int,
                                nowIso: string, outcome: HttpOutcome) returns (ok: bool)
      modifies this
      ensures var d := Decide(webhookUrl, webhookSecret, outcome);
        && ok == d.result
        && audit == old(audit) + EventsOf(d)
        && attempts == old(attempts) + (if d.posts then [RequestFor(trigger, [], userId, nowIso)] else [])
    {
      ok := SendContextToN8n(trigger, [], userId, nowIso, outcome);
    }
  }
}
