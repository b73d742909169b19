/** The security audit trail. Each handler keeps its writes to the security
    log as an append-only ghost sequence of these records; the rotating log
    file itself is not part of this model. */
module Audit {
  import opened Wrappers

  /** The event tags written by the reaction handler, the message handler and
      the webhook client. */
  datatype EventType =
    | UnauthorizedChatReaction
    | UnauthorizedUserReaction
    | RateLimitExceeded
    | UnauthorizedMessage
    | WebhookNoSecret
    | WebhookSuccess
    | WebhookError
    | WebhookException

  /** One `log_event(event_type, details, user_id)` call. */
  datatype AuditEvent = AuditEvent(eventType: EventType, details: string, userId: Option<int>)

  /** The tag as it appears in the log line. */
  function Tag(t: EventType): string {
    match t
    case UnauthorizedChatReaction => "UNAUTHORIZED_CHAT_REACTION"
    case UnauthorizedUserReaction => "UNAUTHORIZED_USER_REACTION"
    case RateLimitExceeded => "RATE_LIMIT_EXCEEDED"
    case UnauthorizedMessage => "UNAUTHORIZED_MESSAGE"
    case WebhookNoSecret => "WEBHOOK_NO_SECRET"
    case WebhookSuccess => "WEBHOOK_SUCCESS"
    case WebhookError => "WEBHOOK_ERROR"
    case WebhookException => "WEBHOOK_EXCEPTION"
  }
}
