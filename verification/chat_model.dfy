/**
 * The persisted shape of a conversation (models/Chat.js): a `Conversation`
 * record per user holding an ordered log of `Message` entries, with the
 * schema's defaults and its one validation rule.
 */
module ChatModel {
  import opened Wrappers

  /** Milliseconds since the epoch; the clock is an input of every operation. */
  type Instant = int

  /** One turn: the text, whether the end user wrote it, and when. */
  datatype Message = Message(content: string, isUser: bool, timestamp: Instant)

  /** A user's conversation record. */
  datatype Conversation = Conversation(
    userId: string,
    messages: seq<Message>,
    createdAt: Instant,
    updatedAt: Instant)

  /** Mongoose's message when a document fails the `required` rule on `userId`. */
  const UserIdRequired: string := "Chat validation failed: userId: Path `userId` is required."

  /**
   * Builds a message entry; a timestamp that is not supplied defaults to the
   * creation time `now`.
   */
  function NewMessage(content: string, isUser: bool, timestamp: Option<Instant>, now: Instant): (m: Message)
    ensures m.content == content && m.isUser == isUser
    ensures timestamp.Some? ==> m.timestamp == timestamp.value
    ensures timestamp.None? ==> m.timestamp == now
  {
    Message(content, isUser, timestamp.GetOr(now))
  }

  /**
   * Builds a new conversation record at time `now`: both `createdAt` and
   * `updatedAt` take their default, the creation time.
   */
  function NewConversation(userId: string, messages: seq<Message>, now: Instant): (c: Conversation)
    ensures c.userId == userId && c.messages == messages
    ensures c.createdAt == now && c.updatedAt == now
  {
    Conversation(userId, messages, now, now)
  }

  /**
   * The schema's `required` rule on a string path: it rejects a missing value
   * and the empty string alike, so only a non-empty user id is accepted.
   */
  predicate HasUserId(c: Conversation) {
    |c.userId| > 0
  }

  /** Validation run by `save` before anything is written. */
  function Validate(c: Conversation): (r: Outcome<string>)
    ensures r == Pass <==> HasUserId(c)
    ensures r.Fail? ==> r.error == UserIdRequired
  {
    if |c.userId| == 0 then Fail(UserIdRequired) else Pass
  }
}
