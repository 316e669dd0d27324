/** Inbound items: a chat message that may carry media. */
module Messages {

  /** The kinds of attachment that make a message worth queueing. */
  datatype Media = Document | Photo | Video | Audio | Animation | Sticker

  /**
   * A message as the transport hands it over. Its identity is where it was
   * posted (`chat`, `id`), which is also what deleting the original needs;
   * `media` holds the qualifying attachments it carries (none for plain text,
   * voice notes and every other kind of content).
   */
  datatype Message = Message(chat: int, id: int, media: set<Media>)

  /**
   * A message is queued only when it carries one of the six kinds of
   * attachment; such a message never has an empty attachment set.
   */
  predicate Qualifies(m: Message)
    ensures Qualifies(m) ==> m.media != {}
  {
    Document in m.media || Photo in m.media || Video in m.media ||
    Audio in m.media || Animation in m.media || Sticker in m.media
  }

  /** Conversely, every message with some attachment of the listed kinds qualifies. */
  lemma AnyMediaQualifies(m: Message)
    requires m.media != {}
    ensures Qualifies(m)
  {
    var x :| x in m.media;
    match x
    case Document =>
    case Photo =>
    case Video =>
    case Audio =>
    case Animation =>
    case Sticker =>
  }

  /** No message occurs twice: every Telegram message is delivered to the handler once. */
  predicate Distinct(q: seq<Message>) {
    forall i, j :: 0 <= i < j < |q| ==> q[i] != q[j]
  }
}
