/** The values the relay reads and writes: the chat platform's inbound
    message and update (only the fields the relay looks at), and the
    snapshot record it stores.  A reference the platform may leave null is
    an `Option`; `Or` is the null-coalescing operator `??`. */
module Messages {

  datatype Option<+T> = None | Some(value: T) {

    /** `this ?? other`: this value when present, otherwise `other`. */
    function Or(other: Option<T>): Option<T>
    {
      if Some? then this else other
    }
  }

  /** How a possibly-null string is rendered inside an interpolated string:
      null renders as the empty string. */
  function Render(s: Option<string>): string
  {
    if s.Some? then s.value else ""
  }

  /** A file attached to a message (one photo size, a video, a voice note,
      a document or a round video note), known by its platform file id. */
  datatype Attachment = Attachment(fileId: string)

  /** The sender of a message. */
  datatype User = User(firstName: string)

  /** An inbound message.  `photo` is the list of sizes the platform offers
      for one picture, smallest first. */
  datatype Message = Message(
    chatId: int,
    messageId: int,
    from: Option<User>,
    text: Option<string>,
    caption: Option<string>,
    photo: Option<seq<Attachment>>,
    video: Option<Attachment>,
    voice: Option<Attachment>,
    document: Option<Attachment>,
    videoNote: Option<Attachment>)

  /** One platform event.  Both parts are read independently: an event
      may carry a new message, an edited message, both or neither. */
  datatype Update = Update(message: Option<Message>, editedMessage: Option<Message>)

  /** The stored snapshot of a message.  `fileUrl` and `fileType` are always
      assigned a string by the relay, so they are not optional here. */
  datatype MessageLog = MessageLog(
    chatId: int,
    messageId: int,
    firstName: Option<string>,
    text: Option<string>,
    fileUrl: string,
    fileType: string)

  /** `msg.From?.FirstName` */
  function SenderName(m: Message): Option<string>
  {
    if m.from.Some? then Some(m.from.value.firstName) else None
  }

  /** `msg.Text ?? msg.Caption`: the body of a message, or the caption of its
      media when it has no text. */
  function Body(m: Message): Option<string>
  {
    m.text.Or(m.caption)
  }

  /** `t` is a prefix of `s`. */
  predicate StartsWith(s: string, t: string) {
    |t| <= |s| && s[..|t|] == t
  }

  /** `t` is a suffix of `s`. */
  predicate EndsWith(s: string, t: string) {
    |t| <= |s| && s[|s| - |t|..] == t
  }

  /** `t` occurs somewhere in `s`. */
  ghost predicate Contains(s: string, t: string) {
    exists i :: 0 <= i <= |s| && StartsWith(s[i..], t)
  }
}
