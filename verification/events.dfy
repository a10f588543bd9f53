/**
 What the connection client tells its listeners: status values, messages, and
 the synthetic system messages it builds from a transport failure.
 */
module Events {
  import opened Values

  /** The client's belief about the connection phase; `Disconnected` initially. */
  datatype Status = Disconnected | Connecting | Connected | Error

  /** Where a message came from: an outbound send, an inbound frame, or the client itself. */
  datatype Kind = Sent | Received | System

  /** A message envelope. Its id and timestamp come from the wall clock and
      are not modelled. The content is a JavaScript value, because an inbound
      `data` field is passed on without conversion. */
  datatype Message = Message(kind: Kind, content: Value)

  /** One notification, in the order the client makes them: a status change
      goes to the status listeners, a message to the message listeners. */
  datatype Event = StatusChanged(status: Status) | Emitted(message: Message)

  /** What a rejected transport call (or the client itself) throws: an `Error`
      instance with its message, or some other value. */
  datatype Thrown = ErrorInstance(message: string) | NonError

  const ConnectFailurePrefix: string := "连接失败: "
  const ConnectFailureFallback: string := "连接失败"
  const SendFailurePrefix: string := "发送失败: "
  const SendFailureFallback: string := "发送失败"

  /** The error `send` throws when no transport handle is held. */
  const NotConnected: Thrown := ErrorInstance("未连接到服务器")

  /** The text that follows the prefix: the `Error`'s message, or the fallback
      when something other than an `Error` was thrown. */
  function Describe(cause: Thrown, fallback: string): string {
    match cause
    case ErrorInstance(text) => text
    case NonError => fallback
  }

  /** The synthetic system message reporting a failed transport call. */
  function FailureMessage(prefix: string, fallback: string, cause: Thrown): (m: Message)
    ensures IsSystemReport(m, prefix)
    ensures m.content.s[|prefix|..] == Describe(cause, fallback)
  {
    Message(System, Str(prefix + Describe(cause, fallback)))
  }

  /** True of a system message whose text starts with `prefix`. */
  predicate IsSystemReport(m: Message, prefix: string) {
    m.kind == System && m.content.Str? && |prefix| <= |m.content.s| && m.content.s[..|prefix|] == prefix
  }
}
