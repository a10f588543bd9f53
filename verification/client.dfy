/**
 The connection client of src/utils/websocket.ts (`WebSocketClient`) as an
 immutable record with pure transitions.

 Every lifecycle operation takes the outcome of each transport call it makes
 as a parameter and returns a `Step`: the new client, the transport calls made
 (in order), the notifications made (in order), and whether the operation
 returned or threw. Operations are atomic: overlapping asynchronous calls are
 not modelled.
 */
module Client {
  import opened Values
  import opened Events
  import opened Registry
  import Inbound

  /** The client's fields: status, whether a transport handle is held, the
      last target address, and the two registries in registration order. */
  datatype Client = Client(
    status: Status,
    hasHandle: bool,
    url: string,
    messageListeners: seq<ListenerId>,
    statusListeners: seq<ListenerId>)

  /** The outcome of one transport call: it resolved, or it rejected with `cause`. */
  datatype Ack = Ok | Fail(cause: Thrown)

  /** A transport call the client makes. */
  datatype TransportCall = Close | Open(target: string) | Subscribe | Transmit(text: string)

  /** How a lifecycle operation ends for its caller. */
  datatype Outcome = Returned | Raised(error: Thrown)

  datatype Step = Step(client: Client, transport: seq<TransportCall>, events: seq<Event>, outcome: Outcome)

  /** A freshly constructed client: the field initialisers of the class. */
  function Initial(): (c: Client)
    ensures GetStatus(c) == Disconnected && !IsConnected(c) && !c.hasHandle && GetUrl(c) == ""
    ensures |c.messageListeners| == 0 && |c.statusListeners| == 0
  {
    Client(Disconnected, false, "", [], [])
  }

  function GetStatus(c: Client): Status { c.status }

  function GetUrl(c: Client): string { c.url }

  predicate IsConnected(c: Client) { c.status == Connected }

  /** `connect(url)`. A held handle is closed first; whatever that close
      returns (`closeOld`) is only logged, and the handle is dropped. Then the
      status becomes `Connecting`, the address is recorded, and the transport
      is opened (`open`) and subscribed to (`subscribe`). A rejection of
      either sets `Error`, reports a system message, and is rethrown. */
  function Connect(c: Client, url: string, closeOld: Ack, open: Ack, subscribe: Ack): (r: Step)
    ensures r.client.url == url
    ensures r.client.messageListeners == c.messageListeners
    ensures r.client.statusListeners == c.statusListeners
    ensures |r.transport| >= 1 && (r.transport[0] == Close <==> c.hasHandle)
    ensures Open(url) in r.transport
    ensures |r.events| >= 2 && r.events[0] == StatusChanged(Connecting)
    ensures StatusChanged(Disconnected) !in r.events
    ensures r.client.status == Connected <==> open.Ok? && subscribe.Ok?
    ensures r.client.status == Connected ==>
      r.client.hasHandle && r.events == [StatusChanged(Connecting), StatusChanged(Connected)] && r.outcome == Returned
    ensures r.client.status != Connected ==>
      && r.client.status == Error
      && |r.events| == 3 && r.events[1] == StatusChanged(Error)
      && r.events[2].Emitted? && IsSystemReport(r.events[2].message, ConnectFailurePrefix)
      && r.outcome == Raised(if open.Fail? then open.cause else subscribe.cause)
    ensures open.Fail? ==> !r.client.hasHandle && Subscribe !in r.transport
    ensures open.Ok? ==> r.client.hasHandle && r.transport[|r.transport| - 1] == Subscribe
    ensures |r.transport| == (if c.hasHandle then 1 else 0) + (if open.Ok? then 2 else 1)
    ensures r.transport[if c.hasHandle then 1 else 0] == Open(url)
    ensures Close !in r.transport[1..]
  {
    var closing := if c.hasHandle then [Close] else [];
    var released := c.(hasHandle := false);
    var attempting := released.(status := Connecting, url := url);
    if open.Fail? then
      Step(attempting.(status := Error), closing + [Open(url)], ConnectFailed(open.cause), Raised(open.cause))
    else
      var held := attempting.(hasHandle := true);
      if subscribe.Fail? then
        Step(held.(status := Error), closing + [Open(url), Subscribe], ConnectFailed(subscribe.cause), Raised(subscribe.cause))
      else
        Step(held.(status := Connected), closing + [Open(url), Subscribe],
             [StatusChanged(Connecting), StatusChanged(Connected)], Returned)
  }

  /** The notifications of a failed connect, in the order the catch makes them. */
  function ConnectFailed(cause: Thrown): seq<Event> {
    [StatusChanged(Connecting), StatusChanged(Error),
     Emitted(FailureMessage(ConnectFailurePrefix, ConnectFailureFallback, cause))]
  }

  /** `send(message)`. Without a handle it throws at once and notifies no one;
      otherwise the text goes to the transport (`transmit`) and the outcome is
      reported as a `sent` message or as a system message plus a rethrow. The
      client itself never changes. */
  function Send(c: Client, message: string, transmit: Ack): (r: Step)
    ensures r.client == c
    ensures !c.hasHandle ==> r.transport == [] && r.events == [] && r.outcome == Raised(NotConnected)
    ensures c.hasHandle ==> r.transport == [Transmit(message)] && |r.events| == 1 && r.events[0].Emitted?
    ensures c.hasHandle && transmit.Ok? ==>
      r.events[0].message == Message(Sent, Str(message)) && r.outcome == Returned
    ensures c.hasHandle && transmit.Fail? ==>
      IsSystemReport(r.events[0].message, SendFailurePrefix) && r.outcome == Raised(transmit.cause)
  {
    if !c.hasHandle then Step(c, [], [], Raised(NotConnected))
    else match transmit
      case Ok => Step(c, [Transmit(message)], [Emitted(Message(Sent, Str(message)))], Returned)
      case Fail(cause) =>
        Step(c, [Transmit(message)],
             [Emitted(FailureMessage(SendFailurePrefix, SendFailureFallback, cause))], Raised(cause))
  }

  /** `disconnect()`. Without a handle nothing happens. Otherwise the handle
      is closed; a rejected close (`close`) is only logged, and in every case
      the handle is dropped and the status becomes `Disconnected`. */
  function Disconnect(c: Client, close: Ack): (r: Step)
    ensures r.outcome == Returned
    ensures !c.hasHandle ==> r.client == c && r.transport == [] && r.events == []
    ensures c.hasHandle ==>
      && !r.client.hasHandle && r.client.status == Disconnected
      && r.transport == [Close] && r.events == [StatusChanged(Disconnected)]
      && r.client.url == c.url
      && r.client.messageListeners == c.messageListeners
      && r.client.statusListeners == c.statusListeners
  {
    if !c.hasHandle then Step(c, [], [], Returned)
    else Step(c.(hasHandle := false, status := Disconnected), [Close], [StatusChanged(Disconnected)], Returned)
  }

  /** One inbound delivery reaching the subscription callback: a `received`
      message with the classified content, or nothing for a close notice. The
      callback reads no client state and changes none. */
  function Deliver(c: Client, data: Value, serialize: Value -> string): (r: Step)
    ensures r.client == c && r.transport == [] && r.outcome == Returned
    ensures |r.events| <= 1
    ensures r.events == [] <==> Inbound.IsCloseNotice(data)
    ensures r.events != [] ==> r.events[0].Emitted? && r.events[0].message.kind == Received
    ensures r.events != [] ==> r.events[0].message.content == Inbound.Classify(data, serialize).value
    ensures data.Str? ==> r.events == [Emitted(Message(Received, data))]
  {
    match Inbound.Classify(data, serialize)
    case None => Step(c, [], [], Returned)
    case Some(content) => Step(c, [], [Emitted(Message(Received, content))], Returned)
  }

  /** The connection fields of two clients agree: status, handle and address. */
  predicate SameConnection(a: Client, b: Client) {
    a.status == b.status && a.hasHandle == b.hasHandle && a.url == b.url
  }

  /** `addMessageListener(listener)`: only the message registry changes, by one `push`. */
  function AddMessageListener(c: Client, l: ListenerId): (r: Client)
    ensures r.messageListeners == Add(c.messageListeners, l)
    ensures r.statusListeners == c.statusListeners && SameConnection(r, c)
  {
    c.(messageListeners := Add(c.messageListeners, l))
  }

  /** `removeMessageListener(listener)`: only the message registry changes, losing the
      first entry equal to `l` if there is one. */
  function RemoveMessageListener(c: Client, l: ListenerId): (r: Client)
    ensures r.messageListeners == Remove(c.messageListeners, l)
    ensures r.statusListeners == c.statusListeners && SameConnection(r, c)
  {
    c.(messageListeners := Remove(c.messageListeners, l))
  }

  /** `addStatusListener(listener)`: only the status registry changes, by one `push`. */
  function AddStatusListener(c: Client, l: ListenerId): (r: Client)
    ensures r.statusListeners == Add(c.statusListeners, l)
    ensures r.messageListeners == c.messageListeners && SameConnection(r, c)
  {
    c.(statusListeners := Add(c.statusListeners, l))
  }

  /** `removeStatusListener(listener)`: only the status registry changes, losing
      the first entry equal to `l` if there is one. */
  function RemoveStatusListener(c: Client, l: ListenerId): (r: Client)
    ensures r.statusListeners == Remove(c.statusListeners, l)
    ensures r.messageListeners == c.messageListeners && SameConnection(r, c)
  {
    c.(statusListeners := Remove(c.statusListeners, l))
  }

  /** Every listener call a trace of notifications makes: a status change
      fans out over the status registry (`setStatus`), a message over the
      message registry (`notifyListeners`). `messageThrows` and `statusThrows`
      are the listeners that throw. */
  function Deliveries(c: Client, events: seq<Event>, messageThrows: set<ListenerId>, statusThrows: set<ListenerId>)
    : (calls: seq<Call<Event>>)
    ensures forall i :: 0 <= i < |calls| ==> calls[i].event in events
    ensures forall i :: 0 <= i < |calls| && calls[i].event.StatusChanged? ==>
      calls[i].listener in c.statusListeners && (calls[i].threw <==> calls[i].listener in statusThrows)
    ensures forall i :: 0 <= i < |calls| && calls[i].event.Emitted? ==>
      calls[i].listener in c.messageListeners && (calls[i].threw <==> calls[i].listener in messageThrows)
    decreases |events|
  {
    if events == [] then []
    else
      var first :=
        match events[0]
        case StatusChanged(_) => Dispatch(c.statusListeners, events[0], statusThrows)
        case Emitted(_) => Dispatch(c.messageListeners, events[0], messageThrows);
      first + Deliveries(c, events[1..], messageThrows, statusThrows)
  }
}
