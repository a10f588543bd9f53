/**
 The status state machine of the connection client and the invariants that
 every sequence of operations keeps.

 The machine allows `Connecting` from any other status, `Connected` and
 `Error` only from `Connecting`, and `Disconnected` from any other status. No
 operation consults it: it is a property of the traces the operations emit.
 */
module Lifecycle {
  import opened Values
  import opened Events
  import opened Registry
  import opened Client

  /** A single permitted status change. */
  predicate Transition(from: Status, to: Status) {
    match to
    case Connecting => from != Connecting
    case Connected => from == Connecting
    case Error => from == Connecting
    case Disconnected => from != Disconnected
  }

  /** The status after a trace of notifications, starting from `from`. */
  function LastStatus(from: Status, events: seq<Event>): Status
    decreases |events|
  {
    if events == [] then from
    else LastStatus(if events[0].StatusChanged? then events[0].status else from, events[1..])
  }

  /** Every status change in the trace is a permitted transition from the one before. */
  predicate Follows(from: Status, events: seq<Event>)
    decreases |events|
  {
    if events == [] then true
    else if events[0].StatusChanged? then
      Transition(from, events[0].status) && Follows(events[0].status, events[1..])
    else Follows(from, events[1..])
  }

  /** What holds between operations whatever the transport does. `Connecting`
      is only ever seen inside `connect`, and a held handle and the status
      `Disconnected` never go together. */
  predicate Invariant(c: Client) {
    && c.status != Connecting
    && (c.status == Connected ==> c.hasHandle)
    && (c.status == Disconnected ==> !c.hasHandle)
  }

  /** The stronger pairing "connected exactly when a handle is held". */
  predicate Paired(c: Client) {
    c.status != Connecting && (c.status == Connected <==> c.hasHandle)
  }

  /** One client operation with the transport outcomes it meets. */
  datatype Op =
    | ConnectOp(url: string, closeOld: Ack, open: Ack, subscribe: Ack)
    | SendOp(text: string, transmit: Ack)
    | DisconnectOp(close: Ack)
    | DeliverOp(data: Value)
    | AddMessageListenerOp(listener: ListenerId)
    | RemoveMessageListenerOp(listener: ListenerId)
    | AddStatusListenerOp(listener: ListenerId)
    | RemoveStatusListenerOp(listener: ListenerId)

  function Apply(c: Client, op: Op, serialize: Value -> string): Step {
    match op
    case ConnectOp(url, closeOld, open, subscribe) => Connect(c, url, closeOld, open, subscribe)
    case SendOp(text, transmit) => Send(c, text, transmit)
    case DisconnectOp(close) => Disconnect(c, close)
    case DeliverOp(data) => Deliver(c, data, serialize)
    case AddMessageListenerOp(l) => Step(AddMessageListener(c, l), [], [], Returned)
    case RemoveMessageListenerOp(l) => Step(RemoveMessageListener(c, l), [], [], Returned)
    case AddStatusListenerOp(l) => Step(AddStatusListener(c, l), [], [], Returned)
    case RemoveStatusListenerOp(l) => Step(RemoveStatusListener(c, l), [], [], Returned)
  }

  /** The client after a sequence of operations and every notification they made. */
  datatype Trace = Trace(client: Client, events: seq<Event>)

  function Run(c: Client, ops: seq<Op>, serialize: Value -> string): Trace
    decreases |ops|
  {
    if ops == [] then Trace(c, [])
    else
      var s := Apply(c, ops[0], serialize);
      var rest := Run(s.client, ops[1..], serialize);
      Trace(rest.client, s.events + rest.events)
  }

  /** A connect whose subscription never fails once the open has succeeded,
      so that open and subscription act as one transport call. */
  predicate AtomicSubscribe(op: Op) {
    op.ConnectOp? && op.open.Ok? ==> op.subscribe.Ok?
  }

  lemma {:induction false} FollowsAppend(from: Status, a: seq<Event>, b: seq<Event>)
    ensures LastStatus(from, a + b) == LastStatus(LastStatus(from, a), b)
    ensures Follows(from, a + b) <==> Follows(from, a) && Follows(LastStatus(from, a), b)
    decreases |a|
  {
    if a == [] {
      assert a + b == b;
    } else {
      assert (a + b)[0] == a[0];
      assert (a + b)[1..] == a[1..] + b;
      var next := if a[0].StatusChanged? then a[0].status else from;
      FollowsAppend(next, a[1..], b);
    }
  }

  /** One operation keeps the invariant, emits only permitted transitions, and
      leaves the status equal to the last one its listeners were told. */
  lemma ApplyKeepsInvariant(c: Client, op: Op, serialize: Value -> string)
    requires Invariant(c)
    ensures var s := Apply(c, op, serialize);
      Invariant(s.client) && Follows(c.status, s.events) && LastStatus(c.status, s.events) == s.client.status
  {
    var s := Apply(c, op, serialize);
    match op
    case ConnectOp(url, closeOld, open, subscribe) =>
      assert s.events[2..] == [] || !s.events[2].StatusChanged?;
      assert Follows(s.events[1].status, s.events[2..]);
      assert LastStatus(s.events[1].status, s.events[2..]) == s.events[1].status;
    case _ =>
  }

  /** Every reachable client keeps the invariant, and the notification trace
      of any run follows the state machine and ends at the final status. */
  lemma {:induction false} RunKeepsInvariant(c: Client, ops: seq<Op>, serialize: Value -> string)
    requires Invariant(c)
    ensures var t := Run(c, ops, serialize);
      Invariant(t.client) && Follows(c.status, t.events) && LastStatus(c.status, t.events) == t.client.status
    decreases |ops|
  {
    if ops != [] {
      var s := Apply(c, ops[0], serialize);
      ApplyKeepsInvariant(c, ops[0], serialize);
      RunKeepsInvariant(s.client, ops[1..], serialize);
      FollowsAppend(c.status, s.events, Run(s.client, ops[1..], serialize).events);
    }
  }

  /** When open and subscription never fail apart, every operation keeps
      "connected exactly when a handle is held". */
  lemma ApplyKeepsPaired(c: Client, op: Op, serialize: Value -> string)
    requires Paired(c) && AtomicSubscribe(op)
    ensures Paired(Apply(c, op, serialize).client)
  {
  }

  lemma {:induction false} RunKeepsPaired(c: Client, ops: seq<Op>, serialize: Value -> string)
    requires Paired(c)
    requires forall i :: 0 <= i < |ops| ==> AtomicSubscribe(ops[i])
    ensures Paired(Run(c, ops, serialize).client)
    decreases |ops|
  {
    if ops != [] {
      ApplyKeepsPaired(c, ops[0], serialize);
      RunKeepsPaired(Apply(c, ops[0], serialize).client, ops[1..], serialize);
    }
  }

  /** From a fresh client: `isConnected()` holds exactly when a handle is
      held, provided no subscription fails on its own. */
  lemma ReachableClientsArePaired(ops: seq<Op>, serialize: Value -> string)
    requires forall i :: 0 <= i < |ops| ==> AtomicSubscribe(ops[i])
    ensures var c := Run(Initial(), ops, serialize).client;
      IsConnected(c) <==> c.hasHandle
  {
    RunKeepsPaired(Initial(), ops, serialize);
  }

  /** The code installs the subscription after storing the handle, so a
      subscription that throws leaves a handle held under status `Error`:
      the pairing fails, and `send` then reaches the transport although
      `isConnected()` is false. */
  lemma SubscribeFailureLeavesHandle(
    c: Client, url: string, closeOld: Ack, cause: Thrown, text: string, transmit: Ack)
    ensures var s := Connect(c, url, closeOld, Ok, Fail(cause));
      && s.client.hasHandle && GetStatus(s.client) == Error && !Paired(s.client)
      && Invariant(s.client)
      && Send(s.client, text, transmit).transport == [Transmit(text)]
  {
  }
}
