/**
 What each registered listener receives from the client's operations.

 `Deliveries` turns an operation's notification trace into listener calls;
 the lemmas here project those calls onto one listener and state what it
 receives, for any set of listeners that throw.
 */
module Listening {
  import opened Values
  import opened Events
  import opened Registry
  import opened Client

  /** The events a listener registered `asStatus` times as a status listener
      and `asMessage` times as a message listener receives from a trace. */
  function Heard(events: seq<Event>, asStatus: nat, asMessage: nat): seq<Event>
    decreases |events|
  {
    if events == [] then []
    else
      var copies := if events[0].StatusChanged? then asStatus else asMessage;
      Repeat(events[0], copies) + Heard(events[1..], asStatus, asMessage)
  }

  /** The status changes of a trace, in order. */
  function StatusChanges(events: seq<Event>): seq<Event>
    decreases |events|
  {
    if events == [] then []
    else (if events[0].StatusChanged? then [events[0]] else []) + StatusChanges(events[1..])
  }

  /** The messages of a trace, in order. */
  function Messages(events: seq<Event>): seq<Event>
    decreases |events|
  {
    if events == [] then []
    else (if events[0].Emitted? then [events[0]] else []) + Messages(events[1..])
  }

  /** Each notification reaches a listener once per registration in the
      matching registry, in trace order, whichever listeners throw. */
  lemma {:induction false} SeenByDeliveries(
    c: Client, events: seq<Event>, messageThrows: set<ListenerId>, statusThrows: set<ListenerId>, l: ListenerId)
    ensures SeenBy(Deliveries(c, events, messageThrows, statusThrows), l)
         == Heard(events, multiset(c.statusListeners)[l], multiset(c.messageListeners)[l])
    decreases |events|
  {
    if events != [] {
      var ls := if events[0].StatusChanged? then c.statusListeners else c.messageListeners;
      var throws := if events[0].StatusChanged? then statusThrows else messageThrows;
      var first := Dispatch(ls, events[0], throws);
      var rest := Deliveries(c, events[1..], messageThrows, statusThrows);
      assert Deliveries(c, events, messageThrows, statusThrows) == first + rest;
      SeenByAppend(first, rest, l);
      SeenByDispatch(ls, events[0], throws, l);
      SeenByDeliveries(c, events[1..], messageThrows, statusThrows, l);
    }
  }

  lemma {:induction false} HeardOnlyAsStatus(events: seq<Event>)
    ensures Heard(events, 1, 0) == StatusChanges(events)
    decreases |events|
  {
    if events != [] {
      HeardOnlyAsStatus(events[1..]);
      assert Repeat(events[0], 1) == [events[0]];
    }
  }

  lemma {:induction false} HeardOnlyAsMessage(events: seq<Event>)
    ensures Heard(events, 0, 1) == Messages(events)
    decreases |events|
  {
    if events != [] {
      HeardOnlyAsMessage(events[1..]);
      assert Repeat(events[0], 1) == [events[0]];
    }
  }

  lemma {:induction false} HeardByNobody(events: seq<Event>)
    ensures Heard(events, 0, 0) == []
    decreases |events|
  {
    if events != [] {
      HeardByNobody(events[1..]);
    }
  }

  /** A status listener registered once (and not as a message listener)
      receives exactly the trace's status changes. */
  lemma StatusListenerHearsStatusChanges(
    c: Client, events: seq<Event>, messageThrows: set<ListenerId>, statusThrows: set<ListenerId>, l: ListenerId)
    requires multiset(c.statusListeners)[l] == 1 && l !in c.messageListeners
    ensures SeenBy(Deliveries(c, events, messageThrows, statusThrows), l) == StatusChanges(events)
  {
    SeenByDeliveries(c, events, messageThrows, statusThrows, l);
    HeardOnlyAsStatus(events);
  }

  /** A message listener registered once (and not as a status listener)
      receives exactly the trace's messages. */
  lemma MessageListenerHearsMessages(
    c: Client, events: seq<Event>, messageThrows: set<ListenerId>, statusThrows: set<ListenerId>, l: ListenerId)
    requires multiset(c.messageListeners)[l] == 1 && l !in c.statusListeners
    ensures SeenBy(Deliveries(c, events, messageThrows, statusThrows), l) == Messages(events)
  {
    SeenByDeliveries(c, events, messageThrows, statusThrows, l);
    HeardOnlyAsMessage(events);
  }

  /** A successful connect tells each status listener `Connecting`, then
      `Connected`, tells message listeners nothing, and leaves the client
      connected with a handle. */
  lemma ConnectSuccessNotifies(
    c: Client, url: string, closeOld: Ack, messageThrows: set<ListenerId>, statusThrows: set<ListenerId>)
    ensures var s := Connect(c, url, closeOld, Ok, Ok);
      && IsConnected(s.client) && GetStatus(s.client) == Connected && s.client.hasHandle
      && GetUrl(s.client) == url && s.outcome == Returned
    ensures var calls := Deliveries(c, Connect(c, url, closeOld, Ok, Ok).events, messageThrows, statusThrows);
      forall l :: multiset(c.statusListeners)[l] == 1 && l !in c.messageListeners ==>
        SeenBy(calls, l) == [StatusChanged(Connecting), StatusChanged(Connected)]
    ensures var calls := Deliveries(c, Connect(c, url, closeOld, Ok, Ok).events, messageThrows, statusThrows);
      forall m :: multiset(c.messageListeners)[m] == 1 && m !in c.statusListeners ==> SeenBy(calls, m) == []
  {
    var s := Connect(c, url, closeOld, Ok, Ok);
    forall l | multiset(c.statusListeners)[l] == 1 && l !in c.messageListeners
      ensures SeenBy(Deliveries(c, s.events, messageThrows, statusThrows), l)
           == [StatusChanged(Connecting), StatusChanged(Connected)]
    {
      StatusListenerHearsStatusChanges(c, s.events, messageThrows, statusThrows, l);
    }
    forall m | multiset(c.messageListeners)[m] == 1 && m !in c.statusListeners
      ensures SeenBy(Deliveries(c, s.events, messageThrows, statusThrows), m) == []
    {
      MessageListenerHearsMessages(c, s.events, messageThrows, statusThrows, m);
    }
  }

  /** A rejected open ends in `Error` with no handle, the new address already
      recorded, the error rethrown, status listeners told `Connecting` then
      `Error`, and each message listener sent one system report. */
  lemma ConnectFailureNotifies(
    c: Client, url: string, closeOld: Ack, cause: Thrown, subscribe: Ack,
    messageThrows: set<ListenerId>, statusThrows: set<ListenerId>)
    ensures var s := Connect(c, url, closeOld, Fail(cause), subscribe);
      && GetStatus(s.client) == Error && !IsConnected(s.client) && !s.client.hasHandle
      && GetUrl(s.client) == url && s.outcome == Raised(cause)
    ensures var calls := Deliveries(c, Connect(c, url, closeOld, Fail(cause), subscribe).events, messageThrows, statusThrows);
      forall l :: multiset(c.statusListeners)[l] == 1 && l !in c.messageListeners ==>
        SeenBy(calls, l) == [StatusChanged(Connecting), StatusChanged(Error)]
    ensures var calls := Deliveries(c, Connect(c, url, closeOld, Fail(cause), subscribe).events, messageThrows, statusThrows);
      forall m :: multiset(c.messageListeners)[m] == 1 && m !in c.statusListeners ==>
        |SeenBy(calls, m)| == 1 && SeenBy(calls, m)[0].Emitted?
        && IsSystemReport(SeenBy(calls, m)[0].message, ConnectFailurePrefix)
  {
    var s := Connect(c, url, closeOld, Fail(cause), subscribe);
    var report := s.events[2];
    assert s.events == [StatusChanged(Connecting), StatusChanged(Error), report];
    assert report.Emitted?;
    assert s.events[1..] == [StatusChanged(Error), report];
    assert s.events[1..][1..] == [report] && [report][1..] == [];
    assert Messages([report]) == [report] + Messages([report][1..]);
    assert StatusChanges([report]) == StatusChanges([report][1..]);
    assert StatusChanges(s.events[1..]) == [StatusChanged(Error)];
    assert Messages(s.events[1..]) == [report];
    var calls := Deliveries(c, s.events, messageThrows, statusThrows);
    forall l | multiset(c.statusListeners)[l] == 1 && l !in c.messageListeners
      ensures SeenBy(calls, l) == [StatusChanged(Connecting), StatusChanged(Error)]
    {
      StatusListenerHearsStatusChanges(c, s.events, messageThrows, statusThrows, l);
    }
    forall m | multiset(c.messageListeners)[m] == 1 && m !in c.statusListeners
      ensures SeenBy(calls, m) == [report]
    {
      MessageListenerHearsMessages(c, s.events, messageThrows, statusThrows, m);
    }
  }

  /** Reconnecting over a held handle closes it first and then opens the new
      one; the close's outcome changes nothing, and the status never passes
      through `Disconnected`. */
  lemma ReconnectClosesOldHandle(c: Client, url: string, closeOld: Ack, open: Ack, subscribe: Ack)
    requires c.hasHandle
    ensures var s := Connect(c, url, closeOld, open, subscribe);
      && s.transport[..2] == [Close, Open(url)]
      && s == Connect(c, url, Ok, open, subscribe)
      && StatusChanged(Disconnected) !in s.events
      && (open.Fail? ==> !s.client.hasHandle)
  {
  }

  /** `send` without a handle reaches no transport and no listener, leaves
      the client as it was, and throws the not-connected error. */
  lemma SendWithoutHandleNotifiesNobody(
    c: Client, text: string, transmit: Ack, messageThrows: set<ListenerId>, statusThrows: set<ListenerId>)
    requires !c.hasHandle
    ensures var s := Send(c, text, transmit);
      && Deliveries(c, s.events, messageThrows, statusThrows) == []
      && s.client == c && s.outcome == Raised(NotConnected) && s.transport == []
  {
  }

  /** A successful `send` calls every message listener once, in
      registration order, with one `sent` message carrying the text. */
  lemma SendSuccessReachesEveryListener(
    c: Client, text: string, messageThrows: set<ListenerId>, statusThrows: set<ListenerId>)
    requires c.hasHandle
    ensures var calls := Deliveries(c, Send(c, text, Ok).events, messageThrows, statusThrows);
      && |calls| == |c.messageListeners|
      && forall i :: 0 <= i < |calls| ==>
           calls[i].listener == c.messageListeners[i] && calls[i].event == Emitted(Message(Sent, Str(text)))
  {
    var e := Emitted(Message(Sent, Str(text)));
    var d := Dispatch(c.messageListeners, e, messageThrows);
    assert Deliveries(c, [e], messageThrows, statusThrows) == d + [];
    assert d + [] == d;
  }

  /** A rejected `send` gives each message listener one system report,
      rethrows, and leaves status and handle as they were. */
  lemma SendFailureNotifies(
    c: Client, text: string, cause: Thrown, messageThrows: set<ListenerId>, statusThrows: set<ListenerId>)
    requires c.hasHandle
    ensures var s := Send(c, text, Fail(cause));
      s.client.status == c.status && s.client.hasHandle && s.outcome == Raised(cause)
    ensures var calls := Deliveries(c, Send(c, text, Fail(cause)).events, messageThrows, statusThrows);
      forall m :: multiset(c.messageListeners)[m] == 1 && m !in c.statusListeners ==>
        |SeenBy(calls, m)| == 1 && SeenBy(calls, m)[0].Emitted?
        && IsSystemReport(SeenBy(calls, m)[0].message, SendFailurePrefix)
  {
    var s := Send(c, text, Fail(cause));
    var calls := Deliveries(c, s.events, messageThrows, statusThrows);
    forall m | multiset(c.messageListeners)[m] == 1 && m !in c.statusListeners
      ensures SeenBy(calls, m) == s.events
    {
      MessageListenerHearsMessages(c, s.events, messageThrows, statusThrows, m);
    }
  }

  /** `disconnect` with a handle always ends disconnected without a handle,
      tells each status listener `Disconnected` once and never throws,
      whatever the close returned. Without a handle it does nothing. */
  lemma DisconnectResets(c: Client, close: Ack, messageThrows: set<ListenerId>, statusThrows: set<ListenerId>)
    ensures var s := Disconnect(c, close);
      && s.outcome == Returned
      && (c.hasHandle ==> GetStatus(s.client) == Disconnected && !s.client.hasHandle)
      && (!c.hasHandle ==> s.client == c && Deliveries(c, s.events, messageThrows, statusThrows) == [])
    ensures var calls := Deliveries(c, Disconnect(c, close).events, messageThrows, statusThrows);
      forall l :: c.hasHandle && multiset(c.statusListeners)[l] == 1 && l !in c.messageListeners ==>
        SeenBy(calls, l) == [StatusChanged(Disconnected)]
  {
    var s := Disconnect(c, close);
    forall l | c.hasHandle && multiset(c.statusListeners)[l] == 1 && l !in c.messageListeners
      ensures SeenBy(Deliveries(c, s.events, messageThrows, statusThrows), l) == [StatusChanged(Disconnected)]
    {
      StatusListenerHearsStatusChanges(c, s.events, messageThrows, statusThrows, l);
    }
  }

  /** An inbound text frame, bare or as the plugin's `{type, data}` object,
      reaches each message listener as one `received` message with that
      text; a close notice, with or without a `data` field, reaches nobody. */
  lemma InboundTextReachesListeners(
    c: Client, text: string, serialize: Value -> string, messageThrows: set<ListenerId>, statusThrows: set<ListenerId>)
    ensures forall m :: multiset(c.messageListeners)[m] == 1 && m !in c.statusListeners ==>
      SeenBy(Deliveries(c, Deliver(c, Str(text), serialize).events, messageThrows, statusThrows), m)
        == [Emitted(Message(Received, Str(text)))]
    ensures forall m :: multiset(c.messageListeners)[m] == 1 && m !in c.statusListeners ==>
      SeenBy(Deliveries(c, Deliver(c, Obj(map["type" := Str("Text"), "data" := Str(text)]), serialize).events,
                        messageThrows, statusThrows), m)
        == [Emitted(Message(Received, Str(text)))]
    ensures Deliveries(c, Deliver(c, Obj(map["type" := Str("Close")]), serialize).events, messageThrows, statusThrows) == []
    ensures Deliveries(c, Deliver(c, Obj(map["type" := Str("Close"), "data" := Null]), serialize).events,
                       messageThrows, statusThrows) == []
  {
    var received := [Emitted(Message(Received, Str(text)))];
    var bare := Deliver(c, Str(text), serialize).events;
    assert bare == received;
    var frame := Obj(map["type" := Str("Text"), "data" := Str(text)]);
    assert frame.fields["data"] == Str(text);
    assert Deliver(c, frame, serialize).events == received;
    var close := Obj(map["type" := Str("Close")]);
    assert close.fields["type"] == Str("Close");
    assert Deliver(c, close, serialize).events == [];
    var closeWithData := Obj(map["type" := Str("Close"), "data" := Null]);
    assert closeWithData.fields["type"] == Str("Close");
    assert Deliver(c, closeWithData, serialize).events == [];
    assert Messages(received) == received;
    forall m | multiset(c.messageListeners)[m] == 1 && m !in c.statusListeners
      ensures SeenBy(Deliveries(c, received, messageThrows, statusThrows), m) == received
    {
      MessageListenerHearsMessages(c, received, messageThrows, statusThrows, m);
    }
  }

  /** After removing a message listener registered once, no trace of
      notifications reaches it. */
  lemma RemovedMessageListenerHearsNothing(
    c: Client, l: ListenerId, events: seq<Event>, messageThrows: set<ListenerId>, statusThrows: set<ListenerId>)
    requires multiset(c.messageListeners)[l] == 1 && l !in c.statusListeners
    ensures SeenBy(Deliveries(RemoveMessageListener(c, l), events, messageThrows, statusThrows), l) == []
  {
    var c' := RemoveMessageListener(c, l);
    SeenByDeliveries(c', events, messageThrows, statusThrows, l);
    HeardByNobody(events);
  }

  /** After removing a status listener registered once, no trace of
      notifications reaches it. */
  lemma RemovedStatusListenerHearsNothing(
    c: Client, l: ListenerId, events: seq<Event>, messageThrows: set<ListenerId>, statusThrows: set<ListenerId>)
    requires multiset(c.statusListeners)[l] == 1 && l !in c.messageListeners
    ensures SeenBy(Deliveries(RemoveStatusListener(c, l), events, messageThrows, statusThrows), l) == []
  {
    var c' := RemoveStatusListener(c, l);
    SeenByDeliveries(c', events, messageThrows, statusThrows, l);
    HeardByNobody(events);
  }

  /** A newly added message listener receives every later message and no
      status change; a newly added status listener the reverse. */
  lemma AddedListenersHearTheirEvents(
    c: Client, l: ListenerId, events: seq<Event>, messageThrows: set<ListenerId>, statusThrows: set<ListenerId>)
    requires l !in c.messageListeners && l !in c.statusListeners
    ensures SeenBy(Deliveries(AddMessageListener(c, l), events, messageThrows, statusThrows), l) == Messages(events)
    ensures SeenBy(Deliveries(AddStatusListener(c, l), events, messageThrows, statusThrows), l) == StatusChanges(events)
  {
    MessageListenerHearsMessages(AddMessageListener(c, l), events, messageThrows, statusThrows, l);
    StatusListenerHearsStatusChanges(AddStatusListener(c, l), events, messageThrows, statusThrows, l);
  }
}
