/** `WebSocketService` of `ratings-history-react/src/services/socket.ts`: the
    browser's connection to the hub. Subscriptions made while the socket is
    not OPEN are queued; when it opens, the queue is flushed and every
    subscribed event is subscribed again; incoming messages go to the
    event's listeners in registration order; an abnormal close schedules a
    reconnect.

    The socket's `readyState` is a field the handlers update; the frames
    `ws.send` puts on the wire, the listener calls, the events dispatched to
    the application's emitter, the codes passed to `ws.close` and the
    reconnects scheduled are logs. The 3-second reconnect timer is only
    counted: when it fires, it calls `Connect`. */
module ClientSocket {
  import opened Wrappers
  import Hub
  import opened Callbacks

  const SubscribeAction := "subscribe"
  const UnsubscribeAction := "unsubscribe"
  const SocketOpen := "SOCKET_OPEN"
  /** The normal-closure status code of section 7.4.1 of RFC 6455. */
  const NormalClosure := 1000

  /** `{ action, data }`, as sent (JSON-encoded) to the hub. */
  datatype Outgoing = Outgoing(action: string, data: string)

  /** A message received from the hub, once parsed. */
  datatype Incoming = Incoming(event: string, data: Hub.Data)

  datatype ReadyState = Connecting | Open | Closing | Closed

  /** What the hub makes of a message from this client: the JSON object
      `{ action, data }` with both fields strings. */
  function Command(m: Outgoing): (c: Hub.Command)
    ensures c.Subscribe? <==> m.action == SubscribeAction && m.data != ""
    ensures c.Unsubscribe? <==> m.action == UnsubscribeAction && m.data != ""
    ensures c.Subscribe? || c.Unsubscribe? ==> c.channel == m.data
  {
    Hub.Decode(Hub.JsonObject(Some(m.action), Some(m.data)))
  }

  /** The channel set a hub connection holds after handling `msgs` in
      order, starting from `chs`. */
  function Effect(chs: set<string>, msgs: seq<Outgoing>): (r: set<string>)
    ensures forall e :: e in r ==> e in chs || e != ""
    decreases |msgs|
  {
    if msgs == [] then chs
    else
      var before := Effect(chs, msgs[..|msgs| - 1]);
      match Command(msgs[|msgs| - 1])
      case Subscribe(ch) => before + {ch}
      case Unsubscribe(ch) => before - {ch}
      case _ => before
  }

  /** The subscribe messages of the re-subscription on open, one per event
      in the set's order. */
  function Resubscribes(events: seq<string>): (r: seq<Outgoing>)
    ensures |r| == |events|
    ensures forall i :: 0 <= i < |events| ==> r[i] == Outgoing(SubscribeAction, events[i])
    decreases |events|
  {
    if events == [] then []
    else Resubscribes(events[..|events| - 1]) + [Outgoing(SubscribeAction, events[|events| - 1])]
  }

  /** The listeners of an event; an event never subscribed to has none. */
  function ListenersOf(listeners: map<string, seq<Callback>>, event: string): seq<Callback> {
    if event in listeners then listeners[event] else []
  }

  /** Handling one batch of messages and then another is handling both in
      order. */
  lemma {:induction false} EffectAppend(chs: set<string>, a: seq<Outgoing>, b: seq<Outgoing>)
    ensures Effect(chs, a + b) == Effect(Effect(chs, a), b)
    decreases |b|
  {
    if b != [] {
      assert (a + b)[..|a + b| - 1] == a + b[..|b| - 1];
      assert (a + b)[|a + b| - 1] == b[|b| - 1];
      EffectAppend(chs, a, b[..|b| - 1]);
    } else {
      assert a + b == a;
    }
  }

  /** The re-subscription adds every non-empty subscribed event and
      nothing else. */
  lemma {:induction false} ResubscribeEffect(chs: set<string>, events: seq<string>)
    ensures Effect(chs, Resubscribes(events)) == chs + (set e | e in events && e != "")
    decreases |events|
  {
    if events != [] {
      var init := events[..|events| - 1];
      ResubscribeEffect(chs, init);
      assert Resubscribes(events)[..|events| - 1] == Resubscribes(init);
      assert (set e | e in events && e != "") ==
        (set e | e in init && e != "") + (if events[|events| - 1] != "" then {events[|events| - 1]} else {});
    }
  }

  /** The queue never subscribes the hub to an event the client no longer
      wants: an event the queued messages leave subscribed is in the set. */
  ghost predicate QueueCoherent(queue: seq<Outgoing>, events: seq<string>) {
    forall e :: e in Effect({}, queue) ==> e in events
  }

  /** After a (re)connection opens, the hub's channel set for it, which
      starts empty, is exactly the client's non-empty subscribed events: the
      flushed queue cannot leave an extra one, and the re-subscription adds
      them all. */
  lemma ReopenRestores(queue: seq<Outgoing>, events: seq<string>)
    requires QueueCoherent(queue, events)
    ensures Effect({}, queue + Resubscribes(events)) == set e | e in events && e != ""
  {
    EffectAppend({}, queue, Resubscribes(events));
    ResubscribeEffect(Effect({}, queue), events);
  }

  /** While the socket is OPEN, a subscribe or unsubscribe message keeps
      the hub's channel set equal to the client's non-empty subscribed
      events. */
  lemma OpenStaysInSync(events: seq<string>, event: string)
    ensures Effect(set e | e in events && e != "", [Outgoing(SubscribeAction, event)]) ==
      set e | e in Hub.Added(events, event) && e != ""
    ensures Effect(set e | e in events && e != "", [Outgoing(UnsubscribeAction, event)]) ==
      set e | e in Hub.Deleted(events, event) && e != ""
  {
    assert [Outgoing(SubscribeAction, event)][..0] == [];
    assert [Outgoing(UnsubscribeAction, event)][..0] == [];
  }

  class WebSocketService {
    const url: string
    /** `ws`: no socket yet, or the current socket's `readyState`. */
    var ws: Option<ReadyState>
    var listeners: map<string, seq<Callback>>
    var messageQueue: seq<Outgoing>
    /** `subscribedEvents`, in insertion order. */
    var subscribedEvents: seq<string>
    /** Every message `ws.send` put on the wire, in order. */
    var wire: seq<Outgoing>
    /** Every listener call, in order. */
    var calls: seq<Invocation>
    /** The events dispatched to the application's emitter. */
    var signals: seq<string>
    /** The codes passed to `ws.close`. */
    var closeCodes: seq<int>
    /** The reconnects scheduled. */
    var reconnects: nat

    ghost predicate Valid()
      reads this
    {
      Hub.Distinct(subscribedEvents) &&
      (ws == Some(Open) ==> messageQueue == []) &&
      QueueCoherent(messageQueue, subscribedEvents)
    }

    constructor(u: string)
      ensures url == u && ws == None && listeners == map[] && messageQueue == [] && subscribedEvents == []
      ensures wire == [] && calls == [] && signals == [] && closeCodes == [] && reconnects == 0
      ensures Valid()
    {
      url := u;
      ws := None;
      listeners := map[];
      messageQueue := [];
      subscribedEvents := [];
      wire := [];
      calls := [];
      signals := [];
      closeCodes := [];
      reconnects := 0;
    }

    /** `connect`: a new socket, CONNECTING. */
    method Connect()
      modifies this
      ensures ws == Some(Connecting)
      ensures listeners == old(listeners) && messageQueue == old(messageQueue)
      ensures subscribedEvents == old(subscribedEvents) && wire == old(wire) && calls == old(calls)
      ensures signals == old(signals) && closeCodes == old(closeCodes) && reconnects == old(reconnects)
      ensures old(Valid()) ==> Valid()
    {
      ws := Some(Connecting);
    }

    /** The `onopen` handler: SOCKET_OPEN is dispatched, the queued messages
        are sent in queue order and the queue emptied, and then a subscribe
        is sent for every subscribed event. */
    method OnOpen()
      modifies this
      ensures ws == Some(Open) && messageQueue == []
      ensures wire == old(wire) + old(messageQueue) + Resubscribes(subscribedEvents)
      ensures signals == old(signals) + [SocketOpen]
      ensures listeners == old(listeners) && subscribedEvents == old(subscribedEvents) && calls == old(calls)
      ensures closeCodes == old(closeCodes) && reconnects == old(reconnects)
      ensures old(Valid()) ==> Valid()
    {
      ws := Some(Open);
      signals := signals + [SocketOpen];
      var queue := messageQueue;
      var i := 0;
      while i < |queue|
        invariant i <= |queue|
        invariant wire == old(wire) + queue[..i]
        invariant ws == Some(Open) && messageQueue == old(messageQueue) && signals == old(signals) + [SocketOpen]
        invariant listeners == old(listeners) && subscribedEvents == old(subscribedEvents) && calls == old(calls)
        invariant closeCodes == old(closeCodes) && reconnects == old(reconnects)
      {
        assert queue[..i + 1] == queue[..i] + [queue[i]];
        wire := wire + [queue[i]];
        i := i + 1;
      }
      assert queue[..i] == queue;
      messageQueue := [];
      var events := subscribedEvents;
      var flushed := wire;
      var j := 0;
      while j < |events|
        invariant j <= |events|
        invariant wire == flushed + Resubscribes(events[..j])
        invariant ws == Some(Open) && messageQueue == [] && signals == old(signals) + [SocketOpen]
        invariant listeners == old(listeners) && subscribedEvents == old(subscribedEvents) && calls == old(calls)
        invariant closeCodes == old(closeCodes) && reconnects == old(reconnects)
      {
        assert events[..j + 1][..j] == events[..j];
        wire := wire + [Outgoing(SubscribeAction, events[j])];
        j := j + 1;
      }
      assert events[..j] == events;
    }

    /** The `onmessage` handler: every listener of the message's event, in
        registration order, with its data; nothing for an event without
        listeners. */
    method OnMessage(m: Incoming)
      modifies this
      ensures calls == old(calls) + CallAll(ListenersOf(listeners, m.event), m.data)
      ensures ws == old(ws) && listeners == old(listeners) && messageQueue == old(messageQueue)
      ensures subscribedEvents == old(subscribedEvents) && wire == old(wire) && signals == old(signals)
      ensures closeCodes == old(closeCodes) && reconnects == old(reconnects)
    {
      if m.event !in listeners {
        return;
      }
      var callbacks := listeners[m.event];
      var i := 0;
      while i < |callbacks|
        invariant i <= |callbacks|
        invariant calls == old(calls) + CallAll(callbacks[..i], m.data)
        invariant ws == old(ws) && listeners == old(listeners) && messageQueue == old(messageQueue)
        invariant subscribedEvents == old(subscribedEvents) && wire == old(wire) && signals == old(signals)
        invariant closeCodes == old(closeCodes) && reconnects == old(reconnects)
      {
        assert callbacks[..i + 1][..i] == callbacks[..i];
        calls := calls + [Invocation(callbacks[i], m.data)];
        i := i + 1;
      }
      assert callbacks[..i] == callbacks;
    }

    /** The `onclose` handler: a reconnect is scheduled for every code but
        the normal closure. */
    method OnClose(code: int)
      modifies this
      ensures ws == Some(Closed)
      ensures reconnects == old(reconnects) + (if code != NormalClosure then 1 else 0)
      ensures listeners == old(listeners) && messageQueue == old(messageQueue)
      ensures subscribedEvents == old(subscribedEvents) && wire == old(wire) && calls == old(calls)
      ensures signals == old(signals) && closeCodes == old(closeCodes)
      ensures old(Valid()) ==> Valid()
    {
      ws := Some(Closed);
      if code != NormalClosure {
        reconnects := reconnects + 1;
      }
    }

    /** `disconnect`: the current socket, if any, is closed with the
        normal-closure code; a socket not yet closing starts closing. */
    method Disconnect()
      modifies this
      ensures closeCodes == old(closeCodes) + (if old(ws).Some? then [NormalClosure] else [])
      ensures ws == match old(ws)
        case Some(Connecting) => Some(Closing)
        case Some(Open) => Some(Closing)
        case other => other
      ensures listeners == old(listeners) && messageQueue == old(messageQueue)
      ensures subscribedEvents == old(subscribedEvents) && wire == old(wire) && calls == old(calls)
      ensures signals == old(signals) && reconnects == old(reconnects)
      ensures old(Valid()) ==> Valid()
    {
      if ws.Some? {
        closeCodes := closeCodes + [NormalClosure];
        if ws.value == Connecting || ws.value == Open {
          ws := Some(Closing);
        }
      }
    }

    /** `subscribe`: the event joins the set, the callback is appended to
        its listeners, and the subscribe message is sent when the socket is
        OPEN and queued otherwise. */
    method Subscribe(event: string, cb: Callback)
      modifies this
      ensures listeners == old(listeners)[event := ListenersOf(old(listeners), event) + [cb]]
      ensures subscribedEvents == Hub.Added(old(subscribedEvents), event)
      ensures old(ws) == Some(Open) ==>
        wire == old(wire) + [Outgoing(SubscribeAction, event)] && messageQueue == old(messageQueue)
      ensures old(ws) != Some(Open) ==>
        messageQueue == old(messageQueue) + [Outgoing(SubscribeAction, event)] && wire == old(wire)
      ensures ws == old(ws) && calls == old(calls) && signals == old(signals)
      ensures closeCodes == old(closeCodes) && reconnects == old(reconnects)
      ensures old(Valid()) ==> Valid()
    {
      if event !in listeners {
        listeners := listeners[event := []];
      }
      ghost var queue := messageQueue;
      subscribedEvents := Hub.Added(subscribedEvents, event);
      listeners := listeners[event := listeners[event] + [cb]];
      var message := Outgoing(SubscribeAction, event);
      if ws == Some(Open) {
        wire := wire + [message];
      } else {
        messageQueue := messageQueue + [message];
        assert messageQueue[..|messageQueue| - 1] == queue;
      }
    }

    /** `unsubscribe`: the unsubscribe message is sent when the socket is
        OPEN and queued otherwise, and the event leaves the set; its
        listeners stay registered, so messages for it still reach them. */
    method Unsubscribe(event: string)
      modifies this
      ensures subscribedEvents == Hub.Deleted(old(subscribedEvents), event)
      ensures listeners == old(listeners)
      ensures old(ws) == Some(Open) ==>
        wire == old(wire) + [Outgoing(UnsubscribeAction, event)] && messageQueue == old(messageQueue)
      ensures old(ws) != Some(Open) ==>
        messageQueue == old(messageQueue) + [Outgoing(UnsubscribeAction, event)] && wire == old(wire)
      ensures ws == old(ws) && calls == old(calls) && signals == old(signals)
      ensures closeCodes == old(closeCodes) && reconnects == old(reconnects)
      ensures old(Valid()) ==> Valid()
    {
      ghost var queue := messageQueue;
      var message := Outgoing(UnsubscribeAction, event);
      if ws == Some(Open) {
        wire := wire + [message];
      } else {
        messageQueue := messageQueue + [message];
        assert messageQueue[..|messageQueue| - 1] == queue;
      }
      subscribedEvents := Hub.Deleted(subscribedEvents, event);
    }
  }
}
