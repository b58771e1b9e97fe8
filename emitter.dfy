/** `EventEmitter` of `admin-panel/src/services/emitter.ts`: the in-browser
    publish/subscribe of the admin panel, one callback list per event. */
module Emitter {
  import Hub
  import opened Callbacks

  const FilesUpdate := "FILES_UPDATE"
  const FileDelete := "FILE_DELETE"
  const FileEdit := "FILE_EDIT"
  const SocketOpen := "SOCKET_OPEN"

  /** The callbacks of an event; an event never subscribed to has none. */
  function Registered(events: map<string, seq<Callback>>, event: string): seq<Callback> {
    if event in events then events[event] else []
  }

  /** What `dispatch(event, data)` calls. */
  function DispatchCalls(events: map<string, seq<Callback>>, event: string, data: Hub.Data): (r: seq<Invocation>)
    ensures event !in events ==> r == []
    ensures |r| == |Registered(events, event)|
    ensures forall i :: 0 <= i < |r| ==> r[i] == Invocation(Registered(events, event)[i], data)
  {
    CallAll(Registered(events, event), data)
  }

  /** The lists after `subscribe(event, callback)`. */
  function SubscribeStep(events: map<string, seq<Callback>>, event: string, cb: Callback)
    : (r: map<string, seq<Callback>>)
    ensures r.Keys == events.Keys + {event}
    ensures r[event] == Registered(events, event) + [cb]
    ensures forall e :: e in events && e != event ==> r[e] == events[e]
  {
    events[event := Registered(events, event) + [cb]]
  }

  /** The lists after `unsubscribe(event, callback)`. */
  function UnsubscribeStep(events: map<string, seq<Callback>>, event: string, cb: Callback)
    : (r: map<string, seq<Callback>>)
    ensures event !in events ==> r == events
    ensures r.Keys == events.Keys
    ensures event in events ==> forall x :: x in r[event] <==> x in events[event] && x != cb
    ensures forall e :: e in events && e != event ==> r[e] == events[e]
  {
    if event in events then events[event := Without(events[event], cb)] else events
  }

  /** A callback subscribed twice runs twice: the two subscriptions add two
      calls, after the earlier ones. */
  lemma SubscribeTwiceRunsTwice(events: map<string, seq<Callback>>, event: string, cb: Callback, data: Hub.Data)
    ensures DispatchCalls(SubscribeStep(SubscribeStep(events, event, cb), event, cb), event, data) ==
      DispatchCalls(events, event, data) + [Invocation(cb, data), Invocation(cb, data)]
  {
    var twice := SubscribeStep(SubscribeStep(events, event, cb), event, cb);
    assert Registered(twice, event) == Registered(events, event) + [cb, cb];
  }

  /** After `unsubscribe(event, callback)` a dispatch of the event never
      calls that callback, and calls the others exactly as the filtered list
      orders them; a callback subscribed and then unsubscribed leaves the
      event's calls as if it had never been subscribed, when it was not
      subscribed before. */
  lemma UnsubscribeRemovesEvery(events: map<string, seq<Callback>>, event: string, cb: Callback, data: Hub.Data)
    ensures forall c :: c in DispatchCalls(UnsubscribeStep(events, event, cb), event, data) ==> c.callback != cb
    ensures cb !in Registered(events, event) ==>
      DispatchCalls(UnsubscribeStep(SubscribeStep(events, event, cb), event, cb), event, data) ==
      DispatchCalls(events, event, data)
  {
    var calls := DispatchCalls(UnsubscribeStep(events, event, cb), event, data);
    forall c | c in calls ensures c.callback != cb {
      var i :| 0 <= i < |calls| && calls[i] == c;
      assert Registered(UnsubscribeStep(events, event, cb), event)[i] in Registered(UnsubscribeStep(events, event, cb), event);
    }
    if cb !in Registered(events, event) {
      var list := Registered(events, event);
      WithoutAppend(list, [cb], cb);
      assert Without([cb], cb) == [];
      WithoutAbsent(list, cb);
    }
  }

  /** The lists of different events are independent: subscribing or
      unsubscribing for one event changes no dispatch of another. */
  lemma EventsIndependent(events: map<string, seq<Callback>>, event: string, other: string, cb: Callback,
                          data: Hub.Data)
    requires other != event
    ensures DispatchCalls(SubscribeStep(events, event, cb), other, data) == DispatchCalls(events, other, data)
    ensures DispatchCalls(UnsubscribeStep(events, event, cb), other, data) == DispatchCalls(events, other, data)
  {
    assert Registered(SubscribeStep(events, event, cb), other) == Registered(events, other);
    assert Registered(UnsubscribeStep(events, event, cb), other) == Registered(events, other);
  }

  class EventEmitter {
    var events: map<string, seq<Callback>>
    /** Every callback call, in order. */
    var calls: seq<Invocation>

    constructor()
      ensures events == map[] && calls == []
    {
      events := map[];
      calls := [];
    }

    /** `dispatch`: nothing for an event without a list; otherwise each of
        its callbacks once, in subscription order, with the data. */
    method Dispatch(event: string, data: Hub.Data)
      modifies this
      ensures calls == old(calls) + DispatchCalls(events, event, data)
      ensures events == old(events)
    {
      if event !in events {
        return;
      }
      var callbacks := events[event];
      var i := 0;
      while i < |callbacks|
        invariant i <= |callbacks|
        invariant events == old(events)
        invariant calls == old(calls) + CallAll(callbacks[..i], data)
      {
        assert callbacks[..i + 1][..i] == callbacks[..i];
        calls := calls + [Invocation(callbacks[i], data)];
        i := i + 1;
      }
      assert callbacks[..i] == callbacks;
    }

    /** `subscribe`: appended to the event's list, created when missing. */
    method Subscribe(event: string, cb: Callback)
      modifies this
      ensures events == SubscribeStep(old(events), event, cb)
      ensures calls == old(calls)
    {
      if event !in events {
        events := events[event := []];
      }
      events := events[event := events[event] + [cb]];
    }

    /** `unsubscribe`: the event's list is replaced by its filter; nothing
        for an event without a list. */
    method Unsubscribe(event: string, cb: Callback)
      modifies this
      ensures events == UnsubscribeStep(old(events), event, cb)
      ensures calls == old(calls)
    {
      if event !in events {
        return;
      }
      events := events[event := Without(events[event], cb)];
    }
  }
}
