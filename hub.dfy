/** What the two server `Socket` classes (`backend-node/src/services/socket.ts`
    and `ratings-history-express/src/services/socket.ts`) share: the events,
    the payloads and their truthiness, the messages a client sends, channel
    sets, and the frames a `broadcast` sends.

    A connection is an id; whether its `readyState` is OPEN is a set the
    environment keeps. A frame `client.send` puts on the wire is recorded
    with its recipient; the JSON text itself is not modelled. */
module Hub {
  import opened Wrappers
  import opened Status

  type Conn = nat

  const AgenciesUpdate := "AGENCIES_UPDATE"
  const UploadUpdate := "UPLOAD_UPDATE"
  const SystemInfo := "SYSTEM_INFO"
  const UnsubscribeEvent := "unsubscribe"

  /** The payloads the hubs send: the agencies map, the upload log, the
      monitor's current sample (an object, never null), a string, or a
      null/undefined value. */
  datatype Data =
    | Agencies(agencies: map<string, seq<Message>>)
    | Messages(messages: seq<Message>)
    | Sample(sample: nat)
    | Text(text: string)
    | Null

  /** JavaScript truthiness of a payload: objects and arrays are truthy even
      when empty, a string only when it is not empty. */
  predicate Truthy(d: Data) {
    match d
    case Null => false
    case Text(t) => t != ""
    case _ => true
  }

  /** What `send` and `broadcast` require before sending anything. */
  predicate Deliverable(event: string, data: Data) {
    event != "" && Truthy(data)
  }

  datatype Frame = Frame(to: Conn, event: string, data: Data)

  /** A message received from a client, as `parseMessage` and the
      destructuring after it see it: an empty buffer, text `JSON.parse`
      refuses, the JSON `null`, an object with (string or missing) `action`
      and `data` fields, or any other JSON value. */
  datatype Received =
    | Blank
    | Unparsable
    | JsonNull
    | JsonObject(action: Option<string>, data: Option<string>)
    | JsonOther

  datatype Command = Throws | Ignored | Subscribe(channel: string) | Unsubscribe(channel: string)

  /** Truthiness of a string field that may be missing. */
  predicate Present(f: Option<string>) {
    f.Some? && f.value != ""
  }

  /** What the message handler does with a received message: `parseMessage`
      gives null for an empty or unparsable message, and destructuring null
      throws; a message without a truthy `action` or `data`, or with an
      unknown action, changes nothing. */
  function Decode(m: Received): (c: Command)
    ensures c == Throws <==> m.Blank? || m.Unparsable? || m.JsonNull?
    ensures c.Subscribe? <==> m.JsonObject? && Present(m.data) && m.action == Some("subscribe")
    ensures c.Unsubscribe? <==> m.JsonObject? && Present(m.data) && m.action == Some("unsubscribe")
    ensures (c.Subscribe? || c.Unsubscribe?) ==> c.channel == m.data.value && c.channel != ""
  {
    match m
    case Blank => Throws
    case Unparsable => Throws
    case JsonNull => Throws
    case JsonOther => Ignored
    case JsonObject(action, data) =>
      if !Present(action) || !Present(data) then Ignored
      else if action.value == "subscribe" then Subscribe(data.value)
      else if action.value == "unsubscribe" then Unsubscribe(data.value)
      else Ignored
  }

  // ---------------------------------------------------------------------
  // Insertion-ordered sets (a JavaScript `Set`, and the keys of a `Map`)

  predicate Distinct<T(==)>(xs: seq<T>) {
    forall i, j :: 0 <= i < j < |xs| ==> xs[i] != xs[j]
  }

  /** `set.add(x)`: appended when absent, otherwise unchanged. */
  function Added<T(==,!new)>(xs: seq<T>, x: T): (r: seq<T>)
    ensures forall y :: y in r <==> y in xs || y == x
    ensures Distinct(xs) ==> Distinct(r)
    ensures x in xs ==> r == xs
  {
    if x in xs then xs else xs + [x]
  }

  /** `set.delete(x)`: the others keep their order. */
  function Deleted<T(==,!new)>(xs: seq<T>, x: T): (r: seq<T>)
    ensures forall y :: y in r <==> y in xs && y != x
    ensures Distinct(xs) ==> Distinct(r)
    ensures |r| <= |xs|
    ensures x !in xs ==> r == xs
  {
    if xs == [] then []
    else
      assert Distinct(xs) ==> Distinct(xs[1..]) && xs[0] !in xs[1..];
      (if xs[0] == x then [] else [xs[0]]) + Deleted(xs[1..], x)
  }

  // ---------------------------------------------------------------------
  // broadcast

  /** The connection is OPEN and subscribed to `event`. */
  predicate Listens(c: Conn, subs: map<Conn, seq<string>>, open: set<Conn>, event: string) {
    c in subs && event in subs[c] && c in open
  }

  /** The frames of the loop over the map's entries, in insertion order
      `order`: one for each OPEN connection subscribed to `event`. */
  function Fanout(order: seq<Conn>, subs: map<Conn, seq<string>>, open: set<Conn>, event: string, data: Data)
    : (fs: seq<Frame>)
    ensures |fs| <= |order|
    decreases |order|
  {
    if order == [] then []
    else
      var c := order[|order| - 1];
      Fanout(order[..|order| - 1], subs, open, event, data)
        + (if Listens(c, subs, open, event) then [Frame(c, event, data)] else [])
  }

  /** `broadcast`: nothing at all for a falsy event or payload. */
  function BroadcastFrames(order: seq<Conn>, subs: map<Conn, seq<string>>, open: set<Conn>, event: string, data: Data)
    : seq<Frame>
  {
    if Deliverable(event, data) then Fanout(order, subs, open, event, data) else []
  }

  /** A broadcast reaches exactly the OPEN connections subscribed to the
      event, each once, with the event and payload given. */
  lemma {:induction false} FanoutReaches(order: seq<Conn>, subs: map<Conn, seq<string>>, open: set<Conn>,
                                         event: string, data: Data)
    requires Distinct(order)
    ensures var fs := Fanout(order, subs, open, event, data);
      (forall f :: f in fs <==> f.to in order && Listens(f.to, subs, open, event) && f.event == event && f.data == data) &&
      forall i, j :: 0 <= i < j < |fs| ==> fs[i].to != fs[j].to
    decreases |order|
  {
    if order != [] {
      var init := order[..|order| - 1];
      var c := order[|order| - 1];
      assert Distinct(init);
      FanoutReaches(init, subs, open, event, data);
      assert forall x :: x in order <==> x in init || x == c;
      assert c !in init;
    }
  }

  /** With no OPEN connection subscribed to the event, nothing is sent. */
  lemma {:induction false} FanoutSilent(order: seq<Conn>, subs: map<Conn, seq<string>>, open: set<Conn>,
                                        event: string, data: Data)
    requires forall c :: c in order ==> !Listens(c, subs, open, event)
    ensures BroadcastFrames(order, subs, open, event, data) == []
    ensures Fanout(order, subs, open, event, data) == []
    decreases |order|
  {
    if order != [] {
      FanoutSilent(order[..|order| - 1], subs, open, event, data);
    }
  }

  /** So a broadcast sends nothing when the event or payload is falsy, and
      otherwise one frame per listening connection. */
  lemma BroadcastReaches(order: seq<Conn>, subs: map<Conn, seq<string>>, open: set<Conn>, event: string, data: Data)
    requires Distinct(order)
    ensures var fs := BroadcastFrames(order, subs, open, event, data);
      (!Deliverable(event, data) ==> fs == []) &&
      (Deliverable(event, data) ==>
         forall f :: f in fs <==> (f.to in order && Listens(f.to, subs, open, event) && f.event == event && f.data == data)) &&
      forall i, j :: 0 <= i < j < |fs| ==> fs[i].to != fs[j].to
  {
    FanoutReaches(order, subs, open, event, data);
  }

  /** `send(client, …)` */
  function SendFrames(c: Conn, open: set<Conn>, event: string, data: Data): (fs: seq<Frame>)
    ensures fs == [] || fs == [Frame(c, event, data)]
    ensures fs != [] <==> Deliverable(event, data) && c in open
  {
    if Deliverable(event, data) && c in open then [Frame(c, event, data)] else []
  }

  /** The hubs' state: the connections in the order they were registered,
      each one's channels, and which are OPEN. */
  ghost predicate Registered(order: seq<Conn>, subs: map<Conn, seq<string>>) {
    Distinct(order) && (forall c :: c in order <==> c in subs) &&
    forall c :: c in subs ==> Distinct(subs[c])
  }
}
