/** `Socket` of `backend-node/src/services/socket.ts`: the hub of the
    current back end. A subscriber gets its snapshots by `send`, a closing
    connection's channels are announced on "unsubscribe", and an upgrade
    needs an `authToken` cookie holding a valid token.

    The snapshots a subscription sends (the downloader's agencies, the
    uploader's messages, the monitor's sample) are given as parameters.
    Token verification is given as its outcome (`verify`). */
module BackendSocket {
  import opened Wrappers
  import opened Strings
  import opened Status
  import opened Hub

  /** What the handler throws when the received message parses to null. */
  const NullMessageError := "TypeError: cannot destructure a null message"
  const AuthCookie := "authToken"
  const Unauthorized := "HTTP/1.1 401 Unauthorized\r\n\r\n"
  const Forbidden := "HTTP/1.1 403 Forbidden\r\n\r\n"

  // ---------------------------------------------------------------------
  // Subscriptions

  /** A subscriber's channel set after a received command; only the
      sender's set changes, and only when it is still registered. */
  function ChannelsStep(subs: map<Conn, seq<string>>, ws: Conn, c: Command): (r: map<Conn, seq<string>>)
    ensures r.Keys == subs.Keys
    ensures forall o :: o in subs && o != ws ==> r[o] == subs[o]
    ensures ws in subs && c.Subscribe? ==> forall e :: e in r[ws] <==> e in subs[ws] || e == c.channel
    ensures ws in subs && c.Unsubscribe? ==> forall e :: e in r[ws] <==> e in subs[ws] && e != c.channel
    ensures !(c.Subscribe? || c.Unsubscribe?) ==> r == subs
  {
    if ws !in subs then subs
    else match c
      case Subscribe(ch) => subs[ws := Added(subs[ws], ch)]
      case Unsubscribe(ch) => subs[ws := Deleted(subs[ws], ch)]
      case _ => subs
  }

  /** The snapshots `send` gives a new subscriber: the agencies and then
      the monitor's sample for AGENCIES_UPDATE, the upload log for
      UPLOAD_UPDATE, and nothing for any other channel (SYSTEM_INFO
      included), and nothing at all when the subscriber is not OPEN. */
  function SubscribeFrames(ws: Conn, open: set<Conn>, ch: string, agencies: map<string, seq<Message>>,
                           uploads: seq<Message>, sample: nat): (fs: seq<Frame>)
    ensures ws !in open ==> fs == []
    ensures ws in open && ch == AgenciesUpdate ==>
      fs == [Frame(ws, AgenciesUpdate, Agencies(agencies)), Frame(ws, SystemInfo, Sample(sample))]
    ensures ws in open && ch == UploadUpdate ==> fs == [Frame(ws, UploadUpdate, Messages(uploads))]
    ensures ch != AgenciesUpdate && ch != UploadUpdate ==> fs == []
  {
    (if ch == AgenciesUpdate then SendFrames(ws, open, AgenciesUpdate, Agencies(agencies)) else [])
      + (if ch == UploadUpdate then SendFrames(ws, open, UploadUpdate, Messages(uploads)) else [])
      + (if ch == AgenciesUpdate then SendFrames(ws, open, SystemInfo, Sample(sample)) else [])
  }

  // ---------------------------------------------------------------------
  // cleanupSubscriptions

  /** One pass of the inner `forEach`: an "unsubscribe" broadcast for each
      channel, in order. */
  function Round(order: seq<Conn>, subs: map<Conn, seq<string>>, open: set<Conn>, chs: seq<string>): seq<Frame>
    decreases |chs|
  {
    if chs == [] then []
    else
      Round(order, subs, open, chs[..|chs| - 1])
        + BroadcastFrames(order, subs, open, UnsubscribeEvent, Text(chs[|chs| - 1]))
  }

  function Repeat(fs: seq<Frame>, k: nat): (r: seq<Frame>)
    ensures |r| == k * |fs|
    ensures forall f :: f in r ==> f in fs
  {
    if k == 0 then [] else Repeat(fs, k - 1) + fs
  }

  /** The outer loop runs the inner pass once per channel, so the pass is
      repeated as many times as the closing connection has channels. */
  function CleanupFrames(order: seq<Conn>, subs: map<Conn, seq<string>>, open: set<Conn>, ws: Conn): (fs: seq<Frame>)
    ensures ws !in subs ==> fs == []
    ensures ws in subs ==> |fs| == |subs[ws]| * |Round(order, subs, open, subs[ws])|
  {
    if ws in subs then Repeat(Round(order, subs, open, subs[ws]), |subs[ws]|) else []
  }

  /** Every frame of a pass is an "unsubscribe" event, naming one of the
      channels, to an OPEN connection subscribed to "unsubscribe". */
  lemma {:induction false} RoundFrames(order: seq<Conn>, subs: map<Conn, seq<string>>, open: set<Conn>, chs: seq<string>)
    requires Distinct(order)
    ensures forall f :: f in Round(order, subs, open, chs) ==>
      f.event == UnsubscribeEvent && Listens(f.to, subs, open, UnsubscribeEvent) &&
      f.data.Text? && f.data.text in chs
    decreases |chs|
  {
    if chs != [] {
      var init := chs[..|chs| - 1];
      var e := chs[|chs| - 1];
      RoundFrames(order, subs, open, init);
      BroadcastReaches(order, subs, open, UnsubscribeEvent, Text(e));
      assert forall x :: x in init ==> x in chs;
    }
  }

  /** A pass sends nothing when no OPEN connection listens on
      "unsubscribe". */
  lemma {:induction false} RoundSilent(order: seq<Conn>, subs: map<Conn, seq<string>>, open: set<Conn>, chs: seq<string>)
    requires Distinct(order)
    requires forall c :: c in order ==> !Listens(c, subs, open, UnsubscribeEvent)
    ensures Round(order, subs, open, chs) == []
    decreases |chs|
  {
    if chs != [] {
      RoundSilent(order, subs, open, chs[..|chs| - 1]);
      FanoutSilent(order, subs, open, UnsubscribeEvent, Text(chs[|chs| - 1]));
    }
  }

  /** Closing a connection with n channels sends n × n "unsubscribe"
      broadcasts, each naming one of its channels; the closed connection
      itself is no longer OPEN and receives none of them. */
  lemma CleanupAnnounces(order: seq<Conn>, subs: map<Conn, seq<string>>, open: set<Conn>, ws: Conn)
    requires Distinct(order) && ws in subs
    ensures forall f :: f in CleanupFrames(order, subs, open - {ws}, ws) ==>
      f.event == UnsubscribeEvent && f.to != ws && Listens(f.to, subs, open, UnsubscribeEvent) &&
      f.data.Text? && f.data.text in subs[ws]
    ensures (forall c :: c in order ==> !Listens(c, subs, open, UnsubscribeEvent)) ==>
      CleanupFrames(order, subs, open - {ws}, ws) == []
  {
    RoundFrames(order, subs, open - {ws}, subs[ws]);
    if forall c :: c in order ==> !Listens(c, subs, open, UnsubscribeEvent) {
      RoundSilent(order, subs, open - {ws}, subs[ws]);
    }
  }

  // ---------------------------------------------------------------------
  // getCookieValue and the upgrade

  /** What `getCookieValue` returns: null, or the second part of the
      matching cookie, which is undefined (`None`) when it has no "=". */
  datatype Lookup = NotFound | Found(value: Option<string>)

  /** A trimmed cookie's name and value, as `cookie.split("=")` gives them. */
  function NameOf(cookie: string): string {
    Split(Trim(cookie), "=")[0]
  }

  function ValueOf(cookie: string): Option<string> {
    var parts := Split(Trim(cookie), "=");
    if |parts| > 1 then Some(parts[1]) else None
  }

  /** The first cookie, from index i on, whose name is `name`. */
  function FirstMatch(cookies: seq<string>, name: string, i: nat): (r: Option<nat>)
    requires i <= |cookies|
    ensures r.Some? ==>
      i <= r.value < |cookies| && NameOf(cookies[r.value]) == name &&
      forall k :: i <= k < r.value ==> NameOf(cookies[k]) != name
    ensures r.None? ==> forall k :: i <= k < |cookies| ==> NameOf(cookies[k]) != name
    decreases |cookies| - i
  {
    if i == |cookies| then None
    else if NameOf(cookies[i]) == name then Some(i)
    else FirstMatch(cookies, name, i + 1)
  }

  function CookieValue(header: string, name: string): Lookup {
    var cookies := Split(header, ";");
    match FirstMatch(cookies, name, 0)
    case None => NotFound
    case Some(j) => Found(ValueOf(cookies[j]))
  }

  /** `getCookieValue`: the value of the first cookie of that name, or
      null when there is none. */
  method GetCookieValue(header: string, name: string) returns (v: Lookup)
    ensures v == CookieValue(header, name)
  {
    var cookies := Split(header, ";");
    var i := 0;
    while i < |cookies|
      invariant i <= |cookies|
      invariant FirstMatch(cookies, name, 0) == FirstMatch(cookies, name, i)
    {
      var parts := Split(Trim(cookies[i]), "=");
      assert parts[0] == NameOf(cookies[i]);
      if parts[0] == name {
        return Found(if |parts| > 1 then Some(parts[1]) else None);
      }
      i := i + 1;
    }
    return NotFound;
  }

  /** `jwt.verify`'s outcome for a token: valid, expired, or refused for
      any other reason. */
  datatype Verdict = Verified | Expired | Invalid

  /** What the upgrade handler writes to the raw socket, and whether it
      then hands the request to `handleUpgrade`. */
  datatype Handshake = Handshake(written: seq<string>, handedOver: bool)

  /** The token the handler goes on with: a truthy `authToken` value. */
  function Token(cookies: Option<string>): Option<string> {
    if cookies.None? || cookies.value == "" then None
    else match CookieValue(cookies.value, AuthCookie)
      case Found(Some(t)) => if t == "" then None else Some(t)
      case _ => None
  }

  function UpgradeStep(cookies: Option<string>, verify: string -> Verdict): Handshake {
    match Token(cookies)
    case None => Handshake([Unauthorized], false)
    case Some(t) =>
      match verify(t)
      case Expired => Handshake([Unauthorized], false)
      case Invalid => Handshake([Forbidden], true)
      case Verified => Handshake([], true)
  }

  /** Without a cookie header, without a truthy `authToken`, or with an
      expired token, the upgrade is refused with 401 and nothing is handed
      over; otherwise it is handed over. A token refused for another reason
      gets a 403 written and is nevertheless handed to `handleUpgrade`,
      since that branch does not return. */
  lemma UpgradeDecision(cookies: Option<string>, verify: string -> Verdict)
    ensures var h := UpgradeStep(cookies, verify);
      (h.handedOver <==> Token(cookies).Some? && verify(Token(cookies).value) != Expired) &&
      (!h.handedOver ==> h.written == [Unauthorized]) &&
      (Token(cookies).Some? && verify(Token(cookies).value) == Invalid ==> h == Handshake([Forbidden], true))
    ensures cookies.None? ==> UpgradeStep(cookies, verify) == Handshake([Unauthorized], false)
  {
  }

  class Socket {
    /** The keys of `clients`, in insertion order. */
    var order: seq<Conn>
    var subs: map<Conn, seq<string>>
    /** The connections whose `readyState` is OPEN. */
    var open: set<Conn>
    /** Every frame sent, in order. */
    var sent: seq<Frame>

    ghost predicate Valid()
      reads this
    {
      Registered(order, subs)
    }

    constructor()
      ensures order == [] && subs == map[] && open == {} && sent == []
      ensures Valid()
    {
      order := [];
      subs := map[];
      open := {};
      sent := [];
    }

    /** The "connection" event: the new connection is OPEN and registered
        with an empty channel set. */
    method Connect(ws: Conn)
      modifies this
      ensures subs == old(subs)[ws := []] && order == Added(old(order), ws) && open == old(open) + {ws}
      ensures sent == old(sent)
      ensures old(Valid()) ==> Valid()
    {
      order := Added(order, ws);
      subs := subs[ws := []];
      open := open + {ws};
    }

    /** The connection leaves the OPEN state (it is closing). */
    method Leave(ws: Conn)
      modifies this
      ensures open == old(open) - {ws}
      ensures order == old(order) && subs == old(subs) && sent == old(sent)
    {
      open := open - {ws};
    }

    /** `send` */
    method Send(ws: Conn, event: string, data: Data)
      modifies this
      ensures sent == old(sent) + SendFrames(ws, open, event, data)
      ensures order == old(order) && subs == old(subs) && open == old(open)
    {
      if event == "" || !Truthy(data) {
        return;
      }
      if ws in open {
        sent := sent + [Frame(ws, event, data)];
      }
    }

    /** `broadcast` */
    method Broadcast(event: string, data: Data)
      modifies this
      ensures sent == old(sent) + BroadcastFrames(order, subs, open, event, data)
      ensures order == old(order) && subs == old(subs) && open == old(open)
    {
      if event == "" || !Truthy(data) {
        return;
      }
      var i := 0;
      while i < |order|
        invariant i <= |order|
        invariant order == old(order) && subs == old(subs) && open == old(open)
        invariant sent == old(sent) + Fanout(order[..i], subs, open, event, data)
      {
        assert order[..i + 1][..i] == order[..i];
        var c := order[i];
        if c in subs && event in subs[c] && c in open {
          sent := sent + [Frame(c, event, data)];
        }
        i := i + 1;
      }
      assert order[..i] == order;
    }

    /** The "message" handler. */
    method OnMessage(ws: Conn, m: Received, agencies: map<string, seq<Message>>, uploads: seq<Message>, sample: nat)
      returns (r: Outcome<string>)
      modifies this
      ensures r == if Decode(m) == Throws then Fail(NullMessageError) else Pass
      ensures subs == ChannelsStep(old(subs), ws, Decode(m))
      ensures sent == old(sent) +
        if Decode(m).Subscribe? then SubscribeFrames(ws, open, Decode(m).channel, agencies, uploads, sample) else []
      ensures order == old(order) && open == old(open)
      ensures old(Valid()) ==> Valid()
    {
      var c := Decode(m);
      if c == Throws {
        return Fail(NullMessageError);
      }
      r := Pass;
      match c {
        case Subscribe(ch) =>
          if ws in subs {
            subs := subs[ws := Added(subs[ws], ch)];
          }
          SendSnapshots(ws, ch, agencies, uploads, sample);
        case Unsubscribe(ch) =>
          if ws in subs {
            subs := subs[ws := Deleted(subs[ws], ch)];
          }
        case _ =>
      }
    }

    /** The snapshots sent to a new subscriber. */
    method SendSnapshots(ws: Conn, ch: string, agencies: map<string, seq<Message>>, uploads: seq<Message>, sample: nat)
      modifies this
      ensures sent == old(sent) + SubscribeFrames(ws, open, ch, agencies, uploads, sample)
      ensures order == old(order) && subs == old(subs) && open == old(open)
    {
      if ch == AgenciesUpdate {
        Send(ws, AgenciesUpdate, Agencies(agencies));
      }
      if ch == UploadUpdate {
        Send(ws, UploadUpdate, Messages(uploads));
      }
      if ch == AgenciesUpdate {
        Send(ws, SystemInfo, Sample(sample));
      }
    }

    /** One pass of the inner `forEach` of `cleanupSubscriptions`. */
    method BroadcastRound(chs: seq<string>)
      modifies this
      ensures sent == old(sent) + Round(order, subs, open, chs)
      ensures order == old(order) && subs == old(subs) && open == old(open)
    {
      var i := 0;
      while i < |chs|
        invariant i <= |chs|
        invariant order == old(order) && subs == old(subs) && open == old(open)
        invariant sent == old(sent) + Round(order, subs, open, chs[..i])
      {
        assert chs[..i + 1][..i] == chs[..i];
        Broadcast(UnsubscribeEvent, Text(chs[i]));
        i := i + 1;
      }
      assert chs[..i] == chs;
    }

    /** `cleanupSubscriptions` */
    method Cleanup(ws: Conn)
      modifies this
      ensures sent == old(sent) + CleanupFrames(order, subs, open, ws)
      ensures order == old(order) && subs == old(subs) && open == old(open)
    {
      if ws !in subs {
        return;
      }
      var chs := subs[ws];
      var k := 0;
      while k < |chs|
        invariant k <= |chs|
        invariant order == old(order) && subs == old(subs) && open == old(open)
        invariant sent == old(sent) + Repeat(Round(order, subs, open, chs), k)
      {
        BroadcastRound(chs);
        k := k + 1;
      }
    }

    /** The "close" event: the connection is no longer OPEN, its channels
        are announced, and its entry is deleted. */
    method OnClose(ws: Conn)
      modifies this
      ensures open == old(open) - {ws}
      ensures sent == old(sent) + CleanupFrames(old(order), old(subs), old(open) - {ws}, ws)
      ensures subs == old(subs) - {ws} && order == Deleted(old(order), ws)
      ensures old(Valid()) ==> Valid()
    {
      open := open - {ws};
      Cleanup(ws);
      subs := subs - {ws};
      order := Deleted(order, ws);
    }

    /** The "upgrade" handler of `start`. */
    method Upgrade(cookies: Option<string>, verify: string -> Verdict) returns (h: Handshake)
      ensures h == UpgradeStep(cookies, verify)
    {
      var token: Option<string> := None;
      if cookies.Some? && cookies.value != "" {
        var found := GetCookieValue(cookies.value, AuthCookie);
        if found.Found? && found.value.Some? && found.value.value != "" {
          token := found.value;
        }
      }
      assert token == Token(cookies);
      if token.None? {
        return Handshake([Unauthorized], false);
      }
      var verdict := verify(token.value);
      if verdict == Expired {
        return Handshake([Unauthorized], false);
      }
      if verdict == Invalid {
        h := Handshake([Forbidden], true);
      } else {
        h := Handshake([], true);
      }
    }
  }
}
