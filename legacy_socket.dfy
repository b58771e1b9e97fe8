/** `Socket` of `ratings-history-express/src/services/socket.ts`: the hub of
    the older back end. Its subscription snapshots go out by `broadcast`, a
    closing connection is only deleted, and an upgrade is accepted with no
    credential check (there is no handshake step: every upgrade becomes a
    `Connect`).

    The snapshots (the downloader's agencies, the uploader's messages, the
    monitor's sample) are given as parameters. */
module LegacySocket {
  import opened Wrappers
  import opened Status
  import opened Hub

  /** What the handler throws when the received message parses to null. */
  const NullMessageError := "TypeError: cannot destructure a null message"

  /** The sender's channel set after a received command; the other
      connections' sets are unchanged. */
  function ChannelsStep(subs: map<Conn, seq<string>>, ws: Conn, c: Command): (r: map<Conn, seq<string>>)
    ensures r.Keys == subs.Keys
    ensures forall o :: o in subs && o != ws ==> r[o] == subs[o]
    ensures ws in subs && c.Subscribe? ==> forall e :: e in r[ws] <==> e in subs[ws] || e == c.channel
    ensures ws in subs && c.Unsubscribe? ==> forall e :: e in r[ws] <==> e in subs[ws] && e != c.channel
    ensures !(c.Subscribe? || c.Unsubscribe?) ==> r == subs
  {
    if ws !in subs then subs
    else match c
      case Subscribe(ch) => subs[ws := Added(subs[ws], ch)]
      case Unsubscribe(ch) => subs[ws := Deleted(subs[ws], ch)]
      case _ => subs
  }

  /** The snapshots a subscription broadcasts, with the sender's new
      channel already in its set: the agencies and then the monitor's
      sample for AGENCIES_UPDATE, the upload log for UPLOAD_UPDATE. */
  function SubscribeFrames(order: seq<Conn>, subs: map<Conn, seq<string>>, open: set<Conn>, ch: string,
                           agencies: map<string, seq<Message>>, uploads: seq<Message>, sample: nat): (fs: seq<Frame>)
    ensures ch != AgenciesUpdate && ch != UploadUpdate ==> fs == []
  {
    (if ch == AgenciesUpdate then BroadcastFrames(order, subs, open, AgenciesUpdate, Agencies(agencies)) else [])
      + (if ch == UploadUpdate then BroadcastFrames(order, subs, open, UploadUpdate, Messages(uploads)) else [])
      + (if ch == AgenciesUpdate then BroadcastFrames(order, subs, open, SystemInfo, Sample(sample)) else [])
  }

  /** A subscription to AGENCIES_UPDATE or UPLOAD_UPDATE sends its snapshot
      to every OPEN subscriber of that channel, the new one included, and
      to no one else; the sample that follows an AGENCIES_UPDATE
      subscription goes to the SYSTEM_INFO subscribers only. */
  lemma SnapshotsReachAllSubscribers(order: seq<Conn>, subs: map<Conn, seq<string>>, open: set<Conn>, ws: Conn,
                                     ch: string, agencies: map<string, seq<Message>>, uploads: seq<Message>, sample: nat)
    requires Distinct(order) && ws in order && ws in subs
    requires ch == AgenciesUpdate || ch == UploadUpdate
    ensures var after := ChannelsStep(subs, ws, Subscribe(ch));
      var fs := SubscribeFrames(order, after, open, ch, agencies, uploads, sample);
      var snapshot := if ch == AgenciesUpdate then Agencies(agencies) else Messages(uploads);
      (ws in open ==> Frame(ws, ch, snapshot) in fs) &&
      (forall c :: c in order && Listens(c, subs, open, ch) ==> Frame(c, ch, snapshot) in fs) &&
      (forall f :: f in fs && f.event == ch ==> Listens(f.to, after, open, ch) && f.data == snapshot) &&
      (forall f :: f in fs && f.event != ch ==>
         ch == AgenciesUpdate && f.event == SystemInfo && Listens(f.to, after, open, SystemInfo))
  {
    var after := ChannelsStep(subs, ws, Subscribe(ch));
    BroadcastReaches(order, after, open, AgenciesUpdate, Agencies(agencies));
    BroadcastReaches(order, after, open, UploadUpdate, Messages(uploads));
    BroadcastReaches(order, after, open, SystemInfo, Sample(sample));
    assert forall c :: c in order && Listens(c, subs, open, ch) ==> Listens(c, after, open, ch);
  }

  class Socket {
    /** The keys of `clients`, in insertion order. */
    var order: seq<Conn>
    var subs: map<Conn, seq<string>>
    /** The connections whose `readyState` is OPEN. */
    var open: set<Conn>
    /** Every frame sent, in order. */
    var sent: seq<Frame>

    ghost predicate Valid()
      reads this
    {
      Registered(order, subs)
    }

    constructor()
      ensures order == [] && subs == map[] && open == {} && sent == []
      ensures Valid()
    {
      order := [];
      subs := map[];
      open := {};
      sent := [];
    }

    /** The "connection" event, which every upgrade leads to: the new
        connection is OPEN and registered with an empty channel set. */
    method Connect(ws: Conn)
      modifies this
      ensures subs == old(subs)[ws := []] && order == Added(old(order), ws) && open == old(open) + {ws}
      ensures sent == old(sent)
      ensures old(Valid()) ==> Valid()
    {
      order := Added(order, ws);
      subs := subs[ws := []];
      open := open + {ws};
    }

    /** The connection leaves the OPEN state (it is closing). */
    method Leave(ws: Conn)
      modifies this
      ensures open == old(open) - {ws}
      ensures order == old(order) && subs == old(subs) && sent == old(sent)
    {
      open := open - {ws};
    }

    /** `send` */
    method Send(ws: Conn, event: string, data: Data)
      modifies this
      ensures sent == old(sent) + SendFrames(ws, open, event, data)
      ensures order == old(order) && subs == old(subs) && open == old(open)
    {
      if event == "" || !Truthy(data) {
        return;
      }
      if ws in open {
        sent := sent + [Frame(ws, event, data)];
      }
    }

    /** `broadcast` */
    method Broadcast(event: string, data: Data)
      modifies this
      ensures sent == old(sent) + BroadcastFrames(order, subs, open, event, data)
      ensures order == old(order) && subs == old(subs) && open == old(open)
    {
      if event == "" || !Truthy(data) {
        return;
      }
      var i := 0;
      while i < |order|
        invariant i <= |order|
        invariant order == old(order) && subs == old(subs) && open == old(open)
        invariant sent == old(sent) + Fanout(order[..i], subs, open, event, data)
      {
        assert order[..i + 1][..i] == order[..i];
        var c := order[i];
        if c in subs && event in subs[c] && c in open {
          sent := sent + [Frame(c, event, data)];
        }
        i := i + 1;
      }
      assert order[..i] == order;
    }

    /** The snapshots broadcast after a subscription. */
    method BroadcastSnapshots(ch: string, agencies: map<string, seq<Message>>, uploads: seq<Message>, sample: nat)
      modifies this
      ensures sent == old(sent) + SubscribeFrames(order, subs, open, ch, agencies, uploads, sample)
      ensures order == old(order) && subs == old(subs) && open == old(open)
    {
      if ch == AgenciesUpdate {
        Broadcast(AgenciesUpdate, Agencies(agencies));
      }
      if ch == UploadUpdate {
        Broadcast(UploadUpdate, Messages(uploads));
      }
      if ch == AgenciesUpdate {
        Broadcast(SystemInfo, Sample(sample));
      }
    }

    /** The "message" handler. */
    method OnMessage(ws: Conn, m: Received, agencies: map<string, seq<Message>>, uploads: seq<Message>, sample: nat)
      returns (r: Outcome<string>)
      modifies this
      ensures r == if Decode(m) == Throws then Fail(NullMessageError) else Pass
      ensures subs == ChannelsStep(old(subs), ws, Decode(m))
      ensures sent == old(sent) +
        if Decode(m).Subscribe? then SubscribeFrames(order, subs, open, Decode(m).channel, agencies, uploads, sample)
        else []
      ensures order == old(order) && open == old(open)
      ensures old(Valid()) ==> Valid()
    {
      var c := Decode(m);
      if c == Throws {
        return Fail(NullMessageError);
      }
      r := Pass;
      match c {
        case Subscribe(ch) =>
          if ws in subs {
            subs := subs[ws := Added(subs[ws], ch)];
          }
          BroadcastSnapshots(ch, agencies, uploads, sample);
        case Unsubscribe(ch) =>
          if ws in subs {
            subs := subs[ws := Deleted(subs[ws], ch)];
          }
        case _ =>
      }
    }

    /** The "close" event: the connection is no longer OPEN and its entry
        is deleted; nothing is sent. */
    method OnClose(ws: Conn)
      modifies this
      ensures open == old(open) - {ws} && sent == old(sent)
      ensures subs == old(subs) - {ws} && order == Deleted(old(order), ws)
      ensures old(Valid()) ==> Valid()
    {
      open := open - {ws};
      subs := subs - {ws};
      order := Deleted(order, ws);
    }
  }
}
