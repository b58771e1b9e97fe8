/** The status messages the downloaders and the uploader emit, and the
    agency names both configurations list. */
module Status {
  /** The `type` of a message: `"message"`, `"error"` or `"exit"`. */
  datatype Kind = Info | Error | Exit

  /** `{message, type}` */
  datatype Message = Message(text: string, kind: Kind)

  /** The payload of an `AGENCIES_UPDATE` event: `{agencyName, message, type}`. */
  datatype Update = Update(agencyName: string, message: Message)

  /** The `type` string of a kind. */
  function KindName(k: Kind): (s: string)
    ensures s in ["message", "error", "exit"]
  {
    match k
    case Info => "message"
    case Error => "error"
    case Exit => "exit"
  }

  /** The agencies, in configuration order: `config.agenciesMap` of the
      backend and the keys of `agenciesFunctionsMap` of the older server. */
  const AgencyNames: seq<string> := [
    "fitch-ratings", "egan-jones", "demotech-ratings", "japan-credit-ratings",
    "kroll-bond-ratings", "morning-star", "moodys-ratings"
  ]

  /** The texts of the messages both downloaders and the uploader emit. */
  const AgencyNotFoundMessage := "Agency not found"
  const DownloadingZip := "Downloading ZIP (It could take a while, please be patient...)"
  const DownloadCompleted := "Downloading completed!"
  const ParsingData := "Parsing data and creating CSV files (It could take a while, please be patient...)"
  const ZipProcessed := "XBRL files successfully processed. Deleting ZIP..."
  const Completed := "Completed!"
  const Queued := "Queued..."
  const Cancelled := "Cancelled by user"

  /** `messages` tagged with the agency they are about. */
  function Tagged(agencyName: string, messages: seq<Message>): (us: seq<Update>)
    ensures |us| == |messages|
    ensures forall i :: 0 <= i < |messages| ==> us[i] == Update(agencyName, messages[i])
  {
    seq(|messages|, i requires 0 <= i < |messages| => Update(agencyName, messages[i]))
  }

  /** Every agency with an empty message list. */
  function Seeded(names: seq<string>): (m: map<string, seq<Message>>)
    ensures m.Keys == set n | n in names
    ensures forall n :: n in m ==> m[n] == []
  {
    map n | n in names :: []
  }

  /** One more message, emitted after `sent`: returns the messages sent
      so far. */
  lemma TaggedSnoc(agencyName: string, before: seq<Update>, sent: seq<Message>, m: Message)
    returns (sent': seq<Message>)
    ensures sent' == sent + [m]
    ensures before + Tagged(agencyName, sent) + [Update(agencyName, m)] == before + Tagged(agencyName, sent')
  {
    sent' := sent + [m];
    assert Tagged(agencyName, sent') == Tagged(agencyName, sent) + [Update(agencyName, m)];
  }

  /** Several more messages, emitted after `sent`. */
  lemma TaggedAppend(agencyName: string, before: seq<Update>, sent: seq<Message>, more: seq<Message>)
    returns (sent': seq<Message>)
    ensures sent' == sent + more
    ensures before + Tagged(agencyName, sent) + Tagged(agencyName, more) == before + Tagged(agencyName, sent')
  {
    sent' := sent + more;
    assert Tagged(agencyName, sent') == Tagged(agencyName, sent) + Tagged(agencyName, more);
  }

  /** Messages between a first and a last one, emitted after `before`. */
  lemma TaggedAround(agencyName: string, before: seq<Update>, first: Message, ms: seq<Message>, last: Message)
    ensures before + [Update(agencyName, first)] + Tagged(agencyName, ms) + [Update(agencyName, last)] ==
      before + Tagged(agencyName, [first] + ms + [last])
  {
    assert Tagged(agencyName, [first] + ms + [last]) ==
      [Update(agencyName, first)] + Tagged(agencyName, ms) + [Update(agencyName, last)];
  }
}
