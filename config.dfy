/** The front ends' configuration (`ratings-history-react/src/config.ts` and
    `admin-panel/src/config.ts`): the base URL from the build environment is
    checked and split at `://` into the API and WebSocket URLs. */
module Config {
  import opened Wrappers
  import opened Strings

  const Separator := "://"
  const UndefinedError := "Base URL is not defined"
  const FormatError := "Invalid Base URL. Format: http://example.com or https://example.com"

  /** The React client's `config`. */
  datatype ClientUrls = ClientUrls(baseUrl: string, apiUrl: string, wsUrl: string)

  /** The admin panel's `config`. */
  datatype AdminUrls = AdminUrls(apiUrl: string, wsUrl: string)

  /** The base URL's protocol and the segment after it: the first two
      pieces of `baseUrl.split("://")`, or the error thrown. */
  function Parts(baseUrl: Option<string>): (r: Result<(string, string), string>)
    ensures baseUrl.None? || baseUrl.value == "" ==> r == Failure(UndefinedError)
    ensures baseUrl.Some? && baseUrl.value != "" ==>
      (r.Failure? <==> !Contains(baseUrl.value, Separator)) && (r.Failure? ==> r.error == FormatError)
  {
    if baseUrl.None? || baseUrl.value == "" then Failure(UndefinedError)
    else
      var parts := Split(baseUrl.value, Separator);
      if |parts| < 2 then
        assert IndexOf(baseUrl.value, Separator).None?;
        Failure(FormatError)
      else
        Success((parts[0], parts[1]))
  }

  /** `${secure ? "wss" : "ws"}://${url}/ws` */
  function WsUrl(protocol: string, url: string): string {
    (if Lower(protocol) == "https" then "wss" else "ws") + Separator + url + "/ws"
  }

  function ClientConfig(baseUrl: Option<string>): Result<ClientUrls, string> {
    var (protocol, url) :- Parts(baseUrl);
    Success(ClientUrls(baseUrl.value, baseUrl.value + "/api/v1", WsUrl(protocol, url)))
  }

  function AdminConfig(baseUrl: Option<string>): Result<AdminUrls, string> {
    var (protocol, url) :- Parts(baseUrl);
    Success(AdminUrls(baseUrl.value, WsUrl(protocol, url)))
  }

  /** The segment after the protocol: up to the next `://`, or to the
      end. */
  function Host(rest: string): (h: string)
    ensures h <= rest && !Contains(h, Separator)
  {
    match IndexOf(rest, Separator)
    case None => rest
    case Some(j) =>
      FirstSeparator(rest, j);
      rest[..j]
  }

  /** The text before the first `://` holds none. */
  lemma FirstSeparator(s: string, j: nat)
    requires IndexOf(s, Separator) == Some(j)
    ensures j <= |s| && !Contains(s[..j], Separator)
  {
    if Contains(s[..j], Separator) {
      var k :| 0 <= k <= j && OccursAt(s[..j], Separator, k);
      OccursInPrefix(s, Separator, j, k);
    }
  }

  /** The split's first two pieces are the text before the first `://`
      and the segment after it. */
  lemma PartsAt(s: string, i: nat)
    requires IndexOf(s, Separator) == Some(i)
    ensures Parts(Some(s)) == Success((s[..i], Host(s[i + 3..])))
  {
    SplitAt(s, Separator, i);
    var rest := s[i + 3..];
    match IndexOf(rest, Separator)
    case None =>
    case Some(j) => SplitAt(rest, Separator, j);
  }

  /** The React client: an undefined or empty base URL and one without
      `://` throw; otherwise `apiUrl` is the base URL with `/api/v1`, and
      `wsUrl` is `wss` exactly when the protocol before the first `://`,
      lowercased, is "https" (`ws` otherwise), then `://`, the segment up
      to the next `://`, and `/ws`. */
  lemma ClientConfigMeaning(baseUrl: Option<string>)
    ensures baseUrl.None? || baseUrl.value == "" ==> ClientConfig(baseUrl) == Failure(UndefinedError)
    ensures baseUrl.Some? && baseUrl.value != "" && !Contains(baseUrl.value, Separator) ==>
      ClientConfig(baseUrl) == Failure(FormatError)
    ensures baseUrl.Some? && Contains(baseUrl.value, Separator) ==>
      var s := baseUrl.value;
      var i := IndexOf(s, Separator).value;
      var scheme := if Lower(s[..i]) == "https" then "wss" else "ws";
      ClientConfig(baseUrl) == Success(ClientUrls(s, s + "/api/v1", scheme + "://" + Host(s[i + 3..]) + "/ws"))
  {
    if baseUrl.Some? && Contains(baseUrl.value, Separator) {
      PartsAt(baseUrl.value, IndexOf(baseUrl.value, Separator).value);
    }
  }

  /** The admin panel: the same checks and `wsUrl`; its `apiUrl` is the
      base URL unchanged. */
  lemma AdminConfigMeaning(baseUrl: Option<string>)
    ensures baseUrl.None? || baseUrl.value == "" ==> AdminConfig(baseUrl) == Failure(UndefinedError)
    ensures baseUrl.Some? && baseUrl.value != "" && !Contains(baseUrl.value, Separator) ==>
      AdminConfig(baseUrl) == Failure(FormatError)
    ensures baseUrl.Some? && Contains(baseUrl.value, Separator) ==>
      var s := baseUrl.value;
      var i := IndexOf(s, Separator).value;
      var scheme := if Lower(s[..i]) == "https" then "wss" else "ws";
      AdminConfig(baseUrl) == Success(AdminUrls(s, scheme + "://" + Host(s[i + 3..]) + "/ws"))
  {
    if baseUrl.Some? && Contains(baseUrl.value, Separator) {
      PartsAt(baseUrl.value, IndexOf(baseUrl.value, Separator).value);
    }
  }
}
