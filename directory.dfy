/**
 * The external identity directory check (`CheckStatus`).
 *
 * BuildRequest is the request the check sends: the filter on the phone
 * number and the signed headers. The HTTP exchange itself (URL parsing,
 * request construction, the five-second timeout, the transport, reading the
 * body and JSON decoding) is an `Exchange` value given from outside. Verdict
 * interprets it along the source's chain of early returns.
 */
module Directory {
  import opened Wrappers
  import Decimal

  /** The controller's configuration: application id, secret and directory endpoint. */
  datatype Config = Config(appId: string, appSecret: string, api: string)

  /** One directory record (the JSON object under `Resources`). */
  datatype DirectoryUser = DirectoryUser(realName: string, active: bool)

  /** The decoded response body. */
  datatype Content = Content(totalResults: int, resources: seq<DirectoryUser>)

  /** What `json.Unmarshal` leaves in a fresh `Content` when the body is not valid JSON. */
  const EmptyContent: Content := Content(0, [])

  /** A GET request: endpoint, the value of its `filter` query parameter, and its headers. */
  datatype Request = Request(api: string, filter: string, headers: map<string, string>)

  const TokenHeader: string := "X-App-Token"
  const AppIdHeader: string := "X-App-Id"
  const TimestampHeader: string := "X-Timestamp"
  const ContentTypeHeader: string := "Content-Type"
  const FilterPrefix: string := "phoneNumbers eq "

  /**
   * How the exchange with the directory ended. `decoded` is what JSON
   * decoding left in a zero `Content`; its error is ignored. A body that is
   * not valid JSON arrives here as EmptyContent, while a well-formed body
   * with a mistyped field arrives with the fields that did decode.
   */
  datatype Exchange =
    | UrlParseFailed
    | RequestBuildFailed
    | TransportFailed
    | Responded(statusCode: int, body: Body)

  datatype Body = ReadFailed | Received(bytes: seq<bv8>, decoded: Content)

  /**
   * The result of the check: `Answered(true)` keeps the account,
   * `Answered(false)` reports it inactive, and IndexOutOfRange is the
   * run-time panic of reading the first record of an empty list.
   */
  datatype Verdict = Answered(keep: bool) | IndexOutOfRange

  /** The outcomes that the check treats as "keep" without looking at any record. */
  predicate FailsOpen(x: Exchange)
  {
    || x.UrlParseFailed?
    || x.RequestBuildFailed?
    || x.TransportFailed?
    || x.statusCode != 200
    || x.body.ReadFailed?
    || |x.body.bytes| == 0
    || x.body.decoded.totalResults == 0
  }

  /**
   * The request for `phone`: the token is the hash of application id,
   * secret and the decimal Unix time, in that order.
   */
  function BuildRequest(cfg: Config, phone: string, unixSeconds: int, hash: string -> string): (r: Request)
    ensures r.api == cfg.api
    ensures r.filter == FilterPrefix + "\"" + phone + "\""
    ensures r.headers.Keys == {TokenHeader, AppIdHeader, TimestampHeader, ContentTypeHeader}
    ensures r.headers[TimestampHeader] == Decimal.FormatInt(unixSeconds)
    ensures Decimal.ParseInt(r.headers[TimestampHeader]) == Some(unixSeconds)
    ensures r.headers[TokenHeader] == hash(cfg.appId + cfg.appSecret + r.headers[TimestampHeader])
    ensures r.headers[AppIdHeader] == cfg.appId
    ensures r.headers[ContentTypeHeader] == "application/json"
  {
    var timestamp := Decimal.FormatInt(unixSeconds);
    Decimal.FormatIntRoundTrip(unixSeconds);
    var token := hash(cfg.appId + cfg.appSecret + timestamp);
    Request(cfg.api, FilterPrefix + "\"" + phone + "\"",
            map[TokenHeader := token, AppIdHeader := cfg.appId,
                TimestampHeader := timestamp, ContentTypeHeader := "application/json"])
  }

  /**
   * The decision tail of `CheckStatus`: fail open on every failure, on an
   * empty body and on a zero match count; otherwise report the first
   * record's `active` flag.
   */
  function CheckStatus(x: Exchange): (v: Verdict)
    ensures FailsOpen(x) ==> v == Answered(true)
    ensures !FailsOpen(x) && x.body.decoded.resources == [] ==> v == IndexOutOfRange
    ensures !FailsOpen(x) && x.body.decoded.resources != [] ==> v == Answered(x.body.decoded.resources[0].active)
  {
    match x
    case UrlParseFailed => Answered(true)
    case RequestBuildFailed => Answered(true)
    case TransportFailed => Answered(true)
    case Responded(statusCode, body) =>
      if statusCode != 200 then Answered(true)
      else match body
        case ReadFailed => Answered(true)
        case Received(bytes, content) =>
          if |bytes| == 0 then Answered(true)
          else if content.totalResults == 0 then Answered(true)
          else if |content.resources| == 0 then IndexOutOfRange
          else Answered(content.resources[0].active)
  }

  /** Only a successful response whose first record is inactive reports the account inactive. */
  lemma InactiveOnlyWhenConfirmed(x: Exchange)
    requires CheckStatus(x) == Answered(false)
    ensures x.Responded? && x.statusCode == 200 && x.body.Received?
    ensures 0 < |x.body.bytes| && x.body.decoded.totalResults != 0
    ensures 0 < |x.body.decoded.resources| && !x.body.decoded.resources[0].active
  {
  }

  /**
   * One match, marked inactive: the account is reported inactive. This is
   * also what a well-formed body whose `active` field has the wrong type
   * decodes to, so such a body does not fail open.
   */
  lemma SingleInactiveMatch(bytes: seq<bv8>, realName: string)
    requires 0 < |bytes|
    ensures CheckStatus(Responded(200, Received(bytes, Content(1, [DirectoryUser(realName, false)])))) == Answered(false)
  {
  }

  /** A non-empty body that is not valid JSON leaves the zero content, and the check fails open. */
  lemma UndecodableBodyFailsOpen(bytes: seq<bv8>)
    ensures CheckStatus(Responded(200, Received(bytes, EmptyContent))) == Answered(true)
  {
  }

  /** Different phone numbers give different filters, so a query never asks about another user's number. */
  lemma FiltersDistinguishPhones(cfg: Config, phone1: string, phone2: string, t1: int, t2: int, hash: string -> string)
    requires phone1 != phone2
    ensures BuildRequest(cfg, phone1, t1, hash).filter != BuildRequest(cfg, phone2, t2, hash).filter
  {
    var f1 := BuildRequest(cfg, phone1, t1, hash).filter;
    var f2 := BuildRequest(cfg, phone2, t2, hash).filter;
    assert f1[|FilterPrefix| + 1..|f1| - 1] == phone1;
    assert f2[|FilterPrefix| + 1..|f2| - 1] == phone2;
  }


  /** Requests sent at different seconds carry different timestamps. */
  lemma TimestampsDistinguishRequests(cfg: Config, phone: string, t1: int, t2: int, hash: string -> string)
    requires t1 != t2
    ensures BuildRequest(cfg, phone, t1, hash).headers[TimestampHeader]
         != BuildRequest(cfg, phone, t2, hash).headers[TimestampHeader]
  {
  }
}
