/** The values that cross the client's boundary: parsed JSON bodies, the CA's
    HTTP replies, the DNS update actions, and the errors the client raises. */
module Messages {
  import opened Wrappers

  /** A parsed JSON value (`response.json()`). */
  datatype Json =
    | JNull
    | JBool(b: bool)
    | JNumber(n: int)
    | JString(s: string)
    | JArray(items: seq<Json>)
    | JObject(members: map<string, Json>)

  /** The `Retry-After` header as `float(...)` and `time.sleep(...)` see it:
      absent (a `KeyError`), a number of seconds, or a value they reject
      (an HTTP date, `inf`, `nan`). */
  datatype RetryAfter = Absent | Seconds(value: real) | Unparsable

  /** One HTTP reply of the ACME server: status code, the headers the client
      reads, the JSON body (None when the body is empty or not JSON) and the
      raw text. */
  datatype Reply = Reply(
    status: int,
    replayNonce: Option<string>,
    location: Option<string>,
    link: Option<string>,
    retryAfter: RetryAfter,
    body: Option<Json>,
    text: string)

  datatype Action = Add | Delete

  /** The exceptions the client raises, one per raise site. */
  datatype Error =
    | NoDomain                                           // ValueError, line 153
    | NoAccountKey                                       // ValueError, line 173
    | BadModulus                                         // binascii.Error, line 183
    | NonceUnavailable                                   // requests.get fails, lines 100-101
    | NoResponse                                         // RuntimeError, line 129
    | MissingHeader(header: string)                      // KeyError on a reply header
    | MissingKey(key: string)                            // KeyError on a JSON member
    | WrongType                                          // TypeError on a JSON value
    | RegistrationFailed(status: int, body: Json)        // ValueError, line 214
    | ContactUpdateFailed(status: int, body: Json)       // ValueError, line 225
    | OrderUnusable(order: Json)                         // ValueError, line 236
    | UserActionRequired(detail: Json, link: string, instance: Json) // ValueError, line 240
    | NewOrderFailed(status: int, body: Json)            // ValueError, line 245
    | AuthorizationFetchFailed(status: int, body: Json)  // ValueError, line 258
    | AuthorizationUnusable(domain: string, authzStatus: Json) // ValueError, line 266
    | NoDnsChallenge(domain: string)                     // ValueError, line 271
    | DnsUpdateFailed(action: Action, name: string)      // RuntimeError, line 90
    | DnsRecordsNotUpdated                               // ValueError, line 293
    | ResolverFailed                                     // DNSException, from the delete of line 343
    | ChallengeNotVisible(digest: string)                // ValueError, line 318
    | TriggerFailed(status: int, body: Json)             // ValueError, line 326
    | ValidationFailed(status: int, body: Json)          // ValueError, line 332
    | ChallengeRejected(domain: string, body: Json)      // ValueError, line 340
    | FinalizeFailed(status: int, body: Json)            // ValueError, line 350
    | OrderFailed(location: string, order: Json)         // ValueError, line 365
    | DownloadFailed(status: int, body: Json)            // ValueError, line 373

  /** `j[key]` on a parsed body. */
  function Member(j: Json, key: string): (r: Result<Json, Error>)
    ensures r.Success? <==> j.JObject? && key in j.members
  {
    if !j.JObject? then Failure(WrongType)
    else if key !in j.members then Failure(MissingKey(key))
    else Success(j.members[key])
  }

  /** `j[key]` where the client goes on to use the value as text. */
  function StringMember(j: Json, key: string): (r: Result<string, Error>)
    ensures r.Success? ==> Member(j, key) == Success(JString(r.value))
  {
    match Member(j, key)
    case Failure(e) => Failure(e)
    case Success(v) => if v.JString? then Success(v.s) else Failure(WrongType)
  }

  /** `j[key]` where the client goes on to iterate over the value. */
  function ArrayMember(j: Json, key: string): (r: Result<seq<Json>, Error>)
    ensures r.Success? ==> Member(j, key) == Success(JArray(r.value))
  {
    match Member(j, key)
    case Failure(e) => Failure(e)
    case Success(v) => if v.JArray? then Success(v.items) else Failure(WrongType)
  }
}
