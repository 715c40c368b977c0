/** The decisions `get_crt` takes on the CA's replies (lines 190-380): the
    account request, registration, contact reconciliation, order creation,
    the choice of a dns-01 challenge, and the status checks of the trigger,
    the pollers, finalization and download. Each is a function of one
    answer; the session and the loops that feed them are elsewhere. */
module Protocol {
  import opened Wrappers
  import opened Strings
  import opened Messages
  import opened Session

  // ---------------------------------------------------------------------
  // Account request (lines 190-202)

  /** The parts of the directory the client uses; `termsOfService` is empty
      when `meta.termsOfService` is absent. */
  datatype Directory = Directory(newAccount: string, newOrder: string, termsOfService: string)

  /** Lines 200-202: the `Contacts` setting split at `;`, or None when the
      setting is empty (the split is then `[""]`). */
  function RequestedContacts(setting: string): (r: Option<seq<string>>)
    ensures r.None? <==> setting == ""
    ensures r.Some? ==> r.value != [] && Join(r.value, ";") == setting
    ensures r.Some? ==> forall c :: c in r.value ==> !Contains(c, ";")
  {
    var parts := Split(setting, ";");
    JoinSplit(setting, ";");
    SplitPiecesFree(setting, ";");
    if parts == [""] then None else Some(parts)
  }

  function JsonStrings(ss: seq<string>): (js: seq<Json>)
    ensures |js| == |ss| && forall i :: 0 <= i < |ss| ==> js[i] == JString(ss[i])
  {
    if ss == [] then [] else [JString(ss[0])] + JsonStrings(ss[1..])
  }

  /** Lines 195-202: the `newAccount` payload. */
  function AccountRequest(termsOfService: string, contacts: Option<seq<string>>): (j: Json)
    ensures j.JObject? && j.members.Keys <= {"termsOfServiceAgreed", "contact"}
    ensures "termsOfServiceAgreed" in j.members <==> termsOfService != ""
    ensures "termsOfServiceAgreed" in j.members ==> j.members["termsOfServiceAgreed"] == JBool(true)
    ensures "contact" in j.members <==> contacts.Some?
    ensures contacts.Some? ==> j.members["contact"] == JArray(JsonStrings(contacts.value))
  {
    var agreed: map<string, Json> := if termsOfService != "" then map["termsOfServiceAgreed" := JBool(true)] else map[];
    JObject(if contacts.Some? then agreed["contact" := JArray(JsonStrings(contacts.value))] else agreed)
  }

  // ---------------------------------------------------------------------
  // Registration (lines 204-215)

  /** The account URL, and whether the account existed already (status 200),
      in which case its object is fetched again. */
  datatype Account = Account(kid: string, existing: bool)

  function RegistrationOutcome(a: Answer): (r: Result<Account, Error>)
    ensures r.Success? <==> (a.reply.status == 201 || a.reply.status == 200) && a.reply.location.Some?
    ensures r.Success? ==> r.value == Account(a.reply.location.value, a.reply.status == 200)
    ensures a.reply.status != 201 && a.reply.status != 200 ==> r == Failure(RegistrationFailed(a.reply.status, a.body))
    ensures (a.reply.status == 201 || a.reply.status == 200) && a.reply.location.None? ==> r == Failure(MissingHeader("Location"))
  {
    if a.reply.status == 201 || a.reply.status == 200 then
      if a.reply.location.None? then Failure(MissingHeader("Location"))
      else Success(Account(a.reply.location.value, a.reply.status == 200))
    else Failure(RegistrationFailed(a.reply.status, a.body))
  }

  // ---------------------------------------------------------------------
  // Contact reconciliation (lines 217-226)

  predicate Hashable(v: Json) {
    !v.JArray? && !v.JObject?
  }

  /** Python's `set(v)` on a parsed JSON value: the items of a list (which
      must be hashable), the keys of an object, the characters of a string;
      anything else is a TypeError. */
  function PySet(v: Json): (r: Result<set<Json>, Error>)
    ensures v.JArray? ==> (r.Success? <==> forall x :: x in v.items ==> Hashable(x))
    ensures v.JArray? && r.Success? ==> forall x :: x in r.value <==> x in v.items
  {
    match v
    case JArray(items) =>
      if forall x :: x in items ==> Hashable(x) then Success(set x | x in items) else Failure(WrongType)
    case JObject(m) => Success(set k | k in m.Keys :: JString(k))
    case JString(s) => Success(set c | c in s :: JString([c]))
    case _ => Failure(WrongType)
  }

  function ContactSet(contacts: seq<string>): set<Json> {
    set c | c in contacts :: JString(c)
  }

  /** Line 218-219 as written: with contacts configured, the account's
      `contact` member is read unconditionally. */
  function ContactUpdateNeededAsWritten(requested: Option<seq<string>>, account: Json): (r: Result<bool, Error>)
    ensures requested.None? ==> r == Success(false)
    ensures requested.Some? && account.JObject? && "contact" !in account.members ==> r == Failure(MissingKey("contact"))
  {
    if requested.None? then Success(false)
    else match Member(account, "contact")
      case Failure(e) => Failure(e)
      case Success(v) =>
        match PySet(v)
        case Failure(e) => Failure(e)
        case Success(have) => Success(ContactSet(requested.value) != have)
  }

  /** Lines 218-219 with an absent `contact` member read as no contacts
      (section 7.1.2 of RFC 8555 makes the member optional): an update is
      needed exactly when contacts are configured and differ, as sets, from
      the account's. */
  function ContactUpdateNeeded(requested: Option<seq<string>>, account: Json): (r: Result<bool, Error>)
    ensures requested.None? ==> r == Success(false)
    ensures requested.Some? && requested.value != [] && account.JObject? && "contact" !in account.members ==> r == Success(true)
    ensures account.JObject? && "contact" in account.members ==> r == ContactUpdateNeededAsWritten(requested, account)
    ensures r == Success(false) <==>
              (requested.None? || (account.JObject? &&
                 (if "contact" in account.members then PySet(account.members["contact"]) == Success(ContactSet(requested.value))
                  else ContactSet(requested.value) == {})))
  {
    if requested.None? then Success(false)
    else if account.JObject? && "contact" !in account.members then
      assert requested.value != [] ==> JString(requested.value[0]) in ContactSet(requested.value);
      Success(ContactSet(requested.value) != {})
    else ContactUpdateNeededAsWritten(requested, account)
  }

  /** An existing account without contacts, with contacts configured: the
      code as written raises KeyError, the corrected reading updates the
      account. */
  lemma ContactKeyError(requested: seq<string>)
    requires requested != []
    ensures ContactUpdateNeededAsWritten(Some(requested), JObject(map[])) == Failure(MissingKey("contact"))
    ensures ContactUpdateNeeded(Some(requested), JObject(map[])) == Success(true)
  {
    assert JString(requested[0]) in ContactSet(requested);
  }

  /** Lines 222-226: the update must answer 200. */
  function ContactUpdateOutcome(a: Answer): (r: Result<(), Error>)
    ensures r.Success? <==> a.reply.status == 200
    ensures r.Failure? ==> r.error == ContactUpdateFailed(a.reply.status, a.body)
  {
    if a.reply.status == 200 then Success(()) else Failure(ContactUpdateFailed(a.reply.status, a.body))
  }

  // ---------------------------------------------------------------------
  // Order creation (lines 229-246)

  function Identifier(domain: string): Json {
    JObject(map["type" := JString("dns"), "value" := JString(domain)])
  }

  /** Line 230: one `dns` identifier per domain, in iteration order. */
  function NewOrderRequest(domains: seq<string>): (j: Json)
    ensures j.JObject? && j.members.Keys == {"identifiers"} && j.members["identifiers"].JArray?
    ensures var items := j.members["identifiers"].items;
            |items| == |domains| && forall i :: 0 <= i < |items| ==> items[i] == Identifier(domains[i])
  {
    JObject(map["identifiers" := JArray(Identifiers(domains))])
  }

  function Identifiers(domains: seq<string>): (items: seq<Json>)
    ensures |items| == |domains| && forall i :: 0 <= i < |items| ==> items[i] == Identifier(domains[i])
  {
    if domains == [] then [] else [Identifier(domains[0])] + Identifiers(domains[1..])
  }

  predicate Usable(order: Json) {
    Member(order, "status") == Success(JString("pending")) || Member(order, "status") == Success(JString("ready"))
  }

  /** Lines 231-246: the order URL of a 201 reply whose order is pending or
      ready; otherwise the error the code raises. */
  function NewOrderOutcome(a: Answer): (r: Result<string, Error>)
    ensures r.Success? <==> a.reply.status == 201 && a.reply.location.Some? && Usable(a.body)
    ensures r.Success? ==> r.value == a.reply.location.value
    ensures a.reply.status == 201 && a.reply.location.Some? && Member(a.body, "status").Success? && !Usable(a.body)
            ==> r == Failure(OrderUnusable(a.body))
    ensures r.Failure? && r.error.UserActionRequired? ==> a.reply.status == 403
    ensures a.reply.status != 201 && a.reply.status != 403 ==> r == Failure(NewOrderFailed(a.reply.status, a.body))
  {
    var order := a.body;
    if a.reply.status == 201 then
      if a.reply.location.None? then Failure(MissingHeader("Location"))
      else match Member(order, "status")
        case Failure(e) => Failure(e)
        case Success(s) =>
          if s != JString("pending") && s != JString("ready") then Failure(OrderUnusable(order))
          else Success(a.reply.location.value)
    else if a.reply.status == 403 then
      match Member(order, "type")
      case Failure(e) => Failure(e)
      case Success(t) =>
        if t != JString("urn:ietf:params:acme:error:userActionRequired") then
          Failure(NewOrderFailed(a.reply.status, order))
        else match Member(order, "detail")
          case Failure(e) => Failure(e)
          case Success(detail) =>
            if a.reply.link.None? then Failure(MissingHeader("Link"))
            else match Member(order, "instance")
              case Failure(e) => Failure(e)
              case Success(instance) => Failure(UserActionRequired(detail, a.reply.link.value, instance))
    else Failure(NewOrderFailed(a.reply.status, order))
  }

  /** A 403 reply is falsy to `requests`, so `_send_signed_request` raises
      before the 403 branch is reached: no successful signed request ends in
      the user-action error. */
  lemma UserActionUnreachable(ctx: Context, st: State, url: string, payload: Jws.Payload)
    requires SignedRequest(ctx, st, url, payload).0.Success?
    ensures var r := NewOrderOutcome(SignedRequest(ctx, st, url, payload).0.value);
            !(r.Failure? && r.error.UserActionRequired?)
  {
  }

  // ---------------------------------------------------------------------
  // Authorizations (lines 249-276)

  predicate IsDns01(c: Json) {
    Member(c, "type") == Success(JString("dns-01"))
  }

  /** Line 269: the dns-01 challenges in order; reading `type` fails on the
      first challenge that has none. */
  function Dns01Challenges(cs: seq<Json>): (r: Result<seq<Json>, Error>)
    ensures r.Success? <==> forall i :: 0 <= i < |cs| ==> Member(cs[i], "type").Success?
    ensures r.Success? ==> forall x :: x in r.value <==> x in cs && IsDns01(x)
    ensures r.Success? && r.value != [] ==>
              exists i :: 0 <= i < |cs| && cs[i] == r.value[0] && forall j :: 0 <= j < i ==> !IsDns01(cs[j])
  {
    if cs == [] then Success([])
    else match Member(cs[0], "type")
      case Failure(e) => Failure(e)
      case Success(_) =>
        match Dns01Challenges(cs[1..])
        case Failure(e) => Failure(e)
        case Success(rest) =>
          if IsDns01(cs[0]) then Success([cs[0]] + rest)
          else
            assert forall i :: 1 <= i < |cs| ==> cs[i] == cs[1..][i - 1];
            Success(rest)
  }

  /** What one authorization asks for: nothing (already valid), or the dns-01
      challenge to meet for the domain and its token. */
  datatype AuthzPlan =
    | AlreadyValid(domain: string)
    | MeetChallenge(domain: string, challenge: Json, token: string)

  /** Line 258: the domain an authorization names, `identifier.value`. */
  function DomainOf(authorization: Json): Result<string, Error> {
    match Member(authorization, "identifier")
    case Failure(e) => Failure(e)
    case Success(id) => StringMember(id, "value")
  }

  /** Lines 255-275: the authorization must be fetched with status 200; a
      valid one is skipped, one that is not pending is an error, and
      otherwise its first dns-01 challenge is taken. */
  function AuthorizationPlan(a: Answer): (r: Result<AuthzPlan, Error>)
    ensures r.Success? ==> a.reply.status == 200
    ensures a.reply.status != 200 ==> r == Failure(AuthorizationFetchFailed(a.reply.status, a.body))
    ensures r.Success? && r.value.AlreadyValid? ==> Member(a.body, "status") == Success(JString("valid"))
    ensures r.Success? && r.value.MeetChallenge? ==>
              Member(a.body, "status") == Success(JString("pending"))
              && IsDns01(r.value.challenge) && StringMember(r.value.challenge, "token") == Success(r.value.token)
              && exists cs :: ArrayMember(a.body, "challenges") == Success(cs)
                   && exists i :: 0 <= i < |cs| && cs[i] == r.value.challenge && forall j :: 0 <= j < i ==> !IsDns01(cs[j])
    ensures r.Success? ==> exists id :: Member(a.body, "identifier") == Success(id) && StringMember(id, "value") == Success(r.value.domain)
    ensures a.reply.status == 200 && DomainOf(a.body).Success? && Member(a.body, "status") == Success(JString("valid"))
            ==> r == Success(AlreadyValid(DomainOf(a.body).value))
    ensures a.reply.status == 200 && DomainOf(a.body).Success? && Member(a.body, "status").Success?
            && Member(a.body, "status").value != JString("valid") && Member(a.body, "status").value != JString("pending")
            ==> r == Failure(AuthorizationUnusable(DomainOf(a.body).value, Member(a.body, "status").value))
  {
    var authorization := a.body;
    if a.reply.status != 200 then Failure(AuthorizationFetchFailed(a.reply.status, authorization))
    else match Member(authorization, "identifier")
      case Failure(e) => Failure(e)
      case Success(id) =>
        match StringMember(id, "value")
        case Failure(e) => Failure(e)
        case Success(domain) =>
          match Member(authorization, "status")
          case Failure(e) => Failure(e)
          case Success(status) =>
            if status == JString("valid") then Success(AlreadyValid(domain))
            else if status != JString("pending") then Failure(AuthorizationUnusable(domain, status))
            else match ArrayMember(authorization, "challenges")
              case Failure(e) => Failure(e)
              case Success(cs) =>
                match Dns01Challenges(cs)
                case Failure(e) => Failure(e)
                case Success(dns) =>
                  if dns == [] then Failure(NoDnsChallenge(domain))
                  else match StringMember(dns[0], "token")
                    case Failure(e) => Failure(e)
                    case Success(token) => Success(MeetChallenge(domain, dns[0], token))
  }

  /** The first challenge whose type is dns-01 heads the list of them. */
  lemma {:induction false} FirstDns01(cs: seq<Json>, i: nat)
    requires forall k :: 0 <= k < |cs| ==> Member(cs[k], "type").Success?
    requires i < |cs| && IsDns01(cs[i]) && forall j :: 0 <= j < i ==> !IsDns01(cs[j])
    ensures Dns01Challenges(cs).Success? && Dns01Challenges(cs).value != [] && Dns01Challenges(cs).value[0] == cs[i]
  {
    if i > 0 {
      assert forall k :: 0 <= k < |cs[1..]| ==> cs[1..][k] == cs[k + 1];
      FirstDns01(cs[1..], i - 1);
    }
  }

  /** A pending authorization whose challenges all have a type, and whose
      first dns-01 challenge has a string token, is met with that challenge
      for the domain it names. */
  lemma PendingMeetsFirstDns01(a: Answer, cs: seq<Json>, i: nat)
    requires a.reply.status == 200 && DomainOf(a.body).Success? && Member(a.body, "status") == Success(JString("pending"))
    requires ArrayMember(a.body, "challenges") == Success(cs)
    requires forall k :: 0 <= k < |cs| ==> Member(cs[k], "type").Success?
    requires i < |cs| && IsDns01(cs[i]) && forall j :: 0 <= j < i ==> !IsDns01(cs[j])
    requires StringMember(cs[i], "token").Success?
    ensures AuthorizationPlan(a) == Success(MeetChallenge(DomainOf(a.body).value, cs[i], StringMember(cs[i], "token").value))
  {
    FirstDns01(cs, i);
  }

  /** A pending authorization without any dns-01 challenge is an error naming
      its domain. */
  lemma NoDns01Rejected(a: Answer, domain: string, cs: seq<Json>)
    requires a.reply.status == 200
    requires a.body == JObject(map["identifier" := JObject(map["value" := JString(domain)]),
                                   "status" := JString("pending"), "challenges" := JArray(cs)])
    requires forall i :: 0 <= i < |cs| ==> Member(cs[i], "type").Success? && !IsDns01(cs[i])
    ensures AuthorizationPlan(a) == Failure(NoDnsChallenge(domain))
  {
    var r := Dns01Challenges(cs);
    assert r.Success?;
  }

  /** Lines 323-327: the trigger must answer 200. */
  function TriggerOutcome(a: Answer): (r: Result<(), Error>)
    ensures r.Success? <==> a.reply.status == 200
    ensures r.Failure? ==> r.error == TriggerFailed(a.reply.status, a.body)
  {
    if a.reply.status == 200 then Success(()) else Failure(TriggerFailed(a.reply.status, a.body))
  }

  // ---------------------------------------------------------------------
  // Polling steps (lines 328-343 and 353-366)

  /** What a poller does after one reply: wait this long and ask again, or
      stop. */
  datatype PollStep = Wait(seconds: real) | Done

  /** Line 334: the challenge poller's pause. */
  const ChallengePause: real := 2.0

  /** Lines 330-340: a 200 reply is required; `pending` waits two seconds,
      `valid` ends the poll, anything else fails naming the domain. */
  function ChallengeStep(domain: string, a: Answer): (r: Result<PollStep, Error>)
    ensures r.Success? <==> a.reply.status == 200 && Member(a.body, "status").Success?
                            && (Member(a.body, "status").value == JString("pending") || Member(a.body, "status").value == JString("valid"))
    ensures r == Success(Done) <==> a.reply.status == 200 && Member(a.body, "status") == Success(JString("valid"))
    ensures r.Success? && r.value.Wait? ==> r.value.seconds == ChallengePause
    ensures a.reply.status != 200 ==> r == Failure(ValidationFailed(a.reply.status, a.body))
    ensures a.reply.status == 200 && Member(a.body, "status").Success? && r.Failure? ==> r.error == ChallengeRejected(domain, a.body)
  {
    if a.reply.status != 200 then Failure(ValidationFailed(a.reply.status, a.body))
    else match Member(a.body, "status")
      case Failure(e) => Failure(e)
      case Success(s) =>
        if s == JString("pending") then Success(Wait(ChallengePause))
        else if s == JString("valid") then Success(Done)
        else Failure(ChallengeRejected(domain, a.body))
  }

  /** Line 359-362: `time.sleep(float(Retry-After))`, falling back to two
      seconds when the value is rejected (a negative length included); an
      absent header is a KeyError the code does not catch. */
  function RetryDelay(h: RetryAfter): (r: Result<real, Error>)
    ensures h.Absent? <==> r.Failure?
    ensures r.Failure? ==> r.error == MissingHeader("Retry-After")
    ensures r.Success? ==> r.value >= 0.0
    ensures h.Seconds? && h.value >= 0.0 ==> r == Success(h.value)
    ensures h.Unparsable? || (h.Seconds? && h.value < 0.0) ==> r == Success(ChallengePause)
  {
    match h
    case Absent => Failure(MissingHeader("Retry-After"))
    case Seconds(s) => if s >= 0.0 then Success(s) else Success(ChallengePause)
    case Unparsable => Success(ChallengePause)
  }

  /** Lines 356-366: the status code is not checked; `processing` waits as
      `Retry-After` says, `valid` ends the poll, anything else fails naming
      the order. */
  function OrderStep(location: string, a: Answer): (r: Result<PollStep, Error>)
    ensures r == Success(Done) <==> Member(a.body, "status") == Success(JString("valid"))
    ensures r.Success? && r.value.Wait? ==> Member(a.body, "status") == Success(JString("processing"))
                                            && RetryDelay(a.reply.retryAfter) == Success(r.value.seconds)
    ensures (Member(a.body, "status").Success? && Member(a.body, "status").value != JString("processing")
             && Member(a.body, "status").value != JString("valid")) ==> r == Failure(OrderFailed(location, a.body))
    ensures Member(a.body, "status") == Success(JString("processing")) ==>
              r == (match RetryDelay(a.reply.retryAfter)
                    case Success(d) => Success(Wait(d))
                    case Failure(e) => Failure(e))
  {
    match Member(a.body, "status")
    case Failure(e) => Failure(e)
    case Success(s) =>
      if s == JString("processing") then
        match RetryDelay(a.reply.retryAfter)
        case Failure(e) => Failure(e)
        case Success(d) => Success(Wait(d))
      else if s == JString("valid") then Success(Done)
      else Failure(OrderFailed(location, a.body))
  }

  // ---------------------------------------------------------------------
  // Finalization and download (lines 345-380)

  /** Line 347: the finalize payload carries the DER request, base64url. */
  function FinalizeRequest(csrDer64: string): (j: Json)
    ensures j == JObject(map["csr" := JString(csrDer64)])
  {
    JObject(map["csr" := JString(csrDer64)])
  }

  /** Lines 348-351: finalization must answer exactly 200. */
  function FinalizeOutcome(a: Answer): (r: Result<(), Error>)
    ensures r.Success? <==> a.reply.status == 200
    ensures r.Failure? ==> r.error == FinalizeFailed(a.reply.status, a.body)
  {
    if a.reply.status == 200 then Success(()) else Failure(FinalizeFailed(a.reply.status, a.body))
  }

  /** Lines 372-380: the download must answer 200; the certificate is the
      reply's text. */
  function DownloadOutcome(a: Answer): (r: Result<string, Error>)
    ensures r.Success? <==> a.reply.status == 200
    ensures r.Success? ==> r.value == a.reply.text
    ensures r.Failure? ==> r.error == DownloadFailed(a.reply.status, a.body)
  {
    if a.reply.status == 200 then Success(a.reply.text) else Failure(DownloadFailed(a.reply.status, a.body))
  }
}
