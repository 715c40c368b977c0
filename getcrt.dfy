/** `get_crt` (lines 130-380) from the CSR to the certificate chain: the
    domains of the CSR, the account key, registration and contacts, the
    order, its authorizations, finalization, the order poll and the
    download. The CA's replies, the DNS and the cryptographic primitives are
    inputs. */
module Client {
  import opened Wrappers
  import opened Messages
  import opened Encoding
  import opened Csr
  import opened Jws
  import opened Session
  import opened Protocol
  import opened Pollers
  import opened Authorizations

  /** The settings `get_crt` reads: what `openssl` prints about the CSR and
      the account key, the directory, the `Contacts` and `TTL` settings, and
      the CSR in DER form, base64url-encoded (line 346). */
  datatype Config = Config(
    csr: CsrText,
    accountKey: Option<KeyText>,
    directory: Directory,
    contacts: string,
    ttl: real,
    csrDer64: string)

  /** Everything outside the client: the primitives, what the CA answers to
      each signed request in turn, and what the DNS does for each domain. */
  datatype World = World(prims: Primitives, wires: seq<Wire>, dns: string -> DnsView)

  /** Line 230: the domains in the order the set yields them. */
  method Enumerate(domains: set<string>) returns (xs: seq<string>)
    ensures |xs| == |domains|
    ensures forall d :: d in xs <==> d in domains
  {
    xs := [];
    var rest := domains;
    while rest != {}
      invariant rest <= domains
      invariant forall d :: d in xs <==> d in domains && d !in rest
      invariant |xs| + |rest| == |domains|
      decreases |rest|
    {
      var d :| d in rest;
      xs := xs + [d];
      rest := rest - {d};
    }
  }

  /** Lines 190-209: the `newAccount` request; the account and the object
      the CA sent back, with the account URL as the template's `kid`. */
  function Register(ctx: Context, st: State, newAccount: string, request: Json): (out: (Result<(Account, Json), Error>, State))
    ensures out.0.Success? ==>
              var sent := SignedRequest(ctx, st, newAccount, Body(request)).0;
              sent.Success? && RegistrationOutcome(sent.value) == Success(out.0.value.0) && out.0.value.1 == sent.value.body
    ensures out.0.Success? ==> out.1.signature == st.signature.(kid := Some(out.0.value.0.kid)) && |out.1.trace| == |st.trace| + 1
  {
    var (sent, st1) := SignedRequest(ctx, st, newAccount, Body(request));
    if sent.Failure? then (Failure(sent.error), st1)
    else match RegistrationOutcome(sent.value)
      case Failure(e) => (Failure(e), st1)
      case Success(account) => (Success((account, sent.value.body)), st1.(signature := st1.signature.(kid := Some(account.kid))))
  }

  /** Lines 211-215: the account object, fetched again with POST-as-GET
      when the key was already registered. */
  function AccountInfo(ctx: Context, st: State, account: Account, body: Json): (out: (Result<Json, Error>, State))
    ensures out.1.signature == st.signature
    ensures !account.existing ==> out == (Success(body), st)
    ensures out.0.Success? ==> |out.1.trace| == |st.trace| + (if account.existing then 1 else 0)
  {
    if !account.existing then (Success(body), st)
    else
      var (sent, st1) := SignedRequest(ctx, st, account.kid, PostAsGet);
      if sent.Failure? then (Failure(sent.error), st1) else (Success(sent.value.body), st1)
  }

  /** Lines 217-226: the contacts are sent again only when they differ from
      the account's, and the CA must answer that update with 200. */
  function ReconcileContacts(ctx: Context, st: State, kid: string, requested: Option<seq<string>>, request: Json, info: Json)
    : (out: (Result<(), Error>, State))
    ensures out.1.signature == st.signature
    ensures ContactUpdateNeeded(requested, info) == Success(false) ==> out == (Success(()), st)
    ensures out.0.Success? ==> (ContactUpdateNeeded(requested, info).Success?
              && |out.1.trace| == |st.trace| + (if ContactUpdateNeeded(requested, info).value then 1 else 0))
    ensures out.0.Success? && ContactUpdateNeeded(requested, info) == Success(true) ==>
              var sent := SignedRequest(ctx, st, kid, Body(request)).0;
              sent.Success? && sent.value.reply.status == 200
  {
    match ContactUpdateNeeded(requested, info)
    case Failure(e) => (Failure(e), st)
    case Success(needed) =>
      if !needed then (Success(()), st)
      else
        var (sent, st1) := SignedRequest(ctx, st, kid, Body(request));
        if sent.Failure? then (Failure(sent.error), st1) else (ContactUpdateOutcome(sent.value), st1)
  }

  /** Lines 190-226 on the session state. */
  function Registration(ctx: Context, st: State, dir: Directory, contacts: string): (out: (Result<(), Error>, State))
  {
    var requested := RequestedContacts(contacts);
    var request := AccountRequest(dir.termsOfService, requested);
    var (registered, st1) := Register(ctx, st, dir.newAccount, request);
    if registered.Failure? then (Failure(registered.error), st1)
    else
      var (account, body) := registered.value;
      var (info, st2) := AccountInfo(ctx, st1, account, body);
      if info.Failure? then (Failure(info.error), st2)
      else ReconcileContacts(ctx, st2, account.kid, requested, request, info.value)
  }

  /** A registration that succeeds leaves the account URL the CA sent in
      `Location` as the `kid`, and took one POST, one more to fetch an
      existing account, and one more when the contacts had to change. */
  lemma RegistrationSucceeded(ctx: Context, st: State, dir: Directory, contacts: string)
    requires Registration(ctx, st, dir, contacts).0.Success?
    ensures var requested := RequestedContacts(contacts);
            var request := AccountRequest(dir.termsOfService, requested);
            var sent := SignedRequest(ctx, st, dir.newAccount, Body(request)).0;
            var registered := Register(ctx, st, dir.newAccount, request);
            && sent.Success? && RegistrationOutcome(sent.value).Success? && registered.0.Success?
            && var account := RegistrationOutcome(sent.value).value;
               && account.kid == sent.value.reply.location.value
               && (account.existing <==> sent.value.reply.status == 200)
               && var info := AccountInfo(ctx, registered.1, account, sent.value.body);
                  && info.0.Success? && ContactUpdateNeeded(requested, info.0.value).Success?
                  && var out := Registration(ctx, st, dir, contacts);
                     && out.1.signature.kid == Some(account.kid)
                     && |out.1.trace| == |st.trace| + 1 + (if account.existing then 1 else 0)
                                         + (if ContactUpdateNeeded(requested, info.0.value).value then 1 else 0)
  {
  }

  /** Lines 190-226: register the account key, learn the account URL, and
      bring the account's contacts in line with the `Contacts` setting. */
  method RegisterAccount(s: AcmeSession, dir: Directory, contacts: string) returns (r: Result<(), Error>)
    requires s.ctx.newAccountUrl == dir.newAccount && s.signature.kid.None? && s.trace == []
    modifies s
    ensures (r, s.Snapshot()) == Registration(s.ctx, old(s.Snapshot()), dir, contacts)
    ensures r.Success? ==> s.signature.kid.Some?
    ensures s.signature.alg == old(s.signature.alg) && s.signature.jwk == old(s.signature.jwk)
    ensures Updates(s.trace) == [] && AllKeyedOnce(s.trace, dir.newAccount)
    ensures r.Success? ==> s.trace != []
    ensures s.trace != [] ==> s.trace[0].Post? && s.trace[0].url == dir.newAccount
                              && s.trace[0].header.jwk == Some(old(s.signature.jwk)) && s.trace[0].header.kid.None?
  {
    var requested := RequestedContacts(contacts);
    var request := AccountRequest(dir.termsOfService, requested);
    ghost var start := s.Snapshot();
    var sent := s.Send(dir.newAccount, Body(request));
    ContinuesFacts(start, s.Snapshot(), dir.newAccount);
    assert s.trace == s.trace[|start.trace|..];
    if sent.Failure? {
      return Failure(sent.error);
    }
    var account := RegistrationOutcome(sent.value);
    if account.Failure? {
      return Failure(account.error);
    }
    var kid := account.value.kid;
    s.SetAccount(kid);
    var info := sent.value.body;
    if account.value.existing {
      ghost var before := s.Snapshot();
      var refetched := s.Send(kid, PostAsGet);
      QuietStep(before, s.Snapshot(), dir.newAccount);
      if refetched.Failure? {
        return Failure(refetched.error);
      }
      info := refetched.value.body;
    }
    var needed := ContactUpdateNeeded(requested, info);
    if needed.Failure? {
      return Failure(needed.error);
    }
    if needed.value {
      ghost var before := s.Snapshot();
      var updated := s.Send(kid, Body(request));
      QuietStep(before, s.Snapshot(), dir.newAccount);
      if updated.Failure? {
        return Failure(updated.error);
      }
      r := ContactUpdateOutcome(updated.value);
    } else {
      r := Success(());
    }
  }

  /** Lines 228-246: the order for `domains`; the result is its URL and the
      order object. */
  method CreateOrder(s: AcmeSession, newOrder: string, domains: seq<string>) returns (r: Result<(string, Json), Error>)
    requires s.signature.kid.Some?
    modifies s
    ensures s.signature == old(s.signature) && Quiet(old(s.trace), s.trace, s.ctx.newAccountUrl)
    ensures var sent := SignedRequest(s.ctx, old(s.Snapshot()), newOrder, Body(NewOrderRequest(domains))).0;
            r.Success? <==> sent.Success? && NewOrderOutcome(sent.value).Success?
    ensures r.Success? ==> Usable(r.value.1)
    ensures var sent := SignedRequest(s.ctx, old(s.Snapshot()), newOrder, Body(NewOrderRequest(domains)));
            && s.Snapshot() == sent.1
            && (sent.0.Failure? ==> r == Failure(sent.0.error))
            && (sent.0.Success? && NewOrderOutcome(sent.0.value).Failure? ==> r == Failure(NewOrderOutcome(sent.0.value).error))
            && (r.Success? ==> r.value == (NewOrderOutcome(sent.0.value).value, sent.0.value.body))
  {
    ghost var start := s.Snapshot();
    var sent := s.Send(newOrder, Body(NewOrderRequest(domains)));
    QuietStep(start, s.Snapshot(), s.ctx.newAccountUrl);
    if sent.Failure? {
      return Failure(sent.error);
    }
    var location := NewOrderOutcome(sent.value);
    if location.Failure? {
      return Failure(location.error);
    }
    r := Success((location.value, sent.value.body));
  }

  /** Lines 372-380 once the order is valid: POST-as-GET of its
      `certificate` URL, which must answer 200. */
  function Download(ctx: Context, st: State, valid: Json): (out: (Result<string, Error>, State))
  {
    match StringMember(valid, "certificate")
    case Failure(e) => (Failure(e), st)
    case Success(url) =>
      var (got, st1) := SignedRequest(ctx, st, url, PostAsGet);
      if got.Failure? then (Failure(got.error), st1) else (DownloadOutcome(got.value), st1)
  }

  /** Lines 345-380 on the session state. */
  function Finishing(ctx: Context, st: State, order: Json, location: string, csrDer64: string): (out: (Result<string, Error>, State))
  {
    match StringMember(order, "finalize")
    case Failure(e) => (Failure(e), st)
    case Success(url) =>
      var (sent, st1) := SignedRequest(ctx, st, url, Body(FinalizeRequest(csrDer64)));
      if sent.Failure? then (Failure(sent.error), st1)
      else if FinalizeOutcome(sent.value).Failure? then (Failure(FinalizeOutcome(sent.value).error), st1)
      else
        var (valid, st2) := OrderPoll(ctx, st1, location);
        if valid.Failure? then (Failure(valid.error), st2)
        else Download(ctx, st2, valid.value)
  }

  /** A certificate comes back only when the CA answered the CSR with 200,
      the order then polled valid and names its `certificate` URL, and the
      POST-as-GET of that URL answered 200; the certificate is that reply's
      text. */
  lemma FinishingSucceeded(ctx: Context, st: State, order: Json, location: string, csrDer64: string)
    requires Finishing(ctx, st, order, location, csrDer64).0.Success?
    ensures StringMember(order, "finalize").Success?
    ensures var sent := SignedRequest(ctx, st, StringMember(order, "finalize").value, Body(FinalizeRequest(csrDer64)));
            && sent.0.Success? && sent.0.value.reply.status == 200
            && var polled := OrderPoll(ctx, sent.1, location);
               && polled.0.Success? && Member(polled.0.value, "status") == Success(JString("valid"))
               && StringMember(polled.0.value, "certificate").Success?
               && var got := SignedRequest(ctx, polled.1, StringMember(polled.0.value, "certificate").value, PostAsGet);
                  && got.0.Success? && got.0.value.reply.status == 200
                  && Finishing(ctx, st, order, location, csrDer64).0 == Success(got.0.value.reply.text)
                  && Finishing(ctx, st, order, location, csrDer64).1 == got.1
  {
  }

  /** Lines 345-380: send the CSR to the order's `finalize` URL, poll the
      order until it is valid, and download the certificate chain. */
  method Finish(s: AcmeSession, order: Json, location: string, csrDer64: string) returns (r: Result<string, Error>)
    requires s.signature.kid.Some?
    modifies s
    ensures (r, s.Snapshot()) == Finishing(s.ctx, old(s.Snapshot()), order, location, csrDer64)
    ensures s.signature == old(s.signature) && Quiet(old(s.trace), s.trace, s.ctx.newAccountUrl)
    ensures StringMember(order, "finalize").Failure? ==> r.Failure? && s.trace == old(s.trace)
  {
    var finalize := StringMember(order, "finalize");
    if finalize.Failure? {
      return Failure(finalize.error);
    }
    ghost var start := s.Snapshot();
    var sent := s.Send(finalize.value, Body(FinalizeRequest(csrDer64)));
    QuietStep(start, s.Snapshot(), s.ctx.newAccountUrl);
    if sent.Failure? {
      return Failure(sent.error);
    }
    var finalized := FinalizeOutcome(sent.value);
    if finalized.Failure? {
      return Failure(finalized.error);
    }
    ghost var beforePoll := s.Snapshot();
    var valid := PollOrder(s, location);
    QuietStep(beforePoll, s.Snapshot(), s.ctx.newAccountUrl);
    if valid.Failure? {
      return Failure(valid.error);
    }
    var certificate := StringMember(valid.value, "certificate");
    if certificate.Failure? {
      return Failure(certificate.error);
    }
    ghost var beforeDownload := s.Snapshot();
    var downloaded := s.Send(certificate.value, PostAsGet);
    QuietStep(beforeDownload, s.Snapshot(), s.ctx.newAccountUrl);
    if downloaded.Failure? {
      return Failure(downloaded.error);
    }
    r := DownloadOutcome(downloaded.value);
  }

  /** `get_crt`: the certificate chain, or the first error raised, with
      everything the client did. Whatever happens, every request names the
      account key exactly once, and at most one answered add of a challenge
      record lacks an answered delete; on success none does. */
  method GetCrt(config: Config, world: World) returns (r: Result<string, Error>, trace: seq<Event>)
    ensures RequestedDomains(config.csr) == {} ==> r == Failure(NoDomain) && trace == []
    ensures AccountJwk(world.prims, config.accountKey).Failure? ==> r.Failure? && trace == []
    ensures AllKeyedOnce(trace, config.directory.newAccount)
    ensures AtMostOneLeft(Updates(trace))
    ensures r.Success? ==> Clean(Updates(trace))
  {
    var domains := ExtractDomains(config.csr);
    if domains.Failure? {
      return Failure(domains.error), [];
    }
    var jwk := AccountJwk(world.prims, config.accountKey);
    if jwk.Failure? {
      return Failure(jwk.error), [];
    }
    var thumbprint := Thumbprint(world.prims, jwk.value);
    var dir := config.directory;
    var s := new AcmeSession(Context(world.prims, dir.newAccount), jwk.value, world.wires);
    var registered := RegisterAccount(s, dir, config.contacts);
    assert Clean(Updates(s.trace));
    if registered.Failure? {
      return Failure(registered.error), s.trace;
    }
    var identifiers := Enumerate(domains.value);
    var created := CreateOrder(s, dir.newOrder, identifiers);
    if created.Failure? {
      return Failure(created.error), s.trace;
    }
    var (location, order) := created.value;
    var authorized, marks := Authorize(s, order, thumbprint, config.ttl, world.dns);
    if authorized.Failure? {
      return Failure(authorized.error), s.trace;
    }
    r := Finish(s, order, location, config.csrDer64);
    trace := s.trace;
  }
}
