# acme-dns-tiny, modelled in Dafny

This project models `get_crt` of acme-dns-tiny, an ACME client (RFC 8555) that
obtains a TLS certificate by meeting dns-01 challenges. `get_crt` does the
following, and each step is modelled:

- It reads the domains of the certificate signing request.
- It turns the account key into a JWK and computes its thumbprint.
- It registers the account and brings its contacts in line with the `Contacts` setting.
- It creates an order.
- For each pending authorization, it installs the challenge's TXT record by a
  TSIG-signed dynamic update (RFC 2136) and checks that the record is visible.
  It then asks the CA to validate, polls the challenge, and deletes the record.
- It finalizes the order, polls it until it is valid, and downloads the certificate chain.

Modules, one per file:

- `Wrappers` (`wrappers.dfy`): `Option` and `Result`.
- `Strings` (`strings.dfy`): `str.startswith`, `str.find`, `str.split` and the
  `join` that undoes a split.
- `Encoding` (`encoding.dfy`): `_base64`, meaning base64url with the `=` padding
  stripped. It also holds the hexadecimal handling of the public exponent and
  modulus, the canonical JWK text, the key authorization, the record name and
  the TXT value.
- `Messages` (`messages.dfy`): parsed JSON, the CA's HTTP replies, and one
  `Error` variant per exception the client raises.
- `Csr` (`csr.dfy`): the domain set of the request, built by a loop proved
  equal to a set-valued specification.
- `Nameservers` (`nameservers.dfy`): the authoritative server addresses and the
  failover of a dynamic update. Both are loops proved against specification
  functions.
- `Jws` (`jws.dfy`): the JWK, the thumbprint, the protected header and the
  signed envelope.
- `Session` (`session.dfy`): `_send_signed_request` as a function
  `SignedRequest` of the session state. The class `AcmeSession` holds the
  nonce, the signature template (`private_acme_signature`), the CA's replies
  still to come and the trace of what the client did. Its `Send` method is
  proved equal to `SignedRequest`.
- `SelfCheck` (`selfcheck.dfy`): the bounded TXT self-check, a loop proved equal
  to the function `Checks`.
- `Protocol` (`protocol.dfy`): every decision the client takes on one reply of
  the CA.
- `Pollers` (`pollers.dfy`): the challenge and order `while True` pollers. Each
  is a function of the session state and a loop proved equal to it.
- `Authorizations` (`authorizations.dfy`): the per-authorization work and the
  cleanup it guarantees.
- `Client` (`getcrt.dfy`): `get_crt` itself.

The outside world is an input:

- The CA is a sequence of `Wire`s, one per signed request. Each holds what a
  `newNonce` GET would return and the reply to the POST. An exhausted sequence
  means no response.
- The DNS of each domain is a `DnsView`. It holds the CNAME target, the zone's
  servers and their addresses, which addresses accept an update, and the
  answers to the TXT lookups.
- Base64, UTF-8, `json.dumps`, SHA-256 and the RS256 signature are the
  uninterpreted functions of `Jws.Primitives`.

Sleeps, lookups, DNS updates and signed requests are recorded as `Session.Event`s.

Behaviour of the code that the model keeps, where a reader of RFC 8555 might
expect otherwise:

- Error replies and the nonce:
  - Section 6.5 of RFC 8555 asks the CA to send a fresh `Replay-Nonce` with
    error replies too. The client never uses it. `requests` treats every reply with
    status 400-599 as false, and `_send_signed_request` then raises
    RuntimeError with the nonce already deleted (lines 102 and 122-129).
    `Session.SignedRequest` models exactly that.
  - As a consequence, every status check of `get_crt` that expects a 4xx value
    is dead code. The 403 "userActionRequired" branch (section 7.3.3 of
    RFC 8555) is one (`Protocol.UserActionUnreachable`).
  - A CA rejection therefore surfaces as RuntimeError. The repository's tests
    expect ValueError for a rejected weak key and for an account key reused in
    the CSR. That rejection comes from the CA, and the client itself does not
    compare the two keys.
- Address order: the code lists the IPv6 addresses of all servers before any
  IPv4 address (lines 59-62), not each server's IPv6 addresses before its
  IPv4 ones.
- Finalization: the code needs exactly status 200 (line 349), not any 2xx
  acknowledgement. The order poll checks no status code at all
  (lines 353-366).
- Record cleanup: the code deletes the record only in the `finally` of the
  challenge poll (lines 328-343). An error of the self-check, of the trigger,
  or of reading the challenge's `url` leaves the record installed.
  `Authorizations.Reach.Stranded` models that case.

## Model

| member | source | states |
|---|---|---|
| Strings.JoinSplit | acme_dns_tiny.py:149 | `split` loses nothing: joining the pieces with the separator gives the text back |
| Strings.SplitPiecesFree | acme_dns_tiny.py:149 | no piece of a split contains the separator |
| Strings.SplitCons | acme_dns_tiny.py:149 | a leading piece without the separator's first character splits off on its own |
| Strings.SplitSingle | acme_dns_tiny.py:149 | a text without the separator's first character is a single piece |
| Encoding.StripPadding | acme_dns_tiny.py:15 | `rstrip("=")` returns a prefix, removes only `=` characters, and leaves no trailing `=` |
| Encoding.StripPaddingRemovesPadding | acme_dns_tiny.py:15 | stripping removes exactly the padding appended to a body that does not end in `=` |
| Encoding.Base64Url | acme_dns_tiny.py:13-15 | `_base64` is the encoder's output without its padding: no trailing `=`, and the unpadded body when the output is body plus padding |
| Encoding.Hex | acme_dns_tiny.py:175 | `"{0:x}".format(e)` is a non-empty hexadecimal numeral of value `e` with no leading zero unless `e` is 0 |
| Encoding.PadToEvenLength | acme_dns_tiny.py:176 | prepending `0` to an odd-length numeral gives even length and keeps the value |
| Encoding.Unhexlify | acme_dns_tiny.py:181 | `unhexlify` succeeds exactly on even-length hexadecimal text, and the octets have the numeral's value |
| Encoding.ExponentOctets | acme_dns_tiny.py:175-181 | the padded exponent always unhexlifies, into the shortest big-endian octets of the exponent |
| Encoding.ExponentLeadingOctet | acme_dns_tiny.py:175-176 | the first octet of the padded exponent is zero only for a zero exponent |
| Encoding.RemoveSeparators | acme_dns_tiny.py:183 | removing whitespace (as `\s` matches it, Unicode whitespace included) and colons keeps every other character and leaves no separator |
| Encoding.RemoveSeparatorsAppend | acme_dns_tiny.py:183 | removal distributes over concatenation and keeps a single non-separator character, so the order of the text is kept |
| Encoding.ModulusOctets | acme_dns_tiny.py:183 | the modulus octets exist exactly when the cleaned text is even-length hexadecimal, and they have its value |
| Encoding.CanonicalJwkInjective | acme_dns_tiny.py:186 | different `e` or `n` give different canonical JWK texts, so the thumbprint input identifies the key |
| Encoding.KeyAuthorizationParts | acme_dns_tiny.py:275 | the key authorization splits at its dot into exactly the token and the thumbprint (section 8.1 of RFC 8555) |
| Encoding.ChallengeRecordName | acme_dns_tiny.py:277 | the record name is `_acme-challenge.`, the domain, then a final dot |
| Encoding.TxtValue | acme_dns_tiny.py:288-289 | the TXT value is the digest between double quotes |
| Csr.ExtractDomains | acme_dns_tiny.py:141-153 | the loop yields exactly `RequestedDomains`, and fails with the no-domain error exactly when that set is empty |
| Csr.DnsNamesMembers | acme_dns_tiny.py:149-151 | a name is collected exactly when some entry starts with `DNS:` and the name is the rest of that entry |
| Csr.DnsNamesCons | acme_dns_tiny.py:149-151 | the first entry contributes its name, if it is a `DNS:` entry, ahead of the others |
| Csr.OtherEntryIgnored | acme_dns_tiny.py:149-151 | an entry of another kind adds nothing |
| Csr.DnsEntryAdded | acme_dns_tiny.py:149-151 | a `DNS:` entry adds its name with the prefix removed |
| Csr.LastEntry | acme_dns_tiny.py:149-151 | a line with a single entry adds its name exactly when it is a `DNS:` entry |
| Csr.DuplicateNamesCollapse | acme_dns_tiny.py:141-151 | a common name repeated as a `DNS:` name is counted once |
| Csr.NoDnsNameRejected | acme_dns_tiny.py:141-153 | no common name and no `DNS:` entry gives the empty set, which is rejected |
| Nameservers.Without | acme_dns_tiny.py:50 | the filter keeps exactly the servers other than the primary |
| Nameservers.WithoutAppend | acme_dns_tiny.py:50 | the filter distributes over concatenation and keeps a single server other than the primary, so the NS order is kept |
| Nameservers.AuthoritativeServerIps | acme_dns_tiny.py:33-63 | the loops build the deduplicated IPv6-then-IPv4 address list, with no duplicates and exactly the resolved addresses |
| Nameservers.DedupNoDuplicates | acme_dns_tiny.py:59-62 | the deduplicating loop leaves no repeated address |
| Nameservers.DedupMembers | acme_dns_tiny.py:59-62 | deduplication keeps every address and adds none |
| Nameservers.DedupExtends | acme_dns_tiny.py:59-62 | appending never reorders what is listed: only new addresses of the appended part follow |
| Nameservers.Ipv6BeforeIpv4 | acme_dns_tiny.py:60 | the list opens with all IPv6 addresses, and every later entry is an IPv4 address no server gave as IPv6 |
| Nameservers.PrimaryFirst | acme_dns_tiny.py:41-58 | a listed primary's IPv6 addresses open the list and its IPv4 addresses open the IPv4 part (section 4 of RFC 2136) |
| Nameservers.PrimaryNotListed | acme_dns_tiny.py:41-58 | a primary missing from the NS answer gets no precedence: the NS order is kept |
| Nameservers.SendUpdate | acme_dns_tiny.py:77-88 | addresses are tried in order until the first that answers; none answers exactly when the update fails after trying all; the outcome and the addresses tried are `FirstAnswer`'s |
| Nameservers.FirstAnswerStops | acme_dns_tiny.py:77-88 | no address is accepted exactly when none answers, and then all were tried; otherwise the tried addresses are a prefix of the candidates ending with the accepted one, which answered, after ones that did not |
| Nameservers.UpdateDns | acme_dns_tiny.py:65-90 | `_update_dns` fails, naming action and record, exactly when no authoritative address answers, the empty list included, after trying them all; on success the address that answered ends the tried prefix and every earlier one did not answer; the outcome is `DnsUpdate`'s |
| Nameservers.DnsUpdateOutcome | acme_dns_tiny.py:65-90 | the update fails exactly when no authoritative address answers, with the error naming action and record after trying them all; otherwise it ends at the first answering address of the authoritative list |
| Jws.AccountJwk | acme_dns_tiny.py:168-185 | the JWK exists exactly when the key was found and its modulus unhexlifies; `e` and `n` encode the key's exponent and modulus |
| Jws.Thumbprint | acme_dns_tiny.py:186-187 | the thumbprint is an unpadded base64url text |
| Jws.InitialSignature | acme_dns_tiny.py:178-185 | the template holds `RS256` and the JWK, and no `kid` |
| Jws.ProtectedHeader | acme_dns_tiny.py:99-108 | the header carries the template's `alg`, the nonce and the URL; it has `jwk` without `kid` on `newAccount`, and only the template's `kid` elsewhere |
| Jws.KeyNamedOnce | acme_dns_tiny.py:104-108 | once the template has a `kid`, each header names the key exactly once (section 6.2 of RFC 8555) |
| Jws.ProtectedJson | acme_dns_tiny.py:109 | the serialised header always has `alg`, `nonce` and `url`, and has `jwk` or `kid` exactly when the header does |
| Jws.Payload64 | acme_dns_tiny.py:95-98 | POST-as-GET sends the empty payload (section 6.3 of RFC 8555); any payload is unpadded |
| Jws.Envelope | acme_dns_tiny.py:109-114 | the signature covers the encoded header and payload joined by a dot |
| Jws.SigningInputParts | acme_dns_tiny.py:109-111 | the signing input splits back into exactly the encoded header and payload (section 5.1 of RFC 7515) |
| Session.RequestNonce | acme_dns_tiny.py:100-101 | the held nonce is used unless it is absent or empty, in which case a fetched one is used |
| Session.SignedRequest | acme_dns_tiny.py:92-129 | the request is sent with the chosen nonce and the edited header. It succeeds exactly on a truthy reply with `Replay-Nonce`, which becomes the held nonce. Any failure leaves no nonce. The template and DNS are untouched |
| Session.NonceChain | acme_dns_tiny.py:100-123 | after a successful request the next one carries the nonce its reply supplied (section 6.5 of RFC 8555) |
| Session.NoWireNoAnswer | acme_dns_tiny.py:118-129 | without a response the request fails rather than yielding an answer |
| Session.SignedRequestTraceFree | acme_dns_tiny.py:92-129 | what the client recorded before does not change a request's result, nonce or remaining replies |
| Session.AcmeSession.constructor | acme_dns_tiny.py:136 | the session starts with no nonce, the initial template and an empty trace |
| Session.AcmeSession.Send | acme_dns_tiny.py:92-129 | the result and the new session state are those of `SignedRequest` |
| Session.AcmeSession.SetAccount | acme_dns_tiny.py:205-209 | the account URL becomes the template's `kid`; nothing else changes |
| SelfCheck.ChecksQuiet | acme_dns_tiny.py:299-321 | the self-check only looks up and sleeps |
| SelfCheck.Verdict | acme_dns_tiny.py:316-319 | the self-check fails, naming the digest, exactly when the value was never seen |
| SelfCheck.AnyMatches | acme_dns_tiny.py:306-310 | the loop over the answer's records reports whether the expected value is among them |
| SelfCheck.LookUp | acme_dns_tiny.py:302-310 | one attempt records a lookup and reports whether the answer shows the quoted digest; a DNS exception is a miss |
| SelfCheck.RunSelfCheck | acme_dns_tiny.py:296-321 | one TTL's wait, then the loop's verdict and events are exactly those of `Checks` |
| SelfCheck.SeenAfterMisses | acme_dns_tiny.py:299-321 | a value first seen at attempt k+1 passes after k+1 lookups with one TTL's wait between each two |
| SelfCheck.NeverSeen | acme_dns_tiny.py:315-319 | a value never seen fails after exactly 10 lookups and 9 waits |
| SelfCheck.CheckOutcome | acme_dns_tiny.py:296-321 | the check fails exactly when none of the first 10 answers shows the value; it makes 1 to 10 lookups, with one wait fewer |
| Protocol.RequestedContacts | acme_dns_tiny.py:200-202 | the setting split at `;`, with no piece containing `;` and joining back to the setting; none exactly when the setting is empty |
| Protocol.AccountRequest | acme_dns_tiny.py:195-202 | `termsOfServiceAgreed: true` exactly when the directory names terms, and `contact` exactly when contacts are configured |
| Protocol.RegistrationOutcome | acme_dns_tiny.py:204-215 | 201 registers and 200 finds an existing account, both needing `Location`; any other status is the registration error |
| Protocol.PySet | acme_dns_tiny.py:219 | `set()` of a list succeeds exactly when its items are hashable, and holds exactly the items |
| Protocol.ContactUpdateNeededAsWritten | acme_dns_tiny.py:218-219 | as written: no update without configured contacts, and a KeyError when the account has no `contact` |
| Protocol.ContactUpdateNeeded | acme_dns_tiny.py:218-219 | corrected: no update exactly when no contacts are configured or the account's contacts equal them as sets; an absent `contact` means none |
| Protocol.ContactKeyError | acme_dns_tiny.py:218-219 | an account object without contacts makes the code as written raise, where the corrected reading updates the account |
| Protocol.ContactUpdateOutcome | acme_dns_tiny.py:220-226 | the contact update succeeds exactly on status 200 |
| Protocol.NewOrderRequest | acme_dns_tiny.py:230 | the order asks for one `dns` identifier per domain, in order |
| Protocol.NewOrderOutcome | acme_dns_tiny.py:231-246 | the order is accepted exactly on 201 with `Location` and status `pending` or `ready`; other statuses give the order error |
| Protocol.UserActionUnreachable | acme_dns_tiny.py:238-243 | no successful request yields the user-action error, since 403 replies are falsy |
| Protocol.Dns01Challenges | acme_dns_tiny.py:269 | exactly the dns-01 challenges are kept, and the first kept is the first dns-01 challenge listed |
| Protocol.AuthorizationPlan | acme_dns_tiny.py:256-274 | a 200 reply is needed, else the fetch error; with a domain, `valid` gives AlreadyValid, any status other than `valid` or `pending` gives the unusable-authorization error, and a plan to meet a challenge needs `pending` and names the first dns-01 challenge and its token |
| Protocol.FirstDns01 | acme_dns_tiny.py:269 | the first dns-01 challenge listed is the first one kept |
| Protocol.PendingMeetsFirstDns01 | acme_dns_tiny.py:256-274 | a 200 `pending` authorization with a domain, a dns-01 challenge and its token plans to meet exactly the first dns-01 challenge |
| Protocol.NoDns01Rejected | acme_dns_tiny.py:269-272 | a pending authorization without a dns-01 challenge is an error naming the domain |
| Protocol.TriggerOutcome | acme_dns_tiny.py:324-327 | the trigger succeeds exactly on status 200 |
| Protocol.ChallengeStep | acme_dns_tiny.py:330-341 | on 200, `pending` waits 2 s and `valid` ends the poll; anything else, or another status code, fails |
| Protocol.RetryDelay | acme_dns_tiny.py:358-360 | the pause is `Retry-After` when it is a usable length and 2 s otherwise; an absent header is a KeyError |
| Protocol.OrderStep | acme_dns_tiny.py:354-366 | `valid` ends the poll and nothing else does; `processing` waits exactly as `RetryDelay` says, or fails with its error; any other status fails naming the order |
| Protocol.FinalizeOutcome | acme_dns_tiny.py:348-351 | finalization succeeds exactly on status 200 |
| Protocol.DownloadOutcome | acme_dns_tiny.py:368-380 | the download succeeds exactly on status 200 and returns the reply's text |
| Pollers.ChallengePoll | acme_dns_tiny.py:329-341 | the challenge poll changes neither the template nor the DNS, and once the template has a `kid` every request it adds names the key once |
| Pollers.OrderPoll | acme_dns_tiny.py:353-366 | the order poll returns only an order whose status is `valid` |
| Pollers.PollChallenge | acme_dns_tiny.py:329-341 | the loop's result and session state are exactly those of `ChallengePoll` |
| Pollers.PollOrder | acme_dns_tiny.py:353-366 | the loop's result and session state are exactly those of `OrderPoll` |
| Pollers.ChallengePollUnfold | acme_dns_tiny.py:330-335 | a pending reply costs one request and a 2 s wait, and the poll goes on with the reply's nonce |
| Pollers.ChallengePendingThenValid | acme_dns_tiny.py:329-338 | k pending replies and then a valid one succeed, using k+1 replies and recording k+1 requests with a 2 s wait after each pending one |
| Pollers.ChallengeValidNow | acme_dns_tiny.py:330-338 | a 200 `valid` reply ends the poll at once, after one request |
| Pollers.ChallengeOtherStatusFails | acme_dns_tiny.py:339-341 | any other status fails naming the domain |
| Pollers.ChallengePollConfirmed | acme_dns_tiny.py:329-341 | the poll uses the CA's replies in order, and succeeds only when the last reply it used answered 200 with status `valid` |
| Pollers.ChallengePollTraceFree | acme_dns_tiny.py:329-341 | the sleeps recorded before the poll do not change its outcome |
| Pollers.OrderPollUnfold | acme_dns_tiny.py:354-360 | a processing reply costs one request and its pause, and the poll goes on with the reply's nonce |
| Pollers.OrderProcessingThenValid | acme_dns_tiny.py:353-363 | k processing replies and then a valid one: the poll returns that valid order |
| Pollers.OrderProcessingPaced | acme_dns_tiny.py:353-363 | the same run uses k+1 replies and records k+1 requests, pausing after each processing reply as its `Retry-After` asks |
| Pollers.OrderValidNow | acme_dns_tiny.py:353-363 | a valid order ends the poll at once, after one request, returning that order |
| Pollers.OrderMissingRetryAfter | acme_dns_tiny.py:356-358 | a processing reply without `Retry-After` ends the poll with a KeyError |
| Pollers.OrderStatusCodeIgnored | acme_dns_tiny.py:353-363 | a truthy non-200 reply showing a valid order ends the poll successfully |
| Pollers.OrderPollTraceFree | acme_dns_tiny.py:353-366 | the sleeps recorded before the poll change neither its outcome nor the nonce and replies it leaves |
| Authorizations.FetchPlan | acme_dns_tiny.py:256-274 | the plan is the signed request's error or `AuthorizationPlan` of its answer, without touching DNS |
| Authorizations.Apply | acme_dns_tiny.py:290-294 | a zone lookup error fails the add with ValueError and the delete with the DNS exception; otherwise one update is recorded, and a failure is the RuntimeError naming the record; the result and state are `Updating`'s |
| Authorizations.UpdatingOutcome | acme_dns_tiny.py:290-294 | an add or delete succeeds exactly when the zone was found and one of its authoritative addresses answers; only the trace changes, by one update carrying the addresses tried, and a failure is ValueError, the DNS exception or the RuntimeError naming the record |
| Authorizations.Trigger | acme_dns_tiny.py:296-327 | the trigger succeeds exactly when the self-check passes, the challenge has a `url`, and the signed request to it answers and `TriggerOutcome` accepts the answer (status 200); an unseen value fails naming the digest; every failure occurs before cleanup; the session then stands where that request left it; the result and state are `Triggering`'s |
| Authorizations.TriggeringAccepted | acme_dns_tiny.py:296-327 | the trigger succeeds exactly when `TriggerAccepted` holds, and it then answers with the challenge's `url` |
| Authorizations.PollThenRemove | acme_dns_tiny.py:328-343 | the delete of the record is sent after the poll on every exit; the poll's outcome stands unless the delete fails; success means the last CA reply used was a 200 `valid`; the result, removal and state are `Removing`'s |
| Authorizations.RemovingOutcome | acme_dns_tiny.py:328-343 | after the poll the record is removed exactly when the delete zone was found and one of its addresses answers; then the outcome is the poll's, otherwise the delete's error; nonce and wires are where the poll left them, and one delete is recorded exactly when the zone was found |
| Authorizations.Validate | acme_dns_tiny.py:296-343 | once the record is installed: no delete is sent exactly when the trigger is not accepted; otherwise the delete follows the poll, and when a server answers it the outcome is the challenge poll's from the state the trigger left; the result, reach and state are `Validation`'s |
| Authorizations.ValidationReached | acme_dns_tiny.py:296-343 | validation stops at the trigger exactly when `TriggerAccepted` fails, judged from any session that differs only in its trace; a removal answers with the poll of the triggered challenge |
| Authorizations.RecordName | acme_dns_tiny.py:277-287 | without a CNAME the record is `_acme-challenge.<domain>.` |
| Authorizations.MeetChallenge | acme_dns_tiny.py:288-343 | the updates sent match how far the record got; an answered add goes without a delete only when the self-check, the `url` read or the trigger failed; otherwise the delete follows the poll, and when a server answers it the outcome is the challenge poll's; success means the last CA reply used was a 200 `valid`; the result, reach and state are `Meeting`'s |
| Authorizations.MeetingReach | acme_dns_tiny.py:288-343 | nothing is touched exactly when the add zone lookup fails (ValueError, state unchanged); the add is rejected exactly when no add server answers (RuntimeError naming the record); the record is stranded exactly when the add was answered and the trigger not accepted; it is removed exactly when, moreover, the trigger was accepted and a delete server answers; success implies removal |
| Authorizations.ProcessAuthorization | acme_dns_tiny.py:255-343 | one authorization adds an update block matching its reach; whenever the record was installed, the authorization fetch succeeded, planned that challenge, and `MeetChallenge`'s guarantees hold from there; success means the last CA reply used was a 200 `valid`; the result, reach and state are `Authorization`'s |
| Authorizations.AuthorizationOutcome | acme_dns_tiny.py:255-343 | an authorization succeeds without touching the DNS exactly when the CA reports it valid already; any other success removed the record; a fetch or plan error fails with nothing touched; a pending dns-01 challenge is met as `Meeting` says, with the record name and key authorization digest of its token |
| Authorizations.AuthorizeOne | acme_dns_tiny.py:249-343 | one pass of the loop leaves at most one answered add without an answered delete and, on success, adds one more CA reply confirming the authorization; an entry that is not a URL fails before any request, and otherwise the result and state are `Authorization`'s (as `Pass`) |
| Authorizations.Authorize | acme_dns_tiny.py:249-343 | only the last authorization's answered add can lack an answered delete, and none does on success; a `ready` order changes nothing; on success a non-ready order's authorizations are counted by as many distinct CA replies, in the order they came, each answering 200 with status `valid`; the result and state are `OrderAuthorization`'s |
| Authorizations.PassesOutcome | acme_dns_tiny.py:249-343 | the loop over the authorizations fails only through a pass that fails after every earlier one succeeded, answering with that pass's result and state, and succeeds only when every pass did |
| Authorizations.OrderAuthorizationOutcome | acme_dns_tiny.py:249-343 | the state changes only when a non-`ready` order with a readable status has authorizations; then the order fails only through a failing pass of `AuthorizeOne` after the earlier ones succeeded, and succeeds only when every pass did; otherwise it fails exactly when the list is unreadable or, being non-empty, the status is |
| Client.Enumerate | acme_dns_tiny.py:230 | the set's iteration yields each domain exactly once |
| Client.RegisterAccount | acme_dns_tiny.py:190-226 | the result and the new session state are those of `Registration`; the first request goes to `newAccount` by `jwk`, and every request names the key exactly once |
| Client.Register | acme_dns_tiny.py:204-215 | a registration is the `RegistrationOutcome` of the `newAccount` answer; the account URL becomes the `kid`, after one request |
| Client.AccountInfo | acme_dns_tiny.py:208-212 | an existing account is fetched again with one more request; a new one keeps the object the CA sent |
| Client.ReconcileContacts | acme_dns_tiny.py:217-226 | the contacts are sent only when the contact check says so, and that update must answer 200 |
| Client.RegistrationSucceeded | acme_dns_tiny.py:190-226 | a successful registration leaves the `Location` of the `newAccount` reply as `kid`; the account is existing exactly on 200; it took one request, one more for an existing account and one more when the contacts changed |
| Client.CreateOrder | acme_dns_tiny.py:228-246 | the order succeeds exactly when the `newOrder` request succeeds and `NewOrderOutcome` accepts the reply; the session is where that request left it; the result is the reply's `Location` and body, a pending or ready order, and a failure is the request's error or `NewOrderOutcome`'s |
| Client.Finish | acme_dns_tiny.py:345-380 | the result and the new session state are those of `Finishing`; an order without `finalize` fails before any request |
| Client.FinishingSucceeded | acme_dns_tiny.py:345-380 | a certificate comes back only when finalization answered 200, the order then polled valid with a `certificate` URL, and the POST-as-GET of that URL answered 200; the certificate is that reply's text |
| Client.GetCrt | acme_dns_tiny.py:130-380 | no domain or no key fails before any request; every request names the key once; at most one answered add lacks an answered delete, none on success |

## Left out

- `main` and the configuration plumbing (lines 383-423) are not modelled. The
  model starts from the settings `get_crt` reads (`Client.Config`).
- `_openssl` (lines 18-26) is subprocess I/O.
  - Its printed request is `Csr.CsrText`: what the two regular expressions
    capture. The expressions themselves are not modelled.
  - Its printed key is `Jws.KeyText`. The key regular expression is not modelled.
  - The DER request is a base64url string.
  - The RS256 signature is an uninterpreted function.
- Base64, UTF-8, `json.dumps` and SHA-256 are uninterpreted functions. Only the
  `=` stripping and the canonical JWK text are modelled.
- `requests` and dnspython are foreign network libraries. Their results are the
  `Wire` sequence and `Authorizations.DnsView`. The directory fetch is the
  parsed `Protocol.Directory`: a failing fetch and a missing `newAccount` or
  `newOrder` key are not modelled. Request headers, the certificate `Accept`
  header, timeouts, the resolver configuration (lines 157-165) and the TSIG
  keyring are not modelled either.
- Logging is not modelled.
- `time.sleep` is a `Sleep` event. The TTL is a `real`, where the code reads an
  integer. `float(Retry-After)` is `Messages.RetryAfter`: absent, a number of
  seconds, or a value `float` or `sleep` rejects.
- The CNAME lookup (lines 278-287) is an optional replacement name.
- JSON numbers are integers. Where the code only formats a JSON value into a
  message or a name, the model requires a string. Examples are the
  authorization's `identifier.value`, the challenge's `token` and `url`, and
  `finalize` and `certificate`.
- The iteration order of the domain set is unspecified. `Client.Enumerate`
  yields any order.
- A deleted nonce would make a later request raise NameError. This cannot
  happen: every failure of `_send_signed_request` is an exception that ends
  `get_crt`.
- Pollers.ChallengePendingThenValid: states the number of requests and
  every pause, not the URL and header of each request, which
  `Pollers.ChallengePollUnfold` states one step at a time.
- Pollers.OrderProcessingPaced: likewise, with `Pollers.OrderPollUnfold` for
  each step.
- Pollers.ChallengePoll: its own contract does not say that success needs a
  reply with status code 200 and status `valid`.
  `Pollers.ChallengePollConfirmed` states that, which keeps the fact out of
  every proof that only mentions the poll.
- The `while True` pollers (lines 329-341 and 353-366) have no bound. A CA
  that answers `pending` or `processing` forever keeps `get_crt` polling
  forever. The model's CA is a finite sequence of replies, so such a poll ends
  with the no-response error once the replies run out.
- dnspython compares `Name`s without regard to case (lines 40 and 49). The
  model compares server names as strings, so it assumes the SOA and NS
  answers spell a name the same way.
- Client.RegisterAccount: uses the corrected contact check
  `Protocol.ContactUpdateNeeded` (see Findings). For an account object
  without `contact`, the code as written raises KeyError, while the model
  sends the contact update.
- Client.GetCrt: states the two early errors, key naming and DNS cleanliness.
  It does not state the full request sequence, which the member of each step
  states.
- `_update_dns` (lines 77-88) counts any DNS response as success and never
  reads its response code. The model does the same: `Authority.answers` means
  a server responded. A delete answered with REFUSED, NOTAUTH or SERVFAIL
  therefore counts as a removal, so `Clean` and `AtMostOneLeft` speak of
  answered updates, not of what the zone holds.
- `Authorizations.DnsView` is chosen by the authorization's domain. A wildcard
  authorization and the one for its base name share `identifier.value`, so
  they share one view and one sequence of TXT answers, where the code queries
  the live DNS again for each.
- Authorizations.Authorize: its ghost `marks` count one confirming reply per
  authorization, in order, but do not tie each reply to the request for that
  authorization or its challenge URL; which requests are sent is stated by
  `OrderAuthorization`.

## Findings

| source | as written | input that shows it | evidently intended | confidence | as-written member | corrected member |
|---|---|---|---|---|---|---|
| acme_dns_tiny.py:218-219 | `set(account_info["contact"])` reads the account's `contact` member unconditionally, but section 7.1.2 of RFC 8555 makes it optional | `Contacts = mailto:admin@example.com` and an account object without `contact`, for instance an existing account registered without contacts | an absent `contact` reads as no contacts, so the configured ones are sent as an update | not executed | Protocol.ContactUpdateNeededAsWritten (shown by Protocol.ContactKeyError) | Protocol.ContactUpdateNeeded |
