/** The authorization loop of lines 249-343: for each pending authorization
    the client installs the dns-01 TXT record, checks that it is visible,
    asks the CA to validate, polls the challenge, and deletes the record in
    a `finally` clause that covers only the trigger's aftermath. */
module Authorizations {
  import opened Wrappers
  import opened Messages
  import opened Encoding
  import opened Jws
  import opened Session
  import opened Nameservers
  import opened SelfCheck
  import opened Protocol
  import opened Pollers

  /** What the DNS does for one domain's challenge: the CNAME target of the
      record name, if there is one (lines 278-287); the zone's servers for
      the add and for the delete, None when finding them raises a DNS
      exception; and the answers to the self-check's TXT lookups. */
  datatype DnsView = DnsView(cname: Option<string>, addZone: Option<Authority>, deleteZone: Option<Authority>, txt: seq<TxtAnswer>)

  /** How far one challenge's TXT record got. */
  datatype Reach =
    | Untouched      // no update sent: an error before the add, or nothing to do
    | AddRejected    // the add failed; nothing is installed
    | Stranded       // installed, then an error before the `try` of line 328
    | Removed        // a server answered the `finally` clause's delete
    | RemovalFailed  // no server answered the `finally` clause's delete

  predicate IsUpdate(e: Event, action: Action, accepted: bool) {
    e.Update? && e.action == action && e.accepted == accepted
  }

  predicate SameRecord(a: Event, b: Event) {
    a.Update? && b.Update? && a.name == b.name && a.value == b.value
  }

  /** The DNS updates one authorization sends, for each reach. */
  predicate Matches(reach: Reach, block: seq<Event>) {
    match reach
    case Untouched => block == []
    case AddRejected => |block| == 1 && IsUpdate(block[0], Add, false)
    case Stranded => |block| == 1 && IsUpdate(block[0], Add, true)
    case Removed => |block| == 2 && IsUpdate(block[0], Add, true) && IsUpdate(block[1], Delete, true) && SameRecord(block[0], block[1])
    case RemovalFailed =>
      (|block| == 1 && IsUpdate(block[0], Add, true))
      || (|block| == 2 && IsUpdate(block[0], Add, true) && IsUpdate(block[1], Delete, false) && SameRecord(block[0], block[1]))
  }

  /** The errors raised between the add and the `try`: the self-check's,
      a challenge without `url`, and the trigger's. */
  predicate BeforeCleanup(e: Error) {
    e.ChallengeNotVisible? || e.TriggerFailed? || e.NonceUnavailable? || e.NoResponse?
    || e.MissingHeader? || e.MissingKey? || e.WrongType?
  }

  /** DNS updates that leave nothing installed, as far as the client can
      tell: adds no server answered, and answered adds each followed by an
      answered delete of the same record. */
  predicate Clean(us: seq<Event>)
    decreases |us|
  {
    us == []
    || (IsUpdate(us[0], Add, false) && Clean(us[1..]))
    || (|us| >= 2 && IsUpdate(us[0], Add, true) && IsUpdate(us[1], Delete, true) && SameRecord(us[0], us[1]) && Clean(us[2..]))
  }

  /** Everything is clean but for the record of the last authorization:
      its add was answered and no answered delete followed. */
  predicate AtMostOneLeft(us: seq<Event>) {
    Clean(us) || exists k :: 0 <= k <= |us| && Clean(us[..k]) && (Matches(Stranded, us[k..]) || Matches(RemovalFailed, us[k..]))
  }

  lemma {:induction false} CleanExtend(a: seq<Event>, reach: Reach, block: seq<Event>)
    requires Clean(a) && Matches(reach, block)
    requires reach.Untouched? || reach.AddRejected? || reach.Removed?
    ensures Clean(a + block)
    decreases |a|
  {
    if a == [] {
      assert a + block == block;
      if block != [] {
        assert block[|block|..] == [];
        if reach.AddRejected? {
          assert block[1..] == [];
        } else {
          assert block[2..] == [];
        }
      }
    } else if IsUpdate(a[0], Add, false) && Clean(a[1..]) {
      CleanExtend(a[1..], reach, block);
      assert (a + block)[1..] == a[1..] + block;
    } else {
      CleanExtend(a[2..], reach, block);
      assert (a + block)[2..] == a[2..] + block;
    }
  }

  lemma LeaveOne(a: seq<Event>, reach: Reach, block: seq<Event>)
    requires Clean(a) && Matches(reach, block)
    ensures AtMostOneLeft(a + block)
  {
    if reach.Untouched? || reach.AddRejected? || reach.Removed? {
      CleanExtend(a, reach, block);
    } else {
      var us := a + block;
      assert us[..|a|] == a && us[|a|..] == block;
    }
  }

  /** Lines 256-275: fetch the authorization and decide what to do with it. */
  method FetchPlan(s: AcmeSession, authz: string) returns (r: Result<AuthzPlan, Error>)
    requires s.signature.kid.Some?
    modifies s
    ensures s.signature == old(s.signature) && Quiet(old(s.trace), s.trace, s.ctx.newAccountUrl)
    ensures var sent := SignedRequest(s.ctx, old(s.Snapshot()), authz, PostAsGet);
            r == (if sent.0.Failure? then Failure(sent.0.error) else AuthorizationPlan(sent.0.value))
            && s.Snapshot() == sent.1
    ensures Suffix(s.wires, old(s.wires))
    ensures r.Success? && r.value.AlreadyValid? ==> EndsConfirmed(old(s.wires), s.wires)
  {
    ghost var start := s.Snapshot();
    var fetched := s.Send(authz, PostAsGet);
    QuietStep(start, s.Snapshot(), s.ctx.newAccountUrl);
    if fetched.Failure? {
      return Failure(fetched.error);
    }
    r := AuthorizationPlan(fetched.value);
  }

  /** The session state `st` after `_update_dns` of one TXT record; see
      `Apply`. */
  function Updating(st: State, action: Action, name: string, value: string, zone: Option<Authority>): (out: (Result<(), Error>, State))
  {
    if zone.None? then (Failure(if action == Add then DnsRecordsNotUpdated else ResolverFailed), st)
    else
      var (sent, tried) := DnsUpdate(action, name, zone.value);
      (if sent.Success? then Success(()) else Failure(sent.error),
       st.(trace := st.trace + [Update(action, name, value, tried, sent.Success?)]))
  }

  /** An update goes through exactly when the zone's servers were found and
      one of them answers; it touches nothing but the trace, and records
      one update event, naming the addresses contacted, whenever the zone
      was found. */
  lemma UpdatingOutcome(st: State, action: Action, name: string, value: string, zone: Option<Authority>)
    ensures var out := Updating(st, action, name, value, zone);
            && (out.0.Success? <==> zone.Some? && Reachable(zone.value))
            && out.1.nonce == st.nonce && out.1.signature == st.signature && out.1.wires == st.wires
            && (zone.None? ==> out == (Failure(if action == Add then DnsRecordsNotUpdated else ResolverFailed), st))
            && (zone.Some? ==> out.1.trace == st.trace + [Update(action, name, value, DnsUpdate(action, name, zone.value).1, out.0.Success?)])
            && (zone.Some? && out.0.Failure? ==> out.0.error == DnsUpdateFailed(action, name))
  {
    if zone.Some? {
      DnsUpdateOutcome(action, name, zone.value);
    }
  }

  /** `_update_dns` of one TXT record, lines 290-294 for the add and line
      343 for the delete; `zone` is None when finding the zone's servers
      raises a DNS exception, which the add turns into a ValueError and the
      delete lets through. */
  method Apply(s: AcmeSession, action: Action, name: string, value: string, zone: Option<Authority>)
    returns (r: Result<(), Error>, tried: seq<Address>)
    modifies s
    ensures s.signature == old(s.signature) && s.nonce == old(s.nonce) && s.wires == old(s.wires)
    ensures zone.None? ==> s.trace == old(s.trace)
                           && r == Failure(if action == Add then DnsRecordsNotUpdated else ResolverFailed)
    ensures zone.Some? ==> s.trace == old(s.trace) + [Update(action, name, value, tried, r.Success?)]
    ensures zone.Some? && r.Failure? ==> r.error == DnsUpdateFailed(action, name)
    ensures AllKeyedOnce(old(s.trace), s.ctx.newAccountUrl) ==> AllKeyedOnce(s.trace, s.ctx.newAccountUrl)
    ensures (r, s.Snapshot()) == Updating(old(s.Snapshot()), action, name, value, zone)
  {
    if zone.None? {
      return Failure(if action == Add then DnsRecordsNotUpdated else ResolverFailed), [];
    }
    var sent;
    sent, tried := UpdateDns(action, name, zone.value);
    s.Note(Update(action, name, value, tried, sent.Success?));
    r := if sent.Success? then Success(()) else Failure(sent.error);
  }

  /** The self-check only looks up and waits. */
  lemma SelfCheckQuiet(before: seq<Event>, name: string, digest: string, ttl: real, txt: seq<TxtAnswer>, newAccountUrl: string)
    ensures Quiet(before, before + [Sleep(ttl)] + Checks(name, digest, ttl, txt, 1).1, newAccountUrl)
  {
    var tail := [Sleep(ttl)] + Checks(name, digest, ttl, txt, 1).1;
    ChecksQuiet(name, digest, ttl, txt, 1);
    assert NoUpdates(tail);
    QuietUpdates(tail);
    UpdatesAppend(before, tail);
    assert before + [Sleep(ttl)] + Checks(name, digest, ttl, txt, 1).1 == before + tail;
  }

  /** Lines 296-327 go through on the session state `st`: the self-check
      sees the value, the challenge has a `url`, and the CA answers the
      request to it with 200. */
  predicate TriggerAccepted(ctx: Context, st: State, challenge: Json, name: string, digest: string, ttl: real, txt: seq<TxtAnswer>) {
    && Checks(name, digest, ttl, txt, 1).0
    && StringMember(challenge, "url").Success?
    && var sent := SignedRequest(ctx, st, StringMember(challenge, "url").value, Body(JObject(map[]))).0;
       sent.Success? && TriggerOutcome(sent.value).Success?
  }

  /** The session state once the trigger's request has been sent. */
  function Triggered(ctx: Context, st: State, url: string): State {
    SignedRequest(ctx, st, url, Body(JObject(map[]))).1
  }

  lemma TriggerAcceptedTraceFree(ctx: Context, st: State, t: seq<Event>, challenge: Json, name: string, digest: string, ttl: real, txt: seq<TxtAnswer>)
    ensures TriggerAccepted(ctx, st.(trace := t), challenge, name, digest, ttl, txt) == TriggerAccepted(ctx, st, challenge, name, digest, ttl, txt)
  {
    if StringMember(challenge, "url").Success? {
      SignedRequestTraceFree(ctx, st, t, StringMember(challenge, "url").value, Body(JObject(map[])));
    }
  }

  /** Neither does what the challenge's poll returns once it is triggered. */
  lemma ValidateTraceFree(ctx: Context, st: State, t: seq<Event>, domain: string, challenge: Json, name: string, digest: string, ttl: real, txt: seq<TxtAnswer>)
    ensures TriggerAccepted(ctx, st.(trace := t), challenge, name, digest, ttl, txt) == TriggerAccepted(ctx, st, challenge, name, digest, ttl, txt)
    ensures StringMember(challenge, "url").Success? ==>
              var url := StringMember(challenge, "url").value;
              ChallengePoll(ctx, Triggered(ctx, st.(trace := t), url), url, domain).0 == ChallengePoll(ctx, Triggered(ctx, st, url), url, domain).0
  {
    TriggerAcceptedTraceFree(ctx, st, t, challenge, name, digest, ttl, txt);
    if StringMember(challenge, "url").Success? {
      var url := StringMember(challenge, "url").value;
      var a := Triggered(ctx, st.(trace := t), url);
      var b := Triggered(ctx, st, url);
      SignedRequestTraceFree(ctx, st, t, url, Body(JObject(map[])));
      assert a == b.(trace := a.trace);
      ChallengePollTraceFree(ctx, b, a.trace, url, domain);
    }
  }

  /** The session state `st` after lines 296-326; see `Trigger`. */
  function Triggering(ctx: Context, st: State, challenge: Json, name: string, digest: string, ttl: real, txt: seq<TxtAnswer>)
    : (out: (Result<string, Error>, State))
  {
    var checked := Checks(name, digest, ttl, txt, 1);
    var st1 := st.(trace := st.trace + [Sleep(ttl)] + checked.1);
    if !checked.0 then (Failure(ChallengeNotVisible(digest)), st1)
    else match StringMember(challenge, "url")
      case Failure(e) => (Failure(e), st1)
      case Success(url) =>
        var (sent, st2) := SignedRequest(ctx, st1, url, Body(JObject(map[])));
        if sent.Failure? then (Failure(sent.error), st2)
        else if TriggerOutcome(sent.value).Failure? then (Failure(TriggerOutcome(sent.value).error), st2)
        else (Success(url), st2)
  }

  /** The trigger goes through exactly when `TriggerAccepted` holds, and
      then yields the challenge's `url`. */
  lemma TriggeringAccepted(ctx: Context, st: State, challenge: Json, name: string, digest: string, ttl: real, txt: seq<TxtAnswer>)
    ensures var out := Triggering(ctx, st, challenge, name, digest, ttl, txt);
            && (out.0.Success? <==> TriggerAccepted(ctx, st, challenge, name, digest, ttl, txt))
            && (out.0.Success? ==> StringMember(challenge, "url") == Success(out.0.value))
  {
    var checked := Checks(name, digest, ttl, txt, 1);
    var st1 := st.(trace := st.trace + [Sleep(ttl)] + checked.1);
    if checked.0 && StringMember(challenge, "url").Success? {
      SignedRequestTraceFree(ctx, st, st1.trace, StringMember(challenge, "url").value, Body(JObject(map[])));
      assert st.(trace := st1.trace) == st1;
    }
  }

  /** Lines 296-326: the self-check, then the request that asks the CA to
      validate the challenge; the result is the challenge's URL. */
  method Trigger(s: AcmeSession, challenge: Json, name: string, digest: string, ttl: real, txt: seq<TxtAnswer>)
    returns (r: Result<string, Error>)
    requires s.signature.kid.Some?
    modifies s
    ensures s.signature == old(s.signature) && Quiet(old(s.trace), s.trace, s.ctx.newAccountUrl)
    ensures r.Failure? ==> BeforeCleanup(r.error)
    ensures !Checks(name, digest, ttl, txt, 1).0 ==> r == Failure(ChallengeNotVisible(digest))
    ensures r.Success? ==> StringMember(challenge, "url") == Success(r.value)
    ensures r.Success? <==> TriggerAccepted(s.ctx, old(s.Snapshot()), challenge, name, digest, ttl, txt)
    ensures r.Success? ==> s.nonce == Triggered(s.ctx, old(s.Snapshot()), r.value).nonce
                           && s.wires == Triggered(s.ctx, old(s.Snapshot()), r.value).wires
    ensures Suffix(s.wires, old(s.wires))
    ensures (r, s.Snapshot()) == Triggering(s.ctx, old(s.Snapshot()), challenge, name, digest, ttl, txt)
  {
    ghost var start := s.Snapshot();
    ghost var before := s.trace;
    var seen := RunSelfCheck(s, name, digest, ttl, txt);
    SelfCheckQuiet(before, name, digest, ttl, txt, s.ctx.newAccountUrl);
    if seen.Failure? {
      return Failure(seen.error);
    }
    var url := StringMember(challenge, "url");
    if url.Failure? {
      return Failure(url.error);
    }
    ghost var beforeTrigger := s.Snapshot();
    assert beforeTrigger == start.(trace := beforeTrigger.trace);
    SignedRequestTraceFree(s.ctx, start, beforeTrigger.trace, url.value, Body(JObject(map[])));
    var triggered := s.Send(url.value, Body(JObject(map[])));
    QuietStep(beforeTrigger, s.Snapshot(), s.ctx.newAccountUrl);
    if triggered.Failure? {
      return Failure(triggered.error);
    }
    var accepted := TriggerOutcome(triggered.value);
    if accepted.Failure? {
      return Failure(accepted.error);
    }
    r := Success(url.value);
  }

  /** The session state `st` after lines 328-343: the outcome, whether the
      delete went through, and the state; see `PollThenRemove`. */
  function Removing(ctx: Context, st: State, url: string, domain: string, name: string, value: string, zone: Option<Authority>)
    : (out: (Result<(), Error>, bool, State))
  {
    var (polled, st1) := ChallengePoll(ctx, st, url, domain);
    var (deleted, st2) := Updating(st1, Delete, name, value, zone);
    (if deleted.Success? then polled else deleted, deleted.Success?, st2)
  }

  /** The poll always runs, and the delete after it: the record is removed
      exactly when the zone's servers were found and one of them answers,
      the outcome is then the poll's, and otherwise the delete's error. */
  lemma RemovingOutcome(ctx: Context, st: State, url: string, domain: string, name: string, value: string, zone: Option<Authority>)
    ensures var out := Removing(ctx, st, url, domain, name, value, zone);
            var polled := ChallengePoll(ctx, st, url, domain);
            && (out.1 <==> zone.Some? && Reachable(zone.value))
            && (out.1 ==> out.0 == polled.0)
            && (!out.1 ==> out.0 == Failure(if zone.None? then ResolverFailed else DnsUpdateFailed(Delete, name)))
            && out.2.nonce == polled.1.nonce && out.2.wires == polled.1.wires
            && (zone.Some? <==> |out.2.trace| == |polled.1.trace| + 1)
  {
    UpdatingOutcome(ChallengePoll(ctx, st, url, domain).1, Delete, name, value, zone);
  }

  /** Lines 328-343: the challenge is polled inside a `try` whose `finally`
      clause deletes the record; an error of the delete replaces the poll's
      outcome. */
  method PollThenRemove(s: AcmeSession, url: string, domain: string, name: string, value: string, zone: Option<Authority>, ghost add: Event)
    returns (r: Result<(), Error>, ghost removal: seq<Event>, removed: bool)
    requires s.signature.kid.Some?
    requires IsUpdate(add, Add, true) && add.name == name && add.value == value
    modifies s
    ensures s.signature == old(s.signature)
    ensures Updates(s.trace) == Updates(old(s.trace)) + removal
    ensures AllKeyedOnce(old(s.trace), s.ctx.newAccountUrl) ==> AllKeyedOnce(s.trace, s.ctx.newAccountUrl)
    ensures removed ==> r == ChallengePoll(s.ctx, old(s.Snapshot()), url, domain).0
    ensures !removed ==> r.Failure? && (r.error == DnsUpdateFailed(Delete, name) || r.error == ResolverFailed)
    ensures removal == [] || (|removal| == 1 && IsUpdate(removal[0], Delete, removed)
                              && removal[0].name == name && removal[0].value == value)
    ensures removed ==> removal != []
    ensures Matches(if removed then Removed else RemovalFailed, [add] + removal)
            && Settled(r, if removed then Removed else RemovalFailed)
    ensures Suffix(s.wires, old(s.wires)) && (r.Success? ==> EndsConfirmed(old(s.wires), s.wires))
    ensures (r, removed, s.Snapshot()) == Removing(s.ctx, old(s.Snapshot()), url, domain, name, value, zone)
  {
    ghost var beforePoll := s.Snapshot();
    ChallengePollConfirmed(s.ctx, beforePoll, url, domain);
    r := PollChallenge(s, url, domain);
    QuietStep(beforePoll, s.Snapshot(), s.ctx.newAccountUrl);
    ghost var beforeDelete := s.trace;
    var deleted, tried := Apply(s, Delete, name, value, zone);
    removal := if zone.Some? then [Update(Delete, name, value, tried, deleted.Success?)] else [];
    UpdatesAppend(beforeDelete, removal);
    assert s.trace == beforeDelete + removal;
    removed := deleted.Success?;
    if !removed {
      r := deleted;
    }
  }

  /** What the record of one authorization's challenge leaves behind, and
      the outcome it allows. */
  predicate Settled(r: Result<(), Error>, reach: Reach) {
    && (r.Success? ==> reach.Untouched? || reach.Removed?)
    && (reach.AddRejected? || reach.Stranded? || reach.RemovalFailed? ==> r.Failure?)
    && (reach.Stranded? ==> BeforeCleanup(r.error))
    && (reach.RemovalFailed? ==> r.error.DnsUpdateFailed? || r.error == ResolverFailed)
  }

  /** The TXT record's name: `_acme-challenge.<domain>.`, or the CNAME
      target found for it (lines 277-287). */
  function RecordName(domain: string, view: DnsView): (name: string)
    ensures view.cname.None? ==> name == ChallengeRecordName(domain)
  {
    if view.cname.Some? then view.cname.value else ChallengeRecordName(domain)
  }

  /** What decided the reach of a challenge begun on session state `st`:
      the record stays only when the self-check, the challenge's `url` or
      the trigger failed; it is deleted only after the trigger went
      through, and then the outcome is the poll's unless the delete
      failed. */
  predicate Reached(ctx: Context, st: State, domain: string, challenge: Json, name: string, digest: string, ttl: real, txt: seq<TxtAnswer>,
                    r: Result<(), Error>, reach: Reach) {
    && (reach.Stranded? ==> !TriggerAccepted(ctx, st, challenge, name, digest, ttl, txt))
    && (reach.Removed? || reach.RemovalFailed? ==> TriggerAccepted(ctx, st, challenge, name, digest, ttl, txt))
    && (reach.Removed? ==>
          var url := StringMember(challenge, "url").value;
          r == ChallengePoll(ctx, Triggered(ctx, st, url), url, domain).0)
  }

  /** The session state `st` after lines 296-343; see `Validate`. */
  function Validation(ctx: Context, st: State, domain: string, challenge: Json, name: string, value: string, digest: string, ttl: real,
                      view: DnsView): (out: (Result<(), Error>, Reach, State))
  {
    var (url, st1) := Triggering(ctx, st, challenge, name, digest, ttl, view.txt);
    if url.Failure? then (Failure(url.error), Stranded, st1)
    else
      var (r, removed, st2) := Removing(ctx, st1, url.value, domain, name, value, view.deleteZone);
      (r, if removed then Removed else RemovalFailed, st2)
  }

  /** Validation stops at the trigger exactly when the CA did not accept it,
      judged from any session that differs only in its trace, and a removal
      answers with the poll of the triggered challenge. */
  lemma ValidationReached(ctx: Context, st: State, origin: State, domain: string, challenge: Json, name: string, value: string,
                          digest: string, ttl: real, view: DnsView)
    requires st == origin.(trace := st.trace)
    ensures var out := Validation(ctx, st, domain, challenge, name, value, digest, ttl, view);
            && (out.1.Stranded? || out.1.Removed? || out.1.RemovalFailed?)
            && (out.1.Stranded? <==> !TriggerAccepted(ctx, origin, challenge, name, digest, ttl, view.txt))
            && Reached(ctx, origin, domain, challenge, name, digest, ttl, view.txt, out.0, out.1)
  {
    ValidateTraceFree(ctx, origin, st.trace, domain, challenge, name, digest, ttl, view.txt);
    TriggeringAccepted(ctx, st, challenge, name, digest, ttl, view.txt);
    var (url, st1) := Triggering(ctx, st, challenge, name, digest, ttl, view.txt);
    if url.Success? {
      var triggered := Triggered(ctx, origin, url.value);
      var checked := Checks(name, digest, ttl, view.txt, 1);
      SignedRequestTraceFree(ctx, origin, st.trace + [Sleep(ttl)] + checked.1, url.value, Body(JObject(map[])));
      assert st1 == triggered.(trace := st1.trace);
      ChallengePollTraceFree(ctx, triggered, st1.trace, url.value, domain);
      RemovingOutcome(ctx, st1, url.value, domain, name, value, view.deleteZone);
    }
  }

  /** Lines 296-343, once the record is installed: check it, trigger and
      poll the challenge, and delete the record. `reach` is Stranded,
      Removed or RemovalFailed, and `removal` the delete it sent after the
      accepted `add`; `origin` is the session before the add, which differs
      only in its trace. */
  method Validate(s: AcmeSession, domain: string, challenge: Json, name: string, value: string, digest: string, ttl: real, view: DnsView,
                  ghost origin: State, ghost add: Event)
    returns (r: Result<(), Error>, reach: Reach, ghost removal: seq<Event>)
    requires s.signature.kid.Some?
    requires s.nonce == origin.nonce && s.signature == origin.signature && s.wires == origin.wires
    requires IsUpdate(add, Add, true) && add.name == name && add.value == value
    modifies s
    ensures s.signature == old(s.signature)
    ensures Updates(s.trace) == Updates(old(s.trace)) + removal
    ensures AllKeyedOnce(old(s.trace), s.ctx.newAccountUrl) ==> AllKeyedOnce(s.trace, s.ctx.newAccountUrl)
    ensures reach.Stranded? || reach.Removed? || reach.RemovalFailed?
    ensures reach.Stranded? <==> !TriggerAccepted(s.ctx, origin, challenge, name, digest, ttl, view.txt)
    ensures Reached(s.ctx, origin, domain, challenge, name, digest, ttl, view.txt, r, reach)
    ensures Matches(reach, [add] + removal) && Settled(r, reach)
    ensures Suffix(s.wires, origin.wires) && (r.Success? ==> EndsConfirmed(origin.wires, s.wires))
    ensures (r, reach, s.Snapshot()) == Validation(s.ctx, old(s.Snapshot()), domain, challenge, name, value, digest, ttl, view)
  {
    ghost var first := s.Snapshot();
    assert first == origin.(trace := first.trace);
    ValidationReached(s.ctx, first, origin, domain, challenge, name, value, digest, ttl, view);
    var url := Trigger(s, challenge, name, digest, ttl, view.txt);
    if url.Failure? {
      return Failure(url.error), Stranded, [];
    }
    ghost var beforePoll := s.Snapshot();
    var polled, removed;
    polled, removal, removed := PollThenRemove(s, url.value, domain, name, value, view.deleteZone, add);
    SuffixTrans(first.wires, beforePoll.wires, s.wires);
    if polled.Success? {
      EndsConfirmedWiden(first.wires, beforePoll.wires, s.wires);
    }
    return polled, if removed then Removed else RemovalFailed, removal;
  }

  /** The session state `st` after lines 288-343; see `MeetChallenge`. */
  function Meeting(ctx: Context, st: State, domain: string, challenge: Json, name: string, digest: string, ttl: real, view: DnsView)
    : (out: (Result<(), Error>, Reach, State))
  {
    var value := TxtValue(digest);
    var (added, st1) := Updating(st, Add, name, value, view.addZone);
    if view.addZone.None? then (added, Untouched, st1)
    else if added.Failure? then (added, AddRejected, st1)
    else Validation(ctx, st1, domain, challenge, name, value, digest, ttl, view)
  }

  /** How far a challenge's record gets is decided by the DNS and the CA:
      no update without the add zone's servers; a rejected add when none of
      them answers; a record left in place when the trigger is not
      accepted; and otherwise the delete, which goes through exactly when
      one of the delete zone's servers answers. Only a removed record
      allows success. */
  lemma MeetingReach(ctx: Context, st: State, domain: string, challenge: Json, name: string, digest: string, ttl: real, view: DnsView)
    ensures var out := Meeting(ctx, st, domain, challenge, name, digest, ttl, view);
            var added := view.addZone.Some? && Reachable(view.addZone.value);
            var accepted := TriggerAccepted(ctx, st, challenge, name, digest, ttl, view.txt);
            && (out.1.Untouched? <==> view.addZone.None?)
            && (out.1.Untouched? ==> out.0 == Failure(DnsRecordsNotUpdated) && out.2 == st)
            && (out.1.AddRejected? <==> view.addZone.Some? && !added)
            && (out.1.AddRejected? ==> out.0 == Failure(DnsUpdateFailed(Add, name)))
            && (out.1.Stranded? <==> added && !accepted)
            && (out.1.Removed? <==> added && accepted && view.deleteZone.Some? && Reachable(view.deleteZone.value))
            && (out.0.Success? ==> out.1.Removed?)
  {
    var value := TxtValue(digest);
    UpdatingOutcome(st, Add, name, value, view.addZone);
    var st1 := Updating(st, Add, name, value, view.addZone).1;
    if view.addZone.Some? && Reachable(view.addZone.value) {
      TriggerAcceptedTraceFree(ctx, st, st1.trace, challenge, name, digest, ttl, view.txt);
      assert st.(trace := st1.trace) == st1;
      TriggeringAccepted(ctx, st1, challenge, name, digest, ttl, view.txt);
      var url := Triggering(ctx, st1, challenge, name, digest, ttl, view.txt);
      if url.0.Success? {
        RemovingOutcome(ctx, url.1, url.0.value, domain, name, value, view.deleteZone);
      }
    }
  }

  /** Lines 288-343 for one pending authorization: install the record
      `name` holding the quoted `digest`, check it, trigger and poll the
      challenge, and delete the record. */
  method MeetChallenge(s: AcmeSession, domain: string, challenge: Json, name: string, digest: string, ttl: real, view: DnsView)
    returns (r: Result<(), Error>, reach: Reach, ghost block: seq<Event>)
    requires s.signature.kid.Some?
    modifies s
    ensures s.signature == old(s.signature)
    ensures Updates(s.trace) == Updates(old(s.trace)) + block && Matches(reach, block)
    ensures AllKeyedOnce(old(s.trace), s.ctx.newAccountUrl) ==> AllKeyedOnce(s.trace, s.ctx.newAccountUrl)
    ensures Settled(r, reach)
    ensures Reached(s.ctx, old(s.Snapshot()), domain, challenge, name, digest, ttl, view.txt, r, reach)
    ensures Suffix(s.wires, old(s.wires)) && (r.Success? ==> EndsConfirmed(old(s.wires), s.wires))
    ensures (r, reach, s.Snapshot()) == Meeting(s.ctx, old(s.Snapshot()), domain, challenge, name, digest, ttl, view)
  {
    ghost var first := s.Snapshot();
    ghost var start := s.trace;
    var value := TxtValue(digest);
    var added, tried := Apply(s, Add, name, value, view.addZone);
    if view.addZone.None? {
      return added, Untouched, [];
    }
    ghost var add := Update(Add, name, value, tried, added.Success?);
    UpdatesRecorded(start, add);
    if added.Failure? {
      return added, AddRejected, [add];
    }
    ghost var removal;
    r, reach, removal := Validate(s, domain, challenge, name, value, digest, ttl, view, first, add);
    UpdatesRecordedThen(start, add, removal, s.trace);
    block := [add] + removal;
  }

  /** Line 275: the digest the TXT record carries, the base64url SHA-256 of
      the key authorization. */
  function ChallengeDigest(p: Primitives, token: string, thumbprint: string): string {
    Base64Url(p.b64, p.sha256(p.utf8(KeyAuthorization(token, thumbprint))))
  }

  /** The authorization at `authz`, fetched on session state `st`, called
      for its dns-01 challenge, and `Reached` holds of the challenge from
      the state the fetch left. */
  predicate Challenged(ctx: Context, st: State, authz: string, thumbprint: string, ttl: real, dns: string -> DnsView,
                       r: Result<(), Error>, reach: Reach) {
    var sent := SignedRequest(ctx, st, authz, PostAsGet);
    && sent.0.Success? && AuthorizationPlan(sent.0.value).Success?
    && var plan := AuthorizationPlan(sent.0.value).value;
       && plan.MeetChallenge?
       && var view := dns(plan.domain);
          Reached(ctx, sent.1, plan.domain, plan.challenge, RecordName(plan.domain, view),
                  ChallengeDigest(ctx.prims, plan.token, thumbprint), ttl, view.txt, r, reach)
  }

  /** The session state `st` after lines 255-343; see
      `ProcessAuthorization`. */
  function Authorization(ctx: Context, st: State, authz: string, thumbprint: string, ttl: real, dns: string -> DnsView)
    : (out: (Result<(), Error>, Reach, State))
  {
    var (sent, st1) := SignedRequest(ctx, st, authz, PostAsGet);
    if sent.Failure? then (Failure(sent.error), Untouched, st1)
    else match AuthorizationPlan(sent.value)
      case Failure(e) => (Failure(e), Untouched, st1)
      case Success(plan) =>
        if plan.AlreadyValid? then (Success(()), Untouched, st1)
        else
          var view := dns(plan.domain);
          Meeting(ctx, st1, plan.domain, plan.challenge, RecordName(plan.domain, view),
                  ChallengeDigest(ctx.prims, plan.token, thumbprint), ttl, view)
  }

  /** An authorization succeeds without touching the DNS exactly when the
      CA reports it valid already; any other success removed the record of
      its first dns-01 challenge, and any DNS update at all belongs to that
      challenge, with `MeetingReach` deciding how far it got. */
  lemma AuthorizationOutcome(ctx: Context, st: State, authz: string, thumbprint: string, ttl: real, dns: string -> DnsView)
    ensures var out := Authorization(ctx, st, authz, thumbprint, ttl, dns);
            var sent := SignedRequest(ctx, st, authz, PostAsGet);
            var plan := if sent.0.Success? then AuthorizationPlan(sent.0.value) else Failure(sent.0.error);
            && (out.0.Success? && out.1.Untouched? <==> plan.Success? && plan.value.AlreadyValid?)
            && (out.0.Success? ==> out.1.Untouched? || out.1.Removed?)
            && (plan.Failure? ==> out == (Failure(plan.error), Untouched, sent.1))
            && (plan.Success? && plan.value.MeetChallenge? ==>
                  var view := dns(plan.value.domain);
                  out == Meeting(ctx, sent.1, plan.value.domain, plan.value.challenge, RecordName(plan.value.domain, view),
                                 ChallengeDigest(ctx.prims, plan.value.token, thumbprint), ttl, view))
  {
    var sent := SignedRequest(ctx, st, authz, PostAsGet);
    if sent.0.Success? && AuthorizationPlan(sent.0.value).Success? {
      var plan := AuthorizationPlan(sent.0.value).value;
      if plan.MeetChallenge? {
        var view := dns(plan.domain);
        MeetingReach(ctx, sent.1, plan.domain, plan.challenge, RecordName(plan.domain, view),
                     ChallengeDigest(ctx.prims, plan.token, thumbprint), ttl, view);
      }
    }
  }

  /** Lines 255-343 for one authorization URL. */
  method ProcessAuthorization(s: AcmeSession, authz: string, thumbprint: string, ttl: real, dns: string -> DnsView)
    returns (r: Result<(), Error>, reach: Reach, ghost block: seq<Event>)
    requires s.signature.kid.Some?
    modifies s
    ensures s.signature == old(s.signature)
    ensures Updates(s.trace) == Updates(old(s.trace)) + block && Matches(reach, block)
    ensures AllKeyedOnce(old(s.trace), s.ctx.newAccountUrl) ==> AllKeyedOnce(s.trace, s.ctx.newAccountUrl)
    ensures Settled(r, reach)
    ensures reach.Stranded? || reach.Removed? || reach.RemovalFailed? ==>
              Challenged(s.ctx, old(s.Snapshot()), authz, thumbprint, ttl, dns, r, reach)
    ensures Suffix(s.wires, old(s.wires)) && (r.Success? ==> EndsConfirmed(old(s.wires), s.wires))
    ensures (r, reach, s.Snapshot()) == Authorization(s.ctx, old(s.Snapshot()), authz, thumbprint, ttl, dns)
  {
    var plan := FetchPlan(s, authz);
    if plan.Failure? {
      return Failure(plan.error), Untouched, [];
    }
    if plan.value.AlreadyValid? {
      return Success(()), Untouched, [];
    }
    var domain := plan.value.domain;
    var digest := ChallengeDigest(s.ctx.prims, plan.value.token, thumbprint);
    var view := dns(domain);
    ghost var fetched := s.wires;
    r, reach, block := MeetChallenge(s, domain, plan.value.challenge, RecordName(domain, view), digest, ttl, view);
    SuffixTrans(old(s.wires), fetched, s.wires);
    if r.Success? {
      EndsConfirmedWiden(old(s.wires), fetched, s.wires);
    }
  }

  /** `marks` are increasing positions in `origin`, among the wires used
      before `rest`, of replies that confirm something valid. */
  ghost predicate Marked(origin: seq<Wire>, rest: seq<Wire>, marks: seq<nat>) {
    Suffix(rest, origin) && MarksBelow(origin, |origin| - |rest|, marks)
  }

  /** `marks` increase, stay below `bound` and each confirms. */
  ghost predicate MarksBelow(origin: seq<Wire>, bound: int, marks: seq<nat>)
    decreases |marks|
  {
    marks == [] ||
    var m := marks[|marks| - 1];
    && m < bound && m < |origin| && Confirms(origin[m])
    && MarksBelow(origin, m, marks[..|marks| - 1])
  }

  /** Each mark lies below the bound and confirms, and the marks increase. */
  lemma {:induction false} MarksBelowMeans(origin: seq<Wire>, bound: int, marks: seq<nat>)
    requires MarksBelow(origin, bound, marks)
    ensures forall k :: 0 <= k < |marks| ==> marks[k] < bound && marks[k] < |origin| && Confirms(origin[marks[k]])
    ensures forall j, k :: 0 <= j < k < |marks| ==> marks[j] < marks[k]
    decreases |marks|
  {
    if marks != [] {
      var m := marks[|marks| - 1];
      var init := marks[..|marks| - 1];
      MarksBelowMeans(origin, m, init);
      assert forall k :: 0 <= k < |init| ==> marks[k] == init[k];
    }
  }

  /** A larger bound keeps the marks. */
  lemma MarksBelowWiden(origin: seq<Wire>, bound: int, bound': int, marks: seq<nat>)
    requires MarksBelow(origin, bound, marks) && bound <= bound'
    ensures MarksBelow(origin, bound', marks)
  {
  }

  /** Using more wires keeps the marks, and a stretch that ends confirmed
      adds the position of its confirmation. */
  lemma MarkedExtend(origin: seq<Wire>, before: seq<Wire>, after: seq<Wire>, marks: seq<nat>, confirmed: bool)
    returns (marks': seq<nat>)
    requires Marked(origin, before, marks) && Suffix(after, before)
    requires confirmed ==> EndsConfirmed(before, after)
    ensures Marked(origin, after, marks')
    ensures marks' == if confirmed then marks + [|origin| - |after| - 1] else marks
  {
    SuffixTrans(origin, before, after);
    MarksBelowWiden(origin, |origin| - |before|, |origin| - |after|, marks);
    marks' := marks;
    if confirmed {
      var m := |origin| - |after| - 1;
      assert origin[m] == before[|before| - |after| - 1] by {
        assert before == origin[|origin| - |before|..];
      }
      MarksBelowWiden(origin, |origin| - |before|, m, marks);
      marks' := marks + [m];
      assert marks'[..|marks'| - 1] == marks;
    }
  }

  /** One turn of the loop of lines 249-343 as a value: an entry that is
      not a string fails before anything is sent; otherwise the authorization
      is processed as `Authorization` says. */
  function AuthorizingOne(ctx: Context, st: State, authz: Json, thumbprint: string, ttl: real, dns: string -> DnsView)
    : (Result<(), Error>, State)
  {
    if !authz.JString? then (Failure(WrongType), st)
    else
      var out := Authorization(ctx, st, authz.s, thumbprint, ttl, dns);
      (out.0, out.2)
  }

  /** `AuthorizingOne` with everything but the state and the entry fixed. */
  function Pass(ctx: Context, thumbprint: string, ttl: real, dns: string -> DnsView): (State, Json) -> (Result<(), Error>, State)
  {
    (st, authz) => AuthorizingOne(ctx, st, authz, thumbprint, ttl, dns)
  }

  /** Passes run one after the other from `st`, stopping at the first that
      fails and answering with its result. */
  function Passes<S, A, E>(step: (S, A) -> (Result<(), E>, S), st: S, xs: seq<A>): (Result<(), E>, S)
    decreases |xs|
  {
    if xs == [] then (Success(()), st)
    else
      var first := step(st, xs[0]);
      if first.0.Failure? then first else Passes(step, first.1, xs[1..])
  }

  /** The run fails only through a pass that fails after every earlier one
      succeeded, and it answers with that pass's result and state; a run
      that succeeds saw every pass succeed. */
  lemma {:induction false} PassesOutcome<S, A, E>(step: (S, A) -> (Result<(), E>, S), st: S, xs: seq<A>)
    ensures var out := Passes(step, st, xs);
            && (out.0.Success? ==> forall k :: 0 <= k < |xs| ==>
                  step(Passes(step, st, xs[..k]).1, xs[k]).0.Success?)
            && (out.0.Failure? ==>
                  exists k :: 0 <= k < |xs| && Passes(step, st, xs[..k]).0.Success? &&
                              out == step(Passes(step, st, xs[..k]).1, xs[k]))
    decreases |xs|
  {
    if xs != [] {
      var first := step(st, xs[0]);
      assert Passes(step, st, xs[..0]) == (Success(()), st) by { assert xs[..0] == []; }
      if first.0.Success? {
        var rest := xs[1..];
        PassesOutcome(step, first.1, rest);
        forall k | 1 <= k <= |xs|
          ensures Passes(step, st, xs[..k]) == Passes(step, first.1, rest[..k - 1])
        {
          assert xs[..k][0] == xs[0] && xs[..k][1..] == rest[..k - 1];
        }
        var out := Passes(step, first.1, rest);
        if out.0.Success? {
          forall k | 0 <= k < |xs|
            ensures step(Passes(step, st, xs[..k]).1, xs[k]).0.Success?
          {
            if k > 0 {
              assert xs[k] == rest[k - 1];
            }
          }
        } else {
          var k' :| 0 <= k' < |rest| && Passes(step, first.1, rest[..k']).0.Success? &&
                    out == step(Passes(step, first.1, rest[..k']).1, rest[k']);
          assert xs[k' + 1] == rest[k'];
          assert Passes(step, st, xs[..k' + 1]) == Passes(step, first.1, rest[..k']);
        }
      }
    }
  }

  /** Lines 249-343 as a value: the authorizations of the order, each a
      `Pass`. The status is read before each pass and cannot change, so a
      non-empty list meets it once: an unreadable status fails, and `ready`
      skips the authorizations altogether. */
  function OrderAuthorization(ctx: Context, st: State, order: Json, thumbprint: string, ttl: real, dns: string -> DnsView)
    : (Result<(), Error>, State)
  {
    var authzs := ArrayMember(order, "authorizations");
    var status := Member(order, "status");
    if authzs.Failure? then (Failure(authzs.error), st)
    else if authzs.value == [] then (Success(()), st)
    else if status.Failure? then (Failure(status.error), st)
    else if status.value == JString("ready") then (Success(()), st)
    else Passes(Pass(ctx, thumbprint, ttl, dns), st, authzs.value)
  }

  /** The state changes only when an order that is not `ready` has
      authorizations to run; then the order fails only through a pass that
      fails after every earlier pass succeeded, and succeeds only when every
      pass did. */
  lemma OrderAuthorizationOutcome(ctx: Context, st: State, order: Json, thumbprint: string, ttl: real, dns: string -> DnsView)
    ensures var out := OrderAuthorization(ctx, st, order, thumbprint, ttl, dns);
            var authzs := ArrayMember(order, "authorizations");
            var status := Member(order, "status");
            var runs := authzs.Success? && authzs.value != [] && status.Success? && status.value != JString("ready");
            && (!runs ==> out.1 == st && (out.0.Success? <==> authzs.Success? && (authzs.value == [] || status.Success?)))
            && (runs && out.0.Success? ==> forall k :: 0 <= k < |authzs.value| ==>
                  Pass(ctx, thumbprint, ttl, dns)(Passes(Pass(ctx, thumbprint, ttl, dns), st, authzs.value[..k]).1, authzs.value[k]).0.Success?)
            && (runs && out.0.Failure? ==>
                  exists k :: 0 <= k < |authzs.value| &&
                              Passes(Pass(ctx, thumbprint, ttl, dns), st, authzs.value[..k]).0.Success? &&
                              out == Pass(ctx, thumbprint, ttl, dns)(Passes(Pass(ctx, thumbprint, ttl, dns), st, authzs.value[..k]).1, authzs.value[k]))
  {
    var authzs := ArrayMember(order, "authorizations");
    if authzs.Success? {
      PassesOutcome(Pass(ctx, thumbprint, ttl, dns), st, authzs.value);
    }
  }

  /** One turn of the loop of lines 249-343: the entry must be a URL. On
      success the DNS is clean and one more confirmation is marked; on
      failure at most this authorization's record lacks an answered delete. */
  method AuthorizeOne(s: AcmeSession, authz: Json, thumbprint: string, ttl: real, dns: string -> DnsView,
                      ghost origin: seq<Wire>, ghost marks: seq<nat>)
    returns (r: Result<(), Error>, ghost marks': seq<nat>)
    requires s.signature.kid.Some? && Clean(Updates(s.trace)) && Marked(origin, s.wires, marks)
    modifies s
    ensures s.signature == old(s.signature)
    ensures AllKeyedOnce(old(s.trace), s.ctx.newAccountUrl) ==> AllKeyedOnce(s.trace, s.ctx.newAccountUrl)
    ensures Marked(origin, s.wires, marks')
    ensures r.Success? ==> Clean(Updates(s.trace)) && |marks'| == |marks| + 1
    ensures AtMostOneLeft(Updates(s.trace))
    ensures (r, s.Snapshot()) == Pass(s.ctx, thumbprint, ttl, dns)(old(s.Snapshot()), authz)
  {
    if !authz.JString? {
      return Failure(WrongType), marks;
    }
    ghost var before := Updates(s.trace);
    ghost var wires := s.wires;
    var reach;
    ghost var block;
    r, reach, block := ProcessAuthorization(s, authz.s, thumbprint, ttl, dns);
    marks' := MarkedExtend(origin, wires, s.wires, marks, r.Success?);
    LeaveOne(before, reach, block);
    if r.Success? {
      CleanExtend(before, reach, block);
    }
  }

  /** Lines 249-343: the authorizations of the order, skipped altogether
      when the order is already ready. `marks` are the positions, among the
      wires this uses, of the replies that found each authorization valid
      or its challenge validated, one per authorization and in order. */
  method Authorize(s: AcmeSession, order: Json, thumbprint: string, ttl: real, dns: string -> DnsView)
    returns (r: Result<(), Error>, ghost marks: seq<nat>)
    requires s.signature.kid.Some? && Clean(Updates(s.trace))
    modifies s
    ensures s.signature == old(s.signature)
    ensures AllKeyedOnce(old(s.trace), s.ctx.newAccountUrl) ==> AllKeyedOnce(s.trace, s.ctx.newAccountUrl)
    ensures AtMostOneLeft(Updates(s.trace))
    ensures r.Success? ==> Clean(Updates(s.trace))
    ensures Member(order, "status") == Success(JString("ready")) && ArrayMember(order, "authorizations").Success?
            ==> r.Success? && s.Snapshot() == old(s.Snapshot())
    ensures Marked(old(s.wires), s.wires, marks)
    ensures r.Success? && Member(order, "status") != Success(JString("ready")) ==>
              ArrayMember(order, "authorizations").Success? && |marks| == |ArrayMember(order, "authorizations").value|
    ensures (r, s.Snapshot()) == OrderAuthorization(s.ctx, old(s.Snapshot()), order, thumbprint, ttl, dns)
  {
    marks := [];
    assert old(s.wires)[|old(s.wires)| - |s.wires|..] == s.wires;
    var authzs := ArrayMember(order, "authorizations");
    if authzs.Failure? {
      return Failure(authzs.error), marks;
    }
    var i := 0;
    while i < |authzs.value|
      invariant 0 <= i <= |authzs.value|
      invariant Marked(old(s.wires), s.wires, marks)
      invariant Member(order, "status") != Success(JString("ready")) ==> |marks| == i
      invariant s.signature == old(s.signature)
      invariant AllKeyedOnce(old(s.trace), s.ctx.newAccountUrl) ==> AllKeyedOnce(s.trace, s.ctx.newAccountUrl)
      invariant Clean(Updates(s.trace))
      invariant i == 0 ==> s.Snapshot() == old(s.Snapshot())
      invariant Member(order, "status").Success? && Member(order, "status").value != JString("ready") ==>
                  Passes(Pass(s.ctx, thumbprint, ttl, dns), s.Snapshot(), authzs.value[i..]) ==
                  Passes(Pass(s.ctx, thumbprint, ttl, dns), old(s.Snapshot()), authzs.value)
      invariant Member(order, "status").Failure? || Member(order, "status").value == JString("ready") ==> i == 0
    {
      var status := Member(order, "status");
      if status.Failure? {
        return Failure(status.error), marks;
      }
      if status.value == JString("ready") {
        break;
      }
      var res;
      res, marks := AuthorizeOne(s, authzs.value[i], thumbprint, ttl, dns, old(s.wires), marks);
      if res.Failure? {
        return res, marks;
      }
      assert authzs.value[i..][1..] == authzs.value[i + 1..];
      i := i + 1;
    }
    return Success(()), marks;
  }
}
