/** `_send_signed_request` (lines 92-129) and the state it shares with
    `get_crt`: the held nonce (section 6.5 of RFC 8555), the signature
    template, and the record of what the client did. The network is a
    stream of `Wire`s, one per signed request. */
module Session {
  import opened Wrappers
  import opened Messages
  import opened Jws

  /** What the network does for one signed request: the `Replay-Nonce` a
      `newNonce` GET would return (None when the GET fails or the header is
      missing) and the reply to the POST (None when no response arrives). */
  datatype Wire = Wire(fetched: Option<string>, reply: Option<Reply>)

  /** What the client does to the outside world, in order. */
  datatype Event =
    | Post(url: string, header: Protected, payload: Payload)
    | Update(action: Action, name: string, value: string, tried: seq<string>, accepted: bool)
    | Lookup(name: string)
    | Sleep(seconds: real)

  /** A truthy reply and its body (`response.json()`, or `{}` when the body
      is empty or not JSON). */
  datatype Answer = Answer(reply: Reply, body: Json)

  datatype Context = Context(prims: Primitives, newAccountUrl: string)

  /** The session's state: the held nonce, `private_acme_signature`, the
      wires still to come and the events so far. */
  datatype State = State(nonce: Option<string>, signature: Signature, wires: seq<Wire>, trace: seq<Event>)

  /** `bool(response)` for a `requests` response: false for no response and
      for status codes 400 to 599. */
  predicate Truthy(reply: Option<Reply>) {
    reply.Some? && !(400 <= reply.value.status < 600)
  }

  /** The wire of the next request; an exhausted stream answers nothing. */
  function NextWire(wires: seq<Wire>): Wire {
    if wires == [] then Wire(None, None) else wires[0]
  }

  function Rest(wires: seq<Wire>): seq<Wire> {
    if wires == [] then [] else wires[1..]
  }

  function BodyOrEmpty(reply: Reply): Json {
    if reply.body.Some? then reply.body.value else JObject(map[])
  }

  /** Line 100, `nonce or requests.get(newNonce)...`: the held nonce unless
      it is absent or empty, otherwise a fetched one. */
  function RequestNonce(held: Option<string>, w: Wire): (n: Option<string>)
    ensures held.Some? && held.value != "" ==> n == held
    ensures held.None? || held.value == "" ==> n == w.fetched
  {
    if held.Some? && held.value != "" then held else w.fetched
  }

  /** Lines 92-129 as a function of the session state. */
  function SignedRequest(ctx: Context, st: State, url: string, payload: Payload): (out: (Result<Answer, Error>, State))
    ensures out.1.signature == st.signature && out.1.wires == Rest(st.wires)
    ensures var w := NextWire(st.wires);
            var n := RequestNonce(st.nonce, w);
            && (n.None? ==> out == (Failure(NonceUnavailable), st.(wires := Rest(st.wires))))
            && (n.Some? ==> out.1.trace == st.trace + [Post(url, ProtectedHeader(st.signature, n.value, url, ctx.newAccountUrl), payload)])
            && (out.0.Success? <==> n.Some? && Truthy(w.reply) && w.reply.value.replayNonce.Some?)
            && (out.0.Success? ==> out.0.value.reply == w.reply.value && out.1.nonce == w.reply.value.replayNonce)
            && (n.Some? && out.0.Failure? ==> out.1.nonce.None?)
            && (n.Some? && !Truthy(w.reply) ==> out.0 == Failure(NoResponse))
    ensures out.0.Success? ==> st.wires != [] && !(400 <= out.0.value.reply.status < 600)
    ensures Continues(st, out.1, ctx.newAccountUrl)
    ensures url == ctx.newAccountUrl ==> AllKeyedOnce(out.1.trace[|st.trace|..], ctx.newAccountUrl)
  {
    var w := NextWire(st.wires);
    var n := RequestNonce(st.nonce, w);
    if n.None? then (Failure(NonceUnavailable), st.(wires := Rest(st.wires)))
    else
      var header := ProtectedHeader(st.signature, n.value, url, ctx.newAccountUrl);
      var sent := State(None, st.signature, Rest(st.wires), st.trace + [Post(url, header, payload)]);
      if !Truthy(w.reply) then (Failure(NoResponse), sent)
      else if w.reply.value.replayNonce.None? then (Failure(MissingHeader("Replay-Nonce")), sent)
      else (Success(Answer(w.reply.value, BodyOrEmpty(w.reply.value))), sent.(nonce := w.reply.value.replayNonce))
  }

  /** A request names the account key in exactly one way: by `jwk` on the
      `newAccount` URL, by `kid` everywhere else (section 6.2 of RFC 8555). */
  predicate KeyedOnce(e: Event, newAccountUrl: string) {
    e.Post? ==> (e.header.jwk.Some? <==> e.url == newAccountUrl) && (e.header.jwk.Some? != e.header.kid.Some?)
  }

  predicate AllKeyedOnce(trace: seq<Event>, newAccountUrl: string) {
    forall e :: e in trace ==> KeyedOnce(e, newAccountUrl)
  }

  predicate NoUpdates(trace: seq<Event>) {
    forall e :: e in trace ==> !e.Update?
  }

  /** `after` is what remains of the wires `before` once some of them have
      been used, in order. */
  predicate Suffix(after: seq<Wire>, before: seq<Wire>) {
    |after| <= |before| && after == before[|before| - |after|..]
  }

  /** The CA answered 200 with an object whose `status` is `valid`. */
  predicate Confirms(w: Wire) {
    w.reply.Some? && w.reply.value.status == 200
    && Member(BodyOrEmpty(w.reply.value), "status") == Success(JString("valid"))
  }

  /** The last wire used between `before` and `after` confirms. */
  predicate EndsConfirmed(before: seq<Wire>, after: seq<Wire>) {
    |after| < |before| && Confirms(before[|before| - |after| - 1])
  }

  lemma SuffixTrans(a: seq<Wire>, b: seq<Wire>, c: seq<Wire>)
    requires Suffix(b, a) && Suffix(c, b)
    ensures Suffix(c, a)
  {
    assert c == b[|b| - |c|..] == a[|a| - |b|..][|b| - |c|..];
  }

  /** A confirmation among the wires of a later stretch is one among the
      wires of an earlier start. */
  lemma EndsConfirmedWiden(a: seq<Wire>, b: seq<Wire>, c: seq<Wire>)
    requires Suffix(b, a) && EndsConfirmed(b, c)
    ensures EndsConfirmed(a, c)
  {
    assert b[|b| - |c| - 1] == a[|a| - |b|..][|b| - |c| - 1];
  }

  /** `after` follows `before` without touching DNS: the template is the
      same, the trace only grows, and once the account is known every new
      request names the key exactly once. */
  predicate Continues(before: State, after: State, newAccountUrl: string) {
    after.signature == before.signature
    && |before.trace| <= |after.trace| && after.trace[..|before.trace|] == before.trace
    && NoUpdates(after.trace[|before.trace|..])
    && (before.signature.kid.Some? ==> AllKeyedOnce(after.trace[|before.trace|..], newAccountUrl))
  }

  lemma ContinuesTrans(a: State, b: State, c: State, newAccountUrl: string)
    requires Continues(a, b, newAccountUrl) && Continues(b, c, newAccountUrl)
    ensures Continues(a, c, newAccountUrl)
  {
    assert c.trace[..|a.trace|] == b.trace[..|a.trace|];
    assert c.trace[|a.trace|..] == b.trace[|a.trace|..] + c.trace[|b.trace|..];
  }

  /** The DNS updates of a trace, in order. */
  function Updates(trace: seq<Event>): (us: seq<Event>)
  {
    if trace == [] then [] else (if trace[0].Update? then [trace[0]] else []) + Updates(trace[1..])
  }

  lemma {:induction false} UpdatesAppend(a: seq<Event>, b: seq<Event>)
    ensures Updates(a + b) == Updates(a) + Updates(b)
  {
    if a != [] {
      assert (a + b)[1..] == a[1..] + b;
      UpdatesAppend(a[1..], b);
    } else {
      assert a + b == b;
    }
  }

  /** Recording one DNS update adds exactly that update. */
  lemma UpdatesRecorded(a: seq<Event>, u: Event)
    requires u.Update?
    ensures Updates(a + [u]) == Updates(a) + [u]
  {
    UpdatesAppend(a, [u]);
    assert Updates([u]) == [u] + Updates([]);
  }

  /** One DNS update recorded, then the updates `more`: together they add
      that update followed by `more`. */
  lemma UpdatesRecordedThen(start: seq<Event>, u: Event, more: seq<Event>, after: seq<Event>)
    requires u.Update? && Updates(after) == Updates(start + [u]) + more
    ensures Updates(after) == Updates(start) + ([u] + more)
  {
    UpdatesRecorded(start, u);
    assert (Updates(start) + [u]) + more == Updates(start) + ([u] + more);
  }

  lemma {:induction false} QuietUpdates(trace: seq<Event>)
    requires NoUpdates(trace)
    ensures Updates(trace) == []
  {
    if trace != [] {
      assert forall e :: e in trace[1..] ==> e in trace;
      QuietUpdates(trace[1..]);
    }
  }

  /** A step that continues the state adds no DNS update, and keeps every
      request keyed once when the account is known. */
  lemma ContinuesFacts(before: State, after: State, newAccountUrl: string)
    requires Continues(before, after, newAccountUrl)
    ensures Updates(after.trace) == Updates(before.trace)
    ensures before.signature.kid.Some? && AllKeyedOnce(before.trace, newAccountUrl) ==> AllKeyedOnce(after.trace, newAccountUrl)
  {
    var tail := after.trace[|before.trace|..];
    assert after.trace == before.trace + tail;
    UpdatesAppend(before.trace, tail);
    QuietUpdates(tail);
  }

  /** The trace moved on without a DNS update, and every request it
      gained names the key exactly once. */
  predicate Quiet(before: seq<Event>, after: seq<Event>, newAccountUrl: string) {
    Updates(after) == Updates(before)
    && (AllKeyedOnce(before, newAccountUrl) ==> AllKeyedOnce(after, newAccountUrl))
  }

  lemma QuietStep(before: State, after: State, newAccountUrl: string)
    requires before.signature.kid.Some? && Continues(before, after, newAccountUrl)
    ensures Quiet(before.trace, after.trace, newAccountUrl)
  {
    ContinuesFacts(before, after, newAccountUrl);
  }

  /** What a request returns, and the nonce and wires it leaves, do not
      depend on the events recorded before it. */
  lemma SignedRequestTraceFree(ctx: Context, st: State, t: seq<Event>, url: string, payload: Payload)
    ensures var a := SignedRequest(ctx, st.(trace := t), url, payload);
            var b := SignedRequest(ctx, st, url, payload);
            a.0 == b.0 && a.1.nonce == b.1.nonce && a.1.wires == b.1.wires
  {
  }

  /** Section 6.5 of RFC 8555: after a successful request the next one
      carries the nonce its reply supplied, without fetching one (when that
      nonce is not empty). */
  lemma NonceChain(ctx: Context, st: State, url1: string, p1: Payload, url2: string, p2: Payload)
    requires SignedRequest(ctx, st, url1, p1).0.Success?
    requires SignedRequest(ctx, st, url1, p1).0.value.reply.replayNonce != Some("")
    ensures var first := SignedRequest(ctx, st, url1, p1);
            var second := SignedRequest(ctx, first.1, url2, p2);
            |second.1.trace| == |first.1.trace| + 1
            && second.1.trace[|first.1.trace|].header.nonce == first.0.value.reply.replayNonce.value
  {
  }

  /** The sole request on an empty stream fails: no reply is no success, so
      a failure to reach the server is never mistaken for an answer. */
  lemma NoWireNoAnswer(ctx: Context, st: State, url: string, payload: Payload)
    requires st.wires == []
    ensures SignedRequest(ctx, st, url, payload).0.Failure?
  {
  }

  /** `get_crt`'s shared state as a class: `_send_signed_request` and the
      account registration update it in place. */
  class AcmeSession {
    const ctx: Context
    var nonce: Option<string>
    var signature: Signature
    var wires: seq<Wire>
    var trace: seq<Event>

    function Snapshot(): State
      reads this
    {
      State(nonce, signature, wires, trace)
    }

    /** Line 136 and lines 178-185: no nonce yet, a template without `kid`. */
    constructor (ctx: Context, jwk: Jwk, wires: seq<Wire>)
      ensures this.ctx == ctx
      ensures Snapshot() == State(None, InitialSignature(jwk), wires, [])
    {
      this.ctx := ctx;
      nonce := None;
      signature := InitialSignature(jwk);
      this.wires := wires;
      trace := [];
    }

    /** `_send_signed_request(url, payload)`. */
    method Send(url: string, payload: Payload) returns (r: Result<Answer, Error>)
      modifies this
      ensures (r, Snapshot()) == SignedRequest(ctx, old(Snapshot()), url, payload)
    {
      var w := NextWire(wires);
      wires := Rest(wires);
      var n := RequestNonce(nonce, w);
      if n.None? {
        return Failure(NonceUnavailable);
      }
      nonce := None;
      var header := ProtectedHeader(signature, n.value, url, ctx.newAccountUrl);
      trace := trace + [Post(url, header, payload)];
      if !Truthy(w.reply) {
        return Failure(NoResponse);
      }
      var reply := w.reply.value;
      if reply.replayNonce.None? {
        return Failure(MissingHeader("Replay-Nonce"));
      }
      nonce := reply.replayNonce;
      r := Success(Answer(reply, BodyOrEmpty(reply)));
    }

    /** Lines 206 and 209: the account URL becomes the template's `kid`. */
    method SetAccount(kid: string)
      modifies this
      ensures Snapshot() == old(Snapshot()).(signature := old(signature).(kid := Some(kid)))
    {
      signature := signature.(kid := Some(kid));
    }

    /** Records a DNS update, a TXT lookup or a sleep. */
    method Note(e: Event)
      modifies this
      ensures trace == old(trace) + [e]
      ensures nonce == old(nonce) && signature == old(signature) && wires == old(wires)
    {
      trace := trace + [e];
    }
  }
}
