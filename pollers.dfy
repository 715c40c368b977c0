/** The two `while True` pollers: the challenge status after the trigger
    (lines 329-340) and the order status after finalization (lines 353-366).
    Each is a function of the session state, and a loop over the session
    proved to follow it. */
module Pollers {
  import opened Wrappers
  import opened Messages
  import opened Jws
  import opened Session
  import opened Protocol

  /** Polls the challenge URL with POST-as-GET until it is valid. */
  function ChallengePoll(ctx: Context, st: State, url: string, domain: string): (out: (Result<(), Error>, State))
    ensures Continues(st, out.1, ctx.newAccountUrl)
    decreases |st.wires|
  {
    var (sent, st1) := SignedRequest(ctx, st, url, PostAsGet);
    match sent
    case Failure(e) => (Failure(e), st1)
    case Success(a) =>
      match ChallengeStep(domain, a)
      case Failure(e) => (Failure(e), st1)
      case Success(step) =>
        if step.Done? then (Success(()), st1)
        else
          var st2 := st1.(trace := st1.trace + [Sleep(step.seconds)]);
          var out := ChallengePoll(ctx, st2, url, domain);
          ContinuesTrans(st, st1, st2, ctx.newAccountUrl);
          ContinuesTrans(st, st2, out.1, ctx.newAccountUrl);
          out
  }

  /** Polls the order URL with POST-as-GET until it is valid; the result is
      the valid order. */
  function OrderPoll(ctx: Context, st: State, location: string): (out: (Result<Json, Error>, State))
    ensures Continues(st, out.1, ctx.newAccountUrl)
    ensures out.0.Success? ==> Member(out.0.value, "status") == Success(JString("valid"))
    decreases |st.wires|
  {
    var (sent, st1) := SignedRequest(ctx, st, location, PostAsGet);
    match sent
    case Failure(e) => (Failure(e), st1)
    case Success(a) =>
      match OrderStep(location, a)
      case Failure(e) => (Failure(e), st1)
      case Success(step) =>
        if step.Done? then (Success(a.body), st1)
        else
          var st2 := st1.(trace := st1.trace + [Sleep(step.seconds)]);
          var out := OrderPoll(ctx, st2, location);
          ContinuesTrans(st, st1, st2, ctx.newAccountUrl);
          ContinuesTrans(st, st2, out.1, ctx.newAccountUrl);
          out
  }

  /** Lines 329-340 on the session. */
  method PollChallenge(s: AcmeSession, url: string, domain: string) returns (r: Result<(), Error>)
    modifies s
    ensures (r, s.Snapshot()) == ChallengePoll(s.ctx, old(s.Snapshot()), url, domain)
  {
    while true
      invariant ChallengePoll(s.ctx, s.Snapshot(), url, domain) == ChallengePoll(s.ctx, old(s.Snapshot()), url, domain)
      decreases |s.wires|
    {
      var sent := s.Send(url, PostAsGet);
      if sent.Failure? {
        return Failure(sent.error);
      }
      var step := ChallengeStep(domain, sent.value);
      if step.Failure? {
        return Failure(step.error);
      }
      if step.value.Done? {
        return Success(());
      }
      s.Note(Sleep(step.value.seconds));
    }
  }

  /** Lines 353-366 on the session. */
  method PollOrder(s: AcmeSession, location: string) returns (r: Result<Json, Error>)
    modifies s
    ensures (r, s.Snapshot()) == OrderPoll(s.ctx, old(s.Snapshot()), location)
  {
    while true
      invariant OrderPoll(s.ctx, s.Snapshot(), location) == OrderPoll(s.ctx, old(s.Snapshot()), location)
      decreases |s.wires|
    {
      var sent := s.Send(location, PostAsGet);
      if sent.Failure? {
        return Failure(sent.error);
      }
      var step := OrderStep(location, sent.value);
      if step.Failure? {
        return Failure(step.error);
      }
      if step.value.Done? {
        return Success(sent.value.body);
      }
      s.Note(Sleep(step.value.seconds));
    }
  }

  /** A wire on which the request goes through and the CA answers, with a
      fresh nonce, a truthy reply whose body's `status` is `status`. */
  predicate Shows(w: Wire, status: string) {
    w.fetched.Some? && Truthy(w.reply)
    && w.reply.value.replayNonce.Some? && w.reply.value.body.Some?
    && Member(w.reply.value.body.value, "status") == Success(JString(status))
  }

  /** The same, with status code `code`. */
  predicate Serves(w: Wire, code: int, status: string) {
    Shows(w, status) && w.reply.value.status == code
  }

  /** One pending reply: a request, a two-second pause, and the poll goes
      on from the next wire with the reply's nonce. */
  lemma ChallengePollUnfold(ctx: Context, st: State, url: string, domain: string)
    requires st.wires != [] && Serves(st.wires[0], 200, "pending")
    ensures var n := RequestNonce(st.nonce, st.wires[0]).value;
            var header := ProtectedHeader(st.signature, n, url, ctx.newAccountUrl);
            ChallengePoll(ctx, st, url, domain)
            == ChallengePoll(ctx, State(st.wires[0].reply.value.replayNonce, st.signature, st.wires[1..],
                                        st.trace + [Post(url, header, PostAsGet), Sleep(ChallengePause)]), url, domain)
  {
    var w := st.wires[0];
    var n := RequestNonce(st.nonce, w).value;
    var header := ProtectedHeader(st.signature, n, url, ctx.newAccountUrl);
    var sent := SignedRequest(ctx, st, url, PostAsGet);
    var a := Answer(w.reply.value, w.reply.value.body.value);
    assert sent.0 == Success(a);
    assert sent.1 == State(w.reply.value.replayNonce, st.signature, st.wires[1..], st.trace + [Post(url, header, PostAsGet)]);
    assert ChallengeStep(domain, a) == Success(Wait(ChallengePause));
    assert sent.1.trace + [Sleep(ChallengePause)] == st.trace + [Post(url, header, PostAsGet), Sleep(ChallengePause)];
  }

  /** A poll that answered one request per pause in `pauses`, sleeping
      that long after each, and then stopped at one more request: it used
      one wire per request and put one request and one sleep in the trace
      per pause, after what `before` had recorded. */
  predicate Paced(before: State, after: State, pauses: seq<real>) {
    |before.wires| > |pauses|
    && after.wires == before.wires[|pauses| + 1..]
    && |after.trace| == |before.trace| + 2 * |pauses| + 1
    && after.trace[..|before.trace|] == before.trace
    && forall i :: 0 <= i < |pauses| ==> after.trace[|before.trace| + 2 * i + 1] == Sleep(pauses[i])
  }

  /** One request answered by the first wire, followed by a sleep of
      `pause`: a request and a sleep added to the trace. */
  predicate Stepped(before: State, next: State, pause: real) {
    before.wires != [] && next.wires == before.wires[1..]
    && |next.trace| == |before.trace| + 2 && next.trace[..|before.trace|] == before.trace
    && next.trace[|before.trace| + 1] == Sleep(pause)
  }

  /** One more request and pause in front of a paced poll. */
  lemma PacedShift(before: State, next: State, after: State, pause: real, pauses: seq<real>)
    requires Stepped(before, next, pause) && Paced(next, after, pauses)
    ensures Paced(before, after, [pause] + pauses)
  {
    var t, t2, out := before.trace, next.trace, after.trace;
    var all := [pause] + pauses;
    assert before.wires[1..][|pauses|..] == before.wires[|all|..];
    assert out[..|t|] == out[..|t2|][..|t|];
    forall i | 0 <= i < |all| ensures out[|t| + 2 * i + 1] == Sleep(all[i]) {
      if i > 0 {
        assert |t| + 2 * i + 1 == |t2| + 2 * (i - 1) + 1;
      } else {
        assert out[|t| + 1] == out[..|t2|][|t| + 1];
      }
    }
  }

  /** `k` copies of the same pause. */
  function Repeat(pause: real, k: nat): (r: seq<real>)
    ensures |r| == k
  {
    if k == 0 then [] else [pause] + Repeat(pause, k - 1)
  }

  /** The state after one pending reply, with only what the proofs by
      induction below need to know of it. */
  lemma ChallengePendingStep(ctx: Context, st: State, url: string, domain: string) returns (next: State)
    requires st.wires != [] && Serves(st.wires[0], 200, "pending")
    ensures ChallengePoll(ctx, st, url, domain) == ChallengePoll(ctx, next, url, domain)
    ensures Stepped(st, next, ChallengePause)
  {
    ChallengePollUnfold(ctx, st, url, domain);
    var n := RequestNonce(st.nonce, st.wires[0]).value;
    var header := ProtectedHeader(st.signature, n, url, ctx.newAccountUrl);
    next := State(st.wires[0].reply.value.replayNonce, st.signature, st.wires[1..],
                  st.trace + [Post(url, header, PostAsGet), Sleep(ChallengePause)]);
  }

  /** Section 7.5.1 of RFC 8555 as the client follows it: `k` pending
      replies and then a valid one end the poll successfully after `k + 1`
      requests, with a two-second pause after each pending reply. */
  lemma {:induction false} ChallengePendingThenValid(ctx: Context, st: State, url: string, domain: string, k: nat)
    requires |st.wires| > k
    requires forall i :: 0 <= i < k ==> Serves(st.wires[i], 200, "pending")
    requires Serves(st.wires[k], 200, "valid")
    ensures ChallengePoll(ctx, st, url, domain).0 == Success(())
    ensures Paced(st, ChallengePoll(ctx, st, url, domain).1, Repeat(ChallengePause, k))
    decreases k
  {
    if k > 0 {
      var st2 := ChallengePendingStep(ctx, st, url, domain);
      assert forall i :: 0 <= i < k - 1 ==> st2.wires[i] == st.wires[i + 1];
      assert st2.wires[k - 1] == st.wires[k];
      ChallengePendingThenValid(ctx, st2, url, domain, k - 1);
      PacedShift(st, st2, ChallengePoll(ctx, st2, url, domain).1, ChallengePause, Repeat(ChallengePause, k - 1));
    } else {
      ChallengeValidNow(ctx, st, url, domain);
    }
  }

  /** A valid reply ends the poll at once, after one request. */
  lemma ChallengeValidNow(ctx: Context, st: State, url: string, domain: string)
    requires st.wires != [] && Serves(st.wires[0], 200, "valid")
    ensures var out := ChallengePoll(ctx, st, url, domain);
            && out.0 == Success(())
            && out.1.wires == st.wires[1..]
            && |out.1.trace| == |st.trace| + 1
            && out.1.trace[..|st.trace|] == st.trace
  {
    var w := st.wires[0];
    var sent := SignedRequest(ctx, st, url, PostAsGet);
    assert sent.0 == Success(Answer(w.reply.value, w.reply.value.body.value));
  }

  /** A 200 reply with any status other than pending or valid ends the poll
      with an error naming the domain. */
  lemma ChallengeOtherStatusFails(ctx: Context, st: State, url: string, domain: string, status: string)
    requires st.wires != [] && Serves(st.wires[0], 200, status)
    requires status != "pending" && status != "valid"
    ensures ChallengePoll(ctx, st, url, domain).0 == Failure(ChallengeRejected(domain, st.wires[0].reply.value.body.value))
  {
  }

  /** The poll uses the wires in order, and it succeeds only on a reply the
      CA sent with status code 200 and status `valid`: the last wire it
      used confirms the challenge. */
  lemma {:induction false} ChallengePollConfirmed(ctx: Context, st: State, url: string, domain: string)
    ensures var out := ChallengePoll(ctx, st, url, domain);
            Suffix(out.1.wires, st.wires) && (out.0.Success? ==> EndsConfirmed(st.wires, out.1.wires))
    decreases |st.wires|
  {
    var (sent, st1) := SignedRequest(ctx, st, url, PostAsGet);
    assert Suffix(st1.wires, st.wires);
    if sent.Success? {
      var step := ChallengeStep(domain, sent.value);
      if step.Success? && step.value.Wait? {
        var st2 := st1.(trace := st1.trace + [Sleep(step.value.seconds)]);
        ChallengePollConfirmed(ctx, st2, url, domain);
        var out := ChallengePoll(ctx, st2, url, domain);
        SuffixTrans(st.wires, st2.wires, out.1.wires);
        if out.0.Success? {
          EndsConfirmedWiden(st.wires, st2.wires, out.1.wires);
        }
      }
    }
  }

  /** The sleeps recorded before the poll do not change what it returns. */
  lemma {:induction false} ChallengePollTraceFree(ctx: Context, st: State, t: seq<Event>, url: string, domain: string)
    ensures ChallengePoll(ctx, st.(trace := t), url, domain).0 == ChallengePoll(ctx, st, url, domain).0
    decreases |st.wires|
  {
    SignedRequestTraceFree(ctx, st, t, url, PostAsGet);
    var (sent, st1) := SignedRequest(ctx, st, url, PostAsGet);
    var (sent', st1') := SignedRequest(ctx, st.(trace := t), url, PostAsGet);
    if sent.Success? {
      var step := ChallengeStep(domain, sent.value);
      if step.Success? && step.value.Wait? {
        var st2 := st1.(trace := st1.trace + [Sleep(step.value.seconds)]);
        var st2' := st1'.(trace := st1'.trace + [Sleep(step.value.seconds)]);
        assert st2' == st2.(trace := st2'.trace);
        ChallengePollTraceFree(ctx, st2, st2'.trace, url, domain);
      }
    }
  }

  /** Likewise for the order poll, which also leaves the same wires. */
  lemma {:induction false} OrderPollTraceFree(ctx: Context, st: State, t: seq<Event>, location: string)
    ensures var a := OrderPoll(ctx, st.(trace := t), location);
            var b := OrderPoll(ctx, st, location);
            a.0 == b.0 && a.1.nonce == b.1.nonce && a.1.wires == b.1.wires
    decreases |st.wires|
  {
    SignedRequestTraceFree(ctx, st, t, location, PostAsGet);
    var (sent, st1) := SignedRequest(ctx, st, location, PostAsGet);
    var (sent', st1') := SignedRequest(ctx, st.(trace := t), location, PostAsGet);
    if sent.Success? {
      var step := OrderStep(location, sent.value);
      if step.Success? && step.value.Wait? {
        var st2 := st1.(trace := st1.trace + [Sleep(step.value.seconds)]);
        var st2' := st1'.(trace := st1'.trace + [Sleep(step.value.seconds)]);
        assert st2' == st2.(trace := st2'.trace);
        OrderPollTraceFree(ctx, st2, st2'.trace, location);
      }
    }
  }

  /** A wire that shows a processing order and carries `Retry-After`. */
  predicate Processing(w: Wire) {
    Shows(w, "processing") && !w.reply.value.retryAfter.Absent?
  }

  /** The pause a processing reply asks for. */
  function Pause(w: Wire): real
    requires Processing(w)
  {
    RetryDelay(w.reply.value.retryAfter).value
  }

  /** The pauses a run of processing replies asks for, in order. */
  function Pauses(ws: seq<Wire>): (r: seq<real>)
    requires forall i :: 0 <= i < |ws| ==> Processing(ws[i])
    ensures |r| == |ws|
  {
    if ws == [] then [] else [Pause(ws[0])] + Pauses(ws[1..])
  }

  /** One processing reply: a request, a pause, and the poll goes on from
      the next wire with the reply's nonce. */
  lemma OrderPollUnfold(ctx: Context, st: State, location: string)
    requires st.wires != [] && Processing(st.wires[0])
    ensures var n := RequestNonce(st.nonce, st.wires[0]).value;
            var header := ProtectedHeader(st.signature, n, location, ctx.newAccountUrl);
            OrderPoll(ctx, st, location)
            == OrderPoll(ctx, State(st.wires[0].reply.value.replayNonce, st.signature, st.wires[1..],
                                    st.trace + [Post(location, header, PostAsGet), Sleep(Pause(st.wires[0]))]), location)
  {
    var w := st.wires[0];
    var n := RequestNonce(st.nonce, w).value;
    var header := ProtectedHeader(st.signature, n, location, ctx.newAccountUrl);
    var sent := SignedRequest(ctx, st, location, PostAsGet);
    var a := Answer(w.reply.value, w.reply.value.body.value);
    assert sent.0 == Success(a);
    assert sent.1 == State(w.reply.value.replayNonce, st.signature, st.wires[1..], st.trace + [Post(location, header, PostAsGet)]);
    assert OrderStep(location, a) == Success(Wait(Pause(w)));
    assert sent.1.trace + [Sleep(Pause(w))] == st.trace + [Post(location, header, PostAsGet), Sleep(Pause(w))];
  }

  /** The state after one processing reply, with only what the proofs by
      induction below need to know of it. */
  lemma OrderProcessingStep(ctx: Context, st: State, location: string) returns (next: State)
    requires st.wires != [] && Processing(st.wires[0])
    ensures OrderPoll(ctx, st, location) == OrderPoll(ctx, next, location)
    ensures Stepped(st, next, Pause(st.wires[0]))
  {
    OrderPollUnfold(ctx, st, location);
    var n := RequestNonce(st.nonce, st.wires[0]).value;
    var header := ProtectedHeader(st.signature, n, location, ctx.newAccountUrl);
    next := State(st.wires[0].reply.value.replayNonce, st.signature, st.wires[1..],
                  st.trace + [Post(location, header, PostAsGet), Sleep(Pause(st.wires[0]))]);
  }

  /** `k` processing replies and then a valid one: the poll returns the
      valid order. */
  lemma {:induction false} OrderProcessingThenValid(ctx: Context, st: State, location: string, k: nat)
    requires |st.wires| > k
    requires forall i :: 0 <= i < k ==> Processing(st.wires[i])
    requires Shows(st.wires[k], "valid")
    ensures OrderPoll(ctx, st, location).0 == Success(st.wires[k].reply.value.body.value)
    decreases k
  {
    if k == 0 {
      OrderValidNow(ctx, st, location);
    } else {
      var st2 := OrderProcessingStep(ctx, st, location);
      assert forall i :: 0 <= i < k - 1 ==> st2.wires[i] == st.wires[i + 1];
      assert st2.wires[k - 1] == st.wires[k];
      OrderProcessingThenValid(ctx, st2, location, k - 1);
    }
  }

  /** The same run takes `k + 1` requests, pausing after each processing
      reply for the time its `Retry-After` asks (two seconds when that value
      is rejected). */
  lemma {:induction false} OrderProcessingPaced(ctx: Context, st: State, location: string, k: nat)
    requires |st.wires| > k
    requires forall i :: 0 <= i < k ==> Processing(st.wires[i])
    requires Shows(st.wires[k], "valid")
    ensures Paced(st, OrderPoll(ctx, st, location).1, Pauses(st.wires[..k]))
    decreases k
  {
    if k == 0 {
      OrderValidNow(ctx, st, location);
    } else {
      var st2 := OrderProcessingStep(ctx, st, location);
      assert forall i :: 0 <= i < k - 1 ==> st2.wires[i] == st.wires[i + 1];
      assert st2.wires[k - 1] == st.wires[k];
      OrderProcessingPaced(ctx, st2, location, k - 1);
      assert st.wires[..k][1..] == st2.wires[..k - 1];
      PacedShift(st, st2, OrderPoll(ctx, st2, location).1, Pause(st.wires[0]), Pauses(st2.wires[..k - 1]));
    }
  }

  /** A valid order ends the poll at once, after one request. */
  lemma OrderValidNow(ctx: Context, st: State, location: string)
    requires st.wires != [] && Shows(st.wires[0], "valid")
    ensures var out := OrderPoll(ctx, st, location);
            && out.0 == Success(st.wires[0].reply.value.body.value)
            && out.1.wires == st.wires[1..]
            && |out.1.trace| == |st.trace| + 1
            && out.1.trace[..|st.trace|] == st.trace
  {
    var w := st.wires[0];
    var sent := SignedRequest(ctx, st, location, PostAsGet);
    assert sent.0 == Success(Answer(w.reply.value, w.reply.value.body.value));
  }

  /** A processing reply without `Retry-After` raises KeyError: the poll
      fails on the first such reply. */
  lemma OrderMissingRetryAfter(ctx: Context, st: State, location: string)
    requires st.wires != [] && Shows(st.wires[0], "processing")
    requires st.wires[0].reply.value.retryAfter.Absent?
    ensures OrderPoll(ctx, st, location).0 == Failure(MissingHeader("Retry-After"))
  {
  }

  /** The order poll does not look at the status code: a truthy reply other
      than 200 that shows a valid order ends the poll successfully. */
  lemma OrderStatusCodeIgnored(ctx: Context, st: State, location: string)
    requires st.wires != [] && Serves(st.wires[0], 202, "valid")
    ensures OrderPoll(ctx, st, location).0.Success?
  {
  }
}
