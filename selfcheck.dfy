/** The self-check of lines 296-321: after one TTL, the client looks up the
    challenge's TXT record until it sees the expected value, at most
    `MaxChecks` times and one TTL apart; a DNS exception counts as a failed
    attempt. */
module SelfCheck {
  import opened Wrappers
  import opened Messages
  import opened Encoding
  import opened Session

  /** Line 315: the attempt after which a missing value is an error. */
  const MaxChecks := 10

  /** What one TXT lookup returns: a DNS exception, or the text form of each
      record in the answer. */
  datatype TxtAnswer = DnsFailure | Texts(values: seq<string>)

  /** The answer to the attempt numbered `i` from zero; lookups beyond the
      given answers time out. */
  function AnswerAt(answers: seq<TxtAnswer>, i: nat): TxtAnswer {
    if i < |answers| then answers[i] else DnsFailure
  }

  /** Lines 308-310: some returned record is the quoted digest. */
  predicate Visible(a: TxtAnswer, digest: string) {
    a.Texts? && TxtValue(digest) in a.values
  }

  /** Whether the value was seen, and the events of the attempts numbered
      `n` to the end. */
  function Checks(name: string, digest: string, ttl: real, answers: seq<TxtAnswer>, n: nat): (out: (bool, seq<Event>))
    requires 1 <= n <= MaxChecks
    decreases MaxChecks - n
  {
    if Visible(AnswerAt(answers, n - 1), digest) then (true, [Lookup(name)])
    else if n >= MaxChecks then (false, [Lookup(name)])
    else
      var rest := Checks(name, digest, ttl, answers, n + 1);
      (rest.0, [Lookup(name), Sleep(ttl)] + rest.1)
  }

  /** The self-check only looks up and waits. */
  lemma {:induction false} ChecksQuiet(name: string, digest: string, ttl: real, answers: seq<TxtAnswer>, n: nat)
    requires 1 <= n <= MaxChecks
    ensures forall e :: e in Checks(name, digest, ttl, answers, n).1 ==> e.Lookup? || e.Sleep?
    decreases MaxChecks - n
  {
    if !Visible(AnswerAt(answers, n - 1), digest) && n < MaxChecks {
      ChecksQuiet(name, digest, ttl, answers, n + 1);
    }
  }

  /** Line 318: a value never seen is an error naming the digest. */
  function Verdict(seen: bool, digest: string): (r: Result<(), Error>)
    ensures r.Success? <==> seen
    ensures r.Failure? ==> r.error == ChallengeNotVisible(digest)
  {
    if seen then Success(()) else Failure(ChallengeNotVisible(digest))
  }

  /** `k` lookups, one TTL apart. */
  function Attempts(name: string, ttl: real, k: nat): (es: seq<Event>)
    requires k >= 1
    ensures |es| == 2 * k - 1
  {
    if k == 1 then [Lookup(name)] else [Lookup(name), Sleep(ttl)] + Attempts(name, ttl, k - 1)
  }

  function CountLookups(es: seq<Event>): nat {
    if es == [] then 0 else (if es[0].Lookup? then 1 else 0) + CountLookups(es[1..])
  }

  function CountSleeps(es: seq<Event>): nat {
    if es == [] then 0 else (if es[0].Sleep? then 1 else 0) + CountSleeps(es[1..])
  }

  /** Lines 308-310: the loop over the returned records, `verified` set
      as soon as one of them is the expected value. */
  method AnyMatches(values: seq<string>, expected: string) returns (verified: bool)
    ensures verified <==> expected in values
  {
    verified := false;
    var j := 0;
    while j < |values|
      invariant 0 <= j <= |values|
      invariant verified <==> expected in values[..j]
    {
      verified := verified || values[j] == expected;
      assert values[..j + 1] == values[..j] + [values[j]];
      j := j + 1;
    }
    assert values[..j] == values;
  }

  /** Lines 302-310: one TXT lookup, whose answer is `a`. */
  method LookUp(s: AcmeSession, name: string, digest: string, a: TxtAnswer) returns (verified: bool)
    modifies s
    ensures verified == Visible(a, digest)
    ensures s.trace == old(s.trace) + [Lookup(name)]
    ensures s.nonce == old(s.nonce) && s.signature == old(s.signature) && s.wires == old(s.wires)
  {
    s.Note(Lookup(name));
    verified := false;
    if a.Texts? {
      verified := AnyMatches(a.values, TxtValue(digest));
    }
  }

  /** Lines 296-321: one TTL, then the checks; the session records each
      lookup and sleep. */
  method RunSelfCheck(s: AcmeSession, name: string, digest: string, ttl: real, answers: seq<TxtAnswer>)
    returns (r: Result<(), Error>)
    modifies s
    ensures var spec := Checks(name, digest, ttl, answers, 1);
            r == Verdict(spec.0, digest) && s.trace == old(s.trace) + [Sleep(ttl)] + spec.1
    ensures s.nonce == old(s.nonce) && s.signature == old(s.signature) && s.wires == old(s.wires)
  {
    s.Note(Sleep(ttl));
    ghost var base := s.trace;
    var verified := false;
    var failures := 1;
    while !verified
      invariant 1 <= failures <= MaxChecks
      invariant s.nonce == old(s.nonce) && s.signature == old(s.signature) && s.wires == old(s.wires)
      invariant forall i :: 0 <= i < failures - 1 ==> !Visible(AnswerAt(answers, i), digest)
      invariant !verified ==> s.trace == base + Misses(name, ttl, failures - 1)
      invariant verified ==> Visible(AnswerAt(answers, failures - 1), digest)
      invariant verified ==> s.trace == base + Attempts(name, ttl, failures)
      decreases MaxChecks - failures + (if verified then 0 else 1)
    {
      verified := LookUp(s, name, digest, AnswerAt(answers, failures - 1));
      MissesThenLookup(name, ttl, failures - 1);
      if !verified {
        if failures >= MaxChecks {
          NeverSeen(name, digest, ttl, answers);
          return Verdict(false, digest);
        }
        MissesThenMiss(name, ttl, failures - 1);
        failures := failures + 1;
        s.Note(Sleep(ttl));
      }
    }
    SeenAfterMisses(name, digest, ttl, answers, failures - 1);
    r := Verdict(true, digest);
  }

  /** `k` lookups that saw nothing, each followed by a TTL's wait. */
  function Misses(name: string, ttl: real, k: nat): (es: seq<Event>)
    ensures |es| == 2 * k
  {
    if k == 0 then [] else [Lookup(name), Sleep(ttl)] + Misses(name, ttl, k - 1)
  }

  lemma {:induction false} MissesThenLookup(name: string, ttl: real, k: nat)
    ensures Misses(name, ttl, k) + [Lookup(name)] == Attempts(name, ttl, k + 1)
  {
    if k > 0 {
      MissesThenLookup(name, ttl, k - 1);
      assert Misses(name, ttl, k) + [Lookup(name)]
          == [Lookup(name), Sleep(ttl)] + (Misses(name, ttl, k - 1) + [Lookup(name)]);
    }
  }

  lemma {:induction false} MissesThenMiss(name: string, ttl: real, k: nat)
    ensures Misses(name, ttl, k) + [Lookup(name), Sleep(ttl)] == Misses(name, ttl, k + 1)
  {
    if k > 0 {
      MissesThenMiss(name, ttl, k - 1);
      assert Misses(name, ttl, k) + [Lookup(name), Sleep(ttl)]
          == [Lookup(name), Sleep(ttl)] + (Misses(name, ttl, k - 1) + [Lookup(name), Sleep(ttl)]);
    }
  }

  /** When the value first appears at attempt `last` (or never, with `last`
      the final attempt), the attempts from `n` are `last - n + 1` lookups
      one TTL apart, and the verdict is whether it appeared. */
  lemma {:induction false} ChecksFrom(name: string, digest: string, ttl: real, answers: seq<TxtAnswer>, n: nat, last: nat)
    requires 1 <= n <= last <= MaxChecks
    requires forall i :: n - 1 <= i < last - 1 ==> !Visible(AnswerAt(answers, i), digest)
    requires Visible(AnswerAt(answers, last - 1), digest) || last == MaxChecks
    ensures Checks(name, digest, ttl, answers, n).1 == Attempts(name, ttl, last - n + 1)
    ensures Checks(name, digest, ttl, answers, n).0 == Visible(AnswerAt(answers, last - 1), digest)
    decreases last - n
  {
    if n < last {
      ChecksFrom(name, digest, ttl, answers, n + 1, last);
    }
  }

  /** The value is seen at attempt `k + 1` after `k` misses: the check
      passes after `k + 1` lookups and `k` waits. */
  lemma SeenAfterMisses(name: string, digest: string, ttl: real, answers: seq<TxtAnswer>, k: nat)
    requires k < MaxChecks
    requires forall i :: 0 <= i < k ==> !Visible(AnswerAt(answers, i), digest)
    requires Visible(AnswerAt(answers, k), digest)
    ensures Checks(name, digest, ttl, answers, 1) == (true, Attempts(name, ttl, k + 1))
  {
    ChecksFrom(name, digest, ttl, answers, 1, k + 1);
  }

  /** The value never appears: the check fails naming the digest after
      exactly `MaxChecks` lookups and `MaxChecks - 1` waits. */
  lemma NeverSeen(name: string, digest: string, ttl: real, answers: seq<TxtAnswer>)
    requires forall i :: 0 <= i < MaxChecks ==> !Visible(AnswerAt(answers, i), digest)
    ensures Checks(name, digest, ttl, answers, 1) == (false, Attempts(name, ttl, MaxChecks))
  {
    ChecksFrom(name, digest, ttl, answers, 1, MaxChecks);
  }

  /** The check fails exactly when none of the first `MaxChecks` answers
      holds the value; either way it makes at most `MaxChecks` lookups and
      waits once between consecutive lookups. */
  lemma CheckOutcome(name: string, digest: string, ttl: real, answers: seq<TxtAnswer>)
    ensures var out := Checks(name, digest, ttl, answers, 1);
            && (!out.0 <==> forall i :: 0 <= i < MaxChecks ==> !Visible(AnswerAt(answers, i), digest))
            && 1 <= CountLookups(out.1) <= MaxChecks
            && CountSleeps(out.1) == CountLookups(out.1) - 1
  {
    if forall i :: 0 <= i < MaxChecks ==> !Visible(AnswerAt(answers, i), digest) {
      NeverSeen(name, digest, ttl, answers);
      AttemptsCounts(name, ttl, MaxChecks);
    } else {
      var k :| 0 <= k < MaxChecks && Visible(AnswerAt(answers, k), digest)
               && forall i :: 0 <= i < k ==> !Visible(AnswerAt(answers, i), digest) by {
        FirstVisible(digest, answers, MaxChecks);
      }
      SeenAfterMisses(name, digest, ttl, answers, k);
      AttemptsCounts(name, ttl, k + 1);
    }
  }

  lemma {:induction false} AttemptsCounts(name: string, ttl: real, k: nat)
    requires k >= 1
    ensures CountLookups(Attempts(name, ttl, k)) == k && CountSleeps(Attempts(name, ttl, k)) == k - 1
  {
    if k > 1 {
      AttemptsCounts(name, ttl, k - 1);
      var es := Attempts(name, ttl, k);
      assert es[1..][1..] == Attempts(name, ttl, k - 1);
    }
  }

  lemma {:induction false} FirstVisible(digest: string, answers: seq<TxtAnswer>, bound: nat)
    requires exists i :: 0 <= i < bound && Visible(AnswerAt(answers, i), digest)
    ensures exists k :: 0 <= k < bound && Visible(AnswerAt(answers, k), digest)
                        && forall i :: 0 <= i < k ==> !Visible(AnswerAt(answers, i), digest)
  {
    if Visible(AnswerAt(answers, bound - 1), digest) && forall i :: 0 <= i < bound - 1 ==> !Visible(AnswerAt(answers, i), digest) {
    } else {
      FirstVisible(digest, answers, bound - 1);
    }
  }
}
