/** Sending a dynamic update to a zone's authoritative servers (lines 33-90):
    the candidate addresses in the order section 4 of RFC 2136 asks a
    requestor to try them, and the failover from one address to the next. */
module Nameservers {
  import opened Wrappers
  import opened Messages

  type Name = string
  type Address = string

  /** The zone's SOA primary (`mname`) and its NS targets, as the resolver
      returned them. */
  datatype ZoneServers = ZoneServers(primary: Name, nameservers: seq<Name>)

  /** What the DNS does for one update: the zone's servers, their AAAA and A
      addresses (empty where there is no answer), and which addresses answer
      the TSIG-signed update over TCP rather than raising. */
  datatype Authority = Authority(
    servers: ZoneServers,
    aaaa: Name -> seq<Address>,
    a: Name -> seq<Address>,
    answers: Address -> bool)

  /** `list(filter(lambda ns: ns != main_name, nameservers))`. */
  function Without(names: seq<Name>, x: Name): (r: seq<Name>)
    ensures forall n :: n in r <==> n in names && n != x
  {
    if names == [] then []
    else
      var last := names[|names| - 1];
      Without(names[..|names| - 1], x) + (if last != x then [last] else [])
  }

  /** The filter keeps the names other than `x`, in order: it distributes
      over `+`, and keeps a single name exactly when it is not `x`. */
  lemma {:induction false} WithoutAppend(a: seq<Name>, b: seq<Name>, x: Name)
    ensures Without(a + b, x) == Without(a, x) + Without(b, x)
    ensures |b| == 1 ==> Without(b, x) == (if b[0] != x then b else [])
    decreases |b|
  {
    if b == [] {
      assert a + b == a;
    } else {
      var ab := a + b;
      assert ab[..|ab| - 1] == a + b[..|b| - 1] && ab[|ab| - 1] == b[|b| - 1];
      WithoutAppend(a, b[..|b| - 1], x);
      if |b| == 1 {
        assert b[..0] == [];
      }
    }
  }

  /** The order in which lines 41-58 query the servers' addresses: the
      primary first when it is one of the NS targets, then the others. */
  function QueryOrder(z: ZoneServers): seq<Name> {
    (if z.primary in z.nameservers then [z.primary] else []) + Without(z.nameservers, z.primary)
  }

  /** The addresses `lookup` gives for `names`, one server after another. */
  function Resolve(names: seq<Name>, lookup: Name -> seq<Address>): seq<Address> {
    if names == [] then []
    else Resolve(names[..|names| - 1], lookup) + lookup(names[|names| - 1])
  }

  /** The addresses in order of first occurrence, as the loop of lines
      60-62 appends them. */
  function Dedup(s: seq<Address>): seq<Address> {
    if s == [] then []
    else
      var d := Dedup(s[..|s| - 1]);
      if s[|s| - 1] in d then d else d + [s[|s| - 1]]
  }

  predicate NoDuplicates(s: seq<Address>) {
    forall i, j :: 0 <= i < j < |s| ==> s[i] != s[j]
  }

  predicate IsPrefix(p: seq<Address>, s: seq<Address>) {
    |p| <= |s| && s[..|p|] == p
  }

  /** Lines 33-63: all IPv6 addresses, then all IPv4 addresses, of the
      primary (when listed) and then the other servers, without repeats. */
  method AuthoritativeServerIps(auth: Authority) returns (ips: seq<Address>)
    ensures ips == Dedup(Resolve(QueryOrder(auth.servers), auth.aaaa) + Resolve(QueryOrder(auth.servers), auth.a))
    ensures NoDuplicates(ips)
    ensures forall x :: x in ips <==> x in Resolve(QueryOrder(auth.servers), auth.aaaa) || x in Resolve(QueryOrder(auth.servers), auth.a)
  {
    var z := auth.servers;
    var head: seq<Name> := if z.primary in z.nameservers then [z.primary] else [];
    var ipv4: seq<Address> := [];
    var ipv6: seq<Address> := [];
    if z.primary in z.nameservers {
      ipv6 := ipv6 + auth.aaaa(z.primary);
      ipv4 := ipv4 + auth.a(z.primary);
      assert head[..0] == [];
    }
    var others := Without(z.nameservers, z.primary);
    var i := 0;
    while i < |others|
      invariant 0 <= i <= |others|
      invariant ipv6 == Resolve(head + others[..i], auth.aaaa)
      invariant ipv4 == Resolve(head + others[..i], auth.a)
    {
      ipv6 := ipv6 + auth.aaaa(others[i]);
      ipv4 := ipv4 + auth.a(others[i]);
      assert (head + others[..i + 1])[..|head| + i] == head + others[..i];
      i := i + 1;
    }
    assert head + others[..i] == QueryOrder(z);
    var all := ipv6 + ipv4;
    ips := [];
    var k := 0;
    while k < |all|
      invariant 0 <= k <= |all|
      invariant ips == Dedup(all[..k])
    {
      if all[k] !in ips {
        ips := ips + [all[k]];
      }
      assert all[..k + 1][..k] == all[..k];
      k := k + 1;
    }
    assert all[..k] == all;
    DedupNoDuplicates(all);
    DedupMembers(all);
  }

  lemma {:induction false} DedupNoDuplicates(s: seq<Address>)
    ensures NoDuplicates(Dedup(s))
  {
    if s != [] {
      DedupNoDuplicates(s[..|s| - 1]);
    }
  }

  lemma {:induction false} DedupMembers(s: seq<Address>)
    ensures forall x :: x in Dedup(s) <==> x in s
  {
    if s != [] {
      var init := s[..|s| - 1];
      DedupMembers(init);
      assert s == init + [s[|s| - 1]];
    }
  }

  /** Appending addresses never reorders those already listed: the deduplicated
      list of `s` is a prefix of that of `s + t`, and what follows it comes
      from `t` and was not in `s`. */
  lemma {:induction false} DedupExtends(s: seq<Address>, t: seq<Address>)
    ensures IsPrefix(Dedup(s), Dedup(s + t))
    ensures forall j :: |Dedup(s)| <= j < |Dedup(s + t)| ==> Dedup(s + t)[j] in t && Dedup(s + t)[j] !in s
    decreases |t|
  {
    if t == [] {
      assert s + t == s;
    } else {
      var t' := t[..|t| - 1];
      DedupExtends(s, t');
      assert (s + t)[..|s + t| - 1] == s + t';
      DedupMembers(s);
      forall j | |Dedup(s)| <= j < |Dedup(s + t)|
        ensures Dedup(s + t)[j] in t && Dedup(s + t)[j] !in s
      {
        if j < |Dedup(s + t')| {
          assert Dedup(s + t)[j] == Dedup(s + t')[j];
        } else {
          assert Dedup(s + t)[j] == t[|t| - 1];
          assert t[|t| - 1] !in Dedup(s + t');
          DedupExtends(s, t');
          assert IsPrefix(Dedup(s), Dedup(s + t'));
          assert forall x :: x in Dedup(s) ==> x in Dedup(s + t') by {
            forall x | x in Dedup(s) ensures x in Dedup(s + t') {
              var m :| 0 <= m < |Dedup(s)| && Dedup(s)[m] == x;
              assert Dedup(s + t')[m] == x;
            }
          }
        }
      }
    }
  }

  lemma {:induction false} ResolveCons(n: Name, rest: seq<Name>, lookup: Name -> seq<Address>)
    ensures Resolve([n] + rest, lookup) == lookup(n) + Resolve(rest, lookup)
    decreases |rest|
  {
    if rest == [] {
      assert Resolve([n], lookup) == Resolve([], lookup) + lookup(n);
    } else {
      assert ([n] + rest)[..|rest|] == [n] + rest[..|rest| - 1];
      ResolveCons(n, rest[..|rest| - 1], lookup);
    }
  }

  /** Every IPv6 address comes before every IPv4 address: the list opens with
      the deduplicated IPv6 addresses, and every later entry is an IPv4
      address that no server also listed as IPv6. */
  lemma Ipv6BeforeIpv4(auth: Authority)
    ensures var v6 := Resolve(QueryOrder(auth.servers), auth.aaaa);
            var v4 := Resolve(QueryOrder(auth.servers), auth.a);
            var ips := Dedup(v6 + v4);
            IsPrefix(Dedup(v6), ips)
            && forall j :: |Dedup(v6)| <= j < |ips| ==> ips[j] in v4 && ips[j] !in v6
  {
    DedupExtends(Resolve(QueryOrder(auth.servers), auth.aaaa), Resolve(QueryOrder(auth.servers), auth.a));
  }

  /** When the primary is one of the NS targets its addresses lead each
      family: its IPv6 addresses open the list, and its IPv4 addresses open
      the IPv4 part. */
  lemma PrimaryFirst(auth: Authority)
    requires auth.servers.primary in auth.servers.nameservers
    ensures var z := auth.servers;
            var v6 := Resolve(QueryOrder(z), auth.aaaa);
            var v4 := Resolve(QueryOrder(z), auth.a);
            IsPrefix(Dedup(auth.aaaa(z.primary)), Dedup(v6 + v4))
            && IsPrefix(Dedup(v6 + auth.a(z.primary)), Dedup(v6 + v4))
  {
    var z := auth.servers;
    var others := Without(z.nameservers, z.primary);
    ResolveCons(z.primary, others, auth.aaaa);
    ResolveCons(z.primary, others, auth.a);
    var v6 := Resolve(QueryOrder(z), auth.aaaa);
    var v4 := Resolve(QueryOrder(z), auth.a);
    var p6, p4 := auth.aaaa(z.primary), auth.a(z.primary);
    var r6, r4 := Resolve(others, auth.aaaa), Resolve(others, auth.a);
    assert v6 + v4 == p6 + (r6 + v4);
    DedupExtends(p6, r6 + v4);
    assert v6 + v4 == (v6 + p4) + r4;
    DedupExtends(v6 + p4, r4);
  }

  /** When the primary is not among the NS targets nothing is put first: the
      servers are queried in the order the NS answer lists them. */
  lemma {:induction false} PrimaryNotListed(z: ZoneServers)
    requires z.primary !in z.nameservers
    ensures QueryOrder(z) == z.nameservers
  {
    WithoutAbsent(z.nameservers, z.primary);
  }

  lemma {:induction false} WithoutAbsent(names: seq<Name>, x: Name)
    requires x !in names
    ensures Without(names, x) == names
  {
    if names != [] {
      WithoutAbsent(names[..|names| - 1], x);
    }
  }

  /** The addresses lines 33-63 return for a zone. */
  function ServerIps(auth: Authority): seq<Address> {
    Dedup(Resolve(QueryOrder(auth.servers), auth.aaaa) + Resolve(QueryOrder(auth.servers), auth.a))
  }

  /** Some address of the zone answers an update. */
  predicate Reachable(auth: Authority) {
    exists j :: 0 <= j < |ServerIps(auth)| && auth.answers(ServerIps(auth)[j])
  }

  /** Lines 77-88 as a function: the first of `candidates` that answers,
      and the addresses contacted up to it, or all of them when none
      answers. */
  function FirstAnswer(candidates: seq<Address>, answers: Address -> bool): (out: (Option<Address>, seq<Address>))
  {
    if candidates == [] then (None, [])
    else if answers(candidates[0]) then (Some(candidates[0]), [candidates[0]])
    else
      var rest := FirstAnswer(candidates[1..], answers);
      (rest.0, [candidates[0]] + rest.1)
  }

  /** The search stops at the first candidate that answers, after trying
      every earlier one, and fails only after trying them all. */
  lemma {:induction false} FirstAnswerStops(candidates: seq<Address>, answers: Address -> bool)
    ensures var out := FirstAnswer(candidates, answers);
            && (out.0.None? <==> forall j :: 0 <= j < |candidates| ==> !answers(candidates[j]))
            && (out.0.None? ==> out.1 == candidates)
            && (out.0.Some? ==> |out.1| >= 1 && IsPrefix(out.1, candidates)
                                && out.0.value == out.1[|out.1| - 1] && answers(out.0.value)
                                && forall j :: 0 <= j < |out.1| - 1 ==> !answers(out.1[j]))
  {
    if candidates != [] && !answers(candidates[0]) {
      var rest := FirstAnswer(candidates[1..], answers);
      FirstAnswerStops(candidates[1..], answers);
      assert forall j :: 1 <= j < |candidates| ==> candidates[j] == candidates[1..][j - 1];
      if rest.0.Some? {
        assert candidates[..|rest.1| + 1] == [candidates[0]] + candidates[1..][..|rest.1|];
      }
    }
  }

  /** Lines 77-88: the update goes to each candidate in turn until one of them
      answers; `tried` lists the addresses contacted, in order. */
  method SendUpdate(candidates: seq<Address>, answers: Address -> bool)
    returns (accepted: Option<Address>, tried: seq<Address>)
    ensures accepted.None? <==> forall j :: 0 <= j < |candidates| ==> !answers(candidates[j])
    ensures accepted.None? ==> tried == candidates
    ensures accepted.Some? ==> |tried| >= 1 && IsPrefix(tried, candidates)
                               && accepted.value == tried[|tried| - 1] && answers(accepted.value)
                               && forall j :: 0 <= j < |tried| - 1 ==> !answers(tried[j])
    ensures (accepted, tried) == FirstAnswer(candidates, answers)
  {
    accepted := None;
    tried := [];
    var i := 0;
    assert candidates[i..] == candidates;
    assert tried + FirstAnswer(candidates, answers).1 == FirstAnswer(candidates, answers).1;
    while i < |candidates|
      invariant 0 <= i <= |candidates| && accepted.None?
      invariant FirstAnswer(candidates, answers)
                == (FirstAnswer(candidates[i..], answers).0, tried + FirstAnswer(candidates[i..], answers).1)
    {
      FirstAnswerStep(candidates, i, answers);
      ghost var rest := FirstAnswer(candidates[i + 1..], answers).1;
      assert tried + ([candidates[i]] + rest) == (tried + [candidates[i]]) + rest;
      tried := tried + [candidates[i]];
      if answers(candidates[i]) {
        accepted := Some(candidates[i]);
        FirstAnswerStops(candidates, answers);
        return;
      }
      i := i + 1;
    }
    assert candidates[i..] == [] && tried + [] == tried;
    FirstAnswerStops(candidates, answers);
  }

  /** One candidate at a time: the search from position `i` either stops
      there or goes on from `i + 1`. */
  lemma FirstAnswerStep(candidates: seq<Address>, i: nat, answers: Address -> bool)
    requires i < |candidates|
    ensures FirstAnswer(candidates[i..], answers)
            == if answers(candidates[i]) then (Some(candidates[i]), [candidates[i]])
               else (FirstAnswer(candidates[i + 1..], answers).0, [candidates[i]] + FirstAnswer(candidates[i + 1..], answers).1)
  {
    assert candidates[i..][1..] == candidates[i + 1..];
  }

  /** `_update_dns` as a function: the address that took the update, or
      the RuntimeError naming the action and the record, and the addresses
      contacted, in order. */
  function DnsUpdate(action: Action, name: string, auth: Authority): (out: (Result<Address, Error>, seq<Address>))
  {
    var (accepted, tried) := FirstAnswer(ServerIps(auth), auth.answers);
    (if accepted.None? then Failure(DnsUpdateFailed(action, name)) else Success(accepted.value), tried)
  }

  /** The update fails, naming the action and the record, exactly when no
      address of the zone answers, after trying them all; otherwise it went
      to the first address that answers, after the earlier ones did not. */
  lemma DnsUpdateOutcome(action: Action, name: string, auth: Authority)
    ensures var out := DnsUpdate(action, name, auth);
            && (out.0.Failure? <==> !Reachable(auth))
            && (out.0.Failure? ==> out.0.error == DnsUpdateFailed(action, name) && out.1 == ServerIps(auth))
            && (out.0.Success? ==> auth.answers(out.0.value) && |out.1| >= 1 && out.1[|out.1| - 1] == out.0.value
                                   && IsPrefix(out.1, ServerIps(auth))
                                   && forall j :: 0 <= j < |out.1| - 1 ==> !auth.answers(out.1[j]))
  {
    FirstAnswerStops(ServerIps(auth), auth.answers);
  }

  /** `_update_dns`: the update is sent to the authoritative addresses and
      fails, naming the action and the record, when none of them answers
      (in particular when there is none). */
  method UpdateDns(action: Action, name: string, auth: Authority)
    returns (r: Result<Address, Error>, tried: seq<Address>)
    ensures var ips := Dedup(Resolve(QueryOrder(auth.servers), auth.aaaa) + Resolve(QueryOrder(auth.servers), auth.a));
            && (r.Failure? <==> forall j :: 0 <= j < |ips| ==> !auth.answers(ips[j]))
            && (r.Failure? ==> r.error == DnsUpdateFailed(action, name) && tried == ips)
            && (r.Success? ==> auth.answers(r.value) && |tried| >= 1 && tried[|tried| - 1] == r.value && IsPrefix(tried, ips))
            && (r.Success? ==> forall j :: 0 <= j < |tried| - 1 ==> !auth.answers(tried[j]))
    ensures (r, tried) == DnsUpdate(action, name, auth)
  {
    var ips := AuthoritativeServerIps(auth);
    var accepted;
    accepted, tried := SendUpdate(ips, auth.answers);
    if accepted.None? {
      r := Failure(DnsUpdateFailed(action, name));
    } else {
      r := Success(accepted.value);
    }
  }
}
