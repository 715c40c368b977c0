/** The domains a certificate signing request asks for (lines 141-153). */
module Csr {
  import opened Wrappers
  import opened Strings
  import opened Messages

  /** What the two regular expressions of lines 142 and 145-147 capture from
      the `openssl req -text` listing: the subject's common name and the text
      of the Subject Alternative Name line. */
  datatype CsrText = CsrText(commonName: Option<string>, altNames: Option<string>)

  /** The comma-separated entries of the Subject Alternative Name line. */
  function AltNameEntries(csr: CsrText): seq<string> {
    if csr.altNames.Some? then Split(csr.altNames.value, ", ") else []
  }

  predicate IsDnsEntry(entry: string) {
    StartsWith(entry, "DNS:")
  }

  /** The names of the `DNS:` entries, prefix removed, in the order the loop
      of lines 149-151 adds them. */
  function DnsNames(entries: seq<string>): set<string> {
    if entries == [] then {}
    else
      var last := entries[|entries| - 1];
      DnsNames(entries[..|entries| - 1]) + (if IsDnsEntry(last) then {last[4..]} else {})
  }

  function CommonNameSet(csr: CsrText): set<string> {
    if csr.commonName.Some? then {csr.commonName.value} else {}
  }

  /** The set the source builds: the common name, if found, and every `DNS:`
      entry of the alternative names. */
  function RequestedDomains(csr: CsrText): set<string> {
    CommonNameSet(csr) + DnsNames(AltNameEntries(csr))
  }

  /** Lines 141-153: the domain set is built by adding the common name and
      then each `DNS:` entry in turn; an empty set is an error. */
  method ExtractDomains(csr: CsrText) returns (r: Result<set<string>, Error>)
    ensures r.Failure? <==> RequestedDomains(csr) == {}
    ensures r.Success? ==> r.value == RequestedDomains(csr)
    ensures r.Failure? ==> r.error == NoDomain
  {
    var domains: set<string> := {};
    if csr.commonName.Some? {
      domains := domains + {csr.commonName.value};
    }
    var entries := AltNameEntries(csr);
    var i := 0;
    while i < |entries|
      invariant 0 <= i <= |entries|
      invariant domains == CommonNameSet(csr) + DnsNames(entries[..i])
    {
      if IsDnsEntry(entries[i]) {
        domains := domains + {entries[i][4..]};
      }
      assert entries[..i + 1][..i] == entries[..i];
      i := i + 1;
    }
    assert entries[..i] == entries;
    if |domains| == 0 {
      return Failure(NoDomain);
    }
    return Success(domains);
  }

  /** The domain set is exactly the common name plus `s[4:]` for every entry
      `s` that starts with `DNS:`. */
  lemma {:induction false} DnsNamesMembers(entries: seq<string>, d: string)
    ensures d in DnsNames(entries)
        <==> exists i :: 0 <= i < |entries| && IsDnsEntry(entries[i]) && d == entries[i][4..]
    decreases |entries|
  {
    if entries != [] {
      var n := |entries|;
      var init := entries[..n - 1];
      DnsNamesMembers(init, d);
      if d in DnsNames(entries) && d !in DnsNames(init) {
        assert IsDnsEntry(entries[n - 1]) && d == entries[n - 1][4..];
      }
      if exists i :: 0 <= i < n && IsDnsEntry(entries[i]) && d == entries[i][4..] {
        var i :| 0 <= i < n && IsDnsEntry(entries[i]) && d == entries[i][4..];
        if i < n - 1 {
          assert init[i] == entries[i];
        }
      }
    }
  }

  /** The first entry contributes its name, if any, ahead of the rest. */
  lemma {:induction false} DnsNamesCons(entry: string, rest: seq<string>)
    ensures DnsNames([entry] + rest)
         == (if IsDnsEntry(entry) then {entry[4..]} else {}) + DnsNames(rest)
    decreases |rest|
  {
    if rest != [] {
      var n := |rest|;
      assert ([entry] + rest)[..n] == [entry] + rest[..n - 1];
      DnsNamesCons(entry, rest[..n - 1]);
    } else {
      assert DnsNames([entry]) == DnsNames([]) + (if IsDnsEntry(entry) then {entry[4..]} else {});
    }
  }

  /** An entry of another kind (`IP Address:`, `email:`, ...) adds nothing. */
  lemma OtherEntryIgnored(cn: Option<string>, entry: string, rest: string)
    requires !IsDnsEntry(entry) && ',' !in entry
    ensures RequestedDomains(CsrText(cn, Some(entry + ", " + rest)))
         == RequestedDomains(CsrText(cn, Some(rest)))
  {
    SplitCons(entry, ", ", rest);
    DnsNamesCons(entry, Split(rest, ", "));
  }

  /** A `DNS:` entry adds its name, prefix removed. */
  lemma DnsEntryAdded(cn: Option<string>, entry: string, rest: string)
    requires IsDnsEntry(entry) && ',' !in entry
    ensures RequestedDomains(CsrText(cn, Some(entry + ", " + rest)))
         == RequestedDomains(CsrText(cn, Some(rest))) + {entry[4..]}
  {
    SplitCons(entry, ", ", rest);
    DnsNamesCons(entry, Split(rest, ", "));
  }

  /** The only entry of a line adds its name when it is a `DNS:` entry. */
  lemma LastEntry(cn: Option<string>, entry: string)
    requires ',' !in entry
    ensures RequestedDomains(CsrText(cn, Some(entry)))
         == CommonNameSet(CsrText(cn, None)) + (if IsDnsEntry(entry) then {entry[4..]} else {})
  {
    SplitSingle(entry, ", ");
    assert DnsNames([entry]) == DnsNames([]) + (if IsDnsEntry(entry) then {entry[4..]} else {});
  }

  /** A common name that is also listed as a `DNS:` name appears once: a
      request for `example.com` with alternative names
      `DNS:example.com, DNS:www.example.com` asks for exactly two domains. */
  lemma DuplicateNamesCollapse(name: string, other: string)
    requires ',' !in name && ',' !in other
    ensures RequestedDomains(CsrText(Some(name), Some(("DNS:" + name) + ", " + ("DNS:" + other))))
         == {name, other}
  {
    var cn := Some(name);
    var first, second := "DNS:" + name, "DNS:" + other;
    assert IsDnsEntry(first) && first[4..] == name;
    assert IsDnsEntry(second) && second[4..] == other;
    assert ',' !in first && ',' !in second;
    DnsEntryAdded(cn, first, second);
    LastEntry(cn, second);
  }

  /** A request naming only non-DNS alternative names and no common name is
      rejected. */
  lemma NoDnsNameRejected(entry: string)
    requires !IsDnsEntry(entry) && ',' !in entry
    ensures RequestedDomains(CsrText(None, Some(entry))) == {}
  {
    LastEntry(None, entry);
  }
}
