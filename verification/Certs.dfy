/** The host names a CA bundle is filed under (certHostnames and collectDNSHosts of
    internal/argocd/values.go). Certificates arrive decoded. */
module Certs {
  import opened Wrappers
  import opened Hosts

  datatype Cert = Cert(dnsNames: seq<string>, commonName: string)

  /** A PEM text with what decoding it yields: nothing when a block does not parse. */
  datatype Pem = Pem(text: string, certs: Option<seq<Cert>>)

  /** All DNS SANs in certificate order. */
  function AllNames(certs: seq<Cert>): seq<string> {
    if certs == [] then [] else AllNames(certs[..|certs| - 1]) + certs[|certs| - 1].dnsNames
  }

  /** The names of several certificates are those of each, in order. */
  lemma {:induction false} AllNamesConcat(front: seq<Cert>, back: seq<Cert>)
    ensures AllNames(front + back) == AllNames(front) + AllNames(back)
    decreases |back|
  {
    if back == [] {
      assert front + back == front;
    } else {
      var init := back[..|back| - 1];
      AllNamesConcat(front, init);
      assert (front + back)[..|front + back| - 1] == front + init;
    }
  }

  lemma AllNamesOfOne(cert: Cert)
    ensures AllNames([cert]) == cert.dnsNames
  {
    assert [cert][..0] == [];
  }

  /** The usable names, each where it first appears. */
  function FirstSeen(names: seq<string>): seq<string> {
    if names == [] then []
    else
      var before, last := FirstSeen(names[..|names| - 1]), names[|names| - 1];
      if IsValidHostKey(last) && last !in before then before + [last] else before
  }

  function Position(names: seq<string>, n: string): nat
    requires n in names
  {
    if names[0] == n then 0 else 1 + Position(names[1..], n)
  }

  lemma {:induction false} PositionOf(names: seq<string>, n: string, more: seq<string>)
    requires n in names
    ensures Position(names, n) < |names| && names[Position(names, n)] == n
    ensures Position(names + more, n) == Position(names, n)
    ensures forall k | 0 <= k < Position(names, n) :: names[k] != n
  {
    if names[0] != n {
      assert (names + more)[1..] == names[1..] + more;
      PositionOf(names[1..], n, more);
    }
  }

  /** Both names occur in the list, and a does so first. */
  predicate Earlier(names: seq<string>, a: string, b: string) {
    a in names && b in names && a != b && Position(names, a) < Position(names, b)
  }

  /** What FirstSeen is for: exactly the distinct valid names of the list, in first-seen order. */
  lemma {:induction false} FirstSeenIs(names: seq<string>)
    ensures forall n :: n in FirstSeen(names) <==> n in names && IsValidHostKey(n)
    ensures forall i, j | 0 <= i < j < |FirstSeen(names)| :: Earlier(names, FirstSeen(names)[i], FirstSeen(names)[j])
  {
    if names == [] {
    } else {
      var init, last := names[..|names| - 1], names[|names| - 1];
      FirstSeenIs(init);
      assert names == init + [last];
      var before := FirstSeen(init);
      forall i, j | 0 <= i < j < |FirstSeen(names)|
        ensures Earlier(names, FirstSeen(names)[i], FirstSeen(names)[j])
      {
        var a, b := FirstSeen(names)[i], FirstSeen(names)[j];
        assert a == before[i] && a in init;
        PositionOf(init, a, [last]);
        if j < |before| {
          assert Earlier(init, before[i], before[j]);
          PositionOf(init, b, [last]);
        } else {
          assert b == last && last !in before && IsValidHostKey(last);
          PositionOf(names, b, []);
          assert names + [] == names;
        }
      }
    }
  }

  lemma FirstSeenStep(names: seq<string>, n: string)
    ensures FirstSeen(names + [n]) ==
              if IsValidHostKey(n) && n !in FirstSeen(names) then FirstSeen(names) + [n] else FirstSeen(names)
  {
    assert (names + [n])[..|names|] == names;
  }

  lemma AllNamesStep(certs: seq<Cert>, i: nat)
    requires i < |certs|
    ensures AllNames(certs[..i + 1]) == AllNames(certs[..i]) + certs[i].dnsNames
  {
    assert certs[..i + 1][..i] == certs[..i];
  }

  lemma TakeOneMore(names: seq<string>, dns: seq<string>, j: nat)
    requires j < |dns|
    ensures names + dns[..j + 1] == names + dns[..j] + [dns[j]]
  {
  }

  /** The inner loop of collectDNSHosts: one more certificate. */
  method AddHosts(dns: seq<string>, hosts0: seq<string>, seen0: set<string>, ghost names: seq<string>)
    returns (hosts: seq<string>, seen: set<string>)
    requires hosts0 == FirstSeen(names) && forall n :: n in seen0 <==> n in hosts0
    ensures hosts == FirstSeen(names + dns) && forall n :: n in seen <==> n in hosts
  {
    hosts, seen := hosts0, seen0;
    ghost var met := names;
    for j := 0 to |dns|
      invariant met == names + dns[..j]
      invariant hosts == FirstSeen(met)
      invariant forall n :: n in seen <==> n in hosts
    {
      FirstSeenStep(met, dns[j]);
      TakeOneMore(names, dns, j);
      met := met + [dns[j]];
      if IsValidHostKey(dns[j]) && dns[j] !in seen {
        seen := seen + {dns[j]};
        hosts := hosts + [dns[j]];
      }
    }
    assert dns[..|dns|] == dns;
  }

  /** collectDNSHosts. */
  method CollectDNSHosts(certs: seq<Cert>) returns (hosts: seq<string>)
    ensures hosts == FirstSeen(AllNames(certs))
  {
    hosts := [];
    var seen: set<string> := {};
    for i := 0 to |certs|
      invariant hosts == FirstSeen(AllNames(certs[..i]))
      invariant forall n :: n in seen <==> n in hosts
    {
      AllNamesStep(certs, i);
      hosts, seen := AddHosts(certs[i].dnsNames, hosts, seen, AllNames(certs[..i]));
    }
    assert certs[..|certs|] == certs;
  }

  function HostnamesOf(certs: Option<seq<Cert>>): Result<seq<string>> {
    if certs.None? then Failure("parsing certificate")
    else if certs.value == [] then Failure("no PEM certificate block found in CA bundle")
    else
      var hosts := FirstSeen(AllNames(certs.value));
      if hosts != [] then Success(hosts)
      else if IsValidHostKey(certs.value[0].commonName) then Success([certs.value[0].commonName])
      else Failure("certificate has no DNS SAN and no usable common name")
  }

  /** certHostnames. */
  method CertHostnames(certs: Option<seq<Cert>>) returns (r: Result<seq<string>>)
    ensures r == HostnamesOf(certs)
  {
    if certs.None? {
      return Failure("parsing certificate");
    }
    if |certs.value| == 0 {
      return Failure("no PEM certificate block found in CA bundle");
    }
    var hosts := CollectDNSHosts(certs.value);
    if |hosts| == 0 {
      var cn := certs.value[0].commonName;
      if IsValidHostKey(cn) {
        hosts := [cn];
      }
    }
    if |hosts| == 0 {
      return Failure("certificate has no DNS SAN and no usable common name");
    }
    return Success(hosts);
  }

  /** Success yields at least one name, all of them valid keys and distinct; the Common Name is
      consulted only when no certificate has a usable DNS SAN; failure has exactly three causes. */
  lemma HostnamesAre(certs: Option<seq<Cert>>)
    ensures var r := HostnamesOf(certs);
      && (r.Success? ==>
            && certs.Some? && certs.value != [] && r.value != []
            && (forall h | h in r.value :: IsValidHostKey(h))
            && (forall i, j | 0 <= i < j < |r.value| :: r.value[i] != r.value[j])
            && (forall n | n in AllNames(certs.value) && IsValidHostKey(n) :: n in r.value)
            && (((forall h | h in r.value :: h in AllNames(certs.value))
                 && forall i, j | 0 <= i < j < |r.value| :: Earlier(AllNames(certs.value), r.value[i], r.value[j]))
                || (r.value == [certs.value[0].commonName]
                    && forall n | n in AllNames(certs.value) :: !IsValidHostKey(n))))
      && (r.Failure? <==>
            || certs.None? || certs.value == []
            || (!IsValidHostKey(certs.value[0].commonName)
                && forall n | n in AllNames(certs.value) :: !IsValidHostKey(n)))
  {
    if certs.Some? && certs.value != [] {
      var names := AllNames(certs.value);
      FirstSeenIs(names);
      var hosts := FirstSeen(names);
      if hosts != [] {
        assert hosts[0] in hosts;
      }
    }
  }
}
