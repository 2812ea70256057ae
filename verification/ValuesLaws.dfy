/** What the Helm values compiler guarantees for every operator input: fragments that may be
    layered in any order, the path law of precedence, and agreement on image pull secrets. */
module ValuesLaws {
  import opened Wrappers
  import opened JsonTrees
  import opened Certs
  import opened HelmValues

  // ---------------------------------------------------------------- layering in any order

  ghost predicate AllAgree(fragments: seq<Json>) {
    forall f, g | f in fragments && g in fragments :: Agree(f, g)
  }

  /** Pulling one fragment to the end of the layers. */
  lemma {:induction false} LayerLater(base: Json, f: Json, rest: seq<Json>)
    requires forall g | g in rest :: Agree(f, g)
    ensures Layer(Merge(base, f), rest) == Merge(Layer(base, rest), f)
    decreases |rest|
  {
    if rest == [] {
    } else {
      var init, g := rest[..|rest| - 1], rest[|rest| - 1];
      LayerLater(base, f, init);
      assert g in rest;
      AgreeCommutesOver(Layer(base, init), f, g);
    }
  }

  /** Fragments that agree pairwise give the same tree in every order, over every base. */
  lemma {:induction false} AnyOrder(base: Json, xs: seq<Json>, ys: seq<Json>)
    requires multiset(xs) == multiset(ys) && AllAgree(xs)
    ensures Layer(base, xs) == Layer(base, ys)
    decreases |ys|
  {
    if ys == [] {
      assert |multiset(xs)| == |xs|;
    } else {
      var init, f := ys[..|ys| - 1], ys[|ys| - 1];
      var front, back := TakeOut(xs, init, f, ys);
      AnyOrder(base, front + back, init);
      LayerConcat(base, front + [f], back);
      LayerStep(base, front, f);
      LayerLater(Layer(base, front), f, back);
      LayerConcat(base, front, back);
    }
  }

  lemma TakeOut<T>(xs: seq<T>, init: seq<T>, f: T, ys: seq<T>) returns (front: seq<T>, back: seq<T>)
    requires ys != [] && init == ys[..|ys| - 1] && f == ys[|ys| - 1]
    requires multiset(xs) == multiset(ys)
    ensures xs == front + [f] + back && multiset(front + back) == multiset(init)
    ensures f in xs && (forall g | g in front + back :: g in xs) && forall g | g in back :: g in xs
  {
    RemoveAt(ys, |ys| - 1);
    assert ys[|ys|..] == [] && init + [] == init;
    assert f in multiset(xs);
    var i :| 0 <= i < |xs| && xs[i] == f;
    front, back := xs[..i], xs[i + 1..];
    RemoveAt(xs, i);
  }

  lemma RemoveAt<T>(xs: seq<T>, i: nat)
    requires i < |xs|
    ensures xs == xs[..i] + [xs[i]] + xs[i + 1..]
    ensures multiset(xs[..i] + xs[i + 1..]) == multiset(xs) - multiset{xs[i]}
  {
    assert xs == xs[..i] + [xs[i]] + xs[i + 1..];
  }

  /** The three fragments of one compilation: pairwise leaf-disjoint, and no empty object in them. */
  lemma FragmentShapes(v: VaultPlugin, repository: string, version: string, e: ExposureValues,
                       hosts: seq<string>, text: string)
    requires hosts != []
    ensures var vault, exposure := VaultFragment(v, repository, version), ExposureFragment(e);
            var ca := CaFragment(hosts, text);
      && LeafDisjoint(vault, exposure) && LeafDisjoint(exposure, vault)
      && LeafDisjoint(vault, ca) && LeafDisjoint(ca, vault)
      && LeafDisjoint(exposure, ca) && LeafDisjoint(ca, exposure)
      && NoEmptyBelow(vault) && NoEmptyBelow(exposure) && NoEmptyBelow(ca)
  {
    ExposureNoEmpty(e);
    VaultNoEmpty(v, repository, version);
    CaNoEmpty(hosts, text);
    FragmentsDisjoint(v, repository, version, e, hosts, text);
  }

  lemma FragmentsDisjoint(v: VaultPlugin, repository: string, version: string, e: ExposureValues,
                          hosts: seq<string>, text: string)
    ensures var vault, exposure := VaultFragment(v, repository, version), ExposureFragment(e);
            var ca := CaFragment(hosts, text);
      && LeafDisjoint(vault, exposure) && LeafDisjoint(exposure, vault)
      && LeafDisjoint(vault, ca) && LeafDisjoint(ca, vault)
      && LeafDisjoint(exposure, ca) && LeafDisjoint(ca, exposure)
  {
    var vault, exposure, ca := VaultFragment(v, repository, version), ExposureFragment(e), CaFragment(hosts, text);
    TopKeys(v, repository, version, e, hosts, text);
    NoSharedKey(vault, exposure);
    NoSharedKey(vault, ca);
    ConfigsDisjoint(exposure, ca);
  }

  lemma TopKeys(v: VaultPlugin, repository: string, version: string, e: ExposureValues,
                hosts: seq<string>, text: string)
    ensures VaultFragment(v, repository, version).fields.Keys == {"global", "repoServer", "extraObjects"}
    ensures var f := ExposureFragment(e).fields;
      f.Keys == {"server", "configs"} && f["configs"].Obj? && f["configs"].fields.Keys == {"cm"}
    ensures var f := CaFragment(hosts, text).fields;
      f.Keys == {"configs"} && f["configs"].Obj? && f["configs"].fields.Keys == {"tls"}
  {
  }

  lemma NoSharedKey(f: Json, g: Json)
    requires f.Obj? && g.Obj? && f.fields.Keys !! g.fields.Keys
    ensures LeafDisjoint(f, g) && LeafDisjoint(g, f)
  {
  }

  /** Exposure and CA meet only under configs, and part there: cm against tls. */
  lemma ConfigsDisjoint(f: Json, g: Json)
    requires f.Obj? && g.Obj? && f.fields.Keys * g.fields.Keys == {"configs"}
    requires f.fields["configs"].Obj? && g.fields["configs"].Obj?
    requires f.fields["configs"].fields.Keys !! g.fields["configs"].fields.Keys
    ensures LeafDisjoint(f, g) && LeafDisjoint(g, f)
  {
    NoSharedKey(f.fields["configs"], g.fields["configs"]);
    assert forall k | k in f.fields && k in g.fields :: k in f.fields.Keys * g.fields.Keys;
  }

  lemma CaNoEmpty(hosts: seq<string>, text: string)
    requires hosts != []
    ensures NoEmptyBelow(CaFragment(hosts, text))
  {
    assert hosts[0] in Certificates(hosts, text).fields;
    assert NoEmpty(Certificates(hosts, text));
    var configs := CaFragment(hosts, text).fields["configs"];
    var tls := configs.fields["tls"];
    assert "certificates" in tls.fields && NoEmpty(tls);
    assert "tls" in configs.fields && NoEmpty(configs);
  }

  lemma ExposureNoEmpty(e: ExposureValues)
    ensures NoEmptyBelow(ExposureFragment(e))
  {
    ServerNoEmpty(e);
    var configs := ExposureFragment(e).fields["configs"];
    assert "url" in configs.fields["cm"].fields && "cm" in configs.fields;
    assert NoEmpty(configs.fields["cm"]) && NoEmpty(configs);
  }

  lemma ServerNoEmpty(e: ExposureValues)
    ensures NoEmpty(ExposureFragment(e).fields["server"])
  {
    var server := ExposureFragment(e).fields["server"].fields;
    ServiceNoEmpty(e);
    if e.reloaderEnabled {
      assert RELOAD_KEY in server["deploymentAnnotations"].fields;
      assert NoEmpty(server["deploymentAnnotations"]);
    }
    assert "service" in server;
  }

  lemma ServiceNoEmpty(e: ExposureValues)
    ensures NoEmpty(ExposureFragment(e).fields["server"].fields["service"])
  {
    var service := ExposureFragment(e).fields["server"].fields["service"].fields;
    assert "dns.gardener.cloud/class" in service["annotations"].fields && NoEmpty(service["annotations"]);
    assert "type" in service;
  }

  lemma VaultNoEmpty(v: VaultPlugin, repository: string, version: string)
    ensures NoEmptyBelow(VaultFragment(v, repository, version))
  {
    var f := VaultFragment(v, repository, version).fields;
    assert "tag" in f["global"].fields && NoEmpty(f["global"]);
    var repo := f["repoServer"].fields;
    assert RELOAD_KEY in repo["deploymentAnnotations"].fields;
    assert NoEmpty(repo["deploymentAnnotations"]);
    assert "volumes" in repo;
    assert NoEmpty(f["repoServer"]);
  }

  /** What the fragments of one compilation have in common. */
  ghost predicate WellMatched(fragments: seq<Json>) {
    && (forall f | f in fragments :: f.Obj? && NoEmptyBelow(f))
    && (forall i, j | 0 <= i < |fragments| && 0 <= j < |fragments| && i != j ::
          LeafDisjoint(fragments[i], fragments[j]))
  }

  function When(b: bool, f: Json): seq<Json> {
    if b then [f] else []
  }

  lemma PickMatched(a: Json, b: Json, c: Json, withA: bool, withB: bool, withC: bool)
    requires LeafDisjoint(a, b) && LeafDisjoint(b, a) && LeafDisjoint(a, c)
    requires LeafDisjoint(c, a) && LeafDisjoint(b, c) && LeafDisjoint(c, b)
    requires NoEmptyBelow(a) && NoEmptyBelow(b) && NoEmptyBelow(c)
    ensures WellMatched(When(withA, a) + When(withB, b) + When(withC, c))
  {
    MatchedWith(When(withA, a), b, withB);
    MatchedWith(When(withA, a) + When(withB, b), c, withC);
  }

  lemma MatchedWith(fragments: seq<Json>, f: Json, with: bool)
    requires WellMatched(fragments) && f.Obj? && NoEmptyBelow(f)
    requires forall g | g in fragments :: LeafDisjoint(f, g) && LeafDisjoint(g, f)
    ensures WellMatched(fragments + When(with, f))
  {
    if with {
      var more := fragments + [f];
      forall i | 0 <= i < |fragments| ensures more[i] in fragments && more[i] == fragments[i] {
      }
    }
  }

  /** Which fragments a compilation that does not fail layers. */
  lemma FragmentsAre(values: Json, e: ExposureValues, ca: Pem, v: VaultPlugin, version: string)
    returns (repository: string, hosts: seq<string>)
    requires Fragments(values, e, ca, v, version).Success?
    ensures v.enabled ==> GlobalImageRepository(values) == Success(repository)
    ensures hosts != [] && (ca.text != "" ==> HostnamesOf(ca.certs) == Success(hosts))
    ensures Fragments(values, e, ca, v, version).value
         == When(v.enabled, VaultFragment(v, repository, version))
            + When(e.enabled, ExposureFragment(e))
            + When(ca.text != "", CaFragment(hosts, ca.text))
  {
    HostnamesAre(ca.certs);
    hosts := if ca.text == "" then ["none"] else HostnamesOf(ca.certs).value;
    repository := if v.enabled then GlobalImageRepository(values).value else "";
  }

  lemma FragmentsMatch(values: Json, e: ExposureValues, ca: Pem, v: VaultPlugin, version: string)
    requires Fragments(values, e, ca, v, version).Success?
    ensures WellMatched(Fragments(values, e, ca, v, version).value)
  {
    var repository, hosts := FragmentsAre(values, e, ca, v, version);
    FragmentShapes(v, repository, version, e, hosts, ca.text);
    PickMatched(VaultFragment(v, repository, version), ExposureFragment(e), CaFragment(hosts, ca.text),
                v.enabled, e.enabled, ca.text != "");
  }

  lemma MatchedAgree(fragments: seq<Json>)
    requires WellMatched(fragments)
    ensures AllAgree(fragments)
  {
    forall f, g | f in fragments && g in fragments ensures Agree(f, g) {
      if f != g {
        var i :| 0 <= i < |fragments| && fragments[i] == f;
        var j :| 0 <= j < |fragments| && fragments[j] == g;
        LeafDisjointAgree(f, g);
      }
    }
  }

  /** The precedence order of buildValues is immaterial: every order of its fragments gives the
      same values, over every base, scalars in the way included. */
  lemma FragmentOrderImmaterial(base: Json, values: Json, e: ExposureValues, ca: Pem, v: VaultPlugin,
                                version: string, order: seq<Json>)
    requires Fragments(values, e, ca, v, version).Success?
    requires multiset(order) == multiset(Fragments(values, e, ca, v, version).value)
    ensures Layer(base, order) == Layer(base, Fragments(values, e, ca, v, version).value)
  {
    var fragments := Fragments(values, e, ca, v, version).value;
    FragmentsMatch(values, e, ca, v, version);
    MatchedAgree(fragments);
    AnyOrder(base, fragments, order);
  }

  // ---------------------------------------------------------------- the path law of precedence

  lemma {:induction false} DisjointNotNear(f: Json, g: Json, p: Path)
    requires LeafDisjoint(f, g) && LeafAt(g, p)
    ensures !LeafNear(f, p)
    decreases |p|
  {
    LeafNearChild(f, p);
    if p[0] in f.fields {
      DisjointNotNear(f.fields[p[0]], g.fields[p[0]], p[1..]);
    }
  }

  ghost predicate LeafOfSome(fragments: seq<Json>, p: Path, leaf: Json) {
    exists i | 0 <= i < |fragments| :: At(fragments[i], p) == Some(leaf)
  }

  ghost predicate NearSome(fragments: seq<Json>, p: Path) {
    exists i | 0 <= i < |fragments| :: LeafNear(fragments[i], p)
  }

  /** Every fragment leaf appears unchanged at its path; an operator leaf survives exactly when no
      fragment has a leaf at, above or below its path; nothing else appears. */
  lemma {:induction false} LayerLeaf(base: Json, fragments: seq<Json>, p: Path, leaf: Json)
    requires base.Obj? && WellMatched(fragments) && !leaf.Obj?
    ensures Layer(base, fragments).Obj?
    ensures At(Layer(base, fragments), p) == Some(leaf)
       <==> LeafOfSome(fragments, p, leaf) || (At(base, p) == Some(leaf) && !NearSome(fragments, p))
    decreases |fragments|
  {
    if fragments == [] {
    } else {
      var n := |fragments| - 1;
      var init, f := fragments[..n], fragments[n];
      LayerLeaf(base, init, p, leaf);
      MergeLeaf(Layer(base, init), f, p, leaf);
      LastFragment(fragments, p, leaf);
      if LeafOfSome(init, p, leaf) {
        var i :| 0 <= i < |init| && At(init[i], p) == Some(leaf);
        DisjointNotNear(f, fragments[i], p);
      }
    }
  }

  lemma LastFragment(fragments: seq<Json>, p: Path, leaf: Json)
    requires fragments != []
    ensures var n := |fragments| - 1;
      && (LeafOfSome(fragments, p, leaf) <==> LeafOfSome(fragments[..n], p, leaf) || At(fragments[n], p) == Some(leaf))
      && (NearSome(fragments, p) <==> NearSome(fragments[..n], p) || LeafNear(fragments[n], p))
  {
    var n := |fragments| - 1;
    var init := fragments[..n];
    assert forall i | 0 <= i < n :: init[i] == fragments[i];
    if LeafOfSome(init, p, leaf) {
      var i :| 0 <= i < n && At(init[i], p) == Some(leaf);
      assert At(fragments[i], p) == Some(leaf);
    }
    if NearSome(init, p) {
      var i :| 0 <= i < n && LeafNear(init[i], p);
      assert LeafNear(fragments[i], p);
    }
  }

  /** The path law for buildValues itself. */
  lemma ValuesLeaf(base: Option<Json>, e: ExposureValues, ca: Pem, v: VaultPlugin, version: string,
                   p: Path, leaf: Json)
    requires Values(base, e, ca, v, version).Success? && !leaf.Obj?
    ensures var r := Values(base, e, ca, v, version).value;
            var fragments := Fragments(Decoded(base), e, ca, v, version).value;
      (At(Decoded(r), p) == Some(leaf)
       <==> LeafOfSome(fragments, p, leaf) || (At(Decoded(base), p) == Some(leaf) && !NearSome(fragments, p)))
  {
    FragmentsMatch(Decoded(base), e, ca, v, version);
    LayerLeaf(Decoded(base), Fragments(Decoded(base), e, ca, v, version).value, p, leaf);
  }

  /** A fragment leaf is in the values whatever the operator supplied. */
  lemma FragmentLeafWins(base: Option<Json>, e: ExposureValues, ca: Pem, v: VaultPlugin, version: string,
                         f: Json, p: Path, leaf: Json)
    requires Values(base, e, ca, v, version).Success? && !leaf.Obj?
    requires f in Fragments(Decoded(base), e, ca, v, version).value && At(f, p) == Some(leaf)
    ensures At(Decoded(Values(base, e, ca, v, version).value), p) == Some(leaf)
  {
    ValuesLeaf(base, e, ca, v, version, p, leaf);
    var fragments := Fragments(Decoded(base), e, ca, v, version).value;
    var i :| 0 <= i < |fragments| && fragments[i] == f;
    assert LeafOfSome(fragments, p, leaf);
  }

  // ---------------------------------------------------------------- what the platform can rely on

  lemma ServiceAt(e: ExposureValues, rest: Path)
    ensures var service := ExposureFragment(e).fields["server"].fields["service"];
      service.Obj? && At(ExposureFragment(e), ["server", "service"] + rest) == At(service, rest)
  {
    var f := ExposureFragment(e);
    assert ["server", "service"] + rest == ["server"] + (["service"] + rest);
    Hop(f, "server", ["service"] + rest);
    Hop(f.fields["server"], "service", rest);
  }

  lemma AnnotationLeaf(e: ExposureValues, k: string)
    requires k in Annotations(e).fields
    ensures At(ExposureFragment(e), ["server", "service", "annotations", k]) == Some(Annotations(e).fields[k])
  {
    var rest := ["annotations"] + [k];
    assert ["server", "service"] + rest == ["server", "service", "annotations", k];
    ServiceAt(e, rest);
    Hop(ExposureFragment(e).fields["server"].fields["service"], "annotations", [k]);
    Hop(Annotations(e), k, []);
    assert [k] + [] == [k];
  }

  lemma UrlLeaf(e: ExposureValues)
    ensures At(ExposureFragment(e), ["configs", "cm", "url"]) == Some(Str("https://" + e.host))
  {
    var f := ExposureFragment(e);
    Hop(f, "configs", ["cm", "url"]);
    Hop(f.fields["configs"], "cm", ["url"]);
    Hop(f.fields["configs"].fields["cm"], "url", []);
  }

  lemma ExposureLeaves(e: ExposureValues)
    ensures var f := ExposureFragment(e);
      && At(f, ["server", "service", "type"]) == Some(Str("LoadBalancer"))
      && (forall k | k in Annotations(e).fields ::
            At(f, ["server", "service", "annotations", k]) == Some(Annotations(e).fields[k]))
      && At(f, ["configs", "cm", "url"]) == Some(Str("https://" + e.host))
  {
    ServiceAt(e, ["type"]);
    assert ["server", "service"] + ["type"] == ["server", "service", "type"];
    Hop(ExposureFragment(e).fields["server"].fields["service"], "type", []);
    forall k | k in Annotations(e).fields
      ensures At(ExposureFragment(e), ["server", "service", "annotations", k]) == Some(Annotations(e).fields[k])
    {
      AnnotationLeaf(e, k);
    }
    UrlLeaf(e);
  }

  lemma Hop(j: Json, k: string, rest: Path)
    requires j.Obj? && k in j.fields
    ensures At(j, [k] + rest) == At(j.fields[k], rest)
    ensures At(j, [k] + rest).Some? ==> [k] + rest != []
  {
    AtChild(j, k, rest);
  }

  /** With exposure, no operator input can drop the LoadBalancer type, one of the DNS and
      certificate annotations, or the server's own URL. */
  lemma ExposureAlwaysWins(base: Option<Json>, e: ExposureValues, ca: Pem, v: VaultPlugin, version: string)
    requires Values(base, e, ca, v, version).Success? && e.enabled
    ensures var r := Decoded(Values(base, e, ca, v, version).value);
      && At(r, ["server", "service", "type"]) == Some(Str("LoadBalancer"))
      && (forall k | k in Annotations(e).fields ::
            At(r, ["server", "service", "annotations", k]) == Some(Annotations(e).fields[k]))
      && At(r, ["configs", "cm", "url"]) == Some(Str("https://" + e.host))
  {
    var f := ExposureFragment(e);
    ExposureLeaves(e);
    ExposureIncluded(Decoded(base), e, ca, v, version);
    FragmentLeafWins(base, e, ca, v, version, f, ["server", "service", "type"], Str("LoadBalancer"));
    FragmentLeafWins(base, e, ca, v, version, f, ["configs", "cm", "url"], Str("https://" + e.host));
    forall k | k in Annotations(e).fields
      ensures At(Decoded(Values(base, e, ca, v, version).value), ["server", "service", "annotations", k])
           == Some(Annotations(e).fields[k])
    {
      AnnotationIsLeaf(e, k);
      FragmentLeafWins(base, e, ca, v, version, f, ["server", "service", "annotations", k], Annotations(e).fields[k]);
    }
  }

  lemma RangesLeaf(e: ExposureValues)
    requires e.allowedIPs != []
    ensures At(ExposureFragment(e), ["server", "service", "loadBalancerSourceRanges"])
         == Some(List(Strings(e.allowedIPs)))
  {
    ServiceAt(e, ["loadBalancerSourceRanges"]);
    assert ["server", "service"] + ["loadBalancerSourceRanges"] == ["server", "service", "loadBalancerSourceRanges"];
    Hop(ExposureFragment(e).fields["server"].fields["service"], "loadBalancerSourceRanges", []);
  }

  lemma ReloadLeaf(e: ExposureValues)
    requires e.reloaderEnabled
    ensures At(ExposureFragment(e), ["server", "deploymentAnnotations", RELOAD_KEY])
         == Some(Str("argocd-secret, " + SERVER_TLS_SECRET))
  {
    var server := ExposureFragment(e).fields["server"];
    Hop(ExposureFragment(e), "server", ["deploymentAnnotations", RELOAD_KEY]);
    Hop(server, "deploymentAnnotations", [RELOAD_KEY]);
    Hop(server.fields["deploymentAnnotations"], RELOAD_KEY, []);
  }

  /** Nor can any drop the source ranges the tenant asked for, or the reload annotation on the server
      when Reloader is there. */
  lemma RangesAndReloadAlwaysWin(base: Option<Json>, e: ExposureValues, ca: Pem, v: VaultPlugin, version: string)
    requires Values(base, e, ca, v, version).Success? && e.enabled
    ensures var r := Decoded(Values(base, e, ca, v, version).value);
      && (e.allowedIPs != [] ==>
            At(r, ["server", "service", "loadBalancerSourceRanges"]) == Some(List(Strings(e.allowedIPs))))
      && (e.reloaderEnabled ==>
            At(r, ["server", "deploymentAnnotations", RELOAD_KEY]) == Some(Str("argocd-secret, " + SERVER_TLS_SECRET)))
  {
    var f := ExposureFragment(e);
    ExposureIncluded(Decoded(base), e, ca, v, version);
    if e.allowedIPs != [] {
      RangesLeaf(e);
      FragmentLeafWins(base, e, ca, v, version, f, ["server", "service", "loadBalancerSourceRanges"],
                       List(Strings(e.allowedIPs)));
    }
    if e.reloaderEnabled {
      ReloadLeaf(e);
      FragmentLeafWins(base, e, ca, v, version, f, ["server", "deploymentAnnotations", RELOAD_KEY],
                       Str("argocd-secret, " + SERVER_TLS_SECRET));
    }
  }

  lemma AnnotationIsLeaf(e: ExposureValues, k: string)
    requires k in Annotations(e).fields
    ensures Annotations(e).fields[k].Str?
  {
  }

  lemma ExposureIncluded(values: Json, e: ExposureValues, ca: Pem, v: VaultPlugin, version: string)
    requires Fragments(values, e, ca, v, version).Success? && e.enabled
    ensures ExposureFragment(e) in Fragments(values, e, ca, v, version).value
  {
    var repository, hosts := FragmentsAre(values, e, ca, v, version);
    assert ExposureFragment(e) in When(e.enabled, ExposureFragment(e));
  }

  function CertPath(key: string): Path {
    ["configs", "tls", "certificates", key]
  }

  lemma CaLeaves(hosts: seq<string>, text: string, key: string)
    ensures At(CaFragment(hosts, text), CertPath(key)) == if key in hosts then Some(Str(text)) else None
    ensures key !in hosts ==> !LeafNear(CaFragment(hosts, text), CertPath(key))
  {
    var f := CaFragment(hosts, text);
    var p := CertPath(key);
    Hop(f, "configs", p[1..]);
    Hop(f.fields["configs"], "tls", p[2..]);
    Hop(f.fields["configs"].fields["tls"], "certificates", p[3..]);
    var certificates := Certificates(hosts, text);
    AtChild(certificates, key, []);
    LeafNearChild(f, p);
    LeafNearChild(f.fields["configs"], p[1..]);
    LeafNearChild(f.fields["configs"].fields["tls"], p[2..]);
    LeafNearChild(certificates, p[3..]);
    assert p == ["configs"] + p[1..] && p[1..] == ["tls"] + p[2..];
    assert p[2..] == ["certificates"] + p[3..] && p[3..] == [key] + [];
  }

  lemma OthersNotNearCerts(v: VaultPlugin, repository: string, version: string, e: ExposureValues, key: string)
    ensures !LeafNear(VaultFragment(v, repository, version), CertPath(key))
    ensures !LeafNear(ExposureFragment(e), CertPath(key))
  {
    var p := CertPath(key);
    LeafNearChild(VaultFragment(v, repository, version), p);
    var f := ExposureFragment(e);
    LeafNearChild(f, p);
    LeafNearChild(f.fields["configs"], p[1..]);
  }

  /** configs.tls.certificates maps every host of the CA bundle to the full bundle, for every
      operator input, and keeps each certificate the operator filed under another name. */
  lemma CaKeysExact(base: Option<Json>, e: ExposureValues, ca: Pem, v: VaultPlugin, version: string,
                    key: string, leaf: Json)
    requires Values(base, e, ca, v, version).Success? && ca.text != "" && !leaf.Obj?
    ensures var r := Decoded(Values(base, e, ca, v, version).value);
            var hosts := HostnamesOf(ca.certs).value;
      At(r, CertPath(key)) == Some(leaf)
      <==> if key in hosts then leaf == Str(ca.text) else At(Decoded(base), CertPath(key)) == Some(leaf)
  {
    var repository, hosts := FragmentsAre(Decoded(base), e, ca, v, version);
    var a, b, c := VaultFragment(v, repository, version), ExposureFragment(e), CaFragment(hosts, ca.text);
    var p := CertPath(key);
    CaLeaves(hosts, ca.text, key);
    OthersNotNearCerts(v, repository, version, e, key);
    ValuesLeaf(base, e, ca, v, version, p, leaf);
    OneNear(a, b, c, v.enabled, e.enabled, p, leaf);
    if key in hosts {
      assert LeafAt(c, p) && p <= p;
    }
  }

  /** When only the last of the fragments has leaves near p. */
  lemma OneNear(a: Json, b: Json, c: Json, withA: bool, withB: bool, p: Path, leaf: Json)
    requires !LeafNear(a, p) && !LeafNear(b, p) && !leaf.Obj?
    ensures var fragments := When(withA, a) + When(withB, b) + When(true, c);
      && (LeafOfSome(fragments, p, leaf) <==> At(c, p) == Some(leaf))
      && (NearSome(fragments, p) <==> LeafNear(c, p))
  {
    var fragments := When(withA, a) + When(withB, b) + When(true, c);
    var n := |fragments| - 1;
    assert fragments[n] == c;
    forall i | 0 <= i < n ensures fragments[i] == a || fragments[i] == b {}
    forall f: Json | At(f, p) == Some(leaf) ensures LeafNear(f, p) {
      assert LeafAt(f, p) && p <= p;
    }
  }

  // ---------------------------------------------------------------- image pull secrets

  /** One entry of global.imagePullSecrets, as decoding it into the Go struct reads its name. */
  function EntryName(entry: Json): Result<string> {
    if entry.Null? then Success("")
    else if !entry.Obj? then Failure("decoding values")
    else if "name" !in entry.fields || entry.fields["name"].Null? then Success("")
    else if entry.fields["name"].Str? then Success(entry.fields["name"].s)
    else Failure("decoding values")
  }

  function EntryNames(entries: seq<Json>): Result<seq<string>> {
    if entries == [] then Success([])
    else
      var before :- EntryNames(entries[..|entries| - 1]);
      var name :- EntryName(entries[|entries| - 1]);
      Success(if name == "" then before else before + [name])
  }

  /** The value under a key, with JSON null read as absent. */
  function Field(j: Json, key: string): Json {
    if j.Obj? && key in j.fields then j.fields[key] else Null
  }

  /** global.imagePullSecrets, if decoding reaches it. */
  function PullEntries(values: Json): Result<seq<Json>> {
    if values.Null? then Success([])
    else if !values.Obj? then Failure("decoding values")
    else
      var global := Field(values, "global");
      if global.Null? then Success([])
      else if !global.Obj? then Failure("decoding values")
      else
        var entries := Field(global, "imagePullSecrets");
        if entries.Null? then Success([])
        else if !entries.List? then Failure("decoding values")
        else Success(entries.items)
  }

  function PullNames(values: Option<Json>): Result<seq<string>> {
    if values.None? then Success([])
    else
      var entries :- PullEntries(values.value);
      EntryNames(entries)
  }

  /** The entry carries this name, which is not empty. */
  predicate Carries(entry: Json, name: string) {
    entry.Obj? && "name" in entry.fields && entry.fields["name"] == Str(name) && name != ""
  }

  /** What decoding accepts as an entry. */
  predicate EntryReadable(entry: Json) {
    entry.Null? || (entry.Obj? && ("name" in entry.fields ==> entry.fields["name"].Null? || entry.fields["name"].Str?))
  }

  /** The entries listed in the values, if any are. */
  function Listed(values: Option<Json>): seq<Json> {
    if values.None? then []
    else
      match At(values.value, ["global", "imagePullSecrets"])
      case Some(List(items)) => items
      case _ => []
  }

  /** What decoding accepts at a path: nothing, null, or what was asked for. */
  predicate AbsentOr(found: Option<Json>, asked: Json -> bool) {
    found.None? || found.value.Null? || asked(found.value)
  }

  /** The values that decode: objects down to global, a list below it, readable entries in it. */
  predicate Readable(values: Option<Json>) {
    && AbsentOr(values, (j: Json) => j.Obj?)
    && (values.Some? ==>
          && AbsentOr(At(values.value, ["global"]), (j: Json) => j.Obj?)
          && AbsentOr(At(values.value, ["global", "imagePullSecrets"]), (j: Json) => j.List?))
    && forall entry | entry in Listed(values) :: EntryReadable(entry)
  }

  /** at leads from the names, in order, to exactly the entries that carry one. */
  ghost predicate Picks(entries: seq<Json>, names: seq<string>, at: seq<nat>) {
    && |at| == |names|
    && (forall k | 0 <= k < |at| :: at[k] < |entries| && Carries(entries[at[k]], names[k]))
    && (forall k, l | 0 <= k < l < |at| :: at[k] < at[l])
    && (forall i: nat, n | i < |entries| && Carries(entries[i], n) :: i in at)
  }

  lemma {:induction false} EntryNamesPick(entries: seq<Json>) returns (at: seq<nat>)
    requires EntryNames(entries).Success?
    ensures Picks(entries, EntryNames(entries).value, at)
    decreases |entries|
  {
    if entries == [] {
      at := [];
    } else {
      var last: nat := |entries| - 1;
      var before := EntryNamesPick(entries[..last]);
      at := if EntryName(entries[last]) == Success("") then before else before + [last];
      assert forall i | 0 <= i < last :: entries[..last][i] == entries[i];
      forall i: nat, n | i < |entries| && Carries(entries[i], n) ensures i in at {
        if i == last {
          assert at[|at| - 1] == last;
        } else {
          assert Carries(entries[..last][i], n);
          assert i in before;
        }
      }
    }
  }

  lemma {:induction false} EntryNamesReadable(entries: seq<Json>)
    ensures EntryNames(entries).Success? <==> forall entry | entry in entries :: EntryReadable(entry)
    decreases |entries|
  {
    if entries == [] {
    } else {
      var init, last := entries[..|entries| - 1], entries[|entries| - 1];
      EntryNamesReadable(init);
      assert entries == init + [last];
      assert EntryName(last).Success? <==> EntryReadable(last);
      assert forall entry | entry in entries :: entry in init || entry == last;
    }
  }

  lemma PullEntriesAre(values: Json)
    ensures PullEntries(values).Success? ==> PullEntries(values).value == Listed(Some(values))
    ensures PullEntries(values).Success? <==>
              && AbsentOr(Some(values), (j: Json) => j.Obj?)
              && AbsentOr(At(values, ["global"]), (j: Json) => j.Obj?)
              && AbsentOr(At(values, ["global", "imagePullSecrets"]), (j: Json) => j.List?)
  {
    if values.Obj? {
      AtChild(values, "global", []);
      AtChild(values, "global", ["imagePullSecrets"]);
      assert ["global"] + [] == ["global"];
      assert ["global"] + ["imagePullSecrets"] == ["global", "imagePullSecrets"];
      if "global" in values.fields && values.fields["global"].Obj? {
        AtChild(values.fields["global"], "imagePullSecrets", []);
        assert ["imagePullSecrets"] + [] == ["imagePullSecrets"];
      }
    }
  }

  /** The pull secret names of values in words: every non-empty name listed under
      global.imagePullSecrets, in order and as often as it is listed, or an error for values that do
      not decode. */
  lemma PullNamesInWords(values: Option<Json>) returns (at: seq<nat>)
    ensures PullNames(values).Success? <==> Readable(values)
    ensures PullNames(values).Success? ==> Picks(Listed(values), PullNames(values).value, at)
  {
    at := [];
    if values.Some? {
      PullEntriesAre(values.value);
      if PullEntries(values.value).Success? {
        EntryNamesReadable(Listed(values));
        if PullNames(values).Success? {
          at := EntryNamesPick(Listed(values));
        }
      }
    }
  }

  /** ImagePullSecretNames. */
  method ImagePullSecretNames(values: Option<Json>) returns (r: Result<seq<string>>)
    ensures r == PullNames(values)
    ensures r.Success? <==> Readable(values)
    ensures r.Success? ==> exists at :: Picks(Listed(values), r.value, at)
  {
    ghost var at := PullNamesInWords(values);
    if values.None? {
      return Success([]);
    }
    var entries := PullEntries(values.value);
    if entries.Failure? {
      return Failure(entries.error);
    }
    var names: seq<string> := [];
    for i := 0 to |entries.value|
      invariant EntryNames(entries.value[..i]) == Success(names)
    {
      assert entries.value[..i + 1][..i] == entries.value[..i];
      var name := EntryName(entries.value[i]);
      if name.Failure? {
        EntryNamesFails(entries.value, i);
        return Failure(name.error);
      }
      if name.value != "" {
        names := names + [name.value];
      }
    }
    assert entries.value[..|entries.value|] == entries.value;
    return Success(names);
  }

  lemma {:induction false} EntryNamesFails(entries: seq<Json>, i: nat)
    requires i < |entries| && EntryName(entries[i]).Failure? && EntryNames(entries[..i]).Success?
    ensures EntryNames(entries) == Failure("decoding values")
    decreases |entries|
  {
    if i < |entries| - 1 {
      var init := entries[..|entries| - 1];
      assert init[..i] == entries[..i];
      EntryNamesFails(init, i);
    } else {
      assert entries[..|entries| - 1] == entries[..i];
    }
  }

  /** Layers that do not speak about global leave what decoding finds there. */
  lemma {:induction false} LayersKeepGlobal(base: Json, fragments: seq<Json>)
    requires base.Obj? && forall f | f in fragments :: f.Obj? && "global" !in f.fields
    ensures Layer(base, fragments).Obj? && Field(Layer(base, fragments), "global") == Field(base, "global")
    decreases |fragments|
  {
    if fragments == [] {
    } else {
      LayersKeepGlobal(base, fragments[..|fragments| - 1]);
    }
  }

  function NamesIn(j: Json): Result<seq<string>> {
    var entries :- PullEntries(j);
    EntryNames(entries)
  }

  /** No values at all name as many secrets as an empty object. */
  lemma NamesOfEmpty(j: Json)
    ensures PullNames(if j == Obj(map[]) then None else Some(j)) == NamesIn(j)
    ensures PullNames(None) == NamesIn(Obj(map[]))
  {
  }

  lemma NamesOfValues(base: Option<Json>, e: ExposureValues, ca: Pem, v: VaultPlugin, version: string)
    requires Values(base, e, ca, v, version).Success?
    ensures PullNames(Values(base, e, ca, v, version).value)
         == NamesIn(Layer(Decoded(base), Fragments(Decoded(base), e, ca, v, version).value))
    ensures PullNames(base) == NamesIn(Decoded(base))
  {
    NamesOfEmpty(Layer(Decoded(base), Fragments(Decoded(base), e, ca, v, version).value));
  }

  lemma NoGlobalInOthers(e: ExposureValues, hosts: seq<string>, text: string)
    ensures ExposureFragment(e).Obj? && "global" !in ExposureFragment(e).fields
    ensures CaFragment(hosts, text).Obj? && "global" !in CaFragment(hosts, text).fields
  {
  }

  lemma NamesOfLayers(values: Json, e: ExposureValues, ca: Pem, v: VaultPlugin, version: string)
    requires values.Obj? && Fragments(values, e, ca, v, version).Success?
    ensures NamesIn(Layer(values, Fragments(values, e, ca, v, version).value))
         == if v.enabled && !v.openSource then Success(["artifactory"]) else NamesIn(values)
  {
    var repository, hosts := FragmentsAre(values, e, ca, v, version);
    NoGlobalInOthers(e, hosts, ca.text);
    ThreeLayersNames(values, VaultFragment(v, repository, version), ExposureFragment(e),
                     CaFragment(hosts, ca.text), v.enabled, e.enabled, ca.text != "");
    if v.enabled {
      VaultPullNames(values, v, repository, version);
      BundleNames();
    }
  }

  /** The secrets named in the compiled values: for the internal vault bundle, its own entry,
      and otherwise what the operator named, in the same order. */
  lemma CompiledPullNames(base: Option<Json>, e: ExposureValues, ca: Pem, v: VaultPlugin, version: string)
    requires Values(base, e, ca, v, version).Success?
    ensures PullNames(Values(base, e, ca, v, version).value)
         == if v.enabled && !v.openSource then Success(["artifactory"]) else PullNames(base)
  {
    NamesOfValues(base, e, ca, v, version);
    NamesOfLayers(Decoded(base), e, ca, v, version);
  }

  lemma ThreeLayersNames(values: Json, a: Json, b: Json, c: Json, withA: bool, withB: bool, withC: bool)
    requires values.Obj? && a.Obj? && b.Obj? && c.Obj? && "global" !in b.fields && "global" !in c.fields
    ensures PullEntries(Layer(values, When(withA, a) + When(withB, b) + When(withC, c)))
         == PullEntries(if withA then Merge(values, a) else values)
  {
    ThreeLayersGlobal(values, a, b, c, withA, withB, withC);
    SameGlobalSameNames(Layer(values, When(withA, a) + When(withB, b) + When(withC, c)),
                        if withA then Merge(values, a) else values);
  }

  lemma ThreeLayersGlobal(values: Json, a: Json, b: Json, c: Json, withA: bool, withB: bool, withC: bool)
    requires values.Obj? && a.Obj? && b.Obj? && c.Obj? && "global" !in b.fields && "global" !in c.fields
    ensures var merged := Layer(values, When(withA, a) + When(withB, b) + When(withC, c));
      merged.Obj? && Field(merged, "global") == Field(if withA then Merge(values, a) else values, "global")
  {
    var first, second, third := When(withA, a), When(withB, b), When(withC, c);
    LayerConcat(values, first, second);
    LayerConcat(values, first + second, third);
    if withA {
      LayerOne(values, a);
    }
    LayersKeepGlobal(Layer(values, first), second);
    LayersKeepGlobal(Layer(Layer(values, first), second), third);
  }

  lemma SameGlobalSameNames(j: Json, k: Json)
    requires j.Obj? && k.Obj? && Field(j, "global") == Field(k, "global")
    ensures PullEntries(j) == PullEntries(k)
  {
  }

  lemma FieldOfMerge(dst: Json, src: Json, key: string)
    requires dst.Obj? && src.Obj?
    ensures Merge(dst, src).Obj?
    ensures key !in src.fields ==> Field(Merge(dst, src), key) == Field(dst, key)
    ensures key in src.fields && key in dst.fields ==>
              Field(Merge(dst, src), key) == Merge(dst.fields[key], src.fields[key])
    ensures key in src.fields && key !in dst.fields ==> Field(Merge(dst, src), key) == src.fields[key]
  {
  }

  lemma VaultPullNames(values: Json, v: VaultPlugin, repository: string, version: string)
    requires values.Obj? && GlobalImageRepository(values).Success?
    ensures PullEntries(Merge(values, VaultFragment(v, repository, version)))
         == if v.openSource then PullEntries(values)
            else Success([Obj(map["name" := Str("artifactory")])])
  {
    var fragment := VaultFragment(v, repository, version);
    AtChild(values, "global", ["image", "repository"]);
    assert ["global"] + ["image", "repository"] == ["global", "image", "repository"];
    var operator, vault := values.fields["global"], fragment.fields["global"];
    FieldOfMerge(values, fragment, "global");
    FieldOfMerge(operator, vault, "imagePullSecrets");
  }

  lemma BundleNames()
    ensures EntryNames([Obj(map["name" := Str("artifactory")])]) == Success(["artifactory"])
  {
    var entry := Obj(map["name" := Str("artifactory")]);
    assert [entry][..0] == [] && [] + ["artifactory"] == ["artifactory"];
    assert EntryName(entry) == Success("artifactory");
  }

  /** Install replicates the names it reads from the raw operator values. They are the names in the
      compiled values unless the internal vault bundle is layered on top and the operator asked for
      something else than that bundle does. */
  lemma PullSecretAgreementIff(base: Option<Json>, e: ExposureValues, ca: Pem, v: VaultPlugin, version: string)
    requires Values(base, e, ca, v, version).Success?
    ensures PullNames(Values(base, e, ca, v, version).value) == PullNames(base)
       <==> !v.enabled || v.openSource || PullNames(base) == Success(["artifactory"])
  {
    CompiledPullNames(base, e, ca, v, version);
  }

  lemma RepositoryOnly(repository: string)
    requires repository != ""
    ensures var base := Obj(map["global" := Obj(map["image" := Obj(map["repository" := Str(repository)])])]);
      GlobalImageRepository(base) == Success(repository) && PullNames(Some(base)) == Success([])
  {
    var image := Obj(map["repository" := Str(repository)]);
    var global := Obj(map["image" := image]);
    assert At(image, ["repository"]) == Some(Str(repository));
    assert ["image", "repository"][1..] == ["repository"];
    assert At(global, ["image", "repository"]) == Some(Str(repository));
    assert ["global", "image", "repository"][1..] == ["image", "repository"];
  }

  /** With the internal bundle over values that name no pull secret, Install replicates none, and the
      release asks for one. */
  lemma PullSecretAgreementFails(lists: BundleLists)
    ensures var base := Some(Obj(map["global" := Obj(map["image" := Obj(map["repository" := Str("r")])])]));
            var e := ExposureValues(false, "", [], "", 0, "", false);
            var values := Values(base, e, Pem("", None), VaultPlugin(true, false, lists), "1");
      && PullNames(base) == Success([])
      && values.Success? && PullNames(values.value) == Success(["artifactory"])
  {
    var base := Some(Obj(map["global" := Obj(map["image" := Obj(map["repository" := Str("r")])])]));
    var e := ExposureValues(false, "", [], "", 0, "", false);
    RepositoryOnly("r");
    CompiledPullNames(base, e, Pem("", None), VaultPlugin(true, false, lists), "1");
  }
}
