/** The compiled Helm values written out: which leaf every configuration puts at which path, when
    compilation succeeds, and what decimal text stands for a number. */
module ValuesInWords {
  import opened Wrappers
  import opened JsonTrees
  import opened Certs
  import opened HelmValues
  import opened ValuesLaws

  // ---------------------------------------------------------------- decimal numbers

  predicate Digit(c: char) {
    '0' <= c <= '9'
  }

  predicate AllDigits(text: string) {
    forall c | c in text :: Digit(c)
  }

  /** The value of a row of digits. */
  function Worth(text: string): nat
    requires AllDigits(text)
  {
    if text == "" then 0
    else
      var init, last := text[..|text| - 1], text[|text| - 1];
      assert last in text && forall c | c in init :: c in text;
      Worth(init) * 10 + (last as int - '0' as int)
  }

  /** Digits without leading zeros. */
  predicate Numeral(text: string, n: nat) {
    text != "" && AllDigits(text) && Worth(text) == n && (text[0] == '0' ==> |text| == 1)
  }

  predicate Decimal(text: string, n: int) {
    if n < 0 then text != "" && text[0] == '-' && Numeral(text[1..], -n) else Numeral(text, n)
  }

  /** Taking off the last digit. */
  lemma LastDigit(text: string)
    requires text != "" && AllDigits(text)
    ensures var init, last := text[..|text| - 1], text[|text| - 1];
      && text == init + [last] && Digit(last) && AllDigits(init)
      && Worth(init) == Worth(text) / 10 && last as int - '0' as int == Worth(text) % 10
  {
    var init, last := text[..|text| - 1], text[|text| - 1];
    assert last in text && forall c | c in init :: c in text;
  }

  lemma {:induction false} DigitsAreNumeral(n: nat)
    ensures Numeral(Digits(n), n)
  {
    var text := Digits(n);
    if n < 10 {
      assert text[..0] == "";
    } else {
      DigitsAreNumeral(n / 10);
      var init := Digits(n / 10);
      assert text[..|init|] == init;
      LastDigit(init);
    }
  }

  lemma {:induction false} NumeralIsDigits(text: string, n: nat)
    requires Numeral(text, n)
    ensures text == Digits(n)
    decreases |text|
  {
    var init, last := text[..|text| - 1], text[|text| - 1];
    LastOfNumeral(text, n);
    if |text| > 1 {
      WithoutLast(text, n);
      NumeralIsDigits(init, n / 10);
      assert Digits(n) == Digits(n / 10) + [last];
    } else {
      assert Digits(n) == "" + [last];
    }
  }

  lemma LastOfNumeral(text: string, n: nat)
    requires Numeral(text, n)
    ensures text[|text| - 1] == ('0' as int + n % 10) as char
    ensures text == text[..|text| - 1] + [text[|text| - 1]]
    ensures |text| == 1 ==> n < 10
  {
    LastDigit(text);
  }

  lemma WithoutLast(text: string, n: nat)
    requires Numeral(text, n) && |text| > 1
    ensures n >= 10 && Numeral(text[..|text| - 1], n / 10)
  {
    LastDigit(text);
    assert text[..|text| - 1][0] == text[0];
    NumeralNotZero(text[..|text| - 1]);
  }

  lemma {:induction false} NumeralNotZero(text: string)
    requires text != "" && AllDigits(text) && text[0] != '0'
    ensures Worth(text) > 0
    decreases |text|
  {
    LastDigit(text);
    var init := text[..|text| - 1];
    if init == "" {
      assert text[0] in text;
    } else {
      assert init[0] == text[0];
      NumeralNotZero(init);
    }
  }

  /** Itoa gives the decimal text of a number, and nothing else is one. */
  lemma ItoaIff(text: string, n: int)
    ensures text == Itoa(n) <==> Decimal(text, n)
  {
    var m := if n < 0 then -n else n;
    DigitsAreNumeral(m);
    if Decimal(text, n) {
      NumeralIsDigits(if n < 0 then text[1..] else text, m);
      assert n < 0 ==> text == "-" + text[1..];
    }
  }

  // ---------------------------------------------------------------- the leaves of each fragment

  /** A leaf of an object lies in one of its fields. */
  lemma Down(j: Json, p: Path, leaf: Json)
    requires j.Obj? && !leaf.Obj?
    ensures At(j, p) == Some(leaf) <==> p != [] && p[0] in j.fields && At(j.fields[p[0]], p[1..]) == Some(leaf)
  {
  }

  /** What exposure puts under server.service.annotations. */
  predicate AnnotationGives(e: ExposureValues, key: string, leaf: Json) {
    || TextAnnotation(e, key, leaf)
    || (key == "dns.gardener.cloud/ttl" && leaf.Str? && Decimal(leaf.s, e.dnsTTL))
  }

  predicate TextAnnotation(e: ExposureValues, key: string, leaf: Json) {
    || (key == "dns.gardener.cloud/dnsnames" && leaf == Str(e.host))
    || (key == "dns.gardener.cloud/class" && leaf == Str(e.dnsClass))
    || (key == "cert.gardener.cloud/purpose" && leaf == Str(e.certPurpose))
    || (key == "cert.gardener.cloud/commonname" && leaf == Str(e.host))
    || (key == "cert.gardener.cloud/dnsnames" && leaf == Str(e.host))
    || (key == "cert.gardener.cloud/secretname" && leaf == Str("argocd-server-tls"))
  }

  /** The list of these texts. */
  predicate IsListOf(leaf: Json, texts: seq<string>) {
    leaf.List? && |leaf.items| == |texts| && forall i | 0 <= i < |texts| :: leaf.items[i] == Str(texts[i])
  }

  /** What exposure puts at which path. */
  predicate ExposureGives(e: ExposureValues, p: Path, leaf: Json) {
    || (p == ["server", "service", "type"] && leaf == Str("LoadBalancer"))
    || (|p| == 4 && p[..3] == ["server", "service", "annotations"] && AnnotationGives(e, p[3], leaf))
    || (p == ["server", "service", "loadBalancerSourceRanges"] && e.allowedIPs != [] && IsListOf(leaf, e.allowedIPs))
    || (p == ["server", "deploymentAnnotations", "secret.reloader.stakater.com/reload"] && e.reloaderEnabled
        && leaf == Str("argocd-secret, argocd-server-tls"))
    || (p == ["configs", "cm", "url"] && leaf == Str("https://" + e.host))
  }

  lemma Ends(j: Json, p: Path, leaf: Json)
    requires !j.Obj?
    ensures At(j, p) == Some(leaf) <==> p == [] && leaf == j
  {
  }

  lemma AnnotationField(e: ExposureValues, key: string, leaf: Json)
    ensures key in Annotations(e).fields && Annotations(e).fields[key] == leaf <==> AnnotationGives(e, key, leaf)
    ensures key in Annotations(e).fields ==> !Annotations(e).fields[key].Obj?
  {
    AnnotationValues(e);
    var f := Annotations(e).fields;
    TextsFound(e, f, key);
    TextsThere(e, f, key, leaf);
    TtlIs(e, leaf);
  }

  lemma TtlIs(e: ExposureValues, leaf: Json)
    ensures leaf == Str(Itoa(e.dnsTTL)) <==> leaf.Str? && Decimal(leaf.s, e.dnsTTL)
  {
    if leaf.Str? {
      ItoaIff(leaf.s, e.dnsTTL);
    }
  }

  predicate AnnotationsAre(e: ExposureValues, f: map<string, Json>) {
    && f.Keys == {"dns.gardener.cloud/dnsnames", "dns.gardener.cloud/class", "dns.gardener.cloud/ttl",
                  "cert.gardener.cloud/purpose", "cert.gardener.cloud/commonname",
                  "cert.gardener.cloud/dnsnames", "cert.gardener.cloud/secretname"}
    && f["dns.gardener.cloud/dnsnames"] == Str(e.host)
    && f["dns.gardener.cloud/class"] == Str(e.dnsClass)
    && f["dns.gardener.cloud/ttl"] == Str(Itoa(e.dnsTTL))
    && f["cert.gardener.cloud/purpose"] == Str(e.certPurpose)
    && f["cert.gardener.cloud/commonname"] == Str(e.host)
    && f["cert.gardener.cloud/dnsnames"] == Str(e.host)
    && f["cert.gardener.cloud/secretname"] == Str("argocd-server-tls")
  }

  lemma AnnotationValues(e: ExposureValues)
    ensures AnnotationsAre(e, Annotations(e).fields)
  {
  }

  lemma TextsFound(e: ExposureValues, f: map<string, Json>, key: string)
    requires AnnotationsAre(e, f)
    ensures key in f && key != "dns.gardener.cloud/ttl" ==> TextAnnotation(e, key, f[key])
  {
  }

  lemma TextsThere(e: ExposureValues, f: map<string, Json>, key: string, leaf: Json)
    requires AnnotationsAre(e, f)
    ensures TextAnnotation(e, key, leaf) ==> key in f && f[key] == leaf
  {
  }

  lemma AnnotationsInWords(e: ExposureValues, p: Path, leaf: Json)
    requires !leaf.Obj?
    ensures At(Annotations(e), p) == Some(leaf) <==> |p| == 1 && AnnotationGives(e, p[0], leaf)
  {
    Down(Annotations(e), p, leaf);
    if p != [] {
      AnnotationField(e, p[0], leaf);
      if p[0] in Annotations(e).fields {
        Ends(Annotations(e).fields[p[0]], p[1..], leaf);
      }
    }
  }

  function ServiceOf(e: ExposureValues): Json {
    ExposureFragment(e).fields["server"].fields["service"]
  }

  lemma ServiceFields(e: ExposureValues)
    ensures var f := ServiceOf(e);
      && f.Obj? && "type" in f.fields && f.fields["type"] == Str("LoadBalancer")
      && "annotations" in f.fields && f.fields["annotations"] == Annotations(e)
      && ("loadBalancerSourceRanges" in f.fields <==> e.allowedIPs != [])
      && (e.allowedIPs != [] ==> f.fields["loadBalancerSourceRanges"] == List(Strings(e.allowedIPs)))
      && f.fields.Keys <= {"type", "annotations", "loadBalancerSourceRanges"}
  {
  }

  lemma StringsInWords(leaf: Json, texts: seq<string>)
    ensures leaf == List(Strings(texts)) <==> IsListOf(leaf, texts)
  {
  }

  /** What exposure puts below server.service. */
  predicate ServiceGives(e: ExposureValues, p: Path, leaf: Json) {
    || (p == ["type"] && leaf == Str("LoadBalancer"))
    || (|p| == 2 && p[0] == "annotations" && AnnotationGives(e, p[1], leaf))
    || (p == ["loadBalancerSourceRanges"] && e.allowedIPs != [] && IsListOf(leaf, e.allowedIPs))
  }

  lemma ServiceInWords(e: ExposureValues, p: Path, leaf: Json)
    requires !leaf.Obj?
    ensures At(ServiceOf(e), p) == Some(leaf) <==> ServiceGives(e, p, leaf)
  {
    ServiceFields(e);
    Down(ServiceOf(e), p, leaf);
    if p != [] && p[0] in ServiceOf(e).fields {
      AnnotationsInWords(e, p[1..], leaf);
      StringsInWords(leaf, e.allowedIPs);
      if p[0] != "annotations" {
        Ends(ServiceOf(e).fields[p[0]], p[1..], leaf);
      }
    }
  }

  lemma ServerFields(e: ExposureValues)
    ensures var f := ExposureFragment(e).fields["server"];
      && f.Obj? && "service" in f.fields && f.fields["service"] == ServiceOf(e)
      && ("deploymentAnnotations" in f.fields <==> e.reloaderEnabled)
      && (e.reloaderEnabled ==>
            f.fields["deploymentAnnotations"]
            == Obj(map["secret.reloader.stakater.com/reload" := Str("argocd-secret, argocd-server-tls")]))
      && f.fields.Keys <= {"service", "deploymentAnnotations"}
  {
    ReloadText();
  }

  lemma ReloadText()
    ensures "argocd-secret, " + SERVER_TLS_SECRET == "argocd-secret, argocd-server-tls"
  {
  }

  /** An object with one field that is a leaf. */
  lemma OneField(key: string, value: Json, p: Path, leaf: Json)
    requires !leaf.Obj? && !value.Obj?
    ensures At(Obj(map[key := value]), p) == Some(leaf) <==> p == [key] && leaf == value
  {
    Down(Obj(map[key := value]), p, leaf);
    if p != [] {
      Ends(value, p[1..], leaf);
    }
  }

  lemma ServerInWords(e: ExposureValues, p: Path, leaf: Json)
    requires !leaf.Obj?
    ensures At(ExposureFragment(e).fields["server"], p) == Some(leaf) <==>
      || (p != [] && p[0] == "service" && ServiceGives(e, p[1..], leaf))
      || (p == ["deploymentAnnotations", "secret.reloader.stakater.com/reload"] && e.reloaderEnabled
          && leaf == Str("argocd-secret, argocd-server-tls"))
  {
    ServerFields(e);
    Down(ExposureFragment(e).fields["server"], p, leaf);
    if p != [] {
      ServiceInWords(e, p[1..], leaf);
      OneField("secret.reloader.stakater.com/reload", Str("argocd-secret, argocd-server-tls"), p[1..], leaf);
      assert p == [p[0]] + p[1..];
    }
  }

  lemma ConfigsInWords(e: ExposureValues, p: Path, leaf: Json)
    requires !leaf.Obj?
    ensures At(ExposureFragment(e).fields["configs"], p) == Some(leaf)
       <==> p == ["cm", "url"] && leaf == Str("https://" + e.host)
  {
    Down(ExposureFragment(e).fields["configs"], p, leaf);
    if p != [] {
      OneField("url", Str("https://" + e.host), p[1..], leaf);
      assert p == [p[0]] + p[1..];
    }
  }

  lemma ExposureInWords(e: ExposureValues, p: Path, leaf: Json)
    requires !leaf.Obj?
    ensures At(ExposureFragment(e), p) == Some(leaf) <==> ExposureGives(e, p, leaf)
  {
    Down(ExposureFragment(e), p, leaf);
    assert ExposureFragment(e).fields.Keys == {"server", "configs"};
    if p != [] {
      var rest := p[1..];
      assert p == [p[0]] + rest;
      ServerInWords(e, rest, leaf);
      ConfigsInWords(e, rest, leaf);
      if rest != [] {
        assert p == [p[0], p[1]] + rest[1..];
        assert rest[1..] == p[2..];
        if |p| == 4 {
          assert p[..3] == [p[0], p[1], p[2]];
        }
      }
    }
  }

  /** What the vault plugin puts at which path. */
  predicate VaultGives(v: VaultPlugin, repository: string, version: string, p: Path, leaf: Json) {
    || (p == ["global", "repository"] && leaf == Str(repository))
    || (p == ["global", "tag"] && leaf == Str(version))
    || (p == ["global", "imagePullSecrets"] && !v.openSource && NamesArtifactory(leaf))
    || (p == ["repoServer", "deploymentAnnotations", "secret.reloader.stakater.com/reload"]
        && leaf == Str("vault-configuration"))
    || (p == ["repoServer", "imagePullSecrets"] && !v.openSource && NamesArtifactory(leaf))
    || (p == ["repoServer", "volumes"] && leaf == List(v.lists.volumes))
    || (p == ["repoServer", "initContainers"] && leaf == List(v.lists.initContainers))
    || (p == ["repoServer", "extraContainers"] && leaf == List(v.lists.extraContainers))
    || (p == ["extraObjects"] && leaf == List(v.lists.extraObjects))
  }

  predicate NamesArtifactory(leaf: Json) {
    leaf == List([Obj(map["name" := Str("artifactory")])])
  }

  lemma VaultGlobal(v: VaultPlugin, repository: string, version: string)
    ensures var f := VaultFragment(v, repository, version).fields["global"];
      && f.Obj? && "repository" in f.fields && f.fields["repository"] == Str(repository)
      && "tag" in f.fields && f.fields["tag"] == Str(version)
      && ("imagePullSecrets" in f.fields <==> !v.openSource)
      && (!v.openSource ==> NamesArtifactory(f.fields["imagePullSecrets"]))
      && f.fields.Keys <= {"repository", "tag", "imagePullSecrets"}
  {
  }

  lemma VaultServer(v: VaultPlugin, repository: string, version: string)
    ensures var f := VaultFragment(v, repository, version).fields["repoServer"];
      && f.Obj? && "deploymentAnnotations" in f.fields
      && f.fields["deploymentAnnotations"]
         == Obj(map["secret.reloader.stakater.com/reload" := Str("vault-configuration")])
      && "volumes" in f.fields && f.fields["volumes"] == List(v.lists.volumes)
      && "initContainers" in f.fields && f.fields["initContainers"] == List(v.lists.initContainers)
      && "extraContainers" in f.fields && f.fields["extraContainers"] == List(v.lists.extraContainers)
      && ("imagePullSecrets" in f.fields <==> !v.openSource)
      && (!v.openSource ==> NamesArtifactory(f.fields["imagePullSecrets"]))
      && f.fields.Keys
         <= {"deploymentAnnotations", "volumes", "initContainers", "extraContainers", "imagePullSecrets"}
  {
  }

  lemma GlobalInWords(v: VaultPlugin, repository: string, version: string, p: Path, leaf: Json)
    requires !leaf.Obj?
    ensures At(VaultFragment(v, repository, version).fields["global"], p) == Some(leaf) <==>
      || (p == ["repository"] && leaf == Str(repository))
      || (p == ["tag"] && leaf == Str(version))
      || (p == ["imagePullSecrets"] && !v.openSource && NamesArtifactory(leaf))
  {
    var f := VaultFragment(v, repository, version).fields["global"];
    VaultGlobal(v, repository, version);
    Down(f, p, leaf);
    if p != [] && p[0] in f.fields {
      Ends(f.fields[p[0]], p[1..], leaf);
    }
  }

  lemma RepoServerInWords(v: VaultPlugin, repository: string, version: string, p: Path, leaf: Json)
    requires !leaf.Obj?
    ensures At(VaultFragment(v, repository, version).fields["repoServer"], p) == Some(leaf) <==>
      || (p == ["deploymentAnnotations", "secret.reloader.stakater.com/reload"] && leaf == Str("vault-configuration"))
      || (p == ["imagePullSecrets"] && !v.openSource && NamesArtifactory(leaf))
      || (p == ["volumes"] && leaf == List(v.lists.volumes))
      || (p == ["initContainers"] && leaf == List(v.lists.initContainers))
      || (p == ["extraContainers"] && leaf == List(v.lists.extraContainers))
  {
    var f := VaultFragment(v, repository, version).fields["repoServer"];
    VaultServer(v, repository, version);
    Down(f, p, leaf);
    if p != [] && p[0] in f.fields {
      assert p == [p[0]] + p[1..];
      if p[0] == "deploymentAnnotations" {
        OneField("secret.reloader.stakater.com/reload", Str("vault-configuration"), p[1..], leaf);
      } else {
        Ends(f.fields[p[0]], p[1..], leaf);
      }
    }
  }

  lemma VaultInWords(v: VaultPlugin, repository: string, version: string, p: Path, leaf: Json)
    requires !leaf.Obj?
    ensures At(VaultFragment(v, repository, version), p) == Some(leaf)
       <==> VaultGives(v, repository, version, p, leaf)
  {
    var f := VaultFragment(v, repository, version);
    Down(f, p, leaf);
    assert f.fields.Keys == {"global", "repoServer", "extraObjects"};
    if p != [] {
      assert p == [p[0]] + p[1..];
      GlobalInWords(v, repository, version, p[1..], leaf);
      RepoServerInWords(v, repository, version, p[1..], leaf);
      Ends(f.fields["extraObjects"], p[1..], leaf);
    }
  }

  /** What the CA bundle puts at which path. */
  predicate CaGives(hosts: seq<string>, text: string, p: Path, leaf: Json) {
    |p| == 4 && p[..3] == ["configs", "tls", "certificates"] && p[3] in hosts && leaf == Str(text)
  }

  lemma CaInWords(hosts: seq<string>, text: string, p: Path, leaf: Json)
    requires !leaf.Obj?
    ensures At(CaFragment(hosts, text), p) == Some(leaf) <==> CaGives(hosts, text, p, leaf)
  {
    Down(CaFragment(hosts, text), p, leaf);
    if p != [] {
      Down(CaFragment(hosts, text).fields["configs"], p[1..], leaf);
      if |p| > 1 {
        assert p[1..][1..] == p[2..];
        Down(CaFragment(hosts, text).fields["configs"].fields["tls"], p[2..], leaf);
        if |p| > 2 {
          assert p[2..][1..] == p[3..];
          CertificatesInWords(hosts, text, p[3..], leaf);
          assert p[..3] == [p[0], p[1], p[2]];
        }
      }
    }
  }

  lemma CertificatesInWords(hosts: seq<string>, text: string, p: Path, leaf: Json)
    requires !leaf.Obj?
    ensures At(Certificates(hosts, text), p) == Some(leaf) <==> |p| == 1 && p[0] in hosts && leaf == Str(text)
  {
    Down(Certificates(hosts, text), p, leaf);
    if p != [] {
      Ends(Str(text), p[1..], leaf);
    }
  }

  // ---------------------------------------------------------------- the compiled values

  /** Where the vault bundle's repository comes from. */
  predicate HasRepository(values: Json) {
    At(values, ["global", "image", "repository"]).Some?
    && At(values, ["global", "image", "repository"]).value.Str?
    && At(values, ["global", "image", "repository"]).value.s != ""
  }

  /** Compilation succeeds exactly for operator values that are an object, with a repository in it if
      the vault plugin is on, and for a CA text, if there is one, that yields host names. */
  lemma ValuesSucceedIff(base: Option<Json>, e: ExposureValues, ca: Pem, v: VaultPlugin, version: string)
    ensures Values(base, e, ca, v, version).Success? <==>
      && Decoded(base).Obj?
      && (v.enabled ==> HasRepository(Decoded(base)))
      && (ca.text != "" ==> HostnamesOf(ca.certs).Success?)
  {
  }

  /** What the platform puts at which path. */
  predicate Gives(base: Option<Json>, e: ExposureValues, ca: Pem, v: VaultPlugin, version: string,
                  p: Path, leaf: Json)
  {
    || (v.enabled && HasRepository(Decoded(base))
        && VaultGives(v, At(Decoded(base), ["global", "image", "repository"]).value.s, version, p, leaf))
    || (e.enabled && ExposureGives(e, p, leaf))
    || (ca.text != "" && HostnamesOf(ca.certs).Success? && CaGives(HostnamesOf(ca.certs).value, ca.text, p, leaf))
  }

  /** The platform puts something at, above or below the path. */
  ghost predicate GivesNear(base: Option<Json>, e: ExposureValues, ca: Pem, v: VaultPlugin, version: string, p: Path) {
    exists q, leaf: Json :: !leaf.Obj? && Gives(base, e, ca, v, version, q, leaf) && (q <= p || p <= q)
  }

  /** The compiled values in words: what the platform puts at a path is there, an operator's leaf is
      where it was exactly when the platform puts nothing at, above or below it, and there is no other. */
  lemma CompiledInWords(base: Option<Json>, e: ExposureValues, ca: Pem, v: VaultPlugin, version: string,
                        p: Path, leaf: Json)
    requires Values(base, e, ca, v, version).Success? && !leaf.Obj?
    ensures At(Decoded(Values(base, e, ca, v, version).value), p) == Some(leaf)
       <==> Gives(base, e, ca, v, version, p, leaf)
            || (At(Decoded(base), p) == Some(leaf) && !GivesNear(base, e, ca, v, version, p))
  {
    var fragments := Fragments(Decoded(base), e, ca, v, version).value;
    ValuesLeaf(base, e, ca, v, version, p, leaf);
    forall q, x: Json | !x.Obj? ensures LeafOfSome(fragments, q, x) <==> Gives(base, e, ca, v, version, q, x) {
      FragmentsGive(base, e, ca, v, version, q, x);
    }
    NearIsGiven(base, e, ca, v, version, p);
  }

  lemma FragmentsGive(base: Option<Json>, e: ExposureValues, ca: Pem, v: VaultPlugin, version: string,
                      p: Path, leaf: Json)
    requires Values(base, e, ca, v, version).Success? && !leaf.Obj?
    ensures LeafOfSome(Fragments(Decoded(base), e, ca, v, version).value, p, leaf)
       <==> Gives(base, e, ca, v, version, p, leaf)
  {
    var repository, hosts := FragmentsAre(Decoded(base), e, ca, v, version);
    VaultInWords(v, repository, version, p, leaf);
    ExposureInWords(e, p, leaf);
    CaInWords(hosts, ca.text, p, leaf);
    var a, b, c := VaultFragment(v, repository, version), ExposureFragment(e), CaFragment(hosts, ca.text);
    OneOfThree(a, b, c, v.enabled, e.enabled, ca.text != "", p, leaf);
  }

  lemma OneOfThree(a: Json, b: Json, c: Json, withA: bool, withB: bool, withC: bool, p: Path, leaf: Json)
    ensures LeafOfSome(When(withA, a) + When(withB, b) + When(withC, c), p, leaf) <==>
      || (withA && At(a, p) == Some(leaf)) || (withB && At(b, p) == Some(leaf)) || (withC && At(c, p) == Some(leaf))
  {
    var fragments := When(withA, a) + When(withB, b) + When(withC, c);
    if withA {
      assert fragments[0] == a;
    }
    if withB {
      assert fragments[|When(withA, a)|] == b;
    }
    if withC {
      assert fragments[|fragments| - 1] == c;
    }
  }

  lemma NearIsGiven(base: Option<Json>, e: ExposureValues, ca: Pem, v: VaultPlugin, version: string, p: Path)
    requires Values(base, e, ca, v, version).Success?
    requires var fragments := Fragments(Decoded(base), e, ca, v, version).value;
      forall q, x: Json | !x.Obj? :: LeafOfSome(fragments, q, x) <==> Gives(base, e, ca, v, version, q, x)
    ensures NearSome(Fragments(Decoded(base), e, ca, v, version).value, p) <==> GivesNear(base, e, ca, v, version, p)
  {
    var fragments := Fragments(Decoded(base), e, ca, v, version).value;
    if NearSome(fragments, p) {
      var i :| 0 <= i < |fragments| && LeafNear(fragments[i], p);
      var q :| LeafAt(fragments[i], q) && (q <= p || p <= q);
      var x := At(fragments[i], q).value;
      assert LeafOfSome(fragments, q, x);
      assert Gives(base, e, ca, v, version, q, x);
    }
    if GivesNear(base, e, ca, v, version, p) {
      var q, x: Json :| !x.Obj? && Gives(base, e, ca, v, version, q, x) && (q <= p || p <= q);
      assert LeafOfSome(fragments, q, x);
      var i :| 0 <= i < |fragments| && At(fragments[i], q) == Some(x);
      assert LeafAt(fragments[i], q);
    }
  }

  /** No values come out exactly when none went in and nothing is switched on. */
  lemma NoValuesIff(base: Option<Json>, e: ExposureValues, ca: Pem, v: VaultPlugin, version: string)
    requires Values(base, e, ca, v, version).Success?
    ensures Values(base, e, ca, v, version).value == None
       <==> Decoded(base) == Obj(map[]) && !v.enabled && !e.enabled && ca.text == ""
  {
    if v.enabled || e.enabled || ca.text != "" {
      var p, leaf := SomethingGiven(base, e, ca, v, version);
      GivenLeavesValues(base, e, ca, v, version, p, leaf);
    } else {
      OffLeavesBase(base, e, ca, v, version);
    }
  }

  lemma GivenLeavesValues(base: Option<Json>, e: ExposureValues, ca: Pem, v: VaultPlugin, version: string,
                          p: Path, leaf: Json)
    requires Values(base, e, ca, v, version).Success?
    requires p != [] && !leaf.Obj? && Gives(base, e, ca, v, version, p, leaf)
    ensures Values(base, e, ca, v, version).value.Some?
  {
    CompiledInWords(base, e, ca, v, version, p, leaf);
  }

  /** Whatever is switched on gives a leaf. */
  lemma SomethingGiven(base: Option<Json>, e: ExposureValues, ca: Pem, v: VaultPlugin, version: string)
    returns (p: Path, leaf: Json)
    requires Values(base, e, ca, v, version).Success? && (v.enabled || e.enabled || ca.text != "")
    ensures p != [] && !leaf.Obj? && Gives(base, e, ca, v, version, p, leaf)
  {
    if e.enabled {
      p, leaf := ["configs", "cm", "url"], Str("https://" + e.host);
    } else if v.enabled {
      p, leaf := ["global", "tag"], Str(version);
      ValuesSucceedIff(base, e, ca, v, version);
    } else {
      ValuesSucceedIff(base, e, ca, v, version);
      HostnamesAre(ca.certs);
      p, leaf := FirstCertificate(HostnamesOf(ca.certs).value, ca.text);
    }
  }

  lemma FirstCertificate(hosts: seq<string>, text: string) returns (p: Path, leaf: Json)
    requires hosts != []
    ensures p != [] && !leaf.Obj? && CaGives(hosts, text, p, leaf)
  {
    p, leaf := ["configs", "tls", "certificates", hosts[0]], Str(text);
  }

  lemma OffLeavesBase(base: Option<Json>, e: ExposureValues, ca: Pem, v: VaultPlugin, version: string)
    requires Values(base, e, ca, v, version).Success? && !v.enabled && !e.enabled && ca.text == ""
    ensures Values(base, e, ca, v, version).value.None? <==> Decoded(base) == Obj(map[])
  {
    var repository, hosts := FragmentsAre(Decoded(base), e, ca, v, version);
  }
}
