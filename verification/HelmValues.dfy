/** The Helm values compiler (internal/argocd/values.go): three fragments layered over the
    operator's values, once as a pure composition of merges and once as it runs on the heap. */
module HelmValues {
  import opened Wrappers
  import opened JsonTrees
  import opened GoMaps
  import opened Certs

  datatype ExposureValues = ExposureValues(
    enabled: bool, host: string, allowedIPs: seq<string>,
    dnsClass: string, dnsTTL: int, certPurpose: string, reloaderEnabled: bool)

  /** The lists of the rendered vault bundle; merging never looks inside them. */
  datatype BundleLists = BundleLists(
    volumes: seq<Json>, initContainers: seq<Json>, extraContainers: seq<Json>, extraObjects: seq<Json>)

  datatype VaultPlugin = VaultPlugin(enabled: bool, openSource: bool, lists: BundleLists)

  const SERVER_TLS_SECRET := "argocd-server-tls"
  const RELOAD_KEY := "secret.reloader.stakater.com/reload"

  // ---------------------------------------------------------------- the fragments

  function Digits(n: nat): string {
    (if n < 10 then "" else Digits(n / 10)) + [('0' as int + n % 10) as char]
  }

  /** strconv.Itoa. */
  function Itoa(n: int): string {
    if n < 0 then "-" + Digits(-n) else Digits(n)
  }

  function Strings(entries: seq<string>): seq<Json> {
    seq(|entries|, i requires 0 <= i < |entries| => Str(entries[i]))
  }

  function Annotations(e: ExposureValues): Json {
    Obj(map[
          "dns.gardener.cloud/dnsnames" := Str(e.host),
          "dns.gardener.cloud/class" := Str(e.dnsClass),
          "dns.gardener.cloud/ttl" := Str(Itoa(e.dnsTTL)),
          "cert.gardener.cloud/purpose" := Str(e.certPurpose),
          "cert.gardener.cloud/commonname" := Str(e.host),
          "cert.gardener.cloud/dnsnames" := Str(e.host),
          "cert.gardener.cloud/secretname" := Str(SERVER_TLS_SECRET)])
  }

  function ExposureFragment(e: ExposureValues): Json {
    var service := map["type" := Str("LoadBalancer"), "annotations" := Annotations(e)]
                   + (if e.allowedIPs == [] then map[]
                      else map["loadBalancerSourceRanges" := List(Strings(e.allowedIPs))]);
    var server := map["service" := Obj(service)]
                  + (if !e.reloaderEnabled then map[]
                     else map["deploymentAnnotations" := Obj(map[
                                RELOAD_KEY := Str("argocd-secret, " + SERVER_TLS_SECRET)])]);
    Obj(map["server" := Obj(server),
            "configs" := Obj(map["cm" := Obj(map["url" := Str("https://" + e.host)])])])
  }

  function Certificates(hosts: seq<string>, text: string): Json {
    Obj(map h | h in hosts :: Str(text))
  }

  function CaFragment(hosts: seq<string>, text: string): Json {
    Obj(map["configs" := Obj(map["tls" := Obj(map["certificates" := Certificates(hosts, text)])])])
  }

  /** The bundled argocd-vault.yaml, rendered. Only the internal bundle names pull secrets. */
  function VaultFragment(v: VaultPlugin, repository: string, version: string): Json {
    var secrets := if v.openSource then map[]
                   else map["imagePullSecrets" := List([Obj(map["name" := Str("artifactory")])])];
    Obj(map[
          "global" := Obj(map["repository" := Str(repository), "tag" := Str(version)] + secrets),
          "repoServer" := Obj(map[
                                "deploymentAnnotations" := Obj(map[RELOAD_KEY := Str("vault-configuration")]),
                                "volumes" := List(v.lists.volumes),
                                "initContainers" := List(v.lists.initContainers),
                                "extraContainers" := List(v.lists.extraContainers)] + secrets),
          "extraObjects" := List(v.lists.extraObjects)])
  }

  /** globalImageRepository. */
  function GlobalImageRepository(values: Json): Result<string> {
    var repository := At(values, ["global", "image", "repository"]);
    if repository.Some? && repository.value.Str? && repository.value.s != "" then Success(repository.value.s)
    else Failure("global.image.repository is required and must be a non-empty string")
  }

  // ---------------------------------------------------------------- what the compiler computes

  function VaultLayer(values: Json, v: VaultPlugin, version: string): Result<seq<Json>> {
    if !v.enabled then Success([])
    else
      var repository :- GlobalImageRepository(values);
      Success([VaultFragment(v, repository, version)])
  }

  function ExposureLayer(e: ExposureValues): seq<Json> {
    if e.enabled then [ExposureFragment(e)] else []
  }

  function CaLayer(ca: Pem): Result<seq<Json>> {
    if ca.text == "" then Success([])
    else
      var hosts :- HostnamesOf(ca.certs);
      Success([CaFragment(hosts, ca.text)])
  }

  /** The fragments in precedence order, for operator values that decoded to an object. */
  function Fragments(values: Json, e: ExposureValues, ca: Pem, v: VaultPlugin, version: string)
    : Result<seq<Json>>
  {
    var vault :- VaultLayer(values, v, version);
    var bundle :- CaLayer(ca);
    Success(vault + ExposureLayer(e) + bundle)
  }

  function Layer(base: Json, fragments: seq<Json>): Json {
    if fragments == [] then base
    else Merge(Layer(base, fragments[..|fragments| - 1]), fragments[|fragments| - 1])
  }

  /** The operator values as decoded; none at all decode to the empty object. */
  function Decoded(base: Option<Json>): Json {
    if base.None? then Obj(map[]) else base.value
  }

  /** buildValues as a pure function: no values at all, or the layered tree. */
  function Values(base: Option<Json>, e: ExposureValues, ca: Pem, v: VaultPlugin, version: string)
    : Result<Option<Json>>
  {
    if !Decoded(base).Obj? then Failure("decoding operator-supplied values")
    else
      var fragments :- Fragments(Decoded(base), e, ca, v, version);
      var merged := Layer(Decoded(base), fragments);
      Success(if merged == Obj(map[]) then None else Some(merged))
  }

  // ---------------------------------------------------------------- the compiler on the heap

  /** mergeVaultPlugin. */
  method MergeVaultPlugin(values: GoMap, ghost d: Shape, v: VaultPlugin, version: string)
    returns (err: Option<string>, ghost r: Shape)
    requires d.node == values && Good(d) && v.enabled
    modifies d.foot
    ensures r.node == values && Good(r) && fresh(r.foot - d.foot)
    ensures match VaultLayer(old(Tree(d)), v, version)
            case Success(layer) => err == None && Tree(r) == Layer(old(Tree(d)), layer)
            case Failure(_) => err.Some?
  {
    var repository := GlobalImageRepository(Encode(values, d));
    if repository.Failure? {
      return Some(repository.error), d;
    }
    LayerOne(Tree(d), VaultFragment(v, repository.value, version));
    r := MergeTree(values, d, VaultFragment(v, repository.value, version));
    return None, r;
  }

  /** The last stage of mergeFragments. */
  method MergeCa(values: GoMap, ghost d: Shape, ca: Pem) returns (err: Option<string>, ghost r: Shape)
    requires d.node == values && Good(d) && ca.text != ""
    modifies d.foot
    ensures r.node == values && Good(r) && fresh(r.foot - d.foot)
    ensures match CaLayer(ca)
            case Success(layer) => err == None && Tree(r) == Layer(old(Tree(d)), layer)
            case Failure(_) => err.Some?
  {
    var hosts := CertHostnames(ca.certs);
    if hosts.Failure? {
      return Some(hosts.error), d;
    }
    LayerOne(Tree(d), CaFragment(hosts.value, ca.text));
    r := MergeTree(values, d, CaFragment(hosts.value, ca.text));
    return None, r;
  }

  /** mergeFragments: three in-place merges. Each later one may write through maps that an earlier
      one grafted into values; the outcome is the pure composition all the same. */
  method MergeFragments(values: GoMap, ghost d: Shape, e: ExposureValues, ca: Pem, v: VaultPlugin, version: string)
    returns (err: Option<string>, ghost r: Shape)
    requires d.node == values && Good(d)
    modifies d.foot
    ensures r.node == values && Good(r)
    ensures match Fragments(old(Tree(d)), e, ca, v, version)
            case Success(fragments) => err == None && Tree(r) == Layer(old(Tree(d)), fragments)
            case Failure(_) => err.Some?
  {
    ghost var base := Tree(d);
    InStages(base, e, ca, v, version);
    err, r := None, d;
    if v.enabled {
      err, r := MergeVaultPlugin(values, r, v, version);
      if err.Some? {
        return;
      }
    }
    assert Tree(r) == Layer(base, VaultLayer(base, v, version).value);
    ghost var middle := Tree(r);
    if e.enabled {
      LayerOne(middle, ExposureFragment(e));
      r := MergeTree(values, r, ExposureFragment(e));
    }
    assert Tree(r) == Layer(middle, ExposureLayer(e));
    if ca.text != "" {
      err, r := MergeCa(values, r, ca);
    }
  }

  lemma InStages(base: Json, e: ExposureValues, ca: Pem, v: VaultPlugin, version: string)
    ensures var all, vault, bundle := Fragments(base, e, ca, v, version), VaultLayer(base, v, version), CaLayer(ca);
      && (all.Success? <==> vault.Success? && bundle.Success?)
      && (all.Success? ==>
            Layer(base, all.value) == Layer(Layer(Layer(base, vault.value), ExposureLayer(e)), bundle.value))
  {
    var vault, bundle := VaultLayer(base, v, version), CaLayer(ca);
    if vault.Success? && bundle.Success? {
      LayerConcat(base, vault.value, ExposureLayer(e));
      LayerConcat(base, vault.value + ExposureLayer(e), bundle.value);
    }
  }

  lemma LayerStep(base: Json, fragments: seq<Json>, f: Json)
    ensures Layer(base, fragments + [f]) == Merge(Layer(base, fragments), f)
  {
    assert (fragments + [f])[..|fragments|] == fragments;
  }

  lemma LayerOne(base: Json, f: Json)
    ensures Layer(base, [f]) == Merge(base, f)
  {
    LayerStep(base, [], f);
    assert [] + [f] == [f];
  }

  lemma {:induction false} LayerConcat(base: Json, front: seq<Json>, back: seq<Json>)
    ensures Layer(base, front + back) == Layer(Layer(base, front), back)
    decreases |back|
  {
    if back == [] {
      assert front + back == front;
    } else {
      var init, last := back[..|back| - 1], back[|back| - 1];
      LayerConcat(base, front, init);
      LayerStep(base, front + init, last);
      assert front + back == (front + init) + [last];
    }
  }

  /** Merges a freshly built fragment into values. */
  method MergeTree(values: GoMap, ghost d: Shape, fragment: Json) returns (ghost r: Shape)
    requires d.node == values && Good(d) && fragment.Obj?
    modifies d.foot
    ensures r.node == values && Good(r) && fresh(r.foot - d.foot)
    ensures Tree(r) == Merge(old(Tree(d)), fragment)
  {
    var source, s := Build(fragment);
    r := DeepMerge(values, source, d, s);
  }

  /** buildValues. */
  method BuildValues(base: Option<Json>, e: ExposureValues, ca: Pem, v: VaultPlugin, version: string)
    returns (r: Result<Option<Json>>)
    ensures match Values(base, e, ca, v, version)
            case Success(values) => r == Success(values)
            case Failure(_) => r.Failure?
  {
    if base.Some? && !base.value.Obj? {
      return Failure("decoding operator-supplied values");
    }
    var values, d := Build(Decoded(base));
    var err, shape := MergeFragments(values, d, e, ca, v, version);
    if err.Some? {
      return Failure(err.value);
    }
    var merged := Encode(values, shape);
    if merged == Obj(map[]) {
      return Success(None);
    }
    return Success(Some(merged));
  }
}
