/** What Install and Delete leave in the two clusters, written out: names, labels, references and every
    field of the Flux objects. */
module StoresInWords {
  import opened Wrappers
  import opened JsonTrees
  import opened Certs
  import opened HelmValues
  import opened ValuesLaws
  import opened Cluster
  import opened Provision
  import opened InstallLaws
  import Teardown
  import TeardownLaws

  // ---------------------------------------------------------------- secrets

  predicate Label(labels: map<string, string>, key: string, value: string) {
    key in labels && labels[key] == value
  }

  /** On the MCP the secrets in Argo CD's namespace that are labelled as the provider's are exactly
      these. */
  predicate ImagePullSecretsAre(site: Site, w: World, names: seq<string>) {
    forall r | r in w.mcp.secrets && r.ns == site.mcpNs ::
      Label(w.mcp.secrets[r].labels, "app.kubernetes.io/managed-by", "service-provider-argocd") <==> r.name in names
  }

  /** The secrets of the tenant namespace with this label are exactly these. */
  predicate TenantSecretsAre(site: Site, w: World, key: string, names: seq<string>) {
    forall r | r in w.secrets && r.ns == site.tenant :: Label(w.secrets[r].labels, key, "true") <==> r.name in names
  }

  /** The chart pull secrets: what the version and Reloader name, the version's own first, none twice. */
  lemma ChartNamesAre(v: Version, reloader: Option<Reloader>)
    ensures var names := ChartNames(v, reloader);
      && (forall n :: n in names <==>
            n != "" && (n == v.chartPullSecret || (reloader.Some? && n == reloader.value.chartPullSecret)))
      && (forall i, j | 0 <= i < j < |names| :: names[i] != names[j])
      && (v.chartPullSecret != "" ==> names != [] && names[0] == v.chartPullSecret)
  {
  }

  /** After a successful Install, in words: every name listed in the values has its secret on the MCP,
      every chart pull secret its secret in the tenant namespace, and no other secret is labelled so. */
  lemma PullSecretsInWords(cfg: Config, v: Version, s: Sys, addon: seq<Tick>)
    requires Apart(cfg, v, s.w) && Install(cfg, v, s, addon).a == Done
    ensures var end := Install(cfg, v, s, addon).s.w;
      && PullNames(v.values).Success?
      && ImagePullSecretsAre(cfg.site, end, PullNames(v.values).value)
      && (forall n | n in PullNames(v.values).value :: Ref(cfg.site.mcpNs, n) in end.mcp.secrets)
      && TenantSecretsAre(cfg.site, end, "argocd.services.open-control-plane.io/chart-pull-secret",
                          ChartNames(v, cfg.reloader))
      && (forall n | n in ChartNames(v, cfg.reloader) :: Ref(cfg.site.tenant, n) in end.secrets)
  {
    var end := Install(cfg, v, s, addon).s.w;
    PullSecretsExact(cfg, v, s, addon);
    forall r | r in end.mcp.secrets && r.ns == cfg.site.mcpNs
      ensures Label(end.mcp.secrets[r].labels, "app.kubernetes.io/managed-by", "service-provider-argocd")
         <==> r.name in PullNames(v.values).value
    {
      assert r == Ref(cfg.site.mcpNs, r.name) == Place(cfg.site, ImagePull, r.name);
      assert Has(cfg.site, end, ImagePull, r.name) <==> r.name in PullNames(v.values).value;
    }
    forall r | r in end.secrets && r.ns == cfg.site.tenant
      ensures Label(end.secrets[r].labels, "argocd.services.open-control-plane.io/chart-pull-secret", "true")
         <==> r.name in ChartNames(v, cfg.reloader)
    {
      assert r == Ref(cfg.site.tenant, r.name) == Place(cfg.site, ChartPull, r.name);
      assert Has(cfg.site, end, ChartPull, r.name) <==> r.name in ChartNames(v, cfg.reloader);
    }
    forall n | n in PullNames(v.values).value ensures Ref(cfg.site.mcpNs, n) in end.mcp.secrets {
      assert Has(cfg.site, end, ImagePull, n);
    }
    forall n | n in ChartNames(v, cfg.reloader) ensures Ref(cfg.site.tenant, n) in end.secrets {
      assert Has(cfg.site, end, ChartPull, n);
    }
  }

  /** The certificate text of the tenant's copy of the CA bundle, none without a bundle or a text. */
  function TenantCa(cfg: Config, w: World): Pem {
    var r := Ref(cfg.site.tenant, cfg.caBundle);
    if cfg.caBundle != "" && r in w.secrets && "ca.crt" in w.secrets[r].data then w.secrets[r].data["ca.crt"]
    else Pem("", None)
  }

  lemma TenantCaIs(cfg: Config, w: World)
    ensures TenantCa(cfg, w) == CaIn(cfg, w)
  {
  }

  // ---------------------------------------------------------------- Flux objects

  predicate RepoReads(cfg: Config, repo: Repo, owner: string, url: string, tag: string, pullSecret: string) {
    && Label(repo.labels, "app.kubernetes.io/managed-by", owner)
    && repo.spec.interval == cfg.interval && repo.spec.url == url && repo.spec.tag == tag
    && RefersTo(repo.spec.secretRef, pullSecret) && RefersTo(repo.spec.certSecretRef, cfg.caBundle)
  }

  predicate ReleaseReads(cfg: Config, release: Release, owner: string, chart: string, values: Option<Json>) {
    && Label(release.labels, "app.kubernetes.io/managed-by", owner)
    && release.spec.interval == cfg.interval
    && release.spec.chart == Ref(cfg.site.tenant, chart)
    && release.spec.kubeConfig == (cfg.kubeConfigSecret, "kubeconfig")
    && release.spec.values == values
    && release.spec.targetNamespace == cfg.site.mcpNs && release.spec.storageNamespace == cfg.site.mcpNs
  }

  /** Ten minutes to install, five to remove, three retries, CRDs managed, drift detected. */
  predicate ArgoHandling(h: Handling) {
    && h.createNamespace && h.installCRDs == Some("Create") && h.installTimeout == Some(600) && h.installRetries == 3
    && h.upgradeCRDs == Some("CreateReplace") && h.upgradeRetries == 3
    && !h.keepHistory && h.uninstallTimeout == 300 && h.driftDetection == "enabled"
  }

  predicate ReloaderHandling(h: Handling) {
    && !h.createNamespace && h.installCRDs == None && h.installTimeout == None && h.installRetries == 3
    && h.upgradeCRDs == None && h.upgradeRetries == 3
    && !h.keepHistory && h.uninstallTimeout == 300 && h.driftDetection == "enabled"
  }

  /** The repository argocd, if it is there. */
  predicate ArgoRepoReads(cfg: Config, v: Version, w: World) {
    var r := Ref(cfg.site.tenant, "argocd");
    v.chartURL.Some? && (r in w.repos ==>
      RepoReads(cfg, w.repos[r], "service-provider-argocd", v.chartURL.value, v.chartVersion, v.chartPullSecret))
  }

  /** The release argocd, if it is there. */
  predicate ArgoReleaseReads(cfg: Config, values: Option<Json>, w: World) {
    var r := Ref(cfg.site.tenant, "argocd");
    r in w.releases ==>
      && ReleaseReads(cfg, w.releases[r], "service-provider-argocd", "argocd", values)
      && ArgoHandling(w.releases[r].spec.handling)
  }

  /** The repository argocd-reloader, if it is there. */
  predicate ReloaderRepoReads(cfg: Config, w: World) {
    var r := Ref(cfg.site.tenant, "argocd-reloader");
    cfg.reloader.Some? && (r in w.repos ==>
      var asked := cfg.reloader.value;
      RepoReads(cfg, w.repos[r], "service-provider-argocd-reloader",
                asked.chartURL, asked.chartVersion, asked.chartPullSecret))
  }

  /** The release argocd-reloader, if it is there. */
  predicate ReloaderReleaseReads(cfg: Config, w: World) {
    var r := Ref(cfg.site.tenant, "argocd-reloader");
    cfg.reloader.Some? && (r in w.releases ==>
      && ReleaseReads(cfg, w.releases[r], "service-provider-argocd-reloader", "argocd-reloader",
                      cfg.reloader.value.values)
      && ReloaderHandling(w.releases[r].spec.handling))
  }

  predicate ArgoReads(cfg: Config, v: Version, values: Option<Json>, w: World) {
    ArgoRepoReads(cfg, v, w) && ArgoReleaseReads(cfg, values, w)
  }

  lemma ReadsStay(cfg: Config, v: Version, values: Option<Json>, a: World, b: World)
    requires Rely(cfg.site, a, b)
    ensures ArgoRepoReads(cfg, v, a) ==> ArgoRepoReads(cfg, v, b)
    ensures ArgoReleaseReads(cfg, values, a) ==> ArgoReleaseReads(cfg, values, b)
    ensures ReloaderRepoReads(cfg, a) ==> ReloaderRepoReads(cfg, b)
    ensures ReloaderReleaseReads(cfg, a) ==> ReloaderReleaseReads(cfg, b)
  {
    assert OurRef(cfg.site, Ref(cfg.site.tenant, "argocd"));
    assert OurRef(cfg.site, Ref(cfg.site.tenant, "argocd-reloader"));
  }

  lemma ArgoApplied(cfg: Config, v: Version, s: Sys, compiled: Result<Option<Json>>)
    requires v.chartURL.Some? && ApplyArgo(cfg, v, s, compiled).a == Done
    ensures compiled.Success? && ArgoReads(cfg, v, compiled.value, ApplyArgo(cfg, v, s, compiled).s.w)
  {
    var put := PutRepo(ARGOCD, BY_ARGOCD, ArgoRepo(cfg, v));
    var one := DoEffect(cfg.site, s, put);
    assert ArgoRepoReads(cfg, v, Apply(cfg.site, one, put));
    var half := Do(cfg.site, s, put).s;
    var release := PutRelease(ARGOCD, BY_ARGOCD, ArgoRelease(cfg, compiled.value));
    var two := DoEffect(cfg.site, half, release);
    ReadsStay(cfg, v, compiled.value, half.w, two);
    ReleaseWritten(cfg, v, compiled.value, two);
  }

  lemma ReleaseWritten(cfg: Config, v: Version, values: Option<Json>, w: World)
    requires ArgoRepoReads(cfg, v, w)
    ensures ArgoReads(cfg, v, values, Apply(cfg.site, w, PutRelease(ARGOCD, BY_ARGOCD, ArgoRelease(cfg, values))))
  {
  }

  lemma ReloaderKeepsArgo(cfg: Config, v: Version, values: Option<Json>, s: Sys)
    requires ArgoReads(cfg, v, values, s.w)
    ensures ArgoReads(cfg, v, values, ReconcileReloader(cfg, s).s.w)
  {
    AsideKeepsArgo(cfg, v, values, s, FirstAside(cfg));
    AsideKeepsArgo(cfg, v, values, HalfWay(cfg, s).s, SecondAside(cfg));
  }

  lemma AsideKeepsArgo(cfg: Config, v: Version, values: Option<Json>, s: Sys, op: Op)
    requires ArgoReads(cfg, v, values, s.w)
    requires op == FirstAside(cfg) || op == SecondAside(cfg)
    ensures ArgoReads(cfg, v, values, Do(cfg.site, s, op).s.w)
  {
    if s.ticks != [] {
      var w := Arrive(cfg.site, s.w, s.ticks[0]);
      RelyRefl(cfg.site, s.w);
      ReadsStay(cfg, v, values, s.w, w);
      AsideApplied(cfg, v, values, w, op);
    }
  }

  lemma AsideApplied(cfg: Config, v: Version, values: Option<Json>, w: World, op: Op)
    requires ArgoReads(cfg, v, values, w)
    requires op == FirstAside(cfg) || op == SecondAside(cfg)
    ensures ArgoReads(cfg, v, values, Apply(cfg.site, w, op))
  {
  }

  /** After a successful Install Argo CD's two objects, as far as Flux has not removed them meanwhile,
      read as the source writes them, with the values compiled with the tenant's CA text. */
  lemma ArgoInWords(cfg: Config, v: Version, s: Sys, addon: seq<Tick>)
    requires Apart(cfg, v, s.w) && Install(cfg, v, s, addon).a == Done
    ensures var end := Install(cfg, v, s, addon).s.w;
            var compiled := Values(v.values, cfg.exposure, TenantCa(cfg, end), cfg.vault, v.version);
      compiled.Success? && ArgoReads(cfg, v, compiled.value, end)
  {
    var p := Prepare(cfg, v, s);
    var compiled := InstallValues(cfg, v, p.ca);
    SecretsHeld(cfg, v, s, addon);
    TenantCaIs(cfg, Install(cfg, v, s, addon).s.w);
    ArgoApplied(cfg, v, p.s, compiled);
    ReloaderKeepsArgo(cfg, v, compiled.value, Sys(ApplyArgo(cfg, v, p.s, compiled).s.w, addon));
  }

  lemma ReloaderApplied(cfg: Config, v: Version, s: Sys)
    requires cfg.reloader.Some? && |s.ticks| >= 2
    ensures s.ticks[0].reply == Ok ==> ReloaderRepoReads(cfg, ReconcileReloader(cfg, s).s.w)
    ensures s.ticks[1].reply == Ok ==> ReloaderReleaseReads(cfg, ReconcileReloader(cfg, s).s.w)
  {
    var half := HalfWay(cfg, s).s;
    if s.ticks[0].reply == Ok {
      RepoCallTook(cfg, s);
      ReloaderRepoKept(cfg, v, half);
    }
    if s.ticks[1].reply == Ok {
      ReleaseCallTook(cfg, half);
    }
  }

  lemma RepoCallTook(cfg: Config, s: Sys)
    requires cfg.reloader.Some? && Do(cfg.site, s, FirstAside(cfg)).a == Done
    ensures ReloaderRepoReads(cfg, Do(cfg.site, s, FirstAside(cfg)).s.w)
  {
    var one := DoEffect(cfg.site, s, FirstAside(cfg));
  }

  lemma ReleaseCallTook(cfg: Config, s: Sys)
    requires cfg.reloader.Some? && Do(cfg.site, s, SecondAside(cfg)).a == Done
    ensures ReloaderReleaseReads(cfg, Do(cfg.site, s, SecondAside(cfg)).s.w)
  {
    var two := DoEffect(cfg.site, s, SecondAside(cfg));
  }

  lemma ReloaderRepoKept(cfg: Config, v: Version, half: Sys)
    requires cfg.reloader.Some? && ReloaderRepoReads(cfg, half.w)
    ensures ReloaderRepoReads(cfg, Do(cfg.site, half, SecondAside(cfg)).s.w)
  {
    var inv := (w: World) => ReloaderRepoReads(cfg, w);
    forall a, b | inv(a) && Rely(cfg.site, a, b) ensures inv(b) {
      ReadsStay(cfg, v, None, a, b);
    }
    DoKeeps(cfg.site, half, SecondAside(cfg), inv);
  }

  /** And each of Reloader's two objects, when the call for it succeeds, whatever comes of the other. */
  lemma ReloaderInWords(cfg: Config, v: Version, s: Sys, addon: seq<Tick>)
    requires cfg.reloader.Some? && Install(cfg, v, s, addon).a == Done
    requires |addon| >= 2
    ensures addon[0].reply == Ok ==> ReloaderRepoReads(cfg, Install(cfg, v, s, addon).s.w)
    ensures addon[1].reply == Ok ==> ReloaderReleaseReads(cfg, Install(cfg, v, s, addon).s.w)
  {
    ReloaderTouchesOnlyItsOwn(cfg, v, s, addon);
    var at := Sys(InstallProper(cfg, v, s).s.w, addon);
    ReloaderApplied(cfg, v, at);
    assert Install(cfg, v, s, addon).s.w == ReconcileReloader(cfg, at).s.w;
  }

  /** The CA bundle: its copy is in the tenant namespace, labelled, or no copy is left without one. */
  lemma CaInWords(cfg: Config, v: Version, s: Sys, addon: seq<Tick>)
    requires Apart(cfg, v, s.w) && Install(cfg, v, s, addon).a == Done
    ensures var end := Install(cfg, v, s, addon).s.w;
            var r := Ref(cfg.site.tenant, cfg.caBundle);
      if cfg.caBundle != "" then
        r in end.secrets && Label(end.secrets[r].labels, "argocd.services.open-control-plane.io/ca-bundle", "true")
      else TenantSecretsAre(cfg.site, end, "argocd.services.open-control-plane.io/ca-bundle", [])
  {
    if cfg.caBundle != "" {
      InstalledAsAsked(cfg, v, s, addon);
    } else {
      NoCaLeft(cfg, v, s, addon);
      var end := Install(cfg, v, s, addon).s.w;
      forall r | r in end.secrets && r.ns == cfg.site.tenant
        ensures !Label(end.secrets[r].labels, "argocd.services.open-control-plane.io/ca-bundle", "true")
      {
        assert r == Place(cfg.site, CaBundle, r.name) && !Has(cfg.site, end, CaBundle, r.name);
      }
    }
  }

  lemma NoCaLeft(cfg: Config, v: Version, s: Sys, addon: seq<Tick>)
    requires cfg.caBundle == "" && Install(cfg, v, s, addon).a == Done
    ensures forall n :: !Has(cfg.site, Install(cfg, v, s, addon).s.w, CaBundle, n)
  {
    var images := Reconcile(cfg.site, s, ImagePull, ImageNames(v));
    ReconcileCaGives(cfg, Reconcile(cfg.site, images.s, ChartPull, ChartNames(v, cfg.reloader)).s);
    forall n: string ensures !Has(cfg.site, Prepare(cfg, v, s).s.w, CaBundle, n) <==> n !in [] {}
    ExactKept(cfg, v, s, addon, CaBundle, []);
  }

  // ---------------------------------------------------------------- what Delete leaves

  /** A completed teardown, in words. */
  lemma GoneInWords(cfg: Config, s: Sys)
    requires Teardown.Delete(cfg, s).end == Teardown.Complete
    ensures var end := Teardown.Delete(cfg, s).s.w;
      && (forall name | name in {"argocd", "argocd-reloader"} ::
            Ref(cfg.site.tenant, name) !in end.releases && Ref(cfg.site.tenant, name) !in end.repos)
      && ImagePullSecretsAre(cfg.site, end, [])
      && TenantSecretsAre(cfg.site, end, "argocd.services.open-control-plane.io/chart-pull-secret", [])
      && (if cfg.caBundle != "" then Ref(cfg.site.tenant, cfg.caBundle) !in end.secrets
          else TenantSecretsAre(cfg.site, end, "argocd.services.open-control-plane.io/ca-bundle", []))
  {
    var end := Teardown.Delete(cfg, s).s.w;
    TeardownLaws.CompleteMeansGone(cfg, s);
    forall r | r in end.mcp.secrets && r.ns == cfg.site.mcpNs
      ensures !Label(end.mcp.secrets[r].labels, "app.kubernetes.io/managed-by", "service-provider-argocd")
    {
      assert r == Place(cfg.site, ImagePull, r.name) && !Has(cfg.site, end, ImagePull, r.name);
    }
    forall r | r in end.secrets && r.ns == cfg.site.tenant
      ensures !Label(end.secrets[r].labels, "argocd.services.open-control-plane.io/chart-pull-secret", "true")
      ensures cfg.caBundle == "" ==>
                !Label(end.secrets[r].labels, "argocd.services.open-control-plane.io/ca-bundle", "true")
    {
      assert r == Place(cfg.site, ChartPull, r.name) == Place(cfg.site, CaBundle, r.name);
      assert !Has(cfg.site, end, ChartPull, r.name);
      assert cfg.caBundle == "" ==> !Has(cfg.site, end, CaBundle, r.name);
    }
  }
}
