/** Install and its parts (internal/argocd/provisioner.go) as functions of the stores and of what
    the API calls meet. The class Provisioner runs the same steps imperatively. */
module Provision {
  import opened Wrappers
  import opened JsonTrees
  import opened Certs
  import opened HelmValues
  import opened ValuesLaws
  import opened Cluster

  datatype Reloader = Reloader(chartURL: string, chartVersion: string, chartPullSecret: string, values: Option<Json>)

  datatype Version = Version(
    version: string, chartVersion: string, chartURL: Option<string>, chartPullSecret: string, values: Option<Json>)

  /** The fields of the Provisioner. caBundle is the name of the CA secret, empty for none. */
  datatype Config = Config(
    site: Site, kubeConfigSecret: string, interval: nat, exposure: ExposureValues,
    reloader: Option<Reloader>, caBundle: string, vault: VaultPlugin)

  const NO_CA := Pem("", None)
  const CA_KEY := "ca.crt"

  // ---------------------------------------------------------------- replicating secrets

  /** copyImagePullSecret and copyChartPullSecret. */
  function Copy(site: Site, s: Sys, st: Stamp, name: string): Out {
    var look := Look(site, s);
    if look.a != Done then look
    else if Ref(site.pod, name) !in look.s.w.secrets then Out(look.s, Failed)
    else
      var src := look.s.w.secrets[Ref(site.pod, name)];
      var ready := if st.ImagePull? then Do(site, look.s, CreateNamespace) else look;
      if ready.a != Done then ready
      else Do(site, ready.s, PutSecret(st, name, src.typ, src.data))
  }

  function CopyAll(site: Site, s: Sys, st: Stamp, names: seq<string>): Out
    decreases |names|
  {
    if names == [] then Out(s, Done)
    else
      var first := Copy(site, s, st, names[0]);
      if first.a != Done then first else CopyAll(site, first.s, st, names[1..])
  }

  /** The loop over the listed replicas that are not to be kept. */
  function DeleteAll(site: Site, s: Sys, st: Stamp, listed: seq<string>, keep: seq<string>): Out
    decreases |listed|
  {
    if listed == [] then Out(s, Done)
    else if listed[0] in keep then DeleteAll(site, s, st, listed[1..], keep)
    else
      var first := Do(site, s, DeleteSecret(st, listed[0]));
      if first.a != Done then first else DeleteAll(site, first.s, st, listed[1..], keep)
  }

  /** pruneImagePullSecrets, pruneChartPullSecrets, and the loop of RemoveCABundle. */
  function Prune(site: Site, s: Sys, st: Stamp, keep: seq<string>): Out {
    var list := ListMarked(site, s, st);
    if list.a != Done then Out(list.s, list.a)
    else DeleteAll(site, list.s, st, list.names, keep)
  }

  function Reconcile(site: Site, s: Sys, st: Stamp, names: seq<string>): Out {
    var copied := CopyAll(site, s, st, names);
    if copied.a != Done then copied else Prune(site, copied.s, st, names)
  }

  /** chartPullSecretNames. */
  function ChartNames(v: Version, reloader: Option<Reloader>): seq<string> {
    var own := if v.chartPullSecret == "" then [] else [v.chartPullSecret];
    if reloader.None? || reloader.value.chartPullSecret == "" || reloader.value.chartPullSecret in own then own
    else own + [reloader.value.chartPullSecret]
  }

  // ---------------------------------------------------------------- the CA bundle

  datatype WithCa = WithCa(s: Sys, a: Answer, ca: Pem)

  /** ensureCABundle, with the certificate text it leaves in p.caCert. */
  function EnsureCa(cfg: Config, s: Sys): WithCa {
    var look := Look(cfg.site, s);
    if look.a != Done then WithCa(look.s, look.a, NO_CA)
    else if Ref(cfg.site.pod, cfg.caBundle) !in look.s.w.secrets then WithCa(look.s, Failed, NO_CA)
    else
      var src := look.s.w.secrets[Ref(cfg.site.pod, cfg.caBundle)];
      var put := Do(cfg.site, look.s, PutSecret(CaBundle, cfg.caBundle, src.typ, src.data));
      WithCa(put.s, put.a, if put.a == Done then CaText(src.data) else NO_CA)
  }

  function CaText(data: map<string, Pem>): Pem {
    if CA_KEY in data then data[CA_KEY] else NO_CA
  }

  /** RemoveCABundle. */
  function RemoveCa(cfg: Config, s: Sys): Out {
    if cfg.caBundle != "" then Do(cfg.site, s, DeleteSecret(CaBundle, cfg.caBundle))
    else Prune(cfg.site, s, CaBundle, [])
  }

  /** reconcileCABundle. */
  function ReconcileCa(cfg: Config, s: Sys): WithCa {
    if cfg.caBundle != "" then EnsureCa(cfg, s)
    else
      var removed := RemoveCa(cfg, s);
      WithCa(removed.s, removed.a, NO_CA)
  }

  // ---------------------------------------------------------------- the Flux objects

  function Reference(name: string): Option<string> {
    if name == "" then None else Some(name)
  }

  function ArgoRepo(cfg: Config, v: Version): RepoSpec
    requires v.chartURL.Some?
  {
    RepoSpec(cfg.interval, v.chartURL.value, v.chartVersion, Reference(v.chartPullSecret), Reference(cfg.caBundle))
  }

  function ReloaderRepo(cfg: Config): RepoSpec
    requires cfg.reloader.Some?
  {
    var r := cfg.reloader.value;
    RepoSpec(cfg.interval, r.chartURL, r.chartVersion, Reference(r.chartPullSecret), Reference(cfg.caBundle))
  }

  const ARGO_HANDLING := Handling(true, Some("Create"), Some(600), 3, Some("CreateReplace"), 3, false, 300, "enabled")
  const RELOADER_HANDLING := Handling(false, None, None, 3, None, 3, false, 300, "enabled")
  const KUBECONFIG_KEY := "kubeconfig"

  function ArgoRelease(cfg: Config, values: Option<Json>): ReleaseSpec {
    ReleaseSpec(cfg.interval, Ref(cfg.site.tenant, ARGOCD), (cfg.kubeConfigSecret, KUBECONFIG_KEY), ARGO_HANDLING,
                values, cfg.site.mcpNs, cfg.site.mcpNs)
  }

  function ReloaderRelease(cfg: Config): ReleaseSpec
    requires cfg.reloader.Some?
  {
    ReleaseSpec(cfg.interval, Ref(cfg.site.tenant, RELOADER), (cfg.kubeConfigSecret, KUBECONFIG_KEY),
                RELOADER_HANDLING, cfg.reloader.value.values, cfg.site.mcpNs, cfg.site.mcpNs)
  }

  /** removeReloaderResources. */
  function RemoveReloader(site: Site, s: Sys): Out {
    var release := Do(site, s, DeleteRelease(RELOADER));
    if release.a != Done then release else Do(site, release.s, DeleteRepo(RELOADER))
  }

  /** reconcileReloader: a failed call is logged and forgotten; only being cut off shows. */
  function ReconcileReloader(cfg: Config, s: Sys): Out {
    var last :=
      if cfg.reloader.Some? then
        var repo := Do(cfg.site, s, PutRepo(RELOADER, BY_RELOADER, ReloaderRepo(cfg)));
        if repo.a == Halted then repo
        else Do(cfg.site, repo.s, PutRelease(RELOADER, BY_RELOADER, ReloaderRelease(cfg)))
      else RemoveReloader(cfg.site, s);
    Out(last.s, if last.a == Halted then Halted else Done)
  }

  // ---------------------------------------------------------------- Install

  /** The secrets, which come before anything that refers to them. */
  function Prepare(cfg: Config, v: Version, s: Sys): WithCa {
    var names := PullNames(v.values);
    if names.Failure? then WithCa(s, Failed, NO_CA)
    else
      var images := Reconcile(cfg.site, s, ImagePull, names.value);
      if images.a != Done then WithCa(images.s, images.a, NO_CA)
      else
        var charts := Reconcile(cfg.site, images.s, ChartPull, ChartNames(v, cfg.reloader));
        if charts.a != Done then WithCa(charts.s, charts.a, NO_CA)
        else ReconcileCa(cfg, charts.s)
  }

  function InstallValues(cfg: Config, v: Version, ca: Pem): Result<Option<Json>> {
    Values(v.values, cfg.exposure, ca, cfg.vault, v.version)
  }

  /** The two ArgoCD objects. */
  function ApplyArgo(cfg: Config, v: Version, s: Sys, compiled: Result<Option<Json>>): Out
    requires v.chartURL.Some?
  {
    var repo := Do(cfg.site, s, PutRepo(ARGOCD, BY_ARGOCD, ArgoRepo(cfg, v)));
    if repo.a != Done then repo
    else
      match compiled
      case Failure(_) => Out(repo.s, Failed)
      case Success(values) => Do(cfg.site, repo.s, PutRelease(ARGOCD, BY_ARGOCD, ArgoRelease(cfg, values)))
  }

  /** Install. The Reloader calls at its end meet the ticks of addon, all others those of s. */
  function Install(cfg: Config, v: Version, s: Sys, addon: seq<Tick>): Out {
    if v.chartURL.None? then Out(s, Failed)
    else
      var prepared := Prepare(cfg, v, s);
      if prepared.a != Done then Out(prepared.s, prepared.a)
      else
        var applied := ApplyArgo(cfg, v, prepared.s, InstallValues(cfg, v, prepared.ca));
        if applied.a != Done then applied
        else
          var reloader := ReconcileReloader(cfg, Sys(applied.s.w, addon));
          Out(Sys(reloader.s.w, applied.s.ticks), reloader.a)
  }
}
