/** The passes of the controller (internal/controller/provider_controller.go) with the endpoint
    observation (internal/argocd/endpoint.go), as functions of the ArgoCD object, the provider
    configuration, the stores, and what the API calls meet. */
module Controller {
  import opened Wrappers
  import opened Hosts
  import opened HelmValues
  import opened ValuesLaws
  import opened Cluster
  import opened Provision
  import Teardown

  // ---------------------------------------------------------------- inputs

  /** The phases the framework's setters and StatusFailed leave. */
  datatype Phase = New | Progressing | Available | Terminating | Failing

  datatype Status = Status(phase: Phase, reason: string, endpoint: string)

  datatype Spec = Spec(version: string, exposure: Option<ServerExposure>, vaultPlugin: Option<bool>)

  /** operation is the value of the operation annotation, if there is one. */
  datatype ArgoCD = ArgoCD(spec: Spec, operation: Option<string>, status: Status)

  datatype Policy = Policy(dnsClass: string, dnsTTL: int, certPurpose: string)

  datatype ProviderConfig = ProviderConfig(
    versions: seq<Version>, interval: nat, policy: Option<Policy>, reloader: Option<Reloader>,
    caBundle: string, vaultPlugin: Option<bool>, openSource: bool, bundle: BundleLists)

  /** The cluster access of one request. tenantKnown is false when no tenant namespace could be
      derived for it. */
  datatype Access = Access(site: Site, tenantKnown: bool, kubeConfigSecret: string, api: ApiServer)

  const DEFAULT_RELOADER_URL := "oci://ghcr.io/stakater/charts/reloader"

  function SelectVersion(versions: seq<Version>, requested: string): Option<Version> {
    if versions == [] then None
    else if versions[0].version == requested then Some(versions[0])
    else SelectVersion(versions[1..], requested)
  }

  /** The first entry of that version, if there is any. */
  lemma {:induction false} SelectsFirst(versions: seq<Version>, requested: string)
    ensures SelectVersion(versions, requested).None? <==> forall v | v in versions :: v.version != requested
    ensures SelectVersion(versions, requested).Some? ==>
              exists i | 0 <= i < |versions| ::
                && SelectVersion(versions, requested) == Some(versions[i]) && versions[i].version == requested
                && forall j | 0 <= j < i :: versions[j].version != requested
    decreases |versions|
  {
    if versions == [] {
    } else {
      assert versions == [versions[0]] + versions[1..];
      SelectsFirst(versions[1..], requested);
      if versions[0].version != requested && SelectVersion(versions[1..], requested).Some? {
        var i :| 0 <= i < |versions[1..]| && SelectVersion(versions[1..], requested) == Some(versions[1..][i])
                 && versions[1..][i].version == requested
                 && forall j | 0 <= j < i :: versions[1..][j].version != requested;
        assert versions[i + 1] == versions[1..][i];
        assert forall j | 0 < j < i + 1 :: versions[j] == versions[1..][j - 1];
      }
    }
  }

  function EffectivePolicy(pc: ProviderConfig): Policy {
    var p := if pc.policy.Some? then pc.policy.value else Policy("", 0, "");
    Policy(if p.dnsClass != "" then p.dnsClass else "garden",
           if p.dnsTTL != 0 then p.dnsTTL else 3600,
           if p.certPurpose != "" then p.certPurpose else "managed")
  }

  function EffectiveReloader(pc: ProviderConfig): Option<Reloader> {
    if pc.reloader.None? then None
    else
      var r := pc.reloader.value;
      Some(if r.chartURL == "" then r.(chartURL := DEFAULT_RELOADER_URL) else r)
  }

  /** resolveExposure; a host that cannot be completed is taken as it is. */
  function ResolveExposure(e: Option<ServerExposure>, pc: ProviderConfig, api: ApiServer): ExposureValues {
    if e.None? then ExposureValues(false, "", [], "", 0, "", false)
    else
      var host := match ComposeHost(e.value.host, api) {
        case Success(fqdn) => fqdn
        case Failure(_) => e.value.host
      };
      var p := EffectivePolicy(pc);
      ExposureValues(true, host, e.value.allowedIPs, p.dnsClass, p.dnsTTL, p.certPurpose, pc.reloader.Some?)
  }

  /** The Provisioner that newProvisioner builds. */
  function ConfigOf(spec: Spec, pc: ProviderConfig, access: Access): Config {
    Config(access.site, access.kubeConfigSecret, pc.interval,
           ResolveExposure(spec.exposure, pc, access.api), EffectiveReloader(pc), pc.caBundle,
           VaultPlugin(pc.vaultPlugin == Some(true) && spec.vaultPlugin == Some(true), pc.openSource, pc.bundle))
  }

  // ---------------------------------------------------------------- observations

  datatype Observed = Observed(s: Sys, a: Answer, ready: bool)

  /** Ready: whether the HelmRelease reports readiness. A missing release is an error. */
  function ReleaseReady(site: Site, s: Sys): Observed {
    var look := Look(site, s);
    var r := Ref(site.tenant, ARGOCD);
    if look.a != Done then Observed(look.s, look.a, false)
    else if r !in look.s.w.releases then Observed(look.s, Failed, false)
    else Observed(look.s, Done, look.s.w.releases[r].ready == Some(true))
  }

  const PART_OF := "app.kubernetes.io/part-of"
  const COMPONENT := "app.kubernetes.io/component"

  predicate IsServer(site: Site, svc: Service) {
    && svc.ns == site.mcpNs
    && PART_OF in svc.labels && svc.labels[PART_OF] == "argocd"
    && COMPONENT in svc.labels && svc.labels[COMPONENT] == "server"
  }

  predicate Addressed(site: Site, services: seq<Service>) {
    exists i | 0 <= i < |services| :: IsServer(site, services[i]) && services[i].loadBalancer && services[i].ingress > 0
  }

  predicate HasServerCert(site: Site, w: World) {
    Ref(site.mcpNs, SERVER_TLS_SECRET) in w.mcp.secrets
  }

  function Url(e: ExposureValues): string {
    if e.enabled then "https://" + e.host else ""
  }

  /** Endpoint: without exposure nothing to wait for; else first the certificate, then the address. */
  function EndpointReady(cfg: Config, s: Sys): Observed {
    if !cfg.exposure.enabled then Observed(s, Done, true)
    else
      var cert := Look(cfg.site, s);
      if cert.a != Done then Observed(cert.s, cert.a, false)
      else if !HasServerCert(cfg.site, cert.s.w) then Observed(cert.s, Done, false)
      else
        var services := Look(cfg.site, cert.s);
        if services.a != Done then Observed(services.s, services.a, false)
        else Observed(services.s, Done, Addressed(cfg.site, services.s.w.mcp.services))
  }

  // ---------------------------------------------------------------- CreateOrUpdate

  /** Returned(requeue, failed): what the pass hands back to the framework. Stopped: cut off. */
  datatype Return = Returned(requeue: bool, failed: bool) | Stopped

  datatype Pass = Pass(obj: ArgoCD, s: Sys, r: Return)

  function Set(obj: ArgoCD, phase: Phase, reason: string): ArgoCD {
    obj.(status := obj.status.(phase := phase, reason := reason))
  }

  function Publish(obj: ArgoCD, endpoint: string): ArgoCD {
    obj.(status := obj.status.(endpoint := endpoint))
  }

  /** An error return, with the status set before it; a pass that is cut off sets nothing more. */
  function Fail(obj: ArgoCD, s: Sys, a: Answer, reason: string): Pass {
    if a == Halted then Pass(obj, s, Stopped) else Pass(Set(obj, Failing, reason), s, Returned(false, true))
  }

  /** reconcileEndpoint. */
  function ReconcileEndpoint(cfg: Config, obj: ArgoCD, s: Sys): Pass {
    var seen := EndpointReady(cfg, s);
    if seen.a != Done then Pass(obj, seen.s, if seen.a == Halted then Stopped else Returned(false, true))
    else if !seen.ready then Pass(Set(Publish(obj, ""), Progressing, "EndpointPending"), seen.s, Returned(true, false))
    else Pass(Set(Publish(obj, Url(cfg.exposure)), Available, ""), seen.s, Returned(false, false))
  }

  /** From the readiness of the release on. */
  function Observe(cfg: Config, obj: ArgoCD, s: Sys): Pass {
    var seen := ReleaseReady(cfg.site, s);
    if seen.a != Done then Fail(obj, seen.s, seen.a, "ReadinessCheckFailed")
    else if !seen.ready then Pass(Set(obj, Progressing, "Reconciling"), seen.s, Returned(true, false))
    else if obj.spec.exposure.None? then Pass(Set(Publish(obj, ""), Available, ""), seen.s, Returned(false, false))
    else ReconcileEndpoint(cfg, obj, seen.s)
  }

  /** A request that was not skipped. */
  function Converge(
      obj: ArgoCD, pc: ProviderConfig, access: Access, isCIDR: string -> bool, s: Sys, addon: seq<Tick>): Pass
  {
    var started := Set(obj, Progressing, "Reconciling");
    var version := SelectVersion(pc.versions, obj.spec.version);
    if version.None? then Pass(Set(started, Failing, "InvalidVersion"), s, Returned(false, false))
    else if Verdict(obj.spec.exposure, access.api, isCIDR).Some? then
      Pass(Set(started, Failing, "InvalidExposure"), s, Returned(false, false))
    else if !access.tenantKnown then Pass(Set(started, Failing, "ProvisionerCreationFailed"), s, Returned(false, true))
    else
      var cfg := ConfigOf(obj.spec, pc, access);
      var installed := Install(cfg, version.value, s, addon);
      if installed.a != Done then Fail(started, installed.s, installed.a, "InstallFailed")
      else Observe(cfg, started, installed.s)
  }

  /** CreateOrUpdate. Removing the reconcile annotation is an API call of its own. */
  function CreateOrUpdate(
      obj: ArgoCD, pc: ProviderConfig, access: Access, isCIDR: string -> bool, s: Sys, addon: seq<Tick>): Pass
  {
    if obj.operation == Some("ignore") then Pass(obj, s, Returned(false, false))
    else if obj.operation == Some("reconcile") then
      var removed := Look(access.site, s);
      if removed.a == Halted then Pass(obj, removed.s, Stopped)
      else if removed.a == Failed then Pass(obj, removed.s, Returned(false, true))
      else Converge(obj.(operation := None), pc, access, isCIDR, removed.s, addon)
    else Converge(obj, pc, access, isCIDR, s, addon)
  }

  // ---------------------------------------------------------------- Delete

  /** Delete. An error at the guard or while uninstalling sets the status; one that only concerns
      the CA bundle does not. */
  function DeletePass(obj: ArgoCD, pc: ProviderConfig, access: Access, s: Sys): Pass {
    var started := Set(obj, Terminating, "Terminating");
    if !access.tenantKnown then Pass(Set(started, Failing, "ProvisionerCreationFailed"), s, Returned(false, true))
    else
      Finish(started, Teardown.Delete(ConfigOf(obj.spec, pc, access), s))
  }

  function Finish(started: ArgoCD, p: Teardown.Pass): Pass {
    match p.end
    case CutOff => Pass(started, p.s, Stopped)
    case GuardError => Pass(Set(started, Failing, "FailedToListApplications"), p.s, Returned(false, true))
    case UninstallError => Pass(Set(started, Failing, "Uninstalling"), p.s, Returned(false, true))
    case CaError => Pass(started, p.s, Returned(false, true))
    case Complete => Pass(started, p.s, Returned(false, false))
    case Blocked => Pass(started, p.s, Returned(true, false))
    case Waiting => Pass(started, p.s, Returned(true, false))
  }

  // ---------------------------------------------------------------- secret watch

  predicate VersionReferences(v: Version, name: string) {
    || v.chartPullSecret == name
    || (PullNames(v.values).Success? && name in PullNames(v.values).value)
  }

  /** IsReferencedSecret, for a secret of the provider's namespace. */
  predicate References(pc: ProviderConfig, name: string) {
    || (exists i | 0 <= i < |pc.versions| :: VersionReferences(pc.versions[i], name))
    || (pc.reloader.Some? && pc.reloader.value.chartPullSecret == name)
  }
}
