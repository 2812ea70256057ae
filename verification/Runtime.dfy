/** The Provisioner and the reconciler as they run: objects that issue API calls against two mutable
    clusters, loops that stop at the first error, a field that carries the CA text. Each method is
    proved to do what the function of the same name in Provision, Teardown or Controller says. */
module Runtime {
  import opened Wrappers
  import opened Certs
  import opened HelmValues
  import opened ValuesLaws
  import opened Cluster
  import opened Provision
  import opened Hosts
  import opened Controller
  import Teardown

  /** The two API servers, and what the coming calls will meet: ticks for all calls but those of
      reconcileReloader, which meet addon. */
  class Clusters {
    const site: Site
    var world: World
    var ticks: seq<Tick>
    var addon: seq<Tick>

    constructor (site: Site, world: World, ticks: seq<Tick>, addon: seq<Tick>)
      ensures this.site == site && this.world == world && this.ticks == ticks && this.addon == addon
    {
      this.site, this.world, this.ticks, this.addon := site, world, ticks, addon;
    }

    function Now(): Sys
      reads this
    {
      Sys(world, ticks)
    }

    function Aside(): Sys
      reads this
    {
      Sys(world, addon)
    }

    method Read() returns (a: Answer)
      modifies this
      ensures Out(Now(), a) == Look(site, old(Now())) && addon == old(addon)
    {
      if ticks == [] {
        return Halted;
      }
      var t := ticks[0];
      world, ticks := Arrive(site, world, t), ticks[1..];
      return if t.reply.Ok? then Done else Failed;
    }

    method Write(op: Op) returns (a: Answer)
      modifies this
      ensures Out(Now(), a) == Do(site, old(Now()), op) && addon == old(addon)
    {
      if ticks == [] {
        return Halted;
      }
      var t := ticks[0];
      world, ticks := Arrive(site, world, t), ticks[1..];
      if !t.reply.Lost? {
        world := Apply(site, world, op);
      }
      return if t.reply.Ok? then Done else Failed;
    }

    method WriteAside(op: Op) returns (a: Answer)
      modifies this
      ensures Out(Aside(), a) == Do(site, old(Aside()), op) && ticks == old(ticks)
    {
      var main := ticks;
      ticks := addon;
      a := Write(op);
      addon, ticks := ticks, main;
    }

    method List(st: Stamp) returns (a: Answer, names: seq<string>)
      modifies this
      ensures Listed(Now(), a, names) == ListMarked(site, old(Now()), st) && addon == old(addon)
    {
      var listing := if ticks == [] then [] else ticks[0].listing;
      a := Read();
      if a != Done {
        return a, [];
      }
      return Done, InSomeOrder(listing, MarkedNames(site, world, st));
    }
  }

  class Provisioner {
    const cfg: Config
    const api: Clusters
    /** What ensureCABundle read, for applyHelmRelease. */
    var caCert: Pem

    constructor (cfg: Config, api: Clusters)
      requires cfg.site == api.site
      ensures this.cfg == cfg && this.api == api && caCert == NO_CA
    {
      this.cfg, this.api, caCert := cfg, api, NO_CA;
    }

    predicate Wired() {
      cfg.site == api.site
    }

    // -------------------------------------------------------------- replicating secrets

    method CopySecret(st: Stamp, name: string) returns (a: Answer)
      requires Wired()
      modifies api
      ensures Out(api.Now(), a) == Copy(cfg.site, old(api.Now()), st, name) && api.addon == old(api.addon)
    {
      a := api.Read();
      if a != Done {
        return;
      }
      if Ref(cfg.site.pod, name) !in api.world.secrets {
        return Failed;
      }
      var src := api.world.secrets[Ref(cfg.site.pod, name)];
      if st.ImagePull? {
        a := api.Write(CreateNamespace);
        if a != Done {
          return;
        }
      }
      a := api.Write(PutSecret(st, name, src.typ, src.data));
    }

    method PruneSecrets(st: Stamp, keep: seq<string>) returns (a: Answer)
      requires Wired()
      modifies api
      ensures Out(api.Now(), a) == Prune(cfg.site, old(api.Now()), st, keep) && api.addon == old(api.addon)
    {
      var listed: seq<string>;
      a, listed := api.List(st);
      if a != Done {
        return;
      }
      ghost var start := api.Now();
      for i := 0 to |listed|
        invariant DeleteAll(cfg.site, start, st, listed, keep) == DeleteAll(cfg.site, api.Now(), st, listed[i..], keep)
        invariant api.addon == old(api.addon)
      {
        if listed[i] !in keep {
          a := api.Write(DeleteSecret(st, listed[i]));
          if a != Done {
            return;
          }
        }
        assert listed[i..][1..] == listed[i + 1..];
      }
      a := Done;
    }

    method ReconcileSecrets(st: Stamp, names: seq<string>) returns (a: Answer)
      requires Wired()
      modifies api
      ensures Out(api.Now(), a) == Reconcile(cfg.site, old(api.Now()), st, names) && api.addon == old(api.addon)
    {
      for i := 0 to |names|
        invariant CopyAll(cfg.site, old(api.Now()), st, names) == CopyAll(cfg.site, api.Now(), st, names[i..])
        invariant api.addon == old(api.addon)
      {
        a := CopySecret(st, names[i]);
        if a != Done {
          return;
        }
        assert names[i..][1..] == names[i + 1..];
      }
      a := PruneSecrets(st, names);
    }

    /** chartPullSecretNames: names appended unless empty or seen. */
    method CollectChartNames(v: Version) returns (names: seq<string>)
      ensures names == ChartNames(v, cfg.reloader)
      ensures forall i, j | 0 <= i < j < |names| :: names[i] != names[j]
      ensures "" !in names
    {
      names := [];
      var seen: set<string> := {};
      if v.chartPullSecret != "" {
        seen, names := seen + {v.chartPullSecret}, names + [v.chartPullSecret];
      }
      if cfg.reloader.Some? {
        var name := cfg.reloader.value.chartPullSecret;
        if name != "" && name !in seen {
          seen, names := seen + {name}, names + [name];
        }
      }
    }

    // -------------------------------------------------------------- the CA bundle

    method RemoveCABundle() returns (a: Answer)
      requires Wired()
      modifies api
      ensures Out(api.Now(), a) == RemoveCa(cfg, old(api.Now())) && api.addon == old(api.addon)
    {
      if cfg.caBundle != "" {
        a := api.Write(DeleteSecret(CaBundle, cfg.caBundle));
        return;
      }
      a := PruneSecrets(CaBundle, []);
    }

    method ReconcileCABundle() returns (a: Answer)
      requires Wired() && caCert == NO_CA
      modifies api, this`caCert
      ensures WithCa(api.Now(), a, caCert) == ReconcileCa(cfg, old(api.Now())) && api.addon == old(api.addon)
    {
      if cfg.caBundle == "" {
        a := RemoveCABundle();
        return;
      }
      a := api.Read();
      if a != Done {
        return;
      }
      if Ref(cfg.site.pod, cfg.caBundle) !in api.world.secrets {
        return Failed;
      }
      var src := api.world.secrets[Ref(cfg.site.pod, cfg.caBundle)];
      a := api.Write(PutSecret(CaBundle, cfg.caBundle, src.typ, src.data));
      if a == Done {
        caCert := CaText(src.data);
      }
    }

    // -------------------------------------------------------------- Install

    method PrepareSecrets(v: Version) returns (a: Answer)
      requires Wired() && caCert == NO_CA
      modifies api, this`caCert
      ensures WithCa(api.Now(), a, caCert) == Prepare(cfg, v, old(api.Now())) && api.addon == old(api.addon)
    {
      var names := ImagePullSecretNames(v.values);
      if names.Failure? {
        return Failed;
      }
      a := ReconcileSecrets(ImagePull, names.value);
      if a != Done {
        return;
      }
      var charts := CollectChartNames(v);
      a := ReconcileSecrets(ChartPull, charts);
      if a != Done {
        return;
      }
      a := ReconcileCABundle();
    }

    method ApplyFlux(v: Version) returns (a: Answer)
      requires Wired() && v.chartURL.Some?
      modifies api
      ensures Out(api.Now(), a) == ApplyArgo(cfg, v, old(api.Now()), InstallValues(cfg, v, caCert))
      ensures api.addon == old(api.addon)
    {
      a := api.Write(PutRepo(ARGOCD, BY_ARGOCD, ArgoRepo(cfg, v)));
      if a != Done {
        return;
      }
      var values := BuildValues(v.values, cfg.exposure, caCert, cfg.vault, v.version);
      if values.Failure? {
        return Failed;
      }
      a := api.Write(PutRelease(ARGOCD, BY_ARGOCD, ArgoRelease(cfg, values.value)));
    }

    /** removeReloaderResources, called from Uninstall. */
    method RemoveReloaderResources() returns (a: Answer)
      requires Wired()
      modifies api
      ensures Out(api.Now(), a) == RemoveReloader(cfg.site, old(api.Now())) && api.addon == old(api.addon)
    {
      a := api.Write(DeleteRelease(RELOADER));
      if a != Done {
        return;
      }
      a := api.Write(DeleteRepo(RELOADER));
    }

    /** reconcileReloader: whatever fails here is logged and forgotten. */
    method ApplyReloader() returns (a: Answer)
      requires Wired()
      modifies api
      ensures Out(api.Aside(), a) == ReconcileReloader(cfg, old(api.Aside())) && api.ticks == old(api.ticks)
    {
      if cfg.reloader.Some? {
        a := api.WriteAside(PutRepo(RELOADER, BY_RELOADER, ReloaderRepo(cfg)));
        if a != Halted {
          a := api.WriteAside(PutRelease(RELOADER, BY_RELOADER, ReloaderRelease(cfg)));
        }
      } else {
        a := api.WriteAside(DeleteRelease(RELOADER));
        if a == Done {
          a := api.WriteAside(DeleteRepo(RELOADER));
        }
      }
      if a == Failed {
        a := Done;
      }
    }

    method Install(v: Version) returns (a: Answer)
      requires Wired() && caCert == NO_CA
      modifies api, this`caCert
      ensures Out(api.Now(), a) == Provision.Install(cfg, v, old(api.Now()), old(api.addon))
    {
      if v.chartURL.None? {
        return Failed;
      }
      a := PrepareSecrets(v);
      if a != Done {
        return;
      }
      a := ApplyFlux(v);
      if a != Done {
        return;
      }
      a := ApplyReloader();
    }

    // -------------------------------------------------------------- teardown

    method CountUserAppProjects(projects: seq<Ref>) returns (n: nat)
      ensures n == Teardown.CountProjects(cfg.site, projects)
    {
      n := 0;
      for i := 0 to |projects|
        invariant n == Teardown.CountProjects(cfg.site, projects[..i])
      {
        assert projects[..i + 1][..i] == projects[..i];
        if projects[i].name == Teardown.DEFAULT_PROJECT && projects[i].ns == cfg.site.mcpNs {
          continue;
        }
        n := n + 1;
      }
      assert projects[..|projects|] == projects;
    }

    method CountUserArgoCDResources() returns (a: Answer, n: nat)
      requires Wired()
      modifies api
      ensures Teardown.Counted(api.Now(), a, n) == Teardown.CountUser(cfg.site, old(api.Now()))
    {
      a := api.Read();
      if a != Done {
        return a, 0;
      }
      n := |Teardown.Items(api.world.mcp.applications)|;
      a := api.Read();
      if a != Done {
        return a, 0;
      }
      n := n + |Teardown.Items(api.world.mcp.applicationSets)|;
      a := api.Read();
      if a != Done {
        return a, 0;
      }
      var projects := CountUserAppProjects(Teardown.Items(api.world.mcp.appProjects));
      n := n + projects;
    }

    method Uninstall() returns (a: Answer)
      requires Wired()
      modifies api
      ensures Out(api.Now(), a) == Teardown.Uninstall(cfg, old(api.Now()))
    {
      a := api.Write(DeleteRelease(ARGOCD));
      if a != Done {
        return;
      }
      a := api.Write(DeleteRepo(ARGOCD));
      if a != Done {
        return;
      }
      a := PruneSecrets(ImagePull, []);
      if a != Done {
        return;
      }
      a := PruneSecrets(ChartPull, []);
      if a != Done {
        return;
      }
      a := RemoveReloaderResources();
    }

    method IsUninstalled() returns (a: Answer, gone: bool)
      requires Wired()
      modifies api
      ensures Teardown.Checked(api.Now(), a, gone) == Teardown.IsUninstalled(cfg, old(api.Now()))
    {
      a := api.Read();
      if a != Done || Ref(cfg.site.tenant, ARGOCD) in api.world.releases {
        return a, false;
      }
      a := api.Read();
      if a != Done || Ref(cfg.site.tenant, ARGOCD) in api.world.repos {
        return a, false;
      }
      a := api.Read();
      if a != Done || Ref(cfg.site.tenant, RELOADER) in api.world.releases {
        return a, false;
      }
      a := api.Read();
      if a != Done || Ref(cfg.site.tenant, RELOADER) in api.world.repos {
        return a, false;
      }
      return Done, true;
    }

    // -------------------------------------------------------------- observations

    method Ready() returns (a: Answer, ready: bool)
      requires Wired()
      modifies api
      ensures Observed(api.Now(), a, ready) == ReleaseReady(cfg.site, old(api.Now()))
    {
      a := api.Read();
      if a != Done {
        return a, false;
      }
      var r := Ref(cfg.site.tenant, ARGOCD);
      if r !in api.world.releases {
        return Failed, false;
      }
      return Done, api.world.releases[r].ready == Some(true);
    }

    method Endpoint() returns (endpoint: string, a: Answer, ready: bool)
      requires Wired()
      modifies api
      ensures endpoint == Url(cfg.exposure)
      ensures Observed(api.Now(), a, ready) == EndpointReady(cfg, old(api.Now()))
    {
      if !cfg.exposure.enabled {
        return "", Done, true;
      }
      endpoint := "https://" + cfg.exposure.host;
      a := api.Read();
      if a != Done || !HasServerCert(cfg.site, api.world) {
        return endpoint, a, false;
      }
      a := api.Read();
      if a != Done {
        return endpoint, a, false;
      }
      var services := api.world.mcp.services;
      for i := 0 to |services|
        invariant forall k | 0 <= k < i ::
                    !(IsServer(cfg.site, services[k]) && services[k].loadBalancer && services[k].ingress > 0)
      {
        if !IsServer(cfg.site, services[i]) || !services[i].loadBalancer {
          continue;
        }
        if services[i].ingress > 0 {
          return endpoint, Done, true;
        }
      }
      return endpoint, Done, false;
    }
  }

  // ---------------------------------------------------------------- the reconciler

  /** The ArgoCD object a pass works on. */
  class Resource {
    const spec: Spec
    var operation: Option<string>
    var status: Status

    constructor (obj: ArgoCD)
      ensures Value() == obj
    {
      spec, operation, status := obj.spec, obj.operation, obj.status;
    }

    function Value(): ArgoCD
      reads this
    {
      ArgoCD(spec, operation, status)
    }

    /** A status setter: phase and reason, not the endpoint. */
    method SetStatus(phase: Phase, reason: string)
      modifies this`status
      ensures Value() == Set(old(Value()), phase, reason)
    {
      status := status.(phase := phase, reason := reason);
    }

    method SetEndpoint(endpoint: string)
      modifies this`status
      ensures Value() == Publish(old(Value()), endpoint)
    {
      status := status.(endpoint := endpoint);
    }
  }

  /** StatusFailed and the error return, unless the provider was cut off. */
  method FailPass(obj: Resource, a: Answer, reason: string) returns (r: Return)
    requires a != Done
    modifies obj`status
    ensures forall s :: Pass(obj.Value(), s, r) == Fail(old(obj.Value()), s, a, reason)
  {
    if a == Halted {
      return Stopped;
    }
    obj.SetStatus(Failing, reason);
    return Returned(false, true);
  }

  method PublishEndpoint(p: Provisioner, obj: Resource) returns (r: Return)
    requires p.Wired()
    modifies p.api, obj`status
    ensures Pass(obj.Value(), p.api.Now(), r) == ReconcileEndpoint(p.cfg, old(obj.Value()), old(p.api.Now()))
  {
    var endpoint, a, ready := p.Endpoint();
    if a != Done {
      return if a == Halted then Stopped else Returned(false, true);
    }
    if !ready {
      obj.SetEndpoint("");
      obj.SetStatus(Progressing, "EndpointPending");
      return Returned(true, false);
    }
    obj.SetEndpoint(endpoint);
    obj.SetStatus(Available, "");
    return Returned(false, false);
  }

  method ObserveInstalled(p: Provisioner, obj: Resource) returns (r: Return)
    requires p.Wired()
    modifies p.api, obj`status
    ensures Pass(obj.Value(), p.api.Now(), r) == Observe(p.cfg, old(obj.Value()), old(p.api.Now()))
  {
    var a, ready := p.Ready();
    if a != Done {
      r := FailPass(obj, a, "ReadinessCheckFailed");
      return;
    }
    if !ready {
      obj.SetStatus(Progressing, "Reconciling");
      return Returned(true, false);
    }
    if obj.spec.exposure.None? {
      obj.SetEndpoint("");
      obj.SetStatus(Available, "");
      return Returned(false, false);
    }
    r := PublishEndpoint(p, obj);
  }

  method ConvergeRequest(obj: Resource, pc: ProviderConfig, access: Access, isCIDR: string -> bool, api: Clusters)
    returns (r: Return)
    requires api.site == access.site
    modifies api, obj`status
    ensures Pass(obj.Value(), api.Now(), r)
         == Converge(old(obj.Value()), pc, access, isCIDR, old(api.Now()), old(api.addon))
  {
    obj.SetStatus(Progressing, "Reconciling");
    var version := SelectVersion(pc.versions, obj.spec.version);
    if version.None? {
      obj.SetStatus(Failing, "InvalidVersion");
      return Returned(false, false);
    }
    var rejection := ValidateExposure(obj.spec.exposure, access.api, isCIDR);
    if rejection.Some? {
      obj.SetStatus(Failing, "InvalidExposure");
      return Returned(false, false);
    }
    if !access.tenantKnown {
      obj.SetStatus(Failing, "ProvisionerCreationFailed");
      return Returned(false, true);
    }
    var p := new Provisioner(ConfigOf(obj.spec, pc, access), api);
    var a := p.Install(version.value);
    if a != Done {
      r := FailPass(obj, a, "InstallFailed");
      return;
    }
    r := ObserveInstalled(p, obj);
  }

  method CreateOrUpdatePass(obj: Resource, pc: ProviderConfig, access: Access, isCIDR: string -> bool, api: Clusters)
    returns (r: Return)
    requires api.site == access.site
    modifies api, obj
    ensures Pass(obj.Value(), api.Now(), r)
         == CreateOrUpdate(old(obj.Value()), pc, access, isCIDR, old(api.Now()), old(api.addon))
  {
    if obj.operation == Some("ignore") {
      return Returned(false, false);
    }
    if obj.operation == Some("reconcile") {
      var a := api.Read();
      if a != Done {
        return if a == Halted then Stopped else Returned(false, true);
      }
      obj.operation := None;
    }
    r := ConvergeRequest(obj, pc, access, isCIDR, api);
  }

  /** Delete as far as the Provisioner is concerned. */
  method TearDown(p: Provisioner) returns (end: Teardown.PassEnd)
    requires p.Wired()
    modifies p.api
    ensures Teardown.Pass(p.api.Now(), end) == Teardown.Delete(p.cfg, old(p.api.Now()))
  {
    var a, n := p.CountUserArgoCDResources();
    if a != Done {
      return if a == Halted then Teardown.CutOff else Teardown.GuardError;
    }
    if n > 0 {
      return Teardown.Blocked;
    }
    end := RemoveAll(p);
  }

  method RemoveAll(p: Provisioner) returns (end: Teardown.PassEnd)
    requires p.Wired()
    modifies p.api
    ensures Teardown.Pass(p.api.Now(), end) == Teardown.Remove(p.cfg, old(p.api.Now()))
  {
    var a := p.Uninstall();
    if a != Done {
      return if a == Halted then Teardown.CutOff else Teardown.UninstallError;
    }
    var gone: bool;
    a, gone := p.IsUninstalled();
    if a != Done {
      return if a == Halted then Teardown.CutOff else Teardown.UninstallError;
    }
    if !gone {
      return Teardown.Waiting;
    }
    a := p.RemoveCABundle();
    if a != Done {
      return if a == Halted then Teardown.CutOff else Teardown.CaError;
    }
    return Teardown.Complete;
  }

  method DeleteResource(obj: Resource, pc: ProviderConfig, access: Access, api: Clusters) returns (r: Return)
    requires api.site == access.site
    modifies api, obj`status
    ensures Pass(obj.Value(), api.Now(), r) == DeletePass(old(obj.Value()), pc, access, old(api.Now()))
  {
    obj.SetStatus(Terminating, "Terminating");
    if !access.tenantKnown {
      obj.SetStatus(Failing, "ProvisionerCreationFailed");
      return Returned(false, true);
    }
    var p := new Provisioner(ConfigOf(obj.spec, pc, access), api);
    var end := TearDown(p);
    match end
    case CutOff => return Stopped;
    case GuardError => obj.SetStatus(Failing, "FailedToListApplications"); return Returned(false, true);
    case UninstallError => obj.SetStatus(Failing, "Uninstalling"); return Returned(false, true);
    case CaError => return Returned(false, true);
    case Complete => return Returned(false, false);
    case Blocked => return Returned(true, false);
    case Waiting => return Returned(true, false);
  }

  /** IsReferencedSecret: a secret of the provider's namespace that some version or Reloader names. */
  method IsReferencedSecret(podNs: string, secret: Ref, pc: Option<ProviderConfig>) returns (r: bool)
    ensures r <==> secret.ns == podNs && pc.Some? && References(pc.value, secret.name)
  {
    if secret.ns != podNs || pc.None? {
      return false;
    }
    var versions := pc.value.versions;
    for i := 0 to |versions|
      invariant forall k | 0 <= k < i :: !VersionReferences(versions[k], secret.name)
    {
      var found := VersionReferencesSecret(versions[i], secret.name);
      if found {
        return true;
      }
    }
    return pc.value.reloader.Some? && pc.value.reloader.value.chartPullSecret == secret.name;
  }

  /** versionReferencesSecret: values that do not decode reference nothing. */
  method VersionReferencesSecret(v: Version, name: string) returns (r: bool)
    ensures r <==> VersionReferences(v, name)
  {
    if v.chartPullSecret == name {
      return true;
    }
    var names := ImagePullSecretNames(v.values);
    if names.Failure? {
      return false;
    }
    for i := 0 to |names.value|
      invariant name !in names.value[..i]
    {
      if names.value[i] == name {
        return true;
      }
    }
    assert names.value[..|names.value|] == names.value;
    return false;
  }
}
