/** What the two passes of the controller answer, as decision tables over what their calls meet: which
    status they leave, what they return, and after which call. */
module Outcomes {
  import opened Wrappers
  import opened JsonTrees
  import opened Certs
  import opened Hosts
  import opened HelmValues
  import opened ValuesInWords
  import opened Cluster
  import opened Provision
  import opened InstallLaws
  import opened StoresInWords
  import Teardown
  import TeardownLaws
  import Progress
  import opened Controller
  import opened ControllerLaws

  /** The pass ends at s with this status and return. */
  predicate Answers(p: Pass, s: Sys, phase: Phase, reason: string, endpoint: string, r: Return) {
    p.s == s && p.obj.status == Status(phase, reason, endpoint) && p.r == r
  }

  const QUIETLY := Returned(false, false)
  const AGAIN := Returned(true, false)
  const WITH_ERROR := Returned(false, true)

  // ---------------------------------------------------------------- CreateOrUpdate

  /** The certificate secret that exposure asks for is there. */
  predicate CertIn(site: Site, w: World) {
    Ref(site.mcpNs, "argocd-server-tls") in w.mcp.secrets
  }

  /** Some server Service of type LoadBalancer in Argo CD's namespace has an address. */
  predicate AddressIn(site: Site, w: World) {
    exists i | 0 <= i < |w.mcp.services| ::
      var svc := w.mcp.services[i];
      && svc.ns == site.mcpNs && svc.loadBalancer && svc.ingress > 0
      && Label(svc.labels, "app.kubernetes.io/part-of", "argocd")
      && Label(svc.labels, "app.kubernetes.io/component", "server")
  }

  predicate ReleaseIn(site: Site, w: World) {
    Ref(site.tenant, "argocd") in w.releases
  }

  predicate ReadyNow(site: Site, w: World) {
    ReleaseIn(site, w) && w.releases[Ref(site.tenant, "argocd")].ready == Some(true)
  }

  /** The third read: is there an address? */
  predicate AnswersAddress(p: Pass, site: Site, s: Sys, stale: string, url: string) {
    var look := Look(site, s);
    match look.a
    case Halted => Answers(p, look.s, Progressing, "Reconciling", stale, Stopped)
    case Failed => Answers(p, look.s, Progressing, "Reconciling", stale, WITH_ERROR)
    case Done =>
      if AddressIn(site, look.s.w) then Answers(p, look.s, Available, "", url, QUIETLY)
      else Answers(p, look.s, Progressing, "EndpointPending", "", AGAIN)
  }

  /** The second read: is there a certificate? */
  predicate AnswersEndpoint(p: Pass, site: Site, s: Sys, stale: string, url: string) {
    var look := Look(site, s);
    match look.a
    case Halted => Answers(p, look.s, Progressing, "Reconciling", stale, Stopped)
    case Failed => Answers(p, look.s, Progressing, "Reconciling", stale, WITH_ERROR)
    case Done =>
      if CertIn(site, look.s.w) then AnswersAddress(p, site, look.s, stale, url)
      else Answers(p, look.s, Progressing, "EndpointPending", "", AGAIN)
  }

  /** The first read after Install: is the release ready? url is None without exposure. */
  predicate AnswersReadiness(p: Pass, site: Site, s: Sys, stale: string, url: Option<string>) {
    var look := Look(site, s);
    match look.a
    case Halted => Answers(p, look.s, Progressing, "Reconciling", stale, Stopped)
    case Failed => Answers(p, look.s, Failing, "ReadinessCheckFailed", stale, WITH_ERROR)
    case Done =>
      if !ReleaseIn(site, look.s.w) then Answers(p, look.s, Failing, "ReadinessCheckFailed", stale, WITH_ERROR)
      else if !ReadyNow(site, look.s.w) then Answers(p, look.s, Progressing, "Reconciling", stale, AGAIN)
      else if url.None? then Answers(p, look.s, Available, "", "", QUIETLY)
      else AnswersEndpoint(p, site, look.s, stale, url.value)
  }

  predicate AnswersInstall(p: Pass, site: Site, installed: Out, stale: string, url: Option<string>) {
    match installed.a
    case Halted => Answers(p, installed.s, Progressing, "Reconciling", stale, Stopped)
    case Failed => Answers(p, installed.s, Failing, "InstallFailed", stale, WITH_ERROR)
    case Done => AnswersReadiness(p, site, installed.s, stale, url)
  }

  /** The URL an accepted request asks for. */
  function AskedUrl(obj: ArgoCD, access: Access): Option<string> {
    if obj.spec.exposure.None? then None
    else
      match ComposeHost(obj.spec.exposure.value.host, access.api)
      case Success(host) => Some("https://" + host)
      case Failure(_) => None
  }

  lemma EndpointAnswers(cfg: Config, obj: ArgoCD, s: Sys)
    requires cfg.exposure.enabled && obj.status.phase == Progressing && obj.status.reason == "Reconciling"
    ensures AnswersEndpoint(ReconcileEndpoint(cfg, obj, s), cfg.site, s, obj.status.endpoint,
                            "https://" + cfg.exposure.host)
  {
    var cert := Look(cfg.site, s);
    if cert.a == Done && CertIn(cfg.site, cert.s.w) {
      ServicesMean(cfg.site, Look(cfg.site, cert.s).s.w);
    }
  }

  lemma ServicesMean(site: Site, w: World)
    ensures Addressed(site, w.mcp.services) <==> AddressIn(site, w)
  {
    forall i | 0 <= i < |w.mcp.services|
      ensures IsServer(site, w.mcp.services[i]) <==>
                && w.mcp.services[i].ns == site.mcpNs
                && Label(w.mcp.services[i].labels, "app.kubernetes.io/part-of", "argocd")
                && Label(w.mcp.services[i].labels, "app.kubernetes.io/component", "server")
    {
    }
  }

  lemma ReadinessAnswers(cfg: Config, obj: ArgoCD, s: Sys)
    requires cfg.exposure.enabled <==> obj.spec.exposure.Some?
    requires obj.status.phase == Progressing && obj.status.reason == "Reconciling"
    ensures AnswersReadiness(Observe(cfg, obj, s), cfg.site, s, obj.status.endpoint,
                             if cfg.exposure.enabled then Some("https://" + cfg.exposure.host) else None)
  {
    if cfg.exposure.enabled {
      EndpointAnswers(cfg, obj, Look(cfg.site, s).s);
    }
  }

  /** What a pass that goes ahead answers, whatever its calls meet. */
  lemma PassAnswers(obj: ArgoCD, pc: ProviderConfig, access: Access, isCIDR: string -> bool, s: Sys, addon: seq<Tick>)
    requires GoesAhead(obj, access, s)
    ensures var p := CreateOrUpdate(obj, pc, access, isCIDR, s, addon);
            var start, stale := Begin(obj, access, s), obj.status.endpoint;
            var version := SelectVersion(pc.versions, obj.spec.version);
      if version.None? then Answers(p, start, Failing, "InvalidVersion", stale, QUIETLY)
      else if Verdict(obj.spec.exposure, access.api, isCIDR).Some? then
        Answers(p, start, Failing, "InvalidExposure", stale, QUIETLY)
      else if !access.tenantKnown then Answers(p, start, Failing, "ProvisionerCreationFailed", stale, WITH_ERROR)
      else
        var installed := Install(ConfigOf(obj.spec, pc, access), version.value, start, addon);
        AnswersInstall(p, access.site, installed, stale, AskedUrl(obj, access))
  {
    var version := SelectVersion(pc.versions, obj.spec.version);
    PassConverges(obj, pc, access, isCIDR, s, addon);
    if version.Some? && Verdict(obj.spec.exposure, access.api, isCIDR).None? && access.tenantKnown {
      InstalledAnswers(Unmarked(obj), pc, access, isCIDR, Begin(obj, access, s), addon, version.value);
    }
  }

  /** A pass that goes ahead changes nothing of the object but its status, and takes the reconcile
      annotation off. */
  lemma PassKeepsRequest(
      obj: ArgoCD, pc: ProviderConfig, access: Access, isCIDR: string -> bool, s: Sys, addon: seq<Tick>)
    requires GoesAhead(obj, access, s)
    ensures CreateOrUpdate(obj, pc, access, isCIDR, s, addon).obj.spec == obj.spec
    ensures CreateOrUpdate(obj, pc, access, isCIDR, s, addon).obj.operation
         == if obj.operation == Some("reconcile") then None else obj.operation
  {
    PassConverges(obj, pc, access, isCIDR, s, addon);
    ConvergeKeepsRequest(Unmarked(obj), pc, access, isCIDR, Begin(obj, access, s), addon);
  }

  lemma ConvergeKeepsRequest(
      obj: ArgoCD, pc: ProviderConfig, access: Access, isCIDR: string -> bool, s: Sys, addon: seq<Tick>)
    ensures var p := Converge(obj, pc, access, isCIDR, s, addon);
      p.obj.spec == obj.spec && p.obj.operation == obj.operation
  {
    var cfg := ConfigOf(obj.spec, pc, access);
    var version := SelectVersion(pc.versions, obj.spec.version);
    if version.Some? {
      ObserveKeepsRequest(cfg, Set(obj, Progressing, "Reconciling"), Install(cfg, version.value, s, addon).s);
    }
  }

  lemma ObserveKeepsRequest(cfg: Config, obj: ArgoCD, s: Sys)
    ensures Observe(cfg, obj, s).obj.spec == obj.spec && Observe(cfg, obj, s).obj.operation == obj.operation
  {
  }

  lemma InstalledAnswers(obj: ArgoCD, pc: ProviderConfig, access: Access, isCIDR: string -> bool,
                         s: Sys, addon: seq<Tick>, v: Version)
    requires SelectVersion(pc.versions, obj.spec.version) == Some(v) && access.tenantKnown
    requires Verdict(obj.spec.exposure, access.api, isCIDR).None?
    ensures AnswersInstall(Converge(obj, pc, access, isCIDR, s, addon), access.site,
                           Install(ConfigOf(obj.spec, pc, access), v, s, addon), obj.status.endpoint,
                           AskedUrl(obj, access))
  {
    var cfg := ConfigOf(obj.spec, pc, access);
    var installed := Install(cfg, v, s, addon);
    UrlIsAsked(obj, pc, access, isCIDR);
    if installed.a == Done {
      ReadinessAnswers(cfg, Set(obj, Progressing, "Reconciling"), installed.s);
    }
  }

  lemma UrlIsAsked(obj: ArgoCD, pc: ProviderConfig, access: Access, isCIDR: string -> bool)
    requires Verdict(obj.spec.exposure, access.api, isCIDR).None?
    ensures var x := ConfigOf(obj.spec, pc, access).exposure;
      && (x.enabled <==> obj.spec.exposure.Some?)
      && AskedUrl(obj, access) == if x.enabled then Some("https://" + x.host) else None
  {
    if obj.spec.exposure.Some? {
      ResolvesWhatWasValidated(obj.spec.exposure.value, pc, access.api, isCIDR);
    }
  }

  /** What a pass answers that does not go ahead. */
  lemma SkippedPassAnswers(
      obj: ArgoCD, pc: ProviderConfig, access: Access, isCIDR: string -> bool, s: Sys, addon: seq<Tick>)
    requires !GoesAhead(obj, access, s)
    ensures CreateOrUpdate(obj, pc, access, isCIDR, s, addon) ==
              if obj.operation == Some("ignore") then Pass(obj, s, QUIETLY)
              else if Look(access.site, s).a == Failed then Pass(obj, Look(access.site, s).s, WITH_ERROR)
              else Pass(obj, Look(access.site, s).s, Stopped)
  {
  }

  /** The request can be served: its version is offered, its exposure valid, its namespace known. */
  predicate Acceptable(obj: ArgoCD, pc: ProviderConfig, access: Access, isCIDR: string -> bool) {
    && SelectVersion(pc.versions, obj.spec.version).Some?
    && Verdict(obj.spec.exposure, access.api, isCIDR).None? && access.tenantKnown
  }

  /** The Install of the pass. */
  function InstallOf(obj: ArgoCD, pc: ProviderConfig, access: Access, s: Sys, addon: seq<Tick>): Out
    requires SelectVersion(pc.versions, obj.spec.version).Some?
  {
    var v := SelectVersion(pc.versions, obj.spec.version).value;
    Install(ConfigOf(obj.spec, pc, access), v, Begin(obj, access, s), addon)
  }

  /** The reads after s are served, and meet a ready release and, for an exposed request, certificate
      and address. */
  predicate AllThere(obj: ArgoCD, site: Site, s: Sys) {
    var one := Look(site, s);
    var two := Look(site, one.s);
    var three := Look(site, two.s);
    && one.a == Done && ReadyNow(site, one.s.w)
    && (obj.spec.exposure.Some? ==>
          two.a == Done && CertIn(site, two.s.w) && three.a == Done && AddressIn(site, three.s.w))
  }

  /** A pass ends Available, with the endpoint that was asked for and nothing more to do, exactly when
      the request can be served, Install succeeds, and the reads after it meet all they look for. */
  lemma AvailableIff(obj: ArgoCD, pc: ProviderConfig, access: Access, isCIDR: string -> bool, s: Sys, addon: seq<Tick>)
    requires GoesAhead(obj, access, s)
    ensures var p := CreateOrUpdate(obj, pc, access, isCIDR, s, addon);
      && (p.obj.status.phase == Available <==>
            && Acceptable(obj, pc, access, isCIDR) && InstallOf(obj, pc, access, s, addon).a == Done
            && AllThere(obj, access.site, InstallOf(obj, pc, access, s, addon).s))
      && (p.obj.status.phase == Available ==>
            && p.r == QUIETLY
            && p.obj.status == Status(Available, "", match AskedUrl(obj, access) case None => "" case Some(url) => url))
  {
    PassAnswers(obj, pc, access, isCIDR, s, addon);
    UrlOfAccepted(obj, access, isCIDR);
    if Acceptable(obj, pc, access, isCIDR) {
      AnsweredAvailable(CreateOrUpdate(obj, pc, access, isCIDR, s, addon), obj, access.site,
                        InstallOf(obj, pc, access, s, addon), AskedUrl(obj, access));
    }
  }

  lemma AnsweredAvailable(p: Pass, obj: ArgoCD, site: Site, installed: Out, url: Option<string>)
    requires AnswersInstall(p, site, installed, obj.status.endpoint, url)
    requires url.Some? <==> obj.spec.exposure.Some?
    ensures p.obj.status.phase == Available <==> installed.a == Done && AllThere(obj, site, installed.s)
    ensures p.obj.status.phase == Available ==>
              && p.r == QUIETLY && p.obj.status.reason == ""
              && p.obj.status.endpoint == if url.None? then "" else url.value
  {
  }

  lemma UrlOfAccepted(obj: ArgoCD, access: Access, isCIDR: string -> bool)
    ensures Verdict(obj.spec.exposure, access.api, isCIDR).None? ==>
              (AskedUrl(obj, access).Some? <==> obj.spec.exposure.Some?)
  {
  }

  /** An error comes back for a cause: one of the calls of the pass failed, the tenant namespace is not
      known, what Install needs was missing at some time, or the release was gone right after it. */
  lemma ErrorHasCause(obj: ArgoCD, pc: ProviderConfig, access: Access, isCIDR: string -> bool, s: Sys, addon: seq<Tick>)
    requires CreateOrUpdate(obj, pc, access, isCIDR, s, addon).r == WITH_ERROR
    requires access.site.pod != access.site.tenant
    ensures || !Obliging(s.ticks)
            || !access.tenantKnown
            || (var version := SelectVersion(pc.versions, obj.spec.version);
                && version.Some?
                && (var cfg := ConfigOf(obj.spec, pc, access);
                    || !Progress.Throughout(Begin(obj, access, s),
                                            (w: World) => Progress.Feasible(cfg, version.value, w))
                    || !ReleaseIn(access.site, Look(access.site, InstallOf(obj, pc, access, s, addon).s).s.w)))
  {
    if Obliging(s.ticks) && access.tenantKnown {
      SkippedOrAhead(obj, pc, access, isCIDR, s, addon);
      PassAnswers(obj, pc, access, isCIDR, s, addon);
      var version := SelectVersion(pc.versions, obj.spec.version);
      if version.Some? && Verdict(obj.spec.exposure, access.api, isCIDR).None? {
        var cfg, start := ConfigOf(obj.spec, pc, access), Begin(obj, access, s);
        if Progress.Throughout(start, (w: World) => Progress.Feasible(cfg, version.value, w)) {
          InstallServed(cfg, version.value, start, addon);
          ErrorAfterInstall(CreateOrUpdate(obj, pc, access, isCIDR, s, addon), access.site,
                            Install(cfg, version.value, start, addon), obj.status.endpoint, AskedUrl(obj, access));
        }
      }
    }
  }

  lemma SkippedOrAhead(
      obj: ArgoCD, pc: ProviderConfig, access: Access, isCIDR: string -> bool, s: Sys, addon: seq<Tick>)
    requires Obliging(s.ticks) && CreateOrUpdate(obj, pc, access, isCIDR, s, addon).r == WITH_ERROR
    ensures GoesAhead(obj, access, s) && Obliging(Begin(obj, access, s).ticks)
  {
    if !GoesAhead(obj, access, s) {
      SkippedPassAnswers(obj, pc, access, isCIDR, s, addon);
    }
  }

  /** Install of a feasible request whose calls do not fail: it does not fail, nor do the calls after. */
  lemma InstallServed(cfg: Config, v: Version, s: Sys, addon: seq<Tick>)
    requires cfg.site.pod != cfg.site.tenant
    requires Progress.Smooth(s, (w: World) => Progress.Feasible(cfg, v, w))
    ensures Install(cfg, v, s, addon).a != Failed
    ensures Install(cfg, v, s, addon).a == Done ==> Obliging(Install(cfg, v, s, addon).s.ticks)
  {
    Progress.InstallNeverFails(cfg, v, s, addon);
    if Install(cfg, v, s, addon).a == Done {
      Progress.PrepareFine(cfg, v, s);
      ReloaderTouchesOnlyItsOwn(cfg, v, s, addon);
      ArgoObliging(cfg, v, Prepare(cfg, v, s).s, InstallValues(cfg, v, Prepare(cfg, v, s).ca));
    }
  }

  lemma ArgoObliging(cfg: Config, v: Version, s: Sys, compiled: Result<Option<Json>>)
    requires v.chartURL.Some? && Obliging(s.ticks)
    ensures Obliging(ApplyArgo(cfg, v, s, compiled).s.ticks)
  {
  }

  lemma ErrorAfterInstall(p: Pass, site: Site, installed: Out, stale: string, url: Option<string>)
    requires AnswersInstall(p, site, installed, stale, url) && p.r == WITH_ERROR
    requires installed.a != Failed && (installed.a == Done ==> Obliging(installed.s.ticks))
    ensures !ReleaseIn(site, Look(site, installed.s).s.w)
  {
    ServedReads(site, installed.s);
  }

  lemma ServedReads(site: Site, s: Sys)
    ensures Obliging(s.ticks) ==>
      && Look(site, s).a != Failed && Look(site, Look(site, s).s).a != Failed
      && Look(site, Look(site, Look(site, s).s).s).a != Failed
  {
  }

  // ---------------------------------------------------------------- Delete

  predicate AnswersRemoval(p: Pass, removed: Out, stale: string) {
    match removed.a
    case Halted => Answers(p, removed.s, Terminating, "Terminating", stale, Stopped)
    case Failed => Answers(p, removed.s, Terminating, "Terminating", stale, WITH_ERROR)
    case Done => Answers(p, removed.s, Terminating, "Terminating", stale, QUIETLY)
  }

  predicate AnswersCheck(p: Pass, cfg: Config, checked: Teardown.Checked, stale: string) {
    match checked.a
    case Halted => Answers(p, checked.s, Terminating, "Terminating", stale, Stopped)
    case Failed => Answers(p, checked.s, Failing, "Uninstalling", stale, WITH_ERROR)
    case Done =>
      if checked.gone then AnswersRemoval(p, RemoveCa(cfg, checked.s), stale)
      else Answers(p, checked.s, Terminating, "Terminating", stale, AGAIN)
  }

  predicate AnswersUninstall(p: Pass, cfg: Config, uninstalled: Out, stale: string) {
    match uninstalled.a
    case Halted => Answers(p, uninstalled.s, Terminating, "Terminating", stale, Stopped)
    case Failed => Answers(p, uninstalled.s, Failing, "Uninstalling", stale, WITH_ERROR)
    case Done => AnswersCheck(p, cfg, Teardown.IsUninstalled(cfg, uninstalled.s), stale)
  }

  /** What a Delete pass answers, whatever its calls meet. */
  lemma DeleteAnswers(obj: ArgoCD, pc: ProviderConfig, access: Access, s: Sys)
    ensures var p, stale := DeletePass(obj, pc, access, s), obj.status.endpoint;
            var cfg := ConfigOf(obj.spec, pc, access);
            var counted := Teardown.CountUser(access.site, s);
      if !access.tenantKnown then Answers(p, s, Failing, "ProvisionerCreationFailed", stale, WITH_ERROR)
      else
        match counted.a
        case Halted => Answers(p, counted.s, Terminating, "Terminating", stale, Stopped)
        case Failed => Answers(p, counted.s, Failing, "FailedToListApplications", stale, WITH_ERROR)
        case Done =>
          if counted.n > 0 then Answers(p, counted.s, Terminating, "Terminating", stale, AGAIN)
          else AnswersUninstall(p, cfg, Teardown.Uninstall(cfg, counted.s), stale)
  {
    if access.tenantKnown {
      var cfg := ConfigOf(obj.spec, pc, access);
      var counted := Teardown.CountUser(access.site, s);
      if counted.a == Done && counted.n == 0 {
        RemovalAnswers(obj, cfg, counted.s);
      }
    }
  }

  lemma RemovalAnswers(obj: ArgoCD, cfg: Config, s: Sys)
    ensures AnswersUninstall(Finish(Set(obj, Terminating, "Terminating"), Teardown.Remove(cfg, s)), cfg,
                             Teardown.Uninstall(cfg, s), obj.status.endpoint)
  {
    var u := Teardown.Uninstall(cfg, s);
    if u.a != Done {
      StopsUninstalling(cfg, s);
    } else {
      CheckAnswers(obj, cfg, s);
    }
  }

  lemma CheckAnswers(obj: ArgoCD, cfg: Config, s: Sys)
    requires Teardown.Uninstall(cfg, s).a == Done
    ensures AnswersCheck(Finish(Set(obj, Terminating, "Terminating"), Teardown.Remove(cfg, s)), cfg,
                         Teardown.IsUninstalled(cfg, Teardown.Uninstall(cfg, s).s), obj.status.endpoint)
  {
    var c := Teardown.IsUninstalled(cfg, Teardown.Uninstall(cfg, s).s);
    if c.a == Done && c.gone {
      StopsRemoving(cfg, s);
      FinishRemoval(obj, RemoveCa(cfg, c.s));
    } else {
      StopsChecking(cfg, s);
    }
  }

  lemma FinishRemoval(obj: ArgoCD, r: Out)
    ensures var end := if r.a == Halted then Teardown.CutOff else if r.a == Failed then Teardown.CaError
                       else Teardown.Complete;
      AnswersRemoval(Finish(Set(obj, Terminating, "Terminating"), Teardown.Pass(r.s, end)), r, obj.status.endpoint)
  {
  }

  lemma StopsUninstalling(cfg: Config, s: Sys)
    requires Teardown.Uninstall(cfg, s).a != Done
    ensures var u := Teardown.Uninstall(cfg, s);
      Teardown.Remove(cfg, s) == Teardown.Pass(u.s, if u.a == Halted then Teardown.CutOff else Teardown.UninstallError)
  {
  }

  lemma StopsChecking(cfg: Config, s: Sys)
    requires Teardown.Uninstall(cfg, s).a == Done
    requires var c := Teardown.IsUninstalled(cfg, Teardown.Uninstall(cfg, s).s); c.a != Done || !c.gone
    ensures var c := Teardown.IsUninstalled(cfg, Teardown.Uninstall(cfg, s).s);
      Teardown.Remove(cfg, s) == Teardown.Pass(c.s,
        if c.a == Halted then Teardown.CutOff else if c.a == Failed then Teardown.UninstallError else Teardown.Waiting)
  {
  }

  lemma StopsRemoving(cfg: Config, s: Sys)
    requires Teardown.Uninstall(cfg, s).a == Done
    requires var c := Teardown.IsUninstalled(cfg, Teardown.Uninstall(cfg, s).s); c.a == Done && c.gone
    ensures var r := RemoveCa(cfg, Teardown.IsUninstalled(cfg, Teardown.Uninstall(cfg, s).s).s);
      Teardown.Remove(cfg, s) == Teardown.Pass(r.s,
        if r.a == Halted then Teardown.CutOff else if r.a == Failed then Teardown.CaError else Teardown.Complete)
  {
  }

  /** No user resource that the guard would count. */
  predicate NoUserResources(site: Site, w: World) {
    && (w.mcp.applications.Some? ==> w.mcp.applications.value == [])
    && (w.mcp.applicationSets.Some? ==> w.mcp.applicationSets.value == [])
    && (w.mcp.appProjects.Some? ==> forall p | p in w.mcp.appProjects.value :: p == Ref(site.mcpNs, "default"))
  }

  /** None of the four Flux objects that are there has a finalizer. */
  predicate NothingHeld(site: Site, w: World) {
    forall name | name in {"argocd", "argocd-reloader"} ::
      var r := Ref(site.tenant, name);
      (r in w.repos ==> w.repos[r].life.Loose?) && (r in w.releases ==> w.releases[r].life.Loose?)
  }

  lemma InTheseWords(site: Site, w: World)
    ensures NoUserResources(site, w) <==> Progress.Unused(site, w)
    ensures NothingHeld(site, w) <==> Progress.AllLoose(site, w)
  {
    var projects := w.mcp.appProjects;
    assert Teardown.Items(projects) == if projects.Some? then projects.value else [];
    var a, r := Ref(site.tenant, "argocd"), Ref(site.tenant, "argocd-reloader");
    assert OurRef(site, a) && OurRef(site, r);
    assert "argocd" in {"argocd", "argocd-reloader"} && "argocd-reloader" in {"argocd", "argocd-reloader"};
  }

  /** A Delete pass without failing calls and doings of others, answered often enough, lets the object
      go when there are no user resources and no finalizer holds a Flux object, and else comes back. */
  lemma DeleteReturns(obj: ArgoCD, pc: ProviderConfig, access: Access, s: Sys)
    requires access.tenantKnown && Quiet(s.ticks) && |s.ticks| >= Progress.DeleteCalls(access.site, s.w)
    ensures var p := DeletePass(obj, pc, access, s);
      && p.obj.status == Status(Terminating, "Terminating", obj.status.endpoint)
      && p.r == if NoUserResources(access.site, s.w) && NothingHeld(access.site, s.w) then QUIETLY else AGAIN
  {
    Progress.DeleteEndsAs(ConfigOf(obj.spec, pc, access), s);
    InTheseWords(access.site, s.w);
  }

  /** A request for deletion, with the configuration and the calls of its time. */
  datatype Request = Request(obj: ArgoCD, pc: ProviderConfig, access: Access, ticks: seq<Tick>)

  function AttemptOf(q: Request): Teardown.Attempt {
    Teardown.Attempt(ConfigOf(q.obj.spec, q.pc, q.access), q.ticks)
  }

  /** A deletion: requests at one site whose tenant is known, each of which gets through, and between
      any two of which Flux removes something of what is left. */
  ghost predicate Deletion(site: Site, starts: seq<World>, requests: seq<Request>) {
    && |starts| == |requests|
    && (forall q | q in requests :: q.access.site == site && q.access.tenantKnown)
    && Progress.Progressing(site, starts, seq(|requests|, i requires 0 <= i < |requests| => AttemptOf(requests[i])))
  }

  /** In the end the object is let go: at most as many passes come back as there were Flux objects. */
  lemma DeletionEnds(site: Site, starts: seq<World>, requests: seq<Request>) returns (i: nat)
    requires Deletion(site, starts, requests) && |starts| > TeardownLaws.FluxCount(site, starts[0])
    ensures i <= TeardownLaws.FluxCount(site, starts[0]) && i < |starts|
    ensures var q := requests[i];
      DeletePass(q.obj, q.pc, q.access, Sys(starts[i], q.ticks)).r == QUIETLY
  {
    var passes := seq(|requests|, i requires 0 <= i < |requests| => AttemptOf(requests[i]));
    i := Progress.TeardownTerminates(site, starts, passes);
    assert requests[i] in requests;
    CompleteIsQuiet(requests[i].obj, requests[i].pc, requests[i].access, Sys(starts[i], requests[i].ticks));
  }

  lemma CompleteIsQuiet(obj: ArgoCD, pc: ProviderConfig, access: Access, s: Sys)
    requires access.tenantKnown && Teardown.Delete(ConfigOf(obj.spec, pc, access), s).end == Teardown.Complete
    ensures DeletePass(obj, pc, access, s).r == QUIETLY
  {
  }

  // ---------------------------------------------------------------- what reaches Install

  function TextOr(asked: string, default: string): string {
    if asked == "" then default else asked
  }

  /** The provider's configuration, the tenant's request and the cluster access, as Install gets them. */
  lemma ConfigInWords(spec: Spec, pc: ProviderConfig, access: Access)
    ensures var cfg := ConfigOf(spec, pc, access);
      && cfg.site == access.site && cfg.kubeConfigSecret == access.kubeConfigSecret
      && cfg.interval == pc.interval && cfg.caBundle == pc.caBundle
      && (cfg.vault.enabled <==> pc.vaultPlugin == Some(true) && spec.vaultPlugin == Some(true))
      && cfg.vault.openSource == pc.openSource && cfg.vault.lists == pc.bundle
      && (cfg.reloader.None? <==> pc.reloader.None?)
      && (pc.reloader.Some? ==>
            var asked := pc.reloader.value;
            cfg.reloader.value == Reloader(TextOr(asked.chartURL, "oci://ghcr.io/stakater/charts/reloader"),
                                           asked.chartVersion, asked.chartPullSecret, asked.values))
  {
  }

  /** The exposure that is compiled: the completed host, and the provider's policy with its defaults. */
  lemma PolicyInWords(spec: Spec, pc: ProviderConfig, access: Access)
    ensures var e := ConfigOf(spec, pc, access).exposure;
      && (e.enabled <==> spec.exposure.Some?)
      && (e.enabled ==>
            && (match ComposeHost(spec.exposure.value.host, access.api)
                case Success(fqdn) => e.host == fqdn
                case Failure(_) => e.host == spec.exposure.value.host)
            && e.allowedIPs == spec.exposure.value.allowedIPs
            && (e.reloaderEnabled <==> pc.reloader.Some?)
            && e.dnsClass == (if pc.policy.None? then "garden" else TextOr(pc.policy.value.dnsClass, "garden"))
            && e.certPurpose == (if pc.policy.None? then "managed" else TextOr(pc.policy.value.certPurpose, "managed"))
            && e.dnsTTL == (if pc.policy.None? || pc.policy.value.dnsTTL == 0 then 3600 else pc.policy.value.dnsTTL))
  {
  }

  /** What was configured and asked for is in the stores after a successful Install: the CA bundle on
      the repository; the kubeconfig secret, the interval, and for an exposed request the validated
      host and the DNS class in the values of the release. */
  lemma ConfiguredIsInstalled(obj: ArgoCD, pc: ProviderConfig, access: Access, isCIDR: string -> bool,
                              v: Version, s: Sys, addon: seq<Tick>)
    requires var cfg := ConfigOf(obj.spec, pc, access);
      Apart(cfg, v, s.w) && Install(cfg, v, s, addon).a == Done
    requires Verdict(obj.spec.exposure, access.api, isCIDR).None?
    ensures var end, r := Install(ConfigOf(obj.spec, pc, access), v, s, addon).s.w, Ref(access.site.tenant, "argocd");
      && (r in end.repos ==>
            end.repos[r].spec.interval == pc.interval && RefersTo(end.repos[r].spec.certSecretRef, pc.caBundle))
      && (r in end.releases ==>
            var spec := end.releases[r].spec;
            && spec.interval == pc.interval && spec.kubeConfig == (access.kubeConfigSecret, "kubeconfig")
            && (obj.spec.exposure.Some? ==>
                  && ComposeHost(obj.spec.exposure.value.host, access.api).Success?
                  && At(Decoded(spec.values), ["server", "service", "annotations", "dns.gardener.cloud/dnsnames"])
                     == Some(Str(ComposeHost(obj.spec.exposure.value.host, access.api).value))
                  && At(Decoded(spec.values), ["server", "service", "annotations", "dns.gardener.cloud/class"])
                     == Some(Str(if pc.policy.None? then "garden" else TextOr(pc.policy.value.dnsClass, "garden")))))
  {
    var cfg := ConfigOf(obj.spec, pc, access);
    ArgoInWords(cfg, v, s, addon);
    PolicyInWords(obj.spec, pc, access);
    if obj.spec.exposure.Some? {
      ResolvesWhatWasValidated(obj.spec.exposure.value, pc, access.api, isCIDR);
      NameAndClassReach(v.values, cfg.exposure, TenantCa(cfg, Install(cfg, v, s, addon).s.w), cfg.vault, v.version);
    }
  }

  lemma NameAndClassReach(base: Option<Json>, e: ExposureValues, ca: Pem, vault: VaultPlugin, version: string)
    requires Values(base, e, ca, vault, version).Success? && e.enabled
    ensures var r := Decoded(Values(base, e, ca, vault, version).value);
      && At(r, ["server", "service", "annotations", "dns.gardener.cloud/dnsnames"]) == Some(Str(e.host))
      && At(r, ["server", "service", "annotations", "dns.gardener.cloud/class"]) == Some(Str(e.dnsClass))
  {
    AnnotationReaches(base, e, ca, vault, version, "dns.gardener.cloud/dnsnames", Str(e.host));
    AnnotationReaches(base, e, ca, vault, version, "dns.gardener.cloud/class", Str(e.dnsClass));
  }

  lemma AnnotationReaches(
      base: Option<Json>, e: ExposureValues, ca: Pem, vault: VaultPlugin, version: string, key: string, leaf: Json)
    requires Values(base, e, ca, vault, version).Success? && e.enabled
    requires AnnotationGives(e, key, leaf) && !leaf.Obj?
    ensures At(Decoded(Values(base, e, ca, vault, version).value), ["server", "service", "annotations", key])
         == Some(leaf)
  {
    var p := ["server", "service", "annotations", key];
    assert p[..3] == ["server", "service", "annotations"];
    CompiledInWords(base, e, ca, vault, version, p, leaf);
  }
}
