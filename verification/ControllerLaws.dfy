/** What the passes of the controller promise: which endpoint is published and when, that no pass
    drops work silently, that Reloader never shows, and that every pull secret in use is watched. */
module ControllerLaws {
  import opened Wrappers
  import opened JsonTrees
  import opened Certs
  import opened Hosts
  import opened HelmValues
  import opened ValuesLaws
  import opened Cluster
  import opened Provision
  import opened InstallLaws
  import Progress
  import Teardown
  import TeardownLaws
  import opened Controller

  // ---------------------------------------------------------------- exposure

  /** For an accepted request the exposure is resolved to the very name that was validated, without
      falling back to the raw host. */
  lemma ResolvesWhatWasValidated(e: ServerExposure, pc: ProviderConfig, api: ApiServer, isCIDR: string -> bool)
    requires Verdict(Some(e), api, isCIDR) == None
    ensures var x := ResolveExposure(Some(e), pc, api);
      && x.enabled && ComposeHost(e.host, api) == Success(x.host)
      && |x.host| <= 253 && '.' in x.host && x.allowedIPs == e.allowedIPs
  {
    AcceptedComposes(e, api, isCIDR);
  }

  /** Unless both the operator and the tenant want the vault plugin, nothing of its bundle is layered:
      the values are compiled as with the plugin off, and name the pull secrets that are replicated. */
  lemma NoVaultUnlessBoth(spec: Spec, pc: ProviderConfig, access: Access, v: Version, ca: Pem)
    requires pc.vaultPlugin != Some(true) || spec.vaultPlugin != Some(true)
    requires InstallValues(ConfigOf(spec, pc, access), v, ca).Success?
    ensures var off := VaultPlugin(false, pc.openSource, pc.bundle);
            var values := InstallValues(ConfigOf(spec, pc, access), v, ca);
      && values == Values(v.values, ResolveExposure(spec.exposure, pc, access.api), ca, off, v.version)
      && PullNames(values.value) == PullNames(v.values)
  {
    CompiledPullNames(v.values, ResolveExposure(spec.exposure, pc, access.api), ca,
                      VaultPlugin(false, pc.openSource, pc.bundle), v.version);
  }

  // ---------------------------------------------------------------- one CreateOrUpdate pass

  predicate ReadyIn(site: Site, w: World) {
    Ref(site.tenant, ARGOCD) in w.releases && w.releases[Ref(site.tenant, ARGOCD)].ready == Some(true)
  }

  /** The next call from s on is served and meets a ready release, and e is what comes after it. */
  ghost predicate ReadySeen(site: Site, s: Sys, e: Sys) {
    Look(site, s).a == Done && ReadyIn(site, Look(site, s).s.w) && e == Look(site, s).s
  }

  /** The next three calls from s on are served: the first meets a ready release, the second the server
      certificate, the third a LoadBalancer server Service with an address; and e comes after them. */
  ghost predicate AllSeen(site: Site, s: Sys, e: Sys) {
    var one := Look(site, s);
    var two := Look(site, one.s);
    var three := Look(site, two.s);
    && ReadySeen(site, s, one.s)
    && two.a == Done && HasServerCert(site, two.s.w)
    && three.a == Done && Addressed(site, three.s.w.mcp.services) && e == three.s
  }

  lemma ReadyIsSeen(cfg: Config, s: Sys)
    requires cfg.exposure.enabled && ReleaseReady(cfg.site, s).ready
    requires EndpointReady(cfg, ReleaseReady(cfg.site, s).s).ready
    ensures AllSeen(cfg.site, s, EndpointReady(cfg, ReleaseReady(cfg.site, s).s).s)
  {
  }

  /** The three ways the observations at the end of a pass leave status.endpoint. */
  lemma ObserveEndpoint(cfg: Config, obj: ArgoCD, s: Sys)
    requires cfg.exposure.enabled <==> obj.spec.exposure.Some?
    ensures var p := Observe(cfg, obj, s);
      || p.obj.status.endpoint == obj.status.endpoint
      || p.obj.status.endpoint == ""
      || (p.obj.status.endpoint == Url(cfg.exposure) && cfg.exposure.enabled
          && p.obj.status.phase == Available && p.r == Returned(false, false)
          && AllSeen(cfg.site, s, p.s))
  {
    var seen := ReleaseReady(cfg.site, s);
    if seen.ready && cfg.exposure.enabled && EndpointReady(cfg, seen.s).ready {
      ReadyIsSeen(cfg, s);
    }
  }

  lemma EndpointPublished(cfg: Config, obj: ArgoCD, s: Sys)
    requires cfg.exposure.enabled && obj.status.phase != Available
    ensures var p := ReconcileEndpoint(cfg, obj, s);
      && (p.r == Returned(false, false) <==> p.obj.status.phase == Available)
      && (p.obj.status.phase == Available ==>
            EndpointReady(cfg, s).ready && p.s == EndpointReady(cfg, s).s && p.obj.status.endpoint == Url(cfg.exposure))
  {
  }

  /** What the observations have seen when they end Available, which is when they ask for no more. */
  lemma ObserveAvailable(cfg: Config, obj: ArgoCD, s: Sys)
    requires (cfg.exposure.enabled <==> obj.spec.exposure.Some?) && obj.status.phase != Available
    ensures var p := Observe(cfg, obj, s);
      && (p.r == Returned(false, false) ==> p.obj.status.phase == Available)
      && (p.obj.status.phase == Available ==>
            && p.obj.status.endpoint == Url(cfg.exposure) && p.r == Returned(false, false)
            && (if cfg.exposure.enabled then AllSeen(cfg.site, s, p.s) else ReadySeen(cfg.site, s, p.s)))
  {
    var seen := ReleaseReady(cfg.site, s);
    if seen.ready && cfg.exposure.enabled {
      EndpointPublished(cfg, obj, seen.s);
      if EndpointReady(cfg, seen.s).ready {
        ReadyIsSeen(cfg, s);
      }
    }
  }

  /** The pass publishes url: for a host that passed validation and that ComposeHost completes to it,
      after Install succeeded and everything it waits for was observed in this pass. */
  ghost predicate Publishes(obj: ArgoCD, pc: ProviderConfig, access: Access, isCIDR: string -> bool,
                            s: Sys, addon: seq<Tick>, url: string)
  {
    var e := obj.spec.exposure;
    var version := SelectVersion(pc.versions, obj.spec.version);
    && e.Some? && Verdict(e, access.api, isCIDR) == None && version.Some?
    && ComposeHost(e.value.host, access.api).Success?
    && url == "https://" + ComposeHost(e.value.host, access.api).value
    && var installed := Install(ConfigOf(obj.spec, pc, access), version.value, Begin(obj, access, s), addon);
       && installed.a == Done
       && AllSeen(access.site, installed.s, CreateOrUpdate(obj, pc, access, isCIDR, s, addon).s)
  }

  /** The calls left after the operation annotation was dealt with. */
  function Begin(obj: ArgoCD, access: Access, s: Sys): Sys {
    if obj.operation == Some("reconcile") then Look(access.site, s).s else s
  }

  /** Everything the request asks for was done and seen: the version is offered, the exposure valid,
      Install succeeded, and the calls after it, which end at end, saw the release ready and, with
      exposure, the certificate and the address too. */
  ghost predicate Achieved(obj: ArgoCD, pc: ProviderConfig, access: Access, isCIDR: string -> bool,
                           s: Sys, addon: seq<Tick>, end: Sys)
  {
    var version := SelectVersion(pc.versions, obj.spec.version);
    && version.Some? && Verdict(obj.spec.exposure, access.api, isCIDR) == None
    && var installed := Install(ConfigOf(obj.spec, pc, access), version.value, s, addon);
       && installed.a == Done
       && (if obj.spec.exposure.Some? then AllSeen(access.site, installed.s, end)
           else ReadySeen(access.site, installed.s, end))
  }

  /** The request is rejected, and failed says why: the version is not offered, or the exposure is not
      valid. Nothing but phase and reason is touched. */
  predicate RejectedAs(obj: ArgoCD, pc: ProviderConfig, access: Access, isCIDR: string -> bool, failed: ArgoCD) {
    var offered := SelectVersion(pc.versions, obj.spec.version).Some?;
    && (offered ==> Verdict(obj.spec.exposure, access.api, isCIDR).Some?)
    && failed.spec == obj.spec
    && failed.status == Status(Failing, if offered then "InvalidExposure" else "InvalidVersion", obj.status.endpoint)
  }

  lemma ConvergeEndpoint(
      obj: ArgoCD, pc: ProviderConfig, access: Access, isCIDR: string -> bool, s: Sys, addon: seq<Tick>)
    ensures var p := Converge(obj, pc, access, isCIDR, s, addon);
            var version := SelectVersion(pc.versions, obj.spec.version);
            var cfg := ConfigOf(obj.spec, pc, access);
      && (|| p.obj.status.endpoint == obj.status.endpoint
          || p.obj.status.endpoint == ""
          || (obj.spec.exposure.Some? && p.obj.status.endpoint == Url(cfg.exposure)
              && Verdict(obj.spec.exposure, access.api, isCIDR) == None && version.Some?
              && Install(cfg, version.value, s, addon).a == Done
              && AllSeen(access.site, Install(cfg, version.value, s, addon).s, p.s)))
      && (p.obj.status.phase == Available ==>
            && p.obj.status.endpoint == Url(cfg.exposure) && p.r == Returned(false, false)
            && Achieved(obj, pc, access, isCIDR, s, addon, p.s))
      && (p.r == Returned(false, false) ==>
            || p.obj.status.phase == Available
            || (p.s == s && RejectedAs(obj, pc, access, isCIDR, p.obj)))
  {
    var version := SelectVersion(pc.versions, obj.spec.version);
    if version.Some? && Verdict(obj.spec.exposure, access.api, isCIDR).None? && access.tenantKnown {
      var cfg := ConfigOf(obj.spec, pc, access);
      var installed := Install(cfg, version.value, s, addon);
      if installed.a == Done {
        ObserveEndpoint(cfg, Set(obj, Progressing, "Reconciling"), installed.s);
        ObserveAvailable(cfg, Set(obj, Progressing, "Reconciling"), installed.s);
      }
    }
  }

  /** Published endpoint, one pass: status.endpoint is left alone, cleared, or published as above. */
  lemma EndpointOfPass(
      obj: ArgoCD, pc: ProviderConfig, access: Access, isCIDR: string -> bool, s: Sys, addon: seq<Tick>)
    ensures var p := CreateOrUpdate(obj, pc, access, isCIDR, s, addon);
      || p.obj.status.endpoint == obj.status.endpoint
      || p.obj.status.endpoint == ""
      || Publishes(obj, pc, access, isCIDR, s, addon, p.obj.status.endpoint)
  {
    if obj.operation == Some("ignore") {
    } else if obj.operation == Some("reconcile") {
      var removed := Look(access.site, s);
      if removed.a == Done {
        ConvergeEndpoint(obj.(operation := None), pc, access, isCIDR, removed.s, addon);
        ConfigIgnoresOperation(obj, pc, access, isCIDR);
      }
    } else {
      ConvergeEndpoint(obj, pc, access, isCIDR, s, addon);
      ConfigIgnoresOperation(obj, pc, access, isCIDR);
    }
  }

  lemma ConfigIgnoresOperation(obj: ArgoCD, pc: ProviderConfig, access: Access, isCIDR: string -> bool)
    ensures obj.spec.exposure.Some? && Verdict(obj.spec.exposure, access.api, isCIDR) == None ==>
      && ComposeHost(obj.spec.exposure.value.host, access.api).Success?
      && Url(ConfigOf(obj.spec, pc, access).exposure)
         == "https://" + ComposeHost(obj.spec.exposure.value.host, access.api).value
  {
    if obj.spec.exposure.Some? && Verdict(obj.spec.exposure, access.api, isCIDR) == None {
      ResolvesWhatWasValidated(obj.spec.exposure.value, pc, access.api, isCIDR);
    }
  }

  /** A pass that ends Available, unless it ignored the object, has set the endpoint to exactly what
      the current request asks for: empty without exposure, else the completed and validated host. */
  lemma AvailableMeansCurrent(
      obj: ArgoCD, pc: ProviderConfig, access: Access, isCIDR: string -> bool, s: Sys, addon: seq<Tick>)
    requires CreateOrUpdate(obj, pc, access, isCIDR, s, addon).obj.status.phase == Available
    requires obj.operation != Some("ignore")
    requires CreateOrUpdate(obj, pc, access, isCIDR, s, addon).r == Returned(false, false)
    ensures var url := CreateOrUpdate(obj, pc, access, isCIDR, s, addon).obj.status.endpoint;
      if obj.spec.exposure.None? then url == "" else Publishes(obj, pc, access, isCIDR, s, addon, url)
    ensures var end := CreateOrUpdate(obj, pc, access, isCIDR, s, addon).s;
      Achieved(obj, pc, access, isCIDR, Begin(obj, access, s), addon, end)
  {
    if obj.operation == Some("reconcile") {
      ConvergeEndpoint(obj.(operation := None), pc, access, isCIDR, Begin(obj, access, s), addon);
    } else {
      ConvergeEndpoint(obj, pc, access, isCIDR, s, addon);
    }
    ConfigIgnoresOperation(obj, pc, access, isCIDR);
  }

  // ---------------------------------------------------------------- no lost work

  /** A CreateOrUpdate pass that asks for nothing more (no error, no requeue) was ignored by
      annotation, ended Available with everything done and seen, or rejected the request for good
      reason and without a write to any store. */
  lemma NoLostWork(obj: ArgoCD, pc: ProviderConfig, access: Access, isCIDR: string -> bool, s: Sys, addon: seq<Tick>)
    requires CreateOrUpdate(obj, pc, access, isCIDR, s, addon).r == Returned(false, false)
    ensures var p := CreateOrUpdate(obj, pc, access, isCIDR, s, addon);
            var start := Begin(obj, access, s);
      || (obj.operation == Some("ignore") && p.obj == obj && p.s == s)
      || (p.obj.status.phase == Available && Achieved(obj, pc, access, isCIDR, start, addon, p.s))
      || (RejectedAs(obj, pc, access, isCIDR, p.obj) && p.s == start && OnlyRead(access.site, s, start))
  {
    BeginOnlyReads(obj, access, s);
    ConvergeEndpoint(obj.(operation := None), pc, access, isCIDR, Begin(obj, access, s), addon);
    ConvergeEndpoint(obj, pc, access, isCIDR, s, addon);
  }

  lemma BeginOnlyReads(obj: ArgoCD, access: Access, s: Sys)
    ensures OnlyRead(access.site, s, Begin(obj, access, s))
    ensures Still(s.ticks) ==> Begin(obj, access, s).w == s.w
  {
    assert AfterReads(access.site, s, 1) == AfterReads(access.site, Look(access.site, s).s, 0);
    assert AfterReads(access.site, s, 0) == s;
  }

  /** The next call from s on is served and meets a release that is not ready. */
  ghost predicate UnreadySeen(site: Site, s: Sys, e: Sys) {
    var r := Ref(site.tenant, ARGOCD);
    && Look(site, s).a == Done && e == Look(site, s).s
    && r in e.w.releases && e.w.releases[r].ready != Some(true)
  }

  /** The next calls from s on are served: the first meets a ready release, and then either the second
      meets no server certificate, or it does and the third meets no address. */
  ghost predicate UnreachableSeen(site: Site, s: Sys, e: Sys) {
    var one := Look(site, s);
    var two := Look(site, one.s);
    var three := Look(site, two.s);
    && ReadySeen(site, s, one.s) && two.a == Done
    && if HasServerCert(site, two.s.w) then three.a == Done && !Addressed(site, three.s.w.mcp.services) && e == three.s
       else e == two.s
  }

  /** A CreateOrUpdate pass asks to come back for one of two reasons, each seen after a successful
      Install: the release is not ready, and the endpoint is left alone, or the server cannot be
      reached yet, and the endpoint is cleared. */
  lemma ComesBackForReason(
      obj: ArgoCD, pc: ProviderConfig, access: Access, isCIDR: string -> bool, s: Sys, addon: seq<Tick>)
    requires CreateOrUpdate(obj, pc, access, isCIDR, s, addon).r == Returned(true, false)
    ensures var p := CreateOrUpdate(obj, pc, access, isCIDR, s, addon);
            var version := SelectVersion(pc.versions, obj.spec.version);
      && version.Some?
      && var installed := Install(ConfigOf(obj.spec, pc, access), version.value, Begin(obj, access, s), addon);
         && installed.a == Done
         && (|| (UnreadySeen(access.site, installed.s, p.s)
                 && p.obj.status == Status(Progressing, "Reconciling", obj.status.endpoint))
             || (obj.spec.exposure.Some? && UnreachableSeen(access.site, installed.s, p.s)
                 && p.obj.status == Status(Progressing, "EndpointPending", "")))
  {
    var o := if obj.operation == Some("reconcile") then obj.(operation := None) else obj;
    var version := SelectVersion(pc.versions, obj.spec.version);
    if version.Some? && Verdict(obj.spec.exposure, access.api, isCIDR).None? && access.tenantKnown {
      var cfg := ConfigOf(obj.spec, pc, access);
      var installed := Install(cfg, version.value, Begin(obj, access, s), addon);
      if installed.a == Done {
        ObservedReason(cfg, Set(o, Progressing, "Reconciling"), installed.s);
      }
    }
  }

  lemma ObservedReason(cfg: Config, obj: ArgoCD, s: Sys)
    requires cfg.exposure.enabled <==> obj.spec.exposure.Some?
    ensures var p := Observe(cfg, obj, s);
      p.r == Returned(true, false) ==>
        || (UnreadySeen(cfg.site, s, p.s) && p.obj.status == Status(Progressing, "Reconciling", obj.status.endpoint))
        || (cfg.exposure.enabled && UnreachableSeen(cfg.site, s, p.s)
            && p.obj.status == Status(Progressing, "EndpointPending", ""))
  {
  }

  /** A Delete pass that asks for nothing more has torn everything down. */
  lemma NoLostDeletion(obj: ArgoCD, pc: ProviderConfig, access: Access, s: Sys)
    requires DeletePass(obj, pc, access, s).r == Returned(false, false)
    ensures var end := DeletePass(obj, pc, access, s).s.w;
      && TeardownLaws.FluxGone(access.site, end)
      && TeardownLaws.NoReplica(access.site, end, ImagePull) && TeardownLaws.NoReplica(access.site, end, ChartPull)
      && TeardownLaws.CaGone(ConfigOf(obj.spec, pc, access), end)
  {
    SilentIsComplete(obj, pc, access, s);
    TeardownLaws.CompleteMeansGone(ConfigOf(obj.spec, pc, access), s);
  }

  lemma SilentIsComplete(obj: ArgoCD, pc: ProviderConfig, access: Access, s: Sys)
    requires DeletePass(obj, pc, access, s).r == Returned(false, false)
    ensures var p := Teardown.Delete(ConfigOf(obj.spec, pc, access), s);
      p.end == Teardown.Complete && DeletePass(obj, pc, access, s).s == p.s
  {
    FinishIsSilent(Set(obj, Terminating, "Terminating"), Teardown.Delete(ConfigOf(obj.spec, pc, access), s));
  }

  lemma FinishIsSilent(started: ArgoCD, p: Teardown.Pass)
    ensures Finish(started, p).s == p.s
    ensures Finish(started, p).r == Returned(false, false) ==> p.end == Teardown.Complete
  {
  }

  // ---------------------------------------------------------------- the endpoint over whole runs

  /** One pass of a run: what the object asks for at that time, the configuration, the calls. */
  datatype Turn = Turn(deleting: bool, spec: Spec, operation: Option<string>, pc: ProviderConfig,
                       access: Access, ticks: seq<Tick>, addon: seq<Tick>)

  /** What persists from one pass to the next. */
  datatype State = State(status: Status, w: World)

  function ObjectOf(t: Turn, st: State): ArgoCD {
    ArgoCD(t.spec, t.operation, st.status)
  }

  function Take(t: Turn, st: State, isCIDR: string -> bool): State {
    var p := if t.deleting then DeletePass(ObjectOf(t, st), t.pc, t.access, Sys(st.w, t.ticks))
             else CreateOrUpdate(ObjectOf(t, st), t.pc, t.access, isCIDR, Sys(st.w, t.ticks), t.addon);
    State(p.obj.status, p.s.w)
  }

  function Run(turns: seq<Turn>, st: State, isCIDR: string -> bool): State
    decreases |turns|
  {
    if turns == [] then st else Take(turns[|turns| - 1], Run(turns[..|turns| - 1], st, isCIDR), isCIDR)
  }

  /** The pass t, taken in state st, publishes url. */
  ghost predicate PublishesNow(t: Turn, st: State, isCIDR: string -> bool, url: string) {
    && !t.deleting
    && Publishes(ObjectOf(t, st), t.pc, t.access, isCIDR, Sys(st.w, t.ticks), t.addon, url)
  }

  /** One of the passes of the run published url. */
  ghost predicate Earned(turns: seq<Turn>, st: State, isCIDR: string -> bool, url: string)
    decreases |turns|
  {
    turns != [] &&
    (var init, last := turns[..|turns| - 1], turns[|turns| - 1];
     PublishesNow(last, Run(init, st, isCIDR), isCIDR, url) || Earned(init, st, isCIDR, url))
  }

  /** Published endpoint invariant: in every state any run of passes can reach from an object without
      endpoint, status.endpoint is empty or was published by one of the passes of that run. */
  lemma {:induction false} EndpointAlwaysEarned(turns: seq<Turn>, st: State, isCIDR: string -> bool)
    requires st.status.endpoint == ""
    ensures var url := Run(turns, st, isCIDR).status.endpoint;
      url == "" || Earned(turns, st, isCIDR, url)
    decreases |turns|
  {
    if turns == [] {
    } else {
      var init, last := turns[..|turns| - 1], turns[|turns| - 1];
      EndpointAlwaysEarned(init, st, isCIDR);
      EndpointOfTurn(last, Run(init, st, isCIDR), isCIDR);
    }
  }

  lemma EndpointOfTurn(t: Turn, st: State, isCIDR: string -> bool)
    ensures var url := Take(t, st, isCIDR).status.endpoint;
      || url == st.status.endpoint
      || url == ""
      || PublishesNow(t, st, isCIDR, url)
  {
    if t.deleting {
      DeleteKeepsEndpoint(ObjectOf(t, st), t.pc, t.access, Sys(st.w, t.ticks));
    } else {
      EndpointOfPass(ObjectOf(t, st), t.pc, t.access, isCIDR, Sys(st.w, t.ticks), t.addon);
    }
  }

  lemma DeleteKeepsEndpoint(obj: ArgoCD, pc: ProviderConfig, access: Access, s: Sys)
    ensures DeletePass(obj, pc, access, s).obj.status.endpoint == obj.status.endpoint
  {
    if access.tenantKnown {
      FinishKeepsEndpoint(Set(obj, Terminating, "Terminating"), Teardown.Delete(ConfigOf(obj.spec, pc, access), s));
    }
  }

  lemma FinishKeepsEndpoint(started: ArgoCD, p: Teardown.Pass)
    ensures Finish(started, p).obj.status.endpoint == started.status.endpoint
  {
  }

  // ---------------------------------------------------------------- the best-effort addon

  /** Others act alike in two runs: call by call the replies are the same, and the stores they leave
      differ in Reloader's objects at most. */
  ghost predicate Alike(site: Site, a: Sys, b: Sys)
    decreases |a.ticks|
  {
    && |a.ticks| == |b.ticks|
    && (a.ticks != [] ==>
          && a.ticks[0].reply == b.ticks[0].reply
          && SameButReloader(site, Look(site, a).s.w, Look(site, b).s.w)
          && Alike(site, Look(site, a).s, Look(site, b).s))
  }

  lemma LookAlike(site: Site, a: Sys, b: Sys)
    requires Alike(site, a, b) && SameButReloader(site, a.w, b.w)
    ensures Look(site, a).a == Look(site, b).a && Alike(site, Look(site, a).s, Look(site, b).s)
    ensures SameButReloader(site, Look(site, a).s.w, Look(site, b).s.w)
  {
  }

  /** Where nobody acts after Install, the same calls are alike. */
  lemma {:induction false} StillIsAlike(site: Site, a: Sys, b: Sys)
    requires a.ticks == b.ticks && Still(a.ticks) && SameButReloader(site, a.w, b.w)
    ensures Alike(site, a, b)
    decreases |a.ticks|
  {
    if a.ticks == [] {
    } else {
      StillIsAlike(site, Look(site, a).s, Look(site, b).s);
    }
  }

  lemma ReadyIgnoresReloader(site: Site, a: Sys, b: Sys)
    requires Alike(site, a, b) && SameButReloader(site, a.w, b.w)
    ensures var p, q := ReleaseReady(site, a), ReleaseReady(site, b);
      p.a == q.a && p.ready == q.ready && Alike(site, p.s, q.s) && SameButReloader(site, p.s.w, q.s.w)
  {
    LookAlike(site, a, b);
    SameArgoRelease(site, Look(site, a).s.w, Look(site, b).s.w);
  }

  /** The observations do not look at Reloader's objects. */
  lemma ObserveIgnoresReloader(cfg: Config, obj: ArgoCD, a: Sys, b: Sys)
    requires Alike(cfg.site, a, b) && SameButReloader(cfg.site, a.w, b.w)
    ensures var p, q := Observe(cfg, obj, a), Observe(cfg, obj, b);
      p.obj == q.obj && p.r == q.r && SameButReloader(cfg.site, p.s.w, q.s.w)
  {
    ReadyIgnoresReloader(cfg.site, a, b);
    EndpointIgnoresReloader(cfg, ReleaseReady(cfg.site, a).s, ReleaseReady(cfg.site, b).s);
  }

  lemma SameArgoRelease(site: Site, a: World, b: World)
    requires SameButReloader(site, a, b)
    ensures var r := Ref(site.tenant, ARGOCD);
      (r in a.releases <==> r in b.releases) && (r in a.releases ==> a.releases[r] == b.releases[r])
  {
    var r := Ref(site.tenant, ARGOCD);
    var aside := {Ref(site.tenant, RELOADER)};
    assert r in a.releases <==> r in a.releases - aside;
    assert r in b.releases <==> r in b.releases - aside;
    assert r in a.releases ==> a.releases[r] == (a.releases - aside)[r];
    assert r in b.releases ==> b.releases[r] == (b.releases - aside)[r];
  }

  lemma EndpointIgnoresReloader(cfg: Config, a: Sys, b: Sys)
    requires Alike(cfg.site, a, b) && SameButReloader(cfg.site, a.w, b.w)
    ensures var p, q := EndpointReady(cfg, a), EndpointReady(cfg, b);
      p.a == q.a && p.ready == q.ready && SameButReloader(cfg.site, p.s.w, q.s.w)
  {
    if cfg.exposure.enabled {
      LookAlike(cfg.site, a, b);
      LookAlike(cfg.site, Look(cfg.site, a).s, Look(cfg.site, b).s);
    }
  }

  /** In two passes others act alike: around the Reloader calls, and during the reads after Install. */
  ghost predicate OthersAlike(obj: ArgoCD, pc: ProviderConfig, access: Access,
                              s: Sys, addon1: seq<Tick>, addon2: seq<Tick>)
  {
    var version := SelectVersion(pc.versions, obj.spec.version);
    version.Some? ==>
      var cfg := ConfigOf(obj.spec, pc, access);
      && AlikeAside(cfg, InstallProper(cfg, version.value, s).s.w, addon1, addon2)
      && Alike(access.site, Install(cfg, version.value, s, addon1).s, Install(cfg, version.value, s, addon2).s)
  }

  /** Reloader never shows in a pass: two passes that differ only in what the Reloader calls meet give
      the same status, endpoint and return, and agree on every other object. Others may act at any
      time, if only they act alike in both from the Reloader calls on. */
  lemma ReloaderNeverShows(obj: ArgoCD, pc: ProviderConfig, access: Access, isCIDR: string -> bool,
                           s: Sys, addon1: seq<Tick>, addon2: seq<Tick>)
    requires |addon1| >= 2 && |addon2| >= 2
    requires OthersAlike(obj, pc, access, Begin(obj, access, s), addon1, addon2)
    ensures var p := CreateOrUpdate(obj, pc, access, isCIDR, s, addon1);
            var q := CreateOrUpdate(obj, pc, access, isCIDR, s, addon2);
      p.obj == q.obj && p.r == q.r && SameButReloader(access.site, p.s.w, q.s.w)
  {
    if GoesAhead(obj, access, s) {
      PassConverges(obj, pc, access, isCIDR, s, addon1);
      PassConverges(obj, pc, access, isCIDR, s, addon2);
      ConvergeIgnoresReloader(Unmarked(obj), pc, access, isCIDR, Begin(obj, access, s), addon1, addon2);
    }
  }

  /** The pass is neither skipped nor stopped while removing the annotation. */
  predicate GoesAhead(obj: ArgoCD, access: Access, s: Sys) {
    && obj.operation != Some("ignore")
    && (obj.operation == Some("reconcile") ==> Look(access.site, s).a == Done)
  }

  /** The object without the reconcile annotation. */
  function Unmarked(obj: ArgoCD): ArgoCD {
    if obj.operation == Some("reconcile") then obj.(operation := None) else obj
  }

  lemma PassConverges(
      obj: ArgoCD, pc: ProviderConfig, access: Access, isCIDR: string -> bool, s: Sys, addon: seq<Tick>)
    requires GoesAhead(obj, access, s)
    ensures CreateOrUpdate(obj, pc, access, isCIDR, s, addon)
         == Converge(Unmarked(obj), pc, access, isCIDR, Begin(obj, access, s), addon)
  {
  }

  lemma ConvergeIgnoresReloader(obj: ArgoCD, pc: ProviderConfig, access: Access, isCIDR: string -> bool,
                                s: Sys, addon1: seq<Tick>, addon2: seq<Tick>)
    requires |addon1| >= 2 && |addon2| >= 2
    requires OthersAlike(obj, pc, access, s, addon1, addon2)
    ensures var p := Converge(obj, pc, access, isCIDR, s, addon1);
            var q := Converge(obj, pc, access, isCIDR, s, addon2);
      p.obj == q.obj && p.r == q.r && SameButReloader(access.site, p.s.w, q.s.w)
  {
    var version := SelectVersion(pc.versions, obj.spec.version);
    if version.Some? && Verdict(obj.spec.exposure, access.api, isCIDR).None? && access.tenantKnown {
      var cfg := ConfigOf(obj.spec, pc, access);
      ReloaderNeverInterferes(cfg, version.value, s, addon1, addon2);
      var one, two := Install(cfg, version.value, s, addon1), Install(cfg, version.value, s, addon2);
      if one.a == Done {
        ObserveIgnoresReloader(cfg, Set(obj, Progressing, "Reconciling"), one.s, two.s);
      }
    }
  }

  /** In particular when nobody else acts from the Reloader calls on. */
  lemma ReloaderNeverShowsAlone(obj: ArgoCD, pc: ProviderConfig, access: Access, isCIDR: string -> bool,
                                s: Sys, addon1: seq<Tick>, addon2: seq<Tick>)
    requires Still(addon1) && |addon1| >= 2 && Still(addon2) && |addon2| >= 2
    requires var version := SelectVersion(pc.versions, obj.spec.version);
      version.Some? ==>
        Still(Install(ConfigOf(obj.spec, pc, access), version.value, Begin(obj, access, s), addon1).s.ticks)
    ensures var p := CreateOrUpdate(obj, pc, access, isCIDR, s, addon1);
            var q := CreateOrUpdate(obj, pc, access, isCIDR, s, addon2);
      p.obj == q.obj && p.r == q.r && SameButReloader(access.site, p.s.w, q.s.w)
  {
    var version := SelectVersion(pc.versions, obj.spec.version);
    if version.Some? {
      AloneAreAlike(ConfigOf(obj.spec, pc, access), version.value, Begin(obj, access, s), addon1, addon2);
    }
    ReloaderNeverShows(obj, pc, access, isCIDR, s, addon1, addon2);
  }

  lemma AloneAreAlike(cfg: Config, v: Version, s: Sys, addon1: seq<Tick>, addon2: seq<Tick>)
    requires Still(addon1) && Still(addon2) && Still(Install(cfg, v, s, addon1).s.ticks)
    ensures AlikeAside(cfg, InstallProper(cfg, v, s).s.w, addon1, addon2)
    ensures Alike(cfg.site, Install(cfg, v, s, addon1).s, Install(cfg, v, s, addon2).s)
  {
    StillIsAlikeAside(cfg, InstallProper(cfg, v, s).s.w, addon1, addon2);
    ReloaderNeverInterferes(cfg, v, s, addon1, addon2);
    StillIsAlike(cfg.site, Install(cfg, v, s, addon1).s, Install(cfg, v, s, addon2).s);
  }

  // ---------------------------------------------------------------- secret watch

  /** The version, or Reloader, names the secret. */
  predicate NamedBy(v: Version, pc: ProviderConfig, name: string) {
    VersionReferences(v, name) || (pc.reloader.Some? && pc.reloader.value.chartPullSecret == name)
  }

  lemma NamedByMeans(v: Version, pc: ProviderConfig, name: string)
    requires name != ""
    ensures NamedBy(v, pc, name)
       <==> (PullNames(v.values).Success? && name in PullNames(v.values).value)
            || name in ChartNames(v, EffectiveReloader(pc))
  {
  }

  /** What one successful Install of a version replicates as pull secrets is exactly what the version
      and Reloader name. */
  lemma ReplicatesWhatIsNamed(pc: ProviderConfig, cfg: Config, v: Version, s: Sys, addon: seq<Tick>, name: string)
    requires name != "" && cfg.reloader == EffectiveReloader(pc)
    requires Apart(cfg, v, s.w) && Install(cfg, v, s, addon).a == Done
    ensures var end := Install(cfg, v, s, addon).s.w;
      Has(cfg.site, end, ImagePull, name) || Has(cfg.site, end, ChartPull, name) <==> NamedBy(v, pc, name)
  {
    NamedByMeans(v, pc, name);
    PullSecretsExact(cfg, v, s, addon);
  }

  /** A run of Install for a configured version, by its place in the list. */
  datatype Installation = Installation(s: Sys, addon: seq<Tick>)

  /** A successful run of Install for that version leaves a replica of the name behind. */
  ghost predicate ReplicatedBy(cfg: Config, v: Version, r: Installation, name: string) {
    var end := Install(cfg, v, r.s, r.addon).s.w;
    Has(cfg.site, end, ImagePull, name) || Has(cfg.site, end, ChartPull, name)
  }

  /** One successful run of Install for every configured version. */
  ghost predicate AllInstalled(pc: ProviderConfig, cfg: Config, runs: seq<Installation>) {
    && |runs| == |pc.versions|
    && forall i | 0 <= i < |runs| ::
         Apart(cfg, pc.versions[i], runs[i].s.w) && Install(cfg, pc.versions[i], runs[i].s, runs[i].addon).a == Done
  }

  /** The watch is exact: of the secrets of the provider's namespace it covers exactly those that
      successful runs of Install, one for each configured version, replicate as pull secrets. */
  lemma WatchIsExact(pc: ProviderConfig, spec: Spec, access: Access, runs: seq<Installation>, name: string)
    requires name != "" && pc.versions != [] && AllInstalled(pc, ConfigOf(spec, pc, access), runs)
    ensures References(pc, name)
       <==> exists i | 0 <= i < |runs| :: ReplicatedBy(ConfigOf(spec, pc, access), pc.versions[i], runs[i], name)
  {
    var cfg := ConfigOf(spec, pc, access);
    forall i | 0 <= i < |runs|
      ensures ReplicatedBy(cfg, pc.versions[i], runs[i], name) <==> NamedBy(pc.versions[i], pc, name)
    {
      ReplicatesWhatIsNamed(pc, cfg, pc.versions[i], runs[i].s, runs[i].addon, name);
    }
    if References(pc, name) {
      if i :| 0 <= i < |pc.versions| && VersionReferences(pc.versions[i], name) {
        assert ReplicatedBy(cfg, pc.versions[i], runs[i], name);
      } else {
        assert ReplicatedBy(cfg, pc.versions[0], runs[0], name);
      }
    }
    if i :| 0 <= i < |runs| && ReplicatedBy(cfg, pc.versions[i], runs[i], name) {
      assert NamedBy(pc.versions[i], pc, name);
    }
  }

  /** A version whose values do not decode is never installed, and only its chart pull secret is
      watched. */
  lemma UndecodableNeverInstalls(cfg: Config, v: Version, s: Sys, addon: seq<Tick>, name: string)
    requires PullNames(v.values).Failure?
    ensures Install(cfg, v, s, addon) == Out(s, Failed)
    ensures VersionReferences(v, name) <==> v.chartPullSecret == name
  {
  }

  /** Some successful Install of a configured version replicates the name. */
  ghost predicate EverReplicated(pc: ProviderConfig, cfg: Config, name: string) {
    exists i, r: Installation | 0 <= i < |pc.versions| ::
      && Apart(cfg, pc.versions[i], r.s.w) && Install(cfg, pc.versions[i], r.s, r.addon).a == Done
      && ReplicatedBy(cfg, pc.versions[i], r, name)
  }

  /** A watched name is ever replicated exactly when an installable version, or Reloader next to one,
      names it; otherwise it is watched in vain. */
  lemma EverReplicatedIff(pc: ProviderConfig, cfg: Config, name: string)
    requires name != "" && cfg.site.pod != cfg.site.tenant && cfg.reloader == EffectiveReloader(pc)
    ensures EverReplicated(pc, cfg, name)
       <==> exists i | 0 <= i < |pc.versions| ::
              NamedBy(pc.versions[i], pc, name) && Progress.Installable(cfg, pc.versions[i])
    ensures EverReplicated(pc, cfg, name) ==> References(pc, name)
  {
    forall i, r: Installation | 0 <= i < |pc.versions| && Apart(cfg, pc.versions[i], r.s.w)
                                && Install(cfg, pc.versions[i], r.s, r.addon).a == Done
      ensures Progress.Installable(cfg, pc.versions[i])
      ensures ReplicatedBy(cfg, pc.versions[i], r, name) <==> NamedBy(pc.versions[i], pc, name)
    {
      Progress.InstalledIsInstallable(cfg, pc.versions[i], r.s, r.addon);
      ReplicatesWhatIsNamed(pc, cfg, pc.versions[i], r.s, r.addon, name);
    }
    if i :| 0 <= i < |pc.versions| && NamedBy(pc.versions[i], pc, name) && Progress.Installable(cfg, pc.versions[i]) {
      var s, addon := Progress.InstallableInstalls(cfg, pc.versions[i]);
      assert ReplicatedBy(cfg, pc.versions[i], Installation(s, addon), name);
    }
  }

  /** A name watched in vain: the chart pull secret of a version whose values are a number. */
  lemma WatchedInVain(bundle: BundleLists, cfg: Config)
    ensures var v := Version("1", "1", Some("oci://charts"), "chart", Some(Num("1")));
            var pc := ProviderConfig([v], 60, None, None, "", None, false, bundle);
      References(pc, "chart") && !EverReplicated(pc, cfg, "chart")
  {
    var v := Version("1", "1", Some("oci://charts"), "chart", Some(Num("1")));
    var pc := ProviderConfig([v], 60, None, None, "", None, false, bundle);
    assert VersionReferences(pc.versions[0], "chart");
    forall s, addon ensures Install(cfg, v, s, addon).a == Failed {
      UndecodableNeverInstalls(cfg, v, s, addon, "chart");
    }
  }

  /** Without versions no pass writes anything. */
  lemma NoVersionsNoInstall(
      obj: ArgoCD, pc: ProviderConfig, access: Access, isCIDR: string -> bool, s: Sys, addon: seq<Tick>)
    requires pc.versions == []
    ensures OnlyRead(access.site, s, CreateOrUpdate(obj, pc, access, isCIDR, s, addon).s)
    ensures Still(s.ticks) ==> CreateOrUpdate(obj, pc, access, isCIDR, s, addon).s.w == s.w
  {
    BeginOnlyReads(obj, access, s);
    assert forall o: ArgoCD, t: Sys :: Converge(o, pc, access, isCIDR, t, addon).s == t;
  }

  /** And only Reloader's pull secret is watched. */
  lemma NoVersionsWatch(pc: ProviderConfig, name: string)
    requires pc.versions == []
    ensures References(pc, name) <==> pc.reloader.Some? && pc.reloader.value.chartPullSecret == name
  {
  }

  /** The CA bundle does not take part in the watch. */
  lemma CaBundleUnwatched(pc: ProviderConfig, caBundle: string, name: string)
    ensures References(pc, name) <==> References(pc.(caBundle := caBundle), name)
  {
  }

  /** A configured CA bundle whose secret is not watched. */
  lemma CaBundleMissed(bundle: BundleLists)
    ensures var v := Version("1", "1", Some("oci://charts"), "chart", None);
      !References(ProviderConfig([v], 60, None, None, "ca", None, false, bundle), "ca")
  {
  }
}
