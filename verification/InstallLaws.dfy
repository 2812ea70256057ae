/** What every run of Install keeps, whatever fails and wherever it is cut off, and what a
    successful one leaves behind. */
module InstallLaws {
  import opened Wrappers
  import opened JsonTrees
  import opened Certs
  import opened HelmValues
  import opened ValuesLaws
  import opened Cluster
  import opened Provision
  import opened Replication

  /** CA bundle names, past and present, and chart pull secret names never coincide. */
  ghost predicate Apart(cfg: Config, v: Version, w: World) {
    var charts := ChartNames(v, cfg.reloader);
    && cfg.caBundle !in charts
    && (forall n | n in charts :: !Has(cfg.site, w, CaBundle, n))
    && (cfg.caBundle != "" ==> !Has(cfg.site, w, ChartPull, cfg.caBundle))
    && (forall n :: !(Has(cfg.site, w, ChartPull, n) && Has(cfg.site, w, CaBundle, n)))
  }

  /** The secrets a repository refers to are replicas that exist in the tenant namespace. */
  predicate Backed(site: Site, w: World, spec: RepoSpec) {
    && (spec.secretRef.Some? ==> Has(site, w, ChartPull, spec.secretRef.value))
    && (spec.certSecretRef.Some? ==> Has(site, w, CaBundle, spec.certSecretRef.value))
  }

  /** A reference to the secret of this name, none for the empty name. */
  predicate RefersTo(reference: Option<string>, name: string) {
    if name == "" then reference == None else reference == Some(name)
  }

  /** The certificate text in the tenant's copy of the CA bundle. */
  function CaIn(cfg: Config, w: World): Pem {
    var r := Place(cfg.site, CaBundle, cfg.caBundle);
    if cfg.caBundle != "" && r in w.secrets then CaText(w.secrets[r].data) else NO_CA
  }

  function ImageNames(v: Version): seq<string> {
    if PullNames(v.values).Success? then PullNames(v.values).value else []
  }

  /** The writes of the second half of Install. */
  predicate FluxOp(cfg: Config, v: Version, op: Op) {
    match op
    case PutRepo(n, owner, spec) =>
      || (n == ARGOCD && owner == BY_ARGOCD && v.chartURL.Some? && spec == ArgoRepo(cfg, v))
      || (n == RELOADER && owner == BY_RELOADER && cfg.reloader.Some? && spec == ReloaderRepo(cfg))
    case PutRelease(n, owner, spec) =>
      || (n == ARGOCD && owner == BY_ARGOCD && spec == ArgoRelease(cfg, spec.values))
      || (n == RELOADER && owner == BY_RELOADER && cfg.reloader.Some? && spec == ReloaderRelease(cfg))
    case DeleteRepo(n) => n == RELOADER && cfg.reloader.None?
    case DeleteRelease(n) => n == RELOADER && cfg.reloader.None?
    case _ => false
  }

  /** The writes Install may issue, and in which state of the stores. */
  ghost predicate InstallOp(cfg: Config, v: Version, w: World, op: Op) {
    match op
    case CreateNamespace => true
    case PutSecret(st, n, _, _) =>
      (match st
       case ImagePull => n in ImageNames(v)
       case ChartPull => n in ChartNames(v, cfg.reloader)
       case CaBundle => n == cfg.caBundle != "")
    case DeleteSecret(st, n) =>
      && Has(cfg.site, w, st, n)
      && (match st
          case ImagePull => n !in ImageNames(v)
          case ChartPull => n !in ChartNames(v, cfg.reloader)
          case CaBundle => cfg.caBundle == "")
    case _ =>
      FluxOp(cfg, v, op) && (op.PutRepo? ==> Backed(cfg.site, w, op.repoSpec))
  }

  ghost predicate InstallKeeps(cfg: Config, v: Version, inv: World -> bool) {
    forall w, op :: inv(w) && Apart(cfg, v, w) && InstallOp(cfg, v, w, op) ==> inv(Apply(cfg.site, w, op))
  }

  lemma ApartKept(cfg: Config, v: Version)
    ensures RelyClosed(cfg.site, (w: World) => Apart(cfg, v, w))
    ensures InstallKeeps(cfg, v, (w: World) => Apart(cfg, v, w))
  {
    forall a, b | Apart(cfg, v, a) && Rely(cfg.site, a, b) ensures Apart(cfg, v, b) {
      forall n, st ensures Has(cfg.site, a, st, n) <==> Has(cfg.site, b, st, n) {
        RelyHas(cfg.site, a, b, st, n);
      }
    }
    forall w, op | Apart(cfg, v, w) && InstallOp(cfg, v, w, op) ensures Apart(cfg, v, Apply(cfg.site, w, op)) {
      ApartStep(cfg, v, w, op);
    }
  }

  lemma ApartStep(cfg: Config, v: Version, w: World, op: Op)
    requires Apart(cfg, v, w) && InstallOp(cfg, v, w, op)
    ensures Apart(cfg, v, Apply(cfg.site, w, op))
  {
    var x := Apply(cfg.site, w, op);
    forall n, st: Stamp | !st.ImagePull? && Has(cfg.site, x, st, n)
      ensures Has(cfg.site, w, st, n) || (op.PutSecret? && op.st == st && op.name == n)
    {
      NewReplica(cfg.site, w, op, st, n);
    }
  }

  /** In the tenant namespace a replica of a kind only appears by putting one of that kind. */
  lemma NewReplica(site: Site, w: World, op: Op, st: Stamp, n: string)
    requires !st.ImagePull? && Has(site, Apply(site, w, op), st, n)
    ensures Has(site, w, st, n) || (op.PutSecret? && op.st == st && op.name == n)
  {
  }

  // ---------------------------------------------------------------- invariants through Install

  lemma ReconcileCaKeeps(cfg: Config, s: Sys, inv: World -> bool)
    requires Guarded(cfg.site, s, inv)
    requires cfg.caBundle != "" ==> PutsKeep(cfg.site, CaBundle, [cfg.caBundle], inv)
    requires cfg.caBundle == "" ==> PrunesKeep(cfg.site, CaBundle, [], inv)
    ensures Guarded(cfg.site, ReconcileCa(cfg, s).s, inv)
    ensures Still(s.ticks) ==> Still(ReconcileCa(cfg, s).s.ticks)
  {
    if cfg.caBundle == "" {
      PruneKeeps(cfg.site, s, CaBundle, [], inv);
    } else {
      LookKeeps(cfg.site, s, inv);
      var look := Look(cfg.site, s);
      if look.a == Done && Ref(cfg.site.pod, cfg.caBundle) in look.s.w.secrets {
        var src := look.s.w.secrets[Ref(cfg.site.pod, cfg.caBundle)];
        assert cfg.caBundle in [cfg.caBundle];
        DoKeeps(cfg.site, look.s, PutSecret(CaBundle, cfg.caBundle, src.typ, src.data), inv);
      }
    }
  }

  lemma ReconcileCaGives(cfg: Config, s: Sys)
    requires ReconcileCa(cfg, s).a == Done
    ensures var r := ReconcileCa(cfg, s);
      && (cfg.caBundle != "" ==>
            && Has(cfg.site, r.s.w, CaBundle, cfg.caBundle)
            && r.ca == CaText(r.s.w.secrets[Place(cfg.site, CaBundle, cfg.caBundle)].data))
      && (cfg.caBundle == "" ==> r.ca == NO_CA && forall n :: !Has(cfg.site, r.s.w, CaBundle, n))
  {
    if cfg.caBundle == "" {
      forall n ensures !Has(cfg.site, ReconcileCa(cfg, s).s.w, CaBundle, n) {
        PruneLeaves(cfg.site, s, CaBundle, [], n);
      }
    }
  }

  /** The invariant together with the hypothesis, as one predicate for the parts of Install. */
  lemma WithApart(cfg: Config, v: Version, inv: World -> bool)
    requires InstallKeeps(cfg, v, inv)
    ensures var both := (w: World) => inv(w) && Apart(cfg, v, w);
      && (RelyClosed(cfg.site, inv) ==> RelyClosed(cfg.site, both))
      && PutsKeep(cfg.site, ImagePull, ImageNames(v), both) && PrunesKeep(cfg.site, ImagePull, ImageNames(v), both)
      && PutsKeep(cfg.site, ChartPull, ChartNames(v, cfg.reloader), both)
      && PrunesKeep(cfg.site, ChartPull, ChartNames(v, cfg.reloader), both)
      && (cfg.caBundle != "" ==> PutsKeep(cfg.site, CaBundle, [cfg.caBundle], both))
      && (cfg.caBundle == "" ==> PrunesKeep(cfg.site, CaBundle, [], both))
  {
    ApartKept(cfg, v);
    var both := (w: World) => inv(w) && Apart(cfg, v, w);
    forall w, op | both(w) && InstallOp(cfg, v, w, op) ensures both(Apply(cfg.site, w, op)) {
      ApartStep(cfg, v, w, op);
    }
  }

  lemma PrepareSteps(cfg: Config, v: Version, s: Sys, inv: World -> bool)
    requires Guarded(cfg.site, s, inv)
    requires PutsKeep(cfg.site, ImagePull, ImageNames(v), inv) && PrunesKeep(cfg.site, ImagePull, ImageNames(v), inv)
    requires PutsKeep(cfg.site, ChartPull, ChartNames(v, cfg.reloader), inv)
    requires PrunesKeep(cfg.site, ChartPull, ChartNames(v, cfg.reloader), inv)
    requires cfg.caBundle != "" ==> PutsKeep(cfg.site, CaBundle, [cfg.caBundle], inv)
    requires cfg.caBundle == "" ==> PrunesKeep(cfg.site, CaBundle, [], inv)
    ensures Guarded(cfg.site, Prepare(cfg, v, s).s, inv)
    ensures Still(s.ticks) ==> Still(Prepare(cfg, v, s).s.ticks)
  {
    if PullNames(v.values).Success? {
      ReconcileKeeps(cfg.site, s, ImagePull, ImageNames(v), inv);
      var images := Reconcile(cfg.site, s, ImagePull, ImageNames(v));
      if images.a == Done {
        ReconcileKeeps(cfg.site, images.s, ChartPull, ChartNames(v, cfg.reloader), inv);
        var charts := Reconcile(cfg.site, images.s, ChartPull, ChartNames(v, cfg.reloader));
        if charts.a == Done {
          ReconcileCaKeeps(cfg, charts.s, inv);
        }
      }
    }
  }

  lemma PrepareKeeps(cfg: Config, v: Version, s: Sys, inv: World -> bool)
    requires Guarded(cfg.site, s, inv) && Apart(cfg, v, s.w) && InstallKeeps(cfg, v, inv)
    ensures Guarded(cfg.site, Prepare(cfg, v, s).s, inv) && Apart(cfg, v, Prepare(cfg, v, s).s.w)
    ensures Still(s.ticks) ==> Still(Prepare(cfg, v, s).s.ticks)
  {
    WithApart(cfg, v, inv);
    PrepareSteps(cfg, v, s, (w: World) => inv(w) && Apart(cfg, v, w));
  }

  /** Every chart pull secret and the CA bundle are in place. */
  ghost predicate Ready(cfg: Config, v: Version, w: World) {
    && (forall n | n in ChartNames(v, cfg.reloader) :: Has(cfg.site, w, ChartPull, n))
    && (cfg.caBundle != "" ==> Has(cfg.site, w, CaBundle, cfg.caBundle))
  }

  lemma PrepareReady(cfg: Config, v: Version, s: Sys)
    requires Apart(cfg, v, s.w) && Prepare(cfg, v, s).a == Done
    ensures Ready(cfg, v, Prepare(cfg, v, s).s.w)
  {
    var images := Reconcile(cfg.site, s, ImagePull, ImageNames(v));
    var charts := Reconcile(cfg.site, images.s, ChartPull, ChartNames(v, cfg.reloader));
    var yes := (w: World) => true;
    WithApart(cfg, v, yes);
    var apart := (w: World) => yes(w) && Apart(cfg, v, w);
    ReconcileKeeps(cfg.site, s, ImagePull, ImageNames(v), apart);
    ReconcileKeeps(cfg.site, images.s, ChartPull, ChartNames(v, cfg.reloader), apart);
    ReconcileExact(cfg.site, images.s, ChartPull, ChartNames(v, cfg.reloader));
    ReconcileCaGives(cfg, charts.s);
    forall n | n in ChartNames(v, cfg.reloader) ensures Has(cfg.site, Prepare(cfg, v, s).s.w, ChartPull, n) {
      CaSparesChart(cfg, charts.s, n);
    }
  }

  /** Neither syncing nor removing the CA bundle takes a chart pull secret away. */
  lemma CaSparesChart(cfg: Config, s: Sys, n: string)
    requires Has(cfg.site, s.w, ChartPull, n)
    requires n != cfg.caBundle && !Has(cfg.site, s.w, CaBundle, n)
    ensures Has(cfg.site, ReconcileCa(cfg, s).s.w, ChartPull, n)
  {
    var inv := (w: World) => Has(cfg.site, w, ChartPull, n) && !Has(cfg.site, w, CaBundle, n);
    forall a, b | inv(a) && Rely(cfg.site, a, b) ensures inv(b) {
      RelyHas(cfg.site, a, b, ChartPull, n);
      RelyHas(cfg.site, a, b, CaBundle, n);
    }
    ReconcileCaKeeps(cfg, s, inv);
  }

  /** The invariant while the Flux objects are written: all secrets they refer to stay in place. */
  lemma WithReady(cfg: Config, v: Version, inv: World -> bool)
    requires InstallKeeps(cfg, v, inv)
    ensures var all := (w: World) => inv(w) && Apart(cfg, v, w) && Ready(cfg, v, w);
      && (RelyClosed(cfg.site, inv) ==> RelyClosed(cfg.site, all))
      && forall w, op :: all(w) && FluxOp(cfg, v, op) ==> all(Apply(cfg.site, w, op))
  {
    ApartKept(cfg, v);
    var all := (w: World) => inv(w) && Apart(cfg, v, w) && Ready(cfg, v, w);
    forall a, b | RelyClosed(cfg.site, inv) && all(a) && Rely(cfg.site, a, b) ensures all(b) {
      assert Apart(cfg, v, b);
      forall n, st ensures Has(cfg.site, a, st, n) <==> Has(cfg.site, b, st, n) {
        RelyHas(cfg.site, a, b, st, n);
      }
    }
    forall w, op | all(w) && FluxOp(cfg, v, op) ensures all(Apply(cfg.site, w, op)) {
      ReadyBacks(cfg, v, w);
      assert InstallOp(cfg, v, w, op);
      ApartStep(cfg, v, w, op);
      forall n, st ensures Has(cfg.site, w, st, n) <==> Has(cfg.site, Apply(cfg.site, w, op), st, n) {
      }
    }
  }

  lemma ReadyBacks(cfg: Config, v: Version, w: World)
    requires Ready(cfg, v, w)
    ensures v.chartURL.Some? ==> Backed(cfg.site, w, ArgoRepo(cfg, v))
    ensures cfg.reloader.Some? ==> Backed(cfg.site, w, ReloaderRepo(cfg))
  {
  }

  lemma ApplyArgoKeeps(cfg: Config, v: Version, s: Sys, compiled: Result<Option<Json>>, inv: World -> bool)
    requires v.chartURL.Some? && Guarded(cfg.site, s, inv)
    requires forall w, op :: inv(w) && FluxOp(cfg, v, op) ==> inv(Apply(cfg.site, w, op))
    ensures Guarded(cfg.site, ApplyArgo(cfg, v, s, compiled).s, inv)
    ensures Still(s.ticks) ==> Still(ApplyArgo(cfg, v, s, compiled).s.ticks)
  {
    DoKeeps(cfg.site, s, PutRepo(ARGOCD, BY_ARGOCD, ArgoRepo(cfg, v)), inv);
    var repo := Do(cfg.site, s, PutRepo(ARGOCD, BY_ARGOCD, ArgoRepo(cfg, v)));
    if repo.a == Done && compiled.Success? {
      var spec := ArgoRelease(cfg, compiled.value);
      DoKeeps(cfg.site, repo.s, PutRelease(ARGOCD, BY_ARGOCD, spec), inv);
    }
  }

  lemma ReconcileReloaderKeeps(cfg: Config, v: Version, s: Sys, inv: World -> bool)
    requires Guarded(cfg.site, s, inv)
    requires forall w, op :: inv(w) && FluxOp(cfg, v, op) ==> inv(Apply(cfg.site, w, op))
    ensures Guarded(cfg.site, ReconcileReloader(cfg, s).s, inv)
    ensures Still(s.ticks) ==> Still(ReconcileReloader(cfg, s).s.ticks)
  {
    if cfg.reloader.Some? {
      var put := PutRepo(RELOADER, BY_RELOADER, ReloaderRepo(cfg));
      DoKeeps(cfg.site, s, put, inv);
      DoKeeps(cfg.site, Do(cfg.site, s, put).s, PutRelease(RELOADER, BY_RELOADER, ReloaderRelease(cfg)), inv);
    } else {
      DoKeeps(cfg.site, s, DeleteRelease(RELOADER), inv);
      DoKeeps(cfg.site, Do(cfg.site, s, DeleteRelease(RELOADER)).s, DeleteRepo(RELOADER), inv);
    }
  }

  /** Induction over runs of Install: what survives the steps of others (if there are any) and each write that
      InstallOp permits holds after every run, hence in every intermediate state. In particular
      every OCIRepository is written in a state where the secrets it names are in place. */
  lemma InstallRespects(cfg: Config, v: Version, s: Sys, addon: seq<Tick>, inv: World -> bool)
    requires Apart(cfg, v, s.w) && inv(s.w) && InstallKeeps(cfg, v, inv)
    requires RelyClosed(cfg.site, inv) || (Still(s.ticks) && Still(addon))
    ensures inv(Install(cfg, v, s, addon).s.w) && Apart(cfg, v, Install(cfg, v, s, addon).s.w)
  {
    if v.chartURL.Some? {
      PrepareKeeps(cfg, v, s, inv);
      var prepared := Prepare(cfg, v, s);
      if prepared.a == Done {
        PrepareReady(cfg, v, s);
        WithReady(cfg, v, inv);
        var all := (w: World) => inv(w) && Apart(cfg, v, w) && Ready(cfg, v, w);
        ApplyArgoKeeps(cfg, v, prepared.s, InstallValues(cfg, v, prepared.ca), all);
        var applied := ApplyArgo(cfg, v, prepared.s, InstallValues(cfg, v, prepared.ca));
        if applied.a == Done {
          ReconcileReloaderKeeps(cfg, v, Sys(applied.s.w, addon), all);
        }
      }
    }
  }

  // ---------------------------------------------------------------- main results about every run

  /** Make before break, over the whole of Install: a pull secret that is there and is still
      referenced by the new configuration never disappears, wherever the run stops. */
  lemma PullSecretsNeverBreak(cfg: Config, v: Version, s: Sys, addon: seq<Tick>, st: Stamp, n: string)
    requires Apart(cfg, v, s.w) && Has(cfg.site, s.w, st, n)
    requires (st == ImagePull && n in ImageNames(v)) || (st == ChartPull && n in ChartNames(v, cfg.reloader))
    ensures Has(cfg.site, Install(cfg, v, s, addon).s.w, st, n)
  {
    var inv := (w: World) => Has(cfg.site, w, st, n);
    HasIsKept(cfg.site, st, n, [n]);
    assert RelyClosed(cfg.site, inv);
    forall w, op | inv(w) && Apart(cfg, v, w) && InstallOp(cfg, v, w, op) ensures inv(Apply(cfg.site, w, op)) {
      PullSecretStep(cfg, v, w, op, st, n);
    }
    InstallRespects(cfg, v, s, addon, inv);
  }

  lemma PullSecretStep(cfg: Config, v: Version, w: World, op: Op, st: Stamp, n: string)
    requires Apart(cfg, v, w) && InstallOp(cfg, v, w, op) && Has(cfg.site, w, st, n)
    requires (st == ImagePull && n in ImageNames(v)) || (st == ChartPull && n in ChartNames(v, cfg.reloader))
    ensures Has(cfg.site, Apply(cfg.site, w, op), st, n)
  {
    if op.DeleteSecret? {
      assert Place(cfg.site, op.st, op.name) != Place(cfg.site, st, n) || op.st.ImagePull? != st.ImagePull?;
    } else {
      PutHas(cfg.site, w, st, n, op);
    }
  }

  lemma CaCopyStep(cfg: Config, v: Version, w: World, op: Op, n: string)
    requires Apart(cfg, v, w) && InstallOp(cfg, v, w, op) && Has(cfg.site, w, CaBundle, n) && cfg.caBundle != ""
    ensures Has(cfg.site, Apply(cfg.site, w, op), CaBundle, n)
  {
    if !op.DeleteSecret? {
      PutHas(cfg.site, w, CaBundle, n, op);
    }
  }

  /** A configured CA copy likewise: only a cleared caBundleSecret removes copies. */
  lemma CaCopyNeverBreaks(cfg: Config, v: Version, s: Sys, addon: seq<Tick>, n: string)
    requires Apart(cfg, v, s.w) && Has(cfg.site, s.w, CaBundle, n) && cfg.caBundle != ""
    ensures Has(cfg.site, Install(cfg, v, s, addon).s.w, CaBundle, n)
  {
    var inv := (w: World) => Has(cfg.site, w, CaBundle, n);
    HasIsKept(cfg.site, CaBundle, n, [n]);
    forall w, op | inv(w) && Apart(cfg, v, w) && InstallOp(cfg, v, w, op) ensures inv(Apply(cfg.site, w, op)) {
      CaCopyStep(cfg, v, w, op, n);
    }
    InstallRespects(cfg, v, s, addon, inv);
  }

  /** Nothing but finalizers differs. */
  predicate Untouched(a: Repo, b: Repo) {
    b == a.(life := b.life) && SameDeletion(a.life, b.life)
  }

  /** Reference integrity of the ArgoCD repository: in every state a run of Install can be in, the
      repository is untouched, gone, or as requested with its secrets in place. */
  lemma RepositoryAlwaysBacked(cfg: Config, v: Version, s: Sys, addon: seq<Tick>)
    requires Apart(cfg, v, s.w)
    ensures var r := Ref(cfg.site.tenant, ARGOCD);
            var end := Install(cfg, v, s, addon).s.w;
      r in end.repos ==>
        || (r in s.w.repos && Untouched(s.w.repos[r], end.repos[r]))
        || (v.chartURL.Some? && end.repos[r].spec == ArgoRepo(cfg, v) && Backed(cfg.site, end, end.repos[r].spec))
  {
    var inv := (w: World) => RepoInv(cfg, v, s.w, w);
    forall a, b | inv(a) && Rely(cfg.site, a, b) ensures inv(b) {
      forall n, st ensures Has(cfg.site, a, st, n) <==> Has(cfg.site, b, st, n) {
        RelyHas(cfg.site, a, b, st, n);
      }
    }
    forall w, op | inv(w) && Apart(cfg, v, w) && InstallOp(cfg, v, w, op) ensures inv(Apply(cfg.site, w, op)) {
      RepoInvStep(cfg, v, s.w, w, op);
    }
    InstallRespects(cfg, v, s, addon, inv);
  }

  ghost predicate RepoInv(cfg: Config, v: Version, start: World, w: World) {
    var r := Ref(cfg.site.tenant, ARGOCD);
    r in w.repos ==>
      || (r in start.repos && Untouched(start.repos[r], w.repos[r]))
      || (v.chartURL.Some? && w.repos[r].spec == ArgoRepo(cfg, v) && Backed(cfg.site, w, w.repos[r].spec))
  }

  lemma RepoInvStep(cfg: Config, v: Version, start: World, w: World, op: Op)
    requires RepoInv(cfg, v, start, w) && Apart(cfg, v, w) && InstallOp(cfg, v, w, op)
    ensures RepoInv(cfg, v, start, Apply(cfg.site, w, op))
  {
    if v.chartURL.Some? && Backed(cfg.site, w, ArgoRepo(cfg, v)) {
      BackedStep(cfg, v, w, op);
    }
  }

  /** The Reloader repository likewise, but that disabling Reloader marks an old one for removal. */
  lemma ReloaderRepositoryAlwaysBacked(cfg: Config, v: Version, s: Sys, addon: seq<Tick>)
    requires Apart(cfg, v, s.w)
    ensures var r := Ref(cfg.site.tenant, RELOADER);
            var end := Install(cfg, v, s, addon).s.w;
      r in end.repos ==>
        || (r in s.w.repos && end.repos[r].spec == s.w.repos[r].spec && end.repos[r].labels == s.w.repos[r].labels)
        || (cfg.reloader.Some? && end.repos[r].spec == ReloaderRepo(cfg) && Backed(cfg.site, end, end.repos[r].spec)
            && RefersTo(end.repos[r].spec.secretRef, cfg.reloader.value.chartPullSecret)
            && RefersTo(end.repos[r].spec.certSecretRef, cfg.caBundle))
  {
    var inv := (w: World) => ReloaderRepoInv(cfg, s.w, w);
    forall a, b | inv(a) && Rely(cfg.site, a, b) ensures inv(b) {
      forall n, st ensures Has(cfg.site, a, st, n) <==> Has(cfg.site, b, st, n) {
        RelyHas(cfg.site, a, b, st, n);
      }
    }
    forall w, op | inv(w) && Apart(cfg, v, w) && InstallOp(cfg, v, w, op) ensures inv(Apply(cfg.site, w, op)) {
      if cfg.reloader.Some? && Backed(cfg.site, w, ReloaderRepo(cfg)) {
        ReloaderBackedStep(cfg, v, w, op);
      }
    }
    InstallRespects(cfg, v, s, addon, inv);
  }

  ghost predicate ReloaderRepoInv(cfg: Config, start: World, w: World) {
    var r := Ref(cfg.site.tenant, RELOADER);
    r in w.repos ==>
      || (r in start.repos && w.repos[r].spec == start.repos[r].spec && w.repos[r].labels == start.repos[r].labels)
      || (cfg.reloader.Some? && w.repos[r].spec == ReloaderRepo(cfg) && Backed(cfg.site, w, w.repos[r].spec))
  }

  lemma ReloaderBackedStep(cfg: Config, v: Version, w: World, op: Op)
    requires cfg.reloader.Some? && Backed(cfg.site, w, ReloaderRepo(cfg))
    requires Apart(cfg, v, w) && InstallOp(cfg, v, w, op)
    ensures Backed(cfg.site, Apply(cfg.site, w, op), ReloaderRepo(cfg))
  {
    var name := cfg.reloader.value.chartPullSecret;
    assert name != "" ==> name in ChartNames(v, cfg.reloader);
  }

  lemma BackedStep(cfg: Config, v: Version, w: World, op: Op)
    requires v.chartURL.Some? && Backed(cfg.site, w, ArgoRepo(cfg, v))
    requires Apart(cfg, v, w) && InstallOp(cfg, v, w, op)
    ensures Backed(cfg.site, Apply(cfg.site, w, op), ArgoRepo(cfg, v))
  {
  }

  /** The release argocd, if it is there, is specified as it was. */
  predicate ReleaseUntouched(site: Site, start: World, w: World) {
    var r := Ref(site.tenant, ARGOCD);
    r in w.releases ==> r in start.releases && w.releases[r].spec == start.releases[r].spec
  }

  /** The repository argocd, if it is there, is as requested. */
  predicate RepoAsked(cfg: Config, v: Version, w: World) {
    var r := Ref(cfg.site.tenant, ARGOCD);
    v.chartURL.Some? && (r in w.repos ==> w.repos[r].spec == ArgoRepo(cfg, v))
  }

  ghost predicate Following(cfg: Config, v: Version, start: World, w: World) {
    ReleaseUntouched(cfg.site, start, w) || RepoAsked(cfg, v, w)
  }

  lemma FollowingRely(cfg: Config, v: Version, start: World)
    ensures RelyClosed(cfg.site, (w: World) => ReleaseUntouched(cfg.site, start, w))
    ensures RelyClosed(cfg.site, (w: World) => RepoAsked(cfg, v, w))
    ensures RelyClosed(cfg.site, (w: World) => Following(cfg, v, start, w))
  {
    assert OurRef(cfg.site, Ref(cfg.site.tenant, ARGOCD));
  }

  lemma ApplyFollows(cfg: Config, v: Version, start: World, s: Sys, compiled: Result<Option<Json>>)
    requires v.chartURL.Some? && ReleaseUntouched(cfg.site, start, s.w)
    ensures Following(cfg, v, start, ApplyArgo(cfg, v, s, compiled).s.w)
  {
    FollowingRely(cfg, v, start);
    var put := PutRepo(ARGOCD, BY_ARGOCD, ArgoRepo(cfg, v));
    DoKeeps(cfg.site, s, put, (w: World) => ReleaseUntouched(cfg.site, start, w));
    var repo := Do(cfg.site, s, put);
    if repo.a == Done && compiled.Success? {
      var w := DoEffect(cfg.site, s, put);
      assert RepoAsked(cfg, v, repo.s.w);
      DoKeeps(cfg.site, repo.s, PutRelease(ARGOCD, BY_ARGOCD, ArgoRelease(cfg, compiled.value)),
              (w: World) => RepoAsked(cfg, v, w));
    }
  }

  /** The release follows the repository: in no state of any run of Install is it respecified while the
      repository is there and not yet as requested. */
  lemma ReleaseFollowsRepo(cfg: Config, v: Version, s: Sys, addon: seq<Tick>)
    ensures Following(cfg, v, s.w, Install(cfg, v, s, addon).s.w)
  {
    if v.chartURL.Some? {
      FollowingRely(cfg, v, s.w);
      PrepareSteps(cfg, v, s, (w: World) => ReleaseUntouched(cfg.site, s.w, w));
      var p := Prepare(cfg, v, s);
      if p.a == Done {
        ApplyFollows(cfg, v, s.w, p.s, InstallValues(cfg, v, p.ca));
        var applied := ApplyArgo(cfg, v, p.s, InstallValues(cfg, v, p.ca));
        ReloaderFollows(cfg, v, s.w, Sys(applied.s.w, addon));
      }
    }
  }

  lemma AsideFollows(cfg: Config, v: Version, start: World, w: World, op: Op)
    requires Following(cfg, v, start, w) && (op == FirstAside(cfg) || op == SecondAside(cfg))
    ensures Following(cfg, v, start, Apply(cfg.site, w, op))
  {
    var r := Ref(cfg.site.tenant, ARGOCD);
    var x := Apply(cfg.site, w, op);
    assert r in x.releases <==> r in w.releases;
    assert r in x.repos <==> r in w.repos;
  }

  lemma ReloaderFollows(cfg: Config, v: Version, start: World, s: Sys)
    requires Following(cfg, v, start, s.w)
    ensures Following(cfg, v, start, ReconcileReloader(cfg, s).s.w)
  {
    FollowingRely(cfg, v, start);
    var inv := (w: World) => Following(cfg, v, start, w);
    forall w, op | inv(w) && (op == FirstAside(cfg) || op == SecondAside(cfg)) ensures inv(Apply(cfg.site, w, op)) {
      AsideFollows(cfg, v, start, w, op);
    }
    DoKeeps(cfg.site, s, FirstAside(cfg), inv);
    DoKeeps(cfg.site, HalfWay(cfg, s).s, SecondAside(cfg), inv);
  }

  // ---------------------------------------------------------------- main results about success

  /** Flux writes leave the secrets of every kind alone. */
  lemma FluxOpSparesSecrets(cfg: Config, v: Version, w: World, op: Op, st: Stamp)
    requires FluxOp(cfg, v, op)
    ensures SecretsOf(Apply(cfg.site, w, op), st) == SecretsOf(w, st)
  {
  }

  /** From the end of Prepare on, an invariant about replicas only has others to fear. */
  lemma AfterPrepare(cfg: Config, v: Version, s: Sys, addon: seq<Tick>, inv: World -> bool)
    requires v.chartURL.Some? && Prepare(cfg, v, s).a == Done
    requires inv(Prepare(cfg, v, s).s.w) && RelyClosed(cfg.site, inv)
    requires forall w, op :: inv(w) && FluxOp(cfg, v, op) ==> inv(Apply(cfg.site, w, op))
    ensures inv(Install(cfg, v, s, addon).s.w)
  {
    var prepared := Prepare(cfg, v, s);
    ApplyArgoKeeps(cfg, v, prepared.s, InstallValues(cfg, v, prepared.ca), inv);
    var applied := ApplyArgo(cfg, v, prepared.s, InstallValues(cfg, v, prepared.ca));
    ReconcileReloaderKeeps(cfg, v, Sys(applied.s.w, addon), inv);
  }

  /** Replication is exact: after a successful Install the replicas of pull secrets are exactly the
      requested names, on the MCP and in the tenant namespace. */
  lemma PullSecretsExact(cfg: Config, v: Version, s: Sys, addon: seq<Tick>)
    requires Apart(cfg, v, s.w) && Install(cfg, v, s, addon).a == Done
    ensures var end := Install(cfg, v, s, addon).s.w;
      && PullNames(v.values).Success?
      && (forall n :: Has(cfg.site, end, ImagePull, n) <==> n in PullNames(v.values).value)
      && (forall n :: Has(cfg.site, end, ChartPull, n) <==> n in ChartNames(v, cfg.reloader))
  {
    ExactAfterPrepare(cfg, v, s);
    ExactKept(cfg, v, s, addon, ImagePull, ImageNames(v));
    ExactKept(cfg, v, s, addon, ChartPull, ChartNames(v, cfg.reloader));
  }

  lemma ExactKept(cfg: Config, v: Version, s: Sys, addon: seq<Tick>, st: Stamp, names: seq<string>)
    requires v.chartURL.Some? && Prepare(cfg, v, s).a == Done
    requires forall n :: Has(cfg.site, Prepare(cfg, v, s).s.w, st, n) <==> n in names
    ensures forall n :: Has(cfg.site, Install(cfg, v, s, addon).s.w, st, n) <==> n in names
  {
    var inv := (w: World) => forall n :: Has(cfg.site, w, st, n) <==> n in names;
    forall a, b | inv(a) && Rely(cfg.site, a, b) ensures inv(b) {
      forall n ensures Has(cfg.site, a, st, n) <==> Has(cfg.site, b, st, n) {
        RelyHas(cfg.site, a, b, st, n);
      }
    }
    forall w, op | inv(w) && FluxOp(cfg, v, op) ensures inv(Apply(cfg.site, w, op)) {
      FluxOpSparesSecrets(cfg, v, w, op, st);
    }
    AfterPrepare(cfg, v, s, addon, inv);
  }

  lemma ExactAfterPrepare(cfg: Config, v: Version, s: Sys)
    requires Apart(cfg, v, s.w) && Prepare(cfg, v, s).a == Done
    ensures var w := Prepare(cfg, v, s).s.w;
      && (forall n :: Has(cfg.site, w, ImagePull, n) <==> n in ImageNames(v))
      && (forall n :: Has(cfg.site, w, ChartPull, n) <==> n in ChartNames(v, cfg.reloader))
  {
    var site, names, charts := cfg.site, ImageNames(v), ChartNames(v, cfg.reloader);
    var first := Reconcile(site, s, ImagePull, names);
    var second := Reconcile(site, first.s, ChartPull, charts);
    ReconcileExact(site, s, ImagePull, names);
    ReconcileExact(site, first.s, ChartPull, charts);
    var images := (w: World) => forall n :: Has(site, w, ImagePull, n) <==> n in names;
    ImagesUnmoved(cfg, names, images);
    ReconcileKeeps(site, first.s, ChartPull, charts, images);
    ReconcileCaKeeps(cfg, second.s, images);
    PrepareReady(cfg, v, s);
    var only := (w: World) => forall n :: Has(site, w, ChartPull, n) ==> n in charts;
    CaMarksNoChart(cfg, charts, only);
    ReconcileCaKeeps(cfg, second.s, only);
  }

  /** CA writes give no secret the chart label. */
  lemma CaMarksNoChart(cfg: Config, charts: seq<string>, only: World -> bool)
    requires forall w :: only(w) <==> forall n :: Has(cfg.site, w, ChartPull, n) ==> n in charts
    ensures RelyClosed(cfg.site, only)
    ensures PutsKeep(cfg.site, CaBundle, [cfg.caBundle], only) && PrunesKeep(cfg.site, CaBundle, [], only)
  {
    forall a, b | only(a) && Rely(cfg.site, a, b) ensures only(b) {
      forall n ensures Has(cfg.site, a, ChartPull, n) <==> Has(cfg.site, b, ChartPull, n) {
        RelyHas(cfg.site, a, b, ChartPull, n);
      }
    }
    forall w, op: Op | only(w) && (op.PutSecret? || op.DeleteSecret?) && op.st.CaBundle?
      ensures only(Apply(cfg.site, w, op))
    {
      assert forall n :: Has(cfg.site, Apply(cfg.site, w, op), ChartPull, n) ==> Has(cfg.site, w, ChartPull, n);
    }
  }

  /** Writes to the tenant namespace do not reach the MCP. */
  lemma ImagesUnmoved(cfg: Config, names: seq<string>, images: World -> bool)
    requires forall w :: images(w) <==> forall n :: Has(cfg.site, w, ImagePull, n) <==> n in names
    ensures RelyClosed(cfg.site, images)
    ensures forall st: Stamp, ns :: !st.ImagePull? ==>
              PutsKeep(cfg.site, st, ns, images) && PrunesKeep(cfg.site, st, ns, images)
  {
    forall a, b | images(a) && Rely(cfg.site, a, b) ensures images(b) {
      forall n ensures Has(cfg.site, a, ImagePull, n) <==> Has(cfg.site, b, ImagePull, n) {
        RelyHas(cfg.site, a, b, ImagePull, n);
      }
    }
    forall w, op: Op | images(w) && (op.PutSecret? || op.DeleteSecret?) && !op.st.ImagePull?
      ensures images(Apply(cfg.site, w, op))
    {
      assert forall n :: Has(cfg.site, w, ImagePull, n) <==> Has(cfg.site, Apply(cfg.site, w, op), ImagePull, n);
    }
  }

  /** References resolve and the embedded CA is the tenant's: after a successful Install, as far as
      Flux has not removed them meanwhile, the ArgoCD repository is as requested, names the chart pull
      secret and the CA bundle, and finds both; and the release installs that repository's chart with
      the values compiled with ca.crt of the tenant's CA copy. */
  lemma InstalledAsAsked(cfg: Config, v: Version, s: Sys, addon: seq<Tick>)
    requires Apart(cfg, v, s.w) && Install(cfg, v, s, addon).a == Done
    ensures var end, r := Install(cfg, v, s, addon).s.w, Ref(cfg.site.tenant, ARGOCD);
      && v.chartURL.Some?
      && Backed(cfg.site, end, ArgoRepo(cfg, v))
      && (r in end.repos ==> end.repos[r].spec == ArgoRepo(cfg, v))
      && InstallValues(cfg, v, CaIn(cfg, end)).Success?
      && (r in end.releases ==>
            end.releases[r].spec == ArgoRelease(cfg, InstallValues(cfg, v, CaIn(cfg, end)).value))
    ensures var end, r := Install(cfg, v, s, addon).s.w, Ref(cfg.site.tenant, ARGOCD);
            var compiled := Values(v.values, cfg.exposure, CaIn(cfg, end), cfg.vault, v.version);
      && compiled.Success?
      && (r in end.repos ==>
            var spec := end.repos[r].spec;
            && v.chartURL == Some(spec.url) && spec.tag == v.chartVersion
            && RefersTo(spec.secretRef, v.chartPullSecret) && RefersTo(spec.certSecretRef, cfg.caBundle)
            && Backed(cfg.site, end, spec))
      && (r in end.releases ==>
            var spec := end.releases[r].spec;
            && spec.chart == r && spec.values == compiled.value
            && spec.targetNamespace == spec.storageNamespace == cfg.site.mcpNs
            && spec.kubeConfig.0 == cfg.kubeConfigSecret)
  {
    var p := Prepare(cfg, v, s);
    var compiled := InstallValues(cfg, v, p.ca);
    SecretsHeld(cfg, v, s, addon);
    ArgoSpecs(cfg, v, p.s, compiled);
    SpecsStay(cfg, v, Sys(ApplyArgo(cfg, v, p.s, compiled).s.w, addon), compiled.value);
  }

  lemma SecretsHeld(cfg: Config, v: Version, s: Sys, addon: seq<Tick>)
    requires v.chartURL.Some? && Apart(cfg, v, s.w) && Prepare(cfg, v, s).a == Done
    ensures var end := Install(cfg, v, s, addon).s.w;
      Backed(cfg.site, end, ArgoRepo(cfg, v)) && CaIn(cfg, end) == Prepare(cfg, v, s).ca
  {
    var ca := Prepare(cfg, v, s).ca;
    PrepareReady(cfg, v, s);
    PrepareCa(cfg, v, s);
    var secrets := (w: World) => Held(cfg, v, ca, w);
    forall a, b | secrets(a) && Rely(cfg.site, a, b) ensures secrets(b) {
      HeldRely(cfg, v, ca, a, b);
    }
    forall w, op | secrets(w) && FluxOp(cfg, v, op) ensures secrets(Apply(cfg.site, w, op)) {
      HeldFlux(cfg, v, ca, w, op);
    }
    AfterPrepare(cfg, v, s, addon, secrets);
  }

  ghost predicate Held(cfg: Config, v: Version, ca: Pem, w: World) {
    v.chartURL.Some? && Backed(cfg.site, w, ArgoRepo(cfg, v)) && CaHeld(cfg, ca, w)
  }

  lemma HeldRely(cfg: Config, v: Version, ca: Pem, a: World, b: World)
    requires Held(cfg, v, ca, a) && Rely(cfg.site, a, b)
    ensures Held(cfg, v, ca, b)
  {
    RelyHas(cfg.site, a, b, ChartPull, v.chartPullSecret);
    RelyHas(cfg.site, a, b, CaBundle, cfg.caBundle);
  }

  lemma HeldFlux(cfg: Config, v: Version, ca: Pem, w: World, op: Op)
    requires Held(cfg, v, ca, w) && FluxOp(cfg, v, op)
    ensures Held(cfg, v, ca, Apply(cfg.site, w, op))
  {
    FluxOpSparesSecrets(cfg, v, w, op, ChartPull);
  }

  ghost predicate CaHeld(cfg: Config, ca: Pem, w: World) {
    (cfg.caBundle != "" ==> Has(cfg.site, w, CaBundle, cfg.caBundle)) && CaIn(cfg, w) == ca
  }

  lemma PrepareCa(cfg: Config, v: Version, s: Sys)
    requires Prepare(cfg, v, s).a == Done
    ensures CaHeld(cfg, Prepare(cfg, v, s).ca, Prepare(cfg, v, s).s.w)
  {
    var images := Reconcile(cfg.site, s, ImagePull, ImageNames(v));
    var charts := Reconcile(cfg.site, images.s, ChartPull, ChartNames(v, cfg.reloader));
    ReconcileCaGives(cfg, charts.s);
  }

  predicate SpecsAre(cfg: Config, v: Version, values: Option<Json>, w: World)
    requires v.chartURL.Some?
  {
    var r := Ref(cfg.site.tenant, ARGOCD);
    && (r in w.repos ==> w.repos[r].spec == ArgoRepo(cfg, v))
    && (r in w.releases ==> w.releases[r].spec == ArgoRelease(cfg, values))
  }

  lemma ArgoSpecs(cfg: Config, v: Version, s: Sys, compiled: Result<Option<Json>>)
    requires v.chartURL.Some? && ApplyArgo(cfg, v, s, compiled).a == Done
    ensures compiled.Success? && SpecsAre(cfg, v, compiled.value, ApplyArgo(cfg, v, s, compiled).s.w)
  {
  }

  lemma SpecsStay(cfg: Config, v: Version, s: Sys, values: Option<Json>)
    requires v.chartURL.Some? && SpecsAre(cfg, v, values, s.w)
    ensures SpecsAre(cfg, v, values, ReconcileReloader(cfg, s).s.w)
  {
    if cfg.reloader.Some? {
      var put := PutRepo(RELOADER, BY_RELOADER, ReloaderRepo(cfg));
      SpecsStayOne(cfg, v, s, put, values);
      SpecsStayOne(cfg, v, Do(cfg.site, s, put).s, PutRelease(RELOADER, BY_RELOADER, ReloaderRelease(cfg)), values);
    } else {
      SpecsStayOne(cfg, v, s, DeleteRelease(RELOADER), values);
      SpecsStayOne(cfg, v, Do(cfg.site, s, DeleteRelease(RELOADER)).s, DeleteRepo(RELOADER), values);
    }
  }

  lemma SpecsStayOne(cfg: Config, v: Version, s: Sys, op: Op, values: Option<Json>)
    requires v.chartURL.Some? && SpecsAre(cfg, v, values, s.w)
    requires (op.PutRepo? || op.PutRelease? || op.DeleteRepo? || op.DeleteRelease?) && op.name == RELOADER
    ensures SpecsAre(cfg, v, values, Do(cfg.site, s, op).s.w)
  {
  }

  // ---------------------------------------------------------------- bystanders

  /** A secret that is neither a requested replica nor marked as one. */
  predicate Bystander(cfg: Config, v: Version, onMcp: bool, r: Ref, labels: map<string, string>) {
    if onMcp then
      r.ns != cfg.site.mcpNs || (r.name !in ImageNames(v) && !Marked(ImagePull, labels))
    else
      r.ns != cfg.site.tenant
      || (r.name !in ChartNames(v, cfg.reloader) && (r.name != cfg.caBundle || cfg.caBundle == "")
          && !Marked(ChartPull, labels) && !Marked(CaBundle, labels))
  }

  /** As long as nobody else acts, no run of Install touches a secret that is not its own, the
      source secrets in the provider's namespace included. */
  lemma BystandersUntouched(cfg: Config, v: Version, s: Sys, addon: seq<Tick>, st: Stamp, r: Ref)
    requires Apart(cfg, v, s.w) && Still(s.ticks) && Still(addon)
    requires r in SecretsOf(s.w, st) && Bystander(cfg, v, st.ImagePull?, r, SecretsOf(s.w, st)[r].labels)
    ensures var end := Install(cfg, v, s, addon).s.w;
      r in SecretsOf(end, st) && SecretsOf(end, st)[r] == SecretsOf(s.w, st)[r]
  {
    var secret := SecretsOf(s.w, st)[r];
    var inv := (w: World) => r in SecretsOf(w, st) && SecretsOf(w, st)[r] == secret;
    forall w, op | inv(w) && Apart(cfg, v, w) && InstallOp(cfg, v, w, op) ensures inv(Apply(cfg.site, w, op)) {
      BystanderStep(cfg, v, w, op, st, r);
    }
    InstallRespects(cfg, v, s, addon, inv);
  }

  lemma BystanderStep(cfg: Config, v: Version, w: World, op: Op, st: Stamp, r: Ref)
    requires InstallOp(cfg, v, w, op)
    requires r in SecretsOf(w, st) && Bystander(cfg, v, st.ImagePull?, r, SecretsOf(w, st)[r].labels)
    ensures var m := SecretsOf(Apply(cfg.site, w, op), st);
      r in m && m[r] == SecretsOf(w, st)[r]
  {
  }

  /** The labels the provider sets; all others are foreign. */
  predicate OwnLabel(key: string) {
    || key == "app.kubernetes.io/managed-by"
    || key == "argocd.services.open-control-plane.io/chart-pull-secret"
    || key == "argocd.services.open-control-plane.io/ca-bundle"
  }

  predicate LabelledSo(secrets: map<Ref, Secret>, r: Ref, key: string, value: string) {
    r in secrets && key in secrets[r].labels && secrets[r].labels[key] == value
  }

  lemma SecretLabelStep(cfg: Config, v: Version, w: World, op: Op, st: Stamp, n: string, key: string, value: string)
    requires Apart(cfg, v, w) && InstallOp(cfg, v, w, op) && !OwnLabel(key)
    requires (st == ImagePull && n in ImageNames(v)) || (st == ChartPull && n in ChartNames(v, cfg.reloader))
    requires LabelledSo(SecretsOf(w, st), Place(cfg.site, st, n), key, value)
    ensures LabelledSo(SecretsOf(Apply(cfg.site, w, op), st), Place(cfg.site, st, n), key, value)
  {
  }

  /** Foreign labels stay: as long as nobody else acts, a secret that is replicated over keeps every
      label that is not the provider's own. */
  lemma SecretLabelsStay(
      cfg: Config, v: Version, s: Sys, addon: seq<Tick>, st: Stamp, n: string, key: string, value: string)
    requires Apart(cfg, v, s.w) && Still(s.ticks) && Still(addon) && !OwnLabel(key)
    requires (st == ImagePull && n in ImageNames(v)) || (st == ChartPull && n in ChartNames(v, cfg.reloader))
    requires LabelledSo(SecretsOf(s.w, st), Place(cfg.site, st, n), key, value)
    ensures LabelledSo(SecretsOf(Install(cfg, v, s, addon).s.w, st), Place(cfg.site, st, n), key, value)
  {
    var inv := (w: World) => LabelledSo(SecretsOf(w, st), Place(cfg.site, st, n), key, value);
    forall w, op | inv(w) && Apart(cfg, v, w) && InstallOp(cfg, v, w, op) ensures inv(Apply(cfg.site, w, op)) {
      SecretLabelStep(cfg, v, w, op, st, n, key, value);
    }
    InstallRespects(cfg, v, s, addon, inv);
  }

  /** The object argocd of either kind carries the label. */
  predicate ArgoLabelled(site: Site, w: World, key: string, value: string) {
    var r := Ref(site.tenant, ARGOCD);
    && (r in w.repos && key in w.repos[r].labels && w.repos[r].labels[key] == value)
    && (r in w.releases && key in w.releases[r].labels && w.releases[r].labels[key] == value)
  }

  /** And so do Argo CD's two Flux objects. */
  lemma FluxLabelsStay(cfg: Config, v: Version, s: Sys, addon: seq<Tick>, key: string, value: string)
    requires Apart(cfg, v, s.w) && Still(s.ticks) && Still(addon) && !OwnLabel(key)
    requires ArgoLabelled(cfg.site, s.w, key, value)
    ensures ArgoLabelled(cfg.site, Install(cfg, v, s, addon).s.w, key, value)
  {
    var inv := (w: World) => ArgoLabelled(cfg.site, w, key, value);
    forall w, op | inv(w) && Apart(cfg, v, w) && InstallOp(cfg, v, w, op) ensures inv(Apply(cfg.site, w, op)) {
      FluxLabelStep(cfg, v, w, op, key, value);
    }
    InstallRespects(cfg, v, s, addon, inv);
  }

  lemma FluxLabelStep(cfg: Config, v: Version, w: World, op: Op, key: string, value: string)
    requires InstallOp(cfg, v, w, op) && !OwnLabel(key) && ArgoLabelled(cfg.site, w, key, value)
    ensures ArgoLabelled(cfg.site, Apply(cfg.site, w, op), key, value)
  {
  }

  // ---------------------------------------------------------------- the best-effort addon

  /** The stores agree on everything but the two Reloader objects. */
  predicate SameButReloader(site: Site, a: World, b: World) {
    var r := {Ref(site.tenant, RELOADER)};
    && a.secrets == b.secrets && a.mcp == b.mcp
    && a.repos - r == b.repos - r && a.releases - r == b.releases - r
  }

  lemma ReloaderOpsStayAside(site: Site, w: World, op: Op)
    requires (op.PutRepo? || op.PutRelease? || op.DeleteRepo? || op.DeleteRelease?) && op.name == RELOADER
    ensures SameButReloader(site, w, Apply(site, w, op))
  {
  }

  /** Install up to Reloader's turn. */
  function InstallProper(cfg: Config, v: Version, s: Sys): Out {
    if v.chartURL.None? then Out(s, Failed)
    else
      var prepared := Prepare(cfg, v, s);
      if prepared.a != Done then Out(prepared.s, prepared.a)
      else ApplyArgo(cfg, v, prepared.s, InstallValues(cfg, v, prepared.ca))
  }

  /** The two Reloader calls of a pass. */
  function FirstAside(cfg: Config): Op {
    if cfg.reloader.Some? then PutRepo(RELOADER, BY_RELOADER, ReloaderRepo(cfg)) else DeleteRelease(RELOADER)
  }

  function SecondAside(cfg: Config): Op {
    if cfg.reloader.Some? then PutRelease(RELOADER, BY_RELOADER, ReloaderRelease(cfg)) else DeleteRepo(RELOADER)
  }

  function HalfWay(cfg: Config, s: Sys): Out {
    Do(cfg.site, s, FirstAside(cfg))
  }

  /** The stores as the second call finds them, or as the first left them when it was the last. */
  function MetSecond(cfg: Config, s: Sys): World {
    var half := HalfWay(cfg, s);
    if half.a == Done || (cfg.reloader.Some? && half.a == Failed) then Met(cfg.site, half.s) else half.s.w
  }

  lemma CallStaysAside(site: Site, s: Sys, op: Op)
    requires (op.PutRepo? || op.PutRelease? || op.DeleteRepo? || op.DeleteRelease?) && op.name == RELOADER
    ensures SameButReloader(site, Met(site, s), Do(site, s, op).s.w)
  {
    ReloaderOpsStayAside(site, Met(site, s), op);
  }

  /** The Reloader calls change nothing but Reloader's objects in the stores they find. */
  lemma CallsStayAside(cfg: Config, s: Sys)
    ensures SameButReloader(cfg.site, Met(cfg.site, s), HalfWay(cfg, s).s.w)
    ensures SameButReloader(cfg.site, MetSecond(cfg, s), ReconcileReloader(cfg, s).s.w)
  {
    CallStaysAside(cfg.site, s, FirstAside(cfg));
    CallStaysAside(cfg.site, HalfWay(cfg, s).s, SecondAside(cfg));
  }

  /** Whatever the Reloader calls meet, others acting in between too, they decide neither the result
      of Install nor the calls to come, short of a cut-off among them; and in the stores that each
      of them finds they change nothing but Reloader's objects. */
  lemma ReloaderTouchesOnlyItsOwn(cfg: Config, v: Version, s: Sys, addon: seq<Tick>)
    ensures var proper, r := InstallProper(cfg, v, s), Install(cfg, v, s, addon);
            var at := Sys(proper.s.w, addon);
      && r.s.ticks == proper.s.ticks
      && (if proper.a != Done then r == proper else r.a == Halted || r.a == Done)
      && (|addon| >= 2 ==> r.a == proper.a)
      && (proper.a == Done ==>
            && SameButReloader(cfg.site, Met(cfg.site, at), HalfWay(cfg, at).s.w)
            && SameButReloader(cfg.site, MetSecond(cfg, at), r.s.w))
  {
    CallsStayAside(cfg, Sys(InstallProper(cfg, v, s).s.w, addon));
  }

  /** Where nobody else acts meanwhile, they change nothing else at all. */
  lemma ReloaderAlone(cfg: Config, v: Version, s: Sys, addon: seq<Tick>)
    requires Still(addon)
    ensures SameButReloader(cfg.site, InstallProper(cfg, v, s).s.w, Install(cfg, v, s, addon).s.w)
  {
    ReloaderTouchesOnlyItsOwn(cfg, v, s, addon);
  }

  /** Others act alike around the Reloader calls of two runs: from stores that differ in Reloader's
      objects at most, they make such stores again. */
  predicate AlikeAside(cfg: Config, w: World, addon1: seq<Tick>, addon2: seq<Tick>) {
    var one, two := Sys(w, addon1), Sys(w, addon2);
    && SameButReloader(cfg.site, Met(cfg.site, one), Met(cfg.site, two))
    && (SameButReloader(cfg.site, HalfWay(cfg, one).s.w, HalfWay(cfg, two).s.w) ==>
          SameButReloader(cfg.site, MetSecond(cfg, one), MetSecond(cfg, two)))
  }

  lemma StillIsAlikeAside(cfg: Config, w: World, addon1: seq<Tick>, addon2: seq<Tick>)
    requires Still(addon1) && Still(addon2)
    ensures AlikeAside(cfg, w, addon1, addon2)
  {
  }

  /** Non-interference: two runs that differ only in what the Reloader calls meet give the same
      result and leave the same calls to come; and where others act alike around those calls, they
      agree on every object but Reloader's, even when one of them is cut off there. */
  lemma ReloaderNeverInterferes(cfg: Config, v: Version, s: Sys, addon1: seq<Tick>, addon2: seq<Tick>)
    ensures var one, two := Install(cfg, v, s, addon1), Install(cfg, v, s, addon2);
      && (|addon1| >= 2 && |addon2| >= 2 ==> one.a == two.a)
      && one.s.ticks == two.s.ticks
      && (AlikeAside(cfg, InstallProper(cfg, v, s).s.w, addon1, addon2) ==>
            SameButReloader(cfg.site, one.s.w, two.s.w))
  {
    ReloaderTouchesOnlyItsOwn(cfg, v, s, addon1);
    ReloaderTouchesOnlyItsOwn(cfg, v, s, addon2);
  }
}
