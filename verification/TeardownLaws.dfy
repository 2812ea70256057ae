/** What deletion guarantees over every run: which writes it issues and when, that it keeps the CA
    bundle while a repository may need it, that it is complete when it says so, and what each pass gains. */
module TeardownLaws {
  import opened Cluster
  import opened Provision
  import opened Replication
  import opened Teardown

  /** None of the four Flux objects is left. */
  predicate FluxGone(site: Site, w: World) {
    && Ref(site.tenant, ARGOCD) !in w.releases && Ref(site.tenant, ARGOCD) !in w.repos
    && Ref(site.tenant, RELOADER) !in w.releases && Ref(site.tenant, RELOADER) !in w.repos
  }

  predicate ReleaseLeaving(site: Site, w: World, name: string) {
    Ref(site.tenant, name) in w.releases ==> w.releases[Ref(site.tenant, name)].life.Leaving?
  }

  predicate RepoLeaving(site: Site, w: World, name: string) {
    Ref(site.tenant, name) in w.repos ==> w.repos[Ref(site.tenant, name)].life.Leaving?
  }

  /** The writes a Delete pass may issue, and in which state of the stores: a repository goes only after
      its release was told to, replicas only after both of Argo CD's objects were, and a CA copy only
      once all four Flux objects are gone together. */
  ghost predicate DeleteOp(cfg: Config, w: World, op: Op) {
    match op
    case DeleteRepo(n) => (n == ARGOCD || n == RELOADER) && ReleaseLeaving(cfg.site, w, n)
    case DeleteRelease(n) => n == ARGOCD || n == RELOADER
    case DeleteSecret(st, n) =>
      if st.CaBundle? then
        FluxGone(cfg.site, w) && (if cfg.caBundle == "" then Has(cfg.site, w, st, n) else n == cfg.caBundle)
      else Has(cfg.site, w, st, n) && ReleaseLeaving(cfg.site, w, ARGOCD) && RepoLeaving(cfg.site, w, ARGOCD)
    case _ => false
  }

  ghost predicate DeleteKeeps(cfg: Config, inv: World -> bool) {
    forall w, op :: inv(w) && DeleteOp(cfg, w, op) ==> inv(Apply(cfg.site, w, op))
  }

  lemma LookOn(site: Site, start: World, s: Sys)
    requires Rely(site, start, s.w)
    ensures Rely(site, start, Look(site, s).s.w)
  {
    LookRelies(site, s);
    RelyTrans(site, start, s.w, Look(site, s).s.w);
  }

  /** The guard only reads. */
  lemma CountOnlyReads(site: Site, s: Sys)
    ensures Rely(site, s.w, CountUser(site, s).s.w)
  {
    var one := Look(site, s);
    var two := Look(site, one.s);
    RelyRefl(site, s.w);
    LookOn(site, s.w, s);
    LookOn(site, s.w, one.s);
    LookOn(site, s.w, two.s);
  }

  /** What is gone stays gone: nobody but the provider creates Flux objects. */
  lemma GoneStays(site: Site, a: World, b: World, name: string)
    requires Rely(site, a, b) && (name == ARGOCD || name == RELOADER)
    ensures Ref(site.tenant, name) !in a.releases ==> Ref(site.tenant, name) !in b.releases
    ensures Ref(site.tenant, name) !in a.repos ==> Ref(site.tenant, name) !in b.repos
  {
  }

  /** Four reads at four different times, and still all four objects are gone at the end. */
  lemma CheckedTogether(cfg: Config, s: Sys)
    ensures Rely(cfg.site, s.w, IsUninstalled(cfg, s).s.w)
    ensures IsUninstalled(cfg, s).gone ==>
              IsUninstalled(cfg, s).a == Done && FluxGone(cfg.site, IsUninstalled(cfg, s).s.w)
  {
    var site := cfg.site;
    var one := ReleaseGone(site, s, ARGOCD);
    LookRelies(site, s);
    if one.gone {
      var two := RepoGone(site, one.s, ARGOCD);
      LookRelies(site, one.s);
      RelyTrans(site, s.w, one.s.w, two.s.w);
      GoneStays(site, one.s.w, two.s.w, ARGOCD);
      if two.gone {
        var three := ReleaseGone(site, two.s, RELOADER);
        LookRelies(site, two.s);
        RelyTrans(site, s.w, two.s.w, three.s.w);
        GoneStays(site, two.s.w, three.s.w, ARGOCD);
        if three.gone {
          var four := RepoGone(site, three.s, RELOADER);
          LookRelies(site, three.s);
          RelyTrans(site, s.w, three.s.w, four.s.w);
          GoneStays(site, three.s.w, four.s.w, ARGOCD);
          GoneStays(site, three.s.w, four.s.w, RELOADER);
        }
      }
    }
  }

  // ---------------------------------------------------------------- invariants through a pass

  lemma MarksStay(site: Site, a: World, b: World, name: string)
    requires Rely(site, a, b) && (name == ARGOCD || name == RELOADER)
    ensures ReleaseLeaving(site, a, name) ==> ReleaseLeaving(site, b, name)
    ensures RepoLeaving(site, a, name) ==> RepoLeaving(site, b, name)
  {
    assert OurRef(site, Ref(site.tenant, name));
  }

  /** The release first, and if that was acknowledged the repository. */
  lemma PairKeeps(cfg: Config, s: Sys, name: string, inv: World -> bool)
    requires Guarded(cfg.site, s, inv) && DeleteKeeps(cfg, inv) && (name == ARGOCD || name == RELOADER)
    ensures var one := Do(cfg.site, s, DeleteRelease(name));
      && Guarded(cfg.site, one.s, inv) && (Still(s.ticks) ==> Still(one.s.ticks))
      && (one.a == Done ==>
            && ReleaseLeaving(cfg.site, one.s.w, name)
            && Guarded(cfg.site, Do(cfg.site, one.s, DeleteRepo(name)).s, inv)
            && (Still(s.ticks) ==> Still(Do(cfg.site, one.s, DeleteRepo(name)).s.ticks)))
  {
    DoKeeps(cfg.site, s, DeleteRelease(name), inv);
    var one := Do(cfg.site, s, DeleteRelease(name));
    if one.a == Done {
      DoMarks(cfg.site, s, DeleteRelease(name));
      forall w | inv(w) && Rely(cfg.site, one.s.w, w) ensures inv(Apply(cfg.site, w, DeleteRepo(name))) {
        MarksStay(cfg.site, one.s.w, w, name);
        assert DeleteOp(cfg, w, DeleteRepo(name));
      }
      DoKeeps(cfg.site, one.s, DeleteRepo(name), inv);
    }
  }

  predicate ArgoMarked(site: Site, w: World) {
    ReleaseLeaving(site, w, ARGOCD) && RepoLeaving(site, w, ARGOCD)
  }

  lemma MarkedPruneKeeps(cfg: Config, s: Sys, st: Stamp, inv: World -> bool)
    requires Guarded(cfg.site, s, inv) && DeleteKeeps(cfg, inv) && ArgoMarked(cfg.site, s.w) && !st.CaBundle?
    ensures var e := Prune(cfg.site, s, st, []).s;
      Guarded(cfg.site, e, inv) && ArgoMarked(cfg.site, e.w) && (Still(s.ticks) ==> Still(e.ticks))
  {
    var both := (w: World) => inv(w) && ArgoMarked(cfg.site, w);
    forall a, b | RelyClosed(cfg.site, inv) && both(a) && Rely(cfg.site, a, b) ensures both(b) {
      MarksStay(cfg.site, a, b, ARGOCD);
    }
    forall w, n | both(w) && Has(cfg.site, w, st, n) ensures both(Apply(cfg.site, w, DeleteSecret(st, n))) {
      assert DeleteOp(cfg, w, DeleteSecret(st, n));
    }
    PruneKeeps(cfg.site, s, st, [], both);
  }

  lemma RemoveReloaderKeeps(cfg: Config, s: Sys, inv: World -> bool)
    requires Guarded(cfg.site, s, inv) && DeleteKeeps(cfg, inv)
    ensures inv(RemoveReloader(cfg.site, s).s.w)
    ensures Still(s.ticks) ==> Still(RemoveReloader(cfg.site, s).s.ticks)
  {
    PairKeeps(cfg, s, RELOADER, inv);
  }

  lemma UninstallKeeps(cfg: Config, s: Sys, inv: World -> bool)
    requires Guarded(cfg.site, s, inv) && DeleteKeeps(cfg, inv)
    ensures inv(Uninstall(cfg, s).s.w)
    ensures Still(s.ticks) ==> Still(Uninstall(cfg, s).s.ticks)
  {
    var site := cfg.site;
    PairKeeps(cfg, s, ARGOCD, inv);
    var release := Do(site, s, DeleteRelease(ARGOCD));
    var repo := Do(site, release.s, DeleteRepo(ARGOCD));
    if release.a == Done && repo.a == Done {
      DoMarks(site, release.s, DeleteRepo(ARGOCD));
      LeavingKept(site, release.s, DeleteRepo(ARGOCD), ARGOCD);
      SecretsThenReloader(cfg, repo.s, inv);
    }
  }

  lemma SecretsThenReloader(cfg: Config, s: Sys, inv: World -> bool)
    requires Guarded(cfg.site, s, inv) && DeleteKeeps(cfg, inv) && ArgoMarked(cfg.site, s.w)
    ensures var images := Prune(cfg.site, s, ImagePull, []);
            var charts := Prune(cfg.site, images.s, ChartPull, []);
            var last := if images.a != Done then images else if charts.a != Done then charts
                        else RemoveReloader(cfg.site, charts.s);
      inv(last.s.w) && (Still(s.ticks) ==> Still(last.s.ticks))
  {
    MarkedPruneKeeps(cfg, s, ImagePull, inv);
    var images := Prune(cfg.site, s, ImagePull, []);
    MarkedPruneKeeps(cfg, images.s, ChartPull, inv);
    RemoveReloaderKeeps(cfg, Prune(cfg.site, images.s, ChartPull, []).s, inv);
  }

  lemma RemoveCaKeeps(cfg: Config, s: Sys, inv: World -> bool)
    requires FluxGone(cfg.site, s.w) && inv(s.w) && RelyClosed(cfg.site, inv) && DeleteKeeps(cfg, inv)
    ensures inv(RemoveCa(cfg, s).s.w)
  {
    var site := cfg.site;
    var both := (w: World) => inv(w) && FluxGone(site, w);
    if cfg.caBundle == "" {
      forall w, n | both(w) && Has(site, w, CaBundle, n) ensures both(Apply(site, w, DeleteSecret(CaBundle, n))) {
        assert DeleteOp(cfg, w, DeleteSecret(CaBundle, n));
      }
      PruneKeeps(site, s, CaBundle, [], both);
    } else {
      var op := DeleteSecret(CaBundle, cfg.caBundle);
      forall w | both(w) ensures both(Apply(site, w, op)) {
        assert DeleteOp(cfg, w, op);
      }
      DoKeeps(site, s, op, both);
    }
  }

  /** Induction over Delete passes: what survives the steps of others and each write that DeleteOp
      permits holds after every pass, hence in every intermediate state. */
  lemma DeleteRespects(cfg: Config, s: Sys, inv: World -> bool)
    requires inv(s.w) && RelyClosed(cfg.site, inv) && DeleteKeeps(cfg, inv)
    ensures inv(Delete(cfg, s).s.w)
  {
    CountOnlyReads(cfg.site, s);
    var counted := CountUser(cfg.site, s);
    if counted.a == Done && counted.n == 0 {
      UninstallKeeps(cfg, counted.s, inv);
      var uninstalled := Uninstall(cfg, counted.s);
      if uninstalled.a == Done {
        CheckedTogether(cfg, uninstalled.s);
        var checked := IsUninstalled(cfg, uninstalled.s);
        if checked.gone {
          RemoveCaKeeps(cfg, checked.s, inv);
        }
      }
    }
  }

  // ---------------------------------------------------------------- the order of deletion

  /** The repository is there, not told to go, or its release was told before it. */
  predicate InOrder(site: Site, w: World, name: string) {
    ReleaseLeaving(site, w, name) || (Ref(site.tenant, name) in w.repos && !RepoLeaving(site, w, name))
  }

  lemma OrderStep(cfg: Config, w: World, op: Op, name: string)
    requires InOrder(cfg.site, w, name) && DeleteOp(cfg, w, op) && (name == ARGOCD || name == RELOADER)
    ensures InOrder(cfg.site, Apply(cfg.site, w, op), name)
  {
  }

  /** The release goes first: as long as it was not told to go, its repository is left alone. */
  lemma ReleaseGoesFirst(cfg: Config, s: Sys, name: string)
    requires (name == ARGOCD || name == RELOADER) && InOrder(cfg.site, s.w, name)
    ensures InOrder(cfg.site, Delete(cfg, s).s.w, name)
  {
    var inv := (w: World) => InOrder(cfg.site, w, name);
    forall a, b | inv(a) && Rely(cfg.site, a, b) ensures inv(b) {
      MarksStay(cfg.site, a, b, name);
      assert OurRef(cfg.site, Ref(cfg.site.tenant, name));
    }
    forall w, op | inv(w) && DeleteOp(cfg, w, op) ensures inv(Apply(cfg.site, w, op)) {
      OrderStep(cfg, w, op, name);
    }
    DeleteRespects(cfg, s, inv);
  }

  lemma LaterStep(cfg: Config, w: World, op: Op, st: Stamp, n: string)
    requires DeleteOp(cfg, w, op) && !st.CaBundle?
    requires ArgoMarked(cfg.site, w) || Has(cfg.site, w, st, n)
    ensures ArgoMarked(cfg.site, Apply(cfg.site, w, op)) || Has(cfg.site, Apply(cfg.site, w, op), st, n)
  {
  }

  /** The pull secrets go later: as long as Argo CD's two objects were not both told to go, no replica
      is taken away. */
  lemma PullSecretsGoLater(cfg: Config, s: Sys, st: Stamp, n: string)
    requires !st.CaBundle? && Has(cfg.site, s.w, st, n)
    ensures ArgoMarked(cfg.site, Delete(cfg, s).s.w) || Has(cfg.site, Delete(cfg, s).s.w, st, n)
  {
    var inv := (w: World) => ArgoMarked(cfg.site, w) || Has(cfg.site, w, st, n);
    forall a, b | inv(a) && Rely(cfg.site, a, b) ensures inv(b) {
      MarksStay(cfg.site, a, b, ARGOCD);
      RelyHas(cfg.site, a, b, st, n);
    }
    forall w, op | inv(w) && DeleteOp(cfg, w, op) ensures inv(Apply(cfg.site, w, op)) {
      LaterStep(cfg, w, op, st, n);
    }
    DeleteRespects(cfg, s, inv);
  }

  // ---------------------------------------------------------------- CA retention

  /** A repository that still exists and names a CA copy finds it: the copy is there, and it is not
      a chart pull secret at the same time. */
  predicate CaRetained(site: Site, w: World) {
    CaFound(site, w, ARGOCD) && CaFound(site, w, RELOADER)
  }

  predicate CaFound(site: Site, w: World, name: string) {
    Ref(site.tenant, name) in w.repos ==>
      var spec := w.repos[Ref(site.tenant, name)].spec;
      spec.certSecretRef.Some? ==>
        Has(site, w, CaBundle, spec.certSecretRef.value) && !Has(site, w, ChartPull, spec.certSecretRef.value)
  }

  lemma CaFoundStep(cfg: Config, w: World, op: Op, name: string)
    requires CaFound(cfg.site, w, name) && DeleteOp(cfg, w, op) && (name == ARGOCD || name == RELOADER)
    ensures CaFound(cfg.site, Apply(cfg.site, w, op), name)
  {
  }

  lemma CaRetainedStep(cfg: Config, w: World, op: Op)
    requires CaRetained(cfg.site, w) && DeleteOp(cfg, w, op)
    ensures CaRetained(cfg.site, Apply(cfg.site, w, op))
  {
    CaFoundStep(cfg, w, op, ARGOCD);
    CaFoundStep(cfg, w, op, RELOADER);
  }

  lemma CaFoundRely(site: Site, a: World, b: World, name: string)
    requires CaFound(site, a, name) && Rely(site, a, b) && (name == ARGOCD || name == RELOADER)
    ensures CaFound(site, b, name)
  {
    var r := Ref(site.tenant, name);
    if r in b.repos && b.repos[r].spec.certSecretRef.Some? {
      assert OurRef(site, r) && r in a.repos && a.repos[r].spec == b.repos[r].spec;
      RelyHas(site, a, b, CaBundle, b.repos[r].spec.certSecretRef.value);
      RelyHas(site, a, b, ChartPull, b.repos[r].spec.certSecretRef.value);
    }
  }

  lemma CaRetainedRely(site: Site, a: World, b: World)
    requires CaRetained(site, a) && Rely(site, a, b)
    ensures CaRetained(site, b)
  {
    CaFoundRely(site, a, b, ARGOCD);
    CaFoundRely(site, a, b, RELOADER);
  }

  /** CA retention over every run of deletion: failing and cut-off passes, and any change of the
      provider configuration between them. */
  lemma {:induction false} CaRetainedThroughout(site: Site, w: World, attempts: seq<Attempt>)
    requires CaRetained(site, w) && forall a | a in attempts :: a.cfg.site == site
    ensures CaRetained(site, RunDeletes(w, attempts))
    decreases |attempts|
  {
    if attempts == [] {
    } else {
      var cfg, s := attempts[0].cfg, Sys(w, attempts[0].ticks);
      var inv := (x: World) => CaRetained(site, x);
      forall a, b | inv(a) && Rely(site, a, b) ensures inv(b) {
        CaRetainedRely(site, a, b);
      }
      forall x, op | inv(x) && DeleteOp(cfg, x, op) ensures inv(Apply(cfg.site, x, op)) {
        CaRetainedStep(cfg, x, op);
      }
      assert cfg.site == site;
      DeleteRespects(cfg, s, inv);
      CaRetainedThroughout(site, Delete(cfg, s).s.w, attempts[1..]);
    }
  }

  // ---------------------------------------------------------------- completeness

  ghost predicate NoReplica(site: Site, w: World, st: Stamp) {
    forall n :: !Has(site, w, st, n)
  }

  lemma NoReplicaStays(site: Site, st: Stamp)
    ensures RelyClosed(site, (w: World) => NoReplica(site, w, st))
    ensures forall cfg: Config, w, op | cfg.site == site && NoReplica(site, w, st) && DeleteOp(cfg, w, op) ::
              NoReplica(site, Apply(site, w, op), st)
  {
    forall a, b | NoReplica(site, a, st) && Rely(site, a, b) ensures NoReplica(site, b, st) {
      forall n ensures !Has(site, b, st, n) {
        RelyHas(site, a, b, st, n);
      }
    }
    forall cfg: Config, w, op | cfg.site == site && NoReplica(site, w, st) && DeleteOp(cfg, w, op)
      ensures NoReplica(site, Apply(site, w, op), st)
    {
      forall n ensures !Has(site, Apply(site, w, op), st, n) {
        assert !Has(site, w, st, n);
      }
    }
  }

  lemma UninstallEmpties(cfg: Config, s: Sys)
    requires Uninstall(cfg, s).a == Done
    ensures NoReplica(cfg.site, Uninstall(cfg, s).s.w, ImagePull)
    ensures NoReplica(cfg.site, Uninstall(cfg, s).s.w, ChartPull)
  {
    var site := cfg.site;
    var repo := Do(site, Do(site, s, DeleteRelease(ARGOCD)).s, DeleteRepo(ARGOCD));
    var images := Prune(site, repo.s, ImagePull, []);
    var charts := Prune(site, images.s, ChartPull, []);
    forall n ensures !Has(site, images.s.w, ImagePull, n) && !Has(site, charts.s.w, ChartPull, n) {
      PruneLeaves(site, repo.s, ImagePull, [], n);
      PruneLeaves(site, images.s, ChartPull, [], n);
    }
    NoReplicaStays(site, ImagePull);
    NoReplicaStays(site, ChartPull);
    var noImages := (w: World) => NoReplica(site, w, ImagePull);
    var noCharts := (w: World) => NoReplica(site, w, ChartPull);
    forall w, n | noImages(w) && Has(site, w, ChartPull, n)
      ensures noImages(Apply(site, w, DeleteSecret(ChartPull, n)))
    {
      forall m ensures !Has(site, Apply(site, w, DeleteSecret(ChartPull, n)), ImagePull, m) {
        assert !Has(site, w, ImagePull, m);
      }
    }
    PruneKeeps(site, images.s, ChartPull, [], noImages);
    RemoveReloaderKeeps(cfg, charts.s, noImages);
    RemoveReloaderKeeps(cfg, charts.s, noCharts);
  }

  /** The CA copy of this configuration is gone: under its name, or wherever one is marked. */
  ghost predicate CaGone(cfg: Config, w: World) {
    if cfg.caBundle != "" then Place(cfg.site, CaBundle, cfg.caBundle) !in w.secrets
    else NoReplica(cfg.site, w, CaBundle)
  }

  /** Where a pass is after the guard, after Uninstall, and after the check. */
  function Started(cfg: Config, s: Sys): Sys {
    CountUser(cfg.site, s).s
  }

  function Uninstalled(cfg: Config, s: Sys): Sys {
    Uninstall(cfg, Started(cfg, s)).s
  }

  function CheckedAt(cfg: Config, s: Sys): Sys {
    IsUninstalled(cfg, Uninstalled(cfg, s)).s
  }

  lemma PastGuard(cfg: Config, s: Sys)
    requires Delete(cfg, s).end == Complete || Delete(cfg, s).end == Waiting
    ensures Delete(cfg, s) == Remove(cfg, Started(cfg, s))
  {
  }

  lemma RemoveCompletes(cfg: Config, s: Sys)
    requires Remove(cfg, s).end == Complete
    ensures var u := Uninstall(cfg, s);
            var c := IsUninstalled(cfg, u.s);
      u.a == Done && c.gone && RemoveCa(cfg, c.s).a == Done && Remove(cfg, s).s == RemoveCa(cfg, c.s).s
  {
  }

  lemma CompleteParts(cfg: Config, s: Sys)
    requires Delete(cfg, s).end == Complete
    ensures Uninstall(cfg, Started(cfg, s)).a == Done && IsUninstalled(cfg, Uninstalled(cfg, s)).gone
    ensures RemoveCa(cfg, CheckedAt(cfg, s)).a == Done && Delete(cfg, s).s == RemoveCa(cfg, CheckedAt(cfg, s)).s
  {
    PastGuard(cfg, s);
    RemoveCompletes(cfg, Started(cfg, s));
  }

  lemma RemoveWaits(cfg: Config, s: Sys)
    requires Remove(cfg, s).end == Waiting
    ensures var u := Uninstall(cfg, s);
            var c := IsUninstalled(cfg, u.s);
      u.a == Done && c.a == Done && !c.gone && Remove(cfg, s).s == c.s
  {
  }

  lemma WaitingParts(cfg: Config, s: Sys)
    requires Delete(cfg, s).end == Waiting
    ensures Uninstall(cfg, Started(cfg, s)).a == Done && Delete(cfg, s).s == CheckedAt(cfg, s)
    ensures IsUninstalled(cfg, Uninstalled(cfg, s)).a == Done && !IsUninstalled(cfg, Uninstalled(cfg, s)).gone
  {
    PastGuard(cfg, s);
    RemoveWaits(cfg, Started(cfg, s));
  }

  lemma RemoveCaGives(cfg: Config, s: Sys)
    requires RemoveCa(cfg, s).a == Done
    ensures CaGone(cfg, RemoveCa(cfg, s).s.w)
  {
    if cfg.caBundle == "" {
      forall n ensures !Has(cfg.site, RemoveCa(cfg, s).s.w, CaBundle, n) {
        PruneLeaves(cfg.site, s, CaBundle, [], n);
      }
    }
  }

  lemma RemoveCaSpares(cfg: Config, s: Sys, st: Stamp)
    requires FluxGone(cfg.site, s.w) && NoReplica(cfg.site, s.w, st)
    ensures FluxGone(cfg.site, RemoveCa(cfg, s).s.w) && NoReplica(cfg.site, RemoveCa(cfg, s).s.w, st)
  {
    NoReplicaStays(cfg.site, st);
    RemoveCaKeeps(cfg, s, (w: World) => NoReplica(cfg.site, w, st));
    RemoveCaKeeps(cfg, s, (w: World) => FluxGone(cfg.site, w));
  }

  lemma NoReplicaRely(site: Site, a: World, b: World, st: Stamp)
    requires NoReplica(site, a, st) && Rely(site, a, b)
    ensures NoReplica(site, b, st)
  {
    NoReplicaStays(site, st);
  }

  /** A pass that returns done leaves nothing behind: all four Flux objects are gone together,
      no pull secret replica remains on either cluster, and the configured CA copy is gone. */
  lemma CompleteMeansGone(cfg: Config, s: Sys)
    requires Delete(cfg, s).end == Complete
    ensures var end := Delete(cfg, s).s.w;
      && FluxGone(cfg.site, end)
      && NoReplica(cfg.site, end, ImagePull) && NoReplica(cfg.site, end, ChartPull)
      && CaGone(cfg, end)
  {
    CompleteParts(cfg, s);
    var u, c := Uninstalled(cfg, s), CheckedAt(cfg, s);
    UninstallEmpties(cfg, Started(cfg, s));
    CheckedTogether(cfg, u);
    NoReplicaRely(cfg.site, u.w, c.w, ImagePull);
    NoReplicaRely(cfg.site, u.w, c.w, ChartPull);
    RemoveCaSpares(cfg, c, ImagePull);
    RemoveCaSpares(cfg, c, ChartPull);
    RemoveCaGives(cfg, c);
  }

  /** The first three calls from s on are served, and the states they meet have no Application, no
      ApplicationSet, and no AppProject but Argo CD's own, in that order. */
  ghost predicate SawNothing(site: Site, s: Sys) {
    var apps := Look(site, s);
    var sets := Look(site, apps.s);
    var projects := Look(site, sets.s);
    && apps.a == Done && Items(apps.s.w.mcp.applications) == []
    && sets.a == Done && Items(sets.s.w.mcp.applicationSets) == []
    && projects.a == Done
    && (forall p | p in Items(projects.s.w.mcp.appProjects) :: p == Ref(site.mcpNs, DEFAULT_PROJECT))
  }

  /** The guard lets a pass through exactly when its first three calls saw no user resource. */
  lemma GuardSawNothing(site: Site, s: Sys)
    ensures CountUser(site, s).a == Done && CountUser(site, s).n == 0 <==> SawNothing(site, s)
    ensures SawNothing(site, s) ==> CountUser(site, s).s == AfterReads(site, s, 3)
  {
    var sets := Look(site, Look(site, s).s);
    CountProjectsZero(site, Items(Look(site, sets.s).s.w.mcp.appProjects));
    assert AfterReads(site, s, 3) == AfterReads(site, Look(site, s).s, 2) == AfterReads(site, sets.s, 1)
        == AfterReads(site, Look(site, sets.s).s, 0);
  }

  lemma CountIsReading(site: Site, s: Sys)
    ensures OnlyRead(site, s, CountUser(site, s).s)
  {
    var one := Look(site, s).s;
    var two := Look(site, one).s;
    assert AfterReads(site, s, 1) == AfterReads(site, one, 0);
    assert AfterReads(site, s, 2) == AfterReads(site, one, 1) == AfterReads(site, two, 0);
    assert AfterReads(site, s, 3) == AfterReads(site, one, 2) == AfterReads(site, two, 1)
        == AfterReads(site, Look(site, two).s, 0);
  }

  /** A pass, complete, failed or cut off, that did not see three empty lists with its first calls
      has only read; one that did has written nothing by then. */
  lemma GuardedOrNothing(cfg: Config, s: Sys)
    ensures if SawNothing(cfg.site, s) then Delete(cfg, s) == Remove(cfg, AfterReads(cfg.site, s, 3))
            else OnlyRead(cfg.site, s, Delete(cfg, s).s)
  {
    GuardSawNothing(cfg.site, s);
    CountIsReading(cfg.site, s);
  }

  /** A blocked pass writes nothing, nor does one that fails at the guard. */
  lemma BlockedWritesNothing(cfg: Config, s: Sys)
    requires Delete(cfg, s).end == Blocked || CountUser(cfg.site, s).a != Done
    ensures OnlyRead(cfg.site, s, Delete(cfg, s).s)
    ensures Still(s.ticks) ==> Delete(cfg, s).s.w == s.w
  {
    CountIsReading(cfg.site, s);
    RemoveNeverBlocks(cfg, CountUser(cfg.site, s).s);
    var k: nat :| CountUser(cfg.site, s).s == AfterReads(cfg.site, s, k);
    if Still(s.ticks) {
      OnlyReadAlone(cfg.site, s, k);
    }
  }

  lemma RemoveNeverBlocks(cfg: Config, s: Sys)
    ensures Remove(cfg, s).end != Blocked
  {
  }

  // ---------------------------------------------------------------- CA copies left behind

  /** CA copies of earlier configurations: after a completed teardown none is left exactly when no
      CA bundle is configured now, or every copy there was carries the configured name. */
  lemma CaOrphansIff(cfg: Config, s: Sys)
    requires Delete(cfg, s).end == Complete
    requires forall n :: !(Has(cfg.site, s.w, ChartPull, n) && Has(cfg.site, s.w, CaBundle, n))
    ensures NoReplica(cfg.site, Delete(cfg, s).s.w, CaBundle)
       <==> cfg.caBundle == "" || forall n :: Has(cfg.site, s.w, CaBundle, n) ==> n == cfg.caBundle
  {
    CompleteMeansGone(cfg, s);
    if cfg.caBundle != "" {
      OrphansAreOthers(cfg, s);
    }
  }

  lemma OrphansAreOthers(cfg: Config, s: Sys)
    requires cfg.caBundle != "" && CaGone(cfg, Delete(cfg, s).s.w)
    requires forall n :: !(Has(cfg.site, s.w, ChartPull, n) && Has(cfg.site, s.w, CaBundle, n))
    ensures forall n :: Has(cfg.site, Delete(cfg, s).s.w, CaBundle, n)
                        <==> n != cfg.caBundle && Has(cfg.site, s.w, CaBundle, n)
  {
    forall n ensures Has(cfg.site, Delete(cfg, s).s.w, CaBundle, n)
                     <==> n != cfg.caBundle && Has(cfg.site, s.w, CaBundle, n)
    {
      if n != cfg.caBundle {
        OtherCaUntouched(cfg, s, n);
      }
    }
  }

  lemma OtherCaUntouched(cfg: Config, s: Sys, n: string)
    requires cfg.caBundle != "" && n != cfg.caBundle
    requires !(Has(cfg.site, s.w, ChartPull, n) && Has(cfg.site, s.w, CaBundle, n))
    ensures Has(cfg.site, Delete(cfg, s).s.w, CaBundle, n) <==> Has(cfg.site, s.w, CaBundle, n)
  {
    var site := cfg.site;
    var there := Has(site, s.w, CaBundle, n);
    var inv := (w: World) => Has(site, w, CaBundle, n) == there && !(there && Has(site, w, ChartPull, n));
    forall a, b | inv(a) && Rely(site, a, b) ensures inv(b) {
      RelyHas(site, a, b, CaBundle, n);
      RelyHas(site, a, b, ChartPull, n);
    }
    DeleteRespects(cfg, s, inv);
  }

  // ---------------------------------------------------------------- progress

  function Present(b: bool): nat {
    if b then 1 else 0
  }

  /** How many of the four Flux objects are left. */
  function FluxCount(site: Site, w: World): nat {
    var a, r := Ref(site.tenant, ARGOCD), Ref(site.tenant, RELOADER);
    Present(a in w.releases) + Present(a in w.repos) + Present(r in w.releases) + Present(r in w.repos)
  }

  /** Every Flux object that is left is marked for removal. */
  predicate AllLeaving(site: Site, w: World) {
    && (forall r | r in w.repos && OurRef(site, r) :: w.repos[r].life.Leaving?)
    && (forall r | r in w.releases && OurRef(site, r) :: w.releases[r].life.Leaving?)
  }

  /** A finalizer of Flux at work: it removes some of our terminating objects. */
  predicate Finalizes(site: Site, a: World, b: World) {
    && Rely(site, a, b)
    && ((exists r | r in a.repos :: OurRef(site, r) && r !in b.repos)
        || (exists r | r in a.releases :: OurRef(site, r) && r !in b.releases))
  }

  lemma FinalizerLowers(site: Site, a: World, b: World)
    requires Finalizes(site, a, b)
    ensures FluxCount(site, b) < FluxCount(site, a)
  {
  }

  lemma CountStep(cfg: Config, w: World, op: Op)
    requires DeleteOp(cfg, w, op)
    ensures FluxCount(cfg.site, Apply(cfg.site, w, op)) <= FluxCount(cfg.site, w)
  {
  }

  lemma CountRely(site: Site, a: World, b: World)
    requires Rely(site, a, b)
    ensures FluxCount(site, b) <= FluxCount(site, a)
  {
    GoneStays(site, a, b, ARGOCD);
    GoneStays(site, a, b, RELOADER);
  }

  /** No pass raises the count, and others do not either. */
  lemma CountNeverRises(cfg: Config, s: Sys)
    ensures FluxCount(cfg.site, Delete(cfg, s).s.w) <= FluxCount(cfg.site, s.w)
  {
    var bound := FluxCount(cfg.site, s.w);
    var inv := (w: World) => FluxCount(cfg.site, w) <= bound;
    forall a, b | inv(a) && Rely(cfg.site, a, b) ensures inv(b) {
      CountRely(cfg.site, a, b);
    }
    forall w, op | inv(w) && DeleteOp(cfg, w, op) ensures inv(Apply(cfg.site, w, op)) {
      CountStep(cfg, w, op);
    }
    DeleteRespects(cfg, s, inv);
  }

  lemma DoMarks(site: Site, s: Sys, op: Op)
    requires op.DeleteRelease? || op.DeleteRepo?
    requires op.name == ARGOCD || op.name == RELOADER
    requires Do(site, s, op).a == Done
    ensures var w, r := Do(site, s, op).s.w, Ref(site.tenant, op.name);
      && (op.DeleteRelease? ==> r in w.releases ==> w.releases[r].life.Leaving?)
      && (op.DeleteRepo? ==> r in w.repos ==> w.repos[r].life.Leaving?)
  {
  }

  lemma UninstallMarksArgo(cfg: Config, s: Sys)
    requires Uninstall(cfg, s).a == Done
    ensures var site := cfg.site;
            var repo := Do(site, Do(site, s, DeleteRelease(ARGOCD)).s, DeleteRepo(ARGOCD));
            var charts := Prune(site, Prune(site, repo.s, ImagePull, []).s, ChartPull, []);
      && ReleaseLeaving(site, charts.s.w, ARGOCD) && RepoLeaving(site, charts.s.w, ARGOCD)
      && RemoveReloader(site, charts.s).a == Done && Uninstall(cfg, s) == RemoveReloader(site, charts.s)
  {
    var site := cfg.site;
    var release := Do(site, s, DeleteRelease(ARGOCD));
    var repo := Do(site, release.s, DeleteRepo(ARGOCD));
    DoMarks(site, s, DeleteRelease(ARGOCD));
    DoMarks(site, release.s, DeleteRepo(ARGOCD));
    LeavingKept(site, release.s, DeleteRepo(ARGOCD), ARGOCD);
    PruneLeavesMarks(site, repo.s, ImagePull);
    PruneLeavesMarks(site, Prune(site, repo.s, ImagePull, []).s, ChartPull);
  }

  lemma PruneLeavesMarks(site: Site, s: Sys, st: Stamp)
    requires ReleaseLeaving(site, s.w, ARGOCD) && RepoLeaving(site, s.w, ARGOCD)
    ensures ReleaseLeaving(site, Prune(site, s, st, []).s.w, ARGOCD)
    ensures RepoLeaving(site, Prune(site, s, st, []).s.w, ARGOCD)
  {
    PruneKeeps(site, s, st, [], (w: World) => ReleaseLeaving(site, w, ARGOCD) && RepoLeaving(site, w, ARGOCD));
  }

  lemma LeavingKept(site: Site, s: Sys, op: Op, name: string)
    requires op.DeleteRelease? || op.DeleteRepo?
    requires name == ARGOCD || name == RELOADER
    ensures ReleaseLeaving(site, s.w, name) ==> ReleaseLeaving(site, Do(site, s, op).s.w, name)
    ensures RepoLeaving(site, s.w, name) ==> RepoLeaving(site, Do(site, s, op).s.w, name)
  {
    if s.ticks != [] {
      var w := Arrive(site, s.w, s.ticks[0]);
      RelyRefl(site, s.w);
      LeavingRelied(site, s.w, w, name);
      LeavingApplied(site, w, op, name);
    }
  }

  lemma LeavingRelied(site: Site, a: World, b: World, name: string)
    requires Rely(site, a, b) && (name == ARGOCD || name == RELOADER)
    ensures ReleaseLeaving(site, a, name) ==> ReleaseLeaving(site, b, name)
    ensures RepoLeaving(site, a, name) ==> RepoLeaving(site, b, name)
  {
    assert OurRef(site, Ref(site.tenant, name));
  }

  lemma LeavingApplied(site: Site, w: World, op: Op, name: string)
    requires op.DeleteRelease? || op.DeleteRepo?
    ensures ReleaseLeaving(site, w, name) ==> ReleaseLeaving(site, Apply(site, w, op), name)
    ensures RepoLeaving(site, w, name) ==> RepoLeaving(site, Apply(site, w, op), name)
  {
  }

  lemma RemoveReloaderMarks(site: Site, s: Sys)
    requires RemoveReloader(site, s).a == Done
    requires ReleaseLeaving(site, s.w, ARGOCD) && RepoLeaving(site, s.w, ARGOCD)
    ensures AllLeaving(site, RemoveReloader(site, s).s.w)
  {
    var next := Do(site, s, DeleteRelease(RELOADER)).s;
    LeavingKept(site, s, DeleteRelease(RELOADER), ARGOCD);
    LeavingKept(site, next, DeleteRepo(RELOADER), ARGOCD);
    DoMarks(site, s, DeleteRelease(RELOADER));
    LeavingKept(site, next, DeleteRepo(RELOADER), RELOADER);
    DoMarks(site, next, DeleteRepo(RELOADER));
  }

  lemma UninstallMarksAll(cfg: Config, s: Sys)
    requires Uninstall(cfg, s).a == Done
    ensures AllLeaving(cfg.site, Uninstall(cfg, s).s.w)
  {
    var site := cfg.site;
    UninstallMarksArgo(cfg, s);
    var repo := Do(site, Do(site, s, DeleteRelease(ARGOCD)).s, DeleteRepo(ARGOCD));
    RemoveReloaderMarks(site, Prune(site, Prune(site, repo.s, ImagePull, []).s, ChartPull, []).s);
  }

  lemma GoneIsLeaving(site: Site, w: World)
    requires FluxGone(site, w)
    ensures AllLeaving(site, w)
  {
  }

  lemma LeavingStays(site: Site, a: World, b: World)
    requires AllLeaving(site, a) && Rely(site, a, b)
    ensures AllLeaving(site, b)
  {
  }

  /** A pass that neither fails nor is blocked marks every Flux object that is left at its end. */
  lemma WaitingMarksAll(cfg: Config, s: Sys)
    requires Delete(cfg, s).end == Waiting || Delete(cfg, s).end == Complete
    ensures AllLeaving(cfg.site, Delete(cfg, s).s.w)
  {
    if Delete(cfg, s).end == Complete {
      CompleteMeansGone(cfg, s);
      GoneIsLeaving(cfg.site, Delete(cfg, s).s.w);
    } else {
      WaitingParts(cfg, s);
      UninstallMarksAll(cfg, Started(cfg, s));
      CheckedTogether(cfg, Uninstalled(cfg, s));
      LeavingStays(cfg.site, Uninstalled(cfg, s).w, CheckedAt(cfg, s).w);
    }
  }

  /** A pass that begins with nothing left does not wait any more. */
  lemma GoneThenNoWaiting(cfg: Config, s: Sys)
    requires FluxGone(cfg.site, s.w)
    ensures Delete(cfg, s).end != Waiting
  {
    if Delete(cfg, s).end == Waiting {
      WaitingParts(cfg, s);
      var start := Started(cfg, s);
      CountOnlyReads(cfg.site, s);
      GoneStays(cfg.site, s.w, start.w, ARGOCD);
      GoneStays(cfg.site, s.w, start.w, RELOADER);
      UninstallStaysGone(cfg, start);
      StillGone(cfg, Uninstalled(cfg, s));
    }
  }

  lemma UninstallStaysGone(cfg: Config, s: Sys)
    requires FluxGone(cfg.site, s.w)
    ensures FluxGone(cfg.site, Uninstall(cfg, s).s.w)
  {
    UninstallKeeps(cfg, s, (w: World) => FluxGone(cfg.site, w));
  }

  lemma StillGone(cfg: Config, s: Sys)
    requires FluxGone(cfg.site, s.w)
    ensures IsUninstalled(cfg, s).a == Done ==> IsUninstalled(cfg, s).gone
  {
    var site := cfg.site;
    var one := Look(site, s).s;
    LookRelies(site, s);
    var two := Look(site, one).s;
    LookRelies(site, one);
    var three := Look(site, two).s;
    LookRelies(site, two);
    LookRelies(site, three);
    forall a, b | Rely(site, a, b) && FluxGone(site, a) ensures FluxGone(site, b) {
      GoneStays(site, a, b, ARGOCD);
      GoneStays(site, a, b, RELOADER);
    }
  }
}
