/** One Install in which no call fails leads from any stores to the same owned state, and a second
    one changes nothing. */
module Convergence {
  import opened Wrappers
  import opened JsonTrees
  import opened Certs
  import opened ValuesLaws
  import opened Cluster
  import opened Provision
  import opened Replication
  import opened InstallLaws

  // ---------------------------------------------------------------- the settled state

  /** The replica has the type and data of its source, and all labels it is given. */
  predicate CopyOf(site: Site, w: World, st: Stamp, n: string) {
    var r, m := Place(site, st, n), SecretsOf(w, st);
    && Ref(site.pod, n) in w.secrets && r in m
    && m[r].typ == w.secrets[Ref(site.pod, n)].typ
    && m[r].data == w.secrets[Ref(site.pod, n)].data
    && m[r].labels == Stamped(st, m[r].labels)
  }

  /** The replicas of a kind are exactly the requested names, each equal to its source. */
  ghost predicate Copies(site: Site, w: World, st: Stamp, names: seq<string>) {
    && (forall n | n in names :: CopyOf(site, w, st, n))
    && (forall n :: Has(site, w, st, n) ==> n in names)
    && (st.ImagePull? && names != [] ==> site.mcpNs in w.mcp.namespaces)
  }

  ghost predicate SettledCa(cfg: Config, w: World) {
    if cfg.caBundle != "" then CopyOf(cfg.site, w, CaBundle, cfg.caBundle)
    else forall n :: !Has(cfg.site, w, CaBundle, n)
  }

  predicate RepoIs(site: Site, w: World, name: string, owner: string, spec: RepoSpec) {
    var r := Ref(site.tenant, name);
    && r in w.repos && w.repos[r].spec == spec
    && w.repos[r].labels == w.repos[r].labels[MANAGED_BY := owner]
  }

  predicate ReleaseIs(site: Site, w: World, name: string, owner: string, spec: ReleaseSpec) {
    var r := Ref(site.tenant, name);
    && r in w.releases && w.releases[r].spec == spec
    && w.releases[r].labels == w.releases[r].labels[MANAGED_BY := owner]
  }

  predicate GoingAway(site: Site, w: World, name: string) {
    var r := Ref(site.tenant, name);
    (r in w.repos ==> w.repos[r].life.Leaving?) && (r in w.releases ==> w.releases[r].life.Leaving?)
  }

  predicate SettledReloader(cfg: Config, w: World) {
    if cfg.reloader.Some? then
      && RepoIs(cfg.site, w, RELOADER, BY_RELOADER, ReloaderRepo(cfg))
      && ReleaseIs(cfg.site, w, RELOADER, BY_RELOADER, ReloaderRelease(cfg))
    else GoingAway(cfg.site, w, RELOADER)
  }

  predicate SettledArgo(cfg: Config, v: Version, w: World) {
    && v.chartURL.Some?
    && RepoIs(cfg.site, w, ARGOCD, BY_ARGOCD, ArgoRepo(cfg, v))
    && InstallValues(cfg, v, CaIn(cfg, w)).Success?
    && ReleaseIs(cfg.site, w, ARGOCD, BY_ARGOCD, ArgoRelease(cfg, InstallValues(cfg, v, CaIn(cfg, w)).value))
  }

  ghost predicate SettledSecrets(cfg: Config, v: Version, w: World) {
    && PullNames(v.values).Success?
    && Copies(cfg.site, w, ImagePull, ImageNames(v))
    && Copies(cfg.site, w, ChartPull, ChartNames(v, cfg.reloader))
    && SettledCa(cfg, w)
  }

  /** The stores are as the version and the configuration ask, given the source secrets. */
  ghost predicate Settled(cfg: Config, v: Version, w: World) {
    SettledSecrets(cfg, v, w) && SettledArgo(cfg, v, w) && SettledReloader(cfg, w)
  }

  ghost predicate SameSources(site: Site, a: World, b: World) {
    forall n :: (Ref(site.pod, n) in a.secrets <==> Ref(site.pod, n) in b.secrets)
                && (Ref(site.pod, n) in a.secrets ==> a.secrets[Ref(site.pod, n)] == b.secrets[Ref(site.pod, n)])
  }

  // ---------------------------------------------------------------- quiet steps

  lemma QuietDo(site: Site, s: Sys, op: Op)
    requires Quiet(s.ticks) && Do(site, s, op).a == Done
    ensures Do(site, s, op).s.w == Apply(site, s.w, op) && Quiet(Do(site, s, op).s.ticks)
  {
  }

  lemma QuietLook(site: Site, s: Sys)
    requires Quiet(s.ticks)
    ensures Look(site, s).s.w == s.w && Quiet(Look(site, s).s.ticks)
  {
  }

  lemma OpSparesSources(site: Site, w: World, op: Op)
    requires site.pod != site.tenant
    ensures SameSources(site, w, Apply(site, w, op))
  {
  }

  /** Nothing but the replicas of one kind, and the MCP namespace that image pull secrets need,
      may differ. */
  predicate OnlyReplicas(st: Stamp, a: World, b: World) {
    && a.repos == b.repos && a.releases == b.releases
    && (if st.ImagePull? then a.secrets == b.secrets else a.mcp == b.mcp)
  }

  /** One quiet copy: its replica is a copy now, and copies of the kind stay copies. */
  lemma QuietCopy(site: Site, s: Sys, st: Stamp, name: string)
    requires site.pod != site.tenant && Quiet(s.ticks) && Copy(site, s, st, name).a == Done
    ensures var e := Copy(site, s, st, name).s;
      && Quiet(e.ticks) && SameSources(site, s.w, e.w) && OnlyReplicas(st, s.w, e.w)
      && (forall n :: n == name || CopyOf(site, s.w, st, n) ==> CopyOf(site, e.w, st, n))
      && (st.ImagePull? ==> site.mcpNs in e.w.mcp.namespaces)
  {
    QuietLook(site, s);
    var look := Look(site, s).s;
    var src := look.w.secrets[Ref(site.pod, name)];
    var next := look;
    if st.ImagePull? {
      QuietDo(site, look, CreateNamespace);
      next := Do(site, look, CreateNamespace).s;
    }
    var put := PutSecret(st, name, src.typ, src.data);
    QuietDo(site, next, put);
    OpSparesSources(site, next.w, put);
    var r, m := Place(site, st, name), SecretsOf(next.w, st);
    StampTwice(st, if r in m then m[r].labels else map[]);
  }

  lemma StampTwice(st: Stamp, labels: map<string, string>)
    ensures Stamped(st, Stamped(st, labels)) == Stamped(st, labels)
  {
  }

  lemma {:induction false} QuietCopyAll(site: Site, s: Sys, st: Stamp, names: seq<string>)
    requires site.pod != site.tenant && Quiet(s.ticks) && CopyAll(site, s, st, names).a == Done
    ensures var e := CopyAll(site, s, st, names).s;
      && Quiet(e.ticks) && SameSources(site, s.w, e.w) && OnlyReplicas(st, s.w, e.w)
      && (forall n :: n in names || CopyOf(site, s.w, st, n) ==> CopyOf(site, e.w, st, n))
      && (st.ImagePull? && (names != [] || site.mcpNs in s.w.mcp.namespaces) ==> site.mcpNs in e.w.mcp.namespaces)
    decreases |names|
  {
    if names == [] {
    } else {
      QuietCopy(site, s, st, names[0]);
      QuietCopyAll(site, Copy(site, s, st, names[0]).s, st, names[1..]);
    }
  }

  lemma {:induction false} QuietDeleteAll(site: Site, s: Sys, st: Stamp, listed: seq<string>, keep: seq<string>)
    requires site.pod != site.tenant && Quiet(s.ticks) && DeleteAll(site, s, st, listed, keep).a == Done
    ensures var e := DeleteAll(site, s, st, listed, keep).s;
      && Quiet(e.ticks) && SameSources(site, s.w, e.w) && OnlyReplicas(st, s.w, e.w)
      && e.w.mcp.namespaces == s.w.mcp.namespaces
      && (forall r :: r in SecretsOf(e.w, st) ==>
            r in SecretsOf(s.w, st) && SecretsOf(e.w, st)[r] == SecretsOf(s.w, st)[r])
      && (forall r :: r in SecretsOf(s.w, st) && (r.name !in listed || r.name in keep) ==> r in SecretsOf(e.w, st))
    decreases |listed|
  {
    if listed == [] {
    } else {
      if listed[0] in keep {
        QuietDeleteAll(site, s, st, listed[1..], keep);
      } else {
        QuietDo(site, s, DeleteSecret(st, listed[0]));
        OpSparesSources(site, s.w, DeleteSecret(st, listed[0]));
        QuietDeleteAll(site, Do(site, s, DeleteSecret(st, listed[0])).s, st, listed[1..], keep);
      }
    }
  }

  /** A quiet prune deletes marked names that are not to be kept, and changes nothing else. */
  lemma QuietPrune(site: Site, s: Sys, st: Stamp, keep: seq<string>)
    requires site.pod != site.tenant && Quiet(s.ticks) && Prune(site, s, st, keep).a == Done
    ensures var e := Prune(site, s, st, keep).s;
      && Quiet(e.ticks) && SameSources(site, s.w, e.w) && OnlyReplicas(st, s.w, e.w)
      && e.w.mcp.namespaces == s.w.mcp.namespaces
      && (forall r :: r in SecretsOf(e.w, st) ==>
            r in SecretsOf(s.w, st) && SecretsOf(e.w, st)[r] == SecretsOf(s.w, st)[r])
      && (forall r :: r in SecretsOf(s.w, st) && (!Has(site, s.w, st, r.name) || r.name in keep) ==>
            r in SecretsOf(e.w, st))
  {
    QuietLook(site, s);
    var list := ListMarked(site, s, st);
    QuietDeleteAll(site, list.s, st, list.names, keep);
  }

  lemma QuietReconcile(site: Site, s: Sys, st: Stamp, names: seq<string>)
    requires site.pod != site.tenant && Quiet(s.ticks) && Reconcile(site, s, st, names).a == Done
    ensures var e := Reconcile(site, s, st, names).s;
      && Quiet(e.ticks) && SameSources(site, s.w, e.w) && OnlyReplicas(st, s.w, e.w)
      && Copies(site, e.w, st, names)
  {
    QuietCopyAll(site, s, st, names);
    var copied := CopyAll(site, s, st, names).s;
    QuietPrune(site, copied, st, names);
    ReconcileExact(site, s, st, names);
    var e := Reconcile(site, s, st, names).s;
    forall n | n in names ensures CopyOf(site, e.w, st, n) {
      assert CopyOf(site, copied.w, st, n);
      assert Place(site, st, n).name in names;
    }
  }

  lemma QuietCa(cfg: Config, v: Version, s: Sys)
    requires cfg.site.pod != cfg.site.tenant && Quiet(s.ticks) && ReconcileCa(cfg, s).a == Done
    requires Apart(cfg, v, s.w) && Copies(cfg.site, s.w, ChartPull, ChartNames(v, cfg.reloader))
    ensures var e := ReconcileCa(cfg, s).s;
      && Quiet(e.ticks) && SameSources(cfg.site, s.w, e.w) && OnlyReplicas(CaBundle, s.w, e.w)
      && SettledCa(cfg, e.w) && ReconcileCa(cfg, s).ca == CaIn(cfg, e.w)
      && Copies(cfg.site, e.w, ChartPull, ChartNames(v, cfg.reloader))
  {
    var site, charts := cfg.site, ChartNames(v, cfg.reloader);
    ReconcileCaGives(cfg, s);
    var e := ReconcileCa(cfg, s).s;
    if cfg.caBundle == "" {
      QuietPrune(site, s, CaBundle, []);
      forall n | n in charts ensures CopyOf(site, e.w, ChartPull, n) {
        assert Place(site, ChartPull, n) in SecretsOf(s.w, CaBundle) && !Has(site, s.w, CaBundle, n);
      }
    } else {
      QuietLook(site, s);
      var look := Look(site, s).s;
      var src := look.w.secrets[Ref(site.pod, cfg.caBundle)];
      var put := PutSecret(CaBundle, cfg.caBundle, src.typ, src.data);
      QuietDo(site, look, put);
      OpSparesSources(site, s.w, put);
      var r := Place(site, CaBundle, cfg.caBundle);
      StampTwice(CaBundle, if r in s.w.secrets then s.w.secrets[r].labels else map[]);
      forall n | n in charts ensures CopyOf(site, e.w, ChartPull, n) {
        assert n != cfg.caBundle;
      }
    }
    forall n | Has(site, e.w, ChartPull, n) ensures n in charts {
      assert Has(site, s.w, ChartPull, n);
    }
  }

  lemma QuietPrepare(cfg: Config, v: Version, s: Sys)
    requires cfg.site.pod != cfg.site.tenant && Apart(cfg, v, s.w)
    requires Quiet(s.ticks) && Prepare(cfg, v, s).a == Done
    ensures var e := Prepare(cfg, v, s);
      && Quiet(e.s.ticks) && SameSources(cfg.site, s.w, e.s.w)
      && SettledSecrets(cfg, v, e.s.w) && e.ca == CaIn(cfg, e.s.w)
  {
    var site, names, charts := cfg.site, ImageNames(v), ChartNames(v, cfg.reloader);
    var first := Reconcile(site, s, ImagePull, names);
    QuietReconcile(site, s, ImagePull, names);
    var second := Reconcile(site, first.s, ChartPull, charts);
    QuietReconcile(site, first.s, ChartPull, charts);
    ApartThrough(cfg, v, s);
    QuietCa(cfg, v, second.s);
    CopiesElsewhere(site, first.s.w, Prepare(cfg, v, s).s.w, names);
  }

  /** The hypothesis about names still holds when the CA bundle's turn comes. */
  lemma ApartThrough(cfg: Config, v: Version, s: Sys)
    requires Apart(cfg, v, s.w)
    ensures var images := Reconcile(cfg.site, s, ImagePull, ImageNames(v));
      Apart(cfg, v, Reconcile(cfg.site, images.s, ChartPull, ChartNames(v, cfg.reloader)).s.w)
  {
    var yes := (w: World) => true;
    WithApart(cfg, v, yes);
    var apart := (w: World) => yes(w) && Apart(cfg, v, w);
    ReconcileKeeps(cfg.site, s, ImagePull, ImageNames(v), apart);
    var images := Reconcile(cfg.site, s, ImagePull, ImageNames(v));
    ReconcileKeeps(cfg.site, images.s, ChartPull, ChartNames(v, cfg.reloader), apart);
  }

  lemma CopiesElsewhere(site: Site, a: World, b: World, names: seq<string>)
    requires Copies(site, a, ImagePull, names) && a.mcp == b.mcp && SameSources(site, a, b)
    ensures Copies(site, b, ImagePull, names)
  {
    forall n | n in names ensures CopyOf(site, b, ImagePull, n) {
      assert CopyOf(site, a, ImagePull, n);
    }
    assert forall n :: Has(site, b, ImagePull, n) ==> Has(site, a, ImagePull, n);
  }

  /** The Flux objects after quiet writes; the secrets are not touched any more. */
  lemma QuietFlux(cfg: Config, v: Version, s: Sys, addon: seq<Tick>)
    requires Quiet(s.ticks) && Quiet(addon) && v.chartURL.Some?
    requires Prepare(cfg, v, s).a == Done && Quiet(Prepare(cfg, v, s).s.ticks)
    requires Prepare(cfg, v, s).ca == CaIn(cfg, Prepare(cfg, v, s).s.w)
    requires Install(cfg, v, s, addon).a == Done
    ensures var p, e := Prepare(cfg, v, s).s.w, Install(cfg, v, s, addon).s.w;
      && e.secrets == p.secrets && e.mcp == p.mcp
      && SettledArgo(cfg, v, e) && SettledReloader(cfg, e)
  {
    var site, p := cfg.site, Prepare(cfg, v, s);
    var compiled := InstallValues(cfg, v, p.ca);
    QuietArgo(cfg, v, p.s, compiled);
    var applied := ApplyArgo(cfg, v, p.s, compiled);
    QuietReloader(cfg, Sys(applied.s.w, addon));
  }

  lemma LabelTwice(labels: map<string, string>, owner: string)
    ensures labels[MANAGED_BY := owner][MANAGED_BY := owner] == labels[MANAGED_BY := owner]
  {
  }

  lemma QuietArgo(cfg: Config, v: Version, s: Sys, compiled: Result<Option<Json>>)
    requires v.chartURL.Some? && Quiet(s.ticks) && ApplyArgo(cfg, v, s, compiled).a == Done
    ensures var e := ApplyArgo(cfg, v, s, compiled).s;
      && e.w.secrets == s.w.secrets && e.w.mcp == s.w.mcp && Quiet(e.ticks)
      && compiled.Success?
      && RepoIs(cfg.site, e.w, ARGOCD, BY_ARGOCD, ArgoRepo(cfg, v))
      && ReleaseIs(cfg.site, e.w, ARGOCD, BY_ARGOCD, ArgoRelease(cfg, compiled.value))
  {
    var put := PutRepo(ARGOCD, BY_ARGOCD, ArgoRepo(cfg, v));
    QuietDo(cfg.site, s, put);
    QuietDo(cfg.site, Do(cfg.site, s, put).s, PutRelease(ARGOCD, BY_ARGOCD, ArgoRelease(cfg, compiled.value)));
    PutRepoGives(cfg.site, s.w, ARGOCD, BY_ARGOCD, ArgoRepo(cfg, v));
    PutReleaseGives(cfg.site, Do(cfg.site, s, put).s.w, ARGOCD, BY_ARGOCD, ArgoRelease(cfg, compiled.value));
  }

  lemma PutRepoGives(site: Site, w: World, name: string, owner: string, spec: RepoSpec)
    ensures RepoIs(site, Apply(site, w, PutRepo(name, owner, spec)), name, owner, spec)
  {
    var r := Ref(site.tenant, name);
    LabelTwice(if r in w.repos then w.repos[r].labels else map[], owner);
  }

  lemma PutReleaseGives(site: Site, w: World, name: string, owner: string, spec: ReleaseSpec)
    ensures ReleaseIs(site, Apply(site, w, PutRelease(name, owner, spec)), name, owner, spec)
  {
    var r := Ref(site.tenant, name);
    LabelTwice(if r in w.releases then w.releases[r].labels else map[], owner);
  }

  /** Nothing but Reloader's objects differs. */
  ghost predicate OnlyReloader(site: Site, a: World, b: World) {
    && a.secrets == b.secrets && a.mcp == b.mcp
    && (forall r | r != Ref(site.tenant, RELOADER) ::
          && (r in a.repos <==> r in b.repos) && (r in a.repos ==> a.repos[r] == b.repos[r])
          && (r in a.releases <==> r in b.releases) && (r in a.releases ==> a.releases[r] == b.releases[r]))
  }

  lemma QuietReloader(cfg: Config, s: Sys)
    requires Quiet(s.ticks) && ReconcileReloader(cfg, s).a == Done
    ensures SettledReloader(cfg, ReconcileReloader(cfg, s).s.w)
    ensures OnlyReloader(cfg.site, s.w, ReconcileReloader(cfg, s).s.w)
  {
    if cfg.reloader.Some? {
      QuietReloaderOn(cfg, s);
    } else {
      QuietReloaderOff(cfg, s);
    }
  }

  /** Without failing calls both deletions are made, and nothing else. */
  lemma QuietReloaderOff(cfg: Config, s: Sys)
    requires cfg.reloader.None? && Quiet(s.ticks) && ReconcileReloader(cfg, s).a == Done
    ensures SettledReloader(cfg, ReconcileReloader(cfg, s).s.w)
    ensures OnlyReloader(cfg.site, s.w, ReconcileReloader(cfg, s).s.w)
  {
    var one := Apply(cfg.site, s.w, DeleteRelease(RELOADER));
    BothDeleted(cfg, s);
    DeleteReleaseGives(cfg.site, s.w);
    DeleteRepoGives(cfg.site, one);
  }

  lemma BothDeleted(cfg: Config, s: Sys)
    requires cfg.reloader.None? && Quiet(s.ticks) && ReconcileReloader(cfg, s).a == Done
    ensures ReconcileReloader(cfg, s).s.w
         == Apply(cfg.site, Apply(cfg.site, s.w, DeleteRelease(RELOADER)), DeleteRepo(RELOADER))
  {
  }

  lemma DeleteReleaseGives(site: Site, w: World)
    ensures var e := Apply(site, w, DeleteRelease(RELOADER));
      && OnlyReloader(site, w, e) && e.repos == w.repos
      && (Ref(site.tenant, RELOADER) in e.releases ==> e.releases[Ref(site.tenant, RELOADER)].life.Leaving?)
  {
  }

  lemma DeleteRepoGives(site: Site, w: World)
    ensures var e := Apply(site, w, DeleteRepo(RELOADER));
      && OnlyReloader(site, w, e) && e.releases == w.releases
      && (Ref(site.tenant, RELOADER) in e.repos ==> e.repos[Ref(site.tenant, RELOADER)].life.Leaving?)
  {
  }

  lemma QuietReloaderOn(cfg: Config, s: Sys)
    requires cfg.reloader.Some? && Quiet(s.ticks) && ReconcileReloader(cfg, s).a == Done
    ensures SettledReloader(cfg, ReconcileReloader(cfg, s).s.w)
    ensures OnlyReloader(cfg.site, s.w, ReconcileReloader(cfg, s).s.w)
  {
    PutRepoGives(cfg.site, s.w, RELOADER, BY_RELOADER, ReloaderRepo(cfg));
    var repo := Do(cfg.site, s, PutRepo(RELOADER, BY_RELOADER, ReloaderRepo(cfg)));
    PutReleaseGives(cfg.site, repo.s.w, RELOADER, BY_RELOADER, ReloaderRelease(cfg));
  }

  // ---------------------------------------------------------------- main results

  /** Convergence: from any stores, those a crashed Install left included, a run in which no call
      fails and that succeeds leaves everything it owns as asked, and leaves the sources alone. */
  lemma InstallSettles(cfg: Config, v: Version, s: Sys, addon: seq<Tick>)
    requires cfg.site.pod != cfg.site.tenant && Apart(cfg, v, s.w)
    requires Quiet(s.ticks) && Quiet(addon) && Install(cfg, v, s, addon).a == Done
    ensures Settled(cfg, v, Install(cfg, v, s, addon).s.w)
    ensures SameSources(cfg.site, s.w, Install(cfg, v, s, addon).s.w)
  {
    QuietPrepare(cfg, v, s);
    QuietFlux(cfg, v, s, addon);
    SecretsSettle(cfg, v, Prepare(cfg, v, s).s.w, Install(cfg, v, s, addon).s.w);
  }

  lemma SecretsSettle(cfg: Config, v: Version, a: World, b: World)
    requires SettledSecrets(cfg, v, a) && a.secrets == b.secrets && a.mcp == b.mcp
    ensures SettledSecrets(cfg, v, b)
  {
    forall st, n
      ensures Has(cfg.site, a, st, n) == Has(cfg.site, b, st, n)
      ensures CopyOf(cfg.site, a, st, n) == CopyOf(cfg.site, b, st, n)
    {
    }
  }

  // ---------------------------------------------------------------- history independence

  /** What matters of a replica, and of a Flux object: its content, not foreign labels. */
  datatype Content = Content(typ: string, data: map<string, Pem>)
  datatype Owner<T> = Owner(managedBy: Option<string>, spec: T)

  datatype Owned = Owned(
    images: map<string, Content>, charts: map<string, Content>, ca: map<string, Content>,
    argoRepo: Option<Owner<RepoSpec>>, argoRelease: Option<Owner<ReleaseSpec>>,
    reloaderRepo: Option<Owner<RepoSpec>>, reloaderRelease: Option<Owner<ReleaseSpec>>)

  function Contents(site: Site, w: World, st: Stamp, names: set<string>): map<string, Content>
    requires forall n | n in names :: Has(site, w, st, n)
  {
    map n | n in names :: ContentOf(site, w, st, n)
  }

  function ContentOf(site: Site, w: World, st: Stamp, n: string): Content
    requires Has(site, w, st, n)
  {
    var replica := SecretsOf(w, st)[Place(site, st, n)];
    Content(replica.typ, replica.data)
  }

  function OwnerOf(labels: map<string, string>): Option<string> {
    if MANAGED_BY in labels then Some(labels[MANAGED_BY]) else None
  }

  function RepoOf(site: Site, w: World, name: string): Option<Owner<RepoSpec>> {
    var r := Ref(site.tenant, name);
    if r in w.repos then Some(Owner(OwnerOf(w.repos[r].labels), w.repos[r].spec)) else None
  }

  function ReleaseOf(site: Site, w: World, name: string): Option<Owner<ReleaseSpec>> {
    var r := Ref(site.tenant, name);
    if r in w.releases then Some(Owner(OwnerOf(w.releases[r].labels), w.releases[r].spec)) else None
  }

  function CaNames(cfg: Config, w: World): set<string> {
    set n | n in MarkedNames(cfg.site, w, CaBundle) && (cfg.caBundle == "" || n == cfg.caBundle)
  }

  /** The state Install owns: all pull secret replicas, the copy of the configured CA bundle (every
      copy, when none is configured), the ArgoCD objects, and the Reloader objects when asked for. */
  function OwnedState(cfg: Config, w: World): Owned {
    var site := cfg.site;
    Owned(
      Contents(site, w, ImagePull, MarkedNames(site, w, ImagePull)),
      Contents(site, w, ChartPull, MarkedNames(site, w, ChartPull)),
      Contents(site, w, CaBundle, CaNames(cfg, w)),
      RepoOf(site, w, ARGOCD), ReleaseOf(site, w, ARGOCD),
      if cfg.reloader.Some? then RepoOf(site, w, RELOADER) else None,
      if cfg.reloader.Some? then ReleaseOf(site, w, RELOADER) else None)
  }

  lemma CopyIsMarked(site: Site, w: World, st: Stamp, n: string)
    requires CopyOf(site, w, st, n)
    ensures Has(site, w, st, n)
  {
  }

  lemma CopiesAreMarked(site: Site, w: World, st: Stamp, names: seq<string>)
    requires Copies(site, w, st, names)
    ensures MarkedNames(site, w, st) == set n | n in names
  {
    forall n ensures Has(site, w, st, n) <==> n in names {
      if n in names {
        CopyIsMarked(site, w, st, n);
      }
    }
  }

  lemma ContentsDetermined(site: Site, a: World, b: World, st: Stamp, names: seq<string>)
    requires Copies(site, a, st, names) && Copies(site, b, st, names) && SameSources(site, a, b)
    ensures MarkedNames(site, a, st) == MarkedNames(site, b, st)
    ensures Contents(site, a, st, MarkedNames(site, a, st)) == Contents(site, b, st, MarkedNames(site, b, st))
  {
    CopiesAreMarked(site, a, st, names);
    CopiesAreMarked(site, b, st, names);
    forall n | n in MarkedNames(site, a, st)
      ensures Contents(site, a, st, MarkedNames(site, a, st))[n] == Contents(site, b, st, MarkedNames(site, b, st))[n]
    {
      assert CopyOf(site, a, st, n) && CopyOf(site, b, st, n);
    }
  }

  lemma CaNamesAre(cfg: Config, w: World)
    requires SettledCa(cfg, w)
    ensures CaNames(cfg, w) == if cfg.caBundle == "" then {} else {cfg.caBundle}
  {
    if cfg.caBundle != "" {
      CopyIsMarked(cfg.site, w, CaBundle, cfg.caBundle);
    }
  }

  lemma CaDetermined(cfg: Config, a: World, b: World)
    requires SettledCa(cfg, a) && SettledCa(cfg, b) && SameSources(cfg.site, a, b)
    ensures CaIn(cfg, a) == CaIn(cfg, b)
    ensures CaNames(cfg, a) == CaNames(cfg, b)
    ensures Contents(cfg.site, a, CaBundle, CaNames(cfg, a)) == Contents(cfg.site, b, CaBundle, CaNames(cfg, b))
  {
    CaNamesAre(cfg, a);
    CaNamesAre(cfg, b);
  }

  lemma LabelGivesOwner(labels: map<string, string>, owner: string)
    requires labels == labels[MANAGED_BY := owner]
    ensures OwnerOf(labels) == Some(owner)
  {
    assert labels[MANAGED_BY] == owner;
  }

  lemma SettledDetermines(cfg: Config, v: Version, a: World, b: World)
    requires Settled(cfg, v, a) && Settled(cfg, v, b) && SameSources(cfg.site, a, b)
    ensures OwnedState(cfg, a) == OwnedState(cfg, b)
  {
    ContentsDetermined(cfg.site, a, b, ImagePull, ImageNames(v));
    ContentsDetermined(cfg.site, a, b, ChartPull, ChartNames(v, cfg.reloader));
    CaDetermined(cfg, a, b);
    OwnersSettled(cfg, v, a);
    OwnersSettled(cfg, v, b);
  }

  /** Owner and spec of the Flux objects in settled stores. */
  predicate OwnersAre(cfg: Config, v: Version, w: World)
    requires SettledArgo(cfg, v, w)
  {
    var release := ArgoRelease(cfg, InstallValues(cfg, v, CaIn(cfg, w)).value);
    && RepoOf(cfg.site, w, ARGOCD) == Some(Owner(Some(BY_ARGOCD), ArgoRepo(cfg, v)))
    && ReleaseOf(cfg.site, w, ARGOCD) == Some(Owner(Some(BY_ARGOCD), release))
    && (cfg.reloader.Some? ==>
          && RepoOf(cfg.site, w, RELOADER) == Some(Owner(Some(BY_RELOADER), ReloaderRepo(cfg)))
          && ReleaseOf(cfg.site, w, RELOADER) == Some(Owner(Some(BY_RELOADER), ReloaderRelease(cfg))))
  }

  lemma OwnersSettled(cfg: Config, v: Version, w: World)
    requires Settled(cfg, v, w)
    ensures OwnersAre(cfg, v, w)
  {
    var a, r := Ref(cfg.site.tenant, ARGOCD), Ref(cfg.site.tenant, RELOADER);
    LabelGivesOwner(w.repos[a].labels, BY_ARGOCD);
    LabelGivesOwner(w.releases[a].labels, BY_ARGOCD);
    if cfg.reloader.Some? {
      LabelGivesOwner(w.repos[r].labels, BY_RELOADER);
      LabelGivesOwner(w.releases[r].labels, BY_RELOADER);
    }
  }

  /** History independence: the owned state after a successful run without failing calls depends
      only on the version, the configuration and the source secrets, not on what was there before. */
  lemma HistoryIndependent(cfg: Config, v: Version, s1: Sys, addon1: seq<Tick>, s2: Sys, addon2: seq<Tick>)
    requires cfg.site.pod != cfg.site.tenant && SameSources(cfg.site, s1.w, s2.w)
    requires Apart(cfg, v, s1.w) && Quiet(s1.ticks) && Quiet(addon1) && Install(cfg, v, s1, addon1).a == Done
    requires Apart(cfg, v, s2.w) && Quiet(s2.ticks) && Quiet(addon2) && Install(cfg, v, s2, addon2).a == Done
    ensures OwnedState(cfg, Install(cfg, v, s1, addon1).s.w) == OwnedState(cfg, Install(cfg, v, s2, addon2).s.w)
  {
    InstallSettles(cfg, v, s1, addon1);
    InstallSettles(cfg, v, s2, addon2);
    SettledDetermines(cfg, v, Install(cfg, v, s1, addon1).s.w, Install(cfg, v, s2, addon2).s.w);
  }

  // ---------------------------------------------------------------- idempotence

  lemma {:induction false} CopyAllIdle(site: Site, s: Sys, st: Stamp, names: seq<string>)
    requires Quiet(s.ticks) && CopyAll(site, s, st, names).a == Done
    requires forall n | n in names :: CopyOf(site, s.w, st, n)
    requires st.ImagePull? && names != [] ==> site.mcpNs in s.w.mcp.namespaces
    ensures CopyAll(site, s, st, names).s.w == s.w && Quiet(CopyAll(site, s, st, names).s.ticks)
    decreases |names|
  {
    if names == [] {
    } else {
      CopyIdle(site, s, st, names[0]);
      CopyAllIdle(site, Copy(site, s, st, names[0]).s, st, names[1..]);
    }
  }

  lemma CopyIdle(site: Site, s: Sys, st: Stamp, n: string)
    requires Quiet(s.ticks) && Copy(site, s, st, n).a == Done && CopyOf(site, s.w, st, n)
    requires st.ImagePull? ==> site.mcpNs in s.w.mcp.namespaces
    ensures Copy(site, s, st, n).s.w == s.w && Quiet(Copy(site, s, st, n).s.ticks)
  {
    QuietLook(site, s);
    var look := Look(site, s).s;
    var src := look.w.secrets[Ref(site.pod, n)];
    if st.ImagePull? {
      QuietDo(site, look, CreateNamespace);
      assert s.w.mcp.namespaces + {site.mcpNs} == s.w.mcp.namespaces;
    }
    var next := if st.ImagePull? then Do(site, look, CreateNamespace).s else look;
    QuietDo(site, next, PutSecret(st, n, src.typ, src.data));
    PutIdle(site, s.w, st, n, src);
  }

  lemma PutIdle(site: Site, w: World, st: Stamp, n: string, src: Secret)
    requires CopyOf(site, w, st, n) && src == w.secrets[Ref(site.pod, n)]
    ensures Apply(site, w, PutSecret(st, n, src.typ, src.data)) == w
  {
    var r, m := Place(site, st, n), SecretsOf(w, st);
    assert m[r := m[r]] == m;
  }

  lemma {:induction false} DeleteAllIdle(site: Site, s: Sys, st: Stamp, listed: seq<string>, keep: seq<string>)
    requires forall n | n in listed :: n in keep
    ensures DeleteAll(site, s, st, listed, keep) == Out(s, Done)
    decreases |listed|
  {
    if listed == [] {
    } else {
      DeleteAllIdle(site, s, st, listed[1..], keep);
    }
  }

  lemma PruneIdle(site: Site, s: Sys, st: Stamp, keep: seq<string>)
    requires Quiet(s.ticks) && forall n :: Has(site, s.w, st, n) ==> n in keep
    ensures Prune(site, s, st, keep).s.w == s.w && Quiet(Prune(site, s, st, keep).s.ticks)
  {
    QuietLook(site, s);
    var list := ListMarked(site, s, st);
    if list.a == Done {
      DeleteAllIdle(site, list.s, st, list.names, keep);
    }
  }

  lemma PrepareIdle(cfg: Config, v: Version, s: Sys)
    requires SettledSecrets(cfg, v, s.w) && Quiet(s.ticks) && Prepare(cfg, v, s).a == Done
    ensures Prepare(cfg, v, s).s.w == s.w && Quiet(Prepare(cfg, v, s).s.ticks)
    ensures Prepare(cfg, v, s).ca == CaIn(cfg, s.w)
  {
    var site := cfg.site;
    CopyAllIdle(site, s, ImagePull, ImageNames(v));
    var copied := CopyAll(site, s, ImagePull, ImageNames(v)).s;
    PruneIdle(site, copied, ImagePull, ImageNames(v));
    var first := Prune(site, copied, ImagePull, ImageNames(v)).s;
    CopyAllIdle(site, first, ChartPull, ChartNames(v, cfg.reloader));
    var charts := CopyAll(site, first, ChartPull, ChartNames(v, cfg.reloader)).s;
    PruneIdle(site, charts, ChartPull, ChartNames(v, cfg.reloader));
    CaIdle(cfg, Prune(site, charts, ChartPull, ChartNames(v, cfg.reloader)).s);
  }

  lemma CaIdle(cfg: Config, s: Sys)
    requires SettledCa(cfg, s.w) && Quiet(s.ticks) && ReconcileCa(cfg, s).a == Done
    ensures ReconcileCa(cfg, s).s.w == s.w && Quiet(ReconcileCa(cfg, s).s.ticks)
    ensures ReconcileCa(cfg, s).ca == CaIn(cfg, s.w)
  {
    if cfg.caBundle == "" {
      PruneIdle(cfg.site, s, CaBundle, []);
    } else {
      QuietLook(cfg.site, s);
      var look := Look(cfg.site, s).s;
      var src := look.w.secrets[Ref(cfg.site.pod, cfg.caBundle)];
      QuietDo(cfg.site, look, PutSecret(CaBundle, cfg.caBundle, src.typ, src.data));
      PutIdle(cfg.site, s.w, CaBundle, cfg.caBundle, src);
    }
  }

  lemma PutRepoIdle(site: Site, w: World, name: string, owner: string, spec: RepoSpec)
    requires RepoIs(site, w, name, owner, spec)
    ensures Apply(site, w, PutRepo(name, owner, spec)) == w
  {
    var r := Ref(site.tenant, name);
    assert w.repos[r := w.repos[r]] == w.repos;
  }

  lemma PutReleaseIdle(site: Site, w: World, name: string, owner: string, spec: ReleaseSpec)
    requires ReleaseIs(site, w, name, owner, spec)
    ensures Apply(site, w, PutRelease(name, owner, spec)) == w
  {
    var r := Ref(site.tenant, name);
    assert w.releases[r := w.releases[r]] == w.releases;
  }

  lemma DeleteIdle(site: Site, w: World, name: string)
    requires GoingAway(site, w, name)
    ensures Apply(site, w, DeleteRepo(name)) == w && Apply(site, w, DeleteRelease(name)) == w
  {
    var r := Ref(site.tenant, name);
    if r in w.repos {
      assert w.repos[r := w.repos[r]] == w.repos;
    }
    if r in w.releases {
      assert w.releases[r := w.releases[r]] == w.releases;
    }
  }

  /** Idempotence: a successful run without failing calls on settled stores changes nothing at all,
      so neither does a second run after a first one. */
  lemma SecondInstallIdle(cfg: Config, v: Version, s: Sys, addon: seq<Tick>)
    requires Settled(cfg, v, s.w) && Quiet(s.ticks) && Quiet(addon) && Install(cfg, v, s, addon).a == Done
    ensures Install(cfg, v, s, addon).s.w == s.w
  {
    PrepareIdle(cfg, v, s);
    var p := Prepare(cfg, v, s);
    ArgoIdle(cfg, v, p.s, InstallValues(cfg, v, p.ca));
    ReloaderIdle(cfg, Sys(s.w, addon));
  }

  lemma ArgoIdle(cfg: Config, v: Version, s: Sys, compiled: Result<Option<Json>>)
    requires v.chartURL.Some? && Quiet(s.ticks) && ApplyArgo(cfg, v, s, compiled).a == Done && compiled.Success?
    requires RepoIs(cfg.site, s.w, ARGOCD, BY_ARGOCD, ArgoRepo(cfg, v))
    requires ReleaseIs(cfg.site, s.w, ARGOCD, BY_ARGOCD, ArgoRelease(cfg, compiled.value))
    ensures ApplyArgo(cfg, v, s, compiled).s.w == s.w
  {
    var put := PutRepo(ARGOCD, BY_ARGOCD, ArgoRepo(cfg, v));
    QuietDo(cfg.site, s, put);
    PutRepoIdle(cfg.site, s.w, ARGOCD, BY_ARGOCD, ArgoRepo(cfg, v));
    QuietDo(cfg.site, Do(cfg.site, s, put).s, PutRelease(ARGOCD, BY_ARGOCD, ArgoRelease(cfg, compiled.value)));
    PutReleaseIdle(cfg.site, s.w, ARGOCD, BY_ARGOCD, ArgoRelease(cfg, compiled.value));
  }

  lemma ReloaderIdle(cfg: Config, s: Sys)
    requires SettledReloader(cfg, s.w) && Quiet(s.ticks)
    ensures ReconcileReloader(cfg, s).s.w == s.w
  {
    if cfg.reloader.Some? {
      PutRepoIdle(cfg.site, s.w, RELOADER, BY_RELOADER, ReloaderRepo(cfg));
      PutReleaseIdle(cfg.site, s.w, RELOADER, BY_RELOADER, ReloaderRelease(cfg));
    } else {
      DeleteIdle(cfg.site, s.w, RELOADER);
    }
  }
}
