/** The platform cluster and the managed control plane (MCP) as stores of objects, the API calls
    the provider issues, and what everybody else may do to the stores meanwhile. */
module Cluster {
  import opened Wrappers
  import opened Names
  import opened JsonTrees
  import opened Certs

  datatype Ref = Ref(ns: string, name: string)

  datatype Secret = Secret(labels: map<string, string>, typ: string, data: map<string, Pem>)

  datatype RepoSpec = RepoSpec(
    interval: nat, url: string, tag: string, secretRef: Option<string>, certSecretRef: Option<string>)

  /** Whether an object is held by a finalizer, and whether its deletion was requested. Deleting a held
      object makes it leave; it is gone once the finalizer is taken off. A loose one goes at once. */
  datatype Life = Loose | Held | Leaving

  /** An OCIRepository. */
  datatype Repo = Repo(labels: map<string, string>, spec: RepoSpec, life: Life)

  /** How Flux is to install, upgrade and remove a chart: the constants of a HelmRelease. Timeouts are
      in seconds; None leaves the choice to Flux. */
  datatype Handling = Handling(
    createNamespace: bool, installCRDs: Option<string>, installTimeout: Option<nat>, installRetries: nat,
    upgradeCRDs: Option<string>, upgradeRetries: nat,
    keepHistory: bool, uninstallTimeout: nat, driftDetection: string)

  /** kubeConfig is the secret and the key in it under which the MCP's kubeconfig is found. */
  datatype ReleaseSpec = ReleaseSpec(
    interval: nat, chart: Ref, kubeConfig: (string, string), handling: Handling,
    values: Option<Json>, targetNamespace: string, storageNamespace: string)

  /** A HelmRelease, with its Ready condition as far as Flux has reported one. */
  datatype Release = Release(
    labels: map<string, string>, spec: ReleaseSpec, ready: Option<bool>, life: Life)

  datatype Service = Service(ns: string, labels: map<string, string>, loadBalancer: bool, ingress: nat)

  /** The user resource lists are None while their CRD is missing. */
  datatype Mcp = Mcp(
    namespaces: set<string>, secrets: map<Ref, Secret>, services: seq<Service>,
    applications: Option<seq<Ref>>, applicationSets: Option<seq<Ref>>, appProjects: Option<seq<Ref>>)

  /** Secrets, OCIRepositories and HelmReleases of the platform cluster, and the MCP. */
  datatype World = World(
    secrets: map<Ref, Secret>, repos: map<Ref, Repo>, releases: map<Ref, Release>, mcp: Mcp)

  /** The provider's own namespace, the tenant namespace next to it, and ArgoCD's namespace on the MCP. */
  datatype Site = Site(pod: string, tenant: string, mcpNs: string)

  const ARGOCD := "argocd"
  const RELOADER := "argocd-reloader"
  const MANAGED_BY := "app.kubernetes.io/managed-by"
  const BY_ARGOCD := "service-provider-argocd"
  const BY_RELOADER := "service-provider-argocd-reloader"
  const CHART_LABEL := "argocd.services.open-control-plane.io/chart-pull-secret"
  const CA_LABEL := "argocd.services.open-control-plane.io/ca-bundle"

  // ---------------------------------------------------------------- replicated secrets

  /** The three kinds of secrets the provider replicates. */
  datatype Stamp = ImagePull | ChartPull | CaBundle

  /** The label by which a kind of replica is found again. */
  function Mark(st: Stamp): (string, string) {
    match st
    case ImagePull => (MANAGED_BY, BY_ARGOCD)
    case ChartPull => (CHART_LABEL, "true")
    case CaBundle => (CA_LABEL, "true")
  }

  predicate Marked(st: Stamp, labels: map<string, string>) {
    Mark(st).0 in labels && labels[Mark(st).0] == Mark(st).1
  }

  function Stamped(st: Stamp, labels: map<string, string>): map<string, string> {
    labels[MANAGED_BY := BY_ARGOCD][Mark(st).0 := Mark(st).1]
  }

  /** Image pull secrets go to the MCP, the other two into the tenant namespace. */
  function Place(site: Site, st: Stamp, name: string): Ref {
    Ref(if st.ImagePull? then site.mcpNs else site.tenant, name)
  }

  function SecretsOf(w: World, st: Stamp): map<Ref, Secret> {
    if st.ImagePull? then w.mcp.secrets else w.secrets
  }

  function WithSecrets(w: World, st: Stamp, secrets: map<Ref, Secret>): World {
    if st.ImagePull? then w.(mcp := w.mcp.(secrets := secrets)) else w.(secrets := secrets)
  }

  /** A replica of this kind and name is there. */
  predicate Has(site: Site, w: World, st: Stamp, name: string) {
    var r := Place(site, st, name);
    r in SecretsOf(w, st) && Marked(st, SecretsOf(w, st)[r].labels)
  }

  function MarkedNames(site: Site, w: World, st: Stamp): (names: set<string>)
    ensures forall n :: n in names <==> Has(site, w, st, n)
  {
    var m := SecretsOf(w, st);
    var names := set r | r in m && r == Place(site, st, r.name) && Marked(st, m[r].labels) :: r.name;
    assert forall n :: Has(site, w, st, n) ==> Place(site, st, n) in m && Place(site, st, n).name == n;
    names
  }

  // ---------------------------------------------------------------- write calls

  /** The writing API calls. The Put calls are create-or-update: optimistic locking makes the read
      and the write one atomic step that otherwise fails. */
  datatype Op =
    | CreateNamespace
    | PutSecret(st: Stamp, name: string, typ: string, data: map<string, Pem>)
    | DeleteSecret(st: Stamp, name: string)
    | PutRepo(name: string, managedBy: string, repoSpec: RepoSpec)
    | DeleteRepo(name: string)
    | PutRelease(name: string, managedBy: string, releaseSpec: ReleaseSpec)
    | DeleteRelease(name: string)

  /** The effect of a call. Labels already on an object stay, but for those the call sets. */
  function Apply(site: Site, w: World, op: Op): World {
    match op
    case CreateNamespace =>
      w.(mcp := w.mcp.(namespaces := w.mcp.namespaces + {site.mcpNs}))
    case PutSecret(st, name, typ, data) =>
      var r, m := Place(site, st, name), SecretsOf(w, st);
      var labels := if r in m then m[r].labels else map[];
      WithSecrets(w, st, m[r := Secret(Stamped(st, labels), typ, data)])
    case DeleteSecret(st, name) =>
      WithSecrets(w, st, SecretsOf(w, st) - {Place(site, st, name)})
    case PutRepo(name, managedBy, spec) =>
      var r := Ref(site.tenant, name);
      var prior := if r in w.repos then w.repos[r] else Repo(map[], spec, Loose);
      w.(repos := w.repos[r := Repo(prior.labels[MANAGED_BY := managedBy], spec, prior.life)])
    case DeleteRepo(name) =>
      var r := Ref(site.tenant, name);
      if r !in w.repos then w
      else if w.repos[r].life.Loose? then w.(repos := w.repos - {r})
      else w.(repos := w.repos[r := w.repos[r].(life := Leaving)])
    case PutRelease(name, managedBy, spec) =>
      var r := Ref(site.tenant, name);
      var prior := if r in w.releases then w.releases[r] else Release(map[], spec, None, Loose);
      var labels := prior.labels[MANAGED_BY := managedBy];
      w.(releases := w.releases[r := Release(labels, spec, prior.ready, prior.life)])
    case DeleteRelease(name) =>
      var r := Ref(site.tenant, name);
      if r !in w.releases then w
      else if w.releases[r].life.Loose? then w.(releases := w.releases - {r})
      else w.(releases := w.releases[r := w.releases[r].(life := Leaving)])
  }

  // ---------------------------------------------------------------- everybody else

  predicate OurRef(site: Site, r: Ref) {
    r == Ref(site.tenant, ARGOCD) || r == Ref(site.tenant, RELOADER)
  }

  predicate SameReplicas(site: Site, a: World, b: World, st: Stamp) {
    && (forall r | r in SecretsOf(a, st) && r == Place(site, st, r.name) && Marked(st, SecretsOf(a, st)[r].labels) ::
          r in SecretsOf(b, st) && SecretsOf(b, st)[r] == SecretsOf(a, st)[r])
    && (forall r | r in SecretsOf(b, st) && r == Place(site, st, r.name) && Marked(st, SecretsOf(b, st)[r].labels) ::
          r in SecretsOf(a, st) && SecretsOf(a, st)[r] == SecretsOf(b, st)[r])
  }

  /** Others put finalizers on an object and take them off, but do not ask for its deletion. */
  predicate SameDeletion(a: Life, b: Life) {
    a.Leaving? <==> b.Leaving?
  }

  /** What may happen between two calls of the provider: sources rotate, users come and go, Flux
      reports conditions, and takes its finalizers off objects that leave. Only the provider creates,
      changes or deletes replicas, and only the provider creates, deletes or respecifies its four Flux
      objects. */
  predicate Rely(site: Site, a: World, b: World) {
    && SameReplicas(site, a, b, ImagePull)
    && SameReplicas(site, a, b, ChartPull)
    && SameReplicas(site, a, b, CaBundle)
    && (forall r | r in b.repos && OurRef(site, r) ::
          && r in a.repos && b.repos[r] == a.repos[r].(life := b.repos[r].life)
          && SameDeletion(a.repos[r].life, b.repos[r].life))
    && (forall r | r in a.repos && OurRef(site, r) && !a.repos[r].life.Leaving? :: r in b.repos)
    && (forall r | r in b.releases && OurRef(site, r) ::
          && r in a.releases
          && b.releases[r] == a.releases[r].(ready := b.releases[r].ready, life := b.releases[r].life)
          && SameDeletion(a.releases[r].life, b.releases[r].life))
    && (forall r | r in a.releases && OurRef(site, r) && !a.releases[r].life.Leaving? :: r in b.releases)
  }

  lemma RelyRefl(site: Site, w: World)
    ensures Rely(site, w, w)
  {
  }

  lemma SameReplicasTrans(site: Site, a: World, b: World, c: World, st: Stamp)
    requires SameReplicas(site, a, b, st) && SameReplicas(site, b, c, st)
    ensures SameReplicas(site, a, c, st)
  {
  }

  lemma RelyTrans(site: Site, a: World, b: World, c: World)
    requires Rely(site, a, b) && Rely(site, b, c)
    ensures Rely(site, a, c)
  {
    SameReplicasTrans(site, a, b, c, ImagePull);
    SameReplicasTrans(site, a, b, c, ChartPull);
    SameReplicasTrans(site, a, b, c, CaBundle);
  }

  lemma RelyHas(site: Site, a: World, b: World, st: Stamp, name: string)
    requires Rely(site, a, b)
    ensures Has(site, a, st, name) <==> Has(site, b, st, name)
    ensures Has(site, a, st, name) ==>
              SecretsOf(a, st)[Place(site, st, name)] == SecretsOf(b, st)[Place(site, st, name)]
  {
    assert Place(site, st, name) == Place(site, st, Place(site, st, name).name);
  }

  // ---------------------------------------------------------------- calls that may fail

  /** Ok: applied and acknowledged. Lost: not applied. Late: applied, but an error comes back. */
  datatype Reply = Ok | Lost | Late

  /** What one call meets: others act first, then the reply; a list call returns its items in the
      order of listing, or by name where that is no order of them. */
  datatype Tick = Tick(env: Option<World>, reply: Reply, listing: seq<string>)

  /** The stores and what the coming calls will meet. When no tick is left the provider is cut off
      before the next call, so the runs over all tick lists stop at every possible point. */
  datatype Sys = Sys(w: World, ticks: seq<Tick>)

  datatype Answer = Done | Failed | Halted

  datatype Out = Out(s: Sys, a: Answer)

  function Arrive(site: Site, w: World, t: Tick): World {
    if t.env.Some? && Rely(site, w, t.env.value) then t.env.value else w
  }

  /** The stores as the next call finds them. */
  function Met(site: Site, s: Sys): World {
    if s.ticks == [] then s.w else Arrive(site, s.w, s.ticks[0])
  }

  /** A reading call; the caller then reads the stores as they are. */
  function Look(site: Site, s: Sys): Out {
    if s.ticks == [] then Out(s, Halted)
    else
      var t := s.ticks[0];
      Out(Sys(Arrive(site, s.w, t), s.ticks[1..]), if t.reply.Ok? then Done else Failed)
  }

  /** After k calls that all were reads: the stores are as others have left them by then. */
  function AfterReads(site: Site, s: Sys, k: nat): Sys
    decreases k
  {
    if k == 0 then s else AfterReads(site, Look(site, s).s, k - 1)
  }

  /** On the way from s to e nothing was written. */
  ghost predicate OnlyRead(site: Site, s: Sys, e: Sys) {
    exists k: nat :: e == AfterReads(site, s, k)
  }

  function Do(site: Site, s: Sys, op: Op): Out {
    if s.ticks == [] then Out(s, Halted)
    else
      var t := s.ticks[0];
      var w := Arrive(site, s.w, t);
      Out(Sys(if t.reply.Lost? then w else Apply(site, w, op), s.ticks[1..]),
          if t.reply.Ok? then Done else Failed)
  }

  datatype Listed = Listed(s: Sys, a: Answer, names: seq<string>)

  function InSomeOrder(listing: seq<string>, names: set<string>): (order: seq<string>)
    ensures Enumerates(order, names)
  {
    if Enumerates(listing, names) then listing else Sorted(names)
  }

  /** Lists the replicas of a kind, in any order. */
  function ListMarked(site: Site, s: Sys, st: Stamp): Listed {
    var look := Look(site, s);
    if look.a != Done then Listed(look.s, look.a, [])
    else Listed(look.s, Done, InSomeOrder(s.ticks[0].listing, MarkedNames(site, look.s.w, st)))
  }

  /** No call fails; others may act. */
  predicate Obliging(ticks: seq<Tick>) {
    forall t | t in ticks :: t.reply.Ok?
  }

  /** No call fails and nobody else acts. */
  predicate Quiet(ticks: seq<Tick>) {
    forall t | t in ticks :: t.env.None? && t.reply.Ok?
  }

  /** Nobody else acts; calls may fail. */
  predicate Still(ticks: seq<Tick>) {
    forall t | t in ticks :: t.env.None?
  }

  // ---------------------------------------------------------------- invariants of runs

  ghost predicate RelyClosed(site: Site, inv: World -> bool) {
    forall a, b :: inv(a) && Rely(site, a, b) ==> inv(b)
  }

  /** inv holds, and survives what others do if they do anything. */
  ghost predicate Guarded(site: Site, s: Sys, inv: World -> bool) {
    inv(s.w) && (RelyClosed(site, inv) || Still(s.ticks))
  }

  /** Where nobody else acts, reading leaves the stores as they are. */
  lemma {:induction false} OnlyReadAlone(site: Site, s: Sys, k: nat)
    requires Still(s.ticks)
    ensures AfterReads(site, s, k).w == s.w
    decreases k
  {
    if k == 0 {
    } else {
      OnlyReadAlone(site, Look(site, s).s, k - 1);
    }
  }

  lemma LookRelies(site: Site, s: Sys)
    ensures Rely(site, s.w, Look(site, s).s.w)
  {
    RelyRefl(site, s.w);
  }

  lemma LookKeeps(site: Site, s: Sys, inv: World -> bool)
    requires Guarded(site, s, inv)
    ensures Guarded(site, Look(site, s).s, inv) && (Still(s.ticks) ==> Still(Look(site, s).s.ticks))
    ensures Rely(site, s.w, Look(site, s).s.w)
  {
    RelyRefl(site, s.w);
  }

  lemma DoKeeps(site: Site, s: Sys, op: Op, inv: World -> bool)
    requires Guarded(site, s, inv)
    requires forall w :: inv(w) && Rely(site, s.w, w) ==> inv(Apply(site, w, op))
    ensures Guarded(site, Do(site, s, op).s, inv) && (Still(s.ticks) ==> Still(Do(site, s, op).s.ticks))
  {
    RelyRefl(site, s.w);
    if s.ticks != [] {
      var w := Arrive(site, s.w, s.ticks[0]);
      assert Rely(site, s.w, w) && inv(w);
    }
  }

  /** An acknowledged write took effect on the state others had left. */
  lemma DoEffect(site: Site, s: Sys, op: Op) returns (w: World)
    requires Do(site, s, op).a == Done
    ensures Rely(site, s.w, w) && Do(site, s, op).s.w == Apply(site, w, op)
  {
    RelyRefl(site, s.w);
    w := Arrive(site, s.w, s.ticks[0]);
  }
}
