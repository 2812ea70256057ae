/** What happens when no call fails: Install succeeds exactly when everything it needs is there,
    Delete waits or completes, teardown ends, and crashes of earlier runs leave no trace. */
module Progress {
  import opened Wrappers
  import opened Names
  import opened JsonTrees
  import opened Certs
  import opened ValuesLaws
  import opened Cluster
  import opened Provision
  import opened Replication
  import opened InstallLaws
  import opened Convergence
  import opened Teardown
  import opened TeardownLaws

  // ---------------------------------------------------------------- how many calls a run makes

  /** A step makes at most n calls; it is cut off only when fewer than n are answered. */
  ghost predicate Within(s: Sys, o: Out, n: nat) {
    if o.a == Halted then |s.ticks| < n else |s.ticks| <= |o.s.ticks| + n
  }

  function Replicas(site: Site, w: World, st: Stamp): nat {
    |MarkedNames(site, w, st)|
  }

  lemma SmallerSet(a: set<string>, b: set<string>)
    requires a <= b
    ensures |a| <= |b|
  {
    assert b == a + (b - a);
  }

  lemma RelySameNames(site: Site, a: World, b: World, st: Stamp)
    requires Rely(site, a, b)
    ensures MarkedNames(site, a, st) == MarkedNames(site, b, st)
  {
    forall n ensures Has(site, a, st, n) <==> Has(site, b, st, n) {
      RelyHas(site, a, b, st, n);
    }
  }

  lemma CopyCalls(site: Site, s: Sys, st: Stamp, name: string)
    ensures Within(s, Copy(site, s, st, name), 3)
  {
  }

  lemma {:induction false} CopyAllCalls(site: Site, s: Sys, st: Stamp, names: seq<string>)
    ensures Within(s, CopyAll(site, s, st, names), 3 * |names|)
    decreases |names|
  {
    if names == [] {
    } else {
      CopyCalls(site, s, st, names[0]);
      CopyAllCalls(site, Copy(site, s, st, names[0]).s, st, names[1..]);
    }
  }

  lemma {:induction false} DeleteAllCalls(site: Site, s: Sys, st: Stamp, listed: seq<string>, keep: seq<string>)
    ensures Within(s, DeleteAll(site, s, st, listed, keep), |listed|)
    decreases |listed|
  {
    if listed == [] {
    } else if listed[0] in keep {
      DeleteAllCalls(site, s, st, listed[1..], keep);
    } else {
      DeleteAllCalls(site, Do(site, s, DeleteSecret(st, listed[0])).s, st, listed[1..], keep);
    }
  }

  lemma PruneCalls(site: Site, s: Sys, st: Stamp, keep: seq<string>)
    ensures Within(s, Prune(site, s, st, keep), 1 + Replicas(site, s.w, st))
  {
    var list := ListMarked(site, s, st);
    LookRelies(site, s);
    RelySameNames(site, s.w, list.s.w, st);
    if list.a == Done {
      EnumeratedSize(list.names, MarkedNames(site, list.s.w, st));
      DeleteAllCalls(site, list.s, st, list.names, keep);
    }
  }

  /** Replicas of a kind are at most those in the given set. */
  ghost predicate NamesWithin(site: Site, w: World, st: Stamp, names: set<string>) {
    MarkedNames(site, w, st) <= names
  }

  lemma NamesWithinRely(site: Site, st: Stamp, names: set<string>)
    ensures RelyClosed(site, (w: World) => NamesWithin(site, w, st, names))
  {
    forall a, b | NamesWithin(site, a, st, names) && Rely(site, a, b) ensures NamesWithin(site, b, st, names) {
      RelySameNames(site, a, b, st);
    }
  }

  lemma AddedByPut(site: Site, w: World, op: Op, st: Stamp, n: string)
    requires Has(site, Apply(site, w, op), st, n)
    ensures Has(site, w, st, n) || (op.PutSecret? && op.st == st && op.name == n)
  {
  }

  lemma WriteNames(site: Site, w: World, op: Op, st: Stamp)
    ensures MarkedNames(site, Apply(site, w, op), st)
         <= MarkedNames(site, w, st) + if op.PutSecret? && op.st == st then {op.name} else {}
  {
    forall n | Has(site, Apply(site, w, op), st, n)
      ensures Has(site, w, st, n) || (op.PutSecret? && op.st == st && op.name == n)
    {
      AddedByPut(site, w, op, st, n);
    }
  }

  lemma CopyAllNames(site: Site, s: Sys, st: Stamp, names: seq<string>)
    ensures Replicas(site, CopyAll(site, s, st, names).s.w, st) <= Replicas(site, s.w, st) + |names|
  {
    var asked := set n | n in names;
    var most := MarkedNames(site, s.w, st) + asked;
    var inv := (w: World) => NamesWithin(site, w, st, most);
    NamesWithinRely(site, st, most);
    forall w, op: Op | inv(w) && (op.CreateNamespace? || (op.PutSecret? && op.name in names))
      ensures inv(Apply(site, w, op))
    {
      WriteNames(site, w, op, st);
    }
    CopyAllKeeps(site, s, st, names, inv);
    SmallerSet(MarkedNames(site, CopyAll(site, s, st, names).s.w, st), most);
    SetOfSeq(names);
  }

  lemma {:induction false} SetOfSeq(names: seq<string>)
    ensures |set n | n in names| <= |names|
  {
    if names == [] {
    } else {
      SetOfSeq(names[1..]);
      var rest := set n | n in names[1..];
      assert (set n | n in names) == {names[0]} + rest;
    }
  }

  lemma ReconcileCalls(site: Site, s: Sys, st: Stamp, names: seq<string>)
    ensures Within(s, Reconcile(site, s, st, names), 4 * |names| + 1 + Replicas(site, s.w, st))
  {
    CopyAllCalls(site, s, st, names);
    CopyAllNames(site, s, st, names);
    PruneCalls(site, CopyAll(site, s, st, names).s, st, names);
  }

  /** Reconciling one kind adds no replica of another. */
  lemma OthersNoMore(site: Site, s: Sys, st: Stamp, names: seq<string>, other: Stamp)
    requires st != other
    ensures Replicas(site, Reconcile(site, s, st, names).s.w, other) <= Replicas(site, s.w, other)
  {
    var most := MarkedNames(site, s.w, other);
    var inv := (w: World) => NamesWithin(site, w, other, most);
    NamesWithinRely(site, other, most);
    forall w, op: Op | inv(w) && (op.PutSecret? ==> op.st == st) ensures inv(Apply(site, w, op)) {
      WriteNames(site, w, op, other);
    }
    ReconcileKeeps(site, s, st, names, inv);
    SmallerSet(MarkedNames(site, Reconcile(site, s, st, names).s.w, other), most);
  }

  lemma CaCalls(cfg: Config, s: Sys)
    ensures var r := ReconcileCa(cfg, s);
      Within(s, Out(r.s, r.a), 2 + Replicas(cfg.site, s.w, CaBundle))
  {
    if cfg.caBundle == "" {
      PruneCalls(cfg.site, s, CaBundle, []);
    }
  }

  /** How many calls Install makes at most, those for Reloader aside. */
  function InstallCalls(cfg: Config, v: Version, w: World): nat {
    4 * |ImageNames(v)| + 1 + Replicas(cfg.site, w, ImagePull)
    + 4 * |ChartNames(v, cfg.reloader)| + 1 + Replicas(cfg.site, w, ChartPull)
    + 2 + Replicas(cfg.site, w, CaBundle)
    + 2
  }

  lemma PrepareCalls(cfg: Config, v: Version, s: Sys)
    ensures var r := Prepare(cfg, v, s);
      Within(s, Out(r.s, r.a), InstallCalls(cfg, v, s.w) - 2)
  {
    var site := cfg.site;
    var images := Reconcile(site, s, ImagePull, ImageNames(v));
    var charts := Reconcile(site, images.s, ChartPull, ChartNames(v, cfg.reloader));
    ReconcileCalls(site, s, ImagePull, ImageNames(v));
    OthersNoMore(site, s, ImagePull, ImageNames(v), ChartPull);
    OthersNoMore(site, s, ImagePull, ImageNames(v), CaBundle);
    ReconcileCalls(site, images.s, ChartPull, ChartNames(v, cfg.reloader));
    OthersNoMore(site, images.s, ChartPull, ChartNames(v, cfg.reloader), CaBundle);
    CaCalls(cfg, charts.s);
  }

  lemma ApplyArgoCalls(cfg: Config, v: Version, s: Sys, compiled: Result<Option<Json>>)
    requires v.chartURL.Some?
    ensures Within(s, ApplyArgo(cfg, v, s, compiled), 2)
  {
  }

  lemma ReloaderIsDone(cfg: Config, s: Sys)
    requires |s.ticks| >= 2
    ensures ReconcileReloader(cfg, s).a == Done
  {
  }

  /** Whatever its calls meet, a run of Install makes at most InstallCalls of them, and two more
      for Reloader. */
  lemma InstallIsBounded(cfg: Config, v: Version, s: Sys, addon: seq<Tick>)
    requires |addon| >= 2
    ensures Within(s, Install(cfg, v, s, addon), InstallCalls(cfg, v, s.w))
  {
    if v.chartURL.Some? {
      PrepareCalls(cfg, v, s);
      var p := Prepare(cfg, v, s);
      if p.a == Done {
        var compiled := InstallValues(cfg, v, p.ca);
        ApplyArgoCalls(cfg, v, p.s, compiled);
        ReloaderIsDone(cfg, Sys(ApplyArgo(cfg, v, p.s, compiled).s.w, addon));
      }
    }
  }

  // ---------------------------------------------------------------- when no call fails

  /** p holds now and in every state that others will bring about. */
  ghost predicate Throughout(s: Sys, p: World -> bool) {
    p(s.w) && forall t | t in s.ticks && t.env.Some? :: p(t.env.value)
  }

  /** What our own writes do not spoil. */
  ghost predicate Spared(site: Site, p: World -> bool) {
    forall w, op :: p(w) ==> p(Apply(site, w, op))
  }

  /** No call fails, and p holds throughout. */
  ghost predicate Smooth(s: Sys, p: World -> bool) {
    Obliging(s.ticks) && Throughout(s, p)
  }

  /** The step did not fail, and all remains smooth. */
  ghost predicate Fine(o: Out, p: World -> bool) {
    o.a != Failed && Smooth(o.s, p)
  }

  lemma LookFine(site: Site, s: Sys, p: World -> bool)
    requires Smooth(s, p)
    ensures Fine(Look(site, s), p)
  {
  }

  lemma DoFine(site: Site, s: Sys, op: Op, p: World -> bool)
    requires Smooth(s, p) && Spared(site, p)
    ensures Fine(Do(site, s, op), p)
  {
  }

  /** p provides the source secret. */
  ghost predicate Provides(site: Site, p: World -> bool, name: string) {
    forall w :: p(w) ==> Ref(site.pod, name) in w.secrets
  }

  lemma CopyFine(site: Site, s: Sys, st: Stamp, name: string, p: World -> bool)
    requires Smooth(s, p) && Spared(site, p) && Provides(site, p, name)
    ensures Fine(Copy(site, s, st, name), p)
  {
    LookFine(site, s, p);
    var look := Look(site, s);
    if look.a == Done {
      var src := look.s.w.secrets[Ref(site.pod, name)];
      var ready := if st.ImagePull? then Do(site, look.s, CreateNamespace) else look;
      DoFine(site, look.s, CreateNamespace, p);
      DoFine(site, ready.s, PutSecret(st, name, src.typ, src.data), p);
    }
  }

  lemma {:induction false} CopyAllFine(site: Site, s: Sys, st: Stamp, names: seq<string>, p: World -> bool)
    requires Smooth(s, p) && Spared(site, p) && forall n | n in names :: Provides(site, p, n)
    ensures Fine(CopyAll(site, s, st, names), p)
    decreases |names|
  {
    if names == [] {
    } else {
      CopyFine(site, s, st, names[0], p);
      CopyAllFine(site, Copy(site, s, st, names[0]).s, st, names[1..], p);
    }
  }

  lemma {:induction false} DeleteAllFine(
      site: Site, s: Sys, st: Stamp, listed: seq<string>, keep: seq<string>, p: World -> bool)
    requires Smooth(s, p) && Spared(site, p)
    ensures Fine(DeleteAll(site, s, st, listed, keep), p)
    decreases |listed|
  {
    if listed == [] {
    } else if listed[0] in keep {
      DeleteAllFine(site, s, st, listed[1..], keep, p);
    } else {
      DoFine(site, s, DeleteSecret(st, listed[0]), p);
      DeleteAllFine(site, Do(site, s, DeleteSecret(st, listed[0])).s, st, listed[1..], keep, p);
    }
  }

  lemma PruneFine(site: Site, s: Sys, st: Stamp, keep: seq<string>, p: World -> bool)
    requires Smooth(s, p) && Spared(site, p)
    ensures Fine(Prune(site, s, st, keep), p)
  {
    LookFine(site, s, p);
    var list := ListMarked(site, s, st);
    DeleteAllFine(site, list.s, st, list.names, keep, p);
  }

  lemma ReconcileFine(site: Site, s: Sys, st: Stamp, names: seq<string>, p: World -> bool)
    requires Smooth(s, p) && Spared(site, p) && forall n | n in names :: Provides(site, p, n)
    ensures Fine(Reconcile(site, s, st, names), p)
  {
    CopyAllFine(site, s, st, names, p);
    PruneFine(site, CopyAll(site, s, st, names).s, st, names, p);
  }

  // ---------------------------------------------------------------- Install

  /** The certificate text the CA source provides. */
  function SourceCa(cfg: Config, w: World): Pem {
    var r := Ref(cfg.site.pod, cfg.caBundle);
    if cfg.caBundle != "" && r in w.secrets then CaText(w.secrets[r].data) else NO_CA
  }

  predicate SourcesThere(site: Site, w: World, names: seq<string>) {
    forall n | n in names :: Ref(site.pod, n) in w.secrets
  }

  /** Everything Install needs: a chart, readable values, every source secret, and values that
      compile with the CA text at hand. */
  predicate Feasible(cfg: Config, v: Version, w: World) {
    && v.chartURL.Some?
    && PullNames(v.values).Success?
    && SourcesThere(cfg.site, w, ImageNames(v))
    && SourcesThere(cfg.site, w, ChartNames(v, cfg.reloader))
    && (cfg.caBundle != "" ==> Ref(cfg.site.pod, cfg.caBundle) in w.secrets)
    && InstallValues(cfg, v, SourceCa(cfg, w)).Success?
  }

  lemma FeasibleBySources(cfg: Config, v: Version, a: World, b: World)
    requires SameSources(cfg.site, a, b)
    ensures Feasible(cfg, v, a) <==> Feasible(cfg, v, b)
  {
    assert SourceCa(cfg, a) == SourceCa(cfg, b);
  }

  lemma FeasibleSpared(cfg: Config, v: Version)
    requires cfg.site.pod != cfg.site.tenant
    ensures Spared(cfg.site, (w: World) => Feasible(cfg, v, w))
  {
    forall w, op | Feasible(cfg, v, w) ensures Feasible(cfg, v, Apply(cfg.site, w, op)) {
      OpSparesSources(cfg.site, w, op);
      FeasibleBySources(cfg, v, w, Apply(cfg.site, w, op));
    }
  }

  /** The CA text Install goes on with is that of a state in which p held. */
  lemma CaFine(cfg: Config, s: Sys, p: World -> bool)
    requires Smooth(s, p) && Spared(cfg.site, p) && (cfg.caBundle != "" ==> Provides(cfg.site, p, cfg.caBundle))
    ensures var r := ReconcileCa(cfg, s);
      Fine(Out(r.s, r.a), p) && (r.a == Done ==> exists w :: p(w) && r.ca == SourceCa(cfg, w))
  {
    if cfg.caBundle == "" {
      PruneFine(cfg.site, s, CaBundle, [], p);
      assert p(s.w) && SourceCa(cfg, s.w) == NO_CA;
    } else {
      LookFine(cfg.site, s, p);
      var look := Look(cfg.site, s);
      if look.a == Done {
        var src := look.s.w.secrets[Ref(cfg.site.pod, cfg.caBundle)];
        DoFine(cfg.site, look.s, PutSecret(CaBundle, cfg.caBundle, src.typ, src.data), p);
        assert p(look.s.w) && SourceCa(cfg, look.s.w) == CaText(src.data);
      }
    }
  }

  lemma PrepareFine(cfg: Config, v: Version, s: Sys)
    requires cfg.site.pod != cfg.site.tenant && Smooth(s, (w: World) => Feasible(cfg, v, w))
    ensures var r := Prepare(cfg, v, s);
      && Fine(Out(r.s, r.a), (w: World) => Feasible(cfg, v, w))
      && (r.a == Done ==> InstallValues(cfg, v, r.ca).Success?)
  {
    var site, p := cfg.site, (w: World) => Feasible(cfg, v, w);
    FeasibleSpared(cfg, v);
    var images := Reconcile(site, s, ImagePull, ImageNames(v));
    ReconcileFine(site, s, ImagePull, ImageNames(v), p);
    var charts := Reconcile(site, images.s, ChartPull, ChartNames(v, cfg.reloader));
    ReconcileFine(site, images.s, ChartPull, ChartNames(v, cfg.reloader), p);
    CaFine(cfg, charts.s, p);
  }

  lemma ApplyArgoFine(cfg: Config, v: Version, s: Sys, compiled: Result<Option<Json>>)
    requires v.chartURL.Some? && compiled.Success? && Obliging(s.ticks)
    ensures ApplyArgo(cfg, v, s, compiled).a != Failed
  {
  }

  /** Install fails only if a call does or something it needs is missing: with no failing call, and
      as long as others leave everything in order, it never fails, whatever else they do and
      whatever becomes of the Reloader calls. */
  lemma InstallNeverFails(cfg: Config, v: Version, s: Sys, addon: seq<Tick>)
    requires cfg.site.pod != cfg.site.tenant && Smooth(s, (w: World) => Feasible(cfg, v, w))
    ensures Install(cfg, v, s, addon).a != Failed
    ensures |s.ticks| >= InstallCalls(cfg, v, s.w) && |addon| >= 2 ==> Install(cfg, v, s, addon).a == Done
  {
    PrepareFine(cfg, v, s);
    var p := Prepare(cfg, v, s);
    if p.a == Done {
      ApplyArgoFine(cfg, v, p.s, InstallValues(cfg, v, p.ca));
    }
    if |addon| >= 2 {
      InstallIsBounded(cfg, v, s, addon);
    }
  }

  // ---------------------------------------------------------------- what success took

  lemma CopyTook(site: Site, s: Sys, st: Stamp, name: string)
    requires Quiet(s.ticks) && Copy(site, s, st, name).a == Done
    ensures Ref(site.pod, name) in s.w.secrets
  {
    QuietLook(site, s);
  }

  lemma {:induction false} CopyAllTook(site: Site, s: Sys, st: Stamp, names: seq<string>)
    requires site.pod != site.tenant && Quiet(s.ticks) && CopyAll(site, s, st, names).a == Done
    ensures SourcesThere(site, s.w, names)
    decreases |names|
  {
    if names == [] {
    } else {
      CopyTook(site, s, st, names[0]);
      QuietCopy(site, s, st, names[0]);
      CopyAllTook(site, Copy(site, s, st, names[0]).s, st, names[1..]);
      assert names == [names[0]] + names[1..];
    }
  }

  lemma CaTook(cfg: Config, s: Sys)
    requires Quiet(s.ticks) && ReconcileCa(cfg, s).a == Done
    ensures cfg.caBundle != "" ==> Ref(cfg.site.pod, cfg.caBundle) in s.w.secrets
    ensures ReconcileCa(cfg, s).ca == SourceCa(cfg, s.w)
  {
    QuietLook(cfg.site, s);
  }

  lemma PrepareTook(cfg: Config, v: Version, s: Sys)
    requires cfg.site.pod != cfg.site.tenant && Quiet(s.ticks) && Prepare(cfg, v, s).a == Done
    ensures SourcesThere(cfg.site, s.w, ImageNames(v)) && SourcesThere(cfg.site, s.w, ChartNames(v, cfg.reloader))
    ensures cfg.caBundle != "" ==> Ref(cfg.site.pod, cfg.caBundle) in s.w.secrets
    ensures Prepare(cfg, v, s).ca == SourceCa(cfg, s.w)
  {
    var images := Reconcile(cfg.site, s, ImagePull, ImageNames(v));
    CopyAllTook(cfg.site, s, ImagePull, ImageNames(v));
    QuietReconcile(cfg.site, s, ImagePull, ImageNames(v));
    var charts := Reconcile(cfg.site, images.s, ChartPull, ChartNames(v, cfg.reloader));
    CopyAllTook(cfg.site, images.s, ChartPull, ChartNames(v, cfg.reloader));
    QuietReconcile(cfg.site, images.s, ChartPull, ChartNames(v, cfg.reloader));
    CaTook(cfg, charts.s);
  }

  /** No call fails, nobody else acts, and there are answers for every call Install can make. */
  ghost predicate Unhindered(cfg: Config, v: Version, s: Sys, addon: seq<Tick>) {
    Quiet(s.ticks) && Quiet(addon) && |s.ticks| >= InstallCalls(cfg, v, s.w) && |addon| >= 2
  }

  /** Every unhindered run of Install succeeds exactly when chart, values and sources are in order,
      whatever else the stores hold. */
  lemma InstallSucceedsIff(cfg: Config, v: Version, s: Sys, addon: seq<Tick>)
    requires cfg.site.pod != cfg.site.tenant && Unhindered(cfg, v, s, addon)
    ensures Install(cfg, v, s, addon).a == if Feasible(cfg, v, s.w) then Done else Failed
  {
    InstallIsBounded(cfg, v, s, addon);
    if Feasible(cfg, v, s.w) {
      InstallNeverFails(cfg, v, s, addon);
    } else if v.chartURL.Some? && Prepare(cfg, v, s).a == Done {
      PrepareTook(cfg, v, s);
    }
  }

  // ---------------------------------------------------------------- which versions can be installed

  /** The version can be installed at all: it has a chart, its values are readable and compile, and no
      CA bundle goes by the name of one of its chart pull secrets. */
  predicate Installable(cfg: Config, v: Version) {
    && v.chartURL.Some? && PullNames(v.values).Success?
    && cfg.caBundle !in ChartNames(v, cfg.reloader)
    && InstallValues(cfg, v, NO_CA).Success?
  }

  /** Values that compile with a CA bundle compile without. */
  lemma CompilesWithout(cfg: Config, v: Version, ca: Pem)
    requires InstallValues(cfg, v, ca).Success?
    ensures InstallValues(cfg, v, NO_CA).Success?
  {
  }

  lemma InstalledIsInstallable(cfg: Config, v: Version, s: Sys, addon: seq<Tick>)
    requires Apart(cfg, v, s.w) && Install(cfg, v, s, addon).a == Done
    ensures Installable(cfg, v)
  {
    CompilesWithout(cfg, v, Prepare(cfg, v, s).ca);
  }

  /** Stores that hold the sources and nothing else, and an unhindered run from there. */
  lemma InstallableInstalls(cfg: Config, v: Version) returns (s: Sys, addon: seq<Tick>)
    requires cfg.site.pod != cfg.site.tenant && Installable(cfg, v)
    ensures Apart(cfg, v, s.w) && Install(cfg, v, s, addon).a == Done
  {
    var names := ImageNames(v) + ChartNames(v, cfg.reloader) + [cfg.caBundle];
    var refs := set n | n in names :: Ref(cfg.site.pod, n);
    var sources := map r | r in refs :: Secret(map[], "", map[]);
    var w := World(sources, map[], map[], Mcp({}, map[], [], None, None, None));
    var ok := Tick(None, Ok, []);
    s, addon := Sys(w, seq(InstallCalls(cfg, v, w), i => ok)), [ok, ok];
    assert forall n | n in names :: Ref(cfg.site.pod, n) in w.secrets;
    assert SourceCa(cfg, w) == NO_CA;
    InstallSucceedsIff(cfg, v, s, addon);
  }

  /** Convergence: from any stores, every unhindered run of Install with everything in order leaves
      all it owns as asked, and the sources as they were. */
  lemma InstallConverges(cfg: Config, v: Version, s: Sys, addon: seq<Tick>)
    requires cfg.site.pod != cfg.site.tenant && Apart(cfg, v, s.w)
    requires Unhindered(cfg, v, s, addon) && Feasible(cfg, v, s.w)
    ensures var r := Install(cfg, v, s, addon);
      r.a == Done && Settled(cfg, v, r.s.w) && SameSources(cfg.site, s.w, r.s.w)
  {
    InstallSucceedsIff(cfg, v, s, addon);
    InstallSettles(cfg, v, s, addon);
  }

  /** Idempotence: an unhindered run right after another changes nothing at all. */
  lemma InstallAgainIdle(
      cfg: Config, v: Version, s: Sys, addon: seq<Tick>, again: seq<Tick>, againAddon: seq<Tick>)
    requires cfg.site.pod != cfg.site.tenant && Apart(cfg, v, s.w)
    requires Unhindered(cfg, v, s, addon) && Feasible(cfg, v, s.w)
    requires Unhindered(cfg, v, Sys(Install(cfg, v, s, addon).s.w, again), againAddon)
    ensures Install(cfg, v, Sys(Install(cfg, v, s, addon).s.w, again), againAddon).a == Done
    ensures Install(cfg, v, Sys(Install(cfg, v, s, addon).s.w, again), againAddon).s.w
         == Install(cfg, v, s, addon).s.w
  {
    var left := Install(cfg, v, s, addon).s.w;
    InstallConverges(cfg, v, s, addon);
    FeasibleBySources(cfg, v, s.w, left);
    InstallSucceedsIff(cfg, v, Sys(left, again), againAddon);
    SecondInstallIdle(cfg, v, Sys(left, again), againAddon);
  }

  // ---------------------------------------------------------------- after crashes

  /** Earlier runs of Install, each with the version and configuration of its time. */
  datatype Run = Run(cfg: Config, v: Version, ticks: seq<Tick>, addon: seq<Tick>)

  function RunInstalls(w: World, runs: seq<Run>): World
    decreases |runs|
  {
    if runs == [] then w
    else RunInstalls(Install(runs[0].cfg, runs[0].v, Sys(w, runs[0].ticks), runs[0].addon).s.w, runs[1..])
  }

  /** Runs at one site, failing or cut off anywhere, in which the provider acts alone and the
      hypothesis about names holds. */
  ghost predicate Alone(site: Site, w: World, runs: seq<Run>)
    decreases |runs|
  {
    runs != [] ==>
      && runs[0].cfg.site == site && Still(runs[0].ticks) && Still(runs[0].addon)
      && Apart(runs[0].cfg, runs[0].v, w)
      && Alone(site, Install(runs[0].cfg, runs[0].v, Sys(w, runs[0].ticks), runs[0].addon).s.w, runs[1..])
  }

  lemma SourcesSurviveOne(cfg: Config, v: Version, s: Sys, addon: seq<Tick>)
    requires cfg.site.pod != cfg.site.tenant && Apart(cfg, v, s.w) && Still(s.ticks) && Still(addon)
    ensures SameSources(cfg.site, s.w, Install(cfg, v, s, addon).s.w)
  {
    var inv := (w: World) => SameSources(cfg.site, s.w, w);
    forall w, op | inv(w) ensures inv(Apply(cfg.site, w, op)) {
      OpSparesSources(cfg.site, w, op);
    }
    InstallRespects(cfg, v, s, addon, inv);
  }

  lemma {:induction false} SourcesSurvive(site: Site, w: World, runs: seq<Run>)
    requires site.pod != site.tenant && Alone(site, w, runs)
    ensures SameSources(site, w, RunInstalls(w, runs))
    decreases |runs|
  {
    if runs == [] {
    } else {
      var next := Install(runs[0].cfg, runs[0].v, Sys(w, runs[0].ticks), runs[0].addon).s.w;
      SourcesSurviveOne(runs[0].cfg, runs[0].v, Sys(w, runs[0].ticks), runs[0].addon);
      SourcesSurvive(site, next, runs[1..]);
    }
  }

  /** Crashes are forgotten: after any earlier runs of Install, for other versions and
      configurations too, each failed or cut off anywhere, an unhindered run succeeds exactly when
      it would have without them, and then ends in the owned state it would have reached. */
  lemma CrashesForgotten(
      cfg: Config, v: Version, w: World, runs: seq<Run>,
      t1: seq<Tick>, a1: seq<Tick>, t2: seq<Tick>, a2: seq<Tick>)
    requires cfg.site.pod != cfg.site.tenant && Alone(cfg.site, w, runs)
    requires Apart(cfg, v, w) && Apart(cfg, v, RunInstalls(w, runs))
    requires Unhindered(cfg, v, Sys(w, t1), a1) && Unhindered(cfg, v, Sys(RunInstalls(w, runs), t2), a2)
    ensures var clean, after := Install(cfg, v, Sys(w, t1), a1), Install(cfg, v, Sys(RunInstalls(w, runs), t2), a2);
      && clean.a == after.a == (if Feasible(cfg, v, w) then Done else Failed)
      && (Feasible(cfg, v, w) ==> OwnedState(cfg, clean.s.w) == OwnedState(cfg, after.s.w))
  {
    var left := RunInstalls(w, runs);
    SourcesSurvive(cfg.site, w, runs);
    FeasibleBySources(cfg, v, w, left);
    InstallSucceedsIff(cfg, v, Sys(w, t1), a1);
    InstallSucceedsIff(cfg, v, Sys(left, t2), a2);
    if Feasible(cfg, v, w) {
      HistoryIndependent(cfg, v, Sys(w, t1), a1, Sys(left, t2), a2);
    }
  }

  // ---------------------------------------------------------------- Delete: how many calls

  /** How many calls a Delete pass makes at most. */
  function DeleteCalls(site: Site, w: World): nat {
    3 + (6 + Replicas(site, w, ImagePull) + Replicas(site, w, ChartPull)) + 4 + (1 + Replicas(site, w, CaBundle))
  }

  lemma FewerNames(site: Site, a: World, b: World, st: Stamp)
    requires MarkedNames(site, b, st) <= MarkedNames(site, a, st)
    ensures Replicas(site, b, st) <= Replicas(site, a, st)
  {
    SmallerSet(MarkedNames(site, b, st), MarkedNames(site, a, st));
  }

  lemma DoFewerNames(site: Site, s: Sys, op: Op, st: Stamp)
    requires !op.PutSecret?
    ensures Replicas(site, Do(site, s, op).s.w, st) <= Replicas(site, s.w, st)
  {
    if s.ticks != [] {
      var w := Arrive(site, s.w, s.ticks[0]);
      RelyRefl(site, s.w);
      RelySameNames(site, s.w, w, st);
      WriteNames(site, w, op, st);
      FewerNames(site, s.w, Do(site, s, op).s.w, st);
    }
  }

  lemma PruneFewerNames(site: Site, s: Sys, st: Stamp, keep: seq<string>, other: Stamp)
    ensures Replicas(site, Prune(site, s, st, keep).s.w, other) <= Replicas(site, s.w, other)
  {
    var most := MarkedNames(site, s.w, other);
    NamesWithinRely(site, other, most);
    var inv := (w: World) => NamesWithin(site, w, other, most);
    forall w, op: Op | inv(w) && op.DeleteSecret? ensures inv(Apply(site, w, op)) {
      WriteNames(site, w, op, other);
    }
    PruneKeeps(site, s, st, keep, inv);
    FewerNames(site, s.w, Prune(site, s, st, keep).s.w, other);
  }

  lemma DoCalls(site: Site, s: Sys, op: Op)
    ensures Within(s, Do(site, s, op), 1)
  {
  }

  lemma RemoveReloaderCalls(site: Site, s: Sys)
    ensures Within(s, RemoveReloader(site, s), 2)
  {
  }

  lemma UninstallCalls(cfg: Config, s: Sys)
    ensures Within(s, Uninstall(cfg, s), 6 + Replicas(cfg.site, s.w, ImagePull) + Replicas(cfg.site, s.w, ChartPull))
  {
    var site := cfg.site;
    var release := Do(site, s, DeleteRelease(ARGOCD));
    var repo := Do(site, release.s, DeleteRepo(ARGOCD));
    var images := Prune(site, repo.s, ImagePull, []);
    var charts := Prune(site, images.s, ChartPull, []);
    DoCalls(site, s, DeleteRelease(ARGOCD));
    DoCalls(site, release.s, DeleteRepo(ARGOCD));
    PruneCalls(site, repo.s, ImagePull, []);
    PruneCalls(site, images.s, ChartPull, []);
    RemoveReloaderCalls(site, charts.s);
    forall st | st in {ImagePull, ChartPull}
      ensures Replicas(site, repo.s.w, st) <= Replicas(site, s.w, st)
    {
      DoFewerNames(site, s, DeleteRelease(ARGOCD), st);
      DoFewerNames(site, release.s, DeleteRepo(ARGOCD), st);
    }
    PruneFewerNames(site, repo.s, ImagePull, [], ChartPull);
  }

  lemma UninstallFewerNames(cfg: Config, s: Sys, st: Stamp)
    ensures Replicas(cfg.site, Uninstall(cfg, s).s.w, st) <= Replicas(cfg.site, s.w, st)
  {
    var most := MarkedNames(cfg.site, s.w, st);
    NamesWithinRely(cfg.site, st, most);
    var inv := (w: World) => NamesWithin(cfg.site, w, st, most);
    forall w, op | inv(w) && DeleteOp(cfg, w, op) ensures inv(Apply(cfg.site, w, op)) {
      WriteNames(cfg.site, w, op, st);
    }
    UninstallKeeps(cfg, s, inv);
    FewerNames(cfg.site, s.w, Uninstall(cfg, s).s.w, st);
  }

  lemma CheckCalls(cfg: Config, s: Sys)
    ensures var c := IsUninstalled(cfg, s);
      Within(s, Out(c.s, c.a), 4) && Replicas(cfg.site, c.s.w, CaBundle) == Replicas(cfg.site, s.w, CaBundle)
  {
    CheckedTogether(cfg, s);
    RelySameNames(cfg.site, s.w, IsUninstalled(cfg, s).s.w, CaBundle);
  }

  lemma RemoveCaCalls(cfg: Config, s: Sys)
    ensures Within(s, RemoveCa(cfg, s), 1 + Replicas(cfg.site, s.w, CaBundle))
  {
    if cfg.caBundle == "" {
      PruneCalls(cfg.site, s, CaBundle, []);
    }
  }

  lemma CountCalls(site: Site, s: Sys)
    ensures var c := CountUser(site, s);
      Within(s, Out(c.s, c.a), 3) && forall st :: Replicas(site, c.s.w, st) == Replicas(site, s.w, st)
  {
    CountOnlyReads(site, s);
    forall st ensures Replicas(site, CountUser(site, s).s.w, st) == Replicas(site, s.w, st) {
      RelySameNames(site, s.w, CountUser(site, s).s.w, st);
    }
  }

  /** With answers for that many calls a pass is not cut off. */
  lemma RemoveIsBounded(cfg: Config, s: Sys)
    requires |s.ticks| >= DeleteCalls(cfg.site, s.w) - 3
    ensures Remove(cfg, s).end != CutOff
  {
    var u := Uninstall(cfg, s);
    UninstallCalls(cfg, s);
    UninstallFewerNames(cfg, s, CaBundle);
    if u.a == Done {
      CheckCalls(cfg, u.s);
      RemoveCaCalls(cfg, IsUninstalled(cfg, u.s).s);
    }
  }

  lemma DeleteIsBounded(cfg: Config, s: Sys)
    requires |s.ticks| >= DeleteCalls(cfg.site, s.w)
    ensures Delete(cfg, s).end != CutOff
  {
    CountCalls(cfg.site, s);
    var counted := CountUser(cfg.site, s);
    if counted.a == Done && counted.n == 0 {
      RemoveIsBounded(cfg, counted.s);
    }
  }

  // ---------------------------------------------------------------- Delete: when no call fails

  lemma CountFine(site: Site, s: Sys, p: World -> bool)
    requires Smooth(s, p)
    ensures var c := CountUser(site, s);
      Fine(Out(c.s, c.a), p)
  {
    LookFine(site, s, p);
    LookFine(site, Look(site, s).s, p);
    LookFine(site, Look(site, Look(site, s).s).s, p);
  }

  lemma UninstallFine(cfg: Config, s: Sys, p: World -> bool)
    requires Smooth(s, p) && Spared(cfg.site, p)
    ensures Fine(Uninstall(cfg, s), p)
  {
    var site := cfg.site;
    var release := Do(site, s, DeleteRelease(ARGOCD));
    var repo := Do(site, release.s, DeleteRepo(ARGOCD));
    var images := Prune(site, repo.s, ImagePull, []);
    var charts := Prune(site, images.s, ChartPull, []);
    DoFine(site, s, DeleteRelease(ARGOCD), p);
    DoFine(site, release.s, DeleteRepo(ARGOCD), p);
    PruneFine(site, repo.s, ImagePull, [], p);
    PruneFine(site, images.s, ChartPull, [], p);
    DoFine(site, charts.s, DeleteRelease(RELOADER), p);
    DoFine(site, Do(site, charts.s, DeleteRelease(RELOADER)).s, DeleteRepo(RELOADER), p);
  }

  lemma CheckFine(cfg: Config, s: Sys, p: World -> bool)
    requires Smooth(s, p)
    ensures var c := IsUninstalled(cfg, s);
      Fine(Out(c.s, c.a), p)
  {
    var one := Look(cfg.site, s).s;
    LookFine(cfg.site, s, p);
    var two := Look(cfg.site, one).s;
    LookFine(cfg.site, one, p);
    LookFine(cfg.site, two, p);
    LookFine(cfg.site, Look(cfg.site, two).s, p);
  }

  /** A pass in which no call fails ends without error, whatever others do: it completes, waits for
      Flux, is blocked by user resources, or is cut off. */
  lemma DeleteNeverFails(cfg: Config, s: Sys)
    requires Obliging(s.ticks)
    ensures Delete(cfg, s).end in {Complete, Waiting, Blocked, CutOff}
    ensures |s.ticks| >= DeleteCalls(cfg.site, s.w) ==> Delete(cfg, s).end != CutOff
  {
    var yes := (w: World) => true;
    CountFine(cfg.site, s, yes);
    var counted := CountUser(cfg.site, s);
    if counted.a == Done && counted.n == 0 {
      RemoveNeverFails(cfg, counted.s);
    }
    if |s.ticks| >= DeleteCalls(cfg.site, s.w) {
      DeleteIsBounded(cfg, s);
    }
  }

  lemma RemoveNeverFails(cfg: Config, s: Sys)
    requires Obliging(s.ticks)
    ensures Remove(cfg, s).end in {Complete, Waiting, CutOff}
  {
    var yes := (w: World) => true;
    UninstallFine(cfg, s, yes);
    var u := Uninstall(cfg, s);
    if u.a == Done {
      CheckFine(cfg, u.s, yes);
      var c := IsUninstalled(cfg, u.s);
      if cfg.caBundle == "" {
        PruneFine(cfg.site, c.s, CaBundle, [], yes);
      } else {
        DoFine(cfg.site, c.s, DeleteSecret(CaBundle, cfg.caBundle), yes);
      }
    }
  }

  /** No user resources, as the guard counts them. */
  predicate Unused(site: Site, w: World) {
    && Items(w.mcp.applications) == [] && Items(w.mcp.applicationSets) == []
    && forall p | p in Items(w.mcp.appProjects) :: p == Ref(site.mcpNs, DEFAULT_PROJECT)
  }

  lemma UnusedIsNotBlocked(site: Site, s: Sys)
    requires Throughout(s, (w: World) => Unused(site, w))
    ensures CountUser(site, s).n == 0
  {
    var one := Look(site, s).s;
    var two := Look(site, one).s;
    CountProjectsZero(site, Items(Look(site, two).s.w.mcp.appProjects));
  }

  /** No call fails, no user resource shows up, and there are answers for every call of the pass. */
  ghost predicate GetsThrough(cfg: Config, s: Sys) {
    && Obliging(s.ticks) && |s.ticks| >= DeleteCalls(cfg.site, s.w)
    && Throughout(s, (w: World) => Unused(cfg.site, w))
  }

  /** Such a pass completes or waits, and leaves every Flux object that is left marked for removal;
      when none was left at its beginning, it completes. */
  lemma DeleteGetsThrough(cfg: Config, s: Sys)
    requires GetsThrough(cfg, s)
    ensures Delete(cfg, s).end in {Complete, Waiting} && AllLeaving(cfg.site, Delete(cfg, s).s.w)
    ensures FluxGone(cfg.site, s.w) ==> Delete(cfg, s).end == Complete
  {
    DeleteNeverFails(cfg, s);
    UnusedIsNotBlocked(cfg.site, s);
    RemoveNeverBlocks(cfg, CountUser(cfg.site, s).s);
    WaitingMarksAll(cfg, s);
    if FluxGone(cfg.site, s.w) {
      GoneThenNoWaiting(cfg, s);
    }
  }

  lemma CountAlone(site: Site, s: Sys)
    requires Still(s.ticks)
    ensures CountUser(site, s).s.w == s.w && Still(CountUser(site, s).s.ticks)
  {
  }

  lemma CheckAlone(cfg: Config, s: Sys)
    requires Still(s.ticks)
    ensures IsUninstalled(cfg, s).s.w == s.w
  {
  }

  /** No finalizer holds any of the four Flux objects that are there. */
  predicate AllLoose(site: Site, w: World) {
    && (forall r | r in w.repos && OurRef(site, r) :: w.repos[r].life.Loose?)
    && (forall r | r in w.releases && OurRef(site, r) :: w.releases[r].life.Loose?)
  }

  lemma LooseStep(cfg: Config, w: World, op: Op)
    requires DeleteOp(cfg, w, op)
    ensures AllLoose(cfg.site, Apply(cfg.site, w, op)) <==> AllLoose(cfg.site, w)
  {
  }

  lemma LeavingIsGone(site: Site, w: World)
    requires AllLeaving(site, w)
    ensures FluxGone(site, w) <==> AllLoose(site, w)
  {
  }

  /** Without Flux a successful uninstall makes the Flux objects disappear exactly when none of them
      is held. */
  lemma UninstallAlone(cfg: Config, s: Sys)
    requires Still(s.ticks)
    ensures Still(Uninstall(cfg, s).s.ticks)
    ensures Uninstall(cfg, s).a == Done ==> (FluxGone(cfg.site, Uninstall(cfg, s).s.w) <==> AllLoose(cfg.site, s.w))
  {
    var loose := AllLoose(cfg.site, s.w);
    var inv := (w: World) => AllLoose(cfg.site, w) == loose;
    forall w, op | inv(w) && DeleteOp(cfg, w, op) ensures inv(Apply(cfg.site, w, op)) {
      LooseStep(cfg, w, op);
    }
    UninstallKeeps(cfg, s, inv);
    if Uninstall(cfg, s).a == Done {
      UninstallMarksAll(cfg, s);
      LeavingIsGone(cfg.site, Uninstall(cfg, s).s.w);
    }
  }

  lemma AloneCompletesOnlyIfLoose(cfg: Config, s: Sys)
    requires Still(s.ticks) && Delete(cfg, s).end == Complete
    ensures AllLoose(cfg.site, s.w)
  {
    CompleteParts(cfg, s);
    CountAlone(cfg.site, s);
    UninstallAlone(cfg, Started(cfg, s));
    CheckedTogether(cfg, Uninstalled(cfg, s));
    CheckAlone(cfg, Uninstalled(cfg, s));
  }

  lemma AloneWaitsOnlyIfHeld(cfg: Config, s: Sys)
    requires Still(s.ticks) && Delete(cfg, s).end == Waiting
    ensures !AllLoose(cfg.site, s.w)
  {
    WaitingParts(cfg, s);
    CountAlone(cfg.site, s);
    UninstallAlone(cfg, Started(cfg, s));
    if AllLoose(cfg.site, s.w) {
      StillGone(cfg, Uninstalled(cfg, s));
    }
  }

  lemma AloneCount(site: Site, s: Sys)
    requires Quiet(s.ticks) && CountUser(site, s).a == Done
    ensures CountUser(site, s).n == 0 <==> Unused(site, s.w)
  {
    CountProjectsZero(site, Items(s.w.mcp.appProjects));
  }

  /** Every pass in which no call fails and nobody else acts ends as the stores say: blocked while
      there are user resources, complete when no finalizer holds any Flux object that is left, else
      waiting. */
  lemma DeleteEndsAs(cfg: Config, s: Sys)
    requires Quiet(s.ticks) && |s.ticks| >= DeleteCalls(cfg.site, s.w)
    ensures Delete(cfg, s).end ==
              if !Unused(cfg.site, s.w) then Blocked else if AllLoose(cfg.site, s.w) then Complete else Waiting
  {
    DeleteNeverFails(cfg, s);
    CountCalls(cfg.site, s);
    CountFine(cfg.site, s, (w: World) => true);
    AloneCount(cfg.site, s);
    if Unused(cfg.site, s.w) {
      DeleteGetsThrough(cfg, s);
      if Delete(cfg, s).end == Complete {
        AloneCompletesOnlyIfLoose(cfg, s);
      } else {
        AloneWaitsOnlyIfHeld(cfg, s);
      }
    }
  }

  // ---------------------------------------------------------------- teardown ends

  /** A teardown, each pass with the configuration of its time: every pass gets through, and Flux
      removes something of what is left between any two. starts are the stores as each pass finds
      them. */
  ghost predicate Progressing(site: Site, starts: seq<World>, passes: seq<Attempt>) {
    && |starts| == |passes| >= 1
    && (forall i | 0 <= i < |starts| ::
          passes[i].cfg.site == site && GetsThrough(passes[i].cfg, Sys(starts[i], passes[i].ticks)))
    && (forall i | 0 <= i < |starts| - 1 ::
          var end := Delete(passes[i].cfg, Sys(starts[i], passes[i].ticks)).s.w;
          if FluxGone(site, end) then Rely(site, end, starts[i + 1]) else Finalizes(site, end, starts[i + 1]))
  }

  /** A waiting pass had something to wait for, and Flux has removed some of it before the next. */
  lemma WaitingCostsOne(site: Site, starts: seq<World>, passes: seq<Attempt>)
    requires Progressing(site, starts, passes) && |starts| >= 2
    requires Delete(passes[0].cfg, Sys(starts[0], passes[0].ticks)).end == Waiting
    ensures FluxCount(site, starts[1]) < FluxCount(site, starts[0])
  {
    var s := Sys(starts[0], passes[0].ticks);
    var first := Delete(passes[0].cfg, s);
    if FluxGone(site, starts[0]) {
      GoneThenNoWaiting(passes[0].cfg, s);
    }
    CountNeverRises(passes[0].cfg, s);
    if FluxGone(site, first.s.w) {
      GoneStays(site, first.s.w, starts[1], ARGOCD);
      GoneStays(site, first.s.w, starts[1], RELOADER);
    } else {
      FinalizerLowers(site, first.s.w, starts[1]);
    }
  }

  lemma ProgressingRest(site: Site, starts: seq<World>, passes: seq<Attempt>)
    requires Progressing(site, starts, passes) && |starts| >= 2
    ensures Progressing(site, starts[1..], passes[1..])
  {
  }

  /** Termination: at most as many passes wait as there were Flux objects, so the fifth pass at the
      latest completes. */
  lemma {:induction false} TeardownTerminates(site: Site, starts: seq<World>, passes: seq<Attempt>) returns (i: nat)
    requires Progressing(site, starts, passes) && |starts| > FluxCount(site, starts[0])
    ensures i <= FluxCount(site, starts[0]) && i < |starts|
    ensures Delete(passes[i].cfg, Sys(starts[i], passes[i].ticks)).end == Complete
    decreases |starts|
  {
    DeleteGetsThrough(passes[0].cfg, Sys(starts[0], passes[0].ticks));
    if Delete(passes[0].cfg, Sys(starts[0], passes[0].ticks)).end == Complete {
      i := 0;
    } else {
      WaitingCostsOne(site, starts, passes);
      ProgressingRest(site, starts, passes);
      var k := TeardownTerminates(site, starts[1..], passes[1..]);
      i := k + 1;
    }
  }

  // ---------------------------------------------------------------- a CA copy left behind

  /** After the bundle was renamed from old to new, a completed teardown leaves the copy of old. */
  lemma CaOrphanRemains(cfg: Config) returns (s: Sys)
    requires cfg.caBundle == "new"
    ensures Delete(cfg, s).end == Complete
    ensures Has(cfg.site, Delete(cfg, s).s.w, CaBundle, "old")
  {
    var r := Place(cfg.site, CaBundle, "old");
    var secret := Secret(map[CA_LABEL := "true"], "Opaque", map[]);
    var w := World(map[r := secret], map[], map[], Mcp({}, map[], [], None, None, None));
    s := Sys(w, seq(DeleteCalls(cfg.site, w), i => Tick(None, Ok, [])));
    assert Has(cfg.site, w, CaBundle, "old");
    assert !(CHART_LABEL in secret.labels);
    DeleteEndsAs(cfg, s);
    OtherCaUntouched(cfg, s, "old");
  }
}
