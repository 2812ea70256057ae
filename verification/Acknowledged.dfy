/** No error is swallowed: whatever does not report one had every call answered, Reloader's aside. */
module Acknowledged {
  import opened Wrappers
  import opened JsonTrees
  import opened ValuesLaws
  import opened Cluster
  import opened Provision
  import opened InstallLaws
  import opened Teardown
  import C = Controller
  import ControllerLaws
  import Outcomes

  /** From s to e calls were made that all succeeded. */
  predicate Acked(s: Sys, e: Sys) {
    && |e.ticks| <= |s.ticks|
    && e.ticks == s.ticks[|s.ticks| - |e.ticks|..]
    && forall i | 0 <= i < |s.ticks| - |e.ticks| :: s.ticks[i].reply.Ok?
  }

  /** The step did not fail, and then all its calls succeeded. */
  predicate Honest(s: Sys, o: Out) {
    o.a != Failed ==> Acked(s, o.s)
  }

  lemma AckedTrans(a: Sys, b: Sys, c: Sys)
    requires Acked(a, b) && Acked(b, c)
    ensures Acked(a, c)
  {
    var k, l := |a.ticks| - |b.ticks|, |b.ticks| - |c.ticks|;
    assert a.ticks[k..][l..] == a.ticks[k + l..];
    forall i | 0 <= i < k + l ensures a.ticks[i].reply.Ok? {
      if i >= k {
        assert a.ticks[i] == b.ticks[i - k];
      }
    }
  }

  lemma CallHonest(site: Site, s: Sys, op: Op)
    ensures Honest(s, Look(site, s)) && Honest(s, Do(site, s, op))
  {
  }

  lemma LookHonest(site: Site, s: Sys)
    ensures Honest(s, Look(site, s))
  {
    CallHonest(site, s, CreateNamespace);
  }

  lemma CopyHonest(site: Site, s: Sys, st: Stamp, name: string)
    ensures Honest(s, Copy(site, s, st, name))
  {
    LookHonest(site, s);
    var look := Look(site, s);
    if look.a == Done && Ref(site.pod, name) in look.s.w.secrets {
      var src := look.s.w.secrets[Ref(site.pod, name)];
      WriteHonest(site, look.s, st, PutSecret(st, name, src.typ, src.data));
      Then(s, look, Write(site, look.s, st, PutSecret(st, name, src.typ, src.data)));
    }
  }

  /** The writing half of a copy. */
  function Write(site: Site, s: Sys, st: Stamp, put: Op): Out {
    var ready := if st.ImagePull? then Do(site, s, CreateNamespace) else Out(s, Done);
    if ready.a != Done then ready else Do(site, ready.s, put)
  }

  lemma WriteHonest(site: Site, s: Sys, st: Stamp, put: Op)
    ensures Honest(s, Write(site, s, st, put))
  {
    var ready := if st.ImagePull? then Do(site, s, CreateNamespace) else Out(s, Done);
    CallHonest(site, s, CreateNamespace);
    if ready.a == Done {
      CallHonest(site, ready.s, put);
      Then(s, ready, Do(site, ready.s, put));
    }
  }

  lemma {:induction false} CopyAllHonest(site: Site, s: Sys, st: Stamp, names: seq<string>)
    ensures Honest(s, CopyAll(site, s, st, names))
    decreases |names|
  {
    if names == [] {
    } else {
      var first := Copy(site, s, st, names[0]);
      CopyHonest(site, s, st, names[0]);
      if first.a == Done {
        CopyAllHonest(site, first.s, st, names[1..]);
        Then(s, first, CopyAll(site, first.s, st, names[1..]));
      }
    }
  }

  /** A step after another that got through. */
  lemma Then(s: Sys, one: Out, two: Out)
    requires Honest(s, one) && one.a != Failed && Honest(one.s, two)
    ensures Honest(s, two)
  {
    if two.a != Failed {
      AckedTrans(s, one.s, two.s);
    }
  }

  lemma {:induction false} DeleteAllHonest(site: Site, s: Sys, st: Stamp, listed: seq<string>, keep: seq<string>)
    ensures Honest(s, DeleteAll(site, s, st, listed, keep))
    decreases |listed|
  {
    if listed == [] {
    } else if listed[0] in keep {
      DeleteAllHonest(site, s, st, listed[1..], keep);
    } else {
      var first := Do(site, s, DeleteSecret(st, listed[0]));
      CallHonest(site, s, DeleteSecret(st, listed[0]));
      if first.a == Done {
        DeleteAllHonest(site, first.s, st, listed[1..], keep);
        Then(s, first, DeleteAll(site, first.s, st, listed[1..], keep));
      }
    }
  }

  lemma PruneHonest(site: Site, s: Sys, st: Stamp, keep: seq<string>)
    ensures Honest(s, Prune(site, s, st, keep))
  {
    LookHonest(site, s);
    var list := ListMarked(site, s, st);
    if list.a == Done {
      DeleteAllHonest(site, list.s, st, list.names, keep);
      Then(s, Look(site, s), DeleteAll(site, list.s, st, list.names, keep));
    }
  }

  lemma ReconcileHonest(site: Site, s: Sys, st: Stamp, names: seq<string>)
    ensures Honest(s, Reconcile(site, s, st, names))
  {
    CopyAllHonest(site, s, st, names);
    var copied := CopyAll(site, s, st, names);
    if copied.a == Done {
      PruneHonest(site, copied.s, st, names);
      Then(s, copied, Prune(site, copied.s, st, names));
    }
  }

  lemma CaHonest(cfg: Config, s: Sys)
    ensures var r := ReconcileCa(cfg, s);
      Honest(s, Out(r.s, r.a))
  {
    if cfg.caBundle == "" {
      PruneHonest(cfg.site, s, CaBundle, []);
    } else {
      LookHonest(cfg.site, s);
      var look := Look(cfg.site, s);
      if look.a == Done && Ref(cfg.site.pod, cfg.caBundle) in look.s.w.secrets {
        var src := look.s.w.secrets[Ref(cfg.site.pod, cfg.caBundle)];
        var put := PutSecret(CaBundle, cfg.caBundle, src.typ, src.data);
        CallHonest(cfg.site, look.s, put);
        Then(s, look, Do(cfg.site, look.s, put));
      }
    }
  }

  lemma PrepareHonest(cfg: Config, v: Version, s: Sys)
    ensures var r := Prepare(cfg, v, s);
      Honest(s, Out(r.s, r.a))
  {
    if PullNames(v.values).Success? {
      var images := Reconcile(cfg.site, s, ImagePull, ImageNames(v));
      ReconcileHonest(cfg.site, s, ImagePull, ImageNames(v));
      if images.a == Done {
        var charts := Reconcile(cfg.site, images.s, ChartPull, ChartNames(v, cfg.reloader));
        ReconcileHonest(cfg.site, images.s, ChartPull, ChartNames(v, cfg.reloader));
        Then(s, images, charts);
        if charts.a == Done {
          CaHonest(cfg, charts.s);
          Then(s, charts, Out(ReconcileCa(cfg, charts.s).s, ReconcileCa(cfg, charts.s).a));
        }
      }
    }
  }

  lemma ArgoHonest(cfg: Config, v: Version, s: Sys, compiled: Result<Option<Json>>)
    requires v.chartURL.Some?
    ensures Honest(s, ApplyArgo(cfg, v, s, compiled))
  {
    var put := PutRepo(ARGOCD, BY_ARGOCD, ArgoRepo(cfg, v));
    CallHonest(cfg.site, s, put);
    var repo := Do(cfg.site, s, put);
    if repo.a == Done && compiled.Success? {
      var release := PutRelease(ARGOCD, BY_ARGOCD, ArgoRelease(cfg, compiled.value));
      CallHonest(cfg.site, repo.s, release);
      Then(s, repo, Do(cfg.site, repo.s, release));
    }
  }

  /** An Install that reports no error had every call acknowledged, those of Reloader aside. */
  lemma InstallHonest(cfg: Config, v: Version, s: Sys, addon: seq<Tick>)
    ensures Honest(s, Install(cfg, v, s, addon))
  {
    ReloaderTouchesOnlyItsOwn(cfg, v, s, addon);
    if v.chartURL.Some? {
      var p := Prepare(cfg, v, s);
      PrepareHonest(cfg, v, s);
      if p.a == Done {
        ArgoHonest(cfg, v, p.s, InstallValues(cfg, v, p.ca));
        Then(s, Out(p.s, p.a), ApplyArgo(cfg, v, p.s, InstallValues(cfg, v, p.ca)));
      }
    }
  }

  // ---------------------------------------------------------------- Delete

  lemma CountHonest(site: Site, s: Sys)
    ensures var c := CountUser(site, s);
      Honest(s, Out(c.s, c.a))
  {
    var apps := Look(site, s);
    LookHonest(site, s);
    if apps.a == Done {
      var sets := Look(site, apps.s);
      LookHonest(site, apps.s);
      Then(s, apps, sets);
      if sets.a == Done {
        LookHonest(site, sets.s);
        Then(s, sets, Look(site, sets.s));
      }
    }
  }

  lemma PairHonest(site: Site, s: Sys, name: string)
    ensures var one := Do(site, s, DeleteRelease(name));
      Honest(s, one) && (one.a == Done ==> Honest(s, Do(site, one.s, DeleteRepo(name))))
  {
    var one := Do(site, s, DeleteRelease(name));
    CallHonest(site, s, DeleteRelease(name));
    if one.a == Done {
      CallHonest(site, one.s, DeleteRepo(name));
      Then(s, one, Do(site, one.s, DeleteRepo(name)));
    }
  }

  lemma UninstallHonest(cfg: Config, s: Sys)
    ensures Honest(s, Uninstall(cfg, s))
  {
    var site := cfg.site;
    PairHonest(site, s, ARGOCD);
    var release := Do(site, s, DeleteRelease(ARGOCD));
    var repo := Do(site, release.s, DeleteRepo(ARGOCD));
    if release.a == Done && repo.a == Done {
      var images := Prune(site, repo.s, ImagePull, []);
      PruneHonest(site, repo.s, ImagePull, []);
      Then(s, repo, images);
      if images.a == Done {
        var charts := Prune(site, images.s, ChartPull, []);
        PruneHonest(site, images.s, ChartPull, []);
        Then(s, images, charts);
        if charts.a == Done {
          PairHonest(site, charts.s, RELOADER);
          Then(s, charts, RemoveReloader(site, charts.s));
        }
      }
    }
  }

  lemma CheckHonest(cfg: Config, s: Sys)
    ensures var c := IsUninstalled(cfg, s);
      Honest(s, Out(c.s, c.a))
  {
    var one := Look(cfg.site, s);
    LookHonest(cfg.site, s);
    if one.a == Done {
      var two := Look(cfg.site, one.s);
      LookHonest(cfg.site, one.s);
      Then(s, one, two);
      if two.a == Done {
        var three := Look(cfg.site, two.s);
        LookHonest(cfg.site, two.s);
        Then(s, two, three);
        if three.a == Done {
          LookHonest(cfg.site, three.s);
          Then(s, three, Look(cfg.site, three.s));
        }
      }
    }
  }

  lemma RemoveCaHonest(cfg: Config, s: Sys)
    ensures Honest(s, RemoveCa(cfg, s))
  {
    CallHonest(cfg.site, s, DeleteSecret(CaBundle, cfg.caBundle));
    PruneHonest(cfg.site, s, CaBundle, []);
  }

  lemma RemoveHonest(cfg: Config, s: Sys)
    requires Remove(cfg, s).end != UninstallError && Remove(cfg, s).end != CaError
    ensures Acked(s, Remove(cfg, s).s)
  {
    var u := Uninstall(cfg, s);
    UninstallHonest(cfg, s);
    if u.a == Done {
      var c := IsUninstalled(cfg, u.s);
      CheckHonest(cfg, u.s);
      Then(s, u, Out(c.s, c.a));
      if c.a == Done && c.gone {
        RemoveCaHonest(cfg, c.s);
        Then(s, Out(c.s, c.a), RemoveCa(cfg, c.s));
      }
    }
  }

  /** A Delete pass that reports no error had every call acknowledged. */
  lemma DeleteHonest(cfg: Config, s: Sys)
    requires Delete(cfg, s).end !in {GuardError, UninstallError, CaError}
    ensures Acked(s, Delete(cfg, s).s)
  {
    var c := CountUser(cfg.site, s);
    CountHonest(cfg.site, s);
    if c.a == Done && c.n == 0 {
      RemoveHonest(cfg, c.s);
      AckedTrans(s, c.s, Remove(cfg, c.s).s);
    }
  }

  // ---------------------------------------------------------------- whole passes

  lemma ReadsHonest(p: C.Pass, site: Site, s: Sys, stale: string, url: Option<string>)
    requires Outcomes.AnswersReadiness(p, site, s, stale, url) && p.r != Outcomes.WITH_ERROR
    ensures Acked(s, p.s)
  {
    var one := Look(site, s);
    LookHonest(site, s);
    if one.a == Done {
      var two := Look(site, one.s);
      LookHonest(site, one.s);
      Then(s, one, two);
      if two.a == Done {
        LookHonest(site, two.s);
        Then(s, two, Look(site, two.s));
      }
    }
  }

  /** A CreateOrUpdate pass that returns no error had every call acknowledged, those of Reloader aside. */
  lemma PassHonest(obj: C.ArgoCD, pc: C.ProviderConfig, access: C.Access, isCIDR: string -> bool,
                   s: Sys, addon: seq<Tick>)
    requires C.CreateOrUpdate(obj, pc, access, isCIDR, s, addon).r != C.Returned(false, true)
    ensures Acked(s, C.CreateOrUpdate(obj, pc, access, isCIDR, s, addon).s)
  {
    var p := C.CreateOrUpdate(obj, pc, access, isCIDR, s, addon);
    LookHonest(access.site, s);
    if ControllerLaws.GoesAhead(obj, access, s) {
      Outcomes.PassAnswers(obj, pc, access, isCIDR, s, addon);
      var start := ControllerLaws.Begin(obj, access, s);
      if Outcomes.Acceptable(obj, pc, access, isCIDR) {
        var installed := Outcomes.InstallOf(obj, pc, access, s, addon);
        var v := C.SelectVersion(pc.versions, obj.spec.version).value;
        InstallHonest(C.ConfigOf(obj.spec, pc, access), v, start, addon);
        AckedTrans(s, start, installed.s);
        if installed.a == Done {
          ReadsHonest(p, access.site, installed.s, obj.status.endpoint, Outcomes.AskedUrl(obj, access));
          AckedTrans(s, installed.s, p.s);
        }
      }
    } else {
      Outcomes.SkippedPassAnswers(obj, pc, access, isCIDR, s, addon);
    }
  }

  /** Nor does a Delete pass swallow an error. */
  lemma DeletePassHonest(obj: C.ArgoCD, pc: C.ProviderConfig, access: C.Access, s: Sys)
    requires C.DeletePass(obj, pc, access, s).r != C.Returned(false, true)
    ensures Acked(s, C.DeletePass(obj, pc, access, s).s)
  {
    if access.tenantKnown {
      DeleteHonest(C.ConfigOf(obj.spec, pc, access), s);
    }
  }
}
