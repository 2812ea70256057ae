/** Deletion (Delete in internal/controller/provider_controller.go with Uninstall, IsUninstalled and
    the deletion guard of internal/argocd/provisioner.go): a pass that may fail or be cut off at any
    call, run again until it completes. */
module Teardown {
  import opened Wrappers
  import opened Cluster
  import opened Provision

  const DEFAULT_PROJECT := "default"

  // ---------------------------------------------------------------- the deletion guard

  /** A missing CRD counts as an empty list. */
  function Items(listed: Option<seq<Ref>>): seq<Ref> {
    if listed.Some? then listed.value else []
  }

  /** countUserAppProjects: the default project of ArgoCD's own namespace is not the user's. */
  function CountProjects(site: Site, projects: seq<Ref>): nat {
    if projects == [] then 0
    else
      CountProjects(site, projects[..|projects| - 1])
      + if projects[|projects| - 1] == Ref(site.mcpNs, DEFAULT_PROJECT) then 0 else 1
  }

  lemma {:induction false} CountProjectsZero(site: Site, projects: seq<Ref>)
    ensures CountProjects(site, projects) == 0 <==> forall p | p in projects :: p == Ref(site.mcpNs, DEFAULT_PROJECT)
  {
    if projects == [] {
    } else {
      var init, last := projects[..|projects| - 1], projects[|projects| - 1];
      CountProjectsZero(site, init);
      assert projects == init + [last] && last in projects;
      assert forall p | p in init :: p in projects;
    }
  }

  datatype Counted = Counted(s: Sys, a: Answer, n: nat)

  /** CountUserArgoCDResources: three lists, read one after the other. */
  function CountUser(site: Site, s: Sys): Counted {
    var apps := Look(site, s);
    if apps.a != Done then Counted(apps.s, apps.a, 0)
    else
      var sets := Look(site, apps.s);
      if sets.a != Done then Counted(sets.s, sets.a, 0)
      else
        var projects := Look(site, sets.s);
        if projects.a != Done then Counted(projects.s, projects.a, 0)
        else
          Counted(projects.s, Done,
                  |Items(apps.s.w.mcp.applications)| + |Items(sets.s.w.mcp.applicationSets)|
                  + CountProjects(site, Items(projects.s.w.mcp.appProjects)))
  }

  // ---------------------------------------------------------------- uninstalling

  /** Uninstall. */
  function Uninstall(cfg: Config, s: Sys): Out {
    var release := Do(cfg.site, s, DeleteRelease(ARGOCD));
    if release.a != Done then release
    else
      var repo := Do(cfg.site, release.s, DeleteRepo(ARGOCD));
      if repo.a != Done then repo
      else
        var images := Prune(cfg.site, repo.s, ImagePull, []);
        if images.a != Done then images
        else
          var charts := Prune(cfg.site, images.s, ChartPull, []);
          if charts.a != Done then charts
          else RemoveReloader(cfg.site, charts.s)
  }

  datatype Checked = Checked(s: Sys, a: Answer, gone: bool)

  function ReleaseGone(site: Site, s: Sys, name: string): Checked {
    var look := Look(site, s);
    Checked(look.s, look.a, look.a == Done && Ref(site.tenant, name) !in look.s.w.releases)
  }

  function RepoGone(site: Site, s: Sys, name: string): Checked {
    var look := Look(site, s);
    Checked(look.s, look.a, look.a == Done && Ref(site.tenant, name) !in look.s.w.repos)
  }

  /** IsUninstalled: four reads, each only if the one before found nothing. */
  function IsUninstalled(cfg: Config, s: Sys): Checked {
    var one := ReleaseGone(cfg.site, s, ARGOCD);
    if !one.gone then one
    else
      var two := RepoGone(cfg.site, one.s, ARGOCD);
      if !two.gone then two
      else
        var three := ReleaseGone(cfg.site, two.s, RELOADER);
        if !three.gone then three else RepoGone(cfg.site, three.s, RELOADER)
  }

  /** Complete releases the finalizer. Blocked and Waiting come back later, for the user or for
      Flux; the errors are retried; CutOff means the provider stopped in the middle. */
  datatype PassEnd = Complete | Waiting | Blocked | GuardError | UninstallError | CaError | CutOff

  datatype Pass = Pass(s: Sys, end: PassEnd)

  function Broken(s: Sys, a: Answer, error: PassEnd): Pass {
    Pass(s, if a == Halted then CutOff else error)
  }

  /** Delete after the guard. */
  function Remove(cfg: Config, s: Sys): Pass {
    var uninstalled := Uninstall(cfg, s);
    if uninstalled.a != Done then Broken(uninstalled.s, uninstalled.a, UninstallError)
    else
      var checked := IsUninstalled(cfg, uninstalled.s);
      if checked.a != Done then Broken(checked.s, checked.a, UninstallError)
      else if !checked.gone then Pass(checked.s, Waiting)
      else
        var removed := RemoveCa(cfg, checked.s);
        if removed.a != Done then Broken(removed.s, removed.a, CaError) else Pass(removed.s, Complete)
  }

  /** One Delete pass. */
  function Delete(cfg: Config, s: Sys): Pass {
    var counted := CountUser(cfg.site, s);
    if counted.a != Done then Broken(counted.s, counted.a, GuardError)
    else if counted.n > 0 then Pass(counted.s, Blocked)
    else Remove(cfg, counted.s)
  }

  /** Passes one after the other, each with the configuration of its time. */
  datatype Attempt = Attempt(cfg: Config, ticks: seq<Tick>)

  function RunDeletes(w: World, attempts: seq<Attempt>): World
    decreases |attempts|
  {
    if attempts == [] then w
    else RunDeletes(Delete(attempts[0].cfg, Sys(w, attempts[0].ticks)).s.w, attempts[1..])
  }
}
