/** Results that join the values compiler, Install and teardown. */
module Lifecycle {
  import opened ValuesLaws
  import opened Cluster
  import opened Provision
  import opened InstallLaws
  import opened Convergence
  import opened TeardownLaws

  /** After a successful Install the image pull secrets on the MCP are exactly those the applied
      HelmRelease refers to, unless the internal vault bundle puts its own name there. */
  lemma ReplicasMatchRelease(cfg: Config, v: Version, s: Sys, addon: seq<Tick>)
    requires Apart(cfg, v, s.w) && Install(cfg, v, s, addon).a == Done
    requires !cfg.vault.enabled || cfg.vault.openSource
    ensures var end, r := Install(cfg, v, s, addon).s.w, Ref(cfg.site.tenant, ARGOCD);
      r in end.releases ==>
        var names := PullNames(end.releases[r].spec.values);
        names.Success? && forall n :: Has(cfg.site, end, ImagePull, n) <==> n in names.value
  {
    PullSecretsExact(cfg, v, s, addon);
    InstalledAsAsked(cfg, v, s, addon);
    var end := Install(cfg, v, s, addon).s.w;
    CompiledPullNames(v.values, cfg.exposure, CaIn(cfg, end), cfg.vault, v.version);
  }

  /** Running Install once more on what it left changes nothing. */
  lemma InstallTwiceIsOnce(cfg: Config, v: Version, s: Sys, addon: seq<Tick>, again: seq<Tick>, againAddon: seq<Tick>)
    requires cfg.site.pod != cfg.site.tenant && Apart(cfg, v, s.w)
    requires Quiet(s.ticks) && Quiet(addon) && Install(cfg, v, s, addon).a == Done
    requires Quiet(again) && Quiet(againAddon)
    requires Install(cfg, v, Sys(Install(cfg, v, s, addon).s.w, again), againAddon).a == Done
    ensures Install(cfg, v, Sys(Install(cfg, v, s, addon).s.w, again), againAddon).s.w == Install(cfg, v, s, addon).s.w
  {
    InstallSettles(cfg, v, s, addon);
    SecondInstallIdle(cfg, v, Sys(Install(cfg, v, s, addon).s.w, again), againAddon);
  }

  /** Settled stores meet the condition under which teardown keeps the CA bundle, exactly when Reloader
      is configured or a repository that it left behind, if any, still finds the CA copy it names. */
  lemma SettledRetainsCaIff(cfg: Config, v: Version, w: World)
    requires Settled(cfg, v, w) && Apart(cfg, v, w)
    ensures CaRetained(cfg.site, w) <==> cfg.reloader.Some? || CaFound(cfg.site, w, RELOADER)
  {
    if cfg.caBundle != "" {
      CopyIsMarked(cfg.site, w, CaBundle, cfg.caBundle);
    }
    assert CaFound(cfg.site, w, ARGOCD);
    assert cfg.reloader.Some? ==> CaFound(cfg.site, w, RELOADER);
  }
}
