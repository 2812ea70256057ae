# A verified model of service-provider-argocd

The service provider installs Argo CD on a Managed Control Plane (MCP) by declaring Flux objects on
the platform cluster, and takes it down again when the ArgoCD object is deleted. This project models
its three parts and proves what they promise.

**The Helm values compiler** (`JsonTrees`, `GoMaps`, `HelmValues`, `ValuesLaws`, `ValuesInWords`).
`JsonTrees.Merge` is what merging two value trees means; `GoMaps.DeepMerge` is the in-place algorithm
on heap maps, with keys visited in an unspecified order and source maps grafted by reference, proved to
compute `Merge`. The three fragments (vault plugin, exposure, CA bundle) are layered over arbitrary
operator values both ways, and the outcome is written out leaf by leaf.

**Host names** (`Hosts`, `Certs`). The two patterns are regular expressions with a denotational
meaning, related to splitting a name at its dots (host name syntax: section 2.1 of RFC 1123; sizes:
section 2.3.4 of RFC 1035). On top of that: completion of the tenant's host, and the names a CA
bundle is filed under.

**The reconciler** (`Cluster`, `Provision`, `Teardown`, `Controller` and their laws, `Progress`,
`StoresInWords`, `Outcomes`, `Acknowledged`, `Runtime`).
`Cluster.World` holds the objects of both clusters. A call to an API server consumes a `Tick`: first
everybody else may move the stores to any state that `Cluster.Rely` allows, then the call succeeds,
is lost, or takes effect and reports an error all the same; a list call returns its items in any
order. When no tick is left, the provider is cut off before its next call. A statement about the final
state of every run, for every list of ticks, is therefore a statement about every intermediate state. Create-or-update is one atomic call: optimistic
locking makes it fail when somebody else writes in between. The functions of `Provision`, `Teardown`
and `Controller` say what `Install`, `Delete` and `CreateOrUpdate` do to the stores; `Runtime` has them
as methods of objects with mutable state and loops, proved equal to those functions. The laws come
from induction principles (`InstallLaws.InstallRespects`, `TeardownLaws.DeleteRespects`): whatever
survives the steps of others and every write the pass may issue, in the states it may issue it in,
holds after every run. `Progress` adds what happens when no call fails: how many calls a run makes
at most, that every run answered that often succeeds exactly when what it needs is there, that
teardown ends, and that crashes of earlier runs leave no trace. `StoresInWords` and `Outcomes` write
out, name by name and field by field, what the stores and the ArgoCD object hold in the end, and
`Acknowledged` shows that no error is swallowed.

## Hypotheses

- Only the provider creates, changes or deletes the replicas it has labelled, and only the provider
  creates, respecifies or deletes its four Flux objects; Flux puts finalizers on them, and an object
  whose deletion was requested is gone when its finalizer is (`Cluster.Rely`). Secrets have no
  finalizers.
- CA bundle names, past and present, never coincide with chart pull secret names (`InstallLaws.Apart`).
- The provider's own namespace differs from the tenant namespace (needed for convergence only).
- Passes over one ArgoCD object are serial, its target namespace is fixed, and after deletion was
  requested only `Delete` runs. A `Delete` that returns neither error nor requeue releases the finalizer.
- Host names and URLs are ASCII.
- The rendered vault bundle has the keys of its template and no others, with the repository and the
  version in it as strings: neither reads as anything else in YAML.

## Findings

Each property that fails comes with an input, and with the exact condition under which it holds.

- `deepMerge` is not associative (object, scalar, object on one path): `JsonTrees.AssociativityFails`.
  `JsonTrees.MergeAssociativeIff` says exactly when it is. The three fragments are leaf-disjoint, so
  their documented precedence among each other is immaterial: `ValuesLaws.FragmentOrderImmaterial`.
- With the internal vault bundle the compiled values name only that bundle's own pull secret, while
  `Install` replicates the operator's: `ValuesLaws.PullSecretAgreementFails`. They agree exactly under
  the condition of `ValuesLaws.PullSecretAgreementIff`.
- An accepted bare host may be completed to a name that a second completion changes:
  `Hosts.IdempotenceFails`. It is stable exactly when the apiserver host does not end in a dot or a
  space, of which only the dot can occur: `Hosts.ComposeIdempotentIff`.
- `RemoveCABundle` is documented as a no-op without a configured bundle, but then deletes every
  labelled copy; with a configured bundle it leaves copies under earlier names behind:
  `Progress.CaOrphanRemains`, and `TeardownLaws.CaOrphansIff` for exactly when. The model follows the
  code.
- The secret watch covers the pull secrets that installs replicate, and no others where every
  configured version installs (`ControllerLaws.WatchIsExact`). The CA bundle secret is not watched: `ControllerLaws.CaBundleMissed`
  and, for all configurations, `ControllerLaws.CaBundleUnwatched`. A name may be watched in vain, such
  as the chart pull secret of a version whose values do not decode: `ControllerLaws.WatchedInVain`,
  and `ControllerLaws.EverReplicatedIff` for exactly when it is not.

## Model

| member | source | states |
|---|---|---|
| JsonTrees.MergeLeaf | internal/argocd/values.go:291-303 | a leaf of the merge is the source's leaf, or a destination leaf with no source leaf at, above or below its path; both directions |
| JsonTrees.MergeAssociativeIff | internal/argocd/values.go:291-303 | merging associates exactly when no path has objects outside and a non-object in the middle, unless the last operand overrides all of the first there |
| JsonTrees.AssociativityFails | internal/argocd/values.go:291-303 | three object trees whose merge depends on the grouping |
| JsonTrees.CommuteIff | internal/argocd/values.go:291-303 | two fragments may be layered in either order over every base exactly when they agree on every shared path |
| GoMaps.DeepMerge | internal/argocd/values.go:293-303 | for every visiting order the in-place merge of disjoint map trees terminates, leaves dst standing for the pure merge and a tree again, and leaves the source as it was |
| GoMaps.VisitKey | internal/argocd/values.go:294-302 | one iteration rewrites exactly one field, descending or storing a reference |
| GoMaps.Descend | internal/argocd/values.go:295-298 | the recursive merge below a key changes the destination tree at that key only |
| GoMaps.Build | internal/argocd/values.go:94-99 | decoding yields a fresh, unshared map tree for the given object |
| HelmValues.MergeVaultPlugin | internal/argocd/values.go:144-179 | layers the vault fragment in place, or fails when global.image.repository is not a non-empty string |
| HelmValues.MergeCa | internal/argocd/values.go:130-136 | layers the CA fragment in place, or fails when the bundle yields no host name |
| HelmValues.MergeFragments | internal/argocd/values.go:119-139 | three in-place stages, later ones writing through grafted maps, compute the pure layering; errors of the vault and CA stages are reported |
| HelmValues.BuildValues | internal/argocd/values.go:93-114 | the compiler on the heap gives exactly the pure values, none for an empty result, or an error |
| ValuesLaws.AnyOrder | internal/argocd/values.go:119-139 | pairwise agreeing fragments give the same tree in every order over every base |
| ValuesLaws.FragmentShapes | internal/argocd/values.go:236-279 | vault, exposure and CA fragment are pairwise leaf-disjoint and contain no empty object |
| ValuesLaws.FragmentOrderImmaterial | internal/argocd/values.go:84-139 | every order of the fragments of one compilation gives the same values, over every base |
| ValuesLaws.ValuesLeaf | internal/argocd/values.go:84-114 | path law: fragment leaves appear unchanged, operator leaves survive exactly when no fragment has a leaf at, above or below, nothing else appears |
| ValuesInWords.CompiledInWords | internal/argocd/values.go:84-334 | every leaf of the compiled values written out: what vault plugin, exposure and CA bundle put at which path is there, an operator's leaf survives exactly when nothing is put at, above or below it, and there is no other |
| ValuesInWords.ExposureInWords | internal/argocd/values.go:233-279 | the paths and values that exposure sets, one by one: type, seven annotations, source ranges, reload annotation, URL; nothing else |
| ValuesInWords.VaultInWords | internal/argocd/configurations/internal/argocd-vault.yaml:1-184 | likewise for the rendered vault bundle, with the pull secret entries of the internal one |
| ValuesInWords.CaInWords | internal/argocd/values.go:305-334 | likewise for the CA bundle, the text under each host name |
| ValuesInWords.ItoaIff | internal/argocd/values.go:240 | the text of a number is its decimal numeral without leading zeros, and no other text is |
| ValuesInWords.ValuesSucceedIff | internal/argocd/values.go:93-114 | compilation fails exactly for operator values that are no object, a vault plugin without repository, or a CA text without host names |
| ValuesInWords.NoValuesIff | internal/argocd/values.go:105-107 | no values come out exactly when none went in and nothing is switched on |
| ValuesLaws.ExposureAlwaysWins | internal/argocd/values.go:236-279 | with exposure every operator input ends with the LoadBalancer type, all DNS and certificate annotations and configs.cm.url |
| ValuesLaws.RangesAndReloadAlwaysWin | internal/argocd/values.go:236-279 | likewise the source ranges the tenant asked for, and the reload annotation when Reloader is there |
| ValuesLaws.CaKeysExact | internal/argocd/values.go:305-334 | configs.tls.certificates maps every host of the bundle to the full text and keeps the operator's entries under other names, and nothing else |
| ValuesLaws.ImagePullSecretNames | internal/argocd/values.go:67-82 | every non-empty name listed under global.imagePullSecrets, in order and as often as listed, or an error exactly for values that do not decode |
| ValuesLaws.PullNamesInWords | internal/argocd/values.go:67-82 | the same for the names as a function of the tree: a strictly increasing map onto exactly the entries that carry a name |
| ValuesLaws.CompiledPullNames | internal/argocd/values.go:84-139 | the pull secret names in the compiled values are the operator's, in order, or the internal bundle's own |
| ValuesLaws.PullSecretAgreementFails | internal/argocd/configurations/internal/argocd-vault.yaml:4-5 | an input for which the replicated names are none and the compiled values name artifactory |
| ValuesLaws.PullSecretAgreementIff | internal/argocd/provisioner.go:131 | the replicated names equal the compiled ones unless the internal bundle is layered over other names; both directions |
| Hosts.HostRegexIff | internal/controller/provider_controller.go:304-308 | the regular expression accepts exactly the strings all of whose dot-separated labels are well formed |
| Hosts.HostPatternsInWords | internal/argocd/values.go:336-347 | both patterns in words: labels of 1-63 characters for hosts, of any length for keys, alphanumeric at both ends, alphanumeric or hyphen inside |
| Hosts.ValidateExposure | internal/controller/provider_controller.go:314-340 | the first reason for rejection in the documented order, and on acceptance every source range is a CIDR |
| Hosts.AcceptedIff | internal/controller/provider_controller.go:314-340 | a request is accepted exactly when its host is a host name, its ranges are CIDRs once trimmed, and its completed name has at most 253 characters |
| Hosts.RejectionInWords | internal/controller/provider_controller.go:314-340 | which reason a rejection gives |
| Hosts.TrimSpaceIs | internal/controller/provider_controller.go:325-327 | trimming takes off the spaces at either end and nothing else |
| Hosts.ComposedIs | internal/controller/provider_controller.go:365-375 | completion of any host at all: trimmed of white space and one dot it is taken as it is if dotted, else put under the root of an apiserver host api.x.y |
| Hosts.RootDomainRestores | internal/controller/provider_controller.go:344-362 | a root domain is derived exactly from hosts api.x.y, and "api." in front of it restores the host |
| Hosts.AcceptedComposes | internal/controller/provider_controller.go:364-375 | an accepted request completes without error to a dotted name of at most 253 characters |
| Hosts.AcceptedNameIsWellFormed | internal/controller/provider_controller.go:304-375 | for a well-formed apiserver host the completed name is in the language of hostPattern and a valid host key |
| Hosts.IdempotenceFails | internal/controller/provider_controller.go:365-375 | an accepted host that is completed to a name which completion changes again |
| Hosts.ComposeIdempotentIff | internal/controller/provider_controller.go:365-375 | completion is idempotent exactly when the host had a dot or the apiserver host ends in neither dot nor space |
| Certs.CollectDNSHosts | internal/argocd/values.go:400-412 | the loops compute the first-seen valid names of all certificates |
| Certs.AllNamesConcat | internal/argocd/values.go:400-411 | the names of several certificates are those of each, in order |
| Certs.FirstSeenIs | internal/argocd/values.go:398-412 | that list holds exactly the distinct valid names, ordered by first appearance |
| Certs.CertHostnames | internal/argocd/values.go:349-370 | DNS names preferred, Common Name of the first certificate as fallback, errors otherwise |
| Certs.HostnamesAre | internal/argocd/values.go:349-370 | success gives a non-empty list of distinct valid keys, the Common Name only without usable DNS name; failure has exactly three causes |
| Runtime.Provisioner.CopySecret | internal/argocd/provisioner.go:537-560 | copying one secret, with the namespace first on the MCP, does what the specification says, call by call |
| Runtime.Provisioner.PruneSecrets | internal/argocd/provisioner.go:682-705 | the prune loop over the listed replicas, stopping at the first error |
| Runtime.Provisioner.ReconcileSecrets | internal/argocd/provisioner.go:615-623 | the copy loop followed by the prune, stopping at the first error |
| StoresInWords.ChartNamesAre | internal/argocd/provisioner.go:625-646 | exactly the non-empty names of the version and of Reloader, the version's own first, none twice |
| Runtime.Provisioner.CollectChartNames | internal/argocd/provisioner.go:628-646 | distinct, non-empty names of the version and of Reloader |
| Runtime.Provisioner.ReconcileCABundle | internal/argocd/provisioner.go:727-773 | syncs the copy and leaves its ca.crt in caCert, or removes all copies |
| Runtime.Provisioner.RemoveCABundle | internal/argocd/provisioner.go:781-809 | deletes the copy by name, or every labelled copy |
| Runtime.Provisioner.ApplyFlux | internal/argocd/provisioner.go:357-435 | writes the repository, compiles the values with caCert, writes the release |
| Runtime.Provisioner.ApplyReloader | internal/argocd/provisioner.go:161-177 | applies or removes the addon, swallowing every error |
| Runtime.Provisioner.Install | internal/argocd/provisioner.go:126-156 | runs the steps of the specification of Install on the two clusters |
| Runtime.Provisioner.CountUserAppProjects | internal/argocd/provisioner.go:313-328 | counts the projects other than default in Argo CD's namespace |
| Runtime.Provisioner.CountUserArgoCDResources | internal/argocd/provisioner.go:290-308 | three lists read one after the other, a missing CRD counting zero |
| Runtime.Provisioner.Uninstall | internal/argocd/provisioner.go:217-241 | the deletions in order, stopping at the first error |
| Runtime.Provisioner.IsUninstalled | internal/argocd/provisioner.go:246-282 | four reads, each only after the one before found nothing |
| Runtime.Provisioner.Endpoint | internal/argocd/endpoint.go:19-65 | ready exactly when the certificate and then an addressed LoadBalancer server Service were found; immediately without exposure |
| Runtime.CreateOrUpdatePass | internal/controller/provider_controller.go:76-165 | the pass with its status writes, annotation handling and returns does what the specification says |
| Runtime.DeleteResource | internal/controller/provider_controller.go:170-219 | the same for Delete |
| Runtime.IsReferencedSecret | internal/controller/provider_controller.go:262-293 | true exactly for secrets of the provider's namespace that a version or Reloader names |
| Replication.ReconcileExact | internal/argocd/provisioner.go:512-599 | after a successful reconcile the replicas of the kind are exactly the requested names, from any start, duplicates included, each with the type and data its source had in some state of the run |
| Replication.ReconcileNeverBreaks | internal/argocd/provisioner.go:615-705 | a replica that is there and still requested is there in every intermediate state, failed and cut-off runs included |
| InstallLaws.InstallRespects | internal/argocd/provisioner.go:124-156 | induction over runs of Install; each repository is written only where the secrets it names are in place |
| InstallLaws.PullSecretsNeverBreak | internal/argocd/provisioner.go:615-809 | make before break over the whole of Install: neither pruning nor CA removal takes a referenced pull secret |
| InstallLaws.CaCopyNeverBreaks | internal/argocd/provisioner.go:727-809 | with a configured CA bundle no run of Install removes a CA copy |
| InstallLaws.RepositoryAlwaysBacked | internal/argocd/provisioner.go:135-148 | in every state of every run the ArgoCD repository is untouched, gone, or as requested with its secrets in place |
| InstallLaws.ReloaderRepositoryAlwaysBacked | internal/argocd/provisioner.go:437-462 | the Reloader repository likewise |
| InstallLaws.ReleaseFollowsRepo | internal/argocd/provisioner.go:146-152 | in no state of any run is the release respecified while the repository is there and not yet as requested |
| InstallLaws.PullSecretsExact | internal/argocd/provisioner.go:512-705 | after a successful Install the labelled secrets on both clusters are exactly the requested names |
| StoresInWords.PullSecretsInWords | internal/argocd/provisioner.go:512-705 | the same written out: which secrets in which namespace of which cluster carry which label |
| StoresInWords.CaInWords | internal/argocd/provisioner.go:727-809 | with a CA bundle its labelled copy is in the tenant namespace, without one no labelled copy is left |
| InstallLaws.InstalledAsAsked | internal/argocd/provisioner.go:357-435 | after success the repository names the chart pull secret and the CA bundle and finds both, and the release installs its chart with values compiled with ca.crt of the tenant's copy |
| StoresInWords.ArgoInWords | internal/argocd/provisioner.go:357-435 | after success every field and the owner label of the repository and the release argocd, with the values compiled with ca.crt of the tenant's copy |
| StoresInWords.ReloaderInWords | internal/argocd/provisioner.go:437-506 | likewise of each of the two objects argocd-reloader, when the call for it succeeds, whatever comes of the other |
| InstallLaws.BystandersUntouched | internal/argocd/provisioner.go:572-705 | no run of Install touches a secret that is not its own, nor any source secret |
| InstallLaws.SecretLabelsStay | internal/argocd/provisioner.go:544-560 | a secret that is replicated over keeps all labels that are not the provider's own |
| InstallLaws.FluxLabelsStay | internal/argocd/provisioner.go:357-435 | and so do Argo CD's two Flux objects |
| InstallLaws.ReloaderTouchesOnlyItsOwn | internal/argocd/provisioner.go:158-177 | whatever the Reloader calls meet, others acting in between, they decide neither the result nor the later calls, and in the stores that each finds they change no object but Reloader's |
| InstallLaws.ReloaderAlone | internal/argocd/provisioner.go:158-177 | where nobody else acts meanwhile they change nothing else at all, cut-offs included |
| InstallLaws.ReloaderNeverInterferes | internal/argocd/provisioner.go:158-177 | two runs that differ only in what the Reloader calls meet give the same result, and the same other objects if others act alike around those calls, cut-offs included |
| Convergence.InstallSettles | internal/argocd/provisioner.go:124-156 | from any stores a successful run without failing calls leaves everything as asked and the sources alone |
| Convergence.HistoryIndependent | internal/argocd/provisioner.go:124-156 | the owned state after two such runs depends only on version, configuration and source secrets |
| Convergence.SecondInstallIdle | internal/argocd/provisioner.go:124-156 | on settled stores a successful run without failing calls changes nothing at all |
| Progress.InstallIsBounded | internal/argocd/provisioner.go:124-156 | whatever fails, a run of Install makes at most a number of calls known from version, configuration and replicas |
| Progress.InstallNeverFails | internal/argocd/provisioner.go:124-156 | as long as no call fails and others leave chart, values and sources in order, no run fails, whatever else they do and whatever the Reloader calls meet; answered often enough it succeeds |
| Progress.InstallSucceedsIff | internal/argocd/provisioner.go:124-156 | every run without failing calls, answered often enough, succeeds exactly when chart, operator values, every source secret and the compiled values are in order, whatever else the stores hold |
| Progress.InstallConverges | internal/argocd/provisioner.go:124-156 | every such run leaves all it owns as asked, and the sources as they were |
| Progress.InstallAgainIdle | internal/argocd/provisioner.go:124-156 | a second such run changes nothing at all |
| Progress.CrashesForgotten | internal/argocd/provisioner.go:124-156 | after any series of failed or cut-off runs, for other versions and configurations too, every such run ends as it would have without them, in the same owned state |
| Progress.DeleteNeverFails | internal/controller/provider_controller.go:170-219 | a pass in which no call fails completes, waits, is blocked or is cut off, whatever others do |
| Progress.DeleteEndsAs | internal/controller/provider_controller.go:170-219 | every pass without failing calls and doings of others, answered often enough, is blocked while there are user resources, complete when no finalizer holds any Flux object that is left, else waiting |
| Progress.DeleteGetsThrough | internal/controller/provider_controller.go:195-218 | without user resources and failing calls, whatever else others do, a pass marks every Flux object that is left, and completes when it began with none |
| Progress.TeardownTerminates | internal/controller/provider_controller.go:195-218 | if Flux makes progress between such passes, configuration changes included, at most as many passes wait as there were Flux objects |
| Progress.CaOrphanRemains | internal/argocd/provisioner.go:781-791 | a completed teardown that leaves the CA copy of an earlier name |
| Lifecycle.InstallTwiceIsOnce | internal/argocd/provisioner.go:124-156 | a second such run after a first one changes nothing |
| Lifecycle.ReplicasMatchRelease | internal/argocd/provisioner.go:508-524 | the pull secrets on the MCP are exactly those the applied release refers to, internal bundle aside |
| Lifecycle.SettledRetainsCaIff | internal/argocd/provisioner.go:734-773 | settled stores meet the starting condition of CA retention exactly when Reloader is configured or a repository that it left behind still finds the CA copy it names |
| TeardownLaws.DeleteRespects | internal/controller/provider_controller.go:170-219 | induction over Delete passes; a CA copy is deleted only where all four Flux objects are gone together |
| TeardownLaws.CheckedTogether | internal/argocd/provisioner.go:243-282 | four reads at different times, and all four objects are gone together at the end |
| TeardownLaws.CaRetainedThroughout | internal/argocd/provisioner.go:775-809 | over every run of deletion, configuration changes included, a repository that still exists finds the CA copy it names |
| TeardownLaws.CompleteMeansGone | internal/controller/provider_controller.go:195-218 | a completed pass leaves no Flux object, no pull secret replica and no configured CA copy |
| StoresInWords.GoneInWords | internal/controller/provider_controller.go:195-218 | the same written out: names, namespaces and labels |
| TeardownLaws.ReleaseGoesFirst | internal/argocd/provisioner.go:217-228 | in no state of any pass is a repository told to go before its release |
| TeardownLaws.PullSecretsGoLater | internal/argocd/provisioner.go:229-240 | in no state of any pass is a pull secret replica taken away before both of Argo CD's objects were told to go |
| TeardownLaws.GuardSawNothing | internal/argocd/provisioner.go:284-328 | the guard lets a pass through exactly when its first three calls met no Application, no ApplicationSet and no AppProject of a user |
| TeardownLaws.GuardedOrNothing | internal/controller/provider_controller.go:181-193 | every pass, complete, failed or cut off, has only read, or its first three calls met three empty lists and it had only read until then |
| TeardownLaws.BlockedWritesNothing | internal/controller/provider_controller.go:181-193 | a blocked pass, or one failing at the guard, has only read, and leaves the stores as they are where nobody else acts |
| TeardownLaws.CaOrphansIff | internal/argocd/provisioner.go:781-809 | no CA copy outlives a completed teardown exactly when none is configured or all carry the configured name |
| TeardownLaws.WaitingMarksAll | internal/argocd/provisioner.go:213-241 | a pass that neither fails nor is blocked leaves every remaining Flux object terminating |
| TeardownLaws.CountNeverRises | internal/argocd/provisioner.go:217-241 | no pass, whatever fails, raises the number of remaining Flux objects |
| TeardownLaws.FinalizerLowers | internal/argocd/provisioner.go:243-245 | each finalizer step strictly lowers that number |
| TeardownLaws.GoneThenNoWaiting | internal/controller/provider_controller.go:201-209 | a pass that begins with nothing left does not wait |
| Controller.SelectsFirst | api/v1alpha1/providerconfig_types.go:269-278 | the first entry of the requested version, none exactly when no entry has it |
| ControllerLaws.ResolvesWhatWasValidated | internal/controller/provider_controller.go:377-399 | an accepted request is exposed under the validated name, without fallback |
| Outcomes.PassAnswers | internal/controller/provider_controller.go:76-165 | the decision table of a pass: status, endpoint, return and last call for every answer its calls can get |
| Outcomes.SkippedPassAnswers | internal/controller/provider_controller.go:76-86 | and of one that is skipped or stopped at the annotation |
| Outcomes.AvailableIff | internal/controller/provider_controller.go:121-165 | a pass ends Available with the endpoint asked for and nothing more to do exactly when the request can be served, Install succeeds and the reads meet all they look for |
| Outcomes.ErrorHasCause | internal/controller/provider_controller.go:76-165 | an error comes back only if a call of the pass failed, the tenant is unknown, something Install needs was missing, or the release was gone |
| Outcomes.DeleteAnswers | internal/controller/provider_controller.go:170-219 | the decision table of a Delete pass |
| Outcomes.DeleteReturns | internal/controller/provider_controller.go:170-219 | every Delete pass without failing calls and doings of others, answered often enough, lets the object go when there are no user resources and nothing is held, and else comes back |
| Outcomes.DeletionEnds | internal/controller/provider_controller.go:170-219 | if Flux makes progress between passes the object is let go, after at most as many returns as there were Flux objects |
| Outcomes.ConfigInWords | internal/controller/provider_controller.go:224-256 | which configuration, request and access field reaches Install as what |
| Outcomes.PolicyInWords | api/v1alpha1/providerconfig_types.go:280-309 | the exposure that is compiled: the completed host, the ranges, the DNS and certificate policy with its defaults |
| Outcomes.ConfiguredIsInstalled | internal/controller/provider_controller.go:224-256 | CA bundle, interval, kubeconfig secret, validated host and DNS class are in the stores after a successful Install |
| Acknowledged.InstallHonest | internal/argocd/provisioner.go:124-156 | an Install that reports no error had every call succeed, those of Reloader aside |
| Acknowledged.PassHonest | internal/controller/provider_controller.go:76-165 | a pass that returns no error had every call succeed, those of Reloader aside |
| Acknowledged.DeletePassHonest | internal/controller/provider_controller.go:170-219 | a Delete pass that returns no error had every call succeed |
| ControllerLaws.NoVaultUnlessBoth | internal/controller/provider_controller.go:411-425 | unless operator and tenant both want the vault plugin, values compile as with it off, and name the pull secrets that are replicated |
| ControllerLaws.EndpointOfPass | internal/controller/provider_controller.go:121-165 | one pass leaves the endpoint, clears it, or publishes a validated host after the three calls following Install met a ready release, the certificate and an address |
| ControllerLaws.AvailableMeansCurrent | internal/controller/provider_controller.go:132-165 | a pass ending Available sets the endpoint to exactly what the request asks for, with everything done and met by its own calls |
| ControllerLaws.EndpointAlwaysEarned | internal/argocd/endpoint.go:12-65 | in every state of every run of passes the endpoint is empty or was published by one of them |
| ControllerLaws.NoLostWork | internal/controller/provider_controller.go:76-165 | a pass asking for nothing more was ignored, Available with all observations made by its own calls, or rejected for good reason having only read |
| ControllerLaws.ComesBackForReason | internal/controller/provider_controller.go:121-165 | a pass that asks to come back has installed and then met a release that is not ready, leaving the endpoint, or no certificate or address, clearing it |
| ControllerLaws.NoLostDeletion | internal/controller/provider_controller.go:170-219 | a Delete pass asking for nothing more has torn everything down |
| ControllerLaws.ReloaderNeverShows | internal/controller/provider_controller.go:115-142 | passes that differ only in what the Reloader calls meet give the same status, endpoint, return and other objects, if others act alike in both from those calls on |
| ControllerLaws.ReloaderNeverShowsAlone | internal/controller/provider_controller.go:115-142 | in particular if nobody else acts from those calls on |
| ControllerLaws.ReplicatesWhatIsNamed | internal/controller/provider_controller.go:272-293 | every successful Install of a version replicates a name as pull secret exactly when that version or Reloader names it |
| ControllerLaws.WatchIsExact | internal/controller/provider_controller.go:256-293 | a secret is watched exactly when one of any successful Installs, one for each configured version, has replicated it as a pull secret |
| ControllerLaws.UndecodableNeverInstalls | internal/argocd/values.go:67-82 | a version whose values do not decode fails every Install without a write, and of it only the chart pull secret is watched |
| ControllerLaws.EverReplicatedIff | internal/controller/provider_controller.go:256-293 | a name is replicated by some successful Install exactly when an installable version, or Reloader next to one, names it; then it is watched |
| ControllerLaws.WatchedInVain | internal/controller/provider_controller.go:283-287 | a watched name that no Install ever replicates |
| ControllerLaws.NoVersionsNoInstall | internal/controller/provider_controller.go:88-97 | without configured versions a pass only reads |
| ControllerLaws.NoVersionsWatch | internal/controller/provider_controller.go:262-273 | and only Reloader's pull secret is watched |
| ControllerLaws.CaBundleMissed | internal/controller/provider_controller.go:256-293 | a configured CA bundle whose secret is not watched |

## Left out

- JSON and YAML decoding, PEM and X.509 parsing, URL and CIDR parsing and text templates: the model starts from decoded trees, decoded certificates, an extracted host name and a CIDR predicate. An operator value that is JSON null is a decoding error here; the API type never stores it.
- The lists inside the vault bundle: they are inputs, since merging never looks inside a list.
- ValuesLaws.ImagePullSecretNames: matches keys exactly, where Go's decoder also accepts keys that differ in case, the last of them in the text winning; decoded trees have no textual order.
- InstallLaws.PullSecretsNeverBreak: says nothing of secrets that the new configuration drops; pruning and CA removal run before the repository is rewritten, so its old references may dangle in between.
- TeardownLaws.CompleteMeansGone: user resources created after the guard's lists are not covered.
- ControllerLaws.ReloaderNeverShows: a pass that is cut off inside the Reloader calls makes no observations and is not compared (its Install is: InstallLaws.ReloaderNeverInterferes).
- Status messages, logging, conditions and observed generation: only phase, reason and endpoint are modelled.
- The command line, custom resource definitions, conversion and deep copies, and the default of the target namespace: plumbing or one-branch facts.
