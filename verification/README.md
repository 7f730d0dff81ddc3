# net-istio: a verified model of the Ingress reconciler

net-istio compiles a Knative Ingress into Istio resources (VirtualServices, Gateways, copies of TLS secrets) and
drives the cluster towards them. This project models that reconciler in Dafny and proves what it is for:

- **Compiling** (`HostPrefixes`, `VirtualServices`, `Probes`, `ServiceObjects`). Rules, paths, splits and headers
  become an ordered list of HTTP routes whose first match decides a request. The compiled list decides every request
  as the rules do.
- **Reconciling** (`Store`, `VirtualServicePass`, `Convergence`, `Isolation`, `IngressPass`, `Fixpoint`,
  `Credentials`, `Collisions`, `Cleanup`, `Finalize`, `Defaults`, `Success`, `RoutedGateways`, `EndToEnd`, `Retries`,
  `MeshRetries`, `Contention`). The API server is a table of objects with a log of writes; every call can be refused.
  A pass is a function from one table to the next, and the theorems speak of all tables, all refusals, all map
  iteration orders and, where that is said, of passes that read a stale VirtualService cache. `Fixpoint.PlanPass` says
  what a pass is for, from the table it starts from: one list of secrets and Gateways, and the VirtualServices that
  route on them (`Fixpoint.PassFollowsPlan`).
- **Sharing Gateways** (`Servers`, `Gateways`). Many Ingresses share one server list; ownership is encoded in port
  names.
- **Copying secrets** (`Secrets`). Names, labels and annotations of copies, and finding them again.
- **Configuring and probing** (`Config`, `ProbeTargets`, `ProbeAnswers`).
- **Falling short** (`Witnesses`). Inputs that are accepted and for which a property fails that one might expect.

`Store.Cluster` and `Reconcilers.Reconciler` are the imperative form: objects whose methods make one API call at a
time. Each method is proved to end in the state that the function of its pass gives, so the theorems about the
functions are theorems about the methods. The main loops of the source that fill slices, sets and maps are methods
with loops, proved against the function that specifies them; sorting server lists works in place on an array.
`Strings` and `Types` hold what the rest speaks of: byte strings, decimal rendering, Adler-32 (section 2.2 of RFC
1950), DNS labels, and the resources.

Main results, from the top: `EndToEnd.ReconciledIngressRoutes`, `EndToEnd.AcceptedIngressRoutes`,
`EndToEnd.AcceptedSucceedsExactly`, `Retries.RetriedPassesConverge`, `Retries.TwoStalePassesConverge`,
`MeshRetries.TwoStaleMeshPassesConverge`, `VirtualServices.TranslationPreservesMeaning`, `Probes.ProbeKeepsRouting`,
`ProbeAnswers.ListedProbesAnswered`, `Convergence.RunConverges`, `VirtualServicePass.LivePassResult`,
`Isolation.PassesCommute`, `Contention.WholePassesCommuteExactly`, `Reconcilers.ReconcilingTwiceIsOnce`,
`Collisions.QuietExactlyWhenGatewaysApart`, `Credentials.StoredServersFindCredentials`,
`Cleanup.ModeSwitchIsConfluent`, `Cleanup.CleanupCoversCreation`, `Success.ReconciledNeverFinalizedExactly`,
`Finalize.FinalizationOrderIndependent`, `Servers.SurgeryConserves`, `Gateways.TLSServersRoundTrip`,
`Gateways.GatewayNameIsLabel`, `Secrets.OriginRoundTrip`, `Config.SelectionIsTotal`,
`HostPrefixes.PrefixReductionPreservesMeaning`, `ProbeTargets.TargetsComplete`.

Where the code falls short of what one might expect, the exact condition is proved instead, with an input that shows
it:

- A rule whose visibility has no gateway leaks onto other gateways. For an accepted configuration, the routes of the
  stored service stay on the gateways of their rules' visibilities if and only if the configuration has a gateway for
  each rule in use (`EndToEnd.RoutesStayExactly`). A configuration that says nothing but that the external list is
  empty is accepted and lacks one for public rules (`Witnesses.EmptyExternalListLeaks`).
- Host prefixes are sorted before they are trimmed, so redundant ones can be kept
  (`HostPrefixes.KeptPrefixFreeExactly`, if and only if; `HostPrefixes.TrimAfterSortCanKeepBoth`).
- A host in the cluster's domain but outside its "svc" part is probed under a short form that its routes do not take
  (`HostPrefixes.ShortFormAcceptedExactly` and `ProbeAnswers.OpenTakenExactly`, if and only if;
  `Witnesses.ShortNameUnanswered`). What a probe under a listed host and a port is answered is said by
  `ProbeAnswers.ProbeUnderHostExactly`, if and only if. Where all hosts can be resolved, those of the cluster's domain
  lie in its "svc" part, and every rule has a path for the probe, the probes that are listed are answered
  (`ProbeAnswers.ListedProbesAnswered`).
- Two wildcard copies in namespaces with valid names share a name if and only if a stretch between two double dashes
  has moved from the one's name to the other's namespace (`Secrets.WildcardNamesOfLabels`): namespace "a" with secret
  "b--c", and namespace "a--b" with secret "c" (`Secrets.WildcardNamesCollide`).
- Two Ingresses can own the same servers if one of their names is not a DNS label: if and only if the names agree, or
  the checksums that replace them, where a name that is a label stands for itself (`Servers.SharedOwnershipExactly`).
  "x.aca" and "x.bab" have the same Adler-32 checksum (`Servers.DottedNamesCollide`).
- Gateways for two gateway services whose keys have the same Adler-32 checksum share a name. After a successful pass
  the next one is quiet if and only if no two generated Gateways under one key differ in their spec
  (`Collisions.QuietExactlyWhenGatewaysApart`). The services "aca" and "bab" of one namespace, with different
  selectors, displace each other (`Witnesses.CollidingServicesNeverQuiet`).
- With a stale cache the first pass fails if and only if an obsolete VirtualService carries both labels
  (`Convergence.FirstPassFailsExactly`, `Convergence.FirstPassCanFail`). All services that are made for an Ingress
  with a route label do (`Retries.MadeLeftoversFailExactly`, if and only if): such an Ingress always fails first after
  it is switched to mesh-only mode (`MeshRetries.LabelledSwitchFailsFirst`). The second pass always succeeds
  (`Convergence.TwoPassesSuffice`; for whole reconciliations `Retries.TwoStalePassesConverge` and
  `MeshRetries.TwoStaleMeshPassesConverge`).
- With an accepted configuration the gateway services of an Ingress can be named if and only if the URLs of the
  external gateways selected for it have two dots (`Config.AcceptedServicesExactly`); validation does not ask for them
  (`Config.AcceptedWithoutServices`). Where they cannot be named, an Ingress with TLS is never finalized
  (`Success.AcceptedFinalizeExactly`). It is reconciled nevertheless if and only if that TLS is cluster-local only, in
  an installation that does not act on it, there is no HTTP server of its own, and nothing else is in the way
  (`Success.ReconciledNeverFinalizedExactly`, `Witnesses.ShortServicesNeverFinalize`).
- Copies of secrets do not say which Ingress they are for. A cleanup spares a copy that another Ingress still uses if
  and only if no TLS entry of the first has the labels of its origin (`Cleanup.CleanupSparesExactly`). Of two
  Ingresses that name one secret, finalizing the one takes the copy of the other away
  (`Witnesses.SharedSecretLosesCopy`).
- A copy that was made for an earlier state of an Ingress is left behind, by a pass with gateways and by one after the
  switch to mesh-only mode, if and only if the Ingress has no TLS any more, or no entry for the origin of the copy and
  no copy of its own under the same key (`Cleanup.EarlierCopyStaysExactly`). So the copies of an Ingress whose TLS
  entries are taken away stay (`Witnesses.EmptiedIngressLeavesCopy`). Of the copies that the last pass with gateways
  made, none is left (`Cleanup.PlannedCopiesGone`). All secrets end as they do in mesh-only mode from a table without
  the copies, if and only if none is left behind in this way and the pass has put no copy over some other secret
  (`Cleanup.ModeSwitchIsConfluent`).
- A pass sets defaults on its copy of an Ingress, and finalizing does not. Finalizing takes the copies of the Ingress
  away if and only if it is taken to have TLS as it is stored (`Defaults.FinalizeCoversDefaultsExactly`): for rules
  with hosts, if a TLS entry covers a rule whose visibility is written out (`Defaults.AnyTLSExactly`). The copy for a
  rule that is stored without its visibility stays (`Witnesses.UnstatedKeepsCopy`).
- Secrets and Gateways are put in place without regard to an owner, and the end of a long Ingress name is dropped from
  the names of its Gateways. Whole passes of two Ingresses give the same table in either order if and only if they do
  not ask for different things under one key (`Contention.WholePassesCommuteExactly`). Gateways named after Ingresses
  meet if and only if their services have one checksum and the names one cut (`Gateways.GatewayNamesMeetExactly`,
  `Gateways.LabelNamesMeetExactly`), which valid names that differ within 52 characters do not
  (`Contention.OwnGatewaysApart`). Two of 62 characters that differ in the last overwrite each other's Gateway
  (`Witnesses.LongNamesOverwrite`).
- A path that itself matches on the probe's header is probed as if it did not (`Probes.ProbeKeepsRouting`,
  `Probes.AskedAsIsExactly`, if and only if; `Witnesses.AskedHeaderIsIgnored`).

## Model

| member | source | states |
|---|---|---|
| `HostPrefixes.GetDistinctHostPrefixes` | pkg/reconciler/ingress/resources/virtual_service.go:216-237 | the loop over sorted, trimmed hosts gives the reduced set, and an authority has a kept prefix iff it has the prefix of some host |
| `HostPrefixes.PrefixReductionPreservesMeaning` | pkg/reconciler/ingress/resources/virtual_service.go:216-237 | for every host set and authority: some host prefix accepts it iff some kept prefix does |
| `HostPrefixes.KeptPrefixFreeExactly` | pkg/reconciler/ingress/resources/virtual_service.go:216-237 | the kept set is prefix-free iff no string is a proper prefix of an earlier one without being covered by what precedes it |
| `HostPrefixes.SortedTrimIsPrefixFree` | pkg/reconciler/ingress/resources/virtual_service.go:216-237 | when trimming leaves the sorted order sorted, no kept prefix is a prefix of another |
| `HostPrefixes.NoLocalHostIsPrefixFree` | pkg/reconciler/ingress/resources/virtual_service.go:216-237 | without cluster-local hosts no kept prefix is a prefix of another |
| `HostPrefixes.TrimAfterSortCanKeepBoth` | pkg/reconciler/ingress/resources/virtual_service.go:216-237 | an input for which the kept set is not prefix-free |
| `HostPrefixes.ExpandHosts` | vendor/knative.dev/networking/pkg/ingress/ingress.go:92-113 | the nested loops give the hosts and their forms without the cluster domain and without "svc", as far as the top-level domain is valid |
| `HostPrefixes.ShortFormAcceptedExactly` | vendor/knative.dev/networking/pkg/ingress/ingress.go:92-113 | an expanded form of a host has the prefix that routes match for it iff it is the host itself or the host lies in the "svc" part of the cluster's domain |
| `VirtualServices.MakeVirtualServiceRoute` | pkg/reconciler/ingress/resources/virtual_service.go:152-212 | the loops build the route of the path: one match per kept prefix in sorted order, one weighted destination per split |
| `VirtualServices.MakeVirtualServiceSpec` | pkg/reconciler/ingress/resources/virtual_service.go:125-150 | the nested loops build the specified hosts, gateways and one route per path of every rule that has a host in the set |
| `VirtualServices.SourcesExactly` | pkg/reconciler/ingress/resources/virtual_service.go:125-150 | a (rule, path) is compiled iff it is one of the Ingress whose rule has a host in the set |
| `VirtualServices.MatchMeaning` | pkg/reconciler/ingress/resources/virtual_service.go:250-275 | a match accepts exactly the requests with its gateway, authority prefix, path prefix and headers |
| `VirtualServices.RouteMeaning` | pkg/reconciler/ingress/resources/virtual_service.go:152-212 | a compiled route accepts exactly the requests that its (rule, path) accepts, read off the rule itself |
| `VirtualServices.TranslationMeaning` | pkg/reconciler/ingress/resources/virtual_service.go:125-212 | for all inputs: the first matching route is the one of the first accepting (rule, path), with gateways as in effect |
| `VirtualServices.TranslationPreservesMeaning` | pkg/reconciler/ingress/resources/virtual_service.go:125-212 | with a gateway for every visibility in use, the first match is that of the first (rule, path) accepting the request on its configured gateways, and there is none iff no (rule, path) accepts |
| `VirtualServices.GatewayScopeExactly` | pkg/reconciler/ingress/resources/virtual_service.go:250-275 | every route answers only on the gateways of its rule's visibility iff each rule in use has one |
| `VirtualServices.GatewaylessRuleLeaks` | pkg/reconciler/ingress/resources/virtual_service.go:250-275 | a rule in use without gateway has a route that answers on a gateway not its own |
| `Probes.ProbeKeepsRouting` | vendor/knative.dev/networking/pkg/ingress/ingress.go:45-73 | for all rules: inserting the hash probe leaves ordinary requests routed as they were, and sends a probe to the tagged copy of the path that takes it when nothing is asked of the reserved header |
| `Probes.AskedAsIsExactly` | vendor/knative.dev/networking/pkg/ingress/ingress.go:45-73 | a probe meets the rules as they are iff no path matches on the reserved header |
| `Probes.ProbedServiceDecides` | vendor/knative.dev/networking/pkg/ingress/ingress.go:45-73 | the service compiled from probed rules decides every request as the rules do, probes tagged |
| `Probes.ProbeReachesSameDestinations` | pkg/reconciler/ingress/resources/virtual_service.go:99-104 | in the compiled service a probe has the same destinations and rewrite as its request and carries the hash, for all rules |
| `ServiceObjects.GetHosts` | pkg/reconciler/ingress/resources/virtual_service.go:287-293 | the loop collects exactly the hosts of all rules |
| `ServiceObjects.KeepLocalHostnames` | pkg/reconciler/ingress/resources/virtual_service.go:239-248 | the loop retains exactly the hosts with the cluster suffix |
| `ServiceObjects.ServiceNamesDiffer` | pkg/reconciler/ingress/resources/names/names.go:26-35 | the mesh and the gateway service of an Ingress never share a name, however it is shortened |
| `ServiceObjects.MadeVirtualServices` | pkg/reconciler/ingress/resources/virtual_service.go:48-123 | all services made have the Ingress's namespace, annotations and controller reference, as labels its route labels and the one that names it, and distinct keys |
| `ServiceObjects.AllOrNoneIstio` | pkg/reconciler/ingress/ingress.go:445-452 | the services made are all put in place or none is, by the class annotation of the Ingress |
| `ServiceObjects.MakeMeshService` | pkg/reconciler/ingress/resources/virtual_service.go:68-97 | the mesh service: local hosts, expanded where there are cluster-local gateways, or none without hosts |
| `ServiceObjects.MakeServices` | pkg/reconciler/ingress/resources/virtual_service.go:99-123 | the method makes the mesh and the gateway service from the probed rules, or fails on a rule without HTTP block |
| `ServiceObjects.ServicesMade` | pkg/reconciler/ingress/resources/virtual_service.go:48-123 | said of the Ingress before probing: the mesh service is made iff there is a host for it, the gateway service iff a rule has a gateway, both compiled from the probed rules |
| `Store.Cluster.CreateObject` | pkg/reconciler/accessor/istio/virtualservice.go:62-67 | the new state and outcome of a create call: refused, already there, or stored and logged |
| `Store.Cluster.UpdateObject` | pkg/reconciler/accessor/istio/virtualservice.go:82-85 | the new state and outcome of an update call: refused, absent, or replaced and logged |
| `Store.Cluster.DeleteObject` | pkg/reconciler/ingress/ingress.go:487-489 | the new state and outcome of a delete call: refused, absent, or removed and logged |
| `Store.MergeSettles` | pkg/reconciler/accessor/istio/virtualservice.go:43-48 | an update is due iff it would change the stored object, settles the difference, and keeps the owners |
| `Store.ReconcileAllAchieves` | pkg/reconciler/ingress/ingress.go:392-440 | a list reconciled without failure leaves exactly the wanted objects in place and all others as they were, where entries for one key do the same to the table |
| `Store.AgreeingExactly` | pkg/reconciler/ingress/ingress.go:392-440 | wants can all be in place at once, after the last is put there, iff no two of them ask for something else under one key |
| `Store.ReconcileOrderIndependent` | pkg/reconciler/ingress/ingress.go:392-440 | two orders of the same list, each without failure but with any refusals, leave the same table, where entries for one key do the same to it |
| `Store.OrderMattersExactly` | pkg/reconciler/ingress/ingress.go:392-440 | all orders of a list lead to one table iff entries for one key do the same to it |
| `Store.CompatibleExactly` | pkg/reconciler/ingress/ingress.go:424-440 | and they do iff they do not contradict each other, and are the same object where none is stored yet |
| `Store.ReconcileAllFrame` | pkg/reconciler/ingress/ingress.go:392-440 | whatever fails, a key that is not wanted is not touched |
| `Store.SatisfiedIsNoop` | pkg/reconciler/ingress/ingress.go:392-440 | with everything in place nothing is called |
| `Store.DoneMeansOwned` | pkg/reconciler/accessor/istio/virtualservice.go:70-75 | success means that no wanted object was controlled by someone else |
| `Store.OwnableSucceeds` | pkg/reconciler/accessor/istio/virtualservice.go:59-86 | without refusals and foreign objects the list is reconciled |
| `VirtualServicePass.SortedRefsAscend` | pkg/reconciler/ingress/ingress.go:470-473 | the deletion order is by name |
| `VirtualServicePass.RemovalTakesTargets` | pkg/reconciler/ingress/ingress.go:475-490 | a removal loop takes away only listed, not kept, controlled objects, and all of them if it ends without failure |
| `VirtualServicePass.RemovalFailsExactly` | pkg/reconciler/ingress/ingress.go:475-490 | without refusals it fails iff one of them is already absent |
| `VirtualServicePass.LivePassConverges` | pkg/reconciler/ingress/ingress.go:442-494 | a live pass without failure ends with the wants in place, the obsolete gone and the rest unchanged |
| `VirtualServicePass.LivePassesAgree` | pkg/reconciler/ingress/ingress.go:442-494 | there is one such table: two live passes without failure give the same, in either selector order and with any refusals |
| `VirtualServicePass.LivePassResult` | pkg/reconciler/ingress/ingress.go:442-494 | after it, each desired Istio-class service has the desired spec, labels, annotations and controller; no other own service is left; with another class none is |
| `VirtualServicePass.LivePassSucceedsExactly` | pkg/reconciler/ingress/ingress.go:442-494 | without refusals it succeeds iff no desired name is held by an object of someone else |
| `Convergence.FirstPassFailsExactly` | pkg/reconciler/ingress/ingress.go:442-494 | against a snapshot the pass succeeds iff no obsolete service carries both labels, and then the table is the desired one |
| `Convergence.FirstPassCanFail` | pkg/reconciler/ingress/ingress.go:463-491 | a table with a doubly labelled obsolete service, over which the first pass fails |
| `Convergence.StalePassProgress` | pkg/reconciler/ingress/ingress.go:442-494 | a pass, failed or not, keeps the goal, clears the doubly labelled, and has fewer obsolete services left if it failed |
| `Convergence.TwoPassesSuffice` | pkg/reconciler/ingress/ingress.go:442-494 | the second pass succeeds and the table is the desired one, in any selector orders |
| `Convergence.RunConverges` | pkg/reconciler/ingress/ingress.go:442-494 | every run of two or more passes ends in the desired table, and from the third pass on makes no call |
| `Convergence.ConvergedIsQuiet` | pkg/reconciler/ingress/ingress.go:442-494 | a pass over a converged table makes no call |
| `Convergence.RefusedPassKeepsGoal` | pkg/reconciler/ingress/ingress.go:442-494 | whatever is refused, a pass over a cache that is up to date or was when it began keeps the goal and stays able to reach it |
| `Convergence.RetriesConverge` | pkg/reconciler/ingress/ingress.go:442-494 | any number of passes stopped by refusals, over either kind of cache, then two that meet none: the table is the one the first pass was for |
| `Retries.LeftoverServiceFails` | pkg/reconciler/ingress/ingress.go:463-491 | any service made for an Ingress with a route label, once unwanted, makes the first pass over a stale cache fail |
| `Retries.MadeLeftoversFailExactly` | pkg/reconciler/ingress/ingress.go:463-491 | over services with the labels they are made with, the first pass over a stale cache fails iff the Ingress has a route label and one of them is unwanted |
| `Retries.AttemptKeepsGoal` | pkg/reconciler/ingress/ingress.go:119-242 | whatever is refused, a whole pass with gateways, over either kind of cache and in any order of maps, keeps the origins, the table to be reached, and the way to it |
| `Retries.RetriedPassesConverge` | pkg/reconciler/ingress/ingress.go:119-242 | any number of refused whole passes, over either kind of cache, then one that meets none: it succeeds, with the table that an unrefused pass gives from the start |
| `Retries.StalePassExactly` | pkg/reconciler/ingress/ingress.go:119-242 | without refusals a whole pass over a stale cache fails iff an obsolete service carries both labels, leaves none that does, and otherwise reaches its table |
| `Retries.TwoStalePassesConverge` | pkg/reconciler/ingress/ingress.go:119-242 | after any refused passes two whole passes over caches from their start: the second succeeds, with the table that a live pass gives at once |
| `MeshRetries.RetriedMeshPassesConverge` | pkg/reconciler/ingress/ingress.go:289-380 | the same of refused mesh-only passes |
| `MeshRetries.StaleMeshPassExactly` | pkg/reconciler/ingress/ingress.go:289-380 | the same of a mesh-only pass over a stale cache |
| `MeshRetries.TwoStaleMeshPassesConverge` | pkg/reconciler/ingress/ingress.go:289-380 | the same of two mesh-only passes over stale caches |
| `MeshRetries.LabelledSwitchFailsFirst` | pkg/reconciler/ingress/ingress.go:289-329 | an Ingress with a route label and a gateway service: over a stale cache the first mesh-only pass fails |
| `Isolation.PassWritesOnlyItsOwn` | pkg/reconciler/accessor/istio/virtualservice.go:59-86 | under any refusals, also when stopped halfway, all updates and deletes of a pass are of objects it controls |
| `Isolation.PassesCommute` | pkg/reconciler/ingress/ingress.go:442-494 | passes of two Ingresses that keep clear of each other's names give the same table in either order, even if one stops at a foreign object |
| `Contention.ListsCommuteExactly` | pkg/reconciler/ingress/ingress.go:392-440 | two lists of secrets and Gateways give the same table in either order iff they do the same under the keys they share |
| `Contention.WholePassesCommuteExactly` | pkg/reconciler/ingress/ingress.go:119-242 | whole passes of two Ingresses, in any orders of maps, give the same table in either order iff they contest no secret and no Gateway |
| `Contention.GatewaysContestExactly` | pkg/reconciler/ingress/ingress.go:424-440 | Gateways of two Ingresses contest a key iff the Ingresses share a namespace, the names meet, and none is stored yet or they differ in their spec |
| `Contention.OwnGatewaysApart` | pkg/reconciler/ingress/resources/gateway.go:285-304 | Ingresses with valid names, in different namespaces or with names that differ within 52 characters, never want one key for the Gateways named after them |
| `Reconcilers.Reconciler.ReconcileVirtualService` | pkg/reconciler/accessor/istio/virtualservice.go:50-88 | by what the lister shows: create, refuse to touch a foreign object, update the three fields, or nothing |
| `Reconcilers.Reconciler.ReconcileSecret` | pkg/reconciler/accessor/core/secret.go:41-75 | the same step for data and labels of a secret, with an optional owner |
| `Reconcilers.Reconciler.ReconcileSystemGeneratedGateway` | pkg/reconciler/ingress/ingress.go:424-440 | the same step for the spec of a Gateway, without owner |
| `Reconcilers.Reconciler.ReconcileCertSecrets` | pkg/reconciler/ingress/ingress.go:392-403 | the loop ends in the state and outcome of reconciling the list up to the first failure |
| `Reconcilers.Reconciler.ReconcileGateways` | pkg/reconciler/ingress/ingress.go:405-422 | the same for Gateways |
| `Reconcilers.Reconciler.CreateOrUpdateServices` | pkg/reconciler/ingress/ingress.go:445-461 | the loop puts the Istio-class services in place and collects their names as kept |
| `Reconcilers.Reconciler.RemoveEach` | pkg/reconciler/ingress/ingress.go:475-490 | the loop removes the listed services that are neither kept nor foreign, up to the first failure |
| `Reconcilers.Reconciler.RemoveSelected` | pkg/reconciler/ingress/ingress.go:463-491 | one selector: list, sort by name, remove |
| `Reconcilers.Reconciler.ReconcileVirtualServices` | pkg/reconciler/ingress/ingress.go:442-494 | the method ends in the state and outcome of a pass |
| `Reconcilers.Reconciler.CleanupIngressGateways` | pkg/reconciler/ingress/ingress.go:334-356 | deletes the controlled Gateways with the Ingress's label, tolerating absent ones, up to the first other failure |
| `Reconcilers.Reconciler.CleanupTLSSecrets` | pkg/reconciler/ingress/ingress.go:358-380 | deletes the copies for every TLS entry in every namespace, going on after errors and reporting them |
| `Reconcilers.Reconciler.CleanupCertificateSecrets` | pkg/reconciler/ingress/ingress.go:518-545 | deletes the copies for every TLS entry in the gateway services' namespaces, going on after errors and reporting them |
| `Reconcilers.Reconciler.ReconcileIngressServers` | pkg/reconciler/ingress/ingress.go:547-572 | an absent Gateway is reported, one without servers of the Ingress is left alone, another loses exactly those |
| `Reconcilers.Reconciler.CleanupGatewayServers` | pkg/reconciler/ingress/ingress.go:505-513 | the loop does this for the configured gateways, skipping missing ones |
| `Reconcilers.Reconciler.FinalizeKind` | pkg/reconciler/ingress/ingress.go:496-516 | the method ends in the state and outcome of finalizing |
| `Reconcilers.Reconciler.ReconcileExternalTLS` | pkg/reconciler/ingress/ingress.go:133-176 | the method ends in the state and outcome of the external stage and hands on its Gateways |
| `Reconcilers.Reconciler.ReconcileLocalTLS` | pkg/reconciler/ingress/ingress.go:178-198 | the method ends in the state and outcome of the cluster-local stage and hands on its Gateways |
| `Reconcilers.Reconciler.AppendServer` | pkg/reconciler/ingress/ingress.go:207-211 | in place, every Gateway has the HTTP server behind its own servers and is otherwise as it was |
| `Reconcilers.Reconciler.AddHTTPServer` | pkg/reconciler/ingress/ingress.go:200-212 | the external Gateways: unchanged, with the HTTP server appended, or with only that one |
| `Reconcilers.Reconciler.ReconcileRouting` | pkg/reconciler/ingress/ingress.go:223-242 | external and cluster-local Gateways, then the VirtualServices that route on them, up to the first failure |
| `Reconcilers.Reconciler.ReconcileGatewayIngress` | pkg/reconciler/ingress/ingress.go:119-242 | the method ends in the state and outcome of a pass with gateways, whatever the VirtualService cache shows |
| `Reconcilers.Reconciler.ReconcileMeshOnlyIngress` | pkg/reconciler/ingress/ingress.go:289-329 | the method ends in the state and outcome of a mesh-only pass, whatever the VirtualService cache shows |
| `Reconcilers.Reconciler.ReconcileIngress` | pkg/reconciler/ingress/ingress.go:100-242 | defaults, then the pass of the mode that the configuration says, whatever the VirtualService cache shows |
| `Reconcilers.MakeExternalCopies` | pkg/reconciler/ingress/ingress.go:143-155 | copies of plain and then of wildcard certificates, or failure if the gateway services cannot be named |
| `Reconcilers.MakeIngressTLSGateways` | pkg/reconciler/ingress/resources/gateway.go:112-133 | no Gateway without TLS entries, otherwise one per gateway service or failure |
| `Reconcilers.MakeWildcardTLSGateways` | pkg/reconciler/ingress/resources/gateway.go:150-169 | no Gateway without wildcard secrets, otherwise for each gateway service one per secret, or failure |
| `Defaults.DefaultsIdempotent` | vendor/knative.dev/networking/pkg/apis/networking/v1alpha1/ingress_defaults.go:26-64 | defaulting a defaulted Ingress changes nothing |
| `Defaults.AnyTLSExactly` | pkg/reconciler/ingress/ingress.go:520-522 | an Ingress whose rules have hosts is taken to have TLS iff a TLS entry covers a rule that says one of the two visibilities |
| `Defaults.FinalizeCoversDefaultsExactly` | pkg/reconciler/ingress/ingress.go:496-545 | finalizing, given the Ingress as stored and reporting no error, takes a copy that a pass made for it with its defaults iff the stored Ingress is taken to have TLS |
| `Reconcilers.MeshOnlyIsFixpoint` | pkg/reconciler/ingress/ingress.go:289-380 | a second mesh-only pass makes no call |
| `Reconcilers.ReconcilingTwiceIsOnce` | pkg/reconciler/ingress/ingress.go:100-329 | in either mode, after a successful reconciliation another one makes no call, whatever the map orders |
| `Fixpoint.PassFollowsPlan` | pkg/reconciler/ingress/ingress.go:119-242 | whatever is refused and whatever the cache shows, a pass that can be planned from its first table reconciles the planned list and then the planned services |
| `Fixpoint.UnplannedFails` | pkg/reconciler/ingress/ingress.go:119-242 | and one that cannot be planned fails |
| `Fixpoint.GatewayPassSettles` | pkg/reconciler/ingress/ingress.go:133-242 | a successful pass leaves all secrets, Gateways and VirtualServices it planned in place, and the origins as they were |
| `Fixpoint.SettledIsFixpoint` | pkg/reconciler/ingress/ingress.go:133-242 | over a settled table a pass makes no call, in any order of maps and under any refusals |
| `Fixpoint.SuccessfulPassIsFixpoint` | pkg/reconciler/ingress/ingress.go:133-242 | so a successful pass followed by another: no create, update or delete |
| `Fixpoint.SecondPassQuietExactly` | pkg/reconciler/ingress/ingress.go:133-242 | where no copy lies on an origin, the pass after a successful one makes no call iff no two generated objects under one key contradict each other |
| `Credentials.MissingOriginUnreachable` | pkg/reconciler/ingress/resources/gateway.go:307-348 | once the secrets have been read, building TLS servers never lacks an origin |
| `Credentials.CredentialsAlwaysResolve` | pkg/reconciler/ingress/ingress.go:133-198 | after a successful pass every plain, wildcard and cluster-local TLS server names a secret in its service's namespace with the origin's data |
| `Credentials.StoredServersFindCredentials` | pkg/reconciler/ingress/ingress.go:133-231 | the same said of the stored Gateways: every server that terminates TLS has the hosts of a TLS entry and finds that entry's certificate; every stored wildcard Gateway has the hosts of its certificate and finds it |
| `Collisions.OriginsApartSuffice` | pkg/reconciler/ingress/resources/secret.go:56-99 | if origins have different uids, nothing has moved between their wildcard names, and none is named like a copy, then nothing collides iff no two generated Gateways under one key differ in their spec |
| `Collisions.QuietExactlyWhenGatewaysApart` | pkg/reconciler/ingress/ingress.go:133-242 | under the same conditions on the origins the pass after a successful one is quiet iff no two generated Gateways under one key differ in their spec |
| `Collisions.KnownCopiesAgree` | pkg/reconciler/ingress/resources/secret.go:56-99 | under these conditions two copies under one key are the same |
| `RoutedGateways.RoutedGatewaysExist` | pkg/reconciler/ingress/ingress.go:119-236 | every gateway that a successful pass routes on is a configured one or a Gateway in the table |
| `RoutedGateways.RoutedOnOwnPorts` | pkg/reconciler/ingress/ingress.go:119-236 | each visibility is routed on configured gateways of its kind or on stored Gateways that listen only on its own ports; public rules leave the configured ones once there is an HTTP server of their own |
| `EndToEnd.RoutedSomewhereExactly` | pkg/reconciler/ingress/ingress.go:119-236 | with an accepted configuration a successful pass has gateways for public rules iff external gateways are configured, and for cluster-local rules iff local ones are, or the Ingress has cluster-local TLS and external ones are |
| `EndToEnd.ServicesStored` | pkg/reconciler/ingress/ingress.go:234-242 | after a successful pass of the Istio class the gateway service is stored as compiled if any rule has a gateway, and the mesh service if any host is for the mesh |
| `EndToEnd.ReconciledIngressRoutes` | pkg/reconciler/ingress/ingress.go:100-242 | whatever the configuration: the gateway service stored by a successful pass, made if any rule has a gateway, decides every request as the rules say with the gateways in effect, and with those of each rule's visibility if every rule in use has one |
| `EndToEnd.ReconciledMeshRoutes` | pkg/reconciler/ingress/ingress.go:100-242 | the stored mesh service decides every request from the mesh as the rules say |
| `EndToEnd.GatewayServiceMadeExactly` | pkg/reconciler/ingress/resources/virtual_service.go:99-123 | with an accepted configuration the gateway service is made iff some rule has a gateway by configuration |
| `EndToEnd.RoutesStayExactly` | pkg/reconciler/ingress/resources/virtual_service.go:250-275 | with an accepted configuration the stored routes stay on the gateways of their rules' visibilities iff the configuration has one for each rule in use |
| `EndToEnd.AcceptedIngressRoutes` | pkg/reconciler/ingress/ingress.go:100-242 | with an accepted configuration that has a gateway for each rule in use, the stored service decides every request as the rules say |
| `EndToEnd.DecidesByRuleHosts` | pkg/reconciler/ingress/resources/virtual_service.go:125-150 | if expansion keeps the hosts of the rules, only those matter to a decision |
| `EndToEnd.AcceptedSucceedsExactly` | pkg/reconciler/ingress/ingress.go:119-242 | with an accepted configuration and no call refused, a pass succeeds iff its inputs are complete and the keys of the services that the configuration makes necessary are free, all read off configuration, Ingress and table |
| `Success.ReconciliationSucceedsExactly` | pkg/reconciler/ingress/ingress.go:119-242 | with no call refused, a pass with gateways succeeds iff gateways can be selected, every rule has an HTTP block, the secrets exist with readable certificates (cluster-local ones once the external copies are in place), the gateway services needed exist, and no service name is held by someone else |
| `Success.GatewayPassSucceedsExactly` | pkg/reconciler/ingress/ingress.go:119-242 | the same in terms of the plan made from the first table |
| `Success.LocalSecretsAtStart` | pkg/reconciler/ingress/ingress.go:178-198 | unless an external copy lies on the key of a missing secret, whether the cluster-local secrets exist is decided by the table at the start |
| `Success.ExternalPlanExactly` | pkg/reconciler/ingress/ingress.go:133-176 | the external stage has all it needs iff, for a public Ingress with TLS, its secrets are there and readable and its gateway services exist |
| `Success.LocalPlanExactly` | pkg/reconciler/ingress/ingress.go:178-198 | the cluster-local stage has all it needs iff, where it applies, its secrets and gateway services exist |
| `Success.MeshOnlySucceedsExactly` | pkg/reconciler/ingress/ingress.go:289-329 | with no call refused, a mesh-only pass succeeds iff every service can be made and no service name is held by someone else |
| `Success.MeshOnlySucceedsByInputs` | pkg/reconciler/ingress/ingress.go:289-329 | the same said of the inputs: every rule has an HTTP block, and the key of the mesh service is free if there are cluster-local hosts |
| `Success.NoneForeignExactly` | pkg/reconciler/ingress/ingress.go:445-461 | no desired name is taken iff, for the Istio class, the key of each service that is made is free or the Ingress's own |
| `Success.FinalizeSucceedsExactly` | pkg/reconciler/ingress/ingress.go:496-545 | with no call refused, finalizing succeeds iff the gateway services can be named, for an Ingress with TLS in gateway mode |
| `Success.AcceptedFinalizeExactly` | pkg/reconciler/ingress/ingress.go:496-545 | on an accepted configuration: iff the URLs of the external gateways selected for it have two dots |
| `Success.ReconciledNeverFinalizedExactly` | pkg/reconciler/ingress/ingress.go:119-242 | with an accepted configuration an Ingress is reconciled and finalizing it fails, whatever the table is by then, iff its only TLS is cluster-local and not acted on, it has no HTTP server of its own, a selected external URL lacks two dots, and nothing else is in the way |
| `Cleanup.DeleteEachEffect` | pkg/reconciler/ingress/ingress.go:365-379 | only listed objects go, and all of them unless an error is reported |
| `Cleanup.AllCopiesGone` | pkg/reconciler/ingress/ingress.go:358-380 | only secrets go; without error no copy for a TLS entry is left in any namespace |
| `Cleanup.GatewayCopiesGone` | pkg/reconciler/ingress/ingress.go:518-545 | only secrets go; without error none is left in the gateway services' namespaces |
| `Cleanup.CleanupCoversCreation` | pkg/reconciler/ingress/ingress.go:358-380 | after either cleanup without error no copy is left that any earlier pass of the Ingress made, for short and hashed names |
| `Cleanup.CleanupSparesExactly` | pkg/reconciler/ingress/ingress.go:358-380 | a cleanup without error spares a stored copy, of whichever Ingress, iff no TLS entry of the cleaned-up Ingress has the labels of its origin |
| `Cleanup.GatewayCleanupSparesExactly` | pkg/reconciler/ingress/ingress.go:518-545 | the cleanup of finalizing likewise, in the namespaces of the gateway services |
| `Cleanup.PlannedCopiesAreMade` | pkg/reconciler/ingress/resources/secret.go:56-95 | every copy a pass plans is one that cleanup is proved to cover |
| `Cleanup.MeshOnlyPassResult` | pkg/reconciler/ingress/ingress.go:289-329 | a successful mesh-only pass leaves the mesh services as made, no other own service and no own Gateway; of the secrets exactly the copies for the current TLS entries are gone if the Ingress has TLS, and none otherwise |
| `Cleanup.ModeSwitchIsConfluent` | pkg/reconciler/ingress/ingress.go:100-380 | gateway mode and then mesh-only, against mesh-only from a table with the same secrets but without some earlier copies: the same services, own Gateways and secrets, those included that the pass with gateways copied, iff each lacking copy is reclaimed (the Ingress has TLS, and an entry for the origin of the copy or a copy of its own under the key) and the pass has put no copy over a secret that was none |
| `Cleanup.PlannedCopiesGone` | pkg/reconciler/ingress/ingress.go:289-380 | of the copies that a pass with gateways puts in place none is left after the switch |
| `Cleanup.CopyReclaimedExactly` | pkg/reconciler/ingress/ingress.go:100-380 | a stored copy, of whatever origin, is gone after both passes iff it is reclaimed |
| `Cleanup.EarlierCopyStaysExactly` | pkg/reconciler/ingress/ingress.go:100-380 | a copy that a pass made with other TLS entries, labels or configuration stays through both passes iff the Ingress has no TLS any more, or no entry for its origin and no copy of its own under the key |
| `Cleanup.SecretsAfterPass` | pkg/reconciler/ingress/ingress.go:133-198 | a successful pass with gateways leaves under the key of a secret what was there, or a copy for a current TLS entry |
| `Cleanup.NoTLSNoCopies` | pkg/reconciler/ingress/ingress.go:133-198 | a pass of an Ingress without TLS leaves all secrets as they are |
| `Finalize.WithoutServersCounts` | pkg/reconciler/ingress/resources/gateway.go:435-461 | removing one Ingress from a list: as counts, exactly the foreign servers stay, or the placeholder alone |
| `Finalize.FinalizeKindEffect` | pkg/reconciler/ingress/ingress.go:496-516 | finalizing takes the Ingress's servers out of each configured Gateway that exists and changes nothing else but secrets |
| `Finalize.FinalizeAllEffect` | pkg/reconciler/ingress/ingress.go:496-572 | after any number of Ingresses, each configured Gateway holds what is said by which of them left, whatever the order |
| `Finalize.FinalizationOrderIndependent` | pkg/reconciler/ingress/ingress.go:496-572 | two orders of the same Ingresses leave the same multiset of servers in every Gateway, and all else of it as it was at the start |
| `Finalize.FinalizedServersGone` | pkg/reconciler/ingress/ingress.go:496-572 | no server of a finalized Ingress is left; every other server but the placeholder is there as often as before |
| `Servers.SortServers` | pkg/reconciler/ingress/resources/gateway.go:104-109 | in place: the array becomes its contents sorted by port name |
| `Servers.SortConserves` | pkg/reconciler/ingress/resources/gateway.go:104-109 | sorting keeps the multiset of servers |
| `Servers.SortOrders` | pkg/reconciler/ingress/resources/gateway.go:104-109 | the result is in the order of port names |
| `Servers.FindServers` | pkg/reconciler/ingress/resources/gateway.go:72-80 | the loop finds exactly the servers of the list that belong to the Ingress, sorted |
| `Servers.UpdateGateway` | pkg/reconciler/ingress/resources/gateway.go:435-461 | the loops replace the existing servers by the wanted ones, or by the placeholder, and nothing else of the Gateway |
| `Servers.SurgeryConserves` | pkg/reconciler/ingress/resources/gateway.go:435-461 | the new list is, as a multiset, the foreign servers and the wanted ones, or just the placeholder; sorted and never empty |
| `Servers.OthersCount` | pkg/reconciler/ingress/resources/gateway.go:435-461 | the foreign servers are those neither owned nor placeholders, each as often as it was |
| `Servers.SharedOwnershipExactly` | pkg/reconciler/ingress/resources/gateway.go:93-101 | a server can belong to two Ingresses iff namespaces agree and so do the names, or the checksums that replace them |
| `Servers.OwnershipDisjoint` | pkg/reconciler/ingress/resources/gateway.go:93-101 | for DNS-label names no server belongs to two Ingresses |
| `Servers.DottedNamesCollide` | pkg/reconciler/ingress/resources/gateway.go:350-355 | two names that are not labels and have the same port-name prefix in every namespace |
| `Gateways.GatewayNameIsLabel` | pkg/reconciler/ingress/resources/gateway.go:285-304 | for every Ingress name, visibility and service the Gateway's name is a DNS label |
| `Gateways.GatewayNamesMeetExactly` | pkg/reconciler/ingress/resources/gateway.go:285-304 | two Gateways have one name iff the checksums of their services and the cuts of their Ingress names are the same |
| `Gateways.LabelNamesMeetExactly` | pkg/reconciler/ingress/resources/gateway.go:285-304 | for names that are labels: iff the checksums are the same, and the names are, or are long and agree up to the cut at 52 to 61 characters |
| `Gateways.ChecksumFits` | pkg/reconciler/ingress/resources/gateway.go:285-304 | the slice that cuts the name is always in range, with room for 52 to 61 characters |
| `Gateways.MakeTLSServers` | pkg/reconciler/ingress/resources/gateway.go:307-348 | the loop makes one server per TLS entry, sorted, or fails on an unknown visibility or a missing origin |
| `Gateways.ServersForExactly` | pkg/reconciler/ingress/resources/gateway.go:307-348 | the servers can be made iff every entry whose secret lies elsewhere has its origin at hand |
| `Gateways.PortNamesDiffer` | pkg/reconciler/ingress/resources/gateway.go:334-338 | port names of one Ingress with different numbers differ |
| `Gateways.TLSServersOwned` | pkg/reconciler/ingress/resources/gateway.go:307-348 | the servers have pairwise distinct port names and all belong to their Ingress |
| `Gateways.TLSServersRoundTrip` | pkg/reconciler/ingress/resources/gateway.go:72-109 | looking up the Ingress's servers gives back exactly those made, from any list that holds them among others' servers |
| `Gateways.HTTPServerBelongsToNone` | pkg/reconciler/ingress/resources/gateway.go:359-380 | the HTTP server is owned by no Ingress |
| `Gateways.MakeTLSGateways` | pkg/reconciler/ingress/resources/gateway.go:112-133 | the loop makes one Gateway per gateway service, or fails with the first failure of its servers |
| `Gateways.TLSGatewaysEach` | pkg/reconciler/ingress/resources/gateway.go:112-133 | the Gateways are exactly those of the services, one each, and can be made iff each can |
| `Gateways.MakeWildcardGateways` | pkg/reconciler/ingress/resources/gateway.go:171-217 | the loop makes one Gateway per wildcard secret, or fails on a bad certificate |
| `Secrets.CollectSecrets` | pkg/reconciler/ingress/resources/secret.go:39-53 | the loop finds the secret of every TLS entry once, or fails on one that does not exist |
| `Secrets.OriginOf` | pkg/reconciler/ingress/resources/secret.go:39-53 | with "/"-free namespaces the secret found for an entry is the one it names |
| `Secrets.Categorize` | pkg/reconciler/ingress/resources/secret.go:185-200 | the loop splits the secrets by kind of certificate in any map order, or fails on a bad one |
| `Secrets.MakeSecrets` | pkg/reconciler/ingress/resources/secret.go:56-95 | the loops copy every origin to every gateway service in another namespace |
| `Secrets.OriginRoundTrip` | pkg/reconciler/ingress/resources/secret.go:101-160 | the reference read back from a copy is its origin, for names of any length; the name label has at most 63 characters, exactly 63 when hashed |
| `Secrets.CopyIsSelected` | pkg/reconciler/ingress/resources/secret.go:117-135 | a copy carries the labels that cleanup selects by |
| `Secrets.SelectedExactly` | pkg/reconciler/ingress/resources/secret.go:117-135 | the labels of a TLS entry's secret select exactly the copies of origins in the same namespace with the same name label |
| `Secrets.WildcardNamesExactly` | pkg/reconciler/ingress/resources/secret.go:97-99 | for all namespaces and names: two wildcard copies share a name iff they have the same origin, or a dash or a stretch between double dashes moved across the border |
| `Secrets.WildcardNamesOfLabels` | pkg/reconciler/ingress/resources/secret.go:97-99 | for DNS-label namespaces: iff they have the same origin or a stretch between double dashes moved |
| `Secrets.WildcardNamesCollide` | pkg/reconciler/ingress/resources/secret.go:97-99 | two valid secrets in valid namespaces whose wildcard copies share a name |
| `Secrets.WildcardNamesInjective` | pkg/reconciler/ingress/resources/secret.go:97-99 | for DNS-label namespaces without "--" names of wildcard copies are injective |
| `Config.ParseOldFormatGateways` | pkg/reconciler/ingress/config/istio.go:289-320 | the loop over the map in any order gives one gateway per key with the prefix, by name |
| `Config.ParseConfigMap` | pkg/reconciler/ingress/config/istio.go:174-204 | the parser gives the configuration of the one format that is used, with its defaults, or refuses it |
| `Config.FilterGateway` | pkg/reconciler/ingress/resources/gateway.go:520-541 | the loop gives the gateways whose selector matches, or fails on one that does not compile |
| `Config.SelectGateways` | pkg/reconciler/ingress/resources/gateway.go:488-518 | both lists: the matching gateways, or those without selector if none matches, or failure |
| `Config.AcceptedHasDefaults` | pkg/reconciler/ingress/config/istio.go:174-204 | an accepted configuration has a gateway without selector in each list that is not empty, exactly one in the new format |
| `Config.SelectionIsTotal` | pkg/reconciler/ingress/resources/gateway.go:488-541 | on an accepted configuration selection never fails, is empty only where the list is, and gives the matches in order or, without any, all gateways without selector |
| `Config.EmptyOnlyIfSaid` | pkg/reconciler/ingress/config/istio.go:223-265 | a list is empty after parsing iff the new format says so explicitly |
| `Config.ServiceURLExactly` | pkg/reconciler/ingress/resources/gateway.go:420-432 | a service URL parses iff it has two dots |
| `Config.ServicesParseExactly` | pkg/reconciler/ingress/resources/gateway.go:394-418 | the gateway services can be named iff every URL has two dots, one service per gateway |
| `Config.AcceptedServicesExactly` | pkg/reconciler/ingress/resources/gateway.go:394-418 | with an accepted configuration: iff the URLs of the external gateways selected for the Ingress have two dots |
| `Config.AcceptedWithoutServices` | pkg/reconciler/ingress/config/istio.go:92-124 | an accepted configuration for which the gateway services of no Ingress can be named |
| `ProbeTargets.ListGatewayTargets` | pkg/reconciler/ingress/lister.go:130-206 | the targets of a Gateway: none without a service, an error without endpoints, otherwise those specified |
| `ProbeTargets.TargetsOfServers` | pkg/reconciler/ingress/lister.go:148-204 | the nested loops with the `seen` set of string keys give the specified targets in order |
| `ProbeTargets.SubsetTargets` | pkg/reconciler/ingress/lister.go:182-203 | the inner loop gives one target per subset in which the port resolves, with its pods |
| `ProbeTargets.TagsExactly` | pkg/reconciler/ingress/lister.go:148-204 | the (protocol, port, subset) triples are pairwise distinct and are exactly those that are due |
| `ProbeTargets.TargetsComplete` | pkg/reconciler/ingress/lister.go:130-206 | one target for each (protocol, port, subset) for which an eligible server exists and the port resolves, and no other |
| `ProbeTargets.SkippedSuppressNothing` | pkg/reconciler/ingress/lister.go:150-168 | the targets are those of the eligible servers alone: a skipped server suppresses nothing |
| `ProbeTargets.SeenKeyInjective` | pkg/reconciler/ingress/lister.go:177-181 | the key of an eligible server determines its protocol and port |
| `ProbeTargets.HostsPerVisibility` | vendor/knative.dev/networking/pkg/ingress/ingress.go:77-90 | a gateway is listed with exactly the hosts of the rules of its visibilities, and never without a host |
| `ProbeTargets.ListProbeTargets` | pkg/reconciler/ingress/lister.go:64-116 | nothing without gateways; otherwise it succeeds iff every gateway that a host is on is there, with endpoints if it has a service, and then lists by name exactly one target for each gateway, protocol, port and subset that is due, under the least host of the gateway |
| `ProbeTargets.TargetsListed` | pkg/reconciler/ingress/lister.go:82-115 | the listing of some gateways succeeds iff each can be listed, and then has one target for each of their due places and no other |
| `ProbeAnswers.ProbeAnsweredExactly` | vendor/knative.dev/networking/pkg/ingress/ingress.go:45-73 | the service stored by a successful pass answers a probe with the hash iff a path of a rule takes it, when nothing is asked of the reserved header |
| `ProbeAnswers.OpenTakenExactly` | pkg/reconciler/ingress/resources/virtual_service.go:250-285 | with a path for it in every rule, a probe is taken iff a rule of its gateway has a host whose prefix its authority has |
| `ProbeAnswers.ProbeUnderHostExactly` | pkg/reconciler/ingress/lister.go:100-113 | a probe to a port under a listed host is answered with the hash iff a rule of its gateway has a host whose prefix the listed one has, and a path that takes the probe |
| `ProbeAnswers.ListedProbesAnswered` | pkg/reconciler/ingress/lister.go:64-116 | every probe that is listed, to a configured gateway under its least host, is answered with the hash, on that gateway or the one that takes its place when public rules have an HTTP server of their own, if hosts of the cluster's domain lie in its "svc" part and every rule has a path for it |
| `ProbeAnswers.StandInListens` | pkg/reconciler/ingress/ingress.go:200-232 | the Gateway that takes the place of a configured one is stored, selects the pods of that one's gateway service, and has the HTTP server for the public hosts |
| `ProbeTargets.HostTableUnique` | vendor/knative.dev/networking/pkg/ingress/ingress.go:77-90 | the hosts by gateway are determined, whatever the order of iteration |
| `Strings.DecimalInjective` | pkg/reconciler/ingress/resources/gateway.go:337 | different numbers print differently in decimal |
| `Strings.AdlerDecimalLength` | pkg/reconciler/ingress/resources/gateway.go:285-304 | an Adler-32 checksum prints as one to ten digits |
| `Strings.SortedListUnique` | pkg/reconciler/ingress/resources/virtual_service.go:216-220 | a set has one sorted listing, so any correct sort gives it |
| `Witnesses.EmptyExternalListLeaks` | pkg/reconciler/ingress/config/istio.go:223-265 | the configuration with nothing but an empty external list is accepted, a pass for a public and a cluster-local rule succeeds, and a stored route leaks |
| `Witnesses.EmptiedIngressLeavesCopy` | pkg/reconciler/ingress/ingress.go:100-380 | the TLS entries of an Ingress are taken away: a pass with gateways and one in mesh-only mode succeed, and the copy made before is still there |
| `Witnesses.SharedSecretLosesCopy` | pkg/reconciler/ingress/ingress.go:518-545 | two Ingresses name one secret: finalizing the one takes away the copy made for the other |
| `Witnesses.AskedHeaderIsIgnored` | vendor/knative.dev/networking/pkg/ingress/ingress.go:45-73 | a rule whose only path asks for another value of the reserved header takes no probe, and the compiled service answers it with the hash |
| `Witnesses.ShortServicesNeverFinalize` | pkg/reconciler/ingress/ingress.go:496-545 | an accepted configuration and an Ingress with cluster-local TLS: a pass succeeds, and finalizing fails over every table |
| `Witnesses.CollidingServicesNeverQuiet` | pkg/reconciler/ingress/resources/gateway.go:285-304 | an accepted configuration with two gateway services of one checksum: a pass succeeds, and the next one makes a call |
| `Witnesses.OutsideListed` | vendor/knative.dev/networking/pkg/ingress/ingress.go:77-113 | for a host in the cluster's domain outside "svc" the short form is listed and is the least |
| `Witnesses.ShortNameUnanswered` | pkg/reconciler/ingress/lister.go:100-113 | a pass for that host succeeds, and the stored service does not answer the probe under the short form |
| `Witnesses.LongNamesOverwrite` | pkg/reconciler/ingress/ingress.go:424-440 | two Ingresses of one namespace, with valid names of 62 characters that differ in the last: the pass of the second has the Gateway of the first serve the host of the second alone |
| `Witnesses.UnstatedKeepsCopy` | pkg/reconciler/ingress/ingress.go:496-545 | an Ingress stored with a rule that does not say its visibility: a pass makes the copy, finalizing succeeds and leaves it |

## Left out

- Functions of other packages are parameters, fields of `Types.Library`: the YAML parser, certificate decoding, MD5,
  `fmt.Sprintf` of one number, label-selector matching, the hash of an Ingress. They are pure and total; where a
  theorem needs more of one, it says so (`Gateways.FormatsPlainly`).
- `ServiceObjects.ChildName` is modelled for suffixes that are shorter than the hashed head, which both of its
  suffixes are.
- Strings are byte strings; blank configuration entries are recognised by ASCII white space only.
- Nil and empty maps are one value. A nil HTTP block is an error at defaulting, where the code panics.
- The API server: no resource versions and conflicts, no uids and defaults assigned by the server, no garbage
  collection. A refused call changes nothing.
- Only the VirtualService cache can be stale; the Secret and Gateway listers are up to date.
- Status, conditions, events, the tracker, the prober's readiness and the load-balancer status that `reconcileIngress`
  sets after the VirtualServices are in place; logging; error texts. Errors are told apart as far as the code does.
- `sort.Slice` is modelled as a stable insertion sort. The order of servers with one port name, which `sort.Slice`
  leaves open, does not matter to the theorems stated on multisets. VirtualServices of one name in several namespaces,
  which an Ingress without namespace can list, are removed in namespace order.
- Aliasing: slices and pointers shared between Gateways are values here. Appending the HTTP server in place is
  modelled on an array of Gateways.
- Cleanup.ModeSwitchIsConfluent: shared wildcard Gateways are not compared.
- Cleanup.CleanupCoversCreation: with the same TLS entries and the same gateway services as when the copies were made,
  and with defaults set; `Defaults.FinalizeCoversDefaultsExactly` is about the Ingress as it is stored.
- Credentials.CredentialsAlwaysResolve: for "/"-free secret namespaces and generated objects that do not collide; a
  collision is two objects under one key that ask for different things, or a copy on the key of an origin. For copies
  `Collisions.OriginsApartSuffice` says when there is none. `StoredServersFindCredentials` likewise.
- Fixpoint.SuccessfulPassIsFixpoint: under the same absence of collisions. `ReconcilingTwiceIsOnce` likewise, in
  gateway mode, and `RoutedGateways.RoutedOnOwnPorts`.
- Secrets.WildcardNamesInjective: for namespaces without "--"; with it, names collide as `WildcardNamesOfLabels` says.
- Gateways.TLSServersRoundTrip: for namespaces free of ":" and "%", and a `Sprintf` that puts the number in place of
  the verb.
- Finalize.FinalizationOrderIndependent: with no call refused; a refused call makes the controller finalize again.
- Isolation.PassesCommute: with no call refused and with up-to-date caches; `PassWritesOnlyItsOwn` has neither limit.
- Retries.RetriedPassesConverge: where objects generated under one key do the same to the table
  (`Store.CompatibleExactly`) and no copy lies on the key of an origin. `TwoStalePassesConverge` likewise.
- Contention.WholePassesCommuteExactly: with no call refused, for passes that can be planned, where no copy lies on an
  origin of either Ingress, and neither wants or holds the name of a VirtualService of the other.
- ProbeAnswers.ListedProbesAnswered: that a request to a configured gateway is handed to the Gateway that stands in
  for it is Istio's part; `StandInListens` says that it selects the pods of the same service.
- ProbeAnswers.ProbeUnderHostExactly: for hosts free of ":".
- EndToEnd.AcceptedIngressRoutes: for rules of the two known visibilities, as validation at admission guarantees.
- Only `Convergence`, `Retries` and `MeshRetries` speak of a stale VirtualService cache; the other theorems on whole
  reconciliations are for one that is up to date. The methods of `Reconcilers.Reconciler` are specified for both.
- The serverlessservice reconciler, the DestinationRule and Certificate accessors, `GetHTTPServer`, controller wiring,
  informers, deployment defaults and certificate generation.
