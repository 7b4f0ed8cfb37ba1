# Verification model of the NGINX Ingress Controller

This project models the parts of the NGINX Ingress Controller (kic-1.11.1) that keep state in step, and one pair of functions of
Kubespray's Terraform inventory, and proves what they are for. `dafny verify dfyconfig.toml` checks everything.

## What is modelled

**Who holds what, and what is deployed.** Ingresses, VirtualServers and TLS passthrough TransportServers compete for hosts,
other TransportServers for listeners, and minions for the paths of their master. After every event the controller picks the
holders anew, compares them with the old ones, squashes the differences to one change per resource, and applies the changes to
what NGINX has deployed. `Resources`, `Arbitration` and `Rebuild` say who holds what; `Changes` and `Collisions` say what a list
of changes does, also part-way; `Minions`, `Problems` and `Listeners` treat paths, recorded problems and listeners; `Runs` puts
the events together and proves, for whole runs, when the deployment follows the holders, and `EventCollisions` when two
resources serve one host during an event. `Promises`, `MinionPromises`, `ProblemPromises` and `WarningPromises` say the same
from the fields of the stored objects alone: who deserves a host, a listener or a path, what is deployed, and what is reported;
`Versions` says when its content is the newest. `LostDeployment`, `ExchangeRun`, `LostWarning` and `MinionStores` are runs,
calls and stores in which something goes wrong. `ResourceObjects`, `HostBuilder`, `ListenerBuilder`, `ProblemRecorder`,
`ChangeLists`, `Configuration` and `Controller` are the loops and the classes, on resources that are shared and changed in
place, each proved against the specification above.

**Routes to NGINX configuration.** A route of a VirtualServer selects by chains of conditions, splits traffic, and may delegate
to VirtualServerRoutes. `RouteCompiler` and `RouteGenerator` turn routes into maps, split clients, locations and redirects;
`RouteSemantics` says how NGINX answers a request with those, going on in another block after each rewrite, and, independently
of them, what a route asks for. `RouteCorrectness` and `RouteTheorems` say exactly when the two agree; `RouteSelection` and
`RouteEntrances` say which block a request meets; `RouteNames`, `RouteNaming`, `RoutePaths` and `RouteClosed` prove that names
are unique and defined and say when no two blocks have one path; `RoutePages` says which upstreams and error pages are in force
for a route. `RouteClashes` holds VirtualServers that are not served as they ask. `PlusUpstreams` compares the fast path for
NGINX Plus with the full generator.

**App Protect.** `AppProtect` says which signatures and policies are valid by looking at all of them; `AppProtectConfiguration`
is the incremental update in place, and its outcomes are proved to be enough to follow the valid policies and signatures.

**Latency metrics.** `Latency` is the two-mutex protocol as interleaved steps, and `LatePublication` says when a published
series belongs to a peer that still has labels; `MetricLabels` holds the collector, the index of label names and the
Configurator's updates of both, and `LabelRuns` their runs.

**Smaller parts.** `SecretStore` is the local secret store with the files on disk, `ParseTime` the parser and printer of NGINX
times, and `Terraform`, `TerraformRoundTrip`, `TerraformDictionaries` and `TerraformMethods` the flattening of attributes and
its inverse. `Strings` and `Decimals` hold order, sorting and decimal numerals.

## What is assumed

- Stored objects are what the API server and the validators let through: keys are `namespace/name` without further slashes, UIDs
  are distinct, an Ingress has non-empty distinct hosts, masters and minions have one rule, a VirtualServer has a host, and a
  TransportServer competes for a host or for a listener but not for both (`Rebuild.StoreOk`). The verdict of a validator on a
  new object is an input of the operation.
- Whether a VirtualServerRoute fits under a route of a VirtualServer is what the route validator says about hosts and paths
  (`nginx/kic-1.11.1/pkg/apis/configuration/validation/virtualserver.go:1322-1398`).
- Go ranges over maps in any order. Where the order could matter it is arbitrary in the model, and the results hold for each.
- Writing, deleting and reloading succeed; an error of NGINX changes statuses and events, not the lists of changes.
- In a map of conditions it is left open when a value fits a text (equal up to case, or matching as a regular expression), and
  when a path that is a regular expression matches a URI.
- A request for a route is one that NGINX gives to the block of that route first.

## Where the code does not do what it is meant to

Each of these is stated with its exact condition; the lemma is given in parentheses.

- Deployment and holders fall apart when a TransportServer that holds a host is updated to ask for a listener that it takes: the
  update comes first and the delete second, because the two lists are joined without squashing (`Runs.DeploymentFollowsHolders`,
  `Runs.LosesDeploymentIff`, `LostDeployment.HeldButNotDeployed`).
- Changes are found by comparing generations. A VirtualServer that is deleted and created again under its name, with another
  content, before the controller looks, has its first generation again, and the old content stays deployed
  (`Versions.NewestContentIsDeployed`, `Versions.DeployedAfterUpdate`, `Versions.RecreatedIsNotDeployed`).
- Deletes first is not enough to keep two resources from serving one host part-way: one update can make two Ingresses exchange
  hosts, and then both serve one for a moment (`EventCollisions.EventCollisionFreeIff`, `ExchangeRun.ExchangeCollides`).
- The changes of a listener rebuild are looked up under a key with kind in a table that is kept by keys without, so nothing is
  ever found (`ListenerBuilder.KeyWithKindNotStored`). The deployment is not harmed, but a TransportServer that loses its
  listener is removed without the warning that says why (`ListenerBuilder.NewestIff`, `LostWarning.LoserIsNotTold`).
- A minion that lists a path twice takes the path over from itself and is not served it by anybody
  (`Minions.ValidIffHeldAndListedOnce`, `MinionStores.RepeatedPathIsNotServed`); the empty path and `/` make one location twice
  (`Minions.LocationsOfMaster`, `MinionStores.EmptyPathRepeatsLocation`).
- Validation lets a route have the path of an internal location, and two VirtualServerRoutes have a subroute with one path;
  NGINX then refuses the configuration (`RoutePaths.AcceptedIff`, `RouteClashes.InternalPathUsedClashes`,
  `RouteClashes.SubroutesOverlapClashes`).
- A route with matches or splits rewrites its requests to internal paths. A route for exactly such a path, or a regular
  expression that matches it, takes these requests away (`RouteSelection.InternalPathSelectedIff`,
  `RouteTheorems.EveryRouteServedIff`, `RouteClashes.ExactPathTakesRequest`, `RouteClashes.CatchAllTakesRequests`).
- Two VirtualServers can share their variable names (`RouteNames.VirtualServersShareNamesIff`, `RouteNames.SharedNamesExample`).
- The name of a VirtualServer may contain dots, and NGINX ends the name of a variable that is used at the first dot: the
  variables of such a VirtualServer are never looked up under the names under which they are defined (`RouteNames.DotsMatter`,
  `RouteNames.DottedNamesExample`). The results about answers and defined names are for VirtualServers without dots in their
  names.
- Deleting a signature that is not stored returns an empty list of signatures, whatever is valid
  (`AppProtect.MirrorKeepsSigsIff`). A requirement whose time range has no bound is not met by a signature with a revision time
  (`AppProtect.ReqMetIff`).
- Two Ingresses can share the name of an upstream. It then has the labels of the one updated last, and none when one of them
  gives it up (`MetricLabels.UpdateAgreesIff`, `MetricLabels.DeleteAgreesIff`, `LabelRuns.LabelsFollowResources`,
  `LabelRuns.SharedNameLosesLabels`).
- A record that is overtaken by the deletion of its peer publishes a series that nobody deletes
  (`LatePublication.PublishedPeersAreWatchedIff`, `LatePublication.OvertakenRecordStays`).
- A secret with a file that becomes an OpenID Connect secret leaves its file behind (`SecretStore.StepKeepsConsistentIff`). The
  type of a Kubernetes secret cannot be changed, but a secret that is deleted and created again between two synchronisations
  looks to the store like one that was (`SecretStore.RecreatedLeavesFile`).
- Flattening loses empty dictionaries in a list (`TerraformRoundTrip.AttrListRoundTripIff`,
  `TerraformRoundTrip.EmptyDictionaryIsLost`), and a dictionary with a key `#` or `%` does not come back
  (`TerraformDictionaries.DictRoundTripIff`).

## What other code rules out

Three conditions are necessary as far as the modelled code goes, but no input violates them.

- A match without conditions makes its route use an undefined variable (`RouteClosed.NamesAreDefinedIff`,
  `RouteClosed.UnconditionalNeverServed`). The validator rejects such matches
  (`nginx/kic-1.11.1/pkg/apis/configuration/validation/virtualserver.go:1181-1182`), so in validated VirtualServers every name
  is defined exactly once (`RouteClosed.ValidatedNamesAreDefined`).
- The generator asks whether a service is in the ExternalName table, the fast path what the table says
  (`PlusUpstreams.FastPathRefinesGeneratorIff`). The controller only enters `true`
  (`nginx/kic-1.11.1/internal/k8s/controller.go:2273`, `:2374`), so the two always agree
  (`PlusUpstreams.FastPathRefinesGenerator`).
- A label value with a `+` makes a latency series impossible to delete (`Latency.DeletedIffPlain`). Names of upstreams and of
  Kubernetes objects, addresses and status codes contain none, so no series is lost (`Latency.NoSeriesLost`).

## Model

| member | source | states |
|---|---|---|
| Resources.WinsTransitive | nginx/kic-1.11.1/internal/k8s/configuration.go:50-56 | winning a host is transitive (what it means to win is WinsIffOlder) |
| Resources.WinsIffOlder | nginx/kic-1.11.1/internal/k8s/configuration.go:50-56 | one object wins over another exactly when it was created earlier, or at the same time with the greater UID |
| Strings.LessIff | nginx/kic-1.11.1/internal/k8s/configuration.go:50-56 | the order of texts: one is less than another exactly when it is a proper prefix of it or smaller at the first place where they differ |
| Resources.WinsTotal | nginx/kic-1.11.1/internal/k8s/configuration.go:50-56 | of two objects with different UIDs exactly one wins |
| Resources.WinsNegativelyTransitive | nginx/kic-1.11.1/internal/k8s/configuration.go:50-56 | not winning is transitive too, so that one pass over the claims finds a best one |
| Resources.EqualSlots | nginx/kic-1.11.1/internal/k8s/configuration.go:148-177 | two equal resources that serve one host in common serve the same hosts; this rests on the valid hosts of an Ingress being part of its equality |
| Arbitration.HolderIsBest | nginx/kic-1.11.1/internal/k8s/configuration.go:1238-1337 | every claimed slot has a holder, which claimed it, and no claimant was created earlier, or at the same time with a greater UID |
| Arbitration.HolderBeatsOthers | nginx/kic-1.11.1/internal/k8s/configuration.go:1238-1337 | with distinct UIDs the holder was created before every other claimant, or at the same time with a greater UID |
| Arbitration.OrderDoesNotMatter | nginx/kic-1.11.1/internal/k8s/configuration.go:1238-1337 | with distinct UIDs the holders depend on who claims what, not on the order in which the objects are visited |
| Arbitration.ClaimsAreHeldOrLost | nginx/kic-1.11.1/internal/k8s/configuration.go:1254-1333 | conservation: the claims are, with multiplicity, the warnings plus the slots held |
| Arbitration.WarningCount | nginx/kic-1.11.1/internal/k8s/configuration.go:1254-1333 | the number of warnings is the number of claims less the number of distinct slots claimed |
| Arbitration.WarnedIffLost | nginx/kic-1.11.1/internal/k8s/configuration.go:1254-1333 | an object is warned about a slot it claims once if another object holds it, and never otherwise |
| Rebuild.HostHolderIsBestClaimant | nginx/kic-1.11.1/internal/k8s/configuration.go:1238-1337 | over all stored Ingresses, VirtualServers and passthrough TransportServers: each host asked for is held by the object that was created first of those that ask for it, of equally old ones by that with the greatest UID |
| Promises.HoldsHostIffDeserves | nginx/kic-1.11.1/internal/k8s/configuration.go:1238-1337 | from the fields of the stored objects alone: an object holds a host exactly when it asks for the host and every other object that does was created later, or at the same time with a smaller UID |
| Promises.HolderIsWhatIsStored | nginx/kic-1.11.1/internal/k8s/configuration.go:896-945 | what holds a host is what is stored: of an Ingress exactly the hosts that it deserves are valid, a master comes with its minions, a VirtualServer with its VirtualServerRoutes |
| Promises.AttachedAreReferred | nginx/kic-1.11.1/internal/k8s/configuration.go:1386-1420 | the VirtualServerRoutes of a VirtualServer are those that its routes refer to and that fit, in the order of the routes |
| Rebuild.BuildHostsCoherent | nginx/kic-1.11.1/internal/k8s/configuration.go:896-945 | after a rebuild, a resource that holds a host serves exactly the hosts it holds, and is one object under all of them |
| Rebuild.SettledServesWhatItHolds | nginx/kic-1.11.1/internal/k8s/configuration.go:933-945 | an Ingress that holds a host is marked as the holder of exactly the hosts it holds |
| Rebuild.WarnedAboutEachHostLost | nginx/kic-1.11.1/internal/k8s/configuration.go:1254-1333 | each object is told exactly once about each host it asked for and lost, and about no other |
| Changes.SquashKeepsEffect | nginx/kic-1.11.1/internal/k8s/configuration.go:1196-1236 | squashing any list of changes leaves its effect on any deployment as it was |
| Changes.EqualIffAgrees | nginx/kic-1.11.1/internal/k8s/configuration.go:148-309 | two resources are equal exactly when they agree field by field: namespace, name and generation of the object; for an Ingress its annotations, valid hosts, whether it is a master, and generation and annotations of each minion; for a VirtualServer name and generation of each of its routes; for a TransportServer its port |
| Changes.RawChangesAre | nginx/kic-1.11.1/internal/k8s/configuration.go:1109-1150 | the list before squashing, change by change: old holders of slots no longer held are deleted, then those of slots that changed hands; then the new holders of slots whose holders disagree are updated, then those of slots newly held; each time in the order of the slots |
| Changes.SquashedInOrder | nginx/kic-1.11.1/internal/k8s/configuration.go:1196-1236 | a squashed list has its deletes before its updates, and both in the order in which the resources are first mentioned |
| Changes.RefreshKeepsEffect | nginx/kic-1.11.1/internal/k8s/configuration.go:912-917 | pointing changes at the newest versions keeps the effect if the updates refer to them already |
| Changes.RawLast | nginx/kic-1.11.1/internal/k8s/configuration.go:1109-1150 | the list ends, for each resource, with an update if it holds something that changed or is new, else with a delete if it lost something, else it does not mention it |
| Changes.UnchangedHolder | nginx/kic-1.11.1/internal/k8s/configuration.go:1506-1533 | a holder that needs no update holds exactly what it held before, each host in an equal version |
| Changes.SurvivorIsUpdated | nginx/kic-1.11.1/internal/k8s/configuration.go:1109-1150 | a resource that loses some of its hosts and keeps others, such as an Ingress with several hosts, is updated to its newest version and never deleted |
| Changes.StepKeepsTracking | nginx/kic-1.11.1/internal/k8s/configuration.go:896-931 | applying the changes between the old and the new holders takes a deployment that agrees with the old holders, field by field, to one that so agrees with the new ones |
| Collisions.CollisionFreeIff | nginx/kic-1.11.1/internal/k8s/configuration.go:1145-1149 | for any two holder maps and whatever else is deployed: no prefix of the squashed list lets two resources serve one host, if and only if no host moves from a resource that goes on holding hosts to one that lost a host earlier in the list |
| EventCollisions.EventChangesAreProcessed | nginx/kic-1.11.1/internal/k8s/configuration.go:619-626 | what one event makes the controller process is the list of listener changes followed by the list of host changes |
| EventCollisions.EventCollisionFreeIff | nginx/kic-1.11.1/internal/k8s/configuration.go:1145-1149 | the same for every event in every state of a run whose deployment follows the holders, over the whole list that the event causes and with TransportServers deployed on listeners; the condition is told from what is stored before and after the event |
| EventCollisions.NoCollisionWhenReceiversLoseNothing | nginx/kic-1.11.1/internal/k8s/configuration.go:1145-1149 | no collision during an event in which hosts only pass from surviving resources to resources that lose none |
| Collisions.ExchangeMovesTooEarly | nginx/kic-1.11.1/internal/k8s/configuration.go:1196-1236 | when two resources exchange hosts, one host moves too early, in whatever order the hosts sort |
| ExchangeRun.ExchangeCollides | nginx/kic-1.11.1/internal/k8s/configuration.go:1196-1236 | a run of three events from the empty controller, for all names and hosts: the last one updates a single Ingress, makes it exchange hosts with another one, and both serve one host part-way |
| Minions.ValidIffHeldAndListedOnce | nginx/kic-1.11.1/internal/k8s/configuration.go:1339-1384 | a path is valid in a minion exactly when the minion holds it and lists it only once |
| Minions.ValidInExactlyOneMinion | nginx/kic-1.11.1/internal/k8s/configuration.go:1339-1384 | in every valid store: a path is valid in a minion of a master exactly when the minion holds it and lists it only once; the holder is older, or as old with a greater UID, than every other minion of that master that lists it |
| MinionPromises.MinionConfigsAreDeserved | nginx/kic-1.11.1/internal/k8s/configuration.go:1339-1384 | from the stored Ingresses alone: the minions of a master are those with its host, in the order of their keys, and a path is valid in one of them exactly when it lists the path once and every other one that lists it was created later, or at the same time with a smaller UID |
| Minions.ClaimedOnceIsServed | nginx/kic-1.11.1/internal/k8s/configuration.go:1339-1384 | if no minion lists a path twice, every claimed path is served by its holder |
| Minions.OneLocationPerPath | nginx/kic-1.11.1/internal/configs/ingress.go:543-589 | the merged server has one location for each path whose holder lists it only once, and none for any other |
| Minions.LocationRepeatedIff | nginx/kic-1.11.1/internal/configs/ingress.go:469-474 | the merged server repeats a location exactly when both the empty path and `/` are served, and then the location is `/` |
| Minions.LocationsOfMaster | nginx/kic-1.11.1/internal/configs/ingress.go:543-589 | both for the minions of every master of every valid store |
| MinionStores.RepeatedPathIsNotServed | nginx/kic-1.11.1/internal/k8s/configuration.go:1339-1384 | a valid store with a minion that lists a path twice: it holds the path and the merged server has no location for it |
| MinionStores.EmptyPathRepeatsLocation | nginx/kic-1.11.1/internal/configs/ingress.go:469-474 | a valid store with a minion that lists the empty path and `/`: the merged server has the location `/` twice |
| Problems.HoldsHostOrHasProblem | nginx/kic-1.11.1/internal/k8s/configuration.go:993-1039 | every resource that competes for hosts holds one or has a problem, never both |
| Problems.MinionAttachedOrHasProblem | nginx/kic-1.11.1/internal/k8s/configuration.go:1041-1063 | every stored minion is attached to an active master or has a problem, never both |
| Problems.RouteAttachedOrHasProblem | nginx/kic-1.11.1/internal/k8s/configuration.go:1065-1103 | every stored VirtualServerRoute is attached to an active VirtualServer or has a problem, never both |
| ProblemPromises.HostProblemsAreReported | nginx/kic-1.11.1/internal/k8s/configuration.go:993-1103 | which problem is recorded for which object, from the stored objects alone: an Ingress that deserves none of its hosts, a VirtualServer or passthrough TransportServer that does not deserve its host, a minion whose host no master deserves, a VirtualServerRoute whose host no VirtualServer deserves, or one whose VirtualServer has no route that refers to it; and no others |
| ProblemPromises.ListenerProblemsAreReported | nginx/kic-1.11.1/internal/k8s/configuration.go:967-991 | the same for TransportServers: the listener is taken if another one deserves a listener of that name, and missing if none does |
| ProblemPromises.WarnedAboutRoutes | nginx/kic-1.11.1/internal/k8s/configuration.go:1386-1420 | a VirtualServer is warned, in the order of its routes, about each route that refers to a VirtualServerRoute that is not stored or does not fit: which of the two, and no others |
| WarningPromises.ToldAboutHosts | nginx/kic-1.11.1/internal/k8s/configuration.go:1254-1333 | the warnings about hosts: one for each host that the object asks for and does not deserve, and no others |
| WarningPromises.WarningsCarried | nginx/kic-1.11.1/internal/k8s/configuration.go:1254-1420 | all warnings of a resource after a rebuild: those of a VirtualServer about its routes, then those about hosts, and no others |
| WarningPromises.ToldAboutListener | nginx/kic-1.11.1/internal/k8s/configuration.go:714-763 | the same for listeners |
| Listeners.ListenerOrderDoesNotMatter | nginx/kic-1.11.1/internal/k8s/configuration.go:714-763 | the holders of the listeners do not depend on the order in which Go ranges over the TransportServers |
| Listeners.ListenerHolderIsBest | nginx/kic-1.11.1/internal/k8s/configuration.go:714-763 | a listener is held by the TransportServer that was created first of those that ask for it with the right protocol, of equally old ones by that with the greatest UID |
| Promises.HoldsListenerIffDeserves | nginx/kic-1.11.1/internal/k8s/configuration.go:714-763 | from the stored objects alone: a TransportServer holds a listener exactly when it asks for it, a listener with that name and its protocol exists, and every other one of which this is so is younger, or as old with a smaller UID; and the port of the holder is that of this listener |
| Listeners.HoldsListenerIff | nginx/kic-1.11.1/internal/k8s/configuration.go:714-763 | which TransportServers hold a listener is told from the store alone, whatever the order of the visit |
| Listeners.ActiveListenersDoNotClash | nginx/kic-1.11.1/internal/k8s/configuration.go:714-763 | two TransportServers that are active on different listeners never share a port and a protocol |
| Listeners.HoldsListenerOrHasProblem | nginx/kic-1.11.1/internal/k8s/configuration.go:967-991 | every TransportServer that competes for a listener holds one or has a problem, never both |
| Listeners.ValidateListeners | nginx/kic-1.11.1/pkg/apis/configuration/validation/globalconfiguration.go:34-59 | a list is accepted exactly when each listener is valid by itself, no name occurs twice and no port occurs twice with one protocol |
| Runs.EventKeepsTrackingIff | nginx/kic-1.11.1/internal/k8s/configuration.go:601-680 | processing the listener list and then the host list keeps the deployment in step with the holders exactly when no resource leaves a host for a listener |
| Runs.StepKeepsTrackingIff | nginx/kic-1.11.1/internal/k8s/configuration.go:392-680 | every event of the controller keeps the deployment in step exactly when it is not the update of a TransportServer that holds a host, to ask for a listener that it takes from everybody else |
| Runs.LosesDeploymentIff | nginx/kic-1.11.1/internal/k8s/configuration.go:601-626 | that condition, on the state before the event and the event, says exactly when somebody leaves a host for a listener in the step |
| Runs.DeploymentFollowsHolders | nginx/kic-1.11.1/internal/k8s/configuration.go:318-319 | over every run from the empty controller: what is deployed is at every moment exactly what holds a host or a listener, agrees with the holder field by field (generations, annotations, valid hosts, minions, routes, port) and serves what it holds, if and only if no event is such an update |
| Promises.StoredIsLatest | nginx/kic-1.11.1/internal/k8s/configuration.go:392-680 | after any events, what is stored under a key is the object of the last event about it, unless that removes it |
| Promises.DeployedIffDeserves | nginx/kic-1.11.1/internal/k8s/configuration.go:318-319 | over every run without such an update, from the stored objects alone: what is deployed is exactly what deserves a host or a listener, in the newest generation, with the valid hosts that it deserves, the newest minions or routes, and the port of its listener |
| Versions.NewestContentIsDeployed | nginx/kic-1.11.1/internal/k8s/configuration.go:301-310 | over every run without such an update: if versions of an object with one generation have one content, everything deployed has the content of what is stored, down to the paths that are valid in each minion |
| Versions.DeployedAfterUpdate | nginx/kic-1.11.1/internal/k8s/configuration.go:235-310 | an update of a VirtualServer that holds its host before and after: the new version is deployed if it does not agree, field by field, with what is deployed; else the old one stays, whatever the content |
| Versions.RecreatedIsNotDeployed | nginx/kic-1.11.1/internal/k8s/configuration.go:305-309 | so, for every content, a VirtualServer that is deleted and created again under its name between two synchronisations, with the same generation, keeps its old content deployed |
| LostDeployment.HeldButNotDeployed | nginx/kic-1.11.1/internal/k8s/configuration.go:619-626 | a run of three events, for every TransportServer that moves from passthrough to a listener: it ends up holding the listener without being deployed |
| ResourceObjects.ClaimSlot | nginx/kic-1.11.1/internal/k8s/configuration.go:1254-1283 | one visit of one claim, on resources shared between the table and the holders: new holder and warnings are those of one more claim |
| HostBuilder.AddResource | nginx/kic-1.11.1/internal/k8s/configuration.go:1254-1333 | adds one resource to the table and visits its hosts: the loop state describes one more object |
| HostBuilder.UpdateActiveHosts | nginx/kic-1.11.1/internal/k8s/configuration.go:933-945 | marks, in place, each host of each Ingress as its own or as taken |
| ConfigurationModel.Configuration.BuildMinionConfigs | nginx/kic-1.11.1/internal/k8s/configuration.go:1339-1384 | the minions of a master with their valid paths, and for each minion one warning for each path it lost |
| ConfigurationModel.Configuration.BuildVirtualServerRoutes | nginx/kic-1.11.1/internal/k8s/configuration.go:1386-1420 | the routes that exist and fit are attached in order; each of the others gets its warning |
| ConfigurationModel.Configuration.BuildHostsAndResources | nginx/kic-1.11.1/internal/k8s/configuration.go:1238-1337 | all loops together: holders, table and warnings are those of the claims of all stored objects |
| ProblemRecorder.RecordProblems | nginx/kic-1.11.1/internal/k8s/configuration.go:993-1103 | the three loops record exactly the problems of the specification |
| ChangeLists.DetectChanges | nginx/kic-1.11.1/internal/k8s/configuration.go:1506-1533 | the slots that are no longer held, those whose old and new holders disagree in a field, and those newly held, each in sorted order |
| ChangeLists.CreateChanges | nginx/kic-1.11.1/internal/k8s/configuration.go:1109-1150 | deletes for slots removed or reassigned, then updates for slots updated or added |
| ChangeLists.GroupByResource | nginx/kic-1.11.1/internal/k8s/configuration.go:1199-1209 | the last change of each group is the last change made to the resource |
| ChangeLists.Squash | nginx/kic-1.11.1/internal/k8s/configuration.go:1196-1236 | the squashed list of the specification, on which SquashKeepsEffect rests |
| ChangeLists.Refresh | nginx/kic-1.11.1/internal/k8s/configuration.go:912-917 | each change of a resource that still exists refers to its newest version |
| ChangeLists.AttachError | nginx/kic-1.11.1/internal/k8s/configuration.go:412-437 | the error of a rejected object goes to the first change of its resource, if there is one |
| ChangeLists.ErrorIsOnFirstChange | nginx/kic-1.11.1/internal/k8s/configuration.go:412-437 | it is on the first change of the resource and on no other, and nothing else changes |
| ConfigurationModel.RejectionIsTold | nginx/kic-1.11.1/internal/k8s/configuration.go:412-437 | the rejection of an object is told once: with the first change of its resource, or, if there is no such change, as a problem of the object |
| ProblemRecorder.NewOrUpdatedLeadsToAll | nginx/kic-1.11.1/internal/k8s/configuration.go:947-965 | the problems returned are not among those recorded before, and lead from them, without those that are gone, to all that are recorded now |
| ChangeLists.ErrorsAreNotDeployed | nginx/kic-1.11.1/internal/k8s/configuration.go:412-437 | attaching an error does not change what is deployed |
| ConfigurationModel.Configuration.RebuildHosts | nginx/kic-1.11.1/internal/k8s/configuration.go:896-931 | new holders, changes and problems of a rebuild; the changes carry the warnings of the newest resources |
| ConfigurationModel.Configuration.PlanListeners | nginx/kic-1.11.1/internal/k8s/configuration.go:682-712 | new holders, changes and problems of a listener rebuild, and which changes refer to the newest versions |
| ConfigurationModel.Configuration.RebuildListeners | nginx/kic-1.11.1/internal/k8s/configuration.go:682-712 | the rebuild itself |
| ListenerBuilder.BuildListeners | nginx/kic-1.11.1/internal/k8s/configuration.go:714-763 | the loop over the TransportServers, in any order, yields the holders of that order |
| ListenerBuilder.ListenerChanges | nginx/kic-1.11.1/internal/k8s/configuration.go:1152-1194 | the changes between the old and the new holders of the listeners, squashed, and which of them refer to the newest versions |
| ListenerBuilder.NewestIff | nginx/kic-1.11.1/internal/k8s/configuration.go:692-701 | every update refers to the newest version; the whole list does if and only if no TransportServer that still competes lost a listener without gaining or changing one |
| ListenerBuilder.OnlyLosesIff | nginx/kic-1.11.1/internal/k8s/configuration.go:692-701 | which is to say: none that held a listener before holds one now |
| LostWarning.LoserIsNotTold | nginx/kic-1.11.1/internal/k8s/configuration.go:692-694 | for every TransportServer that loses its listener to an older one: its newest version carries the warning, and the change that removes it refers to the old version, which does not |
| ListenerBuilder.KeyWithKindNotStored | nginx/kic-1.11.1/internal/k8s/configuration.go:692-701 | a key with kind is never a key of the table of TransportServers |
| ListenerBuilder.RefreshByKeyWithKind | nginx/kic-1.11.1/internal/k8s/configuration.go:692-701 | so the loop that should point listener changes at newer versions never changes anything |
| ListenerBuilder.RecordListenerProblems | nginx/kic-1.11.1/internal/k8s/configuration.go:967-991 | records exactly the problems of the TransportServers without a listener |
| ConfigurationModel.Configuration.AddOrUpdateIngress | nginx/kic-1.11.1/internal/k8s/configuration.go:392-440 | stores the Ingress, or removes an invalid one or one of another class, and returns the changes and problems of the rebuild with the rejection attached |
| ConfigurationModel.Configuration.DeleteIngress | nginx/kic-1.11.1/internal/k8s/configuration.go:443-455 | deleting an Ingress that is not stored changes nothing |
| ConfigurationModel.Configuration.AddOrUpdateVirtualServer | nginx/kic-1.11.1/internal/k8s/configuration.go:458-506 | stores the VirtualServer, or removes an invalid one or one of another class, and returns the changes and problems of the rebuild with the rejection attached |
| ConfigurationModel.Configuration.DeleteVirtualServer | nginx/kic-1.11.1/internal/k8s/configuration.go:509-521 | the same for VirtualServers |
| ConfigurationModel.Configuration.AddOrUpdateVirtualServerRoute | nginx/kic-1.11.1/internal/k8s/configuration.go:524-555 | the same for VirtualServerRoutes, whose rejection is a problem of their own |
| ConfigurationModel.Configuration.DeleteVirtualServerRoute | nginx/kic-1.11.1/internal/k8s/configuration.go:558-570 | the same for VirtualServerRoutes |
| ConfigurationModel.Configuration.AddOrUpdateTransportServer | nginx/kic-1.11.1/internal/k8s/configuration.go:601-656 | rebuilds listeners and, with TLS passthrough, hosts; the two lists are joined without squashing |
| ConfigurationModel.Configuration.DeleteTransportServer | nginx/kic-1.11.1/internal/k8s/configuration.go:659-680 | the same for a deletion |
| ConfigurationModel.Configuration.SetGlobalConfiguration | nginx/kic-1.11.1/internal/k8s/configuration.go:573-598 | stores the listeners, or none if they are invalid, and rebuilds the holders |
| ControllerModel.SquashedOncePerResource | nginx/kic-1.11.1/internal/k8s/configuration.go:1196-1236 | a squashed list mentions each resource once |
| ControllerModel.UpdatesThenDeletes | nginx/kic-1.11.1/internal/k8s/controller.go:1046-1072 | for such a list, all updates followed by all deletes have the effect of the list in its own order |
| ControllerModel.Controller.ProcessChanges | nginx/kic-1.11.1/internal/k8s/controller.go:957-1042 | processes a list of changes one by one |
| ControllerModel.Controller.UpdateTransportServers | nginx/kic-1.11.1/internal/configs/configurator.go:1077-1097 | writes all updated TransportServers, then deletes the others |
| ControllerModel.Controller.ProcessChangesFromGlobalConfiguration | nginx/kic-1.11.1/internal/k8s/controller.go:1046-1072 | splits the list in two and has the effect of the list |
| ControllerModel.Controller.SyncIngress | nginx/kic-1.11.1/internal/k8s/controller.go:1558-1581 | store, rebuild and process: exactly one step of the state machine whose runs DeploymentFollowsHolders is about |
| ControllerModel.Controller.ForgetIngress | nginx/kic-1.11.1/internal/k8s/controller.go:1558-1581 | the same for a deletion |
| ControllerModel.Controller.SyncVirtualServer | nginx/kic-1.11.1/internal/k8s/controller.go:891-915 | store, rebuild and process are exactly one step of the state machine of DeploymentFollowsHolders and DeployedIffDeserves, for VirtualServers |
| ControllerModel.Controller.ForgetVirtualServer | nginx/kic-1.11.1/internal/k8s/controller.go:891-915 | the same for VirtualServers |
| ControllerModel.Controller.SyncVirtualServerRoute | nginx/kic-1.11.1/internal/k8s/controller.go:1532-1556 | the same for VirtualServerRoutes |
| ControllerModel.Controller.ForgetVirtualServerRoute | nginx/kic-1.11.1/internal/k8s/controller.go:1532-1556 | the same for VirtualServerRoutes |
| ControllerModel.Controller.SyncTransportServer | nginx/kic-1.11.1/internal/k8s/controller.go:818-840 | the same for TransportServers |
| ControllerModel.Controller.ForgetTransportServer | nginx/kic-1.11.1/internal/k8s/controller.go:818-840 | the same for TransportServers |
| ControllerModel.Controller.SyncGlobalConfiguration | nginx/kic-1.11.1/internal/k8s/controller.go:842-889 | the same for the GlobalConfiguration |
| RouteNames.VariableNamesDiffer | nginx/kic-1.11.1/internal/configs/virtualserver.go:142-167 | within one VirtualServer two variables have the same name only if they are the same variable |
| RouteNames.SharedVariableNamesIff | nginx/kic-1.11.1/internal/configs/virtualserver.go:142-167 | a variable of one VirtualServer is named like one of another exactly when the safe names are equal and it is the same variable |
| RouteNames.VirtualServersShareNamesIff | nginx/kic-1.11.1/internal/configs/virtualserver.go:146-151 | two VirtualServers share a variable name, and then all of them, exactly when namespace and name, joined by an underscore, are equal up to dashes and underscores |
| RouteNames.SharedNamesExample | nginx/kic-1.11.1/internal/configs/virtualserver.go:146-151 | for example `a-b/c` and `a/b-c` |
| RouteNames.LookedUpIff | nginx/kic-1.11.1/internal/configs/virtualserver.go:146-167 | where a variable is used it is looked up under its own name if the safe name consists of letters, digits and underscores, and else under a name that no variable of the VirtualServer has |
| RouteNames.DotsMatter | nginx/kic-1.11.1/internal/configs/virtualserver.go:146-151 | for the names of Kubernetes objects: exactly when neither namespace nor name contains a dot |
| RouteNames.DottedNamesExample | nginx/kic-1.11.1/internal/configs/virtualserver.go:146-151 | for example the variables of `a/b.c` are looked up under a name that is not defined, and those of `a/b-matches-0.c` under the name of a variable of `a/b` |
| RouteNames.NamesOfCafe | nginx/kic-1.11.1/internal/configs/virtualserver.go:142-167 | the variables of `default/cafe` as they are written |
| RouteNames.PathNamesDiffer | nginx/kic-1.11.1/internal/configs/virtualserver.go:1666-1906 | two internal locations have the same path only if they are the same location |
| RouteNames.NamedNamesDiffer | nginx/kic-1.11.1/internal/configs/virtualserver.go:2131-2133 | no return location or error page location is named like another one |
| RouteNames.NamesOfDifferentSorts | nginx/kic-1.11.1/internal/configs/virtualserver.go:142-167 | variables, internal paths and named locations cannot be taken for one another |
| RouteSemantics.WrittenIsText | nginx/kic-1.11.1/internal/configs/virtualserver.go:1919-1941 | whatever the value of a condition, the map tries to fit it as a text and never reads it as a special word |
| RouteCorrectness.SourceIsLookedAt | nginx/kic-1.11.1/internal/configs/virtualserver.go:1919-1924 | the compiler takes the value of a condition from the header with its dashes as underscores, the cookie, the argument or the variable that the condition is about |
| RouteCorrectness.ConditionChain | nginx/kic-1.11.1/internal/configs/virtualserver.go:1754-1782 | the chained maps of one match yield 1 exactly when each condition holds: the value of its header, cookie, argument or variable fits the text, or, if the text begins with `!`, does not fit the rest |
| RouteCorrectness.PrefixMatches | nginx/kic-1.11.1/internal/configs/virtualserver.go:1786-1802 | `~^0…01` matches exactly when the match with that number holds and none before it does |
| RouteCorrectness.MainChoice | nginx/kic-1.11.1/internal/configs/virtualserver.go:1784-1821 | so the first regular expression of the main map that matches belongs to the first match that holds |
| RouteSemantics.FirstMatchIsFirst | nginx/kic-1.11.1/internal/configs/virtualserver.go:1784-1821 | the match chosen holds, and none before it does |
| RouteCorrectness.SplitsAnswered | nginx/kic-1.11.1/internal/configs/virtualserver.go:1666-1717 | a split client yields the internal path of the split into which the request falls, and the location with that path gives the response of that split's action |
| RouteCorrectness.SplitCountersAgree | nginx/kic-1.11.1/internal/configs/virtualserver.go:1783-1864 | the counter of split clients used for the locations agrees with the one used for the main map |
| RouteCorrectness.MatchesRouteAnswered | nginx/kic-1.11.1/internal/configs/virtualserver.go:1754-1917 | the main variable of a route with matches yields the internal path of what its first match that holds asks for, else of its default, and the location with that path gives the response |
| RouteSelection.InternalPathSelectedIff | nginx/kic-1.11.1/internal/configs/version2/nginx-plus.virtualserver.tmpl:198-201 | a request that is rewritten to an internal path goes on in the internal location with that path, if and only if NGINX accepts the paths, no route is for that path alone (`=`) and no route is a regular expression that matches it |
| RouteSelection.NeverArrives | nginx/kic-1.11.1/internal/configs/version2/nginx-plus.virtualserver.tmpl:198-201 | otherwise the request never gets there, however often it is rewritten |
| RouteEntrances.OneTakes | nginx/kic-1.11.1/internal/configs/virtualserver.go:363-558 | of the routes with one path, exactly one has the first block |
| RouteTheorems.EveryRouteServedIff | nginx/kic-1.11.1/internal/configs/virtualserver.go:264-600 | in the configuration of a whole VirtualServer with its VirtualServerRoutes: a request for a route whose matches have conditions ends in the location that the route asks for, and is answered as it asks, if and only if NGINX accepts the paths and no route takes away the internal path to which the request is rewritten. The answer includes the upstream, named after the VirtualServer and the VirtualServerRoute, and the error pages in force with their codes, URLs and texts: those of the route, or for a subroute without any those of the last route that refers to its VirtualServerRoute and has some |
| RouteTheorems.ValidatedRoutesServed | nginx/kic-1.11.1/internal/configs/virtualserver.go:264-600 | so in a validated VirtualServer with such paths, of which none takes an internal path away, every route is answered as it asks |
| RoutePaths.AllInternals | nginx/kic-1.11.1/internal/configs/virtualserver.go:1666-1917 | the internal locations are exactly those that can be read off the routes: one for each match, default and split |
| RoutePaths.BlocksWith | nginx/kic-1.11.1/internal/configs/virtualserver.go:363-558 | each route and each internal path has one block, counting redirects and locations, and there are no others |
| RoutePaths.AcceptedIff | nginx/kic-1.11.1/internal/configs/virtualserver.go:363-558 | no two blocks have one path that is not a regular expression, exactly when the routes have different paths, regular expressions aside, and none has the path of an internal location that the routes give rise to |
| RouteClashes.InternalPathUsedClashes | nginx/kic-1.11.1/internal/configs/virtualserver.go:1784-1821 | a validated VirtualServer one of whose routes has the path of an internal location is refused |
| RouteClashes.SubroutesOverlapClashes | nginx/kic-1.11.1/internal/configs/virtualserver.go:457-558 | so is one with two VirtualServerRoutes that have a subroute with one path |
| RouteClashes.DivertedServed | nginx/kic-1.11.1/internal/configs/version2/nginx-plus.virtualserver.tmpl:198-201 | a request whose internal path is taken away is answered as the route asks that takes it |
| RouteClashes.ExactPathTakesRequest | nginx/kic-1.11.1/pkg/apis/configuration/validation/virtualserver.go:1119-1136 | a validated VirtualServer with a route for exactly the path of an internal location: every request for the other route that does not meet its condition gets coffee in place of tea |
| RouteClashes.CatchAllTakesRequests | nginx/kic-1.11.1/pkg/apis/configuration/validation/virtualserver.go:1119-1136 | a validated VirtualServer with a route for one URI that splits its traffic, beside a regular expression for everything: every request for that URI gets what the regular expression asks for |
| RouteClosed.UnconditionalNeverServed | nginx/kic-1.11.1/internal/configs/virtualserver.go:1784-1796 | a request for a route one of whose matches has no condition never ends in a location |
| RouteNaming.NamesAreUnique | nginx/kic-1.11.1/internal/configs/virtualserver.go:363-558 | no variable, internal path, return location, error page location is defined twice in one VirtualServer |
| RouteClosed.NamesAreDefinedIff | nginx/kic-1.11.1/internal/configs/virtualserver.go:363-558 | every name that is used is defined, if and only if every match has a condition |
| RouteClosed.ValidatedNamesAreDefined | nginx/kic-1.11.1/internal/configs/virtualserver.go:363-558 | so in a validated VirtualServer every name that is used is defined exactly once |
| RoutePages.ErrorPagesDefined | nginx/kic-1.11.1/internal/configs/virtualserver.go:2143-2206 | the error pages of every route are defined, those that a subroute inherits from the VirtualServer included |
| RoutePages.RememberedPages | nginx/kic-1.11.1/internal/configs/virtualserver.go:363-398 | after the routes of the VirtualServer, what is remembered for a VirtualServerRoute are the error pages of the last route that refers to it and has some |
| RoutePages.SettingIs | nginx/kic-1.11.1/internal/configs/virtualserver.go:457-472 | the upstream prefix and the error pages with which a route or subroute is compiled are those that can be read off the VirtualServer |
| RouteCorrectness.PagesAreShown | nginx/kic-1.11.1/internal/configs/virtualserver.go:2143-2206 | references to error pages lead to their URLs, or to named locations with their own texts and types, with their codes and response codes |
| RouteGenerator.GenerateErrorPageLocations | nginx/kic-1.11.1/internal/configs/virtualserver.go:2173-2206 | one named location for each error page that returns a text |
| RouteGenerator.GenerateErrorPages | nginx/kic-1.11.1/internal/configs/virtualserver.go:2143-2171 | the references to the error pages use the same names |
| RouteGenerator.GenerateLocation | nginx/kic-1.11.1/internal/configs/virtualserver.go:1459-1474 | the location of an action, with a return location for an action that returns a text |
| RouteGenerator.GenerateDistributions | nginx/kic-1.11.1/internal/configs/virtualserver.go:1684-1692 | the first loop over the splits |
| RouteGenerator.GenerateSplits | nginx/kic-1.11.1/internal/configs/virtualserver.go:1666-1717 | one split client, its distributions and its locations |
| RouteGenerator.GenerateDefaultSplitsConfig | nginx/kic-1.11.1/internal/configs/virtualserver.go:1719-1752 | the configuration of a route with splits and no matches |
| RouteGenerator.GenerateConditionMaps | nginx/kic-1.11.1/internal/configs/virtualserver.go:1760-1781 | the two loops that chain the maps of the conditions |
| RouteGenerator.GenerateParameters | nginx/kic-1.11.1/internal/configs/virtualserver.go:1943-1965 | the two parameters of a condition map; whatever the request, the map they make yields the given result exactly when the value fits the text of the condition, or does not fit the text behind its `!`, and else 0 |
| RouteGenerator.GenerateValue | nginx/kic-1.11.1/internal/configs/virtualserver.go:1926-1941 | whether the value begins with `!`, and the value without it, written so that NGINX reads it as that text |
| RouteGenerator.GenerateMainMap | nginx/kic-1.11.1/internal/configs/virtualserver.go:1783-1829 | the main map with its first counter of split clients |
| RouteGenerator.GenerateMatchesConfig | nginx/kic-1.11.1/internal/configs/virtualserver.go:1754-1917 | all of it, with the second counter of split clients |
| RouteGenerator.GenerateVirtualServerRoutes | nginx/kic-1.11.1/internal/configs/virtualserver.go:363-455 | the loop over the routes of the VirtualServer, which remembers the error pages that VirtualServerRoutes inherit |
| RouteGenerator.GenerateSubroutes | nginx/kic-1.11.1/internal/configs/virtualserver.go:457-558 | the loop over the subroutes of one VirtualServerRoute, with the error pages that they inherit (SettingIs) |
| RouteGenerator.GenerateVirtualServerConfig | nginx/kic-1.11.1/internal/configs/virtualserver.go:264-600 | the configuration that EveryRouteServedIff, NamesAreUnique and NamesAreDefinedIff are about |
| PlusUpstreams.FastPathRefinesGeneratorIff | nginx/kic-1.11.1/internal/configs/virtualserver.go:2052-2106 | the fast path sends exactly the generated upstreams of services that are not of type ExternalName, same order, names, servers and parameters, if and only if no entry of the ExternalName table is false |
| PlusUpstreams.FastPathRefinesGenerator | nginx/kic-1.11.1/internal/configs/virtualserver.go:2052-2106 | so it always does, as the controller only enters services of that type |
| PlusUpstreams.GenerateUpstreams | nginx/kic-1.11.1/internal/configs/virtualserver.go:296-345 | the loops of the generator, with its 502 server and its resolver rule |
| PlusUpstreams.GeneratedAsAsked | nginx/kic-1.11.1/internal/configs/virtualserver.go:240-345 | upstream by upstream: its servers are the endpoints of its service, except that without NGINX Plus one without endpoints has exactly the 502 server, and that one of an ExternalName service has none without a resolver |
| PlusUpstreams.CreateUpstreamsForPlus | nginx/kic-1.11.1/internal/configs/virtualserver.go:2052-2106 | the loops of the fast path |
| AppProtect.ReqMetIff | nginx/kic-1.11.1/internal/k8s/appprotect/app_protect_configuration.go:302-319 | a requirement as an interval: with no time to compare the tag decides; otherwise there must be a bound, and the time lies strictly within the bounds |
| AppProtect.OneValidPerTag | nginx/kic-1.11.1/internal/k8s/appprotect/app_protect_configuration.go:468-489 | each non-empty tag in use has exactly one valid signature, the one created first, of equally old ones that with the greatest UID |
| AppProtect.SignatureValidIff | nginx/kic-1.11.1/internal/k8s/appprotect/app_protect_configuration.go:468-489 | a signature is valid exactly when it could be parsed and has no tag, or is older, or as old with a greater UID, than every other one with its tag |
| AppProtect.PolicyValidIff | nginx/kic-1.11.1/internal/k8s/appprotect/app_protect_configuration.go:302-338 | a policy is valid exactly when it could be parsed and each requirement is met by a signature that could be parsed, has the tag, is older, or as old with a greater UID, than every other one with the tag, and was revised within the bounds |
| AppProtect.StoredIsLatest | nginx/kic-1.11.1/internal/k8s/appprotect/app_protect_configuration.go:340-443 | after any events, the newest signature and the newest policy of each name are stored, unless removed |
| AppProtect.MirrorKeepsPolicies | nginx/kic-1.11.1/internal/k8s/appprotect/app_protect_configuration.go:340-443 | whoever applies the outcomes has exactly the valid policies after every event |
| AppProtect.MirrorKeepsSigsIff | nginx/kic-1.11.1/internal/k8s/appprotect/app_protect_configuration.go:372-443 | and exactly the valid signatures, except after the removal of a signature that is not stored while others are valid |
| AppProtect.ForgottenExample | nginx/kic-1.11.1/internal/k8s/appprotect/app_protect_configuration.go:436-443 | such a removal returns an empty list of signatures |
| AppProtect.MirrorFollowsRun | nginx/kic-1.11.1/internal/k8s/appprotect/app_protect_configuration.go:340-443 | over every run: the policies always agree, and the signatures agree at every moment if and only if there is no such removal |
| AppProtectConfiguration.DetectDuplicateTags | nginx/kic-1.11.1/internal/k8s/appprotect/app_protect_configuration.go:445-466 | groups the signatures by tag, in any order of the map |
| AppProtectConfiguration.SortUserSigs | nginx/kic-1.11.1/internal/k8s/appprotect/app_protect_configuration.go:186-201 | sorts a group, best signature first, and keeps its members |
| AppProtectConfiguration.SettleGroup | nginx/kic-1.11.1/internal/k8s/appprotect/app_protect_configuration.go:468-489 | makes the first of a group valid and the others invalid, and returns those that became invalid |
| AppProtectConfiguration.ReconcileUserSigs | nginx/kic-1.11.1/internal/k8s/appprotect/app_protect_configuration.go:468-489 | afterwards every signature is marked valid exactly if it is in the specification |
| AppProtectConfiguration.IsReqSatisfiedByUserSigs | nginx/kic-1.11.1/internal/k8s/appprotect/app_protect_configuration.go:321-328 | a requirement is met exactly if a valid signature meets it |
| AppProtectConfiguration.VerifyPolicyAgainstUserSigs | nginx/kic-1.11.1/internal/k8s/appprotect/app_protect_configuration.go:330-338 | a policy is satisfied exactly if all its requirements are met |
| AppProtectConfiguration.VerifyPolicies | nginx/kic-1.11.1/internal/k8s/appprotect/app_protect_configuration.go:491-511 | afterwards every policy is marked valid exactly if a recomputation from scratch says so, and the changes are those whose mark changed |
| AppProtectConfiguration.ConfigurationImpl.BuildUserSigChange | nginx/kic-1.11.1/internal/k8s/appprotect/app_protect_configuration.go:523-543 | the exact difference, and the valid signatures |
| AppProtectConfiguration.ConfigurationImpl.AddOrUpdateUserSig | nginx/kic-1.11.1/internal/k8s/appprotect/app_protect_configuration.go:372-383 | one step of the state machine of MirrorFollowsRun |
| AppProtectConfiguration.ConfigurationImpl.DeleteUserSig | nginx/kic-1.11.1/internal/k8s/appprotect/app_protect_configuration.go:436-443 | one step; for a signature that is not stored the returned list is empty |
| AppProtectConfiguration.ConfigurationImpl.AddOrUpdatePolicy | nginx/kic-1.11.1/internal/k8s/appprotect/app_protect_configuration.go:340-357 | one step |
| AppProtectConfiguration.ConfigurationImpl.DeletePolicy | nginx/kic-1.11.1/internal/k8s/appprotect/app_protect_configuration.go:416-424 | one step |
| Latency.RoundTripIff | nginx/kic-1.11.1/internal/metrics/collectors/latency.go:178-211 | joining and splitting label values undo each other exactly when none contains a `+` |
| Latency.StepKeepsInv | nginx/kic-1.11.1/internal/metrics/collectors/latency.go:139-211 | every atomic section of every goroutine keeps each live series accounted for: published, held by a recorder in flight, or pending deletion |
| Latency.NoSeriesLost | nginx/kic-1.11.1/internal/metrics/collectors/latency.go:139-211 | so no series is lost under any interleaving of records, deletions and label updates, if label values contain no `+` |
| Latency.QuietMeansPublished | nginx/kic-1.11.1/internal/metrics/collectors/latency.go:139-211 | when nobody is recording or deleting, every live series is published under its peer |
| Latency.LabelsAreLatest | nginx/kic-1.11.1/internal/metrics/collectors/latency.go:103-137 | under every interleaving an upstream and a peer have the labels that were last set for them, unless dropped since |
| Latency.DeletedIffPlain | nginx/kic-1.11.1/internal/metrics/collectors/latency.go:193-211 | a series that is recorded and then deleted is gone exactly when no label value contains a `+`; otherwise nobody knows of it any more |
| LatePublication.PublishedPeersAreWatchedIff | nginx/kic-1.11.1/internal/metrics/collectors/latency.go:139-211 | under every interleaving: at every moment each peer with published series has labels or is about to have its series deleted, if and only if no record publishes a series of a peer whose labels are gone and whose series have been listed already |
| LatePublication.OvertakenRecordStays | nginx/kic-1.11.1/internal/metrics/collectors/latency.go:178-211 | such a run: a record reads the labels of its peer, the peer is deleted, the record publishes; the series stays and nobody is about to delete it |
| MetricLabels.LatencyMetricsCollector.RecordLatency | nginx/kic-1.11.1/internal/metrics/collectors/latency.go:178-191 | a call that nothing interrupts is the sequence of steps of one recorder |
| MetricLabels.LatencyMetricsCollector.ListAndDeleteMetricsPublished | nginx/kic-1.11.1/internal/metrics/collectors/latency.go:203-211 | returns and forgets the published series of one peer |
| MetricLabels.LatencyMetricsCollector.DeleteMetrics | nginx/kic-1.11.1/internal/metrics/collectors/latency.go:139-148 | deletes exactly the series of the given peers |
| MetricLabels.UpdateKeepsNamesIff | nginx/kic-1.11.1/internal/configs/configurator.go:168-226 | after an update the collector knows exactly the names of live resources, if and only if no name that the resource gave up is used by another one |
| MetricLabels.UpdateAgreesIff | nginx/kic-1.11.1/internal/configs/configurator.go:168-226 | after an update the collector agrees with the live resources, names and label values, if and only if no name that the resource gave up is used by another one and every name that it shares with another one has the same labels there |
| MetricLabels.DeleteAgreesIff | nginx/kic-1.11.1/internal/configs/configurator.go:228-242 | after a deletion, if and only if no name of the resource is used by another one |
| LabelRuns.LabelsFollowResources | nginx/kic-1.11.1/internal/configs/configurator.go:168-242 | over every run of updates and deletions: the collector holds exactly the labels of the live resources at every moment, if and only if every event meets these conditions |
| LabelRuns.SharedNameLosesLabels | nginx/kic-1.11.1/internal/configs/ingress.go:476-477 | the Ingress `a/b` with host `c-d.com` and the Ingress `a/b-c` with host `d.com` give one name to their upstreams: adding the second relabels the upstream of the first, deleting it leaves that upstream without labels |
| MetricLabels.FindRemovedKeys | nginx/kic-1.11.1/internal/configs/configurator.go:158-166 | the names a resource used and no longer uses |
| MetricLabels.CollectLabels | nginx/kic-1.11.1/internal/configs/configurator.go:337-372 | the labels of the upstreams and of their servers (ServersAreLabelled says under which names) |
| MetricLabels.ServersAreLabelled | nginx/kic-1.11.1/internal/configs/configurator.go:337-372 | after an update every server of the resource has labels under the name that the collector looks up for a record of it, whatever its code: its pod labels, if other servers with that name have the same |
| MetricLabels.UpstreamsAreLabelled | nginx/kic-1.11.1/internal/configs/configurator.go:337-372 | and every upstream has its labels, if others with its name have the same |
| MetricLabels.LatencyIsPublished | nginx/kic-1.11.1/internal/metrics/collectors/latency.go:178-191 | so a latency recorded for such a server is published with the labels of the upstream and of the pod, if there are as many as the collector is made for |
| MetricLabels.Configurator.UpdateMetricsLabels | nginx/kic-1.11.1/internal/configs/configurator.go:337-398 | the new labels of the collector in every case, every server and upstream of the resource labelled under the names that the collector looks up; if the labels agreed with the live resources, they still do exactly under the condition of UpdateAgreesIff; the index follows, and exactly the series of the servers that are gone are deleted |
| MetricLabels.Configurator.DeleteMetricsLabels | nginx/kic-1.11.1/internal/configs/configurator.go:400-414 | the same for a deletion |
| TerraformRoundTrip.SelectFlat | kubespray/release-2.15/contrib/terraform/terraform.py:41-60 | under a top-level key the flattened dictionary has exactly the entries of that attribute, in order |
| TerraformRoundTrip.ListRoundTrip | kubespray/release-2.15/contrib/terraform/terraform.py:154-181 | a list of texts, flattened among any other attributes and parsed, comes back in order, whatever random numbers were drawn |
| TerraformRoundTrip.AttrListRoundTripIff | kubespray/release-2.15/contrib/terraform/terraform.py:154-173 | a list of dictionaries of plain values comes back in order exactly when none of them is empty |
| TerraformRoundTrip.EmptyDictionaryIsLost | kubespray/release-2.15/contrib/terraform/terraform.py:154-173 | a list of three networks, the second without attributes, comes back as a list of two |
| TerraformDictionaries.DictRoundTripIff | kubespray/release-2.15/contrib/terraform/terraform.py:176-177 | a dictionary comes back after an entry for its size, in order, exactly when it has no key `#` or `%` |
| TerraformMethods.UpdateAssociative | kubespray/release-2.15/contrib/terraform/terraform.py:56-56 | updating by an updated dictionary is updating twice, order of the keys included |
| TerraformMethods.ConvertToV3Structure | kubespray/release-2.15/contrib/terraform/terraform.py:41-60 | the recursion that fills one result |
| TerraformMethods.ParsePrefixed | kubespray/release-2.15/contrib/terraform/terraform.py:154-164 | the generator as a loop |
| TerraformMethods.GroupEntries | kubespray/release-2.15/contrib/terraform/terraform.py:167-173 | the default dictionary filled in a loop; an entry without an index is the error of the original |
| ParseTime.CanonicalIsCanonical | nginx/kic-1.11.1/internal/configs/parsing_helpers.go:183-206 | on every accepted text: the result has no spaces, reads back as the same eight components with the unit of the seconds written out, and is its own canonical form |
| ParseTime.AcceptedIff | nginx/kic-1.11.1/internal/configs/parsing_helpers.go:183-206 | a text is accepted exactly when it is not blank and consists of amounts of years, months, weeks, days, hours, minutes, seconds and milliseconds in this order, each of which may be missing, with spaces between them; seconds may lack their unit |
| SecretStore.StepKeepsConsistentIff | nginx/kic-1.11.1/internal/k8s/secrets/store.go:48-102 | a file exists for a key exactly when its reference has a path, and then the secret is valid and the file holds its latest version; every operation keeps this except exactly the update that turns a secret with a file into an OpenID Connect secret |
| SecretStore.FilesFollowReferences | nginx/kic-1.11.1/internal/k8s/secrets/store.go:48-102 | over a run this holds at every moment exactly when no such update occurs |
| SecretStore.NoOidcNoFileLeft | nginx/kic-1.11.1/internal/k8s/secrets/store.go:48-102 | which is so if there are no OpenID Connect secrets |
| SecretStore.RecreatedLeavesFile | nginx/kic-1.11.1/internal/k8s/secrets/store.go:48-102 | a run in which a TLS secret with a file is deleted and created again as an OpenID Connect secret before the store looks: the old file stays, even when the new secret is deleted |
| SecretStore.StoredIsLatest | nginx/kic-1.11.1/internal/k8s/secrets/store.go:48-102 | after any events a reference has the newest version of its secret and the verdict on it |
| SecretStore.FilesAreInUse | nginx/kic-1.11.1/internal/k8s/secrets/store.go:48-102 | without OpenID Connect secrets, at every moment exactly the secrets that were asked for while valid, and since then neither removed nor replaced by an invalid version, have a file, with their newest version |
| SecretStore.LocalSecretStore.AddOrUpdateSecret | nginx/kic-1.11.1/internal/k8s/secrets/store.go:48-68 | one step of the state machine on the shared references |
| SecretStore.LocalSecretStore.DeleteSecret | nginx/kic-1.11.1/internal/k8s/secrets/store.go:71-84 | one step |
| SecretStore.LocalSecretStore.GetSecret | nginx/kic-1.11.1/internal/k8s/secrets/store.go:89-102 | one step; returns the stored reference |

## Left out

- Informers, work queue, leader election, statuses, events and reports: they carry changes and problems but do not decide them.
- Locks of the Configuration: its operations are modelled one at a time, as its lock makes them; the two mutexes of the latency
  collector are modelled.
- The order in which problems are returned, where Go sorts or ranges over a map to produce it: problems are maps from resource
  to problem. The order of changes is modelled exactly.
- Message texts and log output: the model keeps who is warned about what.
- Warnings of minions (`childWarnings`) are computed by BuildMinionConfigs and not stored in the resource.
- Certificates, URLs, CIDRs and regular expressions of the validators: their verdicts are inputs.
- Policies, snippets, timeouts, headers, rewrites, health checks and TLS of locations: a location is its path, its upstream or
  response, and its error pages. Which URIs NGINX gives to the block of a route at first is not interpreted; which block it
  selects after a rewrite is.
- Names of upstreams of VirtualServers: they are built as in the original, and their uniqueness is not claimed.
- The fields of an upstream that the generator and the fast path compute in the same way from the same specification are one
  uninterpreted value (`render`).
- The Ingress and the VirtualServer index of metric labels are one index by kind and name; the third one, for TransportServers,
  and the labels of server zones and of the NGINX Plus collector are handled in the same way and left out.
- In-place edits of secret references by the Configurator, and names of secret files made of `ns-name`: files are kept by key.
- Log configurations of App Protect: they are stored and returned without conditions.
- The expression that accepts times is modelled as the lazy, left-to-right parser that it describes, not as a general regular
  expression engine.
- The rest of the Terraform inventory script: reading state files and building hosts from the parsed attributes.
- Lookups that only read what is stored (`GetResources`, `FindResourcesFor…`, `GetAppResource`).
