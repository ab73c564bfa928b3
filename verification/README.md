# A verified model of the Kea DHCP operator

The operator turns custom resources (a DHCPv4 server, an umbrella over several servers, a Stork
server) into Kubernetes objects and Kea configurations. This project models the parts of it in
which several pieces of code must fit together, and proves that they do:

* **High availability.** The controller fills in peer URLs, writes one ConfigMap and one Service
  per ordinal, and generates a shell script that rewrites the configuration inside each pod.
  `Dhcp4Server` derives all objects from the spec, `HaConfigs` follows them to the text a started
  pod runs with, `HaListener` and `DatabaseLogin` to what it says about the listener and to the
  users and passwords in it. The script is a list of literal substitutions: `Rewriting` is the theory of such
  lists, `HostNames`, `Secrets` and `HaWiring` apply it to generated host names, secret
  placeholders and URLs, `Serializer` to the text of a whole configuration.
* **The reconcile engine.** `ApiServer` is a store of objects with a create-or-update call that
  can fail at every step, `Runs` is any number of controller runs over it, `Outcomes` says exactly
  what one run comes to, `Controller` is the DHCPv4 controller, `Convergence` and
  `WorkloadStability` are what its reconciles add up to. `Deployed` and `DeployedPods` say in terms of
  the spec what a converged cluster holds: which objects, where the Services listen, what the pods
  mount, carry and take as addresses, and how far the status agrees. `Children` and `UmbrellaStatus`
  are the umbrella, `StorkCredentials` and `StorkConvergence` the Stork controller, `StorkAgent` is
  the Stork sidecar and `StorkDiscovery` how it finds its server. `Conditions` and `Status` follow
  the reported status over a whole life.
* **The renderer.** `Render` has the tree of every record, its decoder and its normal form;
  `Renderer` has the code that fills the maps. `Ambiguity` says which resources share a tree,
  `ChangeDetection` is the configuration hash.
* **Names, templates and addresses.** `Names`, `Builders`, `Templates`, `PodTemplate`, `Nad`,
  `DeploymentExpansion`.

Code that changes things step by step (loops, field updates, writes to the store) is written as
methods and classes and proved equal to a function; the laws are proved of that function.

## What is assumed of the surroundings

* URL parsing, CIDR parsing, JSON serialisation, the hash, DNS and the random source are
  parameters. What a lemma needs of them is a hypothesis of the lemma: a generated `http` URL
  parses to its host, the serialiser writes the string leaves of a tree, escaped and quoted, between
  pieces that depend on the rest of the tree only, the texts that were actually hashed do not
  collide.
* The API server admits, defaults and stores objects. Defaulting is any idempotent function that
  keeps what Kubernetes keeps (`ApiServer.OnlyDefaults`); where a proof looks into a ConfigMap,
  a pod template or the ports of a Service, it also keeps those (`KeepsData`, `KeepsPods`,
  `KeepsPorts`). A read can fail; a write can be
  applied, rejected, or applied although the client is told otherwise. Reads see current data,
  except where `StorkCredentials.Lookup` says otherwise and for the lookups of the Stork server,
  which may return anything.
* Around a started pod, cluster DNS answers for the Services of the namespace with the ClusterIPs in
  the store, and the kubelet gives each variable the value of its Secret key
  (`HaWiring.ServesDNS`, `DatabaseLogin.VariablesSet`).
* A status write that hits another version of the object is rejected by the server, so it
  counts as not written.
* The order in which Go visits a map is any order, a new one in every reconcile.

## Where the code differs from what one might expect

* The workload of a DHCPv4 resource is not a function of the resource. Its init script lists the
  peers, and its start command the static addresses, in the order of a Go map, and the Stork sidecar
  depends on lookups whose errors are swallowed. The desired workload is the same in every
  reconcile exactly if there is one order and the lookups agree
  (`WorkloadStability.SameWorkloadExactly`). With two peers a failure-free reconcile can replace a
  conforming StatefulSet (`WorkloadStability.TwoPeersOverwrite`), with a failing lookup any
  conforming workload (`WorkloadStability.FailingLookupOverwrites`). Everything else converges for
  good, the stored workload is always that of some reconcile
  (`WorkloadStability.ServerConverges`), and all its forms have the same effect
  (`WorkloadStability.SameEffect`, `WorkloadStability.SameAddresses`).
* Rewriting host names in two different orders agrees on all texts exactly if the StatefulSet
  name does not begin with a suffix of `local` (`HostNames.OrderIrrelevantExactly`). In a URL a
  host name is always preceded by `/`, and then the order never matters.
* The variables of the DHCP servers are prefix-free. Those of the control agent
  (`KEA_AUTH_PASSWORD_<i>`) are so only up to ten clients (`Secrets.AuthPrefixFreeExactly`).
  Nothing comes of it: on the Deployment path a file is expanded exactly if its name ends in
  `.json`, and no component's configuration file does (`DeploymentExpansion.NoConfigurationExpanded`),
  so a Deployment runs with its placeholders in place.
* Sequential expansion equals simultaneous substitution exactly if no secret value completes a
  truncated placeholder (`Secrets.ExpansionExactly`); a quoted placeholder always gets its own value.
* Another resource that Kea would see differently renders to the same tree exactly for a resource
  with high availability and no injected database hook, and for one whose own hooks spell such a
  request out (`Ambiguity.AmbiguousExactly`).
* With high availability the status names a ConfigMap that no reconcile writes
  (`DeployedPods.ReportedConfigMap`).
* Errors on HA ConfigMaps are logged and swallowed: the ConfigMap of an ordinal conforms after a
  reconcile exactly if it did before or its own call went through
  (`Convergence.SwallowedConfigMapError`).
* The name of the service account does not contain the component, so two resources of one name
  block each other, with and without high availability (`Convergence.SharedServiceAccountBlocks`).
* A render error leaves `Ready` at its old value, so a resource can be in phase Error and ready
  (`Status.ErrorWithReadyExactly` says when). The branch exists in all controllers; whether a
  DHCPv4 resource can reach it is not known, since its renderer fails only where JSON serialisation
  does. An umbrella that loses all components before all of them are ready is pending and
  progressing until it has some again (`UmbrellaStatus.PendingProgressesExactly`).
* The umbrella deletes the child of an unconfigured component whoever controls it
  (`Children.ForeignDeletedExactly`).
* The comment on `computeNADAddresses` says that it matches the init script. It wraps at 256 and
  ignores static addresses, and it does not look at the interface or at the checks without which
  the script takes no address; `Nad.ReportMatchesPod` has the exact condition. All pods of a
  Deployment take one address or none (`Nad.DeploymentSharesOneAddress`).

## Model

| member | source | states |
|---|---|---|
| Rewriting.SequentialIsSimultaneous | internal/resources/statefulset.go:244-271 | a list of global replacements run one after the other is one simultaneous substitution, if no earlier rule interferes with a later one |
| Rewriting.OrderIrrelevant | internal/resources/statefulset.go:244-266 | every permutation of independent rules gives the simultaneous result |
| Rewriting.SequentialAcross | internal/resources/statefulset.go:248-270 | a character no pattern contains separates the text: both sides are rewritten on their own |
| Names.RoleNameDecodes | internal/resources/names.go:52-81 | within one kind a generated name determines resource, component, role and ordinal, for all names and ordinals |
| Names.PlainDecodes | internal/resources/names.go:52-64 | ConfigMap, Deployment and Service names determine resource and component |
| Names.CrNameDecodes | internal/resources/names.go:74-91 | service account and Secret names determine the resource; the two Secrets never share a name |
| HostNames.HostsIncompatible | internal/controller/reconciler.go:401-407 | no generated host name is a prefix of that of another ordinal |
| HostNames.BorderIsLocal | internal/controller/reconciler.go:401-407 | one host name can begin inside another only where the end of `.local` is the beginning of the StatefulSet name |
| HostNames.OwnHostTest | internal/resources/statefulset.go:246 | the grep test of the script recognises the host name of exactly its own ordinal |
| HostNames.HostOrderIrrelevant | internal/resources/statefulset.go:244-266 | for any number of peers and any visiting order a text without overlapping host names is rewritten as by simultaneous substitution |
| HostNames.OrderIrrelevantExactly | internal/resources/statefulset.go:244-266 | for any number of peers, any two visiting orders agree on all texts if and only if they are the same order or the StatefulSet name does not begin with a suffix of `local` |
| HostNames.GuardedHostsDoNotOverlap | internal/controller/reconciler.go:405-406 | host names preceded by the slash of a URL never overlap |
| Secrets.CollectCredentials | internal/controller/keadhcp4server_controller.go:102-127 | the environment variables come in a fixed order and every database gets the placeholders of its own index; what they stand for is `DatabaseLogin.RenderedLogins` |
| DatabaseLogin.RenderedLogins | internal/controller/reconciler.go:217-244 | in the rendered tree every configured database with a Secret reference logs in with a `$` and a variable of the pod that holds `username` of that Secret as user, and `password` as password; the others as written; for hosts databases at every index |
| DatabaseLogin.StartedLogins | internal/controller/keadhcp4server_controller.go:100-127 | from the Secret to the running pod: after the init script every database with a Secret reference logs in with the `username` and the `password` stored in its own Secret |
| Secrets.CollectHosts | internal/controller/keadhcp4server_controller.go:117-127 | padding keeps the placeholder slice aligned with the list of databases |
| Secrets.SlotsMatch | internal/controller/reconciler.go:217-244 | the environment variables are exactly the distinct slots of the configured databases |
| Secrets.PlaceholdersIncompatible | internal/controller/reconciler.go:217-244 | no placeholder is a prefix of another, for any number of databases |
| Secrets.ExpansionExactly | internal/resources/statefulset.go:269-271 | one-by-one expansion is simultaneous substitution on all texts if and only if no value completes a truncated placeholder |
| Secrets.SafeValuesExpand | internal/resources/statefulset.go:269-271 | a check on the values alone that is enough: non-empty, without `$`, and not beginning with a character placeholders consist of |
| Secrets.QuotedPlaceholder | internal/resources/statefulset.go:269-271 | a quoted placeholder receives exactly its own value, whatever stands around it |
| Secrets.PrefixTakesPlaceholder | internal/resources/statefulset.go:269-271 | why prefix-freeness is needed: run before it, a shorter placeholder takes a longer one that begins with it |
| Secrets.AuthPrefixFreeExactly | internal/controller/keacontrolagent_controller.go:79-86 | the names of the password variables of a control agent are prefix-free if and only if there are at most ten clients |
| DeploymentExpansion.ExpandedExactly | internal/resources/deployment.go:317-324 | the commands rewrite exactly the files whose names end in `.json`, each by all commands |
| DeploymentExpansion.ExpandedIffMatched | internal/resources/deployment.go:317-324 | a file with anything to expand is expanded if and only if its name ends in `.json` |
| DeploymentExpansion.NoConfigurationExpanded | internal/resources/configmap.go:26-41 | no component's configuration is ever expanded on the Deployment path, whatever the secrets |
| ApiServer.Cluster.ReconcileResource | internal/controller/reconciler.go:47-168 | one create-or-update is the specified step: read, refuse foreign owners, put the desired state back, keep addresses, write only on change |
| ApiServer.ConformingIsFixpoint | internal/controller/reconciler.go:79-168 | reconciling a conforming object changes nothing, however the calls fail |
| ApiServer.OneStep | internal/controller/reconciler.go:47-75 | a call touches its own object only, deletes nothing and creates no obstacle |
| ApiServer.SuccessConforms | internal/controller/reconciler.go:79-168 | a call that reports success leaves its object conforming, whatever was there before |
| ApiServer.SucceedsUnlessForeign | internal/controller/reconciler.go:50-63 | a call without failures succeeds if and only if no other controller owns the object, and otherwise changes nothing |
| ApiServer.AddressKept | internal/controller/reconciler.go:108-124 | ClusterIP and ClusterIPs of an existing Service survive every call |
| Runs.Convergence | internal/controller/keadhcp4server_controller.go:132-193 | a run aborted anywhere loses no conforming object; a run that reaches its end has established every fatal step; a failure-free run establishes everything |
| Runs.MissingNeverGrows | internal/controller/keadhcp4server_controller.go:132-193 | the number of non-conforming objects is a measure: no run increases it, a failure-free run brings it to zero |
| Runs.ConvergedIsFixpoint | internal/controller/keadhcp4server_controller.go:132-193 | for one list of desired objects: once everything conforms no run changes the store |
| Runs.EventualConvergence | internal/controller/keadhcp4server_controller.go:132-193 | for one list of desired objects: over any history conformity is never lost, and everything conforms from the first failure-free run on |
| Runs.ForeignBlocks | internal/controller/reconciler.go:50-63 | an object under foreign control stops the run before everything behind it |
| Runs.AddressStability | internal/controller/reconciler.go:108-124 | no interleaving of spec edits, runs and failures changes the addresses of a Service |
| Outcomes.StepConformsExactly | internal/controller/keadhcp4server_controller.go:129-193 | after a run that reaches a step its object conforms if and only if it did before, or its own call was readable and its write took effect, whatever else failed |
| Outcomes.EndsExactly | internal/controller/keadhcp4server_controller.go:129-193 | a failure-free run reaches its end if and only if all checks pass and no fatal object is controlled by somebody else |
| Outcomes.ServiceFollowsLastSpec | internal/controller/reconciler.go:108-124 | after any history of edits and failures whose last run is failure-free and reaches an existing Service, it conforms to the last spec if and only if neither a foreign controller nor a contradicting address stood in its way from the start; it is then the Service of the last spec at the addresses it always had |
| Outcomes.RunLeavesAlone | internal/controller/keadhcp4server_controller.go:129-193 | a run changes no object its list does not mention |
| Outcomes.VariantsConverge | internal/controller/keadhcp4server_controller.go:129-193 | over any history of lists that differ in the body of one object every other object converges for good, and that one carries one of its variants from the first failure-free run on |
| Builders.PerPodSelectsOnePod | internal/resources/service.go:143-172 | a per-pod Service selects the pod of its ordinal and no pod of any other ordinal, component or resource; where it listens is `HaConfigs.ServicesListen` |
| Controller.DesiredDistinct | internal/controller/keadhcp4server_controller.go:132-193 | the desired objects are admissible and pairwise different, for all options and replica counts |
| Controller.ReconcileHAConfigs | internal/controller/keadhcp4server_controller.go:558-598 | one ConfigMap per ordinal that renders, errors swallowed, and the hash of the joined hashes |
| Controller.ReconcileHAWorkload | internal/controller/keadhcp4server_controller.go:286-397 | headless Service, per-pod Services, host name validation and the StatefulSet, in this order, stopping at the first error |
| Controller.ReconcileTail | internal/controller/keadhcp4server_controller.go:468-512 | control Service and Stork objects, on OpenShift with the Route; errors on monitor and Route are swallowed |
| Controller.Reconcile | internal/controller/keadhcp4server_controller.go:129-187 | a reconcile is exactly the run of its desired steps, for the workload built from the hash it computed |
| Convergence.Dhcp4Converges | internal/controller/keadhcp4server_controller.go:129-187 | any history of reconciles failing anywhere, each with a workload of its own: every other object converges for good, and the stored workload is untouched or that of one of them, which it is from the first failure-free one on |
| Convergence.SameWorkloadConverges | internal/controller/keadhcp4server_controller.go:129-187 | if all reconciles want the same workload it converges like everything else |
| Convergence.ReconcileEndsExactly | internal/controller/keadhcp4server_controller.go:129-187 | a failure-free reconcile reaches its end if and only if the host names are valid or the configuration renders, and no fatal object is foreign |
| Convergence.ReconcileSucceedsExactly | internal/controller/keadhcp4server_controller.go:126-193 | whatever fails: a reconcile returns without error if and only if the checks pass and every call but those on monitor, Route and ConfigMaps of ordinals succeeds |
| Outcomes.SucceedsExactly | internal/controller/keadhcp4server_controller.go:126-193 | a run under any failures ends successfully if and only if no step stops it, each judged on the store the run starts from |
| Outcomes.EarlierEstablished | internal/controller/keadhcp4server_controller.go:126-193 | a run that changed the object of a step has established every fatal step before it |
| Convergence.SwallowedConfigMapError | internal/controller/keadhcp4server_controller.go:585-596 | for every run, and every ordinal that renders and whose ConfigMap has no foreign controller: the ConfigMap conforms afterwards if and only if it did before, or its own call was readable and its write took effect, whatever the run returns |
| Convergence.SharedServiceAccountBlocks | internal/resources/names.go:74-76 | a resource whose service account belongs to a namesake never gets past it, with and without high availability, and changes nothing but ConfigMaps |
| Convergence.PlansApart | internal/resources/names.go:52-91 | two resources that want one object have the same name and namespace |
| Convergence.ResourcesLeaveEachOtherAlone | internal/controller/keadhcp4server_controller.go:129-187 | no run of one resource, failing anywhere, touches an object another resource wants or changes whether that resource is converged |
| Dhcp4Server.FillSpec | internal/controller/keadhcp4server_controller.go:91-98 | the spec with the URLs of its peers filled in, at the port of the control socket |
| Dhcp4Server.RenderConfig | internal/controller/keadhcp4server_controller.go:100-137 | from the spec to the text: fill the URLs, collect the placeholders, render, serialise |
| Dhcp4Server.BuildHAPods | internal/controller/keadhcp4server_controller.go:286-397 | everything the StatefulSet takes from the spec, for some order of the peers and of the static addresses |
| Dhcp4Server.BuildPlainPods | internal/controller/keadhcp4server_controller.go:412-464 | everything the Deployment takes from the spec; that it finds its configuration is `Deployed.PlainConfig` |
| Dhcp4Server.Reconcile | internal/controller/keadhcp4server_controller.go:66-193 | a reconcile of a spec is exactly the run of the steps of some visit: some order of its maps, and the results of its lookups |
| Deployed.ObjectsExactly | internal/controller/keadhcp4server_controller.go:126-193 | a reconcile applies an object if and only if the spec asks for it: the control Service exactly for a control socket of type `http`, the Stork objects exactly with the agent, the Route only on OpenShift, one ConfigMap and Service per ordinal only with high availability |
| Deployed.ObjectsLabelled | internal/resources/names.go:93-103 | in a converged cluster every wanted object exists, has the labels of its resource and its owner |
| Deployed.HeadlessService | internal/resources/service.go:38-66 | the stored headless Service listens at the port of the control socket, selects all pods of the resource and no others, has no address and publishes pods that are not ready |
| Deployed.ControlService | internal/controller/keadhcp4server_controller.go:468-488 | the stored control Service listens at the port of the control socket, or 8000, and selects all pods of the resource and no others |
| Deployed.MetricsService | internal/controller/keadhcp4server_controller.go:491-512 | the stored metrics Service leads to the ports the sidecar is told to use, as given or 9547 and 8080; settings of the user come last |
| Deployed.ServerSucceedsExactly | internal/controller/keadhcp4server_controller.go:343-356 | in terms of the spec: a reconcile returns without error if and only if no peer has an invalid host name and every call that counts succeeds |
| Deployed.InvalidHostBlocks | internal/controller/keadhcp4server_controller.go:343-356 | with an invalid host name every reconcile fails and leaves StatefulSet and control Service as they were |
| Deployed.WorkloadComesAfter | internal/controller/keadhcp4server_controller.go:286-397 | a reconcile that changed the workload, aborted anywhere, has established what the pods need first: account and all Services, or the ConfigMap |
| Deployed.ActiveConfigShared | internal/resources/statefulset.go:116-207 | what the init container writes is the volume Kea and the sidecar read, writable for the one and read-only for the other |
| Deployed.StartedMounts | internal/resources/statefulset.go:116-207 | the same of the StatefulSet in a converged cluster, with the TLS Secret of the resource at its place |
| Deployed.PlainConfig | internal/controller/keadhcp4server_controller.go:412-464 | without high availability: behind the mount Kea reads is a ConfigMap of the store whose file `kea-dhcp4.conf` is the text rendered for the resource; with secret variables it is mounted as a template, next to an empty volume where Kea reads; the Stork sidecar mounts the ConfigMap itself |
| Deployed.WorkloadCarries | internal/controller/keadhcp4server_controller.go:286-464 | the stored workload has the replicas of the resource, the sidecar of its lookups, and the hash of what it was rendered from |
| Deployed.PlainHashTells | internal/controller/keadhcp4server_controller.go:126-130 | without high availability two stored workloads carry the same hash if and only if their configurations are equal |
| Deployed.HAHashTells | internal/controller/keadhcp4server_controller.go:558-598 | with it, if and only if the number of pods and the configuration of every ordinal are equal |
| DeployedPods.PodsTakeAddresses | internal/resources/statefulset.go:296-333 | in a converged cluster pod i takes the address of peer i, or that of the first subnet plus i + 2, on the first interface that is not standard |
| DeployedPods.PlainPodsTakeAddress | internal/resources/deployment.go:234-249 | all pods of a Deployment take the first of these addresses, or none where secrets are expanded |
| DeployedPods.BuildReport | internal/controller/keadhcp4server_controller.go:529-537 | generation, hash, ConfigMap name and addresses |
| DeployedPods.ReportedConfigMap | internal/controller/keadhcp4server_controller.go:533 | the ConfigMap named in the status is one a reconcile writes if and only if there is no high availability |
| DeployedPods.ReportedHash | internal/controller/keadhcp4server_controller.go:532 | the hash in the status is that of the pods in a converged cluster |
| DeployedPods.ReportedAddress | internal/controller/keadhcp4server_controller.go:536-537 | in a converged cluster pod i has the address reported for it if and only if its static address is that one, or it has none and the last number does not overflow |
| DeployedPods.ScriptIsHarmless | internal/resources/validate.go:35-40 | host names and variables in the script of a stored StatefulSet are words of letters, digits, `.`, `_` and `-`, whatever the resource says |
| DeployedPods.PodsShareDirectories | internal/resources/statefulset.go:116-207 | the containers of a stored workload share the writable directory of the control socket, leases have their own, and what is copied from the resource is that of the resource |
| StorkDiscovery.AgentFindsServer | internal/controller/reconciler.go:266-308 | where a Stork server has converged the agent is sent to its Service, at the port it listens on, with the token the server was given, and registers by the address of its pod without interaction |
| StorkDiscovery.AgentWithoutServer | internal/resources/stork.go:109-115 | without any server the agent only serves metrics |
| StorkDiscovery.OwnURLWins | internal/controller/keadhcp4server_controller.go:239-262 | a server URL in the resource takes precedence over any server found, and so does its token |
| StorkAgent.BuildSidecarEnv | internal/resources/stork.go:84-115 | the environment of the sidecar, with every branch |
| StorkAgent.EnvShowsServer | internal/resources/stork.go:85-115 | two environments are equal if and only if server URL and token are, where there is a server |
| StorkAgent.SidecarsAgree | internal/controller/keadhcp4server_controller.go:239-262 | two reconciles want the same sidecar if and only if Stork is off or their lookups come to the same server and token |
| WorkloadStability.SameWorkloadExactly | internal/resources/statefulset.go:244-304 | all reconciles with two given lookup results want the same workload if and only if there is one order (no high availability, or at most one peer host and one static address in use) and the lookups agree |
| WorkloadStability.ConformingWorkloadOverwritten | internal/controller/keadhcp4server_controller.go:286-397 | a failure-free reconcile that wants another workload makes a conforming one non-conforming |
| WorkloadStability.TwoPeersOverwrite | internal/resources/statefulset.go:244-266 | a failing input: with two peer hosts there are two visits of which the second, failure-free, replaces the conforming StatefulSet of the first |
| WorkloadStability.FailingLookupOverwrites | internal/controller/reconciler.go:266-293 | another: a failing lookup of a Stork server that was found before replaces the conforming workload |
| WorkloadStability.ServerConverges | internal/controller/keadhcp4server_controller.go:66-193 | from the spec, over any history of reconciles failing anywhere, in any orders and with any lookups: everything but the workload converges for good, and the stored workload is that of one of these reconciles |
| WorkloadStability.ConvergedForSome | internal/controller/keadhcp4server_controller.go:66-193 | after a history with a failure-free reconcile the cluster is converged for the visit of one of its reconciles |
| WorkloadStability.SameEffect | internal/resources/statefulset.go:244-266 | with generated URLs the peer commands of any two reconciles rewrite every text without overlapping host names alike, in every pod |
| WorkloadStability.SameEffectOnQuietTexts | internal/resources/statefulset.go:244-266 | for peers with any URLs: the peer commands of any two reconciles rewrite alike every text on which those of one do not interfere |
| WorkloadStability.OmittedURLsAreGenerated | internal/controller/keadhcp4server_controller.go:91-98 | a resource whose peers leave out their URLs has generated ones throughout |
| WorkloadStability.SameAddresses | internal/resources/statefulset.go:296-333 | the start commands of any two reconciles give every pod the same address |
| PodTemplate.BuildStatefulSet | internal/resources/statefulset.go:116-271 | volumes, mounts and script of the template, for some visiting order of the peer map |
| PodTemplate.BuildPeerCommands | internal/resources/statefulset.go:244-266 | one command per entry of the peer map, in some order |
| PodTemplate.BuildDeployment | internal/resources/deployment.go:137-209 | volumes and mounts of the template for every combination of options |
| PodTemplate.StatefulSetClosed | internal/resources/statefulset.go:116-207 | volume names are distinct, every mount of every container names a declared volume, mount paths are distinct, and ordinal i mounts the volume of ordinal i, for all replica counts |
| PodTemplate.DeploymentClosed | internal/resources/deployment.go:137-209 | the same for Deployments |
| HaWiring.Resource.FillPeerURLs | internal/controller/reconciler.go:397-410 | empty URLs are filled from the naming convention by index; nothing else changes |
| HaWiring.BuildHostMap | internal/controller/keadhcp4server_controller.go:343-356 | host name map of the peers; a malformed URL is skipped, an invalid host name is an error |
| HaWiring.FilledHostMap | internal/controller/keadhcp4server_controller.go:343-356 | with generated URLs the map has exactly one entry per ordinal, pointing at that ordinal's Service |
| HaWiring.ScriptHasRule | internal/resources/statefulset.go:244-266 | the script performs the substitution of every resolvable peer |
| HaWiring.ScriptOrderIrrelevant | internal/resources/statefulset.go:244-266 | two visiting orders of the peers, some possibly unresolvable, rewrite every text without overlapping host names alike |
| HaWiring.URLRewritten | internal/resources/statefulset.go:248-259 | rewriting a URL rewrites its host and nothing else |
| HaWiring.PeerURLRewritten | internal/resources/statefulset.go:244-271 | after the whole init script a quoted generated URL points at its peer's target; an unresolvable peer keeps its host name |
| HaWiring.ServerNameKept | internal/resources/statefulset.go:244-271 | a quoted server name in which no host name and no placeholder occurs survives the script |
| HaWiring.EndToEnd | internal/resources/statefulset.go:233-266 | a quoted generated URL anywhere in a text: in pod o the URL of peer o holds the pod's own address, that of any other peer j the ClusterIP of a Service selecting exactly pod j |
| HaConfigs.PerOrdinalConfig | internal/controller/keadhcp4server_controller.go:570-580 | the configuration of an ordinal names that ordinal's peer as this server and lists all peers with their names and URLs, in order |
| Dhcp4Server.BuildConfigMapNames | internal/controller/keadhcp4server_controller.go:318-321 | the ConfigMap names recorded for the StatefulSet |
| HaConfigs.MountedConfig | internal/resources/statefulset.go:116-242 | in a converged store the file pod o selects from its mounts is the text rendered for ordinal o: template, volume, ConfigMap and host name fit together |
| HaConfigs.StartedPod | internal/controller/keadhcp4server_controller.go:66-193 | from the spec to the running pod: in a converged cluster the text a peer's pod runs with is its configuration with every string rewritten; decoded, it names that peer as this server, gives it the pod's own address and every other peer j the ClusterIP of a Service that selects exactly pod j and listens on the port in the URL, and there is a dedicated listener at this port if and only if the control socket has one |
| HaConfigs.ServicesListen | internal/resources/service.go:143-172 | in a converged cluster each per-pod Service has one entry, over TCP, whose port and target are the port of the control socket, or 8000 |
| HaConfigs.PeersAreOwn | internal/controller/reconciler.go:397-410 | a written peer URL stays; an omitted one names the pod of the ordinal behind the headless Service of the resource |
| HaConfigs.SpareOrdinalConfig | internal/controller/keadhcp4server_controller.go:571-575 | an ordinal without a peer calls itself `server` and its number, counted from one |
| HaListener.ListenerExactly | internal/kea/ha_config.go:87-91 | the tree of every spec with high availability has a dedicated listener on 0.0.0.0 at the port of the control socket if that is positive, and otherwise none of the three fields |
| HaConfigs.OmittedURLsSuffice | internal/controller/reconciler.go:397-410 | leaving out all peer URLs is enough for the hypotheses of `HaConfigs.StartedPod` on the resource |
| HaConfigs.StartedIdentity | internal/controller/keadhcp4server_controller.go:570-580 | with distinct peer names in which no host name or placeholder occurs the running configuration identifies exactly the pod's own peer as this server |
| HaConfigs.RulesOfTemplate | internal/resources/statefulset.go:233-271 | the script of the template built from the spec performs the substitutions of the peers, then those of the secrets |
| HaConfigs.QuietFrame | internal/resources/statefulset.go:244-271 | text without dots and `$` between the strings is untouched by the script |
| Serializer.TextRewritten | internal/resources/statefulset.go:244-271 | rewriting the text of a tree is writing the tree with every string rewritten |
| Serializer.PlainCommutes | internal/kea/dhcp4_config.go:188-191 | strings and replacements without characters that JSON escapes can be rewritten before or after escaping |
| Render.RoundTripExactly | internal/kea/dhcp4_config.go:59-192 | decoding the rendered tree gives the normal form of the resource if and only if the user's hooks do not end in the HA library behind which nothing is injected |
| Render.RenderInjective | internal/kea/dhcp4_config.go:59-192 | unambiguous resources that render equally agree on everything Kea sees, at every level |
| Render.ImitationRendersEqually | internal/kea/ha_config.go:93-104 | every resource with HA and no injected database hook has an imitation by user hooks that renders to the same tree |
| Ambiguity.AmbiguousExactly | internal/kea/dhcp4_config.go:124-139 | another resource that Kea sees differently renders to the same tree if and only if this one has HA and injects no database hook, or its own hooks end in exactly the two hooks the operator would inject for the settings in them |
| Render.InjectedHooksLast | internal/kea/dhcp4_config.go:124-139 | the user's hooks come first in their order, then the injected ones in the order database, lease commands, HA; of these only the last has parameters |
| Render.OverrideIsolation | internal/kea/dhcp4_config.go:52-57 | for two server names the trees are equal except for the one `this-server-name` leaf, in the last hook |
| Render.SubnetRoundTrip | internal/kea/dhcp4_config.go:222-265 | a subnet is recovered from its tree, with an empty relay dropped |
| Render.NetworkRoundTrip | internal/kea/dhcp4_config.go:283-321 | a shared network with its subnets is recovered from its tree |
| Render.HARoundTrip | internal/kea/ha_config.go:45-91 | the HA settings are recovered, without TLS and static addresses; a field that is present though empty, or absent though required, is not mistaken for the other; the listener is `HaListener.ListenerExactly` |
| Render.ReservationRoundTrip | internal/kea/config.go:138-170 | a reservation is recovered from its tree |
| Render.DatabaseRoundTrip | internal/kea/config.go:259-284 | a database is recovered from its tree, without its Secret reference |
| Render.LoggerRoundTrip | internal/kea/config.go:226-256 | a logger with its outputs is recovered from its tree |
| Renderer.JsonObject.SetIfNotNil | internal/kea/config.go:51-64 | sets a present value, leaves the map alone otherwise |
| Renderer.JsonObject.SetIfNotEmpty | internal/kea/config.go:67-71 | sets a non-empty text, leaves the map alone otherwise |
| Renderer.RenderOptionData | internal/kea/config.go:74-91 | the loop computes the list of option trees, or nothing for an empty list |
| Renderer.RenderPool4 | internal/kea/dhcp4_config.go:268-280 | the filled map is the tree of the pool |
| Renderer.RenderSubnet4 | internal/kea/dhcp4_config.go:222-265 | the filled map is the tree of the subnet |
| Renderer.RenderSharedNetworks4 | internal/kea/dhcp4_config.go:283-321 | the loop computes the trees of the shared networks |
| Renderer.RenderHAHooks | internal/kea/ha_config.go:35-105 | the two HA hooks in their order, with the overridden server name and the dedicated listener |
| Renderer.RenderHooks | internal/kea/dhcp4_config.go:124-139 | user hooks, database hook, lease commands, HA, in this order |
| Renderer.RenderInternal | internal/kea/dhcp4_config.go:59-192 | the code computes the tree the round trip is about |
| ChangeDetection.EqualHashSameConfigs | internal/controller/keadhcp4server_controller.go:568-597 | if every ordinal renders, template hashes are equal if and only if the replica count and the configuration of every ordinal are |
| ChangeDetection.EqualHashSameMeaning | internal/kea/config.go:43-47 | with an injective serialiser every change Kea can see changes the template hash |
| ChangeDetection.EqualHashExactly | internal/controller/keadhcp4server_controller.go:568-597 | template hashes are equal if and only if the same configurations rendered in the same order: an ordinal that does not render leaves no mark |
| Conditions.ConditionList.Set | internal/controller/reconciler.go:171-191 | the loop with its early return updates or appends one condition |
| Conditions.SetRefinesMap | internal/controller/reconciler.go:171-191 | a call is a map update: order, other entries and uniqueness of types are kept |
| Conditions.History | internal/controller/reconciler.go:171-191 | after any sequence of calls each entry has the status of the last call for its type and the time of the call that introduced that status |
| Conditions.IntroducedOnce | internal/controller/reconciler.go:174-177 | the call that introduced the current status is unique |
| Status.Server.UpdateStatus | internal/controller/keadhcp4server_controller.go:529-553 | counts, hash, ConfigMap name, addresses, phase and conditions |
| Status.Stored.Reconcile | internal/controller/keadhcp4server_controller.go:136-155 | what a reconcile leaves in the API server, for every way it can end |
| Status.StatusSafety | internal/controller/keadhcp4server_controller.go:529-553 | in every reachable status: Running implies Ready, not Progressing, a valid configuration and ready replicas; Progressing implies not Ready; Error holds if and only if the configuration is invalid |
| Status.RenderErrorKeepsReady | internal/controller/keadhcp4server_controller.go:138-147 | a render error changes phase and ConfigurationValid only |
| Status.ErrorWithReadyExactly | internal/controller/keadhcp4server_controller.go:138-147 | a resource is stored in phase Error with Ready true if and only if the last written reconcile failed to render and the last written one that counted found ready replicas, as many as wanted; a statement about the error branch, which no DHCPv4 spec is known to reach |
| Status.ErrorWithReadyTrue | internal/controller/keadhcp4server_controller.go:138-147 | two outcomes that lead there |
| Status.PhaseReports | internal/controller/keadhcp4server_controller.go:538-547 | after any life the phase is Running if and only if the last written reconcile found ready replicas, as many as wanted, Progressing if it found another number, Error if it failed to render |
| Status.ReadyReports | internal/controller/keadhcp4server_controller.go:538-547 | Ready is true if and only if the last written reconcile that counted found ready replicas, as many as wanted, and its message has those numbers |
| Status.ConditionsReport | internal/controller/reconciler.go:171-191 | the stored transition times are those of the written reconciles that introduced the statuses |
| Children.ChildCluster.ReconcileChild | internal/controller/keaserver_controller.go:165-191 | creates, updates or deletes one child; the first lookup's error counts only without a spec |
| Children.ChildCluster.ReconcileChildren | internal/controller/keaserver_controller.go:74-98 | the five children in their order, stopping at the first error |
| Children.PrefixEstablished | internal/controller/keaserver_controller.go:74-98 | an aborted run has established exactly the children it processed, lost none and touched nobody else's |
| Children.UmbrellaConverges | internal/controller/keaserver_controller.go:74-98 | after a failure-free run a child exists if and only if it is configured, with the parent's spec and controller reference |
| Children.UmbrellaStaysConverged | internal/controller/keaserver_controller.go:74-98 | over any history for one spec established children are never lost |
| Children.EstablishedIsFixpoint | internal/controller/keaserver_controller.go:165-295 | once all children are established no run changes the store |
| Children.ReachesExactly | internal/controller/keaserver_controller.go:74-98 | a run gets through its first n children if and only if each of them passes in the store the run starts from |
| Children.ChildrenInOrder | internal/controller/keaserver_controller.go:74-98 | the children change in the order DHCPv4, DHCPv6, control agent, DDNS, Stork: none before the one in front of it has gone through |
| Children.ForeignDeletedExactly | internal/controller/keaserver_controller.go:165-191 | a run leaves a child under foreign control as it is or deletes it, and deletes it if and only if its component is not configured, everything before it passes, the lookup works and the deletion takes effect |
| Children.ChildrenApart | internal/controller/keaserver_controller.go:167 | different umbrellas never share a child |
| UmbrellaStatus.IsChildReady | internal/controller/keaserver_controller.go:300-342 | the loop decides by phase and the first Ready condition |
| UmbrellaStatus.ReadyIsRunning | internal/controller/keaserver_controller.go:329-342 | for every status a child controller can write, readiness is phase Running, and the fallback never decides |
| UmbrellaStatus.ReadyMeansAllReplicas | internal/controller/keaserver_controller.go:300-342 | a child is ready if and only if its last written reconcile found ready replicas, as many as wanted |
| UmbrellaStatus.Server.Aggregate | internal/controller/keaserver_controller.go:100-154 | the flags and branches compute the specified report |
| UmbrellaStatus.FlagsReport | internal/controller/keaserver_controller.go:100-107 | after any life the flag of each component and the generation are those of the last written report |
| UmbrellaStatus.PhaseAggregates | internal/controller/keaserver_controller.go:109-154 | Pending if and only if nothing is configured, Running if and only if something is and every configured child runs |
| UmbrellaStatus.ConvergedPhase | internal/controller/keaserver_controller.go:74-154 | once the children are established the phase speaks about the children that exist |
| UmbrellaStatus.UmbrellaSafety | internal/controller/keaserver_controller.go:143-154 | phase and conditions agree in every reachable umbrella status |
| UmbrellaStatus.ProgressReports | internal/controller/keaserver_controller.go:109-154 | the last written report decides whether the umbrella is pending, the last written one with components whether Progressing is true |
| UmbrellaStatus.PendingProgressesExactly | internal/controller/keaserver_controller.go:109-154 | over a whole life: phase Pending with Progressing true is stored if and only if the last written report found no components and the last written one that found some did not find all of them ready |
| UmbrellaStatus.PendingKeepsProgressing | internal/controller/keaserver_controller.go:143-145 | an instance: every written report without components keeps a true Progressing, also that of an umbrella already pending |
| StorkCredentials.EnsureSecret | internal/controller/keastorkserver_controller.go:137-155 | get-or-create of one Secret, with every error path |
| StorkCredentials.Reconcile | internal/controller/keastorkserver_controller.go:131-213 | account, both Secrets, Deployment and Service, stopping at the first error, and on OpenShift the Route, whose error is swallowed; the status update is `Status.Stored.Reconcile` |
| StorkCredentials.OverwrittenExactly | internal/controller/keastorkserver_controller.go:141-155 | an existing Secret changes if and only if the first lookup was stale and everything after it worked |
| StorkCredentials.CredentialsNeverChange | internal/controller/keastorkserver_controller.go:137-173 | over any run of reconciles with current reads password and token never change once they exist |
| StorkCredentials.PasswordOrigin | internal/controller/keastorkserver_controller.go:141-152 | the stored user is `admin` and the stored password the random value, with `!A` behind it, of exactly the reconcile that first stored it |
| StorkCredentials.TokenOrigin | internal/controller/keastorkserver_controller.go:156-173 | the stored token is the random value of exactly the reconcile that first stored it |
| StorkConvergence.StorkEstablished | internal/controller/keastorkserver_controller.go:131-213 | a reconcile that reports success has established account, Deployment and Service, and both Secrets exist, whatever failed |
| StorkConvergence.SecretsComeFirst | internal/controller/keastorkserver_controller.go:137-195 | nothing else is created or changed before the account and both Secrets are in place |
| StorkConvergence.StorkSucceedsExactly | internal/controller/keastorkserver_controller.go:131-213 | a reconcile without failures succeeds if and only if nobody else controls account, Deployment or Service |
| StorkConvergence.ExposedExactly | internal/controller/keastorkserver_controller.go:203-213 | the Route changes on OpenShift only, behind a Service that is in place, and then conforms if it can |
| Nad.ComputeNadAddresses | internal/controller/keadhcp4server_controller.go:640-660 | the reported list, with byte addition |
| Nad.DistinctExactly | internal/controller/keadhcp4server_controller.go:652-658 | the entries are pairwise different if and only if there are at most 256 replicas |
| Nad.StaysInBlock | internal/controller/keadhcp4server_controller.go:652-658 | with a prefix of at most 24 bits every entry lies in the block of the subnet |
| Nad.InBlockExactly | internal/controller/keadhcp4server_controller.go:652-658 | with a longer prefix all entries lie in the block if and only if the last one does not run over its end |
| Nad.BuildStaticAddresses | internal/controller/keadhcp4server_controller.go:358-364 | the static addresses by ordinal |
| Nad.PodTakesOwnAddress | internal/resources/statefulset.go:296-333 | the pod of ordinal i takes the address of peer i if it has one, and otherwise that of the subnet plus i + 2 |
| Nad.InterfaceExactly | internal/controller/keadhcp4server_controller.go:603-610 | the interface is the first that is not standard, and there is none if and only if all are |
| Nad.StartIsHarmless | internal/resources/validate.go:11-33 | whatever the resource says, interface, subnet and command in a start command consist of letters, digits, `.`, `_`, `-` and `/` |
| Nad.FindNadInterface | internal/controller/keadhcp4server_controller.go:603-610 | the first interface other than `*`, `eth0` and `lo`, or none |
| Nad.BuildStart | internal/resources/statefulset.go:296-333 | no address without the guard, a case statement if there are static addresses, the computed address otherwise |
| Nad.CidrIsSafe | internal/resources/validate.go:11-40 | a subnet that CIDR parsing accepts passes the pattern if and only if its prefix has at most two digits |
| Nad.ArmOrderIrrelevant | internal/resources/statefulset.go:301-304 | the case statement gives every ordinal its own static address in every order of its arms |
| Nad.ReportMatchesPod | internal/resources/statefulset.go:296-333 | a pod has the reported address if and only if the interface, subnet and command pass the guard, and its static address is the reported one, or it has none and the last octet does not overflow |
| Nad.DeploymentSharesOneAddress | internal/resources/deployment.go:234-249 | a Deployment pod has reported address i if and only if the guard passes, no secrets are expanded, the last octet does not overflow and i is a multiple of 256 |

## Left out

- Shell, `sed`, `grep`, DNS: replacements are literal (the dots of a host name are not regular-expression wildcards, values with `&`, `|` or backslashes are not treated specially), quoting and the retry loop are not modelled, and a failed lookup is a lookup without answer.
- `buildSecretEnvSubstCommand`: it also joins the words of a nested shell command without quotes, which is modelled only as far as the address results need it; expansion that happens is proved for the StatefulSet script.
- What the Stork sidecar does with the files it mounts; on a Deployment it sees the unexpanded text (`Deployed.PlainConfig`).
- DHCPv6, control agent and DDNS controllers and renderers: near copies of the DHCPv4 ones. Their status updates have the form `Status` models.
- The console plugin, caches, watches, events, RBAC and the SCC role binding; the URL a Stork server reports for its Route.
- What a workload copies from the resource without looking at it (image, placement, resources) is one text.
- `ResolveStorkParams` never returns an error, so neither does the model of it.
- JSON text: the serialiser is any function that writes the string leaves between pieces depending on the rest of the tree. A nil and an empty slice are the same list, although a nil list of interfaces is serialised as `null`.
- HaConfigs.StartedPod: is about peers with generated URLs and at least as many replicas as peers, as the documentation asks for; a peer without a replica has no Service, and a URL written by hand is rewritten only if its host is in the map. `FrameUntouched` and `EscapeCommutes` are hypotheses, met by ordinary configurations (`HaConfigs.QuietFrame`, `Serializer.PlainCommutes`).
- WorkloadStability.SameEffect: is about peers with generated URLs; for URLs written by hand, whose hosts may overlap in any way, `WorkloadStability.SameEffectOnQuietTexts` has the freedom from interference as its hypothesis.
- Integer widths of `int32` fields: numbers are unbounded, except for the byte arithmetic of `Nad`.
- Renderer.RenderInternal: fills the hooks and sections in another order than the code; a map does not show it. Smaller records (reservations, loggers, databases, client classes) are built by functions, their lists by one shared loop.
- Children.ChildCluster.ReconcileChild: stands for the five functions of the umbrella, which differ only in type and suffix.
- Deletion by finalizers and garbage collection: a deleted child is gone at once.
- `net.ParseCIDR`: the address results are about subnets in canonical decimals, which is what it accepts.
