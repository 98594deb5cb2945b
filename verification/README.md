# Cloud SQL Auth Proxy Operator: the PodSpec updater, modelled in Dafny

This project models the PodSpec updater of the Cloud SQL Auth Proxy Operator, found in the
operator's `internal/workload` package. The updater takes two inputs:
- a workload's Pod template;
- the `AuthProxyWorkload` resources that select that workload.

It then does the following:

- It allocates a listening port for every TCP instance:
  - an explicit port when the instance names one;
  - otherwise the next free port counting up from `DefaultFirstPort` (5000), skipping the
    application containers' ports and every explicitly named port.
- It appends one proxy sidecar per workload, named `csql-<namespace>-<name>`:
  - the sidecar's arguments are one `<connection>?<k=v&...>` per instance, with the keys in
    alphabetical order;
  - its image is the workload's image when set, otherwise `DefaultProxyImage`;
  - its resources are copied verbatim;
  - its `CSQL_PROXY_*` variables come from the workload's container spec;
  - a workload that supplies a complete container gets that container, renamed; its instances
    then take no part in port allocation, instance variables or socket volumes.
- It sets each instance's variables on every application container: host and port for a TCP
  instance, the socket path for a Unix-socket instance.
- It plans one shared `emptyDir` volume per Unix-socket parent directory and mounts it on the
  application containers and on the sidecars whose instances use it.
- It stamps the annotation `cloudsql.cloud.google.com/<name>` on the Pod template, valued with
  the workload's generation. `PodAnnotation` renders `<generation>-deleted-<timestamp>` for a
  workload marked for deletion, but the update drops such workloads before stamping, so it
  never writes that value.
- It reports port conflicts and environment-variable name conflicts as one `ConfigError`. The
  error carries one detail record per conflict, each with its error code.

The implementation file is not part of this model. The behaviour modelled is the behaviour that
the package's unit tests, `internal/workload/podspec_updates_test.go`, pin down. Where the tests
are silent, the model makes its own choices, and "## Left out" lists each of them.

`TestPodTemplateAnnotations` expects the deleted `instance3` to leave no annotation and no
sidecar. The model therefore drops deleted workloads before the update, instead of stamping a
deletion annotation for them.

## Layout

Each file holds one module.

| file | module | contents |
|---|---|---|
| `optional.dfy` | `Optional` | the `Option` type |
| `text.dfy` | `Text` | decimal rendering and parsing, prefixes, `Split`/`Join`, parent directory |
| `seqs.dfy` | `Seqs` | filter, dedup, distinctness |
| `sorting.dfy` | `Sorting` | insertion sort by key |
| `kube.dfy` | `Kube` | containers, env vars, volumes, Pod template, lookup by name |
| `api.dfy` | `Api` | `AuthProxyWorkload`, `InstanceSpec`, `ConfigError` and its codes |
| `defaults.dfy` | `Defaults` | `DefaultFirstPort`, `DefaultHealthCheckPort`, `DefaultProxyImage` |
| `ports.dfy` | `Ports` | the port allocator and its conflict rule |
| `args.dfy` | `CliArgs` | the per-instance proxy argument and its parser |
| `env.dfy` | `EnvVars` | instance variables, merging with conflict detection, `SetEnv` |
| `proxyenv.dfy` | `ProxyEnv` | the sidecar's `CSQL_PROXY_*` variables |
| `volumes.dfy` | `Volumes` | socket-volume plan, mounts, volume replacement |
| `annotations.dfy` | `Annotations` | `PodAnnotation` and stamping the template |
| `updater.dfy` | `PodSpecUpdater` | `ConfigureWorkload` |
| `properties.dfy` | `UpdaterProperties` | properties of `ConfigureWorkload` for all inputs |
| `scenarios.dfy` | `Scenarios` | each unit test's situation, stated for all inputs of that shape |

## Model

| member | source | states |
|---|---|---|
| Kube.FindContainer | internal/workload/podspec_updates_test.go:76-84 | Finding a container by name fails exactly when no container has that name. Otherwise it returns the first container with that name. |
| Kube.LookupEnv | internal/workload/podspec_updates_test.go:86-97 | Looking up a variable fails exactly when no variable has that name. Otherwise the variable found is present in the list. |
| Text.DecimalRoundTrip | internal/workload/podspec_updates_test.go:193-196 | The decimal text a port or generation is rendered as parses back to the same integer. |
| Text.DirOfChild | internal/workload/podspec_updates_test.go:919-921 | The parent directory of `dir/name`, where `name` has no `/`, is `dir`. |
| Api.InstanceRefsMembers | internal/workload/podspec_updates_test.go:418-461 | An instance of a workload is visited, for ports, variables and volumes, exactly when the workload's container is synthesized rather than supplied whole. |
| Ports.AssignPorts | internal/workload/podspec_updates_test.go:253-270 | One assignment per instance. A socket instance gets no port. An explicit port is kept and flagged as conflicting exactly when an application container or an earlier instance already uses it. The j-th implicit instance gets the j-th free port counting up from `DefaultFirstPort`. |
| Ports.NextFree | internal/workload/podspec_updates_test.go:253-270 | The next free port is the first port at or above the candidate that is not reserved, and every port it skips is reserved. The allocator reserves the application containers' ports and every explicit port. |
| Ports.NthFreeConsecutive | internal/workload/podspec_updates_test.go:555-570 | When no port in `[from, from+j]` is reserved, the j-th free port is `from + j`. |
| Ports.NthFreeNoGap | internal/workload/podspec_updates_test.go:555-570 | Every unreserved port between the start and the j-th free port is handed out to one of the first j+1 implicit instances. |
| Ports.AssignAt | internal/workload/podspec_updates_test.go:674-692 | Per position: a socket gets no port; an explicit port conflicts exactly when it is already used; an implicit instance gets the free port its rank among implicit instances calls for. |
| Ports.DefaultPortsConsecutive | internal/workload/podspec_updates_test.go:555-570 | When the ports from `DefaultFirstPort` upward are free, implicit instances get `DefaultFirstPort`, `DefaultFirstPort+1`, … in instance order, with no conflict. |
| Ports.PortConflictIff | internal/workload/podspec_updates_test.go:674-704 | The allocator flags a conflict exactly when some explicit port equals an application-container port or an earlier instance's explicit port. |
| Ports.PortsDistinctWithoutConflict | internal/workload/podspec_updates_test.go:253-270 | Without a conflict, every TCP port avoids the application containers' ports, and no two TCP instances share a port. |
| Ports.NthFreeIncreasing | internal/workload/podspec_updates_test.go:555-570 | Later implicit instances get strictly larger ports. |
| CliArgs.PlainTcpArg | internal/workload/podspec_updates_test.go:141 | A TCP instance without optional flags yields the argument `<connection>?port=<P>`. |
| CliArgs.IamTcpArg | internal/workload/podspec_updates_test.go:588-604 | With `autoIAMAuthN` set, the argument is `<connection>?auto-iam-authn=<b>&port=<P>`. |
| CliArgs.PrivateIpTcpArg | internal/workload/podspec_updates_test.go:605-621 | With `privateIP` set, the argument is `<connection>?port=<P>&private-ip=<b>`. |
| CliArgs.IamParamsSorted | internal/workload/podspec_updates_test.go:588-604 | With `autoIAMAuthN` set, the parameters sort as `auto-iam-authn` before `port`. |
| CliArgs.PlainSocketArg | internal/workload/podspec_updates_test.go:919-924 | A socket instance yields `<connection>?unix-socket-path=<path>`, with no port. |
| CliArgs.ParseInstanceArg | internal/workload/podspec_updates_test.go:601-603 | Parsing an instance's argument recovers its connection string and its parameters, in key order. |
| CliArgs.InstanceArgParams | internal/workload/podspec_updates_test.go:618-620 | The parameters read back from an argument are sorted by key and are a permutation of the instance's parameters. |
| EnvVars.MergeRequests | internal/workload/podspec_updates_test.go:571-587 | The merged variables have distinct names. For every name, the first request for it wins. There are no conflicts exactly when the requested names are distinct, and then every request is kept in order. The conflicts are exactly the requests whose name an earlier request already asked for. |
| EnvVars.SetEnvLookup | internal/workload/podspec_updates_test.go:240-249 | After setting variables on a container, each set name reads its new value, and every other name reads what it read before. |
| EnvVars.SetEnvIdempotent | internal/workload/podspec_updates_test.go:240-249 | Setting the same variables twice gives what setting them once gives. |
| EnvVars.InstanceVarsNames | internal/workload/podspec_updates_test.go:571-587 | The names of the instance variables are exactly the names the instances request, in order. |
| ProxyEnv.ContainerEnvLookup | internal/workload/podspec_updates_test.go:537-543 | Each `CSQL_PROXY_*` variable on a synthesized sidecar reads the reference value for its setting, and reads nothing when the setting is unset. |
| ProxyEnv.EntriesComplete | internal/workload/podspec_updates_test.go:631-655 | Every setting that has a value contributes an entry with that value to the sidecar's variables. |
| ProxyEnv.EntriesSound | internal/workload/podspec_updates_test.go:657-673 | Every entry of the sidecar's variables carries the reference value of its setting. Debug and admin-port entries appear only when an admin server is configured. |
| ProxyEnv.ContainerEnvDistinct | internal/workload/podspec_updates_test.go:537-543 | No two `CSQL_PROXY_*` variables on a sidecar share a name. |
| Volumes.PlanInOrderOfFirstUse | internal/workload/podspec_updates_test.go:983-1000 | The planned mounts come in order of first use: every socket instance in a later mount's directory comes after some socket instance in an earlier mount's directory. |
| Volumes.SidecarMountsComplete | internal/workload/podspec_updates_test.go:983-1000 | A sidecar's mounts include every planned mount at the directory of one of its own socket instances. |
| Volumes.PlanDistinct | internal/workload/podspec_updates_test.go:983-986 | No two planned mounts share a path, and no two planned volumes share a name. |
| Volumes.SharedDirectory | internal/workload/podspec_updates_test.go:915-1003 | Two sockets in the same directory yield exactly one volume, and one mount at that directory whose name is the volume's name. |
| Volumes.SocketMounted | internal/workload/podspec_updates_test.go:988-1000 | Each socket instance's directory is mounted on the container, through a mount whose volume is an `emptyDir` of the Pod. |
| Volumes.WithVolumesIdempotent | internal/workload/podspec_updates_test.go:983-986 | Replacing the planned volumes a second time changes nothing. |
| Volumes.PlanCoversSockets | internal/workload/podspec_updates_test.go:983-1000 | Every socket instance has a planned mount at its parent directory. |
| Volumes.PlanOnlySockets | internal/workload/podspec_updates_test.go:983-1000 | Every planned mount is at the parent directory of some socket instance. |
| Volumes.VolumeNameInjective | internal/workload/podspec_updates_test.go:983-986 | Distinct plan positions give distinct volume names. |
| Volumes.WithVolumesKeeps | internal/workload/podspec_updates_test.go:983-986 | Replacing the planned volumes keeps every volume the updater does not manage, in order. Every managed volume it adds comes from the plan and is an `emptyDir`. |
| Annotations.PodAnnotationRoundTrip | internal/workload/podspec_updates_test.go:880-912 | Reading back the key/value pair a workload stamps recovers the workload's name, its generation and its deletion timestamp, if any. |
| Annotations.AnnotationKeyIff | internal/workload/podspec_updates_test.go:888-906 | Two workloads stamp the same key exactly when they have the same name. |
| Annotations.StampAllValue | internal/workload/podspec_updates_test.go:838-876 | When workload names are distinct, each stamped workload's key holds exactly that workload's value. |
| Annotations.StampAllOverlay | internal/workload/podspec_updates_test.go:838-876 | Stamping overlays the workloads' own annotations on the template's existing ones. |
| Annotations.StampAllIdempotent | internal/workload/podspec_updates_test.go:838-876 | Stamping the same workloads twice gives what stamping them once gives. |
| PodSpecUpdater.AppliedMembers | internal/workload/podspec_updates_test.go:857-870 | A workload is applied exactly when it matches and is not marked for deletion. |
| PodSpecUpdater.ArgsForMembers | internal/workload/podspec_updates_test.go:822-835 | Each argument of a sidecar comes from one of the workload's own instances, and each such instance contributes its argument. |
| PodSpecUpdater.PortErrors | internal/workload/podspec_updates_test.go:780-818 | Every port error has the port-conflict code. There is at least one exactly when the allocator flagged a conflict. |
| PodSpecUpdater.EnvErrorsRepeats | internal/workload/podspec_updates_test.go:571-587 | The env-conflict details name exactly the requests (workload, instance index, variable) whose variable name an earlier request already asked for. |
| UpdaterProperties.SidecarNameInjective | internal/workload/podspec_updates_test.go:139 | Within a namespace, two workloads' sidecar names coincide exactly when the workloads share a name. |
| UpdaterProperties.SidecarCount | internal/workload/podspec_updates_test.go:160-172 | After the update, a matching workload's sidecar name occurs exactly once among the containers if the workload is live, and not at all if it is deleted. |
| UpdaterProperties.SidecarCountIn | internal/workload/podspec_updates_test.go:160-172 | For the containers the update builds from a layout, a matching workload's sidecar name occurs once if the workload is live, and never if it is deleted. |
| UpdaterProperties.CountSidecarsOf | internal/workload/podspec_updates_test.go:160-172 | Among sidecars named after the applied workloads, a matching workload's name occurs once when it is applied, and not at all when it is deleted. |
| UpdaterProperties.AppsAfterUpdate | internal/workload/podspec_updates_test.go:151-163 | The non-sidecar containers after the update are the original application containers, updated in place and in order. |
| UpdaterProperties.ContainersKept | internal/workload/podspec_updates_test.go:151-163 | Each application container keeps its name, image, command, arguments, ports and resources. |
| UpdaterProperties.ConfigureIdempotent | internal/workload/podspec_updates_test.go:125-133 | Updating an already updated template with the same workloads yields the same template and the same error. |
| UpdaterProperties.ErrorsReport | internal/workload/podspec_updates_test.go:780-818 | The update fails exactly when an explicit port clashes or a variable name repeats. A failing update carries the port-conflict code exactly when a port clashes, and the env-conflict code exactly when a name repeats. |
| UpdaterProperties.ErrorsOfLayout | internal/workload/podspec_updates_test.go:780-818 | The layout's error list is empty exactly when no port conflicts and no variable name repeats. It holds a port-conflict detail exactly when a port conflicts, and an env-conflict detail exactly when a name repeats. |
| UpdaterProperties.CodesOfParts | internal/workload/podspec_updates_test.go:780-818 | Port details followed by env details carry each code exactly when the corresponding part is non-empty. |
| UpdaterProperties.AppEnv | internal/workload/podspec_updates_test.go:240-249 | On each application container, a name requested by an instance reads the first requested value, and every other name keeps its original value. |
| UpdaterProperties.UpdateAppEnv | internal/workload/podspec_updates_test.go:240-249 | Updating one application container makes every requested name read its first requested value, and leaves every other name as it was. |
| UpdaterProperties.UpdateAppIdempotent | internal/workload/podspec_updates_test.go:240-249 | Updating an application container twice with the same layout gives what updating it once gives. |
| UpdaterProperties.InstanceVarOnApp | internal/workload/podspec_updates_test.go:193-196 | When requested names are distinct, every instance variable appears on every application container with its value. These are host `127.0.0.1`, the resolved port in decimal, or the socket path. |
| UpdaterProperties.VolumesAfterUpdate | internal/workload/podspec_updates_test.go:983-986 | Volumes the updater does not manage are kept in order. Every managed volume comes from the socket plan and is an `emptyDir`. |
| UpdaterProperties.SocketMountedOnApp | internal/workload/podspec_updates_test.go:988-1000 | Each application container keeps its own mounts. It mounts every socket instance's parent directory, through a volume present in the template. |
| UpdaterProperties.AnnotationsAfterUpdate | internal/workload/podspec_updates_test.go:838-876 | The annotations after the update are the original ones overlaid with the applied workloads' stamps. |
| UpdaterProperties.WorkloadAnnotation | internal/workload/podspec_updates_test.go:838-876 | A live matching workload's key holds its own value. A deleted workload leaves its key as it was. |
| UpdaterProperties.StampApplied | internal/workload/podspec_updates_test.go:838-876 | Stamping the applied workloads gives a live matching workload's key its own value. A deleted one's key is left as it was. |
| UpdaterProperties.OverrideSidecar | internal/workload/podspec_updates_test.go:418-461 | A workload that supplies a full container gets exactly that container, under the sidecar name. |
| UpdaterProperties.OverrideTakesNoPart | internal/workload/podspec_updates_test.go:418-461 | None of the instances the update visits belongs to a workload that supplies a full container. |
| UpdaterProperties.SynthesizedSidecar | internal/workload/podspec_updates_test.go:319-512 | A synthesized sidecar has the sidecar name; the workload's image, or `DefaultProxyImage` when it has none; the workload's resources; exactly its own instances' arguments; and each `CSQL_PROXY_*` variable at its reference value. It mounts a planned volume at the directory of each of its own socket instances. |
| UpdaterProperties.SynthesizedSidecarOf | internal/workload/podspec_updates_test.go:467-512 | The sidecar synthesized for a layout position has the sidecar name, the image and resources the workload specifies (or the defaults), exactly its own instances' arguments, and each `CSQL_PROXY_*` variable at its reference value. It mounts a planned volume at the directory of each of its own socket instances. |
| Scenarios.TcpInstance | internal/workload/podspec_updates_test.go:186-317 | One TCP instance with host and port variables, on a one-container Pod. The update succeeds and there are two containers. The name lookup finds the sidecar. It carries `<connection>?port=P`, where P is the explicit port or `DefaultFirstPort`. The application container gets `127.0.0.1` and `P`. |
| Scenarios.OverrideIgnoresInstances | internal/workload/podspec_updates_test.go:418-461 | On a one-container Pod, a live workload that supplies its own container makes the update succeed whatever its instances name. The sidecar is that container under the sidecar name, and no socket volume is planned. |
| Scenarios.ImplicitPortsIncrement | internal/workload/podspec_updates_test.go:555-570 | Two instances without ports get exactly the arguments for `DefaultFirstPort` and `DefaultFirstPort+1`. |
| Scenarios.EnvNameConflict | internal/workload/podspec_updates_test.go:571-587 | Two instances requesting the same port variable fail with the env-conflict code only. |
| Scenarios.InstancePortConflict | internal/workload/podspec_updates_test.go:674-692 | Two instances with the same explicit port fail with the port-conflict code only. |
| Scenarios.ContainerPortConflict | internal/workload/podspec_updates_test.go:693-704 | An explicit port already used by the application container fails with the port-conflict code only. |
| Scenarios.TwoInstances | internal/workload/podspec_updates_test.go:674-692 | Two instances conflict exactly when the first one's explicit port is a container port, or the second one's is a container port or equals the first one's. |
| Scenarios.TwoDefaultPorts | internal/workload/podspec_updates_test.go:555-570 | Two implicit instances, on a Pod whose container leaves 5000 and 5001 free, are assigned `DefaultFirstPort` and `DefaultFirstPort+1`. |
| Scenarios.TwoArgs | internal/workload/podspec_updates_test.go:555-570 | The sidecar of a two-instance workload carries exactly the two `<connection>?port=<P>` arguments. |
| Scenarios.UnixSocketVolume | internal/workload/podspec_updates_test.go:915-1003 | Two sockets in one directory: the update succeeds. The template gains exactly one `emptyDir` volume. The application container mounts it at the directory and reads each socket path from its variable. The sidecar carries exactly the two `unix-socket-path` arguments. |
| Scenarios.TemplateAnnotations | internal/workload/podspec_updates_test.go:838-876 | Two live workloads and one deleted one, on a template without annotations. The resulting annotations are exactly the two live workloads' entries. |
| Scenarios.StampLive | internal/workload/podspec_updates_test.go:838-876 | When the only live matches are two workloads, stamping an empty map gives exactly their two entries. |

## Left out

- Kube.LookupEnv: the contract says only that a variable with the returned value is present. It does not say that the value comes from the first variable with that name, which the function's definition and the lookup helper at lines 86-97 both do.
- The implementation file of the updater is not part of this model. Where the tests are silent, the model's own choices are the ones listed below.
- Label-selector matching (`FindMatchingAuthProxyWorkloads`) is not modelled. `ConfigureWorkload` takes the matched workloads as its argument.
- `ValidateCreate` webhook validation is not modelled.
- Kubernetes resource quantities are opaque. Resource requirements are an opaque value copied verbatim.
- YAML logging of the Pod spec is left out.
- RFC 3339 timestamp formatting is left out. A deletion timestamp is an opaque string that is already formatted.
- Go's `int32` and `int64` widths are left out. Ports and generations are unbounded integers, because no test comes near the limits.
- Probes, security context, sidecar container ports and the sidecar's command are not modelled. None of them is observable in the tests; the synthesized sidecar's command is empty.
- The error message texts and the Go error-interface mechanics are left out. A `ConfigError` is a sequence of detail records, each with a code, the workload, the instance index and the subject.
- On error the model still returns the updated template, alongside the error. Callers must not apply it; that rule belongs to them and is not modelled.
- Stale instance variables on application containers are not removed. They stay unless an instance requests the same name again, and the tests do not say otherwise.
- Stale annotations of workloads that no longer match are not removed, for the same reason.
- Socket-volume names are the model's own choice (`csql-socket-<k>`), because the real generated names are not visible.
- Parent directories use a plain "up to the last `/`" rule. Go's `path.Clean` normalisation (`..`, repeated slashes) is not modelled.
- `DefaultHealthCheckPort` and `DefaultProxyImage` are abstract constants, because their values are not visible. `DefaultFirstPort` is 5000, as the tests imply.
- Applied workloads are visited in name order. This is the model's choice, and no test observes the order.
- A sidecar already present in the template is not replaced at its own position. Every `csql-` container is dropped, and the sidecars of the applied workloads are appended after the application containers, in name order. So the template `[csql-default-w, app]` becomes `[app', csql-default-w']`. No test observes the position of a sidecar that already existed. Rebuilding the sidecars keeps the written containers a function of the application containers and the applied workloads alone. Idempotence and the one-sidecar-per-workload count follow from that.
- A workload that supplies a full container still gets its annotation stamped. Its instances are not visited, so they get no port, set no variable and plan no socket volume.
