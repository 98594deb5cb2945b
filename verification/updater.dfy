/**
  The PodSpec updater: reconciles the `AuthProxyWorkload`s that match a workload with
  the workload's Pod template. Deleted workloads are skipped and the rest are visited in
  name order. The updater
  - allocates every instance's port,
  - sets the instances' environment variables and socket-volume mounts on every
    application container,
  - appends one `csql-<namespace>-<name>` sidecar per workload,
  - replaces the planned socket volumes,
  - stamps one annotation per workload,
  and reports port and variable-name conflicts as one aggregate error. Containers whose
  names carry the `csql-` prefix are the updater's own and are regenerated on every call.
 */
module PodSpecUpdater {
  import opened Optional
  import opened Text
  import opened Seqs
  import opened Sorting
  import opened Kube
  import opened Api
  import opened Defaults
  import opened Ports
  import opened CliArgs
  import opened EnvVars
  import PE = ProxyEnv
  import opened Volumes
  import Ann = Annotations

  /** An updater carries the user-agent string the proxies report. */
  datatype Updater = Updater(userAgent: string)

  function NewUpdater(userAgent: string): Updater {
    Updater(userAgent)
  }

  const ContainerPrefix := "csql-"

  /** The deterministic name of a workload's sidecar. */
  function SidecarName(w: AuthProxyWorkload): string {
    ContainerPrefix + w.namespace + "-" + w.name
  }

  predicate IsSidecar(c: Container) {
    HasPrefix(c.name, ContainerPrefix)
  }

  predicate IsApp(c: Container) {
    !IsSidecar(c)
  }

  predicate NotDeleted(w: AuthProxyWorkload) {
    !IsDeleted(w)
  }

  function WorkloadName(w: AuthProxyWorkload): string {
    w.name
  }

  /** The workloads that get a sidecar: the non-deleted ones, by name. */
  function Applied(matches: seq<AuthProxyWorkload>): (r: seq<AuthProxyWorkload>)
    ensures SortedBy(r, WorkloadName)
  {
    SortBy(Filter(matches, NotDeleted), WorkloadName)
  }

  /** A workload gets a sidecar exactly when it matches and is not being deleted. */
  lemma AppliedMembers(matches: seq<AuthProxyWorkload>, w: AuthProxyWorkload)
    ensures w in Applied(matches) <==> w in matches && !IsDeleted(w)
  {
    SortByMembers(Filter(matches, NotDeleted), WorkloadName, w);
    var f := Filter(matches, NotDeleted);
    if w in f {
      var i :| 0 <= i < |f| && f[i] == w;
    }
    if w in matches && !IsDeleted(w) {
      var i :| 0 <= i < |matches| && matches[i] == w;
    }
  }

  /** Everything one update call derives from the template and the workloads, before it writes. */
  datatype Layout = Layout(
    applied: seq<AuthProxyWorkload>,
    apps: seq<Container>,
    refs: seq<InstanceRef>,
    ports: seq<PortAssignment>,
    requests: seq<EnvRequest>,
    merged: Merged,
    plan: Plan)

  function LayoutOf(pod: PodTemplate, matches: seq<AuthProxyWorkload>): (l: Layout)
    ensures |l.ports| == |l.refs|
    ensures forall k :: 0 <= k < |l.refs| ==> (l.ports[k].Socket? <==> IsUnixSocket(l.refs[k].spec))
  {
    var applied := Applied(matches);
    var apps := Filter(pod.containers, IsApp);
    var refs := InstanceRefs(applied);
    var ports := AssignPorts(PortsOf(apps), Specs(refs));
    var requests := Requests(refs, ports);
    Layout(applied, apps, refs, ports, requests, MergeRequests(requests), PlanVolumes(Specs(refs)))
  }

  // ---------------------------------------------------------------------------
  // The sidecar
  // ---------------------------------------------------------------------------

  /** The proxy image: the workload's when it names a non-empty one, the default otherwise. */
  function ImageFor(spec: Option<AuthProxyContainerSpec>): string {
    if spec.Some? && spec.value.image != "" then spec.value.image else DefaultProxyImage
  }

  function ResourcesFor(spec: Option<AuthProxyContainerSpec>): ResourceRequirements {
    if spec.Some? && spec.value.resources.Some? then spec.value.resources.value else NoResources
  }

  /** The instances workload `owner` declares, with their ports, in instance order. */
  function Owned(refs: seq<InstanceRef>, ports: seq<PortAssignment>, owner: nat): seq<(InstanceSpec, PortAssignment)>
    requires |refs| == |ports|
  {
    if |refs| == 0 then []
    else
      (if refs[0].owner == owner then [(refs[0].spec, ports[0])] else [])
      + Owned(refs[1..], ports[1..], owner)
  }

  /** Every instance of the workload is owned. */
  lemma {:induction false} OwnedComplete(refs: seq<InstanceRef>, ports: seq<PortAssignment>, owner: nat, k: nat)
    requires |refs| == |ports| && k < |refs| && refs[k].owner == owner
    ensures (refs[k].spec, ports[k]) in Owned(refs, ports, owner)
  {
    if k > 0 {
      assert refs[1..][k - 1] == refs[k] && ports[1..][k - 1] == ports[k];
      OwnedComplete(refs[1..], ports[1..], owner, k - 1);
    }
  }

  /** Only instances of the workload are owned. */
  lemma {:induction false} OwnedSound(refs: seq<InstanceRef>, ports: seq<PortAssignment>, owner: nat,
                                      x: (InstanceSpec, PortAssignment))
    requires |refs| == |ports| && x in Owned(refs, ports, owner)
    ensures exists k :: 0 <= k < |refs| && refs[k].owner == owner && x == (refs[k].spec, ports[k])
  {
    if refs[0].owner == owner && x == (refs[0].spec, ports[0]) {
    } else {
      OwnedSound(refs[1..], ports[1..], owner, x);
      var k :| 0 <= k < |refs[1..]| && refs[1..][k].owner == owner && x == (refs[1..][k].spec, ports[1..][k]);
      assert refs[k + 1] == refs[1..][k] && ports[k + 1] == ports[1..][k];
    }
  }

  /** The arguments of the instances workload `owner` declares, in instance order. */
  function ArgsFor(refs: seq<InstanceRef>, ports: seq<PortAssignment>, owner: nat): seq<string>
    requires |refs| == |ports|
  {
    var own := Owned(refs, ports, owner);
    seq(|own|, i requires 0 <= i < |own| => InstanceArg(own[i].0, own[i].1))
  }

  /** The sidecar's arguments are exactly those of the workload's instances. */
  lemma ArgsForMembers(refs: seq<InstanceRef>, ports: seq<PortAssignment>, owner: nat)
    requires |refs| == |ports|
    ensures forall k :: 0 <= k < |refs| && refs[k].owner == owner ==>
      InstanceArg(refs[k].spec, ports[k]) in ArgsFor(refs, ports, owner)
    ensures forall a :: a in ArgsFor(refs, ports, owner) ==>
      exists k :: 0 <= k < |refs| && refs[k].owner == owner && a == InstanceArg(refs[k].spec, ports[k])
  {
    forall k | 0 <= k < |refs| && refs[k].owner == owner
      ensures InstanceArg(refs[k].spec, ports[k]) in ArgsFor(refs, ports, owner)
    {
      ArgsForHas(refs, ports, owner, k);
    }
    forall a | a in ArgsFor(refs, ports, owner)
      ensures exists k :: 0 <= k < |refs| && refs[k].owner == owner && a == InstanceArg(refs[k].spec, ports[k])
    {
      var i :| 0 <= i < |ArgsFor(refs, ports, owner)| && ArgsFor(refs, ports, owner)[i] == a;
      ArgsForFrom(refs, ports, owner, i);
    }
  }

  lemma {:induction false} ArgsForHas(refs: seq<InstanceRef>, ports: seq<PortAssignment>, owner: nat, k: nat)
    requires |refs| == |ports| && k < |refs| && refs[k].owner == owner
    ensures InstanceArg(refs[k].spec, ports[k]) in ArgsFor(refs, ports, owner)
  {
    var own := Owned(refs, ports, owner);
    OwnedComplete(refs, ports, owner, k);
    var i :| 0 <= i < |own| && own[i] == (refs[k].spec, ports[k]);
    assert ArgsFor(refs, ports, owner)[i] == InstanceArg(own[i].0, own[i].1);
  }

  lemma {:induction false} ArgsForFrom(refs: seq<InstanceRef>, ports: seq<PortAssignment>, owner: nat, i: nat)
    requires |refs| == |ports| && i < |ArgsFor(refs, ports, owner)|
    ensures exists k :: 0 <= k < |refs| && refs[k].owner == owner && ArgsFor(refs, ports, owner)[i] == InstanceArg(refs[k].spec, ports[k])
  {
    var own := Owned(refs, ports, owner);
    OwnedSound(refs, ports, owner, own[i]);
    var k :| 0 <= k < |refs| && refs[k].owner == owner && own[i] == (refs[k].spec, ports[k]);
    assert ArgsFor(refs, ports, owner)[i] == InstanceArg(refs[k].spec, ports[k]);
  }

  /** The instance specs workload `owner` declares. */
  function SpecsFor(refs: seq<InstanceRef>, owner: nat): seq<InstanceSpec> {
    if |refs| == 0 then []
    else (if refs[0].owner == owner then [refs[0].spec] else []) + SpecsFor(refs[1..], owner)
  }

  /** Every instance of the workload is among its specs. */
  lemma {:induction false} SpecsForHas(refs: seq<InstanceRef>, owner: nat, k: nat)
    requires k < |refs| && refs[k].owner == owner
    ensures refs[k].spec in SpecsFor(refs, owner)
  {
    if k > 0 {
      assert refs[1..][k - 1] == refs[k];
      SpecsForHas(refs[1..], owner, k - 1);
    }
  }

  /**
    The sidecar of the workload at position `owner`: the workload's own container under
    the sidecar name when it supplies one, otherwise a synthesized proxy container.
   */
  function Sidecar(u: Updater, w: AuthProxyWorkload, owner: nat, l: Layout): (c: Container)
    requires |l.ports| == |l.refs|
    ensures c.name == SidecarName(w)
  {
    var spec := w.authProxyContainer;
    if !Synthesized(w) then
      spec.value.container.value.(name := SidecarName(w))
    else
      Container(
        SidecarName(w),
        ImageFor(spec),
        [],
        ArgsFor(l.refs, l.ports, owner),
        [],
        PE.ContainerEnv(u.userAgent, spec),
        SidecarMounts(l.plan, SpecsFor(l.refs, owner)),
        ResourcesFor(spec))
  }

  // ---------------------------------------------------------------------------
  // Errors
  // ---------------------------------------------------------------------------

  function PortErrors(refs: seq<InstanceRef>, ports: seq<PortAssignment>): (r: seq<ConfigErrorDetail>)
    requires |refs| == |ports|
    ensures forall e :: e in r ==> e.errorCode == PortConflict
    ensures |r| > 0 <==> AnyConflict(ports)
  {
    if |refs| == 0 then []
    else
      var rest := PortErrors(refs[1..], ports[1..]);
      assert AnyConflict(ports) <==> (ports[0].Tcp? && ports[0].conflict) || AnyConflict(ports[1..]) by {
        if AnyConflict(ports[1..]) {
          var i :| 0 <= i < |ports[1..]| && ports[1..][i].Tcp? && ports[1..][i].conflict;
          assert ports[i + 1] == ports[1..][i];
        }
        if AnyConflict(ports) && !(ports[0].Tcp? && ports[0].conflict) {
          var i :| 0 <= i < |ports| && ports[i].Tcp? && ports[i].conflict;
          assert ports[1..][i - 1] == ports[i];
        }
      }
      var r0 := refs[0];
      (match ports[0]
       case Tcp(p, true) => [ConfigErrorDetail(PortConflict, r0.namespace, r0.name, r0.index, Decimal(p))]
       case _ => [])
      + rest
  }

  /** The detail reporting a request whose variable name was already taken. */
  function EnvConflictDetail(c: EnvRequest): ConfigErrorDetail {
    ConfigErrorDetail(EnvConflict, c.ref.namespace, c.ref.name, c.ref.index, c.v.name)
  }

  function EnvErrors(conflicts: seq<EnvRequest>): (r: seq<ConfigErrorDetail>)
    ensures |r| == |conflicts|
    ensures forall i :: 0 <= i < |r| ==> r[i] == EnvConflictDetail(conflicts[i])
  {
    seq(|conflicts|, i requires 0 <= i < |conflicts| => EnvConflictDetail(conflicts[i]))
  }

  /**
    The variable-conflict details of a merge name exactly the requests (workload,
    instance index, variable) whose variable name an earlier request already asked for.
   */
  lemma EnvErrorsRepeats(reqs: seq<EnvRequest>)
    ensures forall e :: e in EnvErrors(MergeRequests(reqs).conflicts) ==>
      exists j :: 0 <= j < |reqs| && Repeats(reqs, j) &&
        e == ConfigErrorDetail(EnvConflict, reqs[j].ref.namespace, reqs[j].ref.name, reqs[j].ref.index, reqs[j].v.name)
    ensures forall j :: 0 <= j < |reqs| && Repeats(reqs, j) ==>
      ConfigErrorDetail(EnvConflict, reqs[j].ref.namespace, reqs[j].ref.name, reqs[j].ref.index, reqs[j].v.name)
        in EnvErrors(MergeRequests(reqs).conflicts)
  {
    var cs := MergeRequests(reqs).conflicts;
    var errs := EnvErrors(cs);
    forall e | e in errs
      ensures exists j :: 0 <= j < |reqs| && Repeats(reqs, j) && e == EnvConflictDetail(reqs[j])
    {
      var i :| 0 <= i < |errs| && errs[i] == e;
      assert cs[i] in cs;
    }
    forall j | 0 <= j < |reqs| && Repeats(reqs, j)
      ensures EnvConflictDetail(reqs[j]) in errs
    {
      var i :| 0 <= i < |cs| && cs[i] == reqs[j];
      assert errs[i] == EnvConflictDetail(reqs[j]);
    }
  }

  function Errors(l: Layout): seq<ConfigErrorDetail>
    requires |l.ports| == |l.refs|
  {
    PortErrors(l.refs, l.ports) + EnvErrors(l.merged.conflicts)
  }

  // ---------------------------------------------------------------------------
  // The update
  // ---------------------------------------------------------------------------

  /** An application container with the instance variables set and the socket volumes mounted. */
  function UpdateApp(c: Container, l: Layout): Container {
    WithMounts(c.(env := SetEnv(c.env, l.merged.vars)), l.plan.mounts)
  }

  datatype Configured = Configured(pod: PodTemplate, err: Option<ConfigError>)

  /** The application containers, updated in place. */
  function UpdatedApps(l: Layout): seq<Container> {
    seq(|l.apps|, i requires 0 <= i < |l.apps| => UpdateApp(l.apps[i], l))
  }

  /** One sidecar per applied workload, in order. */
  function Sidecars(u: Updater, l: Layout): seq<Container>
    requires |l.ports| == |l.refs|
  {
    seq(|l.applied|, o requires 0 <= o < |l.applied| => Sidecar(u, l.applied[o], o, l))
  }

  /**
    One update call. The template is always rewritten; a non-`None` error tells the
    caller not to apply it.
   */
  function ConfigureWorkload(u: Updater, pod: PodTemplate, matches: seq<AuthProxyWorkload>): (r: Configured)
    ensures |r.pod.containers| == |Filter(pod.containers, IsApp)| + |Applied(matches)|
    ensures r.pod.annotations.Keys == pod.annotations.Keys + Ann.Keys(Applied(matches))
  {
    var l := LayoutOf(pod, matches);
    var errs := Errors(l);
    Configured(
      PodTemplate(UpdatedApps(l) + Sidecars(u, l), WithVolumes(pod.volumes, l.plan), Ann.StampAll(pod.annotations, l.applied)),
      if |errs| == 0 then None else Some(ConfigError(errs)))
  }
}
