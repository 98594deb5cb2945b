/**
  The `AuthProxyWorkload` custom resource as the updater reads it, and the structured
  error it reports. Label selectors are not part of this model: the caller passes the
  workloads that already match the Pod.
 */
module Api {
  import opened Optional
  import opened Kube

  /** One database instance the proxy connects to. Empty strings stand for unset names. */
  datatype InstanceSpec = InstanceSpec(
    connectionString: string,
    port: Option<int>,
    portEnvName: string,
    hostEnvName: string,
    unixSocketPath: string,
    unixSocketPathEnvName: string,
    autoIAMAuthN: Option<bool>,
    privateIP: Option<bool>)

  datatype AdminServerSpec = AdminServerSpec(port: int, enableAPIs: seq<string>)

  datatype TelemetrySpec = TelemetrySpec(httpPort: Option<int>)

  /** Container-level settings of the proxy sidecar; `container`, when present, replaces the synthesized one. */
  datatype AuthProxyContainerSpec = AuthProxyContainerSpec(
    image: string,
    resources: Option<ResourceRequirements>,
    container: Option<Container>,
    maxConnections: Option<int>,
    maxSigtermDelay: Option<int>,
    adminServer: Option<AdminServerSpec>,
    telemetry: Option<TelemetrySpec>,
    sqlAdminAPIEndpoint: string)

  /** A point-in-time snapshot of one `AuthProxyWorkload`; the deletion timestamp is pre-formatted. */
  datatype AuthProxyWorkload = AuthProxyWorkload(
    name: string,
    namespace: string,
    generation: int,
    deletionTimestamp: Option<string>,
    instances: seq<InstanceSpec>,
    authProxyContainer: Option<AuthProxyContainerSpec>)

  predicate IsDeleted(w: AuthProxyWorkload) {
    w.deletionTimestamp.Some?
  }

  /** The proxy container is synthesized, not supplied whole by the workload. */
  predicate Synthesized(w: AuthProxyWorkload) {
    !(w.authProxyContainer.Some? && w.authProxyContainer.value.container.Some?)
  }

  /** An instance that connects through a Unix socket rather than a TCP port. */
  predicate IsUnixSocket(s: InstanceSpec) {
    s.unixSocketPath != ""
  }

  datatype ErrorCode = PortConflict | EnvConflict

  /**
    One detected problem: its code, the workload and instance index it came from, and the
    port or variable name at stake.
   */
  datatype ConfigErrorDetail = ConfigErrorDetail(
    errorCode: ErrorCode,
    workloadNamespace: string,
    workloadName: string,
    instanceIndex: nat,
    subject: string)

  /** The aggregate error of one update call. */
  datatype ConfigError = ConfigError(details: seq<ConfigErrorDetail>) {

    function DetailedErrors(): seq<ConfigErrorDetail> {
      details
    }

    /** The distinct codes among the details. */
    function Codes(): (r: set<ErrorCode>)
      ensures forall i :: 0 <= i < |details| ==> details[i].errorCode in r
      ensures forall c :: c in r ==> exists i :: 0 <= i < |details| && details[i].errorCode == c
    {
      set i | 0 <= i < |details| :: details[i].errorCode
    }
  }

  /**
    One instance of one workload, in the order the updater visits them: `owner` is the
    workload's position in the applied list, `index` the instance's position in it.
   */
  datatype InstanceRef = InstanceRef(
    owner: nat,
    namespace: string,
    name: string,
    index: nat,
    spec: InstanceSpec)

  /** The specs of the instances, in order. */
  function Specs(refs: seq<InstanceRef>): (r: seq<InstanceSpec>)
    ensures |r| == |refs|
    ensures forall k :: 0 <= k < |refs| ==> r[k] == refs[k].spec
  {
    seq(|refs|, k requires 0 <= k < |refs| => refs[k].spec)
  }

  /** The instances of `w`, which sits at position `owner`. */
  function RefsOf(owner: nat, w: AuthProxyWorkload): (r: seq<InstanceRef>)
    ensures |r| == |w.instances|
    ensures forall i :: 0 <= i < |r| ==>
      r[i] == InstanceRef(owner, w.namespace, w.name, i, w.instances[i])
  {
    seq(|w.instances|, i requires 0 <= i < |w.instances| =>
      InstanceRef(owner, w.namespace, w.name, i, w.instances[i]))
  }

  /**
    Every instance of every workload whose container is synthesized, workload by
    workload, instance by instance. A workload that supplies its whole container runs no
    argument, variable or volume synthesis, so its instances take part in none of it.
   */
  function InstanceRefs(ws: seq<AuthProxyWorkload>): (r: seq<InstanceRef>)
    ensures forall k :: 0 <= k < |r| ==>
      && r[k].owner < |ws|
      && Synthesized(ws[r[k].owner])
      && r[k].index < |ws[r[k].owner].instances|
      && r[k] == InstanceRef(r[k].owner, ws[r[k].owner].namespace, ws[r[k].owner].name,
                             r[k].index, ws[r[k].owner].instances[r[k].index])
    decreases |ws|
  {
    if |ws| == 0 then []
    else
      var last := |ws| - 1;
      var init := InstanceRefs(ws[..last]);
      assert forall k :: 0 <= k < |init| ==> ws[..last][init[k].owner] == ws[init[k].owner];
      init + (if Synthesized(ws[last]) then RefsOf(last, ws[last]) else [])
  }

  /**
    An instance of a listed workload is visited exactly when that workload's container is
    synthesized.
   */
  lemma {:induction false} InstanceRefsMembers(ws: seq<AuthProxyWorkload>, o: nat, i: nat)
    requires o < |ws| && i < |ws[o].instances|
    ensures InstanceRef(o, ws[o].namespace, ws[o].name, i, ws[o].instances[i]) in InstanceRefs(ws)
        <==> Synthesized(ws[o])
    decreases |ws|
  {
    var x := InstanceRef(o, ws[o].namespace, ws[o].name, i, ws[o].instances[i]);
    var last := |ws| - 1;
    var init := InstanceRefs(ws[..last]);
    if o == last {
      if Synthesized(ws[o]) {
        assert RefsOf(last, ws[last])[i] == x;
        assert InstanceRefs(ws)[|init| + i] == x;
      }
    } else if Synthesized(ws[o]) {
      assert ws[..last][o] == ws[o];
      InstanceRefsMembers(ws[..last], o, i);
      var k :| 0 <= k < |init| && init[k] == x;
      assert InstanceRefs(ws)[k] == x;
    }
  }

  /** With a single workload, the instances are visited exactly in declaration order. */
  lemma InstanceRefsOfOne(w: AuthProxyWorkload)
    requires Synthesized(w)
    ensures InstanceRefs([w]) == RefsOf(0, w)
  {
    assert [w][..0] == [];
  }
}
