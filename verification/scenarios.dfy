/**
  The updater's documented behaviour on the situations its unit tests set up: one
  application container and one workload in the Pod's namespace. Each scenario is stated
  for every input of the described shape rather than for one literal value.
 */
module Scenarios {
  import opened Optional
  import opened Text
  import opened Seqs
  import opened Sorting
  import opened Kube
  import opened Api
  import opened Defaults
  import opened Ports
  import opened CliArgs
  import opened EnvVars
  import opened Volumes
  import Ann = Annotations
  import opened PodSpecUpdater
  import opened UpdaterProperties

  /** A single live workload is applied alone, with its instances in declaration order. */
  lemma {:induction false} SingleWorkload(w: AuthProxyWorkload)
    requires !IsDeleted(w) && Synthesized(w)
    ensures Applied([w]) == [w]
    ensures AppliedRefs([w]) == RefsOf(0, w)
    ensures AppliedSpecs([w]) == w.instances
  {
    assert [w][1..] == [];
    assert Filter([w], NotDeleted) == [w];
    SortByOne(w, WorkloadName);
    InstanceRefsOfOne(w);
  }

  /** A single live workload that supplies its own container is applied alone and contributes no instance. */
  lemma {:induction false} SingleOverride(w: AuthProxyWorkload)
    requires !IsDeleted(w) && !Synthesized(w)
    ensures Applied([w]) == [w]
    ensures AppliedRefs([w]) == []
    ensures AppliedSpecs([w]) == []
  {
    assert [w][1..] == [];
    assert Filter([w], NotDeleted) == [w];
    SortByOne(w, WorkloadName);
    assert [w][..0] == [];
    assert InstanceRefs([w]) == InstanceRefs([]) + [];
  }

  /** A template holding one application container. */
  function OneApp(app: Container): PodTemplate {
    PodTemplate([app], [], map[])
  }

  lemma {:induction false} OneAppParts(app: Container)
    requires IsApp(app)
    ensures AppsOf(OneApp(app)) == [app]
    ensures PortsOf(AppsOf(OneApp(app))) == PortsOf([app])
  {
    assert [app][1..] == [];
  }

  /** A TCP instance without optional flags. */
  predicate PlainTcp(s: InstanceSpec) {
    !IsUnixSocket(s) && s.autoIAMAuthN.None? && s.privateIP.None?
  }

  /**
    A workload that supplies its own container gets it, renamed, as its sidecar, and its
    instances are not looked at: the update succeeds whatever ports or variables they
    name, and no socket volume is planned.
   */
  lemma {:induction false} OverrideIgnoresInstances(u: Updater, app: Container, w: AuthProxyWorkload)
    requires IsApp(app) && !IsDeleted(w) && !Synthesized(w)
    ensures var r := ConfigureWorkload(u, OneApp(app), [w]);
      && r.err.None?
      && |r.pod.containers| == 2
      && r.pod.containers[1] == w.authProxyContainer.value.container.value.(name := SidecarName(w))
      && r.pod.volumes == []
  {
    SingleOverride(w);
    OneAppParts(app);
    ErrorsReport(u, OneApp(app), [w]);
    OverrideSidecar(u, OneApp(app), [w], 0);
    PodAfterUpdate(u, OneApp(app), [w]);
  }

  /** The sidecar sits right after the application container, and the name lookup finds it. */
  lemma {:induction false} SidecarSecond(u: Updater, pod: PodTemplate, matches: seq<AuthProxyWorkload>,
                                         app: Container, w: AuthProxyWorkload)
    requires AppsOf(pod) == [app] && Applied(matches) == [w]
    ensures var r := ConfigureWorkload(u, pod, matches).pod.containers;
      |r| == 2 && FindContainer(r, SidecarName(w)) == Some(r[1])
  {
    SidecarAt(u, pod, matches, 0);
    ContainersKept(u, pod, matches, 0);
    assert IsApp(AppsOf(pod)[0]);
    FindSecond(ConfigureWorkload(u, pod, matches).pod.containers, app, w);
  }

  lemma FindSecond(r: seq<Container>, app: Container, w: AuthProxyWorkload)
    requires IsApp(app) && |r| == 2 && r[0].name == app.name && r[1].name == SidecarName(w)
    ensures FindContainer(r, SidecarName(w)) == Some(r[1])
  {
    SidecarNameIsManaged(w);
    assert r[0].name != SidecarName(w);
  }

  /**
    One workload with one TCP instance that asks for its host and port variables: the
    update succeeds, the sidecar carries `conn?port=P`, and the application container reads
    `127.0.0.1` and `P`, where `P` is the instance's own port or, when it names none,
    `DefaultFirstPort`.
   */
  lemma {:induction false} TcpInstance(u: Updater, app: Container, w: AuthProxyWorkload, s: InstanceSpec)
    requires IsApp(app) && !IsDeleted(w) && Synthesized(w)
    requires w.instances == [s] && PlainTcp(s)
    requires s.hostEnvName != "" && s.portEnvName != "" && s.hostEnvName != s.portEnvName
    requires s.port.Some? ==> s.port.value !in PortsOf([app])
    requires s.port.None? ==> DefaultFirstPort !in PortsOf([app])
    ensures var r := ConfigureWorkload(u, OneApp(app), [w]);
      var p := if s.port.Some? then s.port.value else DefaultFirstPort;
      && r.err.None?
      && |r.pod.containers| == 2
      && FindContainer(r.pod.containers, SidecarName(w)) == Some(r.pod.containers[1])
      && s.connectionString + "?port=" + Decimal(p) in r.pod.containers[1].args
      && LookupEnv(r.pod.containers[0].env, s.hostEnvName) == Some(LoopbackAddress)
      && LookupEnv(r.pod.containers[0].env, s.portEnvName) == Some(Decimal(p))
  {
    SingleWorkload(w);
    OneAppParts(app);
    TcpInstanceIn(u, OneApp(app), [w], app, w, s, if s.port.Some? then s.port.value else DefaultFirstPort);
  }

  lemma {:induction false} TcpInstanceIn(u: Updater, pod: PodTemplate, matches: seq<AuthProxyWorkload>,
                                         app: Container, w: AuthProxyWorkload, s: InstanceSpec, p: int)
    requires AppsOf(pod) == [app] && Applied(matches) == [w] && AppliedRefs(matches) == RefsOf(0, w)
    requires AppliedSpecs(matches) == [s] && w.instances == [s] && Synthesized(w) && PlainTcp(s)
    requires s.hostEnvName != "" && s.portEnvName != "" && s.hostEnvName != s.portEnvName
    requires s.port.Some? ==> s.port.value !in PortsOf([app])
    requires s.port.None? ==> DefaultFirstPort !in PortsOf([app])
    requires p == if s.port.Some? then s.port.value else DefaultFirstPort
    ensures ConfigureWorkload(u, pod, matches).err.None?
    ensures |ConfigureWorkload(u, pod, matches).pod.containers| == 2
    ensures FindContainer(ConfigureWorkload(u, pod, matches).pod.containers, SidecarName(w))
         == Some(ConfigureWorkload(u, pod, matches).pod.containers[1])
    ensures s.connectionString + "?port=" + Decimal(p) in ConfigureWorkload(u, pod, matches).pod.containers[1].args
    ensures LookupEnv(ConfigureWorkload(u, pod, matches).pod.containers[0].env, s.hostEnvName) == Some(LoopbackAddress)
    ensures LookupEnv(ConfigureWorkload(u, pod, matches).pod.containers[0].env, s.portEnvName) == Some(Decimal(p))
  {
    SidecarSecond(u, pod, matches, app, w);
    TcpPort(pod, matches, app, s);
    assert AppliedPorts(pod, matches)[0].port == p;
    TcpNoError(u, pod, matches, app, s);
    TcpEnv(u, pod, matches, s);
    TcpArg(u, pod, matches, w, s);
  }

  lemma {:induction false} TcpNoError(u: Updater, pod: PodTemplate, matches: seq<AuthProxyWorkload>,
                                      app: Container, s: InstanceSpec)
    requires AppsOf(pod) == [app] && AppliedSpecs(matches) == [s] && !IsUnixSocket(s)
    requires s.hostEnvName != s.portEnvName
    requires s.port.Some? ==> s.port.value !in PortsOf([app])
    ensures ConfigureWorkload(u, pod, matches).err.None?
  {
    OneTcpClean(PortsOf([app]), s);
    ErrorsReport(u, pod, matches);
  }

  /** A lone TCP instance with two different variable names and a free port has nothing to clash with. */
  lemma OneTcpClean(ports: set<int>, s: InstanceSpec)
    requires !IsUnixSocket(s) && s.hostEnvName != s.portEnvName
    requires s.port.Some? ==> s.port.value !in ports
    ensures Distinct(AllRequestedNames([s])) && !HasPortConflict(ports, [s])
  {
    OneInstance(ports, s);
  }

  lemma {:induction false} TcpEnv(u: Updater, pod: PodTemplate, matches: seq<AuthProxyWorkload>, s: InstanceSpec)
    requires |AppsOf(pod)| > 0 && AppliedSpecs(matches) == [s] && !IsUnixSocket(s)
    requires s.hostEnvName != "" && s.portEnvName != "" && s.hostEnvName != s.portEnvName
    requires |AppliedPorts(pod, matches)| == 1 && AppliedPorts(pod, matches)[0].Tcp?
    ensures var c := ConfigureWorkload(u, pod, matches).pod.containers[0];
      && LookupEnv(c.env, s.hostEnvName) == Some(LoopbackAddress)
      && LookupEnv(c.env, s.portEnvName) == Some(Decimal(AppliedPorts(pod, matches)[0].port))
  {
    var p := AppliedPorts(pod, matches)[0].port;
    TcpVars(s, AppliedPorts(pod, matches)[0]);
    InstanceVarOnApp(u, pod, matches, 0, 0, EnvVar(s.hostEnvName, LoopbackAddress));
    InstanceVarOnApp(u, pod, matches, 0, 0, EnvVar(s.portEnvName, Decimal(p)));
  }

  /** A TCP instance asking for two different names gets both variables, and no name twice. */
  lemma TcpVars(s: InstanceSpec, a: PortAssignment)
    requires !IsUnixSocket(s) && a.Tcp?
    requires s.hostEnvName != "" && s.portEnvName != "" && s.hostEnvName != s.portEnvName
    ensures Distinct(AllRequestedNames([s]))
    ensures EnvVar(s.hostEnvName, LoopbackAddress) in InstanceEnv(s, a)
    ensures EnvVar(s.portEnvName, Decimal(a.port)) in InstanceEnv(s, a)
  {
    assert [s][1..] == [];
  }

  lemma {:induction false} TcpArg(u: Updater, pod: PodTemplate, matches: seq<AuthProxyWorkload>,
                                  w: AuthProxyWorkload, s: InstanceSpec)
    requires Applied(matches) == [w] && AppliedRefs(matches) == RefsOf(0, w) && w.instances == [s]
    requires Synthesized(w) && PlainTcp(s)
    requires |AppliedPorts(pod, matches)| == 1 && AppliedPorts(pod, matches)[0].Tcp?
    ensures var p := AppliedPorts(pod, matches)[0];
      s.connectionString + "?port=" + Decimal(p.port)
        in ConfigureWorkload(u, pod, matches).pod.containers[|AppsOf(pod)|].args
  {
    var p := AppliedPorts(pod, matches)[0];
    SynthesizedArgsAt(u, pod, matches, 0);
    OneArgFor(AppliedRefs(matches), AppliedPorts(pod, matches), w);
    PlainTcpArg(s, p.port, p.conflict);
  }

  /** The arguments of a lone workload with one instance include that instance's argument. */
  lemma OneArgFor(refs: seq<InstanceRef>, ports: seq<PortAssignment>, w: AuthProxyWorkload)
    requires refs == RefsOf(0, w) && |w.instances| == 1 && |ports| == 1
    ensures InstanceArg(w.instances[0], ports[0]) in ArgsFor(refs, ports, 0)
  {
    ArgsForHas(refs, ports, 0, 0);
  }

  lemma {:induction false} TcpPort(pod: PodTemplate, matches: seq<AuthProxyWorkload>, app: Container, s: InstanceSpec)
    requires AppsOf(pod) == [app] && AppliedSpecs(matches) == [s] && !IsUnixSocket(s)
    requires s.port.Some? ==> s.port.value !in PortsOf([app])
    requires s.port.None? ==> DefaultFirstPort !in PortsOf([app])
    ensures AppliedPorts(pod, matches) == [Tcp(if s.port.Some? then s.port.value else DefaultFirstPort, false)]
  {
    var ports := AppliedPorts(pod, matches);
    if s.port.Some? {
      assert ExplicitPort([s][0]).Some?;
      assert ExplicitPorts([s][..0]) == {};
    } else {
      DefaultPortsConsecutive(PortsOf([app]), [s]);
    }
  }

  // ---------------------------------------------------------------------------
  // Two instances in one workload
  // ---------------------------------------------------------------------------

  /**
    For two instances, the names asked for are those of the first then the second, and the
    ports clash exactly when one names a container's port or both name the same port.
   */
  lemma {:induction false} TwoInstances(ports: set<int>, s1: InstanceSpec, s2: InstanceSpec)
    ensures AllRequestedNames([s1, s2]) == RequestedNames(s1) + RequestedNames(s2)
    ensures HasPortConflict(ports, [s1, s2]) <==>
      || (ExplicitPort(s1).Some? && ExplicitPort(s1).value in ports)
      || (ExplicitPort(s2).Some? && (ExplicitPort(s2).value in ports || ExplicitPort(s2) == ExplicitPort(s1)))
  {
    var specs := [s1, s2];
    assert specs[1..] == [s2];
    assert specs[1..][1..] == [];
    assert AllRequestedNames([s2]) == RequestedNames(s2) + AllRequestedNames([]);
    if ExplicitPort(s1).Some? && ExplicitPort(s1).value in ports {
      assert ClashesAt(ports, specs, 0);
    }
    if ExplicitPort(s2).Some? && (ExplicitPort(s2).value in ports || ExplicitPort(s2) == ExplicitPort(s1)) {
      assert ExplicitPort(specs[0]) == ExplicitPort(s1);
      assert ClashesAt(ports, specs, 1);
    }
    if HasPortConflict(ports, specs) {
      var i :| 0 <= i < 2 && ClashesAt(ports, specs, i);
      if i == 1 && ExplicitPort(s2).value !in ports {
        var j :| 0 <= j < 1 && ExplicitPort(specs[j]) == ExplicitPort(specs[1]);
        assert j == 0;
      }
    }
  }

  /** One instance clashes exactly when it names a port a container already uses. */
  lemma {:induction false} OneInstance(ports: set<int>, s: InstanceSpec)
    ensures AllRequestedNames([s]) == RequestedNames(s)
    ensures HasPortConflict(ports, [s]) <==> ExplicitPort(s).Some? && ExplicitPort(s).value in ports
  {
    assert [s][1..] == [];
    if ExplicitPort(s).Some? && ExplicitPort(s).value in ports {
      assert ClashesAt(ports, [s], 0);
    }
    if HasPortConflict(ports, [s]) {
      var i :| 0 <= i < 1 && ClashesAt(ports, [s], i);
      assert i == 0;
    }
  }

  /**
    Two instances that leave their ports open get `DefaultFirstPort` and the next port,
    and the sidecar's arguments are exactly the two `conn?port=P` arguments.
   */
  lemma {:induction false} ImplicitPortsIncrement(u: Updater, app: Container, w: AuthProxyWorkload,
                                                  s1: InstanceSpec, s2: InstanceSpec)
    requires IsApp(app) && !IsDeleted(w) && Synthesized(w)
    requires w.instances == [s1, s2] && PlainTcp(s1) && PlainTcp(s2) && s1.port.None? && s2.port.None?
    requires DefaultFirstPort !in PortsOf([app]) && DefaultFirstPort + 1 !in PortsOf([app])
    ensures var args := ConfigureWorkload(u, OneApp(app), [w]).pod.containers[1].args;
      var a1 := s1.connectionString + "?port=" + Decimal(DefaultFirstPort);
      var a2 := s2.connectionString + "?port=" + Decimal(DefaultFirstPort + 1);
      && a1 in args && a2 in args
      && forall a :: a in args ==> a == a1 || a == a2
  {
    SingleWorkload(w);
    OneAppParts(app);
    ImplicitPortsIn(u, OneApp(app), [w], app, w, s1, s2);
  }

  lemma {:induction false} ImplicitPortsIn(u: Updater, pod: PodTemplate, matches: seq<AuthProxyWorkload>,
                                           app: Container, w: AuthProxyWorkload, s1: InstanceSpec, s2: InstanceSpec)
    requires AppsOf(pod) == [app] && Applied(matches) == [w] && AppliedRefs(matches) == RefsOf(0, w)
    requires AppliedSpecs(matches) == [s1, s2] && w.instances == [s1, s2] && Synthesized(w)
    requires PlainTcp(s1) && PlainTcp(s2) && s1.port.None? && s2.port.None?
    requires DefaultFirstPort !in PortsOf([app]) && DefaultFirstPort + 1 !in PortsOf([app])
    ensures var args := ConfigureWorkload(u, pod, matches).pod.containers[1].args;
      var a1 := s1.connectionString + "?port=" + Decimal(DefaultFirstPort);
      var a2 := s2.connectionString + "?port=" + Decimal(DefaultFirstPort + 1);
      && a1 in args && a2 in args
      && forall a :: a in args ==> a == a1 || a == a2
  {
    TwoDefaultPorts(pod, matches, app, s1, s2);
    SynthesizedArgsAt(u, pod, matches, 0);
    TwoArgs(AppliedRefs(matches), AppliedPorts(pod, matches), w, s1, s2, DefaultFirstPort, DefaultFirstPort + 1);
  }

  lemma {:induction false} TwoDefaultPorts(pod: PodTemplate, matches: seq<AuthProxyWorkload>,
                                           app: Container, s1: InstanceSpec, s2: InstanceSpec)
    requires AppsOf(pod) == [app] && AppliedSpecs(matches) == [s1, s2] && IsImplicit(s1) && IsImplicit(s2)
    requires DefaultFirstPort !in PortsOf([app]) && DefaultFirstPort + 1 !in PortsOf([app])
    ensures AppliedPorts(pod, matches) == [Tcp(DefaultFirstPort, false), Tcp(DefaultFirstPort + 1, false)]
  {
    DefaultPortsConsecutive(PortsOf([app]), [s1, s2]);
  }

  /** A lone workload with two flagless TCP instances passes exactly their two arguments. */
  lemma {:induction false} TwoArgs(refs: seq<InstanceRef>, ports: seq<PortAssignment>,
                                   w: AuthProxyWorkload, s1: InstanceSpec, s2: InstanceSpec, p1: int, p2: int)
    requires refs == RefsOf(0, w) && w.instances == [s1, s2] && PlainTcp(s1) && PlainTcp(s2)
    requires ports == [Tcp(p1, false), Tcp(p2, false)]
    ensures var args := ArgsFor(refs, ports, 0);
      var a1 := s1.connectionString + "?port=" + Decimal(p1);
      var a2 := s2.connectionString + "?port=" + Decimal(p2);
      a1 in args && a2 in args && forall a :: a in args ==> a == a1 || a == a2
  {
    PlainTcpArg(s1, p1, false);
    PlainTcpArg(s2, p2, false);
    PairArgsFor(refs, ports, w, s1.connectionString + "?port=" + Decimal(p1), s2.connectionString + "?port=" + Decimal(p2));
  }

  /** The arguments of a lone workload with two instances are exactly those two instances' arguments. */
  lemma {:induction false} PairArgsFor(refs: seq<InstanceRef>, ports: seq<PortAssignment>, w: AuthProxyWorkload,
                                       a1: string, a2: string)
    requires refs == RefsOf(0, w) && |w.instances| == 2 && |ports| == 2
    requires InstanceArg(w.instances[0], ports[0]) == a1 && InstanceArg(w.instances[1], ports[1]) == a2
    ensures a1 in ArgsFor(refs, ports, 0) && a2 in ArgsFor(refs, ports, 0)
    ensures forall a :: a in ArgsFor(refs, ports, 0) ==> a == a1 || a == a2
  {
    PairArgsPresent(refs, ports, w, a1, a2);
    PairArgsOnly(refs, ports, w, a1, a2);
  }

  lemma {:induction false} PairArgsPresent(refs: seq<InstanceRef>, ports: seq<PortAssignment>, w: AuthProxyWorkload,
                                           a1: string, a2: string)
    requires refs == RefsOf(0, w) && |w.instances| == 2 && |ports| == 2
    requires InstanceArg(w.instances[0], ports[0]) == a1 && InstanceArg(w.instances[1], ports[1]) == a2
    ensures a1 in ArgsFor(refs, ports, 0) && a2 in ArgsFor(refs, ports, 0)
  {
    assert refs[0].spec == w.instances[0] && refs[1].spec == w.instances[1];
    ArgsForHas(refs, ports, 0, 0);
    ArgsForHas(refs, ports, 0, 1);
  }

  lemma {:induction false} PairArgsOnly(refs: seq<InstanceRef>, ports: seq<PortAssignment>, w: AuthProxyWorkload,
                                        a1: string, a2: string)
    requires refs == RefsOf(0, w) && |w.instances| == 2 && |ports| == 2
    requires InstanceArg(w.instances[0], ports[0]) == a1 && InstanceArg(w.instances[1], ports[1]) == a2
    ensures forall a :: a in ArgsFor(refs, ports, 0) ==> a == a1 || a == a2
  {
    var args := ArgsFor(refs, ports, 0);
    forall i | 0 <= i < |args|
      ensures args[i] == a1 || args[i] == a2
    {
      PairArgAt(refs, ports, w, a1, a2, i);
    }
    EitherOf(args, a1, a2);
  }

  lemma {:induction false} PairArgAt(refs: seq<InstanceRef>, ports: seq<PortAssignment>, w: AuthProxyWorkload,
                                     a1: string, a2: string, i: nat)
    requires refs == RefsOf(0, w) && |w.instances| == 2 && |ports| == 2
    requires InstanceArg(w.instances[0], ports[0]) == a1 && InstanceArg(w.instances[1], ports[1]) == a2
    requires i < |ArgsFor(refs, ports, 0)|
    ensures ArgsFor(refs, ports, 0)[i] == a1 || ArgsFor(refs, ports, 0)[i] == a2
  {
    ArgsForFrom(refs, ports, 0, i);
    var k :| 0 <= k < |refs| && refs[k].owner == 0 && ArgsFor(refs, ports, 0)[i] == InstanceArg(refs[k].spec, ports[k]);
    assert k == 0 || k == 1;
  }

  /** Two instances asking for the same port variable fail the update with a variable conflict only. */
  lemma {:induction false} EnvNameConflict(u: Updater, app: Container, w: AuthProxyWorkload,
                                           s1: InstanceSpec, s2: InstanceSpec)
    requires IsApp(app) && !IsDeleted(w) && Synthesized(w)
    requires w.instances == [s1, s2] && IsImplicit(s1) && IsImplicit(s2)
    requires s1.portEnvName != "" && s1.portEnvName == s2.portEnvName
    ensures var r := ConfigureWorkload(u, OneApp(app), [w]);
      && r.err.Some?
      && EnvConflict in r.err.value.Codes()
      && PortConflict !in r.err.value.Codes()
  {
    SingleWorkload(w);
    OneAppParts(app);
    TwoInstances(PortsOf([app]), s1, s2);
    var n1 := RequestedNames(s1);
    var names := n1 + RequestedNames(s2);
    assert names[|n1| - 1] == names[|names| - 1];
    ErrorsReport(u, OneApp(app), [w]);
  }

  /** Two instances naming the same port fail the update with a port conflict only. */
  lemma {:induction false} InstancePortConflict(u: Updater, app: Container, w: AuthProxyWorkload,
                                                s1: InstanceSpec, s2: InstanceSpec, p: int)
    requires IsApp(app) && !IsDeleted(w) && Synthesized(w)
    requires w.instances == [s1, s2] && !IsUnixSocket(s1) && !IsUnixSocket(s2)
    requires s1.port == Some(p) && s2.port == Some(p)
    requires Distinct(RequestedNames(s1) + RequestedNames(s2))
    ensures var r := ConfigureWorkload(u, OneApp(app), [w]);
      && r.err.Some?
      && PortConflict in r.err.value.Codes()
      && EnvConflict !in r.err.value.Codes()
  {
    SingleWorkload(w);
    OneAppParts(app);
    TwoInstances(PortsOf([app]), s1, s2);
    ErrorsReport(u, OneApp(app), [w]);
  }

  /** An instance naming a port the application container uses fails the update with a port conflict only. */
  lemma {:induction false} ContainerPortConflict(u: Updater, app: Container, w: AuthProxyWorkload, s: InstanceSpec, p: int)
    requires IsApp(app) && !IsDeleted(w) && Synthesized(w)
    requires w.instances == [s] && !IsUnixSocket(s) && s.port == Some(p) && p in PortsOf([app])
    requires Distinct(RequestedNames(s))
    ensures var r := ConfigureWorkload(u, OneApp(app), [w]);
      && r.err.Some?
      && PortConflict in r.err.value.Codes()
      && EnvConflict !in r.err.value.Codes()
  {
    SingleWorkload(w);
    OneAppParts(app);
    OneInstance(PortsOf([app]), s);
    ErrorsReport(u, OneApp(app), [w]);
  }

  // ---------------------------------------------------------------------------
  // Unix sockets
  // ---------------------------------------------------------------------------

  /** A Unix-socket instance without optional flags. */
  predicate PlainSocket(s: InstanceSpec) {
    IsUnixSocket(s) && s.autoIAMAuthN.None? && s.privateIP.None?
  }

  /**
    Two socket instances in one directory, `dir/a` and `dir/b`, with distinct path
    variables, on a template without volumes: the update succeeds; the template gains one
    `emptyDir` volume; the application container mounts it at `dir` and reads each socket
    path from its variable; and the sidecar passes exactly the two `conn?unix-socket-path=PATH`
    arguments.
   */
  lemma {:induction false} UnixSocketVolume(u: Updater, app: Container, w: AuthProxyWorkload,
                                            s1: InstanceSpec, s2: InstanceSpec, dir: string, a: string, b: string)
    requires IsApp(app) && app.volumeMounts == [] && !IsDeleted(w) && Synthesized(w)
    requires w.instances == [s1, s2] && PlainSocket(s1) && PlainSocket(s2)
    requires dir != "" && '/' !in a && '/' !in b
    requires s1.unixSocketPath == dir + "/" + a && s2.unixSocketPath == dir + "/" + b
    requires s1.unixSocketPathEnvName != "" && s2.unixSocketPathEnvName != ""
    requires s1.unixSocketPathEnvName != s2.unixSocketPathEnvName
    ensures ConfigureWorkload(u, OneApp(app), [w]).err.None?
    ensures ConfigureWorkload(u, OneApp(app), [w]).pod.volumes == [Volume(VolumeName(0), EmptyDir)]
    ensures ConfigureWorkload(u, OneApp(app), [w]).pod.containers[0].volumeMounts == [VolumeMount(VolumeName(0), dir)]
    ensures LookupEnv(ConfigureWorkload(u, OneApp(app), [w]).pod.containers[0].env, s1.unixSocketPathEnvName)
         == Some(s1.unixSocketPath)
    ensures LookupEnv(ConfigureWorkload(u, OneApp(app), [w]).pod.containers[0].env, s2.unixSocketPathEnvName)
         == Some(s2.unixSocketPath)
    ensures var args := ConfigureWorkload(u, OneApp(app), [w]).pod.containers[1].args;
      var a1 := s1.connectionString + "?unix-socket-path=" + s1.unixSocketPath;
      var a2 := s2.connectionString + "?unix-socket-path=" + s2.unixSocketPath;
      && a1 in args && a2 in args
      && forall x :: x in args ==> x == a1 || x == a2
  {
    SingleWorkload(w);
    OneAppParts(app);
    var pod := OneApp(app);
    SocketPorts(pod, [w], s1, s2);
    SocketNoError(u, pod, [w], s1, s2);
    SocketVolumes(u, pod, [w], app, s1, s2, dir, a, b);
    SocketEnv(u, pod, [w], s1, s2);
    PlainSocketArg(s1);
    PlainSocketArg(s2);
    SynthesizedArgsAt(u, pod, [w], 0);
    PairArgsFor(AppliedRefs([w]), AppliedPorts(pod, [w]), w,
                s1.connectionString + "?unix-socket-path=" + s1.unixSocketPath,
                s2.connectionString + "?unix-socket-path=" + s2.unixSocketPath);
  }

  lemma {:induction false} SocketPorts(pod: PodTemplate, matches: seq<AuthProxyWorkload>, s1: InstanceSpec, s2: InstanceSpec)
    requires AppliedSpecs(matches) == [s1, s2] && IsUnixSocket(s1) && IsUnixSocket(s2)
    ensures AppliedPorts(pod, matches) == [Socket, Socket]
  {
    var ports := AppliedPorts(pod, matches);
    assert ports[0].Socket? && ports[1].Socket?;
  }

  lemma {:induction false} SocketNoError(u: Updater, pod: PodTemplate, matches: seq<AuthProxyWorkload>,
                                         s1: InstanceSpec, s2: InstanceSpec)
    requires AppliedSpecs(matches) == [s1, s2] && IsUnixSocket(s1) && IsUnixSocket(s2)
    requires s1.unixSocketPathEnvName != "" && s2.unixSocketPathEnvName != ""
    requires s1.unixSocketPathEnvName != s2.unixSocketPathEnvName
    ensures ConfigureWorkload(u, pod, matches).err.None?
  {
    SocketsClean(PortsOf(AppsOf(pod)), s1, s2);
    ErrorsReport(u, pod, matches);
  }

  lemma {:induction false} SocketsClean(ports: set<int>, s1: InstanceSpec, s2: InstanceSpec)
    requires IsUnixSocket(s1) && IsUnixSocket(s2)
    requires s1.unixSocketPathEnvName != "" && s2.unixSocketPathEnvName != ""
    requires s1.unixSocketPathEnvName != s2.unixSocketPathEnvName
    ensures !HasPortConflict(ports, [s1, s2])
    ensures AllRequestedNames([s1, s2]) == [s1.unixSocketPathEnvName, s2.unixSocketPathEnvName]
    ensures Distinct(AllRequestedNames([s1, s2]))
  {
    TwoInstances(ports, s1, s2);
  }

  lemma {:induction false} SocketVolumes(u: Updater, pod: PodTemplate, matches: seq<AuthProxyWorkload>, app: Container,
                                         s1: InstanceSpec, s2: InstanceSpec, dir: string, a: string, b: string)
    requires AppsOf(pod) == [app] && app.volumeMounts == [] && pod.volumes == []
    requires AppliedSpecs(matches) == [s1, s2]
    requires dir != "" && '/' !in a && '/' !in b
    requires s1.unixSocketPath == dir + "/" + a && s2.unixSocketPath == dir + "/" + b
    ensures ConfigureWorkload(u, pod, matches).pod.volumes == [Volume(VolumeName(0), EmptyDir)]
    ensures ConfigureWorkload(u, pod, matches).pod.containers[0].volumeMounts == [VolumeMount(VolumeName(0), dir)]
  {
    SharedDirectory([s1, s2], dir, a, b);
    PodAfterUpdate(u, pod, matches);
    AppMountsAfterUpdate(u, pod, matches, 0);
    assert Filter(pod.volumes, KeepVolume) == [];
    assert Filter(app.volumeMounts, KeepMount) == [];
  }

  lemma {:induction false} SocketEnv(u: Updater, pod: PodTemplate, matches: seq<AuthProxyWorkload>,
                                     s1: InstanceSpec, s2: InstanceSpec)
    requires |AppsOf(pod)| > 0 && AppliedSpecs(matches) == [s1, s2] && IsUnixSocket(s1) && IsUnixSocket(s2)
    requires AppliedPorts(pod, matches) == [Socket, Socket]
    requires s1.unixSocketPathEnvName != "" && s2.unixSocketPathEnvName != ""
    requires s1.unixSocketPathEnvName != s2.unixSocketPathEnvName
    ensures LookupEnv(ConfigureWorkload(u, pod, matches).pod.containers[0].env, s1.unixSocketPathEnvName)
         == Some(s1.unixSocketPath)
    ensures LookupEnv(ConfigureWorkload(u, pod, matches).pod.containers[0].env, s2.unixSocketPathEnvName)
         == Some(s2.unixSocketPath)
  {
    SocketVars(s1, s2);
    InstanceVarOnApp(u, pod, matches, 0, 0, EnvVar(s1.unixSocketPathEnvName, s1.unixSocketPath));
    InstanceVarOnApp(u, pod, matches, 0, 1, EnvVar(s2.unixSocketPathEnvName, s2.unixSocketPath));
  }

  /** Two socket instances asking for different names each get their path variable, and no name twice. */
  lemma SocketVars(s1: InstanceSpec, s2: InstanceSpec)
    requires IsUnixSocket(s1) && IsUnixSocket(s2)
    requires s1.unixSocketPathEnvName != "" && s2.unixSocketPathEnvName != ""
    requires s1.unixSocketPathEnvName != s2.unixSocketPathEnvName
    ensures Distinct(AllRequestedNames([s1, s2]))
    ensures EnvVar(s1.unixSocketPathEnvName, s1.unixSocketPath) in InstanceEnv(s1, Socket)
    ensures EnvVar(s2.unixSocketPathEnvName, s2.unixSocketPath) in InstanceEnv(s2, Socket)
  {
    TwoInstances({}, s1, s2);
  }

  // ---------------------------------------------------------------------------
  // Annotations
  // ---------------------------------------------------------------------------

  /**
    Three distinctly named workloads, the third being deleted, on a template without
    annotations: the template ends up with exactly the two live workloads' annotations.
   */
  lemma {:induction false} TemplateAnnotations(u: Updater, pod: PodTemplate,
                                               w1: AuthProxyWorkload, w2: AuthProxyWorkload, w3: AuthProxyWorkload)
    requires w1.name != w2.name && w1.name != w3.name && w2.name != w3.name
    requires !IsDeleted(w1) && !IsDeleted(w2) && IsDeleted(w3)
    requires pod.annotations == map[]
    ensures ConfigureWorkload(u, pod, [w1, w2, w3]).pod.annotations
         == map[Ann.AnnotationKey(w1) := Ann.AnnotationValue(w1), Ann.AnnotationKey(w2) := Ann.AnnotationValue(w2)]
  {
    ThreeMatches(w1, w2, w3);
    AnnotationsWith(u, pod, [w1, w2, w3], w1, w2);
  }

  lemma {:induction false} ThreeMatches(w1: AuthProxyWorkload, w2: AuthProxyWorkload, w3: AuthProxyWorkload)
    requires w1.name != w2.name && w1.name != w3.name && w2.name != w3.name
    requires !IsDeleted(w1) && !IsDeleted(w2) && IsDeleted(w3)
    ensures DistinctKeys([w1, w2, w3], WorkloadName) && w1 in [w1, w2, w3] && w2 in [w1, w2, w3]
    ensures forall w :: w in [w1, w2, w3] && !IsDeleted(w) ==> w == w1 || w == w2
  {
  }

  lemma {:induction false} AnnotationsWith(u: Updater, pod: PodTemplate, matches: seq<AuthProxyWorkload>,
                                           w1: AuthProxyWorkload, w2: AuthProxyWorkload)
    requires DistinctKeys(matches, WorkloadName) && w1 in matches && w2 in matches
    requires !IsDeleted(w1) && !IsDeleted(w2)
    requires forall w :: w in matches && !IsDeleted(w) ==> w == w1 || w == w2
    requires pod.annotations == map[]
    ensures ConfigureWorkload(u, pod, matches).pod.annotations
         == map[Ann.AnnotationKey(w1) := Ann.AnnotationValue(w1), Ann.AnnotationKey(w2) := Ann.AnnotationValue(w2)]
  {
    PodAfterUpdate(u, pod, matches);
    StampLive(matches, w1, w2);
  }

  /** Stamping distinctly named workloads of which exactly `w1` and `w2` are live adds exactly their two annotations. */
  lemma {:induction false} StampLive(matches: seq<AuthProxyWorkload>, w1: AuthProxyWorkload, w2: AuthProxyWorkload)
    requires DistinctKeys(matches, WorkloadName) && w1 in matches && w2 in matches
    requires !IsDeleted(w1) && !IsDeleted(w2)
    requires forall w :: w in matches && !IsDeleted(w) ==> w == w1 || w == w2
    ensures Ann.StampAll(map[], Applied(matches))
         == map[Ann.AnnotationKey(w1) := Ann.AnnotationValue(w1), Ann.AnnotationKey(w2) := Ann.AnnotationValue(w2)]
  {
    var applied := Applied(matches);
    var ann := Ann.StampAll(map[], applied);
    StampApplied(map[], matches, w1);
    StampApplied(map[], matches, w2);
    forall k | k in ann ensures k == Ann.AnnotationKey(w1) || k == Ann.AnnotationKey(w2) {
      assert k in Ann.Keys(applied);
      var o :| 0 <= o < |applied| && Ann.AnnotationKey(applied[o]) == k;
      AppliedMembers(matches, applied[o]);
    }
    TwoEntries(ann, Ann.AnnotationKey(w1), Ann.AnnotationValue(w1), Ann.AnnotationKey(w2), Ann.AnnotationValue(w2));
  }

  lemma TwoEntries(m: map<string, string>, k1: string, v1: string, k2: string, v2: string)
    requires k1 in m && m[k1] == v1 && k2 in m && m[k2] == v2
    requires forall k :: k in m ==> k == k1 || k == k2
    ensures m == map[k1 := v1, k2 := v2]
  {
  }
}
