/**
  Properties of a whole update call: it is idempotent, it keeps the application
  containers, it gives every applied workload exactly one sidecar, it reports exactly the
  conflicts the instances contain, it sets the instances' variables on every application
  container and it stamps exactly the applied workloads' annotations.
 */
module UpdaterProperties {
  import opened Optional
  import opened Text
  import opened Seqs
  import opened Kube
  import opened Api
  import opened Ports
  import opened EnvVars
  import opened Volumes
  import Ann = Annotations
  import opened PodSpecUpdater
  import opened CliArgs
  import PE = ProxyEnv

  lemma SidecarNameIsManaged(w: AuthProxyWorkload)
    ensures HasPrefix(SidecarName(w), ContainerPrefix)
  {
    assert (ContainerPrefix + (w.namespace + "-" + w.name))[..|ContainerPrefix|] == ContainerPrefix;
    assert SidecarName(w) == ContainerPrefix + (w.namespace + "-" + w.name);
  }

  /** Within one namespace, sidecar names tell workloads apart. */
  lemma SidecarNameInjective(a: AuthProxyWorkload, b: AuthProxyWorkload)
    requires a.namespace == b.namespace
    ensures SidecarName(a) == SidecarName(b) <==> a.name == b.name
  {
    if SidecarName(a) == SidecarName(b) {
      var k := |ContainerPrefix + a.namespace + "-"|;
      assert SidecarName(a)[k..] == a.name;
      assert SidecarName(b)[k..] == b.name;
    }
  }

  lemma SidecarNamesDiffer(a: AuthProxyWorkload, b: AuthProxyWorkload)
    requires a.namespace == b.namespace && a.name != b.name
    ensures SidecarName(a) != SidecarName(b)
  {
    SidecarNameInjective(a, b);
  }

  /** Updating an application container touches only its variables and its mounts. */
  lemma UpdateAppKeeps(c: Container, l: Layout)
    ensures var c' := UpdateApp(c, l);
      c'.name == c.name && c'.image == c.image && c'.command == c.command && c'.args == c.args
      && c'.ports == c.ports && c'.resources == c.resources
  {
  }

  lemma UpdateAppIdempotent(c: Container, l: Layout)
    requires forall k :: 0 <= k < |l.plan.mounts| ==> IsManaged(l.plan.mounts[k].name)
    ensures UpdateApp(UpdateApp(c, l), l) == UpdateApp(c, l)
  {
    var c1 := c.(env := SetEnv(c.env, l.merged.vars));
    var x := UpdateApp(c, l);
    assert x == WithMounts(c1, l.plan.mounts);
    SetEnvIdempotent(c.env, l.merged.vars);
    assert x.(env := SetEnv(x.env, l.merged.vars)) == x;
    WithMountsIdempotent(c1, l.plan.mounts);
  }

  lemma {:induction false} PortsOfSamePorts(a: seq<Container>, b: seq<Container>)
    requires |a| == |b|
    requires forall i :: 0 <= i < |a| ==> a[i].ports == b[i].ports
    ensures PortsOf(a) == PortsOf(b)
  {
    if |a| > 0 {
      PortsOfSamePorts(a[1..], b[1..]);
    }
  }

  /** The sidecars are named after the applied workloads, one each, in order. */
  lemma SidecarNames(u: Updater, l: Layout)
    requires |l.ports| == |l.refs|
    ensures |Sidecars(u, l)| == |l.applied|
    ensures forall p :: 0 <= p < |l.applied| ==> Sidecars(u, l)[p].name == SidecarName(l.applied[p])
  {
  }

  /** The application containers of an updated template are the updated application containers. */
  lemma AppsAfterUpdate(u: Updater, pod: PodTemplate, matches: seq<AuthProxyWorkload>)
    ensures var l := LayoutOf(pod, matches);
      Filter(ConfigureWorkload(u, pod, matches).pod.containers, IsApp) == UpdatedApps(l)
  {
    ContainersAfterUpdate(u, pod, matches);
    FilterUpdated(u, LayoutOf(pod, matches));
  }

  /** Filtering the written containers for application containers gives back the updated ones. */
  lemma FilterUpdated(u: Updater, l: Layout)
    requires |l.ports| == |l.refs|
    requires forall i :: 0 <= i < |l.apps| ==> IsApp(l.apps[i])
    ensures Filter(UpdatedApps(l) + Sidecars(u, l), IsApp) == UpdatedApps(l)
  {
    var apps := UpdatedApps(l);
    var sidecars := Sidecars(u, l);
    FilterAppend(apps, sidecars, IsApp);
    forall i | 0 <= i < |apps| ensures IsApp(apps[i]) {
      UpdateAppKeeps(l.apps[i], l);
    }
    FilterKeepsAll(apps, IsApp);
    forall o | 0 <= o < |sidecars| ensures !IsApp(sidecars[o]) {
      SidecarNameIsManaged(l.applied[o]);
    }
    FilterDropsAll(sidecars, IsApp);
  }

  /** Re-reading an updated template derives the same layout, with the updated application containers. */
  lemma LayoutAfterUpdate(u: Updater, pod: PodTemplate, matches: seq<AuthProxyWorkload>)
    ensures var l := LayoutOf(pod, matches);
      LayoutOf(ConfigureWorkload(u, pod, matches).pod, matches) == l.(apps := UpdatedApps(l))
  {
    var l1 := LayoutOf(pod, matches);
    var l2 := LayoutOf(ConfigureWorkload(u, pod, matches).pod, matches);
    AppsAfterUpdate(u, pod, matches);
    var apps := UpdatedApps(l1);
    forall i | 0 <= i < |apps| ensures apps[i].ports == l1.apps[i].ports {
      UpdateAppKeeps(l1.apps[i], l1);
    }
    PortsOfSamePorts(apps, l1.apps);
  }

  /** Updating the updated application containers again gives them back unchanged. */
  lemma UpdatedAppsStable(l: Layout)
    requires forall k :: 0 <= k < |l.plan.mounts| ==> IsManaged(l.plan.mounts[k].name)
    ensures var l2 := l.(apps := UpdatedApps(l)); UpdatedApps(l2) == UpdatedApps(l)
  {
    var l2 := l.(apps := UpdatedApps(l));
    forall i | 0 <= i < |l.apps|
      ensures UpdateApp(UpdatedApps(l)[i], l2) == UpdatedApps(l)[i]
    {
      assert UpdateApp(UpdatedApps(l)[i], l2) == UpdateApp(UpdateApp(l.apps[i], l), l);
      UpdateAppIdempotent(l.apps[i], l);
    }
  }

  /** The sidecars do not depend on the application containers. */
  lemma SidecarsIgnoreApps(u: Updater, l: Layout, apps: seq<Container>)
    requires |l.ports| == |l.refs|
    ensures Sidecars(u, l.(apps := apps)) == Sidecars(u, l)
  {
  }

  /**
    Idempotence: updating an already updated template with the same workloads changes
    nothing and reports the same errors.
   */
  lemma ConfigureIdempotent(u: Updater, pod: PodTemplate, matches: seq<AuthProxyWorkload>)
    ensures var once := ConfigureWorkload(u, pod, matches);
      ConfigureWorkload(u, once.pod, matches) == once
  {
    var once := ConfigureWorkload(u, pod, matches);
    var l1 := LayoutOf(pod, matches);
    LayoutAfterUpdate(u, pod, matches);
    var l2 := l1.(apps := UpdatedApps(l1));
    UpdatedAppsStable(l1);
    SidecarsIgnoreApps(u, l1, UpdatedApps(l1));
    assert Errors(l2) == Errors(l1);
    WithVolumesIdempotent(pod.volumes, l1.plan);
    Ann.StampAllIdempotent(pod.annotations, l1.applied);
  }

  // ---------------------------------------------------------------------------
  // What one update writes, stated against the inputs
  // ---------------------------------------------------------------------------

  /** The template's own containers: those without the managed prefix. */
  function AppsOf(pod: PodTemplate): seq<Container> {
    Filter(pod.containers, IsApp)
  }

  /** The instances of the applied workloads, workload by workload. */
  function AppliedSpecs(matches: seq<AuthProxyWorkload>): seq<InstanceSpec> {
    Specs(InstanceRefs(Applied(matches)))
  }

  /** Where each applied instance listens. */
  function AppliedPorts(pod: PodTemplate, matches: seq<AuthProxyWorkload>): (r: seq<PortAssignment>)
    ensures |r| == |AppliedSpecs(matches)|
  {
    AssignPorts(PortsOf(AppsOf(pod)), AppliedSpecs(matches))
  }

  /** Workloads in one namespace with distinct names. */
  predicate WellFormedMatches(matches: seq<AuthProxyWorkload>) {
    && DistinctKeys(matches, WorkloadName)
    && forall i, j :: 0 <= i < |matches| && 0 <= j < |matches| ==> matches[i].namespace == matches[j].namespace
  }

  lemma AppliedDistinctNames(matches: seq<AuthProxyWorkload>)
    requires DistinctKeys(matches, WorkloadName)
    ensures DistinctKeys(Applied(matches), WorkloadName)
  {
    var f := Filter(matches, NotDeleted);
    FilterDistinctKeys(matches, NotDeleted, WorkloadName);
    PermutationDistinctKeys(f, Applied(matches), WorkloadName);
  }

  lemma {:induction false} CountNamedOne(cs: seq<Container>, name: string, o: nat)
    requires o < |cs| && cs[o].name == name
    requires forall i :: 0 <= i < |cs| && i != o ==> cs[i].name != name
    ensures CountNamed(cs, name) == 1
  {
    var before := cs[..o];
    var after := cs[o + 1..];
    SplitAround(cs, o);
    CountNamedAppend(before, [cs[o]] + after, name);
    CountNamedAppend([cs[o]], after, name);
    forall i | 0 <= i < |before| ensures before[i].name != name {
      assert before[i] == cs[i];
    }
    CountNamedAbsent(before, name);
    forall i | 0 <= i < |after| ensures after[i].name != name {
      assert after[i] == cs[o + 1 + i];
    }
    CountNamedAbsent(after, name);
    assert [cs[o]][1..] == [];
  }

  /** No updated application container carries a sidecar name. */
  lemma {:induction false} AppsAreNotSidecars(l: Layout, w: AuthProxyWorkload)
    requires forall i :: 0 <= i < |l.apps| ==> IsApp(l.apps[i])
    ensures CountNamed(UpdatedApps(l), SidecarName(w)) == 0
  {
    SidecarNameIsManaged(w);
    forall i | 0 <= i < |l.apps| ensures UpdatedApps(l)[i].name != SidecarName(w) {
      UpdateAppKeeps(l.apps[i], l);
    }
    CountNamedAbsent(UpdatedApps(l), SidecarName(w));
  }

  /** Sidecars named after workloads of one namespace: a name the workloads do not use counts zero. */
  lemma {:induction false} SidecarsAbsent(sidecars: seq<Container>, applied: seq<AuthProxyWorkload>, w: AuthProxyWorkload)
    requires |sidecars| == |applied|
    requires forall o :: 0 <= o < |applied| ==> sidecars[o].name == SidecarName(applied[o])
    requires forall o :: 0 <= o < |applied| ==> applied[o].namespace == w.namespace && applied[o].name != w.name
    ensures CountNamed(sidecars, SidecarName(w)) == 0
  {
    forall o | 0 <= o < |applied| ensures sidecars[o].name != SidecarName(w) {
      SidecarNamesDiffer(applied[o], w);
    }
    CountNamedAbsent(sidecars, SidecarName(w));
  }

  /** ... and the name of a workload among them, with distinct names, counts one. */
  lemma {:induction false} SidecarsPresent(sidecars: seq<Container>, applied: seq<AuthProxyWorkload>, o: nat)
    requires |sidecars| == |applied| && o < |applied|
    requires forall p :: 0 <= p < |applied| ==> sidecars[p].name == SidecarName(applied[p])
    requires forall p :: 0 <= p < |applied| ==> applied[p].namespace == applied[o].namespace
    requires DistinctKeys(applied, WorkloadName)
    ensures CountNamed(sidecars, SidecarName(applied[o])) == 1
  {
    forall p | 0 <= p < |applied| && p != o
      ensures sidecars[p].name != SidecarName(applied[o])
    {
      assert applied[p].name != applied[o].name by {
        if o < p { assert WorkloadName(applied[o]) != WorkloadName(applied[p]); }
        else { assert WorkloadName(applied[p]) != WorkloadName(applied[o]); }
      }
      SidecarNamesDiffer(applied[p], applied[o]);
    }
    CountNamedOne(sidecars, SidecarName(applied[o]), o);
  }

  /** Among distinctly named workloads, another one never shares `w`'s name. */
  lemma {:induction false} DistinctlyNamed(matches: seq<AuthProxyWorkload>, w: AuthProxyWorkload, v: AuthProxyWorkload)
    requires DistinctKeys(matches, WorkloadName) && w in matches && v in matches && v != w
    ensures v.name != w.name
  {
    var q :| 0 <= q < |matches| && matches[q] == w;
    var p :| 0 <= p < |matches| && matches[p] == v;
    if p < q { assert WorkloadName(matches[p]) != WorkloadName(matches[q]); }
    else { assert WorkloadName(matches[q]) != WorkloadName(matches[p]); }
  }

  lemma {:induction false} OthersNamedDifferently(matches: seq<AuthProxyWorkload>, w: AuthProxyWorkload, v: AuthProxyWorkload)
    requires WellFormedMatches(matches) && w in matches && v in matches && v != w
    ensures v.name != w.name && v.namespace == w.namespace
  {
    DistinctlyNamed(matches, w, v);
    var q :| 0 <= q < |matches| && matches[q] == w;
    var p :| 0 <= p < |matches| && matches[p] == v;
  }

  /** The containers an update writes: the updated application containers, then one sidecar per applied workload. */
  lemma {:induction false} ContainersAfterUpdate(u: Updater, pod: PodTemplate, matches: seq<AuthProxyWorkload>)
    ensures var l := LayoutOf(pod, matches);
      && ConfigureWorkload(u, pod, matches).pod.containers == UpdatedApps(l) + Sidecars(u, l)
      && l.applied == Applied(matches)
      && l.apps == AppsOf(pod)
      && forall i :: 0 <= i < |l.apps| ==> IsApp(l.apps[i])
  {
    var l := LayoutOf(pod, matches);
    forall i | 0 <= i < |l.apps| ensures IsApp(l.apps[i]) {
      assert l.apps[i] in l.apps;
    }
  }

  /** Sidecars named after the live matches count one for a live match and none for a deleted one. */
  lemma {:induction false} CountSidecarsOf(sidecars: seq<Container>, applied: seq<AuthProxyWorkload>,
                                           matches: seq<AuthProxyWorkload>, w: AuthProxyWorkload)
    requires |sidecars| == |applied|
    requires forall p :: 0 <= p < |applied| ==> sidecars[p].name == SidecarName(applied[p])
    requires forall v :: v in applied <==> v in matches && !IsDeleted(v)
    requires WellFormedMatches(matches) && w in matches
    requires DistinctKeys(applied, WorkloadName)
    ensures CountNamed(sidecars, SidecarName(w)) == if IsDeleted(w) then 0 else 1
  {
    forall o | 0 <= o < |applied| && applied[o] != w
      ensures applied[o].name != w.name && applied[o].namespace == w.namespace
    {
      assert applied[o] in applied;
      OthersNamedDifferently(matches, w, applied[o]);
    }
    if IsDeleted(w) {
      SidecarsAbsent(sidecars, applied, w);
    } else {
      assert w in applied;
      var o :| 0 <= o < |applied| && applied[o] == w;
      SidecarsPresent(sidecars, applied, o);
    }
  }

  lemma {:induction false} SidecarCountIn(u: Updater, l: Layout, matches: seq<AuthProxyWorkload>, w: AuthProxyWorkload)
    requires |l.ports| == |l.refs| && l.applied == Applied(matches)
    requires forall i :: 0 <= i < |l.apps| ==> IsApp(l.apps[i])
    requires WellFormedMatches(matches) && w in matches
    ensures CountNamed(UpdatedApps(l) + Sidecars(u, l), SidecarName(w)) == if IsDeleted(w) then 0 else 1
  {
    var sidecars := Sidecars(u, l);
    SidecarNames(u, l);
    CountNamedAppend(UpdatedApps(l), sidecars, SidecarName(w));
    AppsAreNotSidecars(l, w);
    forall v | true
      ensures v in l.applied <==> v in matches && !IsDeleted(v)
    {
      AppliedMembers(matches, v);
    }
    AppliedDistinctNames(matches);
    CountSidecarsOf(sidecars, l.applied, matches, w);
  }

  /**
    Among workloads of one namespace with distinct names, a matching workload has exactly
    one sidecar when it is live and none when it is being deleted.
   */
  lemma {:induction false} SidecarCount(u: Updater, pod: PodTemplate, matches: seq<AuthProxyWorkload>, w: AuthProxyWorkload)
    requires WellFormedMatches(matches) && w in matches
    ensures CountNamed(ConfigureWorkload(u, pod, matches).pod.containers, SidecarName(w))
         == if IsDeleted(w) then 0 else 1
  {
    ContainersAfterUpdate(u, pod, matches);
    SidecarCountIn(u, LayoutOf(pod, matches), matches, w);
  }

  /** The layout's pieces, as the inputs determine them. */
  lemma {:induction false} LayoutParts(pod: PodTemplate, matches: seq<AuthProxyWorkload>)
    ensures var l := LayoutOf(pod, matches);
      && Specs(l.refs) == AppliedSpecs(matches)
      && l.ports == AppliedPorts(pod, matches)
      && Vars(l.requests) == InstanceVars(AppliedSpecs(matches), AppliedPorts(pod, matches))
      && Names(Vars(l.requests)) == AllRequestedNames(AppliedSpecs(matches))
      && l.merged == MergeRequests(l.requests)
  {
    var l := LayoutOf(pod, matches);
    var refs := InstanceRefs(Applied(matches));
    var ports := AppliedPorts(pod, matches);
    assert l.refs == refs && l.ports == ports && l.requests == Requests(refs, ports);
    RequestsVars(refs, ports);
    RequestNames(refs, ports);
  }

  lemma DistinctNamesIff(vs: seq<EnvVar>)
    ensures DistinctNames(vs) <==> Distinct(Names(vs))
  {
    var ns := Names(vs);
    assert forall i :: 0 <= i < |vs| ==> ns[i] == vs[i].name;
  }

  /** Port errors followed by environment errors: each code occurs exactly when its part is non-empty. */
  lemma {:induction false} CodesOfParts(pe: seq<ConfigErrorDetail>, ee: seq<ConfigErrorDetail>)
    requires forall e :: e in pe ==> e.errorCode == PortConflict
    requires forall i :: 0 <= i < |ee| ==> ee[i].errorCode == EnvConflict
    ensures (exists i :: 0 <= i < |pe + ee| && (pe + ee)[i].errorCode == PortConflict) <==> |pe| > 0
    ensures (exists i :: 0 <= i < |pe + ee| && (pe + ee)[i].errorCode == EnvConflict) <==> |ee| > 0
  {
    var errs := pe + ee;
    if |pe| > 0 {
      assert errs[0] == pe[0] && pe[0] in pe;
    }
    if |ee| > 0 {
      assert errs[|pe|] == ee[0];
    }
    if exists i :: 0 <= i < |errs| && errs[i].errorCode == PortConflict {
      var i :| 0 <= i < |errs| && errs[i].errorCode == PortConflict;
      if i >= |pe| {
        assert errs[i] == ee[i - |pe|];
      }
    }
    if exists i :: 0 <= i < |errs| && errs[i].errorCode == EnvConflict {
      var i :| 0 <= i < |errs| && errs[i].errorCode == EnvConflict;
      if i < |pe| {
        assert errs[i] == pe[i] && pe[i] in pe;
      }
    }
  }

  lemma {:induction false} ErrorsOfLayout(l: Layout)
    requires |l.ports| == |l.refs| && l.merged == MergeRequests(l.requests)
    ensures |Errors(l)| == 0 <==> !AnyConflict(l.ports) && DistinctNames(Vars(l.requests))
    ensures (exists i :: 0 <= i < |Errors(l)| && Errors(l)[i].errorCode == PortConflict) <==> AnyConflict(l.ports)
    ensures (exists i :: 0 <= i < |Errors(l)| && Errors(l)[i].errorCode == EnvConflict) <==> !DistinctNames(Vars(l.requests))
  {
    var pe := PortErrors(l.refs, l.ports);
    var ee := EnvErrors(l.merged.conflicts);
    assert Errors(l) == pe + ee;
    CodesOfParts(pe, ee);
  }

  lemma ErrOfUpdate(u: Updater, pod: PodTemplate, matches: seq<AuthProxyWorkload>)
    ensures var l := LayoutOf(pod, matches);
      ConfigureWorkload(u, pod, matches).err == if |Errors(l)| == 0 then None else Some(ConfigError(Errors(l)))
  {
  }

  /**
    The error report: an update fails exactly when an explicit port clashes or two
    instances ask for the same variable name, and the error carries the port-conflict code
    exactly for the first and the variable-conflict code exactly for the second.
   */
  lemma {:induction false} ErrorsReport(u: Updater, pod: PodTemplate, matches: seq<AuthProxyWorkload>)
    ensures var r := ConfigureWorkload(u, pod, matches);
      var specs := AppliedSpecs(matches);
      var portClash := HasPortConflict(PortsOf(AppsOf(pod)), specs);
      var nameClash := !Distinct(AllRequestedNames(specs));
      && (r.err.None? <==> !portClash && !nameClash)
      && (r.err.Some? ==> (PortConflict in r.err.value.Codes() <==> portClash))
      && (r.err.Some? ==> (EnvConflict in r.err.value.Codes() <==> nameClash))
  {
    var l := LayoutOf(pod, matches);
    ErrOfUpdate(u, pod, matches);
    LayoutParts(pod, matches);
    ErrorsOfLayout(l);
    PortConflictIff(PortsOf(AppsOf(pod)), AppliedSpecs(matches));
    DistinctNamesIff(Vars(l.requests));
  }

  lemma NameSetIff(vs: seq<EnvVar>, n: string)
    ensures n in NameSet(vs) <==> LookupEnv(vs, n).Some?
  {
    if LookupEnv(vs, n).None? {
      assert forall i :: 0 <= i < |vs| ==> vs[i].name != n;
    }
  }

  lemma {:induction false} UpdateAppEnv(c: Container, l: Layout, n: string)
    requires l.merged == MergeRequests(l.requests)
    ensures var asked := LookupEnv(Vars(l.requests), n);
      LookupEnv(UpdateApp(c, l).env, n) == if asked.Some? then asked else LookupEnv(c.env, n)
  {
    assert UpdateApp(c, l).env == SetEnv(c.env, l.merged.vars);
    SetEnvLookup(c.env, l.merged.vars, n);
    NameSetIff(l.merged.vars, n);
  }

  /** The i-th container an update writes is the i-th application container, updated. */
  lemma {:induction false} AppAfterUpdate(u: Updater, pod: PodTemplate, matches: seq<AuthProxyWorkload>, i: nat)
    requires i < |AppsOf(pod)|
    ensures var l := LayoutOf(pod, matches);
      && i < |ConfigureWorkload(u, pod, matches).pod.containers|
      && ConfigureWorkload(u, pod, matches).pod.containers[i] == UpdateApp(AppsOf(pod)[i], l)
  {
    ContainersAfterUpdate(u, pod, matches);
  }

  /**
    The application containers come first, in their original order, and keep everything
    but their variables and mounts.
   */
  lemma {:induction false} ContainersKept(u: Updater, pod: PodTemplate, matches: seq<AuthProxyWorkload>, i: nat)
    requires i < |AppsOf(pod)|
    ensures var c := AppsOf(pod)[i];
      var c' := ConfigureWorkload(u, pod, matches).pod.containers[i];
      && c'.name == c.name && c'.image == c.image && c'.command == c.command && c'.args == c.args
      && c'.ports == c.ports && c'.resources == c.resources
  {
    AppAfterUpdate(u, pod, matches, i);
    UpdateAppKeeps(AppsOf(pod)[i], LayoutOf(pod, matches));
  }

  /**
    Variables on an application container: a name some instance asks for reads the first
    such instance's value, every other name keeps the container's own value.
   */
  lemma {:induction false} AppEnv(u: Updater, pod: PodTemplate, matches: seq<AuthProxyWorkload>, i: nat, n: string)
    requires i < |AppsOf(pod)|
    ensures var asked := LookupEnv(InstanceVars(AppliedSpecs(matches), AppliedPorts(pod, matches)), n);
      LookupEnv(ConfigureWorkload(u, pod, matches).pod.containers[i].env, n)
        == if asked.Some? then asked else LookupEnv(AppsOf(pod)[i].env, n)
  {
    var l := LayoutOf(pod, matches);
    AppAfterUpdate(u, pod, matches, i);
    LayoutParts(pod, matches);
    UpdateAppEnv(AppsOf(pod)[i], l, n);
  }

  /**
    Without a name conflict, every variable an instance asks for is set, with its value,
    on every application container.
   */
  lemma {:induction false} InstanceVarOnApp(u: Updater, pod: PodTemplate, matches: seq<AuthProxyWorkload>,
                                            i: nat, k: nat, v: EnvVar)
    requires i < |AppsOf(pod)| && k < |AppliedSpecs(matches)|
    requires Distinct(AllRequestedNames(AppliedSpecs(matches)))
    requires v in InstanceEnv(AppliedSpecs(matches)[k], AppliedPorts(pod, matches)[k])
    ensures LookupEnv(ConfigureWorkload(u, pod, matches).pod.containers[i].env, v.name) == Some(v.value)
  {
    var specs := AppliedSpecs(matches);
    var ports := AppliedPorts(pod, matches);
    var l := LayoutOf(pod, matches);
    LayoutParts(pod, matches);
    DistinctNamesIff(Vars(l.requests));
    InstanceVarsMember(specs, ports, k, v);
    LookupDistinct(InstanceVars(specs, ports), v);
    AppEnv(u, pod, matches, i, v.name);
  }

  // ---------------------------------------------------------------------------
  // Volumes and annotations
  // ---------------------------------------------------------------------------

  lemma {:induction false} PodAfterUpdate(u: Updater, pod: PodTemplate, matches: seq<AuthProxyWorkload>)
    ensures var r := ConfigureWorkload(u, pod, matches).pod;
      && r.volumes == WithVolumes(pod.volumes, PlanVolumes(AppliedSpecs(matches)))
      && r.annotations == Ann.StampAll(pod.annotations, Applied(matches))
  {
    LayoutParts(pod, matches);
  }

  /**
    The template's own volumes survive in order, and every other volume is a planned
    `emptyDir` one.
   */
  lemma {:induction false} VolumesAfterUpdate(u: Updater, pod: PodTemplate, matches: seq<AuthProxyWorkload>)
    ensures var vols := ConfigureWorkload(u, pod, matches).pod.volumes;
      && Filter(vols, KeepVolume) == Filter(pod.volumes, KeepVolume)
      && forall v :: v in vols && !KeepVolume(v) ==> v in PlanVolumes(AppliedSpecs(matches)).volumes && v.source == EmptyDir
  {
    PodAfterUpdate(u, pod, matches);
    WithVolumesKeeps(pod.volumes, AppliedSpecs(matches));
  }

  lemma {:induction false} AppMountsAfterUpdate(u: Updater, pod: PodTemplate, matches: seq<AuthProxyWorkload>, i: nat)
    requires i < |AppsOf(pod)|
    ensures var c := AppsOf(pod)[i];
      ConfigureWorkload(u, pod, matches).pod.containers[i].volumeMounts
        == WithMounts(c, PlanVolumes(AppliedSpecs(matches)).mounts).volumeMounts
  {
    LayoutParts(pod, matches);
    AppAfterUpdate(u, pod, matches, i);
  }

  /**
    Every application container mounts, at the directory of each socket instance, a
    volume the updated template declares as `emptyDir`; the container's own mounts
    survive in order.
   */
  lemma {:induction false} SocketMountedOnApp(u: Updater, pod: PodTemplate, matches: seq<AuthProxyWorkload>, i: nat, k: nat)
    requires i < |AppsOf(pod)| && k < |AppliedSpecs(matches)| && IsUnixSocket(AppliedSpecs(matches)[k])
    ensures var r := ConfigureWorkload(u, pod, matches).pod;
      && Filter(r.containers[i].volumeMounts, KeepMount) == Filter(AppsOf(pod)[i].volumeMounts, KeepMount)
      && exists m :: m in r.containers[i].volumeMounts && m.mountPath == Dir(AppliedSpecs(matches)[k].unixSocketPath)
                     && Volume(m.name, EmptyDir) in r.volumes
  {
    var specs := AppliedSpecs(matches);
    var c := AppsOf(pod)[i];
    AppMountsAfterUpdate(u, pod, matches, i);
    PodAfterUpdate(u, pod, matches);
    WithMountsKeeps(c, specs);
    SocketMounted(c, pod.volumes, specs, k);
  }

  /** The updated annotations: the template's, overlaid with the applied workloads' own. */
  lemma {:induction false} AnnotationsAfterUpdate(u: Updater, pod: PodTemplate, matches: seq<AuthProxyWorkload>)
    ensures ConfigureWorkload(u, pod, matches).pod.annotations
         == pod.annotations + Ann.StampAll(map[], Applied(matches))
  {
    PodAfterUpdate(u, pod, matches);
    Ann.StampAllOverlay(pod.annotations, Applied(matches));
  }

  /** A workload whose name no stamped workload shares leaves its key as the annotations had it. */
  lemma {:induction false} StampOthers(ann: map<string, string>, applied: seq<AuthProxyWorkload>, w: AuthProxyWorkload)
    requires forall o :: 0 <= o < |applied| ==> applied[o].name != w.name
    ensures var r := Ann.StampAll(ann, applied);
      var key := Ann.AnnotationKey(w);
      && (key in r <==> key in ann)
      && (key in ann ==> r[key] == ann[key])
  {
    var key := Ann.AnnotationKey(w);
    forall o | 0 <= o < |applied| ensures Ann.AnnotationKey(applied[o]) != key {
      Ann.AnnotationKeyIff(applied[o], w);
    }
    assert key !in Ann.Keys(applied);
  }

  lemma {:induction false} StampApplied(ann: map<string, string>, matches: seq<AuthProxyWorkload>, w: AuthProxyWorkload)
    requires DistinctKeys(matches, WorkloadName) && w in matches
    ensures var r := Ann.StampAll(ann, Applied(matches));
      var key := Ann.AnnotationKey(w);
      && (!IsDeleted(w) ==> key in r && r[key] == Ann.AnnotationValue(w))
      && (IsDeleted(w) ==> (key in r <==> key in ann))
      && (IsDeleted(w) && key in ann ==> r[key] == ann[key])
  {
    var applied := Applied(matches);
    AppliedMembers(matches, w);
    if IsDeleted(w) {
      forall o | 0 <= o < |applied| ensures applied[o].name != w.name {
        AppliedMembers(matches, applied[o]);
        DistinctlyNamed(matches, w, applied[o]);
      }
      StampOthers(ann, applied, w);
    } else {
      AppliedDistinctNames(matches);
      var o :| 0 <= o < |applied| && applied[o] == w;
      assert forall a, b :: 0 <= a < b < |applied| ==> WorkloadName(applied[a]) != WorkloadName(applied[b]);
      Ann.StampAllValue(ann, applied, o);
    }
  }

  /**
    Among distinctly named workloads, a live matching workload's annotation records its
    generation, and a workload being deleted leaves its key as the template had it.
   */
  lemma {:induction false} WorkloadAnnotation(u: Updater, pod: PodTemplate, matches: seq<AuthProxyWorkload>, w: AuthProxyWorkload)
    requires DistinctKeys(matches, WorkloadName) && w in matches
    ensures var ann := ConfigureWorkload(u, pod, matches).pod.annotations;
      var key := Ann.AnnotationKey(w);
      && (!IsDeleted(w) ==> key in ann && ann[key] == Ann.AnnotationValue(w))
      && (IsDeleted(w) ==> (key in ann <==> key in pod.annotations))
      && (IsDeleted(w) && key in pod.annotations ==> ann[key] == pod.annotations[key])
  {
    PodAfterUpdate(u, pod, matches);
    StampApplied(pod.annotations, matches, w);
  }

  // ---------------------------------------------------------------------------
  // The sidecars
  // ---------------------------------------------------------------------------

  /** The instances of the applied workloads, with the workload each belongs to. */
  function AppliedRefs(matches: seq<AuthProxyWorkload>): seq<InstanceRef> {
    InstanceRefs(Applied(matches))
  }

  /** The sidecars follow the application containers, one per applied workload, in order. */
  lemma {:induction false} SidecarAt(u: Updater, pod: PodTemplate, matches: seq<AuthProxyWorkload>, o: nat)
    requires o < |Applied(matches)|
    ensures LayoutOf(pod, matches).applied == Applied(matches)
    ensures LayoutOf(pod, matches).apps == AppsOf(pod)
    ensures |AppsOf(pod)| + o < |ConfigureWorkload(u, pod, matches).pod.containers|
    ensures ConfigureWorkload(u, pod, matches).pod.containers[|AppsOf(pod)| + o]
         == Sidecar(u, Applied(matches)[o], o, LayoutOf(pod, matches))
  {
    var l := LayoutOf(pod, matches);
    var r := ConfigureWorkload(u, pod, matches).pod.containers;
    assert r == UpdatedApps(l) + Sidecars(u, l);
    SidecarIndex(u, l, r, o);
  }

  lemma {:induction false} SidecarIndex(u: Updater, l: Layout, r: seq<Container>, o: nat)
    requires |l.ports| == |l.refs| && o < |l.applied|
    requires r == UpdatedApps(l) + Sidecars(u, l)
    ensures |l.apps| + o < |r| && r[|l.apps| + o] == Sidecar(u, l.applied[o], o, l)
  {
    var sidecars := Sidecars(u, l);
    assert |UpdatedApps(l)| == |l.apps|;
    assert |sidecars| == |l.applied| && sidecars[o] == Sidecar(u, l.applied[o], o, l);
    AppendIndex(UpdatedApps(l), sidecars, o);
  }

  /** A workload that supplies its own container gets it back under the sidecar name, unchanged otherwise. */
  lemma {:induction false} OverrideSidecar(u: Updater, pod: PodTemplate, matches: seq<AuthProxyWorkload>, o: nat)
    requires o < |Applied(matches)|
    requires !Synthesized(Applied(matches)[o])
    ensures var w := Applied(matches)[o];
      ConfigureWorkload(u, pod, matches).pod.containers[|AppsOf(pod)| + o]
        == w.authProxyContainer.value.container.value.(name := SidecarName(w))
  {
    SidecarAt(u, pod, matches, o);
  }

  /**
    A workload that supplies its own container takes no part in port allocation, variable
    setting or volume planning: none of the visited instances belongs to it.
   */
  lemma {:induction false} OverrideTakesNoPart(matches: seq<AuthProxyWorkload>, o: nat)
    requires o < |Applied(matches)| && !Synthesized(Applied(matches)[o])
    ensures forall k :: 0 <= k < |AppliedRefs(matches)| ==> AppliedRefs(matches)[k].owner != o
  {
  }

  /** What a synthesized sidecar holds, stated against the layout it was built from. */
  lemma {:induction false} SynthesizedSidecarOf(u: Updater, l: Layout, o: nat, c: Container, w: AuthProxyWorkload,
                                                refs: seq<InstanceRef>, ports: seq<PortAssignment>)
    requires |l.ports| == |l.refs| && o < |l.applied|
    requires w == l.applied[o] && refs == l.refs && ports == l.ports && c == Sidecar(u, w, o, l)
    requires l.plan == PlanVolumes(Specs(refs))
    requires Synthesized(w)
    ensures && c.name == SidecarName(w)
      && c.image == ImageFor(w.authProxyContainer)
      && c.resources == ResourcesFor(w.authProxyContainer)
      && (forall k :: 0 <= k < |refs| && refs[k].owner == o ==> InstanceArg(refs[k].spec, ports[k]) in c.args)
      && (forall a :: a in c.args ==>
            exists k :: 0 <= k < |refs| && refs[k].owner == o && a == InstanceArg(refs[k].spec, ports[k]))
      && (forall s :: LookupEnv(c.env, PE.VarName(s)) == PE.Expected(u.userAgent, w.authProxyContainer, s))
      && (forall k :: 0 <= k < |refs| && refs[k].owner == o && IsUnixSocket(refs[k].spec) ==>
            exists m :: m in c.volumeMounts && m in l.plan.mounts && m.mountPath == Dir(refs[k].spec.unixSocketPath))
  {
    assert c.args == ArgsFor(refs, ports, o);
    ArgsForMembers(refs, ports, o);
    forall s ensures LookupEnv(c.env, PE.VarName(s)) == PE.Expected(u.userAgent, w.authProxyContainer, s) {
      PE.ContainerEnvLookup(u.userAgent, w.authProxyContainer, s);
    }
    forall k | 0 <= k < |refs| && refs[k].owner == o && IsUnixSocket(refs[k].spec)
      ensures exists m :: m in c.volumeMounts && m in l.plan.mounts && m.mountPath == Dir(refs[k].spec.unixSocketPath)
    {
      var specs := Specs(refs);
      PlanCoversSockets(specs, k);
      var j :| 0 <= j < |l.plan.mounts| && l.plan.mounts[j].mountPath == Dir(specs[k].unixSocketPath);
      SpecsForHas(refs, o, k);
      SidecarMountsComplete(l.plan, SpecsFor(refs, o), refs[k].spec, l.plan.mounts[j]);
    }
  }

  /** A synthesized sidecar's arguments are the arguments of its workload's instances. */
  lemma {:induction false} SynthesizedArgsAt(u: Updater, pod: PodTemplate, matches: seq<AuthProxyWorkload>, o: nat)
    requires o < |Applied(matches)|
    requires Synthesized(Applied(matches)[o])
    ensures |AppliedRefs(matches)| == |AppliedPorts(pod, matches)|
    ensures ConfigureWorkload(u, pod, matches).pod.containers[|AppsOf(pod)| + o].args
         == ArgsFor(AppliedRefs(matches), AppliedPorts(pod, matches), o)
  {
    SidecarAt(u, pod, matches, o);
    LayoutParts(pod, matches);
  }

  /**
    A synthesized sidecar runs the workload's image (or the default one) with exactly one
    argument per instance of its workload, each carrying the port that instance got, and
    sets every proxy setting to its expected value.
   */
  lemma {:induction false} SynthesizedSidecar(u: Updater, pod: PodTemplate, matches: seq<AuthProxyWorkload>, o: nat)
    requires o < |Applied(matches)|
    requires Synthesized(Applied(matches)[o])
    ensures var w := Applied(matches)[o];
      var c := ConfigureWorkload(u, pod, matches).pod.containers[|AppsOf(pod)| + o];
      var refs := AppliedRefs(matches);
      var ports := AppliedPorts(pod, matches);
      && c.name == SidecarName(w)
      && c.image == ImageFor(w.authProxyContainer)
      && c.resources == ResourcesFor(w.authProxyContainer)
      && (forall k :: 0 <= k < |refs| && refs[k].owner == o ==> InstanceArg(refs[k].spec, ports[k]) in c.args)
      && (forall a :: a in c.args ==>
            exists k :: 0 <= k < |refs| && refs[k].owner == o && a == InstanceArg(refs[k].spec, ports[k]))
      && (forall s :: LookupEnv(c.env, PE.VarName(s)) == PE.Expected(u.userAgent, w.authProxyContainer, s))
      && (forall k :: 0 <= k < |refs| && refs[k].owner == o && IsUnixSocket(refs[k].spec) ==>
            exists m :: m in c.volumeMounts && m in PlanVolumes(AppliedSpecs(matches)).mounts
                        && m.mountPath == Dir(refs[k].spec.unixSocketPath))
  {
    SidecarAt(u, pod, matches, o);
    LayoutParts(pod, matches);
    SynthesizedSidecarOf(u, LayoutOf(pod, matches), o, ConfigureWorkload(u, pod, matches).pod.containers[|AppsOf(pod)| + o],
                         Applied(matches)[o], AppliedRefs(matches), AppliedPorts(pod, matches));
  }
}
