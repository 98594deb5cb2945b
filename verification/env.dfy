/**
  Environment builder for the application containers. Each instance asks for up to two
  variables: a TCP instance its host (`127.0.0.1`) under `HostEnvName` and its port under
  `PortEnvName`; a socket instance its socket path under `UnixSocketPathEnvName`. The
  requests of all instances are merged; a name asked for twice is a conflict and the
  first request keeps it. The merged variables are then set on every application
  container, replacing variables of the same name.
 */
module EnvVars {
  import opened Optional
  import opened Text
  import opened Seqs
  import opened Kube
  import opened Api
  import opened Ports

  const LoopbackAddress := "127.0.0.1"

  /** The variable names an instance asks for; they do not depend on the port it gets. */
  function RequestedNames(s: InstanceSpec): seq<string> {
    if IsUnixSocket(s) then
      (if s.unixSocketPathEnvName != "" then [s.unixSocketPathEnvName] else [])
    else
      (if s.hostEnvName != "" then [s.hostEnvName] else [])
      + (if s.portEnvName != "" then [s.portEnvName] else [])
  }

  /** The variables an instance asks for, given where its proxy listens. */
  function InstanceEnv(s: InstanceSpec, a: PortAssignment): seq<EnvVar> {
    match a
    case Socket =>
      if s.unixSocketPathEnvName != "" then [EnvVar(s.unixSocketPathEnvName, s.unixSocketPath)] else []
    case Tcp(p, _) =>
      (if s.hostEnvName != "" then [EnvVar(s.hostEnvName, LoopbackAddress)] else [])
      + (if s.portEnvName != "" then [EnvVar(s.portEnvName, Decimal(p))] else [])
  }

  function Names(vs: seq<EnvVar>): seq<string> {
    seq(|vs|, i requires 0 <= i < |vs| => vs[i].name)
  }

  /** The names an instance's variables carry are the names it asks for. */
  lemma InstanceEnvNames(s: InstanceSpec, a: PortAssignment)
    requires a.Socket? <==> IsUnixSocket(s)
    ensures Names(InstanceEnv(s, a)) == RequestedNames(s)
  {
  }

  /** One variable asked for by one instance. */
  datatype EnvRequest = EnvRequest(ref: InstanceRef, v: EnvVar)

  /** The requests of every instance, in instance order. */
  function Requests(refs: seq<InstanceRef>, ports: seq<PortAssignment>): (r: seq<EnvRequest>)
    requires |refs| == |ports|
  {
    if |refs| == 0 then []
    else
      var vs := InstanceEnv(refs[0].spec, ports[0]);
      seq(|vs|, i requires 0 <= i < |vs| => EnvRequest(refs[0], vs[i])) + Requests(refs[1..], ports[1..])
  }

  /** All names asked for by the instances of `specs`, in order. */
  function AllRequestedNames(specs: seq<InstanceSpec>): seq<string> {
    if |specs| == 0 then [] else RequestedNames(specs[0]) + AllRequestedNames(specs[1..])
  }

  function Vars(reqs: seq<EnvRequest>): seq<EnvVar> {
    seq(|reqs|, i requires 0 <= i < |reqs| => reqs[i].v)
  }

  lemma VarsAppend(a: seq<EnvRequest>, b: seq<EnvRequest>)
    ensures Vars(a + b) == Vars(a) + Vars(b)
  {
  }

  lemma NamesAppend(a: seq<EnvVar>, b: seq<EnvVar>)
    ensures Names(a + b) == Names(a) + Names(b)
  {
  }

  lemma SpecsTail(refs: seq<InstanceRef>)
    requires |refs| > 0
    ensures Specs(refs)[1..] == Specs(refs[1..])
  {
  }

  /** The requests carry exactly the instances' variables, in instance order. */
  lemma {:induction false} RequestsVars(refs: seq<InstanceRef>, ports: seq<PortAssignment>)
    requires |refs| == |ports|
    ensures Vars(Requests(refs, ports)) == InstanceVars(Specs(refs), ports)
  {
    if |refs| > 0 {
      RequestsVars(refs[1..], ports[1..]);
      SpecsTail(refs);
      var vs := InstanceEnv(refs[0].spec, ports[0]);
      var head := seq(|vs|, i requires 0 <= i < |vs| => EnvRequest(refs[0], vs[i]));
      VarsAppend(head, Requests(refs[1..], ports[1..]));
      assert Vars(head) == vs;
    }
  }

  /** The names of the instances' variables are the names they ask for. */
  lemma {:induction false} InstanceVarsNames(specs: seq<InstanceSpec>, ports: seq<PortAssignment>)
    requires |specs| == |ports|
    requires forall i :: 0 <= i < |specs| ==> (ports[i].Socket? <==> IsUnixSocket(specs[i]))
    ensures Names(InstanceVars(specs, ports)) == AllRequestedNames(specs)
  {
    if |specs| > 0 {
      InstanceVarsNames(specs[1..], ports[1..]);
      InstanceEnvNames(specs[0], ports[0]);
      NamesAppend(InstanceEnv(specs[0], ports[0]), InstanceVars(specs[1..], ports[1..]));
    }
  }

  /** The request names are exactly the names the instances ask for. */
  lemma RequestNames(refs: seq<InstanceRef>, ports: seq<PortAssignment>)
    requires |refs| == |ports|
    requires forall i :: 0 <= i < |refs| ==> (ports[i].Socket? <==> IsUnixSocket(refs[i].spec))
    ensures Names(Vars(Requests(refs, ports))) == AllRequestedNames(Specs(refs))
  {
    RequestsVars(refs, ports);
    InstanceVarsNames(Specs(refs), ports);
  }

  /** No two variables share a name. */
  predicate DistinctNames(vs: seq<EnvVar>) {
    forall i, j :: 0 <= i < j < |vs| ==> vs[i].name != vs[j].name
  }

  predicate Distinct(names: seq<string>) {
    forall i, j :: 0 <= i < j < |names| ==> names[i] != names[j]
  }

  datatype Merged = Merged(vars: seq<EnvVar>, conflicts: seq<EnvRequest>)

  lemma LookupEnvAppend(vs: seq<EnvVar>, x: EnvVar, n: string)
    ensures LookupEnv(vs + [x], n)
         == if LookupEnv(vs, n).Some? then LookupEnv(vs, n) else if x.name == n then Some(x.value) else None
  {
    if LookupEnv(vs, n).Some? {
      var j :| 0 <= j < |vs| && vs[j].name == n;
      LookupEnvFirst(vs, vs + [x], n);
    } else if x.name == n {
      LookupEnvAfterMisses(vs, x, n);
    } else {
      assert forall i :: 0 <= i < |vs + [x]| ==> (vs + [x])[i].name != n;
    }
  }

  lemma {:induction false} LookupEnvFirst(vs: seq<EnvVar>, ws: seq<EnvVar>, n: string)
    requires LookupEnv(vs, n).Some?
    requires |vs| <= |ws| && ws[..|vs|] == vs
    ensures LookupEnv(ws, n) == LookupEnv(vs, n)
  {
    if vs[0].name != n {
      assert ws[1..][..|vs| - 1] == vs[1..];
      LookupEnvFirst(vs[1..], ws[1..], n);
    }
  }

  lemma {:induction false} LookupEnvAfterMisses(vs: seq<EnvVar>, x: EnvVar, n: string)
    requires LookupEnv(vs, n).None? && x.name == n
    ensures LookupEnv(vs + [x], n) == Some(x.value)
  {
    if |vs| > 0 {
      assert (vs + [x])[1..] == vs[1..] + [x];
      LookupEnvAfterMisses(vs[1..], x, n);
    }
  }

  /** Request `j` asks for a name that an earlier request already asked for. */
  predicate Repeats(reqs: seq<EnvRequest>, j: nat)
    requires j < |reqs|
  {
    exists i :: 0 <= i < j && reqs[i].v.name == reqs[j].v.name
  }

  /** The conflicts are exactly the requests whose name an earlier request already took. */
  ghost predicate ConflictsOf(reqs: seq<EnvRequest>, cs: seq<EnvRequest>) {
    && (forall c :: c in cs ==> exists j :: 0 <= j < |reqs| && reqs[j] == c && Repeats(reqs, j))
    && (forall j :: 0 <= j < |reqs| && Repeats(reqs, j) ==> reqs[j] in cs)
  }

  /**
    What a merge of `reqs` promises: its variables have distinct names and read like the
    requests do, it reports conflicts exactly when two requests share a name, and the
    conflicts are exactly the requests whose name an earlier request already took.
   */
  ghost predicate MergeOf(reqs: seq<EnvRequest>, m: Merged) {
    && DistinctNames(m.vars)
    && (forall n :: LookupEnv(m.vars, n) == LookupEnv(Vars(reqs), n))
    && (|m.conflicts| == 0 <==> DistinctNames(Vars(reqs)))
    && (|m.conflicts| == 0 ==> m.vars == Vars(reqs))
    && ConflictsOf(reqs, m.conflicts)
  }

  /**
    Merge the requests: the first request for a name wins, every later one is a conflict.
   */
  function MergeRequests(reqs: seq<EnvRequest>): (m: Merged)
    ensures MergeOf(reqs, m)
  {
    if |reqs| == 0 then Merged([], [])
    else
      var init := reqs[..|reqs| - 1];
      var last := reqs[|reqs| - 1];
      var m := MergeRequests(init);
      if LookupEnv(m.vars, last.v.name).Some? then
        MergeConflict(init, last, m);
        SplitLast(reqs);
        Merged(m.vars, m.conflicts + [last])
      else
        MergeFresh(init, last, m);
        SplitLast(reqs);
        Merged(m.vars + [last.v], m.conflicts)
  }

  /** Appending a request reads like the earlier ones where they define a name. */
  lemma LookupAppendRequest(init: seq<EnvRequest>, last: EnvRequest, n: string)
    ensures LookupEnv(Vars(init + [last]), n)
         == if LookupEnv(Vars(init), n).Some? then LookupEnv(Vars(init), n)
            else if last.v.name == n then Some(last.v.value) else None
  {
    assert Vars(init + [last]) == Vars(init) + [last.v];
    LookupEnvAppend(Vars(init), last.v, n);
  }

  /** A request for a name already merged is a conflict and changes no variable. */
  lemma MergeConflict(init: seq<EnvRequest>, last: EnvRequest, m: Merged)
    requires MergeOf(init, m) && LookupEnv(m.vars, last.v.name).Some?
    ensures MergeOf(init + [last], Merged(m.vars, m.conflicts + [last]))
  {
    var reqs := init + [last];
    forall n
      ensures LookupEnv(m.vars, n) == LookupEnv(Vars(reqs), n)
    {
      LookupAppendRequest(init, last, n);
    }
    var j :| 0 <= j < |Vars(init)| && Vars(init)[j].name == last.v.name;
    assert Vars(reqs)[j].name == Vars(reqs)[|init|].name;
    ConflictsAddRepeat(init, last, m.conflicts, j);
  }

  /** A request for a new name is added after the merged variables. */
  lemma MergeFresh(init: seq<EnvRequest>, last: EnvRequest, m: Merged)
    requires MergeOf(init, m) && LookupEnv(m.vars, last.v.name).None?
    ensures MergeOf(init + [last], Merged(m.vars + [last.v], m.conflicts))
  {
    var reqs := init + [last];
    forall n
      ensures LookupEnv(m.vars + [last.v], n) == LookupEnv(Vars(reqs), n)
    {
      LookupAppendRequest(init, last, n);
      LookupEnvAppend(m.vars, last.v, n);
    }
    assert forall i :: 0 <= i < |m.vars| ==> m.vars[i].name != last.v.name;
    assert DistinctNames(m.vars + [last.v]);
    assert forall j :: 0 <= j < |init| ==> Vars(init)[j].name != last.v.name;
    assert Vars(reqs) == Vars(init) + [last.v];
    forall i, j | 0 <= i < j < |reqs| && DistinctNames(Vars(init))
      ensures Vars(reqs)[i].name != Vars(reqs)[j].name
    {
      assert Vars(reqs)[i] == Vars(init)[i];
      if j < |init| {
        assert Vars(reqs)[j] == Vars(init)[j];
      }
    }
    assert forall i :: 0 <= i < |init| ==> Vars(init)[i] == Vars(reqs)[i];
    assert forall k :: 0 <= k < |init| ==> init[k].v == Vars(init)[k];
    ConflictsAddFresh(init, last, m.conflicts);
  }

  /** A request whose name an earlier one took is added to the conflicts. */
  lemma ConflictsAddRepeat(init: seq<EnvRequest>, last: EnvRequest, cs: seq<EnvRequest>, i: nat)
    requires ConflictsOf(init, cs) && i < |init| && init[i].v.name == last.v.name
    ensures ConflictsOf(init + [last], cs + [last])
  {
    var reqs := init + [last];
    assert forall k :: 0 <= k < |init| ==> reqs[k] == init[k];
    assert Repeats(reqs, |init|) by {
      assert reqs[i].v.name == reqs[|init|].v.name;
    }
    forall c | c in cs + [last]
      ensures exists k :: 0 <= k < |reqs| && reqs[k] == c && Repeats(reqs, k)
    {
      if c in cs {
        var k :| 0 <= k < |init| && init[k] == c && Repeats(init, k);
        var h :| 0 <= h < k && init[h].v.name == init[k].v.name;
        assert reqs[h].v.name == reqs[k].v.name;
      } else {
        assert reqs[|init|] == c;
      }
    }
    forall k | 0 <= k < |reqs| && Repeats(reqs, k)
      ensures reqs[k] in cs + [last]
    {
      if k < |init| {
        var h :| 0 <= h < k && reqs[h].v.name == reqs[k].v.name;
        assert init[h].v.name == init[k].v.name;
        assert Repeats(init, k);
      }
    }
  }

  /** A request for a name no earlier request took adds no conflict. */
  lemma ConflictsAddFresh(init: seq<EnvRequest>, last: EnvRequest, cs: seq<EnvRequest>)
    requires ConflictsOf(init, cs) && forall k :: 0 <= k < |init| ==> init[k].v.name != last.v.name
    ensures ConflictsOf(init + [last], cs)
  {
    var reqs := init + [last];
    assert forall k :: 0 <= k < |init| ==> reqs[k] == init[k];
    forall c | c in cs
      ensures exists k :: 0 <= k < |reqs| && reqs[k] == c && Repeats(reqs, k)
    {
      var k :| 0 <= k < |init| && init[k] == c && Repeats(init, k);
      var h :| 0 <= h < k && init[h].v.name == init[k].v.name;
      assert reqs[h].v.name == reqs[k].v.name;
    }
    forall k | 0 <= k < |reqs| && Repeats(reqs, k)
      ensures reqs[k] in cs
    {
      var h :| 0 <= h < k && reqs[h].v.name == reqs[k].v.name;
      if k < |init| {
        assert init[h].v.name == init[k].v.name;
        assert Repeats(init, k);
      }
    }
  }

  // ---------------------------------------------------------------------------
  // Setting variables on a container
  // ---------------------------------------------------------------------------

  function NameSet(vs: seq<EnvVar>): set<string> {
    set i | 0 <= i < |vs| :: vs[i].name
  }

  /** `env` without the variables whose name is in `names`. */
  function WithoutNames(env: seq<EnvVar>, names: set<string>): (r: seq<EnvVar>)
    ensures forall i :: 0 <= i < |r| ==> r[i].name !in names
  {
    if |env| == 0 then []
    else (if env[0].name in names then [] else [env[0]]) + WithoutNames(env[1..], names)
  }

  /** `vars` set on `env`: same-named variables are replaced, the rest are kept. */
  function SetEnv(env: seq<EnvVar>, vars: seq<EnvVar>): seq<EnvVar> {
    WithoutNames(env, NameSet(vars)) + vars
  }

  lemma {:induction false} LookupWithoutNames(env: seq<EnvVar>, names: set<string>, n: string)
    ensures LookupEnv(WithoutNames(env, names), n) == if n in names then None else LookupEnv(env, n)
  {
    if |env| > 0 {
      var head := if env[0].name in names then [] else [env[0]];
      LookupWithoutNames(env[1..], names, n);
      LookupConcat(head, WithoutNames(env[1..], names), n);
    }
  }

  lemma {:induction false} LookupConcat(a: seq<EnvVar>, b: seq<EnvVar>, n: string)
    ensures LookupEnv(a + b, n) == if LookupEnv(a, n).Some? then LookupEnv(a, n) else LookupEnv(b, n)
  {
    if |a| > 0 {
      assert (a + b)[1..] == a[1..] + b;
      LookupConcat(a[1..], b, n);
    } else {
      assert a + b == b;
    }
  }

  /** After `SetEnv`, a set name reads the new value and every other name its old value. */
  lemma SetEnvLookup(env: seq<EnvVar>, vars: seq<EnvVar>, n: string)
    ensures LookupEnv(SetEnv(env, vars), n) == if n in NameSet(vars) then LookupEnv(vars, n) else LookupEnv(env, n)
  {
    LookupWithoutNames(env, NameSet(vars), n);
    LookupConcat(WithoutNames(env, NameSet(vars)), vars, n);
    if n in NameSet(vars) {
      var i :| 0 <= i < |vars| && vars[i].name == n;
    }
  }

  lemma {:induction false} WithoutNamesNoop(env: seq<EnvVar>, names: set<string>)
    requires forall i :: 0 <= i < |env| ==> env[i].name !in names
    ensures WithoutNames(env, names) == env
  {
    if |env| > 0 {
      WithoutNamesNoop(env[1..], names);
      assert env == [env[0]] + env[1..];
    }
  }

  lemma {:induction false} WithoutNamesConcat(a: seq<EnvVar>, b: seq<EnvVar>, names: set<string>)
    ensures WithoutNames(a + b, names) == WithoutNames(a, names) + WithoutNames(b, names)
  {
    if |a| > 0 {
      assert (a + b)[1..] == a[1..] + b;
      WithoutNamesConcat(a[1..], b, names);
    } else {
      assert a + b == b;
    }
  }

  lemma {:induction false} WithoutOwnNames(vars: seq<EnvVar>, names: set<string>)
    requires forall i :: 0 <= i < |vars| ==> vars[i].name in names
    ensures WithoutNames(vars, names) == []
  {
    if |vars| > 0 {
      WithoutOwnNames(vars[1..], names);
    }
  }

  /** Setting the same variables twice is the same as setting them once. */
  lemma SetEnvIdempotent(env: seq<EnvVar>, vars: seq<EnvVar>)
    ensures SetEnv(SetEnv(env, vars), vars) == SetEnv(env, vars)
  {
    var names := NameSet(vars);
    var kept := WithoutNames(env, names);
    WithoutNamesConcat(kept, vars, names);
    WithoutNamesNoop(kept, names);
    WithoutOwnNames(vars, names);
  }

  // ---------------------------------------------------------------------------
  // What the instances ask for, instance by instance
  // ---------------------------------------------------------------------------

  /** Every instance's variables, instance after instance. */
  function InstanceVars(specs: seq<InstanceSpec>, ports: seq<PortAssignment>): seq<EnvVar>
    requires |specs| == |ports|
  {
    if |specs| == 0 then [] else InstanceEnv(specs[0], ports[0]) + InstanceVars(specs[1..], ports[1..])
  }

  /** Every variable an instance asks for is among the instances' variables. */
  lemma {:induction false} InstanceVarsMember(specs: seq<InstanceSpec>, ports: seq<PortAssignment>, k: nat, v: EnvVar)
    requires |specs| == |ports| && k < |specs|
    requires v in InstanceEnv(specs[k], ports[k])
    ensures v in InstanceVars(specs, ports)
  {
    if k > 0 {
      assert specs[1..][k - 1] == specs[k] && ports[1..][k - 1] == ports[k];
      InstanceVarsMember(specs[1..], ports[1..], k - 1, v);
    }
  }

  /** Among variables with distinct names, a variable's name reads its value. */
  lemma LookupDistinct(vs: seq<EnvVar>, v: EnvVar)
    requires DistinctNames(vs) && v in vs
    ensures LookupEnv(vs, v.name) == Some(v.value)
  {
    var r := LookupEnv(vs, v.name);
    var i :| 0 <= i < |vs| && vs[i] == v;
    var j :| 0 <= j < |vs| && vs[j] == EnvVar(v.name, r.value);
    if i != j {
      assert vs[i].name == vs[j].name;
    }
  }
}
