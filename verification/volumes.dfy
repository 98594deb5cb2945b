/**
  Volume planner. A proxy creates each Unix socket inside the socket path's parent
  directory, so every distinct parent directory becomes one shared `emptyDir` volume,
  mounted at that directory on the application containers and on the sidecars whose
  instances use it. Planned volumes and mounts carry the managed name prefix, so a
  second update replaces them instead of adding copies.
 */
module Volumes {
  import opened Text
  import opened Seqs
  import opened Kube
  import opened Api

  const VolumePrefix := "csql-socket-"

  /** `d` is the directory holding instance `s`'s socket. */
  predicate SocketIn(s: InstanceSpec, d: string) {
    IsUnixSocket(s) && Dir(s.unixSocketPath) == d
  }

  /** The parent directory of every socket instance's path, in instance order. */
  function SocketDirs(specs: seq<InstanceSpec>): (r: seq<string>)
    ensures |r| <= |specs|
  {
    if |specs| == 0 then []
    else
      var last := specs[|specs| - 1];
      SocketDirs(specs[..|specs| - 1]) + (if IsUnixSocket(last) then [Dir(last.unixSocketPath)] else [])
  }

  /** Every socket instance's directory is listed. */
  lemma {:induction false} SocketDirsComplete(specs: seq<InstanceSpec>, i: nat)
    requires i < |specs| && IsUnixSocket(specs[i])
    ensures Dir(specs[i].unixSocketPath) in SocketDirs(specs)
  {
    var n := |specs| - 1;
    if i < n {
      assert specs[..n][i] == specs[i];
      SocketDirsComplete(specs[..n], i);
    }
  }

  /** Every listed directory holds some instance's socket. */
  lemma {:induction false} SocketDirsSound(specs: seq<InstanceSpec>, d: string)
    requires d in SocketDirs(specs)
    ensures exists i :: 0 <= i < |specs| && SocketIn(specs[i], d)
  {
    var n := |specs| - 1;
    var last := specs[n];
    if d in SocketDirs(specs[..n]) {
      SocketDirsSound(specs[..n], d);
      var i :| 0 <= i < n && SocketIn(specs[..n][i], d);
      assert specs[i] == specs[..n][i];
    } else {
      assert SocketIn(specs[n], d);
    }
  }

  function VolumeName(k: nat): string {
    VolumePrefix + Decimal(k)
  }

  /** Different plan positions never share a volume name. */
  lemma VolumeNameInjective(a: nat, b: nat)
    requires VolumeName(a) == VolumeName(b)
    ensures a == b
  {
    assert VolumeName(a)[|VolumePrefix|..] == Decimal(a);
    assert VolumeName(b)[|VolumePrefix|..] == Decimal(b);
    DecimalInjective(a, b);
  }

  predicate IsManaged(name: string) {
    HasPrefix(name, VolumePrefix)
  }

  datatype Plan = Plan(volumes: seq<Volume>, mounts: seq<VolumeMount>)

  /**
    One volume and one mount per distinct socket directory, in order of first use; the
    k-th mount is at the k-th directory and refers to the k-th volume.
   */
  function PlanVolumes(specs: seq<InstanceSpec>): (p: Plan)
    ensures |p.volumes| == |p.mounts|
    ensures forall k :: 0 <= k < |p.mounts| ==>
      && p.mounts[k].name == p.volumes[k].name
      && p.volumes[k].source == EmptyDir
      && IsManaged(p.volumes[k].name)
  {
    var dirs := Dedup(SocketDirs(specs));
    Plan(
      seq(|dirs|, k requires 0 <= k < |dirs| => Volume(VolumeName(k), EmptyDir)),
      seq(|dirs|, k requires 0 <= k < |dirs| => VolumeMount(VolumeName(k), dirs[k])))
  }

  function MountPaths(p: Plan): seq<string> {
    seq(|p.mounts|, k requires 0 <= k < |p.mounts| => p.mounts[k].mountPath)
  }

  /** The mount directories are exactly the socket directories, each once. */
  lemma PlanMountsSocketDirs(specs: seq<InstanceSpec>)
    ensures MountPaths(PlanVolumes(specs)) == Dedup(SocketDirs(specs))
  {
  }

  /** The socket directories of a split list are those of its parts. */
  lemma {:induction false} SocketDirsAppend(a: seq<InstanceSpec>, b: seq<InstanceSpec>)
    ensures SocketDirs(a + b) == SocketDirs(a) + SocketDirs(b)
    decreases |b|
  {
    if |b| > 0 {
      var n := |b| - 1;
      assert (a + b)[..|a + b| - 1] == a + b[..n];
      SocketDirsAppend(a, b[..n]);
    } else {
      assert a + b == a;
    }
  }

  /**
    The socket directories of the instances before a socket instance come first, and that
    instance's directory right after them.
   */
  lemma {:induction false} SocketDirsAt(specs: seq<InstanceSpec>, j: nat)
    requires j < |specs| && IsUnixSocket(specs[j])
    ensures var before := SocketDirs(specs[..j]);
      && |before| < |SocketDirs(specs)|
      && SocketDirs(specs)[|before|] == Dir(specs[j].unixSocketPath)
      && forall q :: 0 <= q < |before| ==> SocketDirs(specs)[q] == before[q]
  {
    var rest := [specs[j]] + specs[j + 1..];
    assert specs == specs[..j] + rest;
    SocketDirsAppend(specs[..j], rest);
    SocketDirsAppend([specs[j]], specs[j + 1..]);
    assert [specs[j]][..0] == [];
    assert SocketDirs([specs[j]]) == [Dir(specs[j].unixSocketPath)];
  }

  /**
    The distinct socket directories come in order of first use: any socket in a later
    directory comes after some socket in an earlier one.
   */
  lemma {:induction false} DirsInOrderOfFirstUse(specs: seq<InstanceSpec>, k1: nat, k2: nat, j: nat)
    requires k1 < k2 < |Dedup(SocketDirs(specs))|
    requires j < |specs| && SocketIn(specs[j], Dedup(SocketDirs(specs))[k2])
    ensures exists i :: 0 <= i < j && SocketIn(specs[i], Dedup(SocketDirs(specs))[k1])
  {
    var all := SocketDirs(specs);
    var before := SocketDirs(specs[..j]);
    SocketDirsAt(specs, j);
    DedupOrder(all, k1, k2, |before|);
    var q :| 0 <= q < |before| && all[q] == Dedup(all)[k1];
    assert before[q] in before;
    SocketDirsSound(specs[..j], before[q]);
    var i :| 0 <= i < j && SocketIn(specs[..j][i], before[q]);
    assert specs[i] == specs[..j][i];
  }

  /**
    The planned mounts come in order of first use: every socket instance whose directory
    is a later mount's comes after some socket instance whose directory is an earlier one's.
   */
  lemma PlanInOrderOfFirstUse(specs: seq<InstanceSpec>, k1: nat, k2: nat, j: nat)
    requires k1 < k2 < |PlanVolumes(specs).mounts|
    requires j < |specs| && SocketIn(specs[j], PlanVolumes(specs).mounts[k2].mountPath)
    ensures exists i :: 0 <= i < j && SocketIn(specs[i], PlanVolumes(specs).mounts[k1].mountPath)
  {
    var dirs := Dedup(SocketDirs(specs));
    assert PlanVolumes(specs).mounts[k1].mountPath == dirs[k1];
    assert PlanVolumes(specs).mounts[k2].mountPath == dirs[k2];
    DirsInOrderOfFirstUse(specs, k1, k2, j);
  }

  /** Every socket instance's directory is mounted. */
  lemma PlanCoversSockets(specs: seq<InstanceSpec>, i: nat)
    requires i < |specs| && IsUnixSocket(specs[i])
    ensures exists k :: 0 <= k < |PlanVolumes(specs).mounts| &&
                        PlanVolumes(specs).mounts[k].mountPath == Dir(specs[i].unixSocketPath)
  {
    SocketDirsComplete(specs, i);
    var all := SocketDirs(specs);
    var dirs := Dedup(all);
    var j :| 0 <= j < |all| && all[j] == Dir(specs[i].unixSocketPath);
    var k :| 0 <= k < |dirs| && dirs[k] == all[j];
    PlanMountsSocketDirs(specs);
    assert MountPaths(PlanVolumes(specs))[k] == dirs[k];
  }

  /** Every planned mount is the directory of some socket instance. */
  lemma PlanOnlySockets(specs: seq<InstanceSpec>, k: nat)
    requires k < |PlanVolumes(specs).mounts|
    ensures exists i :: 0 <= i < |specs| && SocketIn(specs[i], PlanVolumes(specs).mounts[k].mountPath)
  {
    var dirs := Dedup(SocketDirs(specs));
    PlanMountsSocketDirs(specs);
    assert MountPaths(PlanVolumes(specs))[k] == dirs[k];
    SocketDirsSound(specs, dirs[k]);
  }

  /** No two planned mounts share a directory, and no two planned volumes share a name. */
  lemma PlanDistinct(specs: seq<InstanceSpec>)
    ensures var p := PlanVolumes(specs);
      && (forall k, l :: 0 <= k < l < |p.mounts| ==> p.mounts[k].mountPath != p.mounts[l].mountPath)
      && (forall k, l :: 0 <= k < l < |p.volumes| ==> p.volumes[k].name != p.volumes[l].name)
  {
    var p := PlanVolumes(specs);
    forall k, l | 0 <= k < l < |p.volumes|
      ensures p.volumes[k].name != p.volumes[l].name
    {
      if p.volumes[k].name == p.volumes[l].name {
        VolumeNameInjective(k, l);
      }
    }
  }

  /** Each socket directory has exactly one planned mount. */
  lemma OneMountPerDir(specs: seq<InstanceSpec>, i: nat, k: nat, l: nat)
    requires i < |specs| && IsUnixSocket(specs[i])
    requires k < |PlanVolumes(specs).mounts| && l < |PlanVolumes(specs).mounts|
    requires PlanVolumes(specs).mounts[k].mountPath == Dir(specs[i].unixSocketPath)
    requires PlanVolumes(specs).mounts[l].mountPath == Dir(specs[i].unixSocketPath)
    ensures k == l
  {
    PlanDistinct(specs);
  }

  predicate KeepMount(m: VolumeMount) {
    !IsManaged(m.name)
  }

  predicate KeepVolume(v: Volume) {
    !IsManaged(v.name)
  }

  /** A container's mounts with earlier planned mounts replaced by `mounts`. */
  function WithMounts(c: Container, mounts: seq<VolumeMount>): Container {
    c.(volumeMounts := Filter(c.volumeMounts, KeepMount) + mounts)
  }

  /** The Pod's volumes with earlier planned volumes replaced by the plan's. */
  function WithVolumes(vols: seq<Volume>, plan: Plan): seq<Volume> {
    Filter(vols, KeepVolume) + plan.volumes
  }

  /** Mounting managed mounts a second time changes nothing. */
  lemma WithMountsIdempotent(c: Container, mounts: seq<VolumeMount>)
    requires forall k :: 0 <= k < |mounts| ==> IsManaged(mounts[k].name)
    ensures WithMounts(WithMounts(c, mounts), mounts) == WithMounts(c, mounts)
  {
    FilterReplace(c.volumeMounts, mounts, KeepMount);
  }

  /** Adding the planned volumes a second time changes nothing. */
  lemma WithVolumesIdempotent(vols: seq<Volume>, plan: Plan)
    requires forall k :: 0 <= k < |plan.volumes| ==> IsManaged(plan.volumes[k].name)
    ensures WithVolumes(WithVolumes(vols, plan), plan) == WithVolumes(vols, plan)
  {
    FilterReplace(vols, plan.volumes, KeepVolume);
  }

  /** The planned mounts a sidecar needs: those at its own instances' socket directories. */
  function SidecarMounts(plan: Plan, own: seq<InstanceSpec>): (r: seq<VolumeMount>)
    ensures forall k :: 0 <= k < |r| ==> r[k] in plan.mounts && r[k].mountPath in SocketDirs(own)
  {
    var dirs := SocketDirs(own);
    Filter(plan.mounts, (m: VolumeMount) => m.mountPath in dirs)
  }

  /** A planned mount at the directory of one of the sidecar's own sockets is among its mounts. */
  lemma {:induction false} SidecarMountsComplete(plan: Plan, own: seq<InstanceSpec>, s: InstanceSpec, m: VolumeMount)
    requires s in own && IsUnixSocket(s)
    requires m in plan.mounts && m.mountPath == Dir(s.unixSocketPath)
    ensures m in SidecarMounts(plan, own)
  {
    var i :| 0 <= i < |own| && own[i] == s;
    SocketDirsComplete(own, i);
    var j :| 0 <= j < |plan.mounts| && plan.mounts[j] == m;
  }

  /** Two socket instances in one directory list that directory twice. */
  lemma SocketDirsPair(specs: seq<InstanceSpec>, dir: string)
    requires |specs| == 2 && SocketIn(specs[0], dir) && SocketIn(specs[1], dir)
    ensures SocketDirs(specs) == [dir, dir]
  {
    assert specs[..1][..0] == [];
  }

  /** The plan for a single socket directory. */
  lemma PlanOneDir(specs: seq<InstanceSpec>, dir: string)
    requires Dedup(SocketDirs(specs)) == [dir]
    ensures PlanVolumes(specs).volumes == [Volume(VolumeName(0), EmptyDir)]
    ensures PlanVolumes(specs).mounts == [VolumeMount(VolumeName(0), dir)]
  {
  }

  /** Two sockets in the same directory share one volume and one mount. */
  lemma SharedDirectory(specs: seq<InstanceSpec>, dir: string, a: string, b: string)
    requires dir != "" && '/' !in a && '/' !in b
    requires |specs| == 2
    requires specs[0].unixSocketPath == dir + "/" + a && specs[1].unixSocketPath == dir + "/" + b
    ensures PlanVolumes(specs).volumes == [Volume(VolumeName(0), EmptyDir)]
    ensures PlanVolumes(specs).mounts == [VolumeMount(VolumeName(0), dir)]
  {
    DirOfChild(dir, a);
    DirOfChild(dir, b);
    SocketDirsPair(specs, dir);
    DedupPair(dir);
    PlanOneDir(specs, dir);
  }

  /** The Pod's own volumes survive in order, and every added volume is a planned `emptyDir` one. */
  lemma WithVolumesKeeps(vols: seq<Volume>, specs: seq<InstanceSpec>)
    ensures var r := WithVolumes(vols, PlanVolumes(specs));
      && Filter(r, KeepVolume) == Filter(vols, KeepVolume)
      && forall v :: v in r && !KeepVolume(v) ==> v in PlanVolumes(specs).volumes && v.source == EmptyDir
  {
    var plan := PlanVolumes(specs);
    var kept := Filter(vols, KeepVolume);
    FilterAppend(kept, plan.volumes, KeepVolume);
    FilterKeepsAll(kept, KeepVolume);
    FilterDropsAll(plan.volumes, KeepVolume);
  }

  /** A container's own mounts survive in order. */
  lemma WithMountsKeeps(c: Container, specs: seq<InstanceSpec>)
    ensures Filter(WithMounts(c, PlanVolumes(specs).mounts).volumeMounts, KeepMount) == Filter(c.volumeMounts, KeepMount)
  {
    var plan := PlanVolumes(specs);
    var kept := Filter(c.volumeMounts, KeepMount);
    FilterAppend(kept, plan.mounts, KeepMount);
    FilterKeepsAll(kept, KeepMount);
    FilterDropsAll(plan.mounts, KeepMount);
  }

  /**
    A container given the planned mounts mounts, at each socket instance's directory, a
    volume that the Pod given the planned volumes declares as `emptyDir`.
   */
  lemma {:induction false} SocketMounted(c: Container, vols: seq<Volume>, specs: seq<InstanceSpec>, k: nat)
    requires k < |specs| && IsUnixSocket(specs[k])
    ensures var plan := PlanVolumes(specs);
      exists m :: m in WithMounts(c, plan.mounts).volumeMounts && m.mountPath == Dir(specs[k].unixSocketPath)
                  && Volume(m.name, EmptyDir) in WithVolumes(vols, plan)
  {
    var plan := PlanVolumes(specs);
    PlanCoversSockets(specs, k);
    var j :| 0 <= j < |plan.mounts| && plan.mounts[j].mountPath == Dir(specs[k].unixSocketPath);
    PlannedMountAt(c, vols, plan, j);
  }

  /** A planned mount ends up on the container, and its volume, as `emptyDir`, on the Pod. */
  lemma PlannedMountAt(c: Container, vols: seq<Volume>, plan: Plan, j: nat)
    requires |plan.volumes| == |plan.mounts| && j < |plan.mounts|
    requires plan.mounts[j].name == plan.volumes[j].name && plan.volumes[j].source == EmptyDir
    ensures plan.mounts[j] in WithMounts(c, plan.mounts).volumeMounts
    ensures Volume(plan.mounts[j].name, EmptyDir) in WithVolumes(vols, plan)
  {
    var kept := Filter(c.volumeMounts, KeepMount);
    assert plan.mounts[j] == (kept + plan.mounts)[|kept| + j];
    assert plan.volumes[j] == Volume(plan.mounts[j].name, EmptyDir);
    assert WithVolumes(vols, plan)[|Filter(vols, KeepVolume)| + j] == plan.volumes[j];
  }
}
