/**
  Port allocator. Every TCP instance (one without a Unix-socket path) gets a port: its own
  when it names one, otherwise the next free port counting up from `DefaultFirstPort`,
  where "free" means neither a port of the workload's containers nor a port some instance
  names explicitly. An explicit port that is already a workload container port, or that an
  earlier instance already named, is a conflict.
 */
module Ports {
  import opened Optional
  import opened Api
  import opened Defaults

  /** The port a TCP instance names itself; Unix-socket instances never take a port. */
  function ExplicitPort(s: InstanceSpec): Option<int> {
    if !IsUnixSocket(s) && s.port.Some? then s.port else None
  }

  /** A TCP instance that leaves its port to the allocator. */
  predicate IsImplicit(s: InstanceSpec) {
    !IsUnixSocket(s) && s.port.None?
  }

  /** The ports instances in `specs` name explicitly. */
  function ExplicitPorts(specs: seq<InstanceSpec>): (r: set<int>)
    ensures forall i :: 0 <= i < |specs| && ExplicitPort(specs[i]).Some? ==> ExplicitPort(specs[i]).value in r
    ensures forall p :: p in r ==> exists i :: 0 <= i < |specs| && ExplicitPort(specs[i]) == Some(p)
  {
    if |specs| == 0 then {}
    else
      var rest := ExplicitPorts(specs[1..]);
      assert forall i :: 1 <= i < |specs| ==> specs[i] == specs[1..][i - 1];
      (match ExplicitPort(specs[0]) case Some(p) => {p} case None => {}) + rest
  }

  /** How many instances of `specs` leave their port to the allocator. */
  function CountImplicit(specs: seq<InstanceSpec>): nat {
    if |specs| == 0 then 0 else (if IsImplicit(specs[0]) then 1 else 0) + CountImplicit(specs[1..])
  }

  /** The first integer at or above `candidate` that is not reserved. */
  function NextFree(reserved: set<int>, candidate: int): (p: int)
    ensures candidate <= p && p !in reserved
    ensures forall q :: candidate <= q < p ==> q in reserved
    decreases reserved
  {
    if candidate in reserved then NextFree(reserved - {candidate}, candidate + 1) else candidate
  }

  /** Reference definition: the `j`-th (counting from 0) unreserved integer at or above `from`. */
  function NthFree(reserved: set<int>, from: int, j: nat): (p: int)
    ensures from <= p && p !in reserved
    decreases j
  {
    if j == 0 then NextFree(reserved, from) else NthFree(reserved, NextFree(reserved, from) + 1, j - 1)
  }

  /** Past the first free integer, the count restarts one above it. */
  lemma NthFreeStep(reserved: set<int>, from: int, j: nat)
    requires j > 0
    ensures NthFree(reserved, from, j) == NthFree(reserved, NextFree(reserved, from) + 1, j - 1)
  {
  }

  datatype PortAssignment = Socket | Tcp(port: int, conflict: bool)

  /**
    The allocator as a single pass: `next` is the next candidate for an implicit port and
    `seen` the explicit ports met so far.
   */
  function Assign(workloadPorts: set<int>, reserved: set<int>, specs: seq<InstanceSpec>,
                  next: int, seen: set<int>): (r: seq<PortAssignment>)
    ensures |r| == |specs|
  {
    if |specs| == 0 then []
    else
      var s := specs[0];
      if IsUnixSocket(s) then
        [Socket] + Assign(workloadPorts, reserved, specs[1..], next, seen)
      else if s.port.Some? then
        var p := s.port.value;
        [Tcp(p, p in workloadPorts || p in seen)] + Assign(workloadPorts, reserved, specs[1..], next, seen + {p})
      else
        var p := NextFree(reserved, next);
        [Tcp(p, false)] + Assign(workloadPorts, reserved, specs[1..], p + 1, seen)
  }

  /** What the pass of `Assign` gives instance `i`, described without the running state. */
  predicate AssignedAt(workloadPorts: set<int>, reserved: set<int>, specs: seq<InstanceSpec>,
                       next: int, seen: set<int>, i: nat)
    requires i < |specs|
  {
    var r := Assign(workloadPorts, reserved, specs, next, seen);
    && (IsUnixSocket(specs[i]) ==> r[i] == Socket)
    && (ExplicitPort(specs[i]).Some? ==>
          var p := ExplicitPort(specs[i]).value;
          r[i] == Tcp(p, p in workloadPorts || p in seen || p in ExplicitPorts(specs[..i])))
    && (IsImplicit(specs[i]) ==> r[i] == Tcp(NthFree(reserved, next, CountImplicit(specs[..i])), false))
  }

  /** The pass of `Assign`, instance `i`, described without the running state. */
  lemma {:induction false} AssignAt(workloadPorts: set<int>, reserved: set<int>, specs: seq<InstanceSpec>,
                                    next: int, seen: set<int>, i: nat)
    requires i < |specs|
    ensures IsUnixSocket(specs[i]) ==> Assign(workloadPorts, reserved, specs, next, seen)[i] == Socket
    ensures ExplicitPort(specs[i]).Some? ==>
      var p := ExplicitPort(specs[i]).value;
      Assign(workloadPorts, reserved, specs, next, seen)[i]
        == Tcp(p, p in workloadPorts || p in seen || p in ExplicitPorts(specs[..i]))
    ensures IsImplicit(specs[i]) ==>
      Assign(workloadPorts, reserved, specs, next, seen)[i]
        == Tcp(NthFree(reserved, next, CountImplicit(specs[..i])), false)
    decreases i
  {
    if i == 0 {
      assert specs[..0] == [];
    } else if IsUnixSocket(specs[0]) {
      AssignAt(workloadPorts, reserved, specs[1..], next, seen, i - 1);
      AfterSocket(workloadPorts, reserved, specs, next, seen, i);
    } else if specs[0].port.Some? {
      AssignAt(workloadPorts, reserved, specs[1..], next, seen + {specs[0].port.value}, i - 1);
      AfterExplicit(workloadPorts, reserved, specs, next, seen, i);
    } else {
      AssignAt(workloadPorts, reserved, specs[1..], NextFree(reserved, next) + 1, seen, i - 1);
      AfterImplicit(workloadPorts, reserved, specs, next, seen, i);
    }
  }

  /** How the prefix before instance `i` splits into the head and the rest. */
  lemma PrefixSplit(specs: seq<InstanceSpec>, i: nat)
    requires 0 < i < |specs|
    ensures specs[..i][1..] == specs[1..][..i - 1] && specs[..i][0] == specs[0]
    ensures specs[1..][i - 1] == specs[i]
  {
  }

  lemma {:induction false} AfterSocket(workloadPorts: set<int>, reserved: set<int>, specs: seq<InstanceSpec>,
                                       next: int, seen: set<int>, i: nat)
    requires 0 < i < |specs| && IsUnixSocket(specs[0])
    requires AssignedAt(workloadPorts, reserved, specs[1..], next, seen, i - 1)
    ensures AssignedAt(workloadPorts, reserved, specs, next, seen, i)
  {
    var tail := Assign(workloadPorts, reserved, specs[1..], next, seen);
    PrefixSplit(specs, i);
    assert Assign(workloadPorts, reserved, specs, next, seen) == [Socket] + tail;
    ConsIndex(Socket, tail, i);
  }

  lemma {:induction false} AfterExplicit(workloadPorts: set<int>, reserved: set<int>, specs: seq<InstanceSpec>,
                                         next: int, seen: set<int>, i: nat)
    requires 0 < i < |specs| && !IsUnixSocket(specs[0]) && specs[0].port.Some?
    requires AssignedAt(workloadPorts, reserved, specs[1..], next, seen + {specs[0].port.value}, i - 1)
    ensures AssignedAt(workloadPorts, reserved, specs, next, seen, i)
  {
    var p := specs[0].port.value;
    var head := Tcp(p, p in workloadPorts || p in seen);
    var tail := Assign(workloadPorts, reserved, specs[1..], next, seen + {p});
    PrefixSplit(specs, i);
    assert Assign(workloadPorts, reserved, specs, next, seen) == [head] + tail;
    ConsIndex(head, tail, i);
    assert ExplicitPorts(specs[..i]) == {p} + ExplicitPorts(specs[1..][..i - 1]);
  }

  lemma {:induction false} AfterImplicit(workloadPorts: set<int>, reserved: set<int>, specs: seq<InstanceSpec>,
                                         next: int, seen: set<int>, i: nat)
    requires 0 < i < |specs| && IsImplicit(specs[0])
    requires AssignedAt(workloadPorts, reserved, specs[1..], NextFree(reserved, next) + 1, seen, i - 1)
    ensures AssignedAt(workloadPorts, reserved, specs, next, seen, i)
  {
    var first := NextFree(reserved, next);
    var tail := Assign(workloadPorts, reserved, specs[1..], first + 1, seen);
    PrefixSplit(specs, i);
    assert Assign(workloadPorts, reserved, specs, next, seen) == [Tcp(first, false)] + tail;
    ConsIndex(Tcp(first, false), tail, i);
    assert CountImplicit(specs[..i]) == 1 + CountImplicit(specs[1..][..i - 1]);
    NthFreeStep(reserved, next, CountImplicit(specs[..i]));
  }

  /** Past the head, a cons reads like its tail. */
  lemma ConsIndex<T>(x: T, tail: seq<T>, i: nat)
    requires 0 < i <= |tail|
    ensures ([x] + tail)[i] == tail[i - 1]
  {
  }

  /** The ports for all instances: the workload's container ports and every explicit port are reserved. */
  function AssignPorts(workloadPorts: set<int>, specs: seq<InstanceSpec>): (r: seq<PortAssignment>)
    ensures |r| == |specs|
    ensures forall i :: 0 <= i < |specs| ==> (r[i].Socket? <==> IsUnixSocket(specs[i]))
    ensures forall i :: 0 <= i < |specs| && ExplicitPort(specs[i]).Some? ==>
      r[i] == Tcp(ExplicitPort(specs[i]).value,
                  ExplicitPort(specs[i]).value in workloadPorts
                  || ExplicitPort(specs[i]).value in ExplicitPorts(specs[..i]))
    ensures forall i :: 0 <= i < |specs| && IsImplicit(specs[i]) ==>
      r[i] == Tcp(NthFree(workloadPorts + ExplicitPorts(specs), DefaultFirstPort, CountImplicit(specs[..i])), false)
  {
    var reserved := workloadPorts + ExplicitPorts(specs);
    var r := Assign(workloadPorts, reserved, specs, DefaultFirstPort, {});
    forall i | 0 <= i < |specs|
      ensures (r[i].Socket? <==> IsUnixSocket(specs[i]))
      ensures ExplicitPort(specs[i]).Some? ==>
        r[i] == Tcp(ExplicitPort(specs[i]).value,
                    ExplicitPort(specs[i]).value in workloadPorts
                    || ExplicitPort(specs[i]).value in ExplicitPorts(specs[..i]))
      ensures IsImplicit(specs[i]) ==>
        r[i] == Tcp(NthFree(reserved, DefaultFirstPort, CountImplicit(specs[..i])), false)
    {
      AssignAt(workloadPorts, reserved, specs, DefaultFirstPort, {}, i);
    }
    r
  }

  // ---------------------------------------------------------------------------
  // Properties of the reference definition
  // ---------------------------------------------------------------------------

  /** Later free ports are strictly greater: the allocator never hands out a port twice. */
  lemma {:induction false} NthFreeIncreasing(reserved: set<int>, from: int, j1: nat, j2: nat)
    requires j1 < j2
    ensures NthFree(reserved, from, j1) < NthFree(reserved, from, j2)
    decreases j1
  {
    var first := NextFree(reserved, from);
    if j1 > 0 {
      NthFreeIncreasing(reserved, first + 1, j1 - 1, j2 - 1);
    }
  }

  /** With no reserved port in `[from, from + j]`, the `j`-th free port is `from + j`. */
  lemma {:induction false} NthFreeConsecutive(reserved: set<int>, from: int, j: nat)
    requires forall q :: from <= q <= from + j ==> q !in reserved
    ensures NthFree(reserved, from, j) == from + j
    decreases j
  {
    if j > 0 {
      NthFreeConsecutive(reserved, from + 1, j - 1);
    }
  }

  /**
    No free port is skipped: every unreserved port between `from` and the `j`-th free
    port is itself one of the first `j + 1` free ports.
   */
  lemma {:induction false} NthFreeNoGap(reserved: set<int>, from: int, j: nat, q: int)
    requires from <= q <= NthFree(reserved, from, j) && q !in reserved
    ensures exists j' :: 0 <= j' <= j && NthFree(reserved, from, j') == q
    decreases j
  {
    var first := NextFree(reserved, from);
    if q == first {
      assert NthFree(reserved, from, 0) == q;
    } else {
      assert q > first;
      NthFreeNoGap(reserved, first + 1, j - 1, q);
      var j' :| 0 <= j' <= j - 1 && NthFree(reserved, first + 1, j') == q;
      assert NthFree(reserved, from, j' + 1) == q;
    }
  }

  lemma {:induction false} CountImplicitAppend(a: seq<InstanceSpec>, b: seq<InstanceSpec>)
    ensures CountImplicit(a + b) == CountImplicit(a) + CountImplicit(b)
  {
    if |a| > 0 {
      assert (a + b)[1..] == a[1..] + b;
      CountImplicitAppend(a[1..], b);
    } else {
      assert a + b == b;
    }
  }

  lemma CountImplicitGrows(specs: seq<InstanceSpec>, i: nat, j: nat)
    requires i < j <= |specs| && IsImplicit(specs[i])
    ensures CountImplicit(specs[..i]) < CountImplicit(specs[..j])
  {
    assert specs[..j] == specs[..i] + specs[i..j];
    CountImplicitAppend(specs[..i], specs[i..j]);
  }

  lemma {:induction false} CountImplicitAll(specs: seq<InstanceSpec>)
    requires forall i :: 0 <= i < |specs| ==> IsImplicit(specs[i])
    ensures CountImplicit(specs) == |specs|
  {
    if |specs| > 0 {
      CountImplicitAll(specs[1..]);
    }
  }

  // ---------------------------------------------------------------------------
  // Properties of the allocation
  // ---------------------------------------------------------------------------

  /** Instance `i` names a port a workload container already uses or an earlier instance names. */
  predicate ClashesAt(workloadPorts: set<int>, specs: seq<InstanceSpec>, i: nat)
    requires i < |specs|
  {
    ExplicitPort(specs[i]).Some? &&
      (ExplicitPort(specs[i]).value in workloadPorts
       || exists j :: 0 <= j < i && ExplicitPort(specs[j]) == ExplicitPort(specs[i]))
  }

  /** Two TCP instances name the same port, or one names a port a workload container already uses. */
  predicate HasPortConflict(workloadPorts: set<int>, specs: seq<InstanceSpec>) {
    exists i :: 0 <= i < |specs| && ClashesAt(workloadPorts, specs, i)
  }

  predicate AnyConflict(r: seq<PortAssignment>) {
    exists i :: 0 <= i < |r| && r[i].Tcp? && r[i].conflict
  }

  /** The explicit ports before position `i` are the ports earlier instances name. */
  lemma EarlierPorts(specs: seq<InstanceSpec>, i: nat, p: int)
    requires i <= |specs|
    ensures p in ExplicitPorts(specs[..i]) <==> exists j :: 0 <= j < i && ExplicitPort(specs[j]) == Some(p)
  {
    if p in ExplicitPorts(specs[..i]) {
      var j :| 0 <= j < i && ExplicitPort(specs[..i][j]) == Some(p);
      assert specs[..i][j] == specs[j];
    }
    if exists j :: 0 <= j < i && ExplicitPort(specs[j]) == Some(p) {
      var j :| 0 <= j < i && ExplicitPort(specs[j]) == Some(p);
      assert specs[..i][j] == specs[j];
    }
  }

  /** Instance `i` is flagged exactly when it clashes. */
  lemma ConflictAt(workloadPorts: set<int>, specs: seq<InstanceSpec>, i: nat)
    requires i < |specs|
    ensures var r := AssignPorts(workloadPorts, specs);
      r[i].Tcp? && r[i].conflict <==> ClashesAt(workloadPorts, specs, i)
  {
    if ExplicitPort(specs[i]).Some? {
      EarlierPorts(specs, i, ExplicitPort(specs[i]).value);
    }
  }

  /** The allocation flags a conflict exactly when the instances' explicit ports clash. */
  lemma PortConflictIff(workloadPorts: set<int>, specs: seq<InstanceSpec>)
    ensures AnyConflict(AssignPorts(workloadPorts, specs)) <==> HasPortConflict(workloadPorts, specs)
  {
    var r := AssignPorts(workloadPorts, specs);
    if AnyConflict(r) {
      var i :| 0 <= i < |r| && r[i].Tcp? && r[i].conflict;
      ConflictAt(workloadPorts, specs, i);
    }
    if HasPortConflict(workloadPorts, specs) {
      var i :| 0 <= i < |specs| && ClashesAt(workloadPorts, specs, i);
      ConflictAt(workloadPorts, specs, i);
    }
  }

  /**
    Port uniqueness: without a conflict, no two instances share a port and no instance
    takes a port a workload container already uses.
   */
  lemma PortsDistinctWithoutConflict(workloadPorts: set<int>, specs: seq<InstanceSpec>)
    requires !AnyConflict(AssignPorts(workloadPorts, specs))
    ensures forall i :: 0 <= i < |specs| && !IsUnixSocket(specs[i]) ==>
      AssignPorts(workloadPorts, specs)[i].port !in workloadPorts
    ensures forall i, j :: 0 <= i < j < |specs| && !IsUnixSocket(specs[i]) && !IsUnixSocket(specs[j]) ==>
      AssignPorts(workloadPorts, specs)[i].port != AssignPorts(workloadPorts, specs)[j].port
  {
    var r := AssignPorts(workloadPorts, specs);
    var reserved := workloadPorts + ExplicitPorts(specs);
    forall i, j | 0 <= i < j < |specs| && !IsUnixSocket(specs[i]) && !IsUnixSocket(specs[j])
      ensures r[i].port != r[j].port
    {
      if IsImplicit(specs[i]) && IsImplicit(specs[j]) {
        CountImplicitGrows(specs, i, j);
        NthFreeIncreasing(reserved, DefaultFirstPort, CountImplicit(specs[..i]), CountImplicit(specs[..j]));
      } else if !IsImplicit(specs[i]) && !IsImplicit(specs[j]) {
        assert specs[..j][i] == specs[i];
        assert !r[j].conflict;
      } else if !IsImplicit(specs[i]) {
        assert ExplicitPort(specs[i]).value in ExplicitPorts(specs);
      } else {
        assert ExplicitPort(specs[j]).value in ExplicitPorts(specs);
      }
    }
  }

  /**
    Default sequencing: when every instance leaves its port open and no workload port lies
    in the way, the instances receive `DefaultFirstPort`, `DefaultFirstPort + 1`, ... in order.
   */
  lemma DefaultPortsConsecutive(workloadPorts: set<int>, specs: seq<InstanceSpec>)
    requires forall i :: 0 <= i < |specs| ==> IsImplicit(specs[i])
    requires forall q :: DefaultFirstPort <= q < DefaultFirstPort + |specs| ==> q !in workloadPorts
    ensures forall i :: 0 <= i < |specs| ==> AssignPorts(workloadPorts, specs)[i] == Tcp(DefaultFirstPort + i, false)
  {
    var r := AssignPorts(workloadPorts, specs);
    assert ExplicitPorts(specs) == {};
    forall i | 0 <= i < |specs|
      ensures r[i] == Tcp(DefaultFirstPort + i, false)
    {
      CountImplicitAll(specs[..i]);
      NthFreeConsecutive(workloadPorts + ExplicitPorts(specs), DefaultFirstPort, i);
    }
  }
}
