/**
  The slice of the Kubernetes core API the updater touches: containers with their
  ports, environment, volume mounts and resources, volumes, and a Pod template with its
  annotation map. Resource quantities are kept as opaque strings.
 */
module Kube {
  import opened Optional

  datatype EnvVar = EnvVar(name: string, value: string)

  datatype ContainerPort = ContainerPort(name: string, containerPort: int)

  datatype VolumeMount = VolumeMount(name: string, mountPath: string)

  /** Requests and limits, resource name to quantity, copied verbatim and never parsed. */
  datatype ResourceRequirements = ResourceRequirements(requests: map<string, string>, limits: map<string, string>)

  const NoResources := ResourceRequirements(map[], map[])

  datatype Container = Container(
    name: string,
    image: string,
    command: seq<string>,
    args: seq<string>,
    ports: seq<ContainerPort>,
    env: seq<EnvVar>,
    volumeMounts: seq<VolumeMount>,
    resources: ResourceRequirements)

  datatype VolumeSource = EmptyDir | OtherSource(description: string)

  datatype Volume = Volume(name: string, source: VolumeSource)

  /** The mutable part of a workload's Pod template: what one update call reads and rewrites. */
  datatype PodTemplate = PodTemplate(
    containers: seq<Container>,
    volumes: seq<Volume>,
    annotations: map<string, string>)

  /** The first container called `name`. */
  function FindContainer(cs: seq<Container>, name: string): (r: Option<Container>)
    ensures r.None? <==> forall i :: 0 <= i < |cs| ==> cs[i].name != name
    ensures r.Some? ==> r.value in cs && r.value.name == name
    ensures r.Some? ==> exists i :: 0 <= i < |cs| && cs[i] == r.value
                                   && forall j :: 0 <= j < i ==> cs[j].name != name
  {
    if |cs| == 0 then None
    else if cs[0].name == name then Some(cs[0])
    else
      var r := FindContainer(cs[1..], name);
      assert forall i :: 1 <= i < |cs| ==> cs[i] == cs[1..][i - 1];
      r
  }

  /** How many containers are called `name`. */
  function CountNamed(cs: seq<Container>, name: string): nat {
    if |cs| == 0 then 0 else (if cs[0].name == name then 1 else 0) + CountNamed(cs[1..], name)
  }

  lemma {:induction false} CountNamedAppend(a: seq<Container>, b: seq<Container>, name: string)
    ensures CountNamed(a + b, name) == CountNamed(a, name) + CountNamed(b, name)
  {
    if |a| > 0 {
      assert (a + b)[1..] == a[1..] + b;
      CountNamedAppend(a[1..], b, name);
    } else {
      assert a + b == b;
    }
  }

  lemma {:induction false} CountNamedAbsent(cs: seq<Container>, name: string)
    requires forall i :: 0 <= i < |cs| ==> cs[i].name != name
    ensures CountNamed(cs, name) == 0
  {
    if |cs| > 0 {
      CountNamedAbsent(cs[1..], name);
    }
  }

  /** The value of the first environment variable called `name`. */
  function LookupEnv(env: seq<EnvVar>, name: string): (r: Option<string>)
    ensures r.None? <==> forall i :: 0 <= i < |env| ==> env[i].name != name
    ensures r.Some? ==> EnvVar(name, r.value) in env
  {
    if |env| == 0 then None
    else if env[0].name == name then Some(env[0].value)
    else
      assert forall i :: 1 <= i < |env| ==> env[i] == env[1..][i - 1];
      LookupEnv(env[1..], name)
  }

  /** Every port number any of `cs` declares. */
  function PortsOf(cs: seq<Container>): (r: set<int>)
    ensures forall i, j :: 0 <= i < |cs| && 0 <= j < |cs[i].ports| ==> cs[i].ports[j].containerPort in r
  {
    if |cs| == 0 then {}
    else (set j | 0 <= j < |cs[0].ports| :: cs[0].ports[j].containerPort) + PortsOf(cs[1..])
  }

  /** The annotations currently on the Pod template. */
  function PodTemplateAnnotations(pod: PodTemplate): map<string, string> {
    pod.annotations
  }
}
