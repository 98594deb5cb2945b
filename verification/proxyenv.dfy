/**
  The proxy's own settings, passed to the sidecar as `CSQL_PROXY_<OPTION>` environment
  variables. Structured logs, the health check, its HTTP port and address and the user
  agent are always set; the API endpoint, the admin server and its APIs, the connection
  limit and the termination delay only when the workload configures them.
 */
module ProxyEnv {
  import opened Optional
  import opened Text
  import opened Kube
  import opened Api
  import opened Defaults

  const Prefix := "CSQL_PROXY_"
  const True := "true"
  const AllInterfaces := "0.0.0.0"

  datatype Setting =
    | StructuredLogs | HealthCheck | HttpPort | HttpAddress | UserAgent | SqlAdminApiEndpoint
    | AdminPort | Debug | QuitQuitQuit | MaxConnections | MaxSigtermDelay

  function Suffix(o: Setting): string {
    match o
    case StructuredLogs => "STRUCTURED_LOGS"
    case HealthCheck => "HEALTH_CHECK"
    case HttpPort => "HTTP_PORT"
    case HttpAddress => "HTTP_ADDRESS"
    case UserAgent => "USER_AGENT"
    case SqlAdminApiEndpoint => "SQLADMIN_API_ENDPOINT"
    case AdminPort => "ADMIN_PORT"
    case Debug => "DEBUG"
    case QuitQuitQuit => "QUITQUITQUIT"
    case MaxConnections => "MAX_CONNECTIONS"
    case MaxSigtermDelay => "MAX_SIGTERM_DELAY"
  }

  function VarName(o: Setting): string {
    Prefix + Suffix(o)
  }

  /** Length and first two letters tell every suffix apart. */
  lemma SuffixInjective(a: Setting, b: Setting)
    requires Suffix(a) == Suffix(b)
    ensures a == b
  {
    assert |Suffix(a)| == |Suffix(b)| && Suffix(a)[0] == Suffix(b)[0] && Suffix(a)[1] == Suffix(b)[1];
  }

  /** Different settings never share a variable name. */
  lemma VarNameInjective(a: Setting, b: Setting)
    requires VarName(a) == VarName(b)
    ensures a == b
  {
    assert VarName(a)[|Prefix|..] == Suffix(a);
    assert VarName(b)[|Prefix|..] == Suffix(b);
    SuffixInjective(a, b);
  }

  function Var(o: Setting, value: string): EnvVar {
    EnvVar(VarName(o), value)
  }

  /** The health endpoint's port: the telemetry port when configured, the default otherwise. */
  function HealthPort(spec: Option<AuthProxyContainerSpec>): int {
    if spec.Some? && spec.value.telemetry.Some? && spec.value.telemetry.value.httpPort.Some?
    then spec.value.telemetry.value.httpPort.value
    else DefaultHealthCheckPort
  }

  /** Position of a setting in the order the updater lists them. */
  function Rank(o: Setting): nat {
    match o
    case StructuredLogs => 0
    case HealthCheck => 1
    case HttpPort => 2
    case HttpAddress => 3
    case UserAgent => 4
    case SqlAdminApiEndpoint => 5
    case AdminPort => 6
    case Debug => 7
    case QuitQuitQuit => 8
    case MaxConnections => 9
    case MaxSigtermDelay => 10
  }

  datatype Entry = Entry(setting: Setting, value: string)

  function AdminEntries(admin: Option<AdminServerSpec>): seq<Entry> {
    match admin
    case None => []
    case Some(a) =>
      [Entry(AdminPort, Decimal(a.port))]
      + (if "Debug" in a.enableAPIs then [Entry(Debug, True)] else [])
      + (if "QuitQuitQuit" in a.enableAPIs then [Entry(QuitQuitQuit, True)] else [])
  }

  function OptionalInt(o: Setting, v: Option<int>): seq<Entry> {
    match v
    case None => []
    case Some(n) => [Entry(o, Decimal(n))]
  }

  function AlwaysEntries(userAgent: string, spec: Option<AuthProxyContainerSpec>): seq<Entry> {
    [ Entry(StructuredLogs, True), Entry(HealthCheck, True), Entry(HttpPort, Decimal(HealthPort(spec))),
      Entry(HttpAddress, AllInterfaces), Entry(UserAgent, userAgent)]
  }

  function EndpointEntries(endpoint: string): seq<Entry> {
    if endpoint != "" then [Entry(SqlAdminApiEndpoint, endpoint)] else []
  }

  function ConfiguredEntries(c: AuthProxyContainerSpec): seq<Entry> {
    EndpointEntries(c.sqlAdminAPIEndpoint)
    + AdminEntries(c.adminServer)
    + OptionalInt(MaxConnections, c.maxConnections)
    + OptionalInt(MaxSigtermDelay, c.maxSigtermDelay)
  }

  /** The sidecar's settings, built the way the updater lists them. */
  function Entries(userAgent: string, spec: Option<AuthProxyContainerSpec>): seq<Entry> {
    AlwaysEntries(userAgent, spec) + (match spec case None => [] case Some(c) => ConfiguredEntries(c))
  }

  /** The sidecar's `CSQL_PROXY_*` variables. */
  function ContainerEnv(userAgent: string, spec: Option<AuthProxyContainerSpec>): seq<EnvVar> {
    var es := Entries(userAgent, spec);
    seq(|es|, i requires 0 <= i < |es| => EnvVar(VarName(es[i].setting), es[i].value))
  }

  /** Reference: the value each setting should carry, one setting at a time; `None` when unset. */
  function Expected(userAgent: string, spec: Option<AuthProxyContainerSpec>, o: Setting): Option<string> {
    match o
    case StructuredLogs => Some(True)
    case HealthCheck => Some(True)
    case HttpPort => Some(Decimal(HealthPort(spec)))
    case HttpAddress => Some(AllInterfaces)
    case UserAgent => Some(userAgent)
    case SqlAdminApiEndpoint =>
      if spec.Some? && spec.value.sqlAdminAPIEndpoint != "" then Some(spec.value.sqlAdminAPIEndpoint) else None
    case AdminPort =>
      if spec.Some? && spec.value.adminServer.Some? then Some(Decimal(spec.value.adminServer.value.port)) else None
    case Debug =>
      if spec.Some? && spec.value.adminServer.Some? && "Debug" in spec.value.adminServer.value.enableAPIs
      then Some(True) else None
    case QuitQuitQuit =>
      if spec.Some? && spec.value.adminServer.Some? && "QuitQuitQuit" in spec.value.adminServer.value.enableAPIs
      then Some(True) else None
    case MaxConnections =>
      if spec.Some? && spec.value.maxConnections.Some? then Some(Decimal(spec.value.maxConnections.value)) else None
    case MaxSigtermDelay =>
      if spec.Some? && spec.value.maxSigtermDelay.Some? then Some(Decimal(spec.value.maxSigtermDelay.value)) else None
  }

  /** Entries strictly ordered by rank, every rank in `[lo, hi)`. */
  predicate Ascending(es: seq<Entry>, lo: nat, hi: nat) {
    && (forall i :: 0 <= i < |es| ==> lo <= Rank(es[i].setting) < hi)
    && (forall i, j :: 0 <= i < j < |es| ==> Rank(es[i].setting) < Rank(es[j].setting))
  }

  lemma AscendingConcat(a: seq<Entry>, b: seq<Entry>, lo: nat, mid: nat, hi: nat)
    requires lo <= mid <= hi
    requires Ascending(a, lo, mid) && Ascending(b, mid, hi)
    ensures Ascending(a + b, lo, hi)
  {
    var r := a + b;
    forall i | 0 <= i < |r|
      ensures lo <= Rank(r[i].setting) < hi
    {
      if i >= |a| {
        assert r[i] == b[i - |a|];
      }
    }
    forall i, j | 0 <= i < j < |r|
      ensures Rank(r[i].setting) < Rank(r[j].setting)
    {
      if j < |a| {
      } else if i < |a| {
        assert r[i] == a[i] && r[j] == b[j - |a|];
      } else {
        assert r[i] == b[i - |a|] && r[j] == b[j - |a|];
      }
    }
  }

  /** Each setting is emitted at most once, in rank order. */
  lemma EntriesAscending(userAgent: string, spec: Option<AuthProxyContainerSpec>)
    ensures Ascending(Entries(userAgent, spec), 0, 11)
  {
    AlwaysAscending(userAgent, spec);
    match spec {
      case None =>
        assert Entries(userAgent, spec) == AlwaysEntries(userAgent, spec);
      case Some(c) =>
        ConfiguredAscending(c);
        AscendingConcat(AlwaysEntries(userAgent, spec), ConfiguredEntries(c), 0, 5, 11);
    }
  }

  lemma AlwaysAscending(userAgent: string, spec: Option<AuthProxyContainerSpec>)
    ensures Ascending(AlwaysEntries(userAgent, spec), 0, 5)
  {
  }

  lemma ConfiguredAscending(c: AuthProxyContainerSpec)
    ensures Ascending(ConfiguredEntries(c), 5, 11)
  {
    var endpoint := EndpointEntries(c.sqlAdminAPIEndpoint);
    var admin := AdminEntries(c.adminServer);
    var conns := OptionalInt(MaxConnections, c.maxConnections);
    var delay := OptionalInt(MaxSigtermDelay, c.maxSigtermDelay);
    EndpointAscending(c.sqlAdminAPIEndpoint);
    AdminAscending(c.adminServer);
    OptionalIntAscending(MaxConnections, c.maxConnections, 9, 10);
    OptionalIntAscending(MaxSigtermDelay, c.maxSigtermDelay, 10, 11);
    AscendingConcat(endpoint, admin, 5, 6, 9);
    AscendingConcat(endpoint + admin, conns, 5, 9, 10);
    AscendingConcat(endpoint + admin + conns, delay, 5, 10, 11);
  }

  lemma EndpointAscending(endpoint: string)
    ensures Ascending(EndpointEntries(endpoint), 5, 6)
  {
  }

  lemma OptionalIntAscending(o: Setting, v: Option<int>, lo: nat, hi: nat)
    requires lo <= Rank(o) < hi
    ensures Ascending(OptionalInt(o, v), lo, hi)
  {
  }

  lemma AdminAscending(admin: Option<AdminServerSpec>)
    ensures Ascending(AdminEntries(admin), 6, 9)
  {
    if admin.Some? {
      var a := admin.value;
      var debug := if "Debug" in a.enableAPIs then [Entry(Debug, True)] else [];
      var quit := if "QuitQuitQuit" in a.enableAPIs then [Entry(QuitQuitQuit, True)] else [];
      AscendingConcat([Entry(AdminPort, Decimal(a.port))], debug, 6, 7, 8);
      AscendingConcat([Entry(AdminPort, Decimal(a.port))] + debug, quit, 6, 8, 9);
    }
  }

  /** Every emitted entry carries its setting's expected value. */
  lemma EntriesSound(userAgent: string, spec: Option<AuthProxyContainerSpec>, e: Entry)
    requires e in Entries(userAgent, spec)
    ensures Expected(userAgent, spec, e.setting) == Some(e.value)
  {
    if e in AlwaysEntries(userAgent, spec) {
      AlwaysSound(userAgent, spec, e);
    } else {
      assert spec.Some? && e in ConfiguredEntries(spec.value);
      ConfiguredSound(userAgent, spec.value, e);
    }
  }

  lemma AlwaysSound(userAgent: string, spec: Option<AuthProxyContainerSpec>, e: Entry)
    requires e in AlwaysEntries(userAgent, spec)
    ensures Expected(userAgent, spec, e.setting) == Some(e.value)
  {
  }

  lemma ConfiguredSound(userAgent: string, c: AuthProxyContainerSpec, e: Entry)
    requires e in ConfiguredEntries(c)
    ensures Expected(userAgent, Some(c), e.setting) == Some(e.value)
  {
    var endpoint := EndpointEntries(c.sqlAdminAPIEndpoint);
    var admin := AdminEntries(c.adminServer);
    var conns := OptionalInt(MaxConnections, c.maxConnections);
    var delay := OptionalInt(MaxSigtermDelay, c.maxSigtermDelay);
    assert e in endpoint || e in admin || e in conns || e in delay;
    if e in admin {
      AdminSound(userAgent, c, e);
    }
  }

  lemma AdminSound(userAgent: string, c: AuthProxyContainerSpec, e: Entry)
    requires e in AdminEntries(c.adminServer)
    ensures Expected(userAgent, Some(c), e.setting) == Some(e.value)
  {
    var a := c.adminServer.value;
    var debug := if "Debug" in a.enableAPIs then [Entry(Debug, True)] else [];
    var quit := if "QuitQuitQuit" in a.enableAPIs then [Entry(QuitQuitQuit, True)] else [];
    assert e in [Entry(AdminPort, Decimal(a.port))] || e in debug || e in quit;
  }

  /** Every setting with an expected value is emitted. */
  lemma EntriesComplete(userAgent: string, spec: Option<AuthProxyContainerSpec>, o: Setting)
    requires Expected(userAgent, spec, o).Some?
    ensures Entry(o, Expected(userAgent, spec, o).value) in Entries(userAgent, spec)
  {
    var e := Entry(o, Expected(userAgent, spec, o).value);
    if Rank(o) >= 5 {
      var c := spec.value;
      var endpoint := EndpointEntries(c.sqlAdminAPIEndpoint);
      var admin := AdminEntries(c.adminServer);
      var conns := OptionalInt(MaxConnections, c.maxConnections);
      var delay := OptionalInt(MaxSigtermDelay, c.maxSigtermDelay);
      if o.AdminPort? || o.Debug? || o.QuitQuitQuit? {
        assert e in admin;
      } else if o.SqlAdminApiEndpoint? {
        assert e in endpoint;
      } else if o.MaxConnections? {
        assert e in conns;
      } else {
        assert e in delay;
      }
      assert e in ConfiguredEntries(c);
    }
  }

  /**
    Reading any setting's variable from the sidecar environment gives its expected
    value, and nothing when the setting is not configured.
   */
  lemma ContainerEnvLookup(userAgent: string, spec: Option<AuthProxyContainerSpec>, o: Setting)
    ensures LookupEnv(ContainerEnv(userAgent, spec), VarName(o)) == Expected(userAgent, spec, o)
  {
    var es := Entries(userAgent, spec);
    var r := ContainerEnv(userAgent, spec);
    if Expected(userAgent, spec, o).Some? {
      EntriesComplete(userAgent, spec, o);
      var k :| 0 <= k < |es| && es[k] == Entry(o, Expected(userAgent, spec, o).value);
      assert r[k].name == VarName(o);
    }
    var got := LookupEnv(r, VarName(o));
    if got.Some? {
      var k :| 0 <= k < |r| && r[k] == EnvVar(VarName(o), got.value);
      VarNameInjective(o, es[k].setting);
      EntriesSound(userAgent, spec, es[k]);
    }
  }

  /** No sidecar variable is emitted twice. */
  lemma ContainerEnvDistinct(userAgent: string, spec: Option<AuthProxyContainerSpec>)
    ensures forall i, j :: 0 <= i < j < |ContainerEnv(userAgent, spec)| ==>
      ContainerEnv(userAgent, spec)[i].name != ContainerEnv(userAgent, spec)[j].name
  {
    var es := Entries(userAgent, spec);
    var r := ContainerEnv(userAgent, spec);
    EntriesAscending(userAgent, spec);
    forall i, j | 0 <= i < j < |r|
      ensures r[i].name != r[j].name
    {
      if r[i].name == r[j].name {
        VarNameInjective(es[i].setting, es[j].setting);
      }
    }
  }
}
