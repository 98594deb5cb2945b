/**
  The updater's fixed configuration. The first default port is pinned by the expected
  proxy arguments; the default image reference and health-check port are left
  unspecified: the model only relies on them being fixed values.
 */
module Defaults {

  /** First port handed to an instance that does not choose one. */
  const DefaultFirstPort: int := 5000

  /** Port of the proxy's HTTP health-check endpoint. */
  const DefaultHealthCheckPort: int

  /** Image used when a workload does not name one. */
  const DefaultProxyImage: string
}
