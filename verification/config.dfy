/** The agent's configuration file. */
module AgentConfig {
  /** Staged is the state called pending in the file. */
  datatype Registration = Staged | Active | NeedsSetupToken | IdentityConflict

  datatype Config = Config(hostId: string, endpoint: string, state: Registration)

  /** strings.TrimRight(endpoint, "/") */
  function TrimSlashes(endpoint: string): (trimmed: string)
    ensures trimmed <= endpoint && (trimmed == "" || trimmed[|trimmed| - 1] != '/')
    ensures forall i :: |trimmed| <= i < |endpoint| ==> endpoint[i] == '/'
  {
    if endpoint != "" && endpoint[|endpoint| - 1] == '/' then TrimSlashes(endpoint[..|endpoint| - 1]) else endpoint
  }

  predicate SameEndpoint(a: string, b: string) { TrimSlashes(a) == TrimSlashes(b) }

  /** What ValidateConfig asks of a configuration; of the endpoint's syntax only that it is not all slashes. */
  predicate Wellformed(config: Config) { config.hostId != "" && TrimSlashes(config.endpoint) != "" }
}
