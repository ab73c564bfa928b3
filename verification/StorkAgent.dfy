/**
 * The Stork sidecar of a DHCP server (stork.go, reconciler.go): its environment depends on
 * lookups whose errors are swallowed.
 */
module StorkAgent {
  import opened Options
  import opened Strings
  import opened Names
  import opened Templates

  /** The Stork settings of a resource that enables the agent; absent ports have their defaults. */
  datatype StorkConfig = StorkConfig(
    serverURL: string,
    serverTokenSecretRef: Option<string>,
    port: Option<nat>,
    prometheusPort: Option<nat>,
    extraEnv: seq<EnvSetting>)

  function AgentPort(cfg: StorkConfig): nat { if cfg.port.Some? then cfg.port.value else 8080 }

  function PrometheusPort(cfg: StorkConfig): nat { if cfg.prometheusPort.Some? then cfg.prometheusPort.value else 9547 }

  /** A Stork server found in the namespace; an absent port has its default. */
  datatype FoundServer = FoundServer(namespace: string, name: string, port: Option<nat>) {
    function URL(): (url: string)
      ensures url != ""
    {
      "http://" + ServiceName(name, StorkServer) + "." + namespace + ".svc.cluster.local:"
      + Decimal(if port.Some? then port.value else 8080)
    }

    function TokenSecretName(): string { StorkServerTokenSecretName(name) }
  }

  /**
   * What the lookups of one reconcile return: no server, if the Get or List fails or finds none,
   * and the token in a Secret, empty if reading it fails.
   */
  datatype Lookups = Lookups(server: Option<FoundServer>, token: string -> string)

  datatype Agent = Agent(serverURL: string, serverToken: string)

  function ResolveAgent(cfg: StorkConfig, l: Lookups): Agent {
    var found := cfg.serverURL == "" && l.server.Some?;
    var tokenRef := if found then Some(l.server.value.TokenSecretName()) else cfg.serverTokenSecretRef;
    Agent(if found then l.server.value.URL() else cfg.serverURL,
          if tokenRef.Some? then l.token(tokenRef.value) else "")
  }

  /** The environment of the sidecar; `STORK_AGENT_HOST` is the pod's own address. */
  function SidecarEnv(cfg: StorkConfig, agent: Agent): seq<EnvSetting> {
    [EnvSetting("STORK_AGENT_PORT", Decimal(AgentPort(cfg))),
     EnvSetting("STORK_AGENT_PROMETHEUS_KEA_EXPORTER_PORT", Decimal(PrometheusPort(cfg))),
     EnvSetting("STORK_AGENT_PROMETHEUS_KEA_EXPORTER_ADDRESS", "0.0.0.0")]
    + ServerEnv(agent)
    + cfg.extraEnv
  }

  function ServerEnv(agent: Agent): seq<EnvSetting> {
    if agent.serverURL == "" then [EnvSetting("STORK_AGENT_LISTEN_PROMETHEUS_ONLY", "true")]
    else
      [EnvSetting("STORK_AGENT_SERVER_URL", agent.serverURL),
       EnvSetting("STORK_AGENT_NON_INTERACTIVE", "true"),
       EnvSetting("STORK_AGENT_HOST", "status.podIP")]
      + if agent.serverToken != "" then [EnvSetting("STORK_AGENT_SERVER_TOKEN", agent.serverToken)] else []
  }

  method BuildSidecarEnv(cfg: StorkConfig, agent: Agent) returns (env: seq<EnvSetting>)
    ensures env == SidecarEnv(cfg, agent)
  {
    env := [EnvSetting("STORK_AGENT_PORT", Decimal(AgentPort(cfg))),
            EnvSetting("STORK_AGENT_PROMETHEUS_KEA_EXPORTER_PORT", Decimal(PrometheusPort(cfg))),
            EnvSetting("STORK_AGENT_PROMETHEUS_KEA_EXPORTER_ADDRESS", "0.0.0.0")];
    ghost var first := env;
    if agent.serverURL != "" {
      env := env + [EnvSetting("STORK_AGENT_SERVER_URL", agent.serverURL),
                    EnvSetting("STORK_AGENT_NON_INTERACTIVE", "true")];
      env := env + [EnvSetting("STORK_AGENT_HOST", "status.podIP")];
      if agent.serverToken != "" {
        env := env + [EnvSetting("STORK_AGENT_SERVER_TOKEN", agent.serverToken)];
      }
    } else {
      env := env + [EnvSetting("STORK_AGENT_LISTEN_PROMETHEUS_ONLY", "true")];
    }
    assert env == first + ServerEnv(agent);
    env := env + cfg.extraEnv;
  }

  /** The agents are the same as far as the sidecar can tell. */
  predicate SameServer(a: Agent, b: Agent) {
    a.serverURL == b.serverURL && (a.serverURL != "" ==> a.serverToken == b.serverToken)
  }

  /** The environment shows server and token, and nothing but them. */
  lemma EnvShowsServer(cfg: StorkConfig, a: Agent, b: Agent)
    ensures SidecarEnv(cfg, a) == SidecarEnv(cfg, b) <==> SameServer(a, b)
  {
    var ea, eb := ServerEnv(a), ServerEnv(b);
    if SidecarEnv(cfg, a) == SidecarEnv(cfg, b) {
      assert |ea| == |eb|;
      assert SidecarEnv(cfg, a)[3..3 + |ea|] == ea && SidecarEnv(cfg, b)[3..3 + |eb|] == eb;
      assert ea[0] == eb[0];
      assert |ea| == 4 ==> ea[3] == eb[3];
    }
  }

  function SidecarOf(cfg: Option<StorkConfig>, l: Lookups): seq<EnvSetting> {
    match cfg
    case None => []
    case Some(c) => SidecarEnv(c, ResolveAgent(c, l))
  }

  /** Two reconciles agree about the Stork server, or the agent is off. */
  predicate LookupsAgree(cfg: Option<StorkConfig>, l: Lookups, m: Lookups) {
    cfg.Some? ==> SameServer(ResolveAgent(cfg.value, l), ResolveAgent(cfg.value, m))
  }

  lemma SidecarsAgree(cfg: Option<StorkConfig>, l: Lookups, m: Lookups)
    ensures SidecarOf(cfg, l) == SidecarOf(cfg, m) <==> LookupsAgree(cfg, l, m)
  {
    if cfg.Some? {
      EnvShowsServer(cfg.value, ResolveAgent(cfg.value, l), ResolveAgent(cfg.value, m));
    }
  }
}
