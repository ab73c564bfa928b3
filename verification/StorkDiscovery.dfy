/**
 * How the agents of DHCP servers find their Stork server: what one controller puts into the
 * sidecar (reconciler.go, stork.go) against what the other one creates (keastorkserver_controller.go).
 */
module StorkDiscovery {
  import opened Options
  import opened Strings
  import opened Names
  import opened ApiServer
  import opened Templates
  import S = StorkCredentials
  import A = StorkAgent

  /** The port of a Stork server: as given, or 8080. */
  function PortOf(found: A.FoundServer): nat { match found.port case Some(n) => n case None => 8080 }

  /** The plan of the Stork controller for this server. */
  predicate PlanFor(p: S.StorkPlan, found: A.FoundServer) {
    p.namespace == found.namespace && p.cr == found.name && p.port == PortOf(found)
  }

  /** What a lookup that works returns in this store: the server, and the entry `token` of the Secret it names. */
  ghost predicate LooksUp(l: A.Lookups, store: Store, found: A.FoundServer) {
    && l.server == Some(found)
    && forall name ::
         var id := Id(Secret, found.namespace, name);
         l.token(name) == if id in store && store[id].body.Data? && "token" in store[id].body.data then store[id].body.data["token"]
                          else ""
  }

  /** The token Secret of a Stork server. */
  predicate TokenStored(store: Store, p: S.StorkPlan, token: string) {
    var id := Id(Secret, p.namespace, StorkServerTokenSecretName(p.cr));
    id in store && store[id].body == Data(map["token" := token])
  }

  /**
   * Where a Stork server has converged, the agent of a resource without a server URL of its own is
   * sent to the Service of that server, at the one port it listens on, with the token the server
   * was given, and registers itself by the address of its pod without asking anybody.
   */
  lemma AgentFindsServer(d: Body -> Body, store: Store, owner: string, p: S.StorkPlan, found: A.FoundServer,
                         cfg: A.StorkConfig, l: A.Lookups, token: string)
    requires OnlyDefaults(d) && KeepsPorts(d) && PlanFor(p, found) && cfg.serverURL == "" && LooksUp(l, store, found)
    requires Conforms(d, store, owner, S.StorkService(p)) && TokenStored(store, p, token) && token != ""
    ensures var id, env := Id(Service, p.namespace, ServiceName(p.cr, StorkServer)), A.SidecarOf(Some(cfg), l);
            && id in store && store[id].body.ServiceSpec? && |store[id].body.ports| == 1
            && store[id].body.ports[0].port == PortOf(found)
            && EnvSetting("STORK_AGENT_SERVER_URL",
                          "http://" + id.name + "." + id.namespace + ".svc.cluster.local:" + Decimal(PortOf(found))) in env
            && EnvSetting("STORK_AGENT_SERVER_TOKEN", token) in env
            && EnvSetting("STORK_AGENT_NON_INTERACTIVE", "true") in env
            && EnvSetting("STORK_AGENT_HOST", "status.podIP") in env
            && EnvSetting("STORK_AGENT_LISTEN_PROMETHEUS_ONLY", "true") !in env[..|env| - |cfg.extraEnv|]
  {
    var service := S.StorkService(p);
    var live := store[service.id].body;
    assert live == d(service.body.(clusterIP := live.clusterIP, clusterIPs := live.clusterIPs));
    assert live.ports == service.body.ports;
    var agent := A.ResolveAgent(cfg, l);
    assert agent == A.Agent(found.URL(), token);
    EnvOfAgent(cfg, agent);
  }

  lemma EnvOfAgent(cfg: A.StorkConfig, agent: A.Agent)
    requires agent.serverURL != "" && agent.serverToken != ""
    ensures var env := A.SidecarEnv(cfg, agent);
            && EnvSetting("STORK_AGENT_SERVER_URL", agent.serverURL) in env
            && EnvSetting("STORK_AGENT_SERVER_TOKEN", agent.serverToken) in env
            && EnvSetting("STORK_AGENT_NON_INTERACTIVE", "true") in env
            && EnvSetting("STORK_AGENT_HOST", "status.podIP") in env
            && |env| == 7 + |cfg.extraEnv|
            && EnvSetting("STORK_AGENT_LISTEN_PROMETHEUS_ONLY", "true") !in env[..|env| - |cfg.extraEnv|]
  {
    var env := A.SidecarEnv(cfg, agent);
    assert env[3] == EnvSetting("STORK_AGENT_SERVER_URL", agent.serverURL);
    assert env[4] == EnvSetting("STORK_AGENT_NON_INTERACTIVE", "true");
    assert env[5] == EnvSetting("STORK_AGENT_HOST", "status.podIP");
    assert env[6] == EnvSetting("STORK_AGENT_SERVER_TOKEN", agent.serverToken);
    var own := env[..7];
    forall i | 0 <= i < 7 ensures own[i].name != "STORK_AGENT_LISTEN_PROMETHEUS_ONLY" {
      assert |own[i].name| != |"STORK_AGENT_LISTEN_PROMETHEUS_ONLY"|;
    }
  }

  /** Without any server the agent only serves metrics. */
  lemma AgentWithoutServer(cfg: A.StorkConfig, l: A.Lookups)
    requires cfg.serverURL == "" && l.server.None?
    ensures EnvSetting("STORK_AGENT_LISTEN_PROMETHEUS_ONLY", "true") in A.SidecarOf(Some(cfg), l)
  {
    var env := A.SidecarOf(Some(cfg), l);
    assert env[3] == EnvSetting("STORK_AGENT_LISTEN_PROMETHEUS_ONLY", "true");
  }

  /** A server URL in the resource takes precedence over any server found. */
  lemma OwnURLWins(cfg: A.StorkConfig, l: A.Lookups)
    requires cfg.serverURL != ""
    ensures EnvSetting("STORK_AGENT_SERVER_URL", cfg.serverURL) in A.SidecarOf(Some(cfg), l)
    ensures A.ResolveAgent(cfg, l).serverToken ==
            match cfg.serverTokenSecretRef case Some(name) => l.token(name) case None => ""
  {
    var env := A.SidecarOf(Some(cfg), l);
    assert env[3] == EnvSetting("STORK_AGENT_SERVER_URL", cfg.serverURL);
  }
}
