/**
 * The renderers as the program runs them (dhcp4_config.go, config.go, ha_config.go): maps filled
 * key by key, loops that append to a result, and the top-level assembly. Each is proved to
 * compute the tree of its record.
 */
module Renderer {
  import opened Options
  import opened Json
  import opened Spec
  import opened Secrets
  import opened Render

  /** A map under construction. */
  class JsonObject {
    var fields: Fields

    constructor ()
      ensures fields == map[]
    {
      fields := map[];
    }

    method Set(key: Key, value: Json)
      modifies this
      ensures fields == Put(old(fields), key, Some(value))
    {
      fields := fields[key := value];
    }

    method SetIfNotNil(key: Key, value: Option<Json>)
      modifies this
      ensures fields == Put(old(fields), key, value)
    {
      if value.Some? {
        fields := fields[key := value.value];
      }
    }

    method SetIfNotEmpty(key: Key, value: string)
      modifies this
      ensures fields == Put(old(fields), key, Text(value))
    {
      if value != "" {
        fields := fields[key := Str(value)];
      }
    }
  }

  /** The loop all list renderers share: nothing for an empty list, otherwise one tree per element. */
  method RenderList<A>(render: A -> Json, items: seq<A>) returns (r: Option<Json>)
    ensures r == Array(MapSeq(render, items))
  {
    if |items| == 0 {
      return None;
    }
    var result := [];
    for i := 0 to |items|
      invariant result == MapSeq(render, items[..i])
    {
      result := result + [render(items[i])];
    }
    assert items[..|items|] == items;
    r := Some(Arr(result));
  }

  /** One more element in a loop over a list. */
  lemma OneMore<A>(render: A -> Json, items: seq<A>, i: nat, result: seq<Json>, r: Json)
    requires i < |items| && result == MapSeq(render, items[..i]) && r == render(items[i])
    ensures result + [r] == MapSeq(render, items[..i + 1])
  {
  }

  lemma AllDone<A>(render: A -> Json, items: seq<A>)
    ensures MapSeq(render, items[..|items|]) == MapSeq(render, items)
  {
    assert items[..|items|] == items;
  }

  method RenderOption(o: OptionData) returns (r: Json)
    ensures r == OptionTree(o)
  {
    var m := new JsonObject();
    m.SetIfNotEmpty(NAME, o.name);
    m.SetIfNotNil(CODE, Int(o.code));
    m.SetIfNotEmpty(SPACE, o.space);
    m.SetIfNotNil(CSV_FORMAT, Flag(o.csvFormat));
    m.SetIfNotEmpty(DATA, o.data);
    m.SetIfNotNil(ALWAYS_SEND, Flag(o.alwaysSend));
    m.SetIfNotNil(NEVER_SEND, Flag(o.neverSend));
    r := Obj(m.fields);
  }

  method RenderOptionData(opts: seq<OptionData>) returns (r: Option<Json>)
    ensures r == OptionTrees(opts)
  {
    if |opts| == 0 {
      return None;
    }
    var result := [];
    for i := 0 to |opts|
      invariant result == MapSeq(OptionTree, opts[..i])
    {
      var om := RenderOption(opts[i]);
      result := result + [om];
    }
    assert opts[..|opts|] == opts;
    r := Some(Arr(result));
  }

  method RenderPool4(p: Pool4) returns (r: Json)
    ensures r == PoolTree(p)
  {
    var m := new JsonObject();
    m.Set(POOL, Str(p.pool));
    var opts := RenderOptionData(p.optionData);
    if opts.Some? {
      m.Set(OPTION_DATA, opts.value);
    }
    m.SetIfNotEmpty(CLIENT_CLASS, p.clientClass);
    if |p.requireClientClasses| > 0 {
      m.Set(REQUIRE_CLIENT_CLASSES, Arr(TextElems(p.requireClientClasses)));
    }
    r := Obj(m.fields);
  }

  method RenderPools(ps: seq<Pool4>) returns (r: Option<Json>)
    ensures r == PoolTrees(ps)
  {
    if |ps| == 0 {
      return None;
    }
    var pools := [];
    for i := 0 to |ps|
      invariant pools == MapSeq(PoolTree, ps[..i])
    {
      var pool := RenderPool4(ps[i]);
      pools := pools + [pool];
    }
    assert ps[..|ps|] == ps;
    r := Some(Arr(pools));
  }

  method RenderSubnet4(s: Subnet4) returns (r: Json)
    ensures r == SubnetTree(s)
  {
    var m := new JsonObject();
    m.Set(ID, Num(s.id));
    m.Set(SUBNET, Str(s.subnet));
    var pools := RenderPools(s.pools);
    m.SetIfNotNil(POOLS, pools);
    var opts := RenderOptionData(s.optionData);
    m.SetIfNotNil(OPTION_DATA, opts);
    var reservations := RenderList(ReservationTree, s.reservations);
    m.SetIfNotNil(RESERVATIONS, reservations);
    m.SetIfNotEmpty(CLIENT_CLASS, s.clientClass);
    m.SetIfNotNil(REQUIRE_CLIENT_CLASSES, Texts(s.requireClientClasses));
    m.SetIfNotEmpty(INTERFACE, s.iface);
    m.SetIfNotNil(RELAY, RelayTree(s.relay));
    m.SetIfNotNil(VALID_LIFETIME, Int(s.validLifetime));
    m.SetIfNotNil(MIN_VALID_LIFETIME, Int(s.minValidLifetime));
    m.SetIfNotNil(MAX_VALID_LIFETIME, Int(s.maxValidLifetime));
    m.SetIfNotNil(RENEW_TIMER, Int(s.renewTimer));
    m.SetIfNotNil(REBIND_TIMER, Int(s.rebindTimer));
    m.SetIfNotNil(AUTHORITATIVE, Flag(s.authoritative));
    m.SetIfNotEmpty(RESERVATION_MODE, s.reservationMode);
    m.SetIfNotNil(MATCH_CLIENT_ID, Flag(s.matchClientID));
    m.SetIfNotEmpty(NEXT_SERVER, s.nextServer);
    m.SetIfNotEmpty(BOOT_FILE_NAME, s.bootFileName);
    m.SetIfNotEmpty(SERVER_HOSTNAME, s.serverHostname);
    m.SetIfNotEmpty(USER_CONTEXT, s.userContext);
    r := Obj(m.fields);
  }

  method RenderSubnets4(ss: seq<Subnet4>) returns (r: Option<Json>)
    ensures r == SubnetTrees(ss)
  {
    if |ss| == 0 {
      return None;
    }
    var result := [];
    for i := 0 to |ss|
      invariant result == MapSeq(SubnetTree, ss[..i])
    {
      var subnet := RenderSubnet4(ss[i]);
      OneMore(SubnetTree, ss, i, result, subnet);
      result := result + [subnet];
    }
    AllDone(SubnetTree, ss);
    r := Some(Arr(result));
  }

  method RenderSharedNetwork4(n: SharedNetwork4) returns (r: Json)
    ensures r == NetworkTree(n)
  {
    var m := new JsonObject();
    m.Set(NAME, Str(n.name));
    var subnets := RenderSubnets4(n.subnet4);
    m.SetIfNotNil(SUBNET4, subnets);
    m.SetIfNotEmpty(INTERFACE, n.iface);
    var opts := RenderOptionData(n.optionData);
    m.SetIfNotNil(OPTION_DATA, opts);
    m.SetIfNotNil(RELAY, RelayTree(n.relay));
    m.SetIfNotEmpty(CLIENT_CLASS, n.clientClass);
    m.SetIfNotNil(REQUIRE_CLIENT_CLASSES, Texts(n.requireClientClasses));
    m.SetIfNotNil(VALID_LIFETIME, Int(n.validLifetime));
    m.SetIfNotNil(MIN_VALID_LIFETIME, Int(n.minValidLifetime));
    m.SetIfNotNil(MAX_VALID_LIFETIME, Int(n.maxValidLifetime));
    m.SetIfNotNil(RENEW_TIMER, Int(n.renewTimer));
    m.SetIfNotNil(REBIND_TIMER, Int(n.rebindTimer));
    m.SetIfNotNil(AUTHORITATIVE, Flag(n.authoritative));
    r := Obj(m.fields);
  }

  method RenderSharedNetworks4(ns: seq<SharedNetwork4>) returns (r: Option<Json>)
    ensures r == NetworkTrees(ns)
  {
    if |ns| == 0 {
      return None;
    }
    var result := [];
    for i := 0 to |ns|
      invariant result == MapSeq(NetworkTree, ns[..i])
    {
      var network := RenderSharedNetwork4(ns[i]);
      OneMore(NetworkTree, ns, i, result, network);
      result := result + [network];
    }
    AllDone(NetworkTree, ns);
    r := Some(Arr(result));
  }

  /** The loop over `hosts-databases`: entry `i` gets the placeholders recorded for `i`, or none. */
  method RenderDatabases(render: (DatabaseConfig, DBCredentials) -> Json, dbs: seq<DatabaseConfig>, creds: seq<DBCredentials>)
    returns (result: seq<Json>)
    ensures |result| == |dbs| && forall i | 0 <= i < |dbs| :: result[i] == render(dbs[i], CredentialsAt(creds, i))
  {
    result := [];
    for i := 0 to |dbs|
      invariant |result| == i && forall k | 0 <= k < i :: result[k] == render(dbs[k], CredentialsAt(creds, k))
    {
      var c := NO_CREDENTIALS;
      if i < |creds| {
        c := creds[i];
      }
      result := result + [render(dbs[i], c)];
    }
  }

  // ---------- hooks ----------

  /** The loop over the peers. */
  method RenderPeers(peers: seq<HAPeer>) returns (r: Option<Json>)
    ensures r == PeerTrees(peers)
  {
    if |peers| == 0 {
      return None;
    }
    var result := [];
    for i := 0 to |peers|
      invariant result == MapSeq(PeerTree, peers[..i])
    {
      var m := new JsonObject();
      m.Set(NAME, Str(peers[i].name));
      m.Set(URL, Str(peers[i].url));
      m.Set(ROLE, Str(peers[i].role));
      m.SetIfNotNil(AUTO_FAILOVER, Flag(peers[i].autoFailover));
      assert Obj(m.fields) == PeerTree(peers[i]);
      result := result + [Obj(m.fields)];
    }
    assert peers[..|peers|] == peers;
    r := Some(Arr(result));
  }

  /** Lease commands first, then high availability; a non-empty override replaces the server name. */
  method RenderHAHooks(ha: HAConfig, override: string, port: int) returns (hooks: seq<Json>)
    ensures hooks == HAHookElems(Some(ha), override, port)
  {
    var serverName := ha.thisServerName;
    if override != "" {
      serverName := override;
    }
    var m := new JsonObject();
    m.SetIfNotEmpty(MODE, ha.mode);
    m.SetIfNotNil(HEARTBEAT_DELAY, Int(ha.heartbeatDelay));
    m.SetIfNotNil(MAX_RESPONSE_DELAY, Int(ha.maxResponseDelay));
    m.SetIfNotNil(MAX_ACK_DELAY, Int(ha.maxAckDelay));
    m.SetIfNotNil(MAX_UNACKED_CLIENTS, Int(ha.maxUnackedClients));
    m.SetIfNotNil(SEND_LEASE_UPDATES, Flag(ha.sendLeaseUpdates));
    m.SetIfNotNil(SYNC_LEASES, Flag(ha.syncLeases));
    m.SetIfNotNil(SYNC_TIMEOUT, Int(ha.syncTimeout));
    m.SetIfNotNil(SYNC_PAGE_LIMIT, Int(ha.syncPageLimit));
    m.SetIfNotNil(DELAYED_UPDATES_LIMIT, Int(ha.delayedUpdatesLimit));
    var peers := RenderPeers(ha.peers);
    m.SetIfNotNil(PEERS, peers);
    m.SetIfNotNil(MULTI_THREADING, HAThreadsTree(ha.multiThreading));
    if port > 0 {
      m.Set(HTTP_DEDICATED_LISTENER, Bool(true));
      m.Set(HTTP_LISTENER_ADDRESS, Str("0.0.0.0"));
      m.Set(HTTP_LISTENER_PORT, Num(port));
    }
    m.Set(THIS_SERVER_NAME, Str(serverName));
    assert Obj(m.fields) == HATree(ha, serverName, port);
    hooks := [HookTree(HookLibrary(LEASE_CMDS_LIBRARY, NoParameters)),
              HookTree(HookLibrary(HA_LIBRARY, Parsed(HAParameters(Obj(m.fields)))))];
  }

  /** User hooks, then the database hook, then the two HA hooks. */
  method RenderHooks(spec: Dhcp4Spec, override: string) returns (hooks: seq<Json>)
    ensures hooks == HookElems(spec, override)
  {
    hooks := [];
    for i := 0 to |spec.hooksLibraries|
      invariant hooks == MapSeq(HookTree, spec.hooksLibraries[..i])
    {
      hooks := hooks + [HookTree(spec.hooksLibraries[i])];
    }
    assert spec.hooksLibraries[..|spec.hooksLibraries|] == spec.hooksLibraries;
    hooks := hooks + DBHookElems(spec.leaseDatabase);
    if spec.highAvailability.Some? {
      var haPort := 0;
      if spec.controlSocket.Some? && spec.controlSocket.value.socketPort.Some? {
        haPort := spec.controlSocket.value.socketPort.value;
      }
      var haHooks := RenderHAHooks(spec.highAvailability.value, override, haPort);
      hooks := hooks + haHooks;
    }
  }

  // ---------- the whole configuration ----------

  /** Every section but the hooks and the global parameters. */
  method RenderSections(spec: Dhcp4Spec, creds: Credentials, m: JsonObject)
    requires m.fields == map[]
    modifies m
    ensures m.fields == Sections(spec, creds)
  {
    m.Set(INTERFACES_CONFIG, InterfacesTree(spec.interfacesConfig));
    m.SetIfNotNil(LEASE_DATABASE, OptDatabaseTree(spec.leaseDatabase, creds.lease));
    m.SetIfNotNil(HOSTS_DATABASE, OptDatabaseTree(spec.hostsDatabase, creds.hosts));
    var dbs := RenderDatabases(DatabaseTree, spec.hostsDatabases, creds.hostsDBs);
    assert dbs == DatabaseElems(spec.hostsDatabases, creds.hostsDBs);
    m.SetIfNotNil(HOSTS_DATABASES, Array(dbs));
    var subnets := RenderSubnets4(spec.subnet4);
    m.SetIfNotNil(SUBNET4, subnets);
    var networks := RenderSharedNetworks4(spec.sharedNetworks);
    m.SetIfNotNil(SHARED_NETWORKS, networks);
    var opts := RenderOptionData(spec.optionData);
    m.SetIfNotNil(OPTION_DATA, opts);
    var defs := RenderList(OptionDefTree, spec.optionDef);
    m.SetIfNotNil(OPTION_DEF, defs);
    var classes := RenderList(ClientClassTree, spec.clientClasses);
    m.SetIfNotNil(CLIENT_CLASSES, classes);
    var reservations := RenderList(ReservationTree, spec.reservations);
    m.SetIfNotNil(RESERVATIONS, reservations);
    m.SetIfNotNil(HOST_RESERVATION_IDENTIFIERS, Texts(spec.hostReservationIdentifiers));
    m.SetIfNotNil(CONTROL_SOCKET, ControlSocketTree(spec.controlSocket));
    var loggers := RenderList(LoggerTree, spec.loggers);
    m.SetIfNotNil(LOGGERS, loggers);
    m.SetIfNotNil(MULTI_THREADING, ThreadsTree(spec.multiThreading));
  }

  /** The global parameters. */
  method RenderGlobals(g: Globals, m: JsonObject)
    modifies m
    ensures m.fields == PutGlobals(old(m.fields), g)
  {
    m.SetIfNotNil(VALID_LIFETIME, Int(g.validLifetime));
    m.SetIfNotNil(MIN_VALID_LIFETIME, Int(g.minValidLifetime));
    m.SetIfNotNil(MAX_VALID_LIFETIME, Int(g.maxValidLifetime));
    m.SetIfNotNil(RENEW_TIMER, Int(g.renewTimer));
    m.SetIfNotNil(REBIND_TIMER, Int(g.rebindTimer));
    m.SetIfNotNil(CALCULATE_TEE_TIMES, Flag(g.calculateTeeTimes));
    m.SetIfNotNil(T1_PERCENT, OptText(g.t1Percent));
    m.SetIfNotNil(T2_PERCENT, OptText(g.t2Percent));
    m.SetIfNotNil(AUTHORITATIVE, Flag(g.authoritative));
    m.SetIfNotNil(MATCH_CLIENT_ID, Flag(g.matchClientID));
    m.SetIfNotEmpty(SERVER_TAG, g.serverTag);
    m.SetIfNotEmpty(NEXT_SERVER, g.nextServer);
    m.SetIfNotEmpty(BOOT_FILE_NAME, g.bootFileName);
    m.SetIfNotEmpty(SERVER_HOSTNAME, g.serverHostname);
    m.SetIfNotNil(DDNS_SEND_UPDATES, Flag(g.ddnsSendUpdates));
    m.SetIfNotNil(DDNS_OVERRIDE_NO_UPDATE, Flag(g.ddnsOverrideNoUpdate));
    m.SetIfNotNil(DDNS_OVERRIDE_CLIENT_UPDATE, Flag(g.ddnsOverrideClientUpdate));
    m.SetIfNotEmpty(DDNS_REPLACE_CLIENT_NAME, g.ddnsReplaceClientName);
    m.SetIfNotEmpty(DDNS_GENERATED_PREFIX, g.ddnsGeneratedPrefix);
    m.SetIfNotEmpty(DDNS_QUALIFYING_SUFFIX, g.ddnsQualifyingSuffix);
    m.SetIfNotNil(DDNS_USE_CONFLICT_RESOLUTION, Flag(g.ddnsUseConflictResolution));
  }

  /** The configuration tree of a resource, section by section. */
  method RenderInternal(spec: Dhcp4Spec, creds: Credentials, override: string) returns (root: Json)
    ensures root == RootTree(spec, creds, override)
  {
    var m := new JsonObject();
    RenderSections(spec, creds, m);
    RenderGlobals(spec.globals, m);
    var hooks := RenderHooks(spec, override);
    m.SetIfNotNil(HOOKS_LIBRARIES, Array(hooks));
    root := RootOf(m.fields);
  }
}
