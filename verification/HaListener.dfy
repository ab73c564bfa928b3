/**
 * The dedicated listener of high availability (ha_config.go): what the rendered configuration
 * says about it, read from the tree.
 */
module HaListener {
  import opened Options
  import opened Json
  import opened Spec
  import opened Secrets
  import opened Render

  /** The fields of the HA settings in a list of hooks. */
  function EntryIn(hooks: seq<Json>): Fields {
    if hooks == [] then map[]
    else
      var configs := ElemsOf(Lookup(FieldsOf(Lookup(Of(hooks[|hooks| - 1]), PARAMETERS)), HIGH_AVAILABILITY));
      if configs == [] then map[] else Of(configs[0])
  }

  /** The fields of the HA settings Kea finds in a configuration. */
  function HAEntry(config: Json): Fields { EntryIn(ElemsOf(Lookup(Dhcp4Of(config), HOOKS_LIBRARIES))) }

  /** A listener of its own on all addresses at a port. */
  predicate Listens(entry: Fields, port: int) {
    && Lookup(entry, HTTP_DEDICATED_LISTENER) == Some(Bool(true))
    && Lookup(entry, HTTP_LISTENER_ADDRESS) == Some(Str("0.0.0.0"))
    && Lookup(entry, HTTP_LISTENER_PORT) == Some(Num(port))
  }

  /** Nothing is said about a listener. */
  predicate NoListener(entry: Fields) {
    && Lookup(entry, HTTP_DEDICATED_LISTENER) == None
    && Lookup(entry, HTTP_LISTENER_ADDRESS) == None
    && Lookup(entry, HTTP_LISTENER_PORT) == None
  }

  /** The control socket has a port one can listen on. */
  predicate HasPort(spec: Dhcp4Spec) {
    spec.controlSocket.Some? && spec.controlSocket.value.socketPort.Some? && spec.controlSocket.value.socketPort.value > 0
  }

  lemma SettingsListen(ha: HAConfig, port: int)
    ensures if port > 0 then Listens(HASettings(ha, port), port) else NoListener(HASettings(ha, port))
    ensures THIS_SERVER_NAME !in HASettings(ha, port)
  {
  }

  lemma TreeListens(ha: HAConfig, name: string, port: int)
    ensures if port > 0 then Listens(Of(HATree(ha, name, port)), port) else NoListener(Of(HATree(ha, name, port)))
  {
    SettingsListen(ha, port);
  }

  /** The settings of the last hook of a resource with high availability. */
  lemma EntryOfHooks(spec: Dhcp4Spec, override: string)
    requires spec.highAvailability.Some?
    ensures var ha := spec.highAvailability.value;
            EntryIn(HookElems(spec, override)) == Of(HATree(ha, EffectiveName(ha, override), HAPort(spec.controlSocket)))
  {
    var ha := spec.highAvailability.value;
    var user := MapSeq(HookTree, spec.hooksLibraries) + DBHookElems(spec.leaseDatabase);
    var lease := HookTree(HookLibrary(LEASE_CMDS_LIBRARY, NoParameters));
    var tree := HATree(ha, EffectiveName(ha, override), HAPort(spec.controlSocket));
    LastEntry(user + [lease], tree);
    assert HookElems(spec, override) == user + [lease] + [HAHook(tree)];
  }

  /** The injected hook around the settings. */
  function HAHook(tree: Json): Json { HookTree(HookLibrary(HA_LIBRARY, Parsed(HAParameters(tree)))) }

  lemma LastEntry(front: seq<Json>, tree: Json)
    ensures EntryIn(front + [HAHook(tree)]) == Of(tree)
  {
    assert Lookup(Of(HAHook(tree)), PARAMETERS) == Some(HAParameters(tree));
    assert ElemsOf(Lookup(Of(HAParameters(tree)), HIGH_AVAILABILITY)) == [tree];
  }

  lemma HooksOfTree(spec: Dhcp4Spec, creds: Credentials, override: string)
    ensures ElemsOf(Lookup(Dhcp4Of(RootTree(spec, creds, override)), HOOKS_LIBRARIES)) == HookElems(spec, override)
  {
    var shared := Shared(spec, creds);
    SharedLookups(spec, creds);
    LastSectionLookups(spec, creds);
    HooksOfRoot(shared, HookElems(spec, override));
    Dhcp4OfRoot(Put(shared, HOOKS_LIBRARIES, Array(HookElems(spec, override))));
  }

  /**
   * In the configuration of every resource with high availability, for every server name: if the
   * control socket has a positive port there is a dedicated listener on all addresses at that
   * port, and otherwise none of the three fields exists.
   */
  lemma ListenerExactly(spec: Dhcp4Spec, creds: Credentials, override: string)
    requires spec.highAvailability.Some?
    ensures var entry := HAEntry(RootTree(spec, creds, override));
            if HasPort(spec) then Listens(entry, spec.controlSocket.value.socketPort.value) else NoListener(entry)
  {
    var ha := spec.highAvailability.value;
    HooksOfTree(spec, creds, override);
    EntryOfHooks(spec, override);
    TreeListens(ha, EffectiveName(ha, override), HAPort(spec.controlSocket));
  }
}
