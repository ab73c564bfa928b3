/**
 * The DHCPv4 custom resource (api/v1alpha1). Pointers are options; a nil slice and an empty
 * slice are the same sequence.
 */
module Spec {
  import opened Options
  import opened Json

  datatype DatabaseConfig = DatabaseConfig(
    dbType: string,
    persist: Option<bool>,
    name: string,
    host: string,
    port: Option<int>,
    credentialsSecretRef: Option<string>,
    connectTimeout: Option<int>,
    maxReconnectTries: Option<int>,
    reconnectWaitTime: Option<int>,
    onFail: string,
    retryOnStartup: Option<bool>,
    lfcInterval: Option<int>,
    maxRowErrors: Option<int>,
    readOnly: Option<bool>,
    readTimeout: Option<int>,
    writeTimeout: Option<int>,
    tcpUserTimeout: Option<int>)

  datatype InterfacesConfig = InterfacesConfig(
    interfaces: seq<string>,
    dhcpSocketType: string,
    outboundInterface: string,
    reDetect: Option<bool>,
    serviceSocketsRequireAll: Option<bool>,
    serviceSocketsMaxRetries: Option<int>,
    serviceSocketsRetryWaitTime: Option<int>)

  datatype OptionData = OptionData(
    name: string,
    code: Option<int>,
    space: string,
    csvFormat: Option<bool>,
    data: string,
    alwaysSend: Option<bool>,
    neverSend: Option<bool>)

  datatype OptionDef = OptionDef(
    name: string,
    code: int,
    optType: string,
    isArray: Option<bool>,
    recordTypes: string,
    encapsulate: string,
    space: string)

  datatype ClientClass = ClientClass(
    name: string,
    test: string,
    optionData: seq<OptionData>,
    onlyIfRequired: Option<bool>,
    validLifetime: Option<int>,
    minValidLifetime: Option<int>,
    maxValidLifetime: Option<int>)

  datatype Reservation = Reservation(
    hwAddress: string,
    clientID: string,
    duid: string,
    circuitID: string,
    flexID: string,
    hostname: string,
    ipAddress: string,
    ipAddresses: seq<string>,
    prefixes: seq<string>,
    optionData: seq<OptionData>,
    clientClasses: seq<string>,
    nextServer: string,
    bootFileName: string,
    serverHostname: string)

  /** Raw hook parameters: absent, text that is not JSON, or text with a JSON value. */
  datatype HookParameters = NoParameters | Unparsable(raw: string) | Parsed(value: Json)

  datatype HookLibrary = HookLibrary(library: string, parameters: HookParameters)

  datatype ControlSocket = ControlSocket(
    socketType: string,
    socketName: string,
    socketPort: Option<int>,
    socketAddress: string)

  datatype LogOutputOption = LogOutputOption(
    output: string,
    maxsize: Option<int>,
    maxver: Option<int>,
    flush: Option<bool>,
    pattern: string)

  datatype LoggerConfig = LoggerConfig(
    name: string,
    severity: string,
    debugLevel: Option<int>,
    outputOptions: seq<LogOutputOption>)

  datatype Pool4 = Pool4(
    pool: string,
    optionData: seq<OptionData>,
    clientClass: string,
    requireClientClasses: seq<string>)

  datatype RelayInfo = RelayInfo(ipAddresses: seq<string>)

  datatype Subnet4 = Subnet4(
    id: int,
    subnet: string,
    pools: seq<Pool4>,
    optionData: seq<OptionData>,
    reservations: seq<Reservation>,
    clientClass: string,
    requireClientClasses: seq<string>,
    iface: string,
    relay: Option<RelayInfo>,
    validLifetime: Option<int>,
    minValidLifetime: Option<int>,
    maxValidLifetime: Option<int>,
    renewTimer: Option<int>,
    rebindTimer: Option<int>,
    authoritative: Option<bool>,
    reservationMode: string,
    matchClientID: Option<bool>,
    nextServer: string,
    bootFileName: string,
    serverHostname: string,
    userContext: string)

  datatype SharedNetwork4 = SharedNetwork4(
    name: string,
    subnet4: seq<Subnet4>,
    iface: string,
    optionData: seq<OptionData>,
    relay: Option<RelayInfo>,
    clientClass: string,
    requireClientClasses: seq<string>,
    validLifetime: Option<int>,
    minValidLifetime: Option<int>,
    maxValidLifetime: Option<int>,
    renewTimer: Option<int>,
    rebindTimer: Option<int>,
    authoritative: Option<bool>)

  datatype HAPeer = HAPeer(
    name: string,
    url: string,
    role: string,
    address: string,
    autoFailover: Option<bool>)

  datatype HAMultiThreading = HAMultiThreading(
    enableMultiThreading: Option<bool>,
    httpClientThreads: Option<int>,
    httpListenerThreads: Option<int>)

  datatype HAConfig = HAConfig(
    thisServerName: string,
    mode: string,
    heartbeatDelay: Option<int>,
    maxResponseDelay: Option<int>,
    maxAckDelay: Option<int>,
    maxUnackedClients: Option<int>,
    peers: seq<HAPeer>,
    tlsSecret: Option<string>,
    sendLeaseUpdates: Option<bool>,
    syncLeases: Option<bool>,
    syncTimeout: Option<int>,
    syncPageLimit: Option<int>,
    delayedUpdatesLimit: Option<int>,
    multiThreading: Option<HAMultiThreading>)

  datatype MultiThreadingConfig = MultiThreadingConfig(
    enableMultiThreading: Option<bool>,
    threadPoolSize: Option<int>,
    packetQueueSize: Option<int>)

  /** The scalar settings at the top level of the resource. */
  datatype Globals = Globals(
    validLifetime: Option<int>,
    minValidLifetime: Option<int>,
    maxValidLifetime: Option<int>,
    renewTimer: Option<int>,
    rebindTimer: Option<int>,
    calculateTeeTimes: Option<bool>,
    t1Percent: Option<string>,
    t2Percent: Option<string>,
    authoritative: Option<bool>,
    matchClientID: Option<bool>,
    serverTag: string,
    nextServer: string,
    bootFileName: string,
    serverHostname: string,
    ddnsSendUpdates: Option<bool>,
    ddnsOverrideNoUpdate: Option<bool>,
    ddnsOverrideClientUpdate: Option<bool>,
    ddnsReplaceClientName: string,
    ddnsGeneratedPrefix: string,
    ddnsQualifyingSuffix: string,
    ddnsUseConflictResolution: Option<bool>)

  /** The part of the resource that describes the Kea configuration and the workload size. */
  datatype Dhcp4Spec = Dhcp4Spec(
    replicas: Option<nat>,
    interfacesConfig: InterfacesConfig,
    leaseDatabase: Option<DatabaseConfig>,
    hostsDatabase: Option<DatabaseConfig>,
    hostsDatabases: seq<DatabaseConfig>,
    subnet4: seq<Subnet4>,
    sharedNetworks: seq<SharedNetwork4>,
    optionData: seq<OptionData>,
    optionDef: seq<OptionDef>,
    clientClasses: seq<ClientClass>,
    reservations: seq<Reservation>,
    hostReservationIdentifiers: seq<string>,
    hooksLibraries: seq<HookLibrary>,
    controlSocket: Option<ControlSocket>,
    loggers: seq<LoggerConfig>,
    globals: Globals,
    highAvailability: Option<HAConfig>,
    multiThreading: Option<MultiThreadingConfig>)

  /** Placeholders the renderer writes where a database expects its credentials. */
  datatype DBCredentials = DBCredentials(user: string, password: string)

  const NO_CREDENTIALS := DBCredentials("", "")
}
