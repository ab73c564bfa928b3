/**
 * Rendering of a DHCPv4 resource (internal/kea): every record becomes a map in which absent
 * and empty settings have no field. The trees are functions of the records, with their decoders
 * and normal forms; the code that fills the maps is in Renderer.
 */
module Render {
  import opened Options
  import opened Json
  import opened Spec
  import opened Secrets

  const HA_LIBRARY := "/usr/lib/kea/hooks/libdhcp_ha.so"
  const LEASE_CMDS_LIBRARY := "/usr/lib/kea/hooks/libdhcp_lease_cmds.so"
  const MYSQL_LIBRARY := "/usr/lib/kea/hooks/libdhcp_mysql.so"
  const PGSQL_LIBRARY := "/usr/lib/kea/hooks/libdhcp_pgsql.so"

  function MapSeq<A, B>(f: A -> B, s: seq<A>): (r: seq<B>)
    ensures |r| == |s| && forall i | 0 <= i < |s| :: r[i] == f(s[i])
  {
    seq(|s|, i requires 0 <= i < |s| => f(s[i]))
  }

  /** Fields of a rendered object. */
  function Of(j: Json): Fields { FieldsOf(Some(j)) }

  // ---------- options ----------

  function OptionTree(o: OptionData): Json {
    var m := Put(map[], NAME, Text(o.name));
    var m := Put(m, CODE, Int(o.code));
    var m := Put(m, SPACE, Text(o.space));
    var m := Put(m, CSV_FORMAT, Flag(o.csvFormat));
    var m := Put(m, DATA, Text(o.data));
    var m := Put(m, ALWAYS_SEND, Flag(o.alwaysSend));
    var m := Put(m, NEVER_SEND, Flag(o.neverSend));
    Obj(m)
  }

  function DecodeOption(j: Json): OptionData {
    var m := Of(j);
    OptionData(TextOf(Lookup(m, NAME)), IntOf(Lookup(m, CODE)), TextOf(Lookup(m, SPACE)), BoolOf(Lookup(m, CSV_FORMAT)),
               TextOf(Lookup(m, DATA)), BoolOf(Lookup(m, ALWAYS_SEND)), BoolOf(Lookup(m, NEVER_SEND)))
  }

  lemma OptionRoundTrip(o: OptionData)
    ensures DecodeOption(OptionTree(o)) == o
  {
  }

  function OptionTrees(opts: seq<OptionData>): Option<Json> { Array(MapSeq(OptionTree, opts)) }

  function DecodeOptions(v: Option<Json>): seq<OptionData> { MapSeq(DecodeOption, ElemsOf(v)) }

  lemma OptionsRoundTrip(opts: seq<OptionData>)
    ensures DecodeOptions(OptionTrees(opts)) == opts
  {
    forall i | 0 <= i < |opts| ensures DecodeOption(OptionTree(opts[i])) == opts[i] { OptionRoundTrip(opts[i]); }
  }

  // ---------- option definitions ----------

  function OptionDefTree(d: OptionDef): Json {
    var m := Put(map[], NAME, RequiredText(d.name));
    var m := Put(m, CODE, RequiredInt(d.code));
    var m := Put(m, TYPE, RequiredText(d.optType));
    var m := Put(m, ARRAY, Flag(d.isArray));
    var m := Put(m, RECORD_TYPES, Text(d.recordTypes));
    var m := Put(m, ENCAPSULATE, Text(d.encapsulate));
    var m := Put(m, SPACE, Text(d.space));
    Obj(m)
  }

  function DecodeOptionDef(j: Json): OptionDef {
    var m := Of(j);
    OptionDef(RequiredTextOf(Lookup(m, NAME)), RequiredIntOf(Lookup(m, CODE)), RequiredTextOf(Lookup(m, TYPE)), BoolOf(Lookup(m, ARRAY)),
              TextOf(Lookup(m, RECORD_TYPES)), TextOf(Lookup(m, ENCAPSULATE)), TextOf(Lookup(m, SPACE)))
  }

  lemma OptionDefRoundTrip(d: OptionDef)
    ensures DecodeOptionDef(OptionDefTree(d)) == d
  {
  }

  function OptionDefTrees(defs: seq<OptionDef>): Option<Json> { Array(MapSeq(OptionDefTree, defs)) }

  function DecodeOptionDefs(v: Option<Json>): seq<OptionDef> { MapSeq(DecodeOptionDef, ElemsOf(v)) }

  lemma OptionDefsRoundTrip(defs: seq<OptionDef>)
    ensures DecodeOptionDefs(OptionDefTrees(defs)) == defs
  {
    forall i | 0 <= i < |defs| ensures DecodeOptionDef(OptionDefTree(defs[i])) == defs[i] { OptionDefRoundTrip(defs[i]); }
  }

  // ---------- client classes ----------

  function ClientClassTree(c: ClientClass): Json {
    var m := Put(map[], NAME, RequiredText(c.name));
    var m := Put(m, TEST, Text(c.test));
    var m := Put(m, OPTION_DATA, OptionTrees(c.optionData));
    var m := Put(m, ONLY_IF_REQUIRED, Flag(c.onlyIfRequired));
    var m := Put(m, VALID_LIFETIME, Int(c.validLifetime));
    var m := Put(m, MIN_VALID_LIFETIME, Int(c.minValidLifetime));
    var m := Put(m, MAX_VALID_LIFETIME, Int(c.maxValidLifetime));
    Obj(m)
  }

  function DecodeClientClass(j: Json): ClientClass {
    var m := Of(j);
    ClientClass(RequiredTextOf(Lookup(m, NAME)), TextOf(Lookup(m, TEST)), DecodeOptions(Lookup(m, OPTION_DATA)),
                BoolOf(Lookup(m, ONLY_IF_REQUIRED)), IntOf(Lookup(m, VALID_LIFETIME)),
                IntOf(Lookup(m, MIN_VALID_LIFETIME)), IntOf(Lookup(m, MAX_VALID_LIFETIME)))
  }

  lemma ClientClassRoundTrip(c: ClientClass)
    ensures DecodeClientClass(ClientClassTree(c)) == c
  {
    OptionsRoundTrip(c.optionData);
  }

  function ClientClassTrees(cs: seq<ClientClass>): Option<Json> { Array(MapSeq(ClientClassTree, cs)) }

  function DecodeClientClasses(v: Option<Json>): seq<ClientClass> { MapSeq(DecodeClientClass, ElemsOf(v)) }

  lemma ClientClassesRoundTrip(cs: seq<ClientClass>)
    ensures DecodeClientClasses(ClientClassTrees(cs)) == cs
  {
    forall i | 0 <= i < |cs| ensures DecodeClientClass(ClientClassTree(cs[i])) == cs[i] { ClientClassRoundTrip(cs[i]); }
  }

  // ---------- reservations ----------

  function ReservationTree(r: Reservation): Json {
    var m := Put(map[], HW_ADDRESS, Text(r.hwAddress));
    var m := Put(m, CLIENT_ID, Text(r.clientID));
    var m := Put(m, DUID, Text(r.duid));
    var m := Put(m, CIRCUIT_ID, Text(r.circuitID));
    var m := Put(m, FLEX_ID, Text(r.flexID));
    var m := Put(m, HOSTNAME, Text(r.hostname));
    var m := Put(m, IP_ADDRESS, Text(r.ipAddress));
    var m := Put(m, IP_ADDRESSES, Texts(r.ipAddresses));
    var m := Put(m, PREFIXES, Texts(r.prefixes));
    var m := Put(m, OPTION_DATA, OptionTrees(r.optionData));
    var m := Put(m, CLIENT_CLASSES, Texts(r.clientClasses));
    var m := Put(m, NEXT_SERVER, Text(r.nextServer));
    var m := Put(m, BOOT_FILE_NAME, Text(r.bootFileName));
    var m := Put(m, SERVER_HOSTNAME, Text(r.serverHostname));
    Obj(m)
  }

  function DecodeReservation(j: Json): Reservation {
    var m := Of(j);
    Reservation(TextOf(Lookup(m, HW_ADDRESS)), TextOf(Lookup(m, CLIENT_ID)), TextOf(Lookup(m, DUID)),
                TextOf(Lookup(m, CIRCUIT_ID)), TextOf(Lookup(m, FLEX_ID)), TextOf(Lookup(m, HOSTNAME)),
                TextOf(Lookup(m, IP_ADDRESS)), TextsOf(Lookup(m, IP_ADDRESSES)), TextsOf(Lookup(m, PREFIXES)),
                DecodeOptions(Lookup(m, OPTION_DATA)), TextsOf(Lookup(m, CLIENT_CLASSES)),
                TextOf(Lookup(m, NEXT_SERVER)), TextOf(Lookup(m, BOOT_FILE_NAME)), TextOf(Lookup(m, SERVER_HOSTNAME)))
  }

  lemma ReservationRoundTrip(r: Reservation)
    ensures DecodeReservation(ReservationTree(r)) == r
  {
    OptionsRoundTrip(r.optionData);
  }

  function ReservationTrees(rs: seq<Reservation>): Option<Json> { Array(MapSeq(ReservationTree, rs)) }

  function DecodeReservations(v: Option<Json>): seq<Reservation> { MapSeq(DecodeReservation, ElemsOf(v)) }

  lemma ReservationsRoundTrip(rs: seq<Reservation>)
    ensures DecodeReservations(ReservationTrees(rs)) == rs
  {
    forall i | 0 <= i < |rs| ensures DecodeReservation(ReservationTree(rs[i])) == rs[i] { ReservationRoundTrip(rs[i]); }
  }

  // ---------- databases ----------

  function DatabaseTree(db: DatabaseConfig, creds: DBCredentials): Json {
    var m := Put(map[], TYPE, RequiredText(db.dbType));
    var m := Put(m, PERSIST, Flag(db.persist));
    var m := Put(m, NAME, Text(db.name));
    var m := Put(m, HOST, Text(db.host));
    var m := Put(m, PORT, Int(db.port));
    var m := Put(m, USER, Text(creds.user));
    var m := Put(m, PASSWORD, Text(creds.password));
    var m := Put(m, CONNECT_TIMEOUT, Int(db.connectTimeout));
    var m := Put(m, MAX_RECONNECT_TRIES, Int(db.maxReconnectTries));
    var m := Put(m, RECONNECT_WAIT_TIME, Int(db.reconnectWaitTime));
    var m := Put(m, ON_FAIL, Text(db.onFail));
    var m := Put(m, RETRY_ON_STARTUP, Flag(db.retryOnStartup));
    var m := Put(m, LFC_INTERVAL, Int(db.lfcInterval));
    var m := Put(m, MAX_ROW_ERRORS, Int(db.maxRowErrors));
    var m := Put(m, READONLY, Flag(db.readOnly));
    var m := Put(m, READ_TIMEOUT, Int(db.readTimeout));
    var m := Put(m, WRITE_TIMEOUT, Int(db.writeTimeout));
    var m := Put(m, TCP_USER_TIMEOUT, Int(db.tcpUserTimeout));
    Obj(m)
  }

  function DecodeDatabase(j: Json): DatabaseConfig {
    var m := Of(j);
    DatabaseConfig(RequiredTextOf(Lookup(m, TYPE)), BoolOf(Lookup(m, PERSIST)), TextOf(Lookup(m, NAME)), TextOf(Lookup(m, HOST)),
                   IntOf(Lookup(m, PORT)), None, IntOf(Lookup(m, CONNECT_TIMEOUT)), IntOf(Lookup(m, MAX_RECONNECT_TRIES)),
                   IntOf(Lookup(m, RECONNECT_WAIT_TIME)), TextOf(Lookup(m, ON_FAIL)), BoolOf(Lookup(m, RETRY_ON_STARTUP)),
                   IntOf(Lookup(m, LFC_INTERVAL)), IntOf(Lookup(m, MAX_ROW_ERRORS)), BoolOf(Lookup(m, READONLY)),
                   IntOf(Lookup(m, READ_TIMEOUT)), IntOf(Lookup(m, WRITE_TIMEOUT)), IntOf(Lookup(m, TCP_USER_TIMEOUT)))
  }

  function DecodeCredentials(j: Json): DBCredentials {
    var m := Of(j);
    DBCredentials(TextOf(Lookup(m, USER)), TextOf(Lookup(m, PASSWORD)))
  }

  /** The reference to the Secret is not rendered; its placeholders are. */
  function NormDatabase(db: DatabaseConfig): DatabaseConfig { db.(credentialsSecretRef := None) }

  lemma DatabaseRoundTrip(db: DatabaseConfig, creds: DBCredentials)
    ensures DecodeDatabase(DatabaseTree(db, creds)) == NormDatabase(db)
  {
  }

  lemma CredentialsRoundTrip(db: DatabaseConfig, creds: DBCredentials)
    ensures DecodeCredentials(DatabaseTree(db, creds)) == creds
    ensures RequiredTextOf(Lookup(Of(DatabaseTree(db, creds)), TYPE)) == db.dbType
  {
  }

  function OptDatabaseTree(db: Option<DatabaseConfig>, creds: DBCredentials): Option<Json> {
    match db case None => None case Some(x) => Some(DatabaseTree(x, creds))
  }

  function DecodeOptDatabase(v: Option<Json>): Option<DatabaseConfig> {
    match v case None => None case Some(j) => Some(DecodeDatabase(j))
  }

  function DecodeOptCredentials(v: Option<Json>): DBCredentials {
    match v case None => NO_CREDENTIALS case Some(j) => DecodeCredentials(j)
  }

  function NormOptDatabase(db: Option<DatabaseConfig>): Option<DatabaseConfig> {
    match db case None => None case Some(x) => Some(NormDatabase(x))
  }

  lemma OptDatabaseRoundTrip(db: Option<DatabaseConfig>, creds: DBCredentials)
    ensures DecodeOptDatabase(OptDatabaseTree(db, creds)) == NormOptDatabase(db)
    ensures DecodeOptCredentials(OptDatabaseTree(db, creds)) == if db.Some? then creds else NO_CREDENTIALS
  {
    if db.Some? {
      DatabaseRoundTrip(db.value, creds);
      CredentialsRoundTrip(db.value, creds);
    }
  }

  function DatabaseElems(dbs: seq<DatabaseConfig>, creds: seq<DBCredentials>): (r: seq<Json>)
    ensures |r| == |dbs| && forall i | 0 <= i < |dbs| :: r[i] == DatabaseTree(dbs[i], CredentialsAt(creds, i))
  {
    seq(|dbs|, i requires 0 <= i < |dbs| => DatabaseTree(dbs[i], CredentialsAt(creds, i)))
  }

  function DatabaseTrees(dbs: seq<DatabaseConfig>, creds: seq<DBCredentials>): Option<Json> {
    Array(DatabaseElems(dbs, creds))
  }

  function DecodeDatabases(v: Option<Json>): seq<DatabaseConfig> { MapSeq(DecodeDatabase, ElemsOf(v)) }

  function DecodeCredentialsList(v: Option<Json>): seq<DBCredentials> { MapSeq(DecodeCredentials, ElemsOf(v)) }

  /** One pair of placeholders per database, whatever the length of the credential slice. */
  function NormCredentials(n: nat, creds: seq<DBCredentials>): (r: seq<DBCredentials>)
    ensures |r| == n && forall i | 0 <= i < n :: r[i] == CredentialsAt(creds, i)
  {
    seq(n, i requires 0 <= i < n => CredentialsAt(creds, i))
  }

  lemma DatabasesRoundTrip(dbs: seq<DatabaseConfig>, creds: seq<DBCredentials>)
    ensures DecodeDatabases(DatabaseTrees(dbs, creds)) == MapSeq(NormDatabase, dbs)
    ensures DecodeCredentialsList(DatabaseTrees(dbs, creds)) == NormCredentials(|dbs|, creds)
  {
    forall i | 0 <= i < |dbs|
      ensures DecodeDatabase(DatabaseTree(dbs[i], CredentialsAt(creds, i))) == NormDatabase(dbs[i])
      ensures DecodeCredentials(DatabaseTree(dbs[i], CredentialsAt(creds, i))) == CredentialsAt(creds, i)
    {
      DatabaseRoundTrip(dbs[i], CredentialsAt(creds, i));
      CredentialsRoundTrip(dbs[i], CredentialsAt(creds, i));
    }
  }

  // ---------- control socket, loggers, interfaces ----------

  function ControlSocketTree(cs: Option<ControlSocket>): Option<Json> {
    match cs
    case None => None
    case Some(c) =>
      var m := Put(map[], SOCKET_TYPE, RequiredText(c.socketType));
      var m := Put(m, SOCKET_NAME, Text(c.socketName));
      var m := Put(m, SOCKET_PORT, Int(c.socketPort));
      var m := Put(m, SOCKET_ADDRESS, Text(c.socketAddress));
      Some(Obj(m))
  }

  function DecodeControlSocket(v: Option<Json>): Option<ControlSocket> {
    match v
    case None => None
    case Some(j) =>
      var m := Of(j);
      Some(ControlSocket(RequiredTextOf(Lookup(m, SOCKET_TYPE)), TextOf(Lookup(m, SOCKET_NAME)),
                         IntOf(Lookup(m, SOCKET_PORT)), TextOf(Lookup(m, SOCKET_ADDRESS))))
  }

  lemma ControlSocketRoundTrip(cs: Option<ControlSocket>)
    ensures DecodeControlSocket(ControlSocketTree(cs)) == cs
  {
  }

  function OutputTree(o: LogOutputOption): Json {
    var m := Put(map[], OUTPUT, RequiredText(o.output));
    var m := Put(m, MAXSIZE, Int(o.maxsize));
    var m := Put(m, MAXVER, Int(o.maxver));
    var m := Put(m, FLUSH, Flag(o.flush));
    var m := Put(m, PATTERN, Text(o.pattern));
    Obj(m)
  }

  function DecodeOutput(j: Json): LogOutputOption {
    var m := Of(j);
    LogOutputOption(RequiredTextOf(Lookup(m, OUTPUT)), IntOf(Lookup(m, MAXSIZE)), IntOf(Lookup(m, MAXVER)),
                    BoolOf(Lookup(m, FLUSH)), TextOf(Lookup(m, PATTERN)))
  }

  lemma OutputRoundTrip(o: LogOutputOption)
    ensures DecodeOutput(OutputTree(o)) == o
  {
  }

  function LoggerTree(l: LoggerConfig): Json {
    var m := Put(map[], NAME, RequiredText(l.name));
    var m := Put(m, SEVERITY, Text(l.severity));
    var m := Put(m, DEBUGLEVEL, Int(l.debugLevel));
    var m := Put(m, OUTPUT_OPTIONS, Array(MapSeq(OutputTree, l.outputOptions)));
    Obj(m)
  }

  function DecodeLogger(j: Json): LoggerConfig {
    var m := Of(j);
    LoggerConfig(RequiredTextOf(Lookup(m, NAME)), TextOf(Lookup(m, SEVERITY)), IntOf(Lookup(m, DEBUGLEVEL)),
                 MapSeq(DecodeOutput, ElemsOf(Lookup(m, OUTPUT_OPTIONS))))
  }

  lemma LoggerRoundTrip(l: LoggerConfig)
    ensures DecodeLogger(LoggerTree(l)) == l
  {
    var outs := MapSeq(OutputTree, l.outputOptions);
    assert MapSeq(DecodeOutput, outs) == l.outputOptions by {
      forall i | 0 <= i < |outs| ensures DecodeOutput(outs[i]) == l.outputOptions[i] { OutputRoundTrip(l.outputOptions[i]); }
    }
  }

  function LoggerTrees(ls: seq<LoggerConfig>): Option<Json> { Array(MapSeq(LoggerTree, ls)) }

  function DecodeLoggers(v: Option<Json>): seq<LoggerConfig> { MapSeq(DecodeLogger, ElemsOf(v)) }

  lemma LoggersRoundTrip(ls: seq<LoggerConfig>)
    ensures DecodeLoggers(LoggerTrees(ls)) == ls
  {
    forall i | 0 <= i < |ls| ensures DecodeLogger(LoggerTree(ls[i])) == ls[i] { LoggerRoundTrip(ls[i]); }
  }

  function InterfacesTree(c: InterfacesConfig): Json {
    var m := Put(map[], INTERFACES, RequiredTexts(c.interfaces));
    var m := Put(m, DHCP_SOCKET_TYPE, Text(c.dhcpSocketType));
    var m := Put(m, OUTBOUND_INTERFACE, Text(c.outboundInterface));
    var m := Put(m, RE_DETECT, Flag(c.reDetect));
    var m := Put(m, SOCKETS_REQUIRE_ALL, Flag(c.serviceSocketsRequireAll));
    var m := Put(m, SOCKETS_MAX_RETRIES, Int(c.serviceSocketsMaxRetries));
    var m := Put(m, SOCKETS_RETRY_WAIT_TIME, Int(c.serviceSocketsRetryWaitTime));
    Obj(m)
  }

  function DecodeInterfaces(v: Option<Json>): InterfacesConfig {
    var m := FieldsOf(v);
    InterfacesConfig(RequiredTextsOf(Lookup(m, INTERFACES)), TextOf(Lookup(m, DHCP_SOCKET_TYPE)),
                     TextOf(Lookup(m, OUTBOUND_INTERFACE)), BoolOf(Lookup(m, RE_DETECT)),
                     BoolOf(Lookup(m, SOCKETS_REQUIRE_ALL)), IntOf(Lookup(m, SOCKETS_MAX_RETRIES)),
                     IntOf(Lookup(m, SOCKETS_RETRY_WAIT_TIME)))
  }

  lemma InterfacesRoundTrip(c: InterfacesConfig)
    ensures DecodeInterfaces(Some(InterfacesTree(c))) == c
  {
  }

  // ---------- pools, subnets, shared networks ----------

  function PoolTree(p: Pool4): Json {
    var m := Put(map[], POOL, RequiredText(p.pool));
    var m := Put(m, OPTION_DATA, OptionTrees(p.optionData));
    var m := Put(m, CLIENT_CLASS, Text(p.clientClass));
    var m := Put(m, REQUIRE_CLIENT_CLASSES, Texts(p.requireClientClasses));
    Obj(m)
  }

  function DecodePool(j: Json): Pool4 {
    var m := Of(j);
    Pool4(RequiredTextOf(Lookup(m, POOL)), DecodeOptions(Lookup(m, OPTION_DATA)), TextOf(Lookup(m, CLIENT_CLASS)),
          TextsOf(Lookup(m, REQUIRE_CLIENT_CLASSES)))
  }

  lemma PoolRoundTrip(p: Pool4)
    ensures DecodePool(PoolTree(p)) == p
  {
    OptionsRoundTrip(p.optionData);
  }

  function PoolTrees(ps: seq<Pool4>): Option<Json> { Array(MapSeq(PoolTree, ps)) }

  function DecodePools(v: Option<Json>): seq<Pool4> { MapSeq(DecodePool, ElemsOf(v)) }

  lemma PoolsRoundTrip(ps: seq<Pool4>)
    ensures DecodePools(PoolTrees(ps)) == ps
  {
    forall i | 0 <= i < |ps| ensures DecodePool(PoolTree(ps[i])) == ps[i] { PoolRoundTrip(ps[i]); }
  }

  /** A relay without addresses is dropped. */
  function RelayTree(r: Option<RelayInfo>): Option<Json> {
    if r.Some? && r.value.ipAddresses != [] then Some(Obj(Put(map[], IP_ADDRESSES, Texts(r.value.ipAddresses)))) else None
  }

  function DecodeRelay(v: Option<Json>): Option<RelayInfo> {
    match v case None => None case Some(j) => Some(RelayInfo(TextsOf(Lookup(Of(j), IP_ADDRESSES))))
  }

  function NormRelay(r: Option<RelayInfo>): Option<RelayInfo> {
    if r.Some? && r.value.ipAddresses != [] then r else None
  }

  lemma RelayRoundTrip(r: Option<RelayInfo>)
    ensures DecodeRelay(RelayTree(r)) == NormRelay(r)
  {
  }

  function SubnetTree(s: Subnet4): Json {
    var m := Put(map[], ID, RequiredInt(s.id));
    var m := Put(m, SUBNET, RequiredText(s.subnet));
    var m := Put(m, POOLS, PoolTrees(s.pools));
    var m := Put(m, OPTION_DATA, OptionTrees(s.optionData));
    var m := Put(m, RESERVATIONS, ReservationTrees(s.reservations));
    var m := Put(m, CLIENT_CLASS, Text(s.clientClass));
    var m := Put(m, REQUIRE_CLIENT_CLASSES, Texts(s.requireClientClasses));
    var m := Put(m, INTERFACE, Text(s.iface));
    var m := Put(m, RELAY, RelayTree(s.relay));
    var m := Put(m, VALID_LIFETIME, Int(s.validLifetime));
    var m := Put(m, MIN_VALID_LIFETIME, Int(s.minValidLifetime));
    var m := Put(m, MAX_VALID_LIFETIME, Int(s.maxValidLifetime));
    var m := Put(m, RENEW_TIMER, Int(s.renewTimer));
    var m := Put(m, REBIND_TIMER, Int(s.rebindTimer));
    var m := Put(m, AUTHORITATIVE, Flag(s.authoritative));
    var m := Put(m, RESERVATION_MODE, Text(s.reservationMode));
    var m := Put(m, MATCH_CLIENT_ID, Flag(s.matchClientID));
    var m := Put(m, NEXT_SERVER, Text(s.nextServer));
    var m := Put(m, BOOT_FILE_NAME, Text(s.bootFileName));
    var m := Put(m, SERVER_HOSTNAME, Text(s.serverHostname));
    var m := Put(m, USER_CONTEXT, Text(s.userContext));
    Obj(m)
  }

  function DecodeSubnet(j: Json): Subnet4 {
    var m := Of(j);
    Subnet4(RequiredIntOf(Lookup(m, ID)), RequiredTextOf(Lookup(m, SUBNET)), DecodePools(Lookup(m, POOLS)),
            DecodeOptions(Lookup(m, OPTION_DATA)), DecodeReservations(Lookup(m, RESERVATIONS)),
            TextOf(Lookup(m, CLIENT_CLASS)), TextsOf(Lookup(m, REQUIRE_CLIENT_CLASSES)), TextOf(Lookup(m, INTERFACE)),
            DecodeRelay(Lookup(m, RELAY)), IntOf(Lookup(m, VALID_LIFETIME)), IntOf(Lookup(m, MIN_VALID_LIFETIME)),
            IntOf(Lookup(m, MAX_VALID_LIFETIME)), IntOf(Lookup(m, RENEW_TIMER)), IntOf(Lookup(m, REBIND_TIMER)),
            BoolOf(Lookup(m, AUTHORITATIVE)), TextOf(Lookup(m, RESERVATION_MODE)), BoolOf(Lookup(m, MATCH_CLIENT_ID)),
            TextOf(Lookup(m, NEXT_SERVER)), TextOf(Lookup(m, BOOT_FILE_NAME)), TextOf(Lookup(m, SERVER_HOSTNAME)),
            TextOf(Lookup(m, USER_CONTEXT)))
  }

  function NormSubnet(s: Subnet4): Subnet4 { s.(relay := NormRelay(s.relay)) }

  lemma SubnetRoundTrip(s: Subnet4)
    ensures DecodeSubnet(SubnetTree(s)) == NormSubnet(s)
  {
    SubnetParts(s);
    SubnetSettings(s);
  }

  lemma SubnetParts(s: Subnet4)
    ensures var t := DecodeSubnet(SubnetTree(s));
            && t.id == s.id && t.subnet == s.subnet && t.pools == s.pools && t.optionData == s.optionData
            && t.reservations == s.reservations && t.clientClass == s.clientClass
            && t.requireClientClasses == s.requireClientClasses && t.iface == s.iface && t.relay == NormRelay(s.relay)
  {
    PoolsRoundTrip(s.pools);
    OptionsRoundTrip(s.optionData);
    ReservationsRoundTrip(s.reservations);
    RelayRoundTrip(s.relay);
  }

  lemma SubnetSettings(s: Subnet4)
    ensures var t := DecodeSubnet(SubnetTree(s));
            && t.validLifetime == s.validLifetime && t.minValidLifetime == s.minValidLifetime
            && t.maxValidLifetime == s.maxValidLifetime && t.renewTimer == s.renewTimer && t.rebindTimer == s.rebindTimer
            && t.authoritative == s.authoritative && t.reservationMode == s.reservationMode
            && t.matchClientID == s.matchClientID && t.nextServer == s.nextServer && t.bootFileName == s.bootFileName
            && t.serverHostname == s.serverHostname && t.userContext == s.userContext
  {
  }

  function SubnetTrees(ss: seq<Subnet4>): Option<Json> { Array(MapSeq(SubnetTree, ss)) }

  function DecodeSubnets(v: Option<Json>): seq<Subnet4> { MapSeq(DecodeSubnet, ElemsOf(v)) }

  lemma SubnetsRoundTrip(ss: seq<Subnet4>)
    ensures DecodeSubnets(SubnetTrees(ss)) == MapSeq(NormSubnet, ss)
  {
    forall i | 0 <= i < |ss| ensures DecodeSubnet(SubnetTree(ss[i])) == NormSubnet(ss[i]) { SubnetRoundTrip(ss[i]); }
  }

  function NetworkTree(n: SharedNetwork4): Json {
    var m := Put(map[], NAME, RequiredText(n.name));
    var m := Put(m, SUBNET4, SubnetTrees(n.subnet4));
    var m := Put(m, INTERFACE, Text(n.iface));
    var m := Put(m, OPTION_DATA, OptionTrees(n.optionData));
    var m := Put(m, RELAY, RelayTree(n.relay));
    var m := Put(m, CLIENT_CLASS, Text(n.clientClass));
    var m := Put(m, REQUIRE_CLIENT_CLASSES, Texts(n.requireClientClasses));
    var m := Put(m, VALID_LIFETIME, Int(n.validLifetime));
    var m := Put(m, MIN_VALID_LIFETIME, Int(n.minValidLifetime));
    var m := Put(m, MAX_VALID_LIFETIME, Int(n.maxValidLifetime));
    var m := Put(m, RENEW_TIMER, Int(n.renewTimer));
    var m := Put(m, REBIND_TIMER, Int(n.rebindTimer));
    var m := Put(m, AUTHORITATIVE, Flag(n.authoritative));
    Obj(m)
  }

  function DecodeNetwork(j: Json): SharedNetwork4 {
    var m := Of(j);
    SharedNetwork4(RequiredTextOf(Lookup(m, NAME)), DecodeSubnets(Lookup(m, SUBNET4)), TextOf(Lookup(m, INTERFACE)),
                   DecodeOptions(Lookup(m, OPTION_DATA)), DecodeRelay(Lookup(m, RELAY)), TextOf(Lookup(m, CLIENT_CLASS)),
                   TextsOf(Lookup(m, REQUIRE_CLIENT_CLASSES)), IntOf(Lookup(m, VALID_LIFETIME)),
                   IntOf(Lookup(m, MIN_VALID_LIFETIME)), IntOf(Lookup(m, MAX_VALID_LIFETIME)),
                   IntOf(Lookup(m, RENEW_TIMER)), IntOf(Lookup(m, REBIND_TIMER)), BoolOf(Lookup(m, AUTHORITATIVE)))
  }

  function NormNetwork(n: SharedNetwork4): SharedNetwork4 {
    n.(subnet4 := MapSeq(NormSubnet, n.subnet4), relay := NormRelay(n.relay))
  }

  lemma NetworkRoundTrip(n: SharedNetwork4)
    ensures DecodeNetwork(NetworkTree(n)) == NormNetwork(n)
  {
    SubnetsRoundTrip(n.subnet4);
    OptionsRoundTrip(n.optionData);
    RelayRoundTrip(n.relay);
  }

  function NetworkTrees(ns: seq<SharedNetwork4>): Option<Json> { Array(MapSeq(NetworkTree, ns)) }

  function DecodeNetworks(v: Option<Json>): seq<SharedNetwork4> { MapSeq(DecodeNetwork, ElemsOf(v)) }

  lemma NetworksRoundTrip(ns: seq<SharedNetwork4>)
    ensures DecodeNetworks(NetworkTrees(ns)) == MapSeq(NormNetwork, ns)
  {
    forall i | 0 <= i < |ns| ensures DecodeNetwork(NetworkTree(ns[i])) == NormNetwork(ns[i]) { NetworkRoundTrip(ns[i]); }
  }

  // ---------- hooks and high availability ----------

  function HookTree(h: HookLibrary): Json {
    var m := Put(map[], LIBRARY, RequiredText(h.library));
    var m := Put(m, PARAMETERS, if h.parameters.Parsed? then Some(h.parameters.value) else None);
    Obj(m)
  }

  function DecodeHook(j: Json): HookLibrary {
    var m := Of(j);
    HookLibrary(RequiredTextOf(Lookup(m, LIBRARY)),
                match Lookup(m, PARAMETERS) case Some(value) => Parsed(value) case None => NoParameters)
  }

  /** Parameters that are not JSON are dropped. */
  function NormHook(h: HookLibrary): HookLibrary {
    if h.parameters.Unparsable? then h.(parameters := NoParameters) else h
  }

  lemma HookRoundTrip(h: HookLibrary)
    ensures DecodeHook(HookTree(h)) == NormHook(h)
  {
  }

  function PeerTree(p: HAPeer): Json {
    var m := Put(map[], NAME, RequiredText(p.name));
    var m := Put(m, URL, RequiredText(p.url));
    var m := Put(m, ROLE, RequiredText(p.role));
    var m := Put(m, AUTO_FAILOVER, Flag(p.autoFailover));
    Obj(m)
  }

  function DecodePeer(j: Json): HAPeer {
    var m := Of(j);
    HAPeer(RequiredTextOf(Lookup(m, NAME)), RequiredTextOf(Lookup(m, URL)), RequiredTextOf(Lookup(m, ROLE)), "",
           BoolOf(Lookup(m, AUTO_FAILOVER)))
  }

  /** The static address of a peer is not rendered. */
  function NormPeer(p: HAPeer): HAPeer { p.(address := "") }

  lemma PeerRoundTrip(p: HAPeer)
    ensures DecodePeer(PeerTree(p)) == NormPeer(p)
  {
  }

  function PeerTrees(ps: seq<HAPeer>): Option<Json> { Array(MapSeq(PeerTree, ps)) }

  function DecodePeers(v: Option<Json>): seq<HAPeer> { MapSeq(DecodePeer, ElemsOf(v)) }

  lemma PeersRoundTrip(ps: seq<HAPeer>)
    ensures DecodePeers(PeerTrees(ps)) == MapSeq(NormPeer, ps)
  {
    forall i | 0 <= i < |ps| ensures DecodePeer(PeerTree(ps[i])) == NormPeer(ps[i]) { PeerRoundTrip(ps[i]); }
  }

  /** Multi-threading settings that set nothing are dropped. */
  function HAThreadsTree(t: Option<HAMultiThreading>): Option<Json> {
    match t
    case None => None
    case Some(mt) =>
      var m := Put(map[], ENABLE_MULTI_THREADING, Flag(mt.enableMultiThreading));
      var m := Put(m, HTTP_CLIENT_THREADS, Int(mt.httpClientThreads));
      var m := Put(m, HTTP_LISTENER_THREADS, Int(mt.httpListenerThreads));
      NonEmptyObject(m)
  }

  function DecodeHAThreads(v: Option<Json>): Option<HAMultiThreading> {
    match v
    case None => None
    case Some(j) =>
      var m := Of(j);
      Some(HAMultiThreading(BoolOf(Lookup(m, ENABLE_MULTI_THREADING)), IntOf(Lookup(m, HTTP_CLIENT_THREADS)),
                            IntOf(Lookup(m, HTTP_LISTENER_THREADS))))
  }

  function NormHAThreads(t: Option<HAMultiThreading>): Option<HAMultiThreading> {
    if t == Some(HAMultiThreading(None, None, None)) then None else t
  }

  lemma HAThreadsRoundTrip(t: Option<HAMultiThreading>)
    ensures DecodeHAThreads(HAThreadsTree(t)) == NormHAThreads(t)
  {
  }

  /** Everything but the server name; a listener is configured when the control socket has a positive port. */
  function HASettings(ha: HAConfig, port: int): Fields {
    var m := Put(map[], MODE, Text(ha.mode));
    var m := Put(m, HEARTBEAT_DELAY, Int(ha.heartbeatDelay));
    var m := Put(m, MAX_RESPONSE_DELAY, Int(ha.maxResponseDelay));
    var m := Put(m, MAX_ACK_DELAY, Int(ha.maxAckDelay));
    var m := Put(m, MAX_UNACKED_CLIENTS, Int(ha.maxUnackedClients));
    var m := Put(m, SEND_LEASE_UPDATES, Flag(ha.sendLeaseUpdates));
    var m := Put(m, SYNC_LEASES, Flag(ha.syncLeases));
    var m := Put(m, SYNC_TIMEOUT, Int(ha.syncTimeout));
    var m := Put(m, SYNC_PAGE_LIMIT, Int(ha.syncPageLimit));
    var m := Put(m, DELAYED_UPDATES_LIMIT, Int(ha.delayedUpdatesLimit));
    var m := Put(m, PEERS, PeerTrees(ha.peers));
    var m := Put(m, MULTI_THREADING, HAThreadsTree(ha.multiThreading));
    var m := Put(m, HTTP_DEDICATED_LISTENER, if port > 0 then Some(Bool(true)) else None);
    var m := Put(m, HTTP_LISTENER_ADDRESS, if port > 0 then Some(Str("0.0.0.0")) else None);
    Put(m, HTTP_LISTENER_PORT, if port > 0 then Some(Num(port)) else None)
  }

  function HATree(ha: HAConfig, name: string, port: int): Json {
    Obj(Put(HASettings(ha, port), THIS_SERVER_NAME, RequiredText(name)))
  }

  function DecodeHA(j: Json): HAConfig {
    var m := Of(j);
    HAConfig(RequiredTextOf(Lookup(m, THIS_SERVER_NAME)), TextOf(Lookup(m, MODE)), IntOf(Lookup(m, HEARTBEAT_DELAY)),
             IntOf(Lookup(m, MAX_RESPONSE_DELAY)), IntOf(Lookup(m, MAX_ACK_DELAY)), IntOf(Lookup(m, MAX_UNACKED_CLIENTS)),
             DecodePeers(Lookup(m, PEERS)), None, BoolOf(Lookup(m, SEND_LEASE_UPDATES)), BoolOf(Lookup(m, SYNC_LEASES)),
             IntOf(Lookup(m, SYNC_TIMEOUT)), IntOf(Lookup(m, SYNC_PAGE_LIMIT)), IntOf(Lookup(m, DELAYED_UPDATES_LIMIT)),
             DecodeHAThreads(Lookup(m, MULTI_THREADING)))
  }

  function NormHA(ha: HAConfig, name: string): HAConfig {
    ha.(thisServerName := name, peers := MapSeq(NormPeer, ha.peers), tlsSecret := None,
        multiThreading := NormHAThreads(ha.multiThreading))
  }

  function NormOptHA(ha: Option<HAConfig>, override: string): Option<HAConfig> {
    match ha case None => None case Some(h) => Some(NormHA(h, EffectiveName(h, override)))
  }

  lemma HARoundTrip(ha: HAConfig, name: string, port: int)
    ensures DecodeHA(HATree(ha, name, port)) == NormHA(ha, name)
  {
    PeersRoundTrip(ha.peers);
    HAThreadsRoundTrip(ha.multiThreading);
  }

  /** The hook of a database backend; `memfile` needs none. */
  function DBHookElems(db: Option<DatabaseConfig>): seq<Json> {
    if db.None? then []
    else if db.value.dbType == "mysql" then [HookTree(HookLibrary(MYSQL_LIBRARY, NoParameters))]
    else if db.value.dbType == "postgresql" then [HookTree(HookLibrary(PGSQL_LIBRARY, NoParameters))]
    else []
  }

  predicate InjectsDBHook(db: Option<DatabaseConfig>) {
    db.Some? && (db.value.dbType == "mysql" || db.value.dbType == "postgresql")
  }

  function HAParameters(tree: Json): Json { Obj(Put(map[], HIGH_AVAILABILITY, Some(Arr([tree])))) }

  function HAHookElems(ha: Option<HAConfig>, override: string, port: int): seq<Json> {
    match ha
    case None => []
    case Some(h) =>
      [HookTree(HookLibrary(LEASE_CMDS_LIBRARY, NoParameters)),
       HookTree(HookLibrary(HA_LIBRARY, Parsed(HAParameters(HATree(h, EffectiveName(h, override), port)))))]
  }

  function EffectiveName(ha: HAConfig, override: string): string {
    if override != "" then override else ha.thisServerName
  }

  function HAPort(cs: Option<ControlSocket>): int {
    if cs.Some? && cs.value.socketPort.Some? then cs.value.socketPort.value else 0
  }

  /** User hooks first, then the database hook, then lease commands and high availability. */
  function HookElems(spec: Dhcp4Spec, override: string): seq<Json> {
    MapSeq(HookTree, spec.hooksLibraries) + DBHookElems(spec.leaseDatabase)
    + HAHookElems(spec.highAvailability, override, HAPort(spec.controlSocket))
  }

  // ---------- the top level ----------

  function ThreadsTree(t: Option<MultiThreadingConfig>): Option<Json> {
    match t
    case None => None
    case Some(mt) =>
      var m := Put(map[], ENABLE_MULTI_THREADING, Flag(mt.enableMultiThreading));
      var m := Put(m, THREAD_POOL_SIZE, Int(mt.threadPoolSize));
      var m := Put(m, PACKET_QUEUE_SIZE, Int(mt.packetQueueSize));
      NonEmptyObject(m)
  }

  function DecodeThreads(v: Option<Json>): Option<MultiThreadingConfig> {
    match v
    case None => None
    case Some(j) =>
      var m := Of(j);
      Some(MultiThreadingConfig(BoolOf(Lookup(m, ENABLE_MULTI_THREADING)), IntOf(Lookup(m, THREAD_POOL_SIZE)),
                                IntOf(Lookup(m, PACKET_QUEUE_SIZE))))
  }

  function NormThreads(t: Option<MultiThreadingConfig>): Option<MultiThreadingConfig> {
    if t == Some(MultiThreadingConfig(None, None, None)) then None else t
  }

  lemma ThreadsRoundTrip(t: Option<MultiThreadingConfig>)
    ensures DecodeThreads(ThreadsTree(t)) == NormThreads(t)
  {
  }

  /** `r` differs from `m` in fields `lo` up to `hi` only. */
  ghost predicate Frame(m: Fields, r: Fields, lo: Key, hi: Key) {
    forall k: Key | !(lo <= k <= hi) :: Lookup(r, k) == Lookup(m, k)
  }

  /** None of the fields `lo` up to `hi` is set. */
  ghost predicate Unset(m: Fields, lo: Key, hi: Key) { forall k: Key | lo <= k <= hi :: Lookup(m, k) == None }

  function PutLifetimes(m: Fields, g: Globals): Fields {
    var m := Put(m, VALID_LIFETIME, Int(g.validLifetime));
    var m := Put(m, MIN_VALID_LIFETIME, Int(g.minValidLifetime));
    var m := Put(m, MAX_VALID_LIFETIME, Int(g.maxValidLifetime));
    var m := Put(m, RENEW_TIMER, Int(g.renewTimer));
    var m := Put(m, REBIND_TIMER, Int(g.rebindTimer));
    var m := Put(m, CALCULATE_TEE_TIMES, Flag(g.calculateTeeTimes));
    var m := Put(m, T1_PERCENT, OptText(g.t1Percent));
    Put(m, T2_PERCENT, OptText(g.t2Percent))
  }

  ghost predicate LifetimesIn(r: Fields, g: Globals) {
    && IntOf(Lookup(r, VALID_LIFETIME)) == g.validLifetime
    && IntOf(Lookup(r, MIN_VALID_LIFETIME)) == g.minValidLifetime
    && IntOf(Lookup(r, MAX_VALID_LIFETIME)) == g.maxValidLifetime
    && IntOf(Lookup(r, RENEW_TIMER)) == g.renewTimer
    && IntOf(Lookup(r, REBIND_TIMER)) == g.rebindTimer
    && BoolOf(Lookup(r, CALCULATE_TEE_TIMES)) == g.calculateTeeTimes
    && OptTextOf(Lookup(r, T1_PERCENT)) == g.t1Percent
    && OptTextOf(Lookup(r, T2_PERCENT)) == g.t2Percent
  }

  lemma LifetimesRoundTrip(m: Fields, g: Globals)
    requires Unset(m, VALID_LIFETIME, T2_PERCENT)
    ensures LifetimesIn(PutLifetimes(m, g), g) && Frame(m, PutLifetimes(m, g), VALID_LIFETIME, T2_PERCENT)
  {
  }

  function PutIdentity(m: Fields, g: Globals): Fields {
    var m := Put(m, AUTHORITATIVE, Flag(g.authoritative));
    var m := Put(m, MATCH_CLIENT_ID, Flag(g.matchClientID));
    var m := Put(m, SERVER_TAG, Text(g.serverTag));
    var m := Put(m, NEXT_SERVER, Text(g.nextServer));
    var m := Put(m, BOOT_FILE_NAME, Text(g.bootFileName));
    Put(m, SERVER_HOSTNAME, Text(g.serverHostname))
  }

  ghost predicate IdentityIn(r: Fields, g: Globals) {
    && BoolOf(Lookup(r, AUTHORITATIVE)) == g.authoritative
    && BoolOf(Lookup(r, MATCH_CLIENT_ID)) == g.matchClientID
    && TextOf(Lookup(r, SERVER_TAG)) == g.serverTag
    && TextOf(Lookup(r, NEXT_SERVER)) == g.nextServer
    && TextOf(Lookup(r, BOOT_FILE_NAME)) == g.bootFileName
    && TextOf(Lookup(r, SERVER_HOSTNAME)) == g.serverHostname
  }

  lemma IdentityRoundTrip(m: Fields, g: Globals)
    requires Unset(m, AUTHORITATIVE, SERVER_HOSTNAME)
    ensures IdentityIn(PutIdentity(m, g), g) && Frame(m, PutIdentity(m, g), AUTHORITATIVE, SERVER_HOSTNAME)
  {
  }

  function PutDdns(m: Fields, g: Globals): Fields {
    var m := Put(m, DDNS_SEND_UPDATES, Flag(g.ddnsSendUpdates));
    var m := Put(m, DDNS_OVERRIDE_NO_UPDATE, Flag(g.ddnsOverrideNoUpdate));
    var m := Put(m, DDNS_OVERRIDE_CLIENT_UPDATE, Flag(g.ddnsOverrideClientUpdate));
    var m := Put(m, DDNS_REPLACE_CLIENT_NAME, Text(g.ddnsReplaceClientName));
    var m := Put(m, DDNS_GENERATED_PREFIX, Text(g.ddnsGeneratedPrefix));
    var m := Put(m, DDNS_QUALIFYING_SUFFIX, Text(g.ddnsQualifyingSuffix));
    Put(m, DDNS_USE_CONFLICT_RESOLUTION, Flag(g.ddnsUseConflictResolution))
  }

  ghost predicate DdnsIn(r: Fields, g: Globals) {
    && BoolOf(Lookup(r, DDNS_SEND_UPDATES)) == g.ddnsSendUpdates
    && BoolOf(Lookup(r, DDNS_OVERRIDE_NO_UPDATE)) == g.ddnsOverrideNoUpdate
    && BoolOf(Lookup(r, DDNS_OVERRIDE_CLIENT_UPDATE)) == g.ddnsOverrideClientUpdate
    && TextOf(Lookup(r, DDNS_REPLACE_CLIENT_NAME)) == g.ddnsReplaceClientName
    && TextOf(Lookup(r, DDNS_GENERATED_PREFIX)) == g.ddnsGeneratedPrefix
    && TextOf(Lookup(r, DDNS_QUALIFYING_SUFFIX)) == g.ddnsQualifyingSuffix
    && BoolOf(Lookup(r, DDNS_USE_CONFLICT_RESOLUTION)) == g.ddnsUseConflictResolution
  }

  lemma DdnsRoundTrip(m: Fields, g: Globals)
    requires Unset(m, DDNS_SEND_UPDATES, DDNS_USE_CONFLICT_RESOLUTION)
    ensures DdnsIn(PutDdns(m, g), g) && Frame(m, PutDdns(m, g), DDNS_SEND_UPDATES, DDNS_USE_CONFLICT_RESOLUTION)
  {
  }

  function PutGlobals(m: Fields, g: Globals): Fields { PutDdns(PutIdentity(PutLifetimes(m, g), g), g) }

  function DecodeGlobals(m: Fields): Globals {
    Globals(IntOf(Lookup(m, VALID_LIFETIME)), IntOf(Lookup(m, MIN_VALID_LIFETIME)), IntOf(Lookup(m, MAX_VALID_LIFETIME)),
            IntOf(Lookup(m, RENEW_TIMER)), IntOf(Lookup(m, REBIND_TIMER)), BoolOf(Lookup(m, CALCULATE_TEE_TIMES)),
            OptTextOf(Lookup(m, T1_PERCENT)), OptTextOf(Lookup(m, T2_PERCENT)), BoolOf(Lookup(m, AUTHORITATIVE)),
            BoolOf(Lookup(m, MATCH_CLIENT_ID)), TextOf(Lookup(m, SERVER_TAG)), TextOf(Lookup(m, NEXT_SERVER)),
            TextOf(Lookup(m, BOOT_FILE_NAME)), TextOf(Lookup(m, SERVER_HOSTNAME)), BoolOf(Lookup(m, DDNS_SEND_UPDATES)),
            BoolOf(Lookup(m, DDNS_OVERRIDE_NO_UPDATE)), BoolOf(Lookup(m, DDNS_OVERRIDE_CLIENT_UPDATE)),
            TextOf(Lookup(m, DDNS_REPLACE_CLIENT_NAME)), TextOf(Lookup(m, DDNS_GENERATED_PREFIX)),
            TextOf(Lookup(m, DDNS_QUALIFYING_SUFFIX)), BoolOf(Lookup(m, DDNS_USE_CONFLICT_RESOLUTION)))
  }

  lemma GlobalsRoundTrip(m: Fields, g: Globals)
    requires Unset(m, VALID_LIFETIME, DDNS_USE_CONFLICT_RESOLUTION)
    ensures DecodeGlobals(PutGlobals(m, g)) == g
    ensures Frame(m, PutGlobals(m, g), VALID_LIFETIME, DDNS_USE_CONFLICT_RESOLUTION)
  {
    var a := PutLifetimes(m, g);
    LifetimesRoundTrip(m, g);
    var b := PutIdentity(a, g);
    IdentityRoundTrip(a, g);
    var c := PutDdns(b, g);
    DdnsRoundTrip(b, g);
    GlobalsAssemble(m, a, b, c, g);
  }

  lemma GlobalsAssemble(m: Fields, a: Fields, b: Fields, c: Fields, g: Globals)
    requires LifetimesIn(a, g) && IdentityIn(b, g) && DdnsIn(c, g)
    requires Frame(m, a, VALID_LIFETIME, T2_PERCENT)
    requires Frame(a, b, AUTHORITATIVE, SERVER_HOSTNAME)
    requires Frame(b, c, DDNS_SEND_UPDATES, DDNS_USE_CONFLICT_RESOLUTION)
    ensures DecodeGlobals(c) == g
    ensures Frame(m, c, VALID_LIFETIME, DDNS_USE_CONFLICT_RESOLUTION)
  {
  }

  /** Every section but the hooks. */
  function Sections(spec: Dhcp4Spec, creds: Credentials): Fields {
    var m := Put(map[], INTERFACES_CONFIG, Some(InterfacesTree(spec.interfacesConfig)));
    var m := Put(m, LEASE_DATABASE, OptDatabaseTree(spec.leaseDatabase, creds.lease));
    var m := Put(m, HOSTS_DATABASE, OptDatabaseTree(spec.hostsDatabase, creds.hosts));
    var m := Put(m, HOSTS_DATABASES, DatabaseTrees(spec.hostsDatabases, creds.hostsDBs));
    var m := Put(m, SUBNET4, SubnetTrees(spec.subnet4));
    var m := Put(m, SHARED_NETWORKS, NetworkTrees(spec.sharedNetworks));
    var m := Put(m, OPTION_DATA, OptionTrees(spec.optionData));
    var m := Put(m, OPTION_DEF, OptionDefTrees(spec.optionDef));
    var m := Put(m, CLIENT_CLASSES, ClientClassTrees(spec.clientClasses));
    var m := Put(m, RESERVATIONS, ReservationTrees(spec.reservations));
    var m := Put(m, HOST_RESERVATION_IDENTIFIERS, Texts(spec.hostReservationIdentifiers));
    var m := Put(m, CONTROL_SOCKET, ControlSocketTree(spec.controlSocket));
    var m := Put(m, LOGGERS, LoggerTrees(spec.loggers));
    Put(m, MULTI_THREADING, ThreadsTree(spec.multiThreading))
  }

  function RootOf(m: Fields): Json { Obj(Put(map[], DHCP4, Some(Obj(m)))) }

  /** Everything the server name has no influence on. */
  function Shared(spec: Dhcp4Spec, creds: Credentials): Fields { PutGlobals(Sections(spec, creds), spec.globals) }

  /** The tree handed to the marshaller; the empty override keeps the name of the spec. */
  function RootTree(spec: Dhcp4Spec, creds: Credentials, override: string): Json {
    RootOf(Put(Shared(spec, creds), HOOKS_LIBRARIES, Array(HookElems(spec, override))))
  }

  /** Fields of the Dhcp4 object of a tree. */
  function Dhcp4Of(j: Json): Fields { FieldsOf(Lookup(Of(j), DHCP4)) }

  // ---------- decoding ----------

  datatype View = View(spec: Dhcp4Spec, creds: Credentials)

  predicate HasHAHook(hooks: seq<Json>) {
    hooks != [] && DecodeHook(hooks[|hooks| - 1]).library == HA_LIBRARY
  }

  function DecodeHAHook(hooks: seq<Json>): Option<HAConfig> {
    if !HasHAHook(hooks) then None
    else
      var configs := ElemsOf(Lookup(FieldsOf(Lookup(Of(hooks[|hooks| - 1]), PARAMETERS)), HIGH_AVAILABILITY));
      Some(DecodeHA(if configs != [] then configs[0] else Null))
  }

  function DecodeUserHooks(hooks: seq<Json>, db: Option<DatabaseConfig>): seq<HookLibrary> {
    var injected := (if HasHAHook(hooks) then 2 else 0) + if InjectsDBHook(db) then 1 else 0;
    MapSeq(DecodeHook, if injected <= |hooks| then hooks[..|hooks| - injected] else [])
  }

  function Decode(j: Json): View {
    var m := Dhcp4Of(j);
    var lease := DecodeOptDatabase(Lookup(m, LEASE_DATABASE));
    var hooks := ElemsOf(Lookup(m, HOOKS_LIBRARIES));
    View(Dhcp4Spec(None,
                   DecodeInterfaces(Lookup(m, INTERFACES_CONFIG)),
                   lease,
                   DecodeOptDatabase(Lookup(m, HOSTS_DATABASE)),
                   DecodeDatabases(Lookup(m, HOSTS_DATABASES)),
                   DecodeSubnets(Lookup(m, SUBNET4)),
                   DecodeNetworks(Lookup(m, SHARED_NETWORKS)),
                   DecodeOptions(Lookup(m, OPTION_DATA)),
                   DecodeOptionDefs(Lookup(m, OPTION_DEF)),
                   DecodeClientClasses(Lookup(m, CLIENT_CLASSES)),
                   DecodeReservations(Lookup(m, RESERVATIONS)),
                   TextsOf(Lookup(m, HOST_RESERVATION_IDENTIFIERS)),
                   DecodeUserHooks(hooks, lease),
                   DecodeControlSocket(Lookup(m, CONTROL_SOCKET)),
                   DecodeLoggers(Lookup(m, LOGGERS)),
                   DecodeGlobals(m),
                   DecodeHAHook(hooks),
                   DecodeThreads(Lookup(m, MULTI_THREADING))),
         Credentials(DecodeOptCredentials(Lookup(m, LEASE_DATABASE)),
                     DecodeOptCredentials(Lookup(m, HOSTS_DATABASE)),
                     DecodeCredentialsList(Lookup(m, HOSTS_DATABASES))))
  }

  /**
   * What Kea sees of a resource: everything but the workload size, the Secret references, the HA
   * TLS Secret and the static peer addresses, with empty relays, empty multi-threading
   * sections and unparsable hook parameters dropped.
   */
  function Norm(spec: Dhcp4Spec, creds: Credentials, override: string): View {
    View(spec.(replicas := None,
               leaseDatabase := NormOptDatabase(spec.leaseDatabase),
               hostsDatabase := NormOptDatabase(spec.hostsDatabase),
               hostsDatabases := MapSeq(NormDatabase, spec.hostsDatabases),
               subnet4 := MapSeq(NormSubnet, spec.subnet4),
               sharedNetworks := MapSeq(NormNetwork, spec.sharedNetworks),
               hooksLibraries := MapSeq(NormHook, spec.hooksLibraries),
               highAvailability := NormOptHA(spec.highAvailability, override),
               multiThreading := NormThreads(spec.multiThreading)),
         Credentials(if spec.leaseDatabase.Some? then creds.lease else NO_CREDENTIALS,
                     if spec.hostsDatabase.Some? then creds.hosts else NO_CREDENTIALS,
                     NormCredentials(|spec.hostsDatabases|, creds.hostsDBs)))
  }

  /** The user's hooks do not end in the HA library without an operator-injected hook behind them. */
  predicate Unambiguous(spec: Dhcp4Spec) {
    spec.highAvailability.Some? || InjectsDBHook(spec.leaseDatabase) || spec.hooksLibraries == []
    || spec.hooksLibraries[|spec.hooksLibraries| - 1].library != HA_LIBRARY
  }

  lemma LibraryOf(h: HookLibrary)
    ensures DecodeHook(HookTree(h)).library == h.library
    ensures DecodeHook(HookTree(h)).parameters.Parsed? <==> h.parameters.Parsed?
  {
    HookRoundTrip(h);
  }

  lemma DBHookShape(db: Option<DatabaseConfig>)
    ensures |DBHookElems(db)| == if InjectsDBHook(db) then 1 else 0
    ensures InjectsDBHook(db) ==> DecodeHook(DBHookElems(db)[0]).library != HA_LIBRARY
    ensures InjectsDBHook(NormOptDatabase(db)) <==> InjectsDBHook(db)
  {
    LibraryOf(HookLibrary(MYSQL_LIBRARY, NoParameters));
    LibraryOf(HookLibrary(PGSQL_LIBRARY, NoParameters));
    assert |MYSQL_LIBRARY| != |HA_LIBRARY| && |PGSQL_LIBRARY| != |HA_LIBRARY|;
  }

  /** The libraries of a list of rendered hooks. */
  function Libraries(hooks: seq<Json>): (r: seq<string>)
    ensures |r| == |hooks| && forall i | 0 <= i < |hooks| :: r[i] == DecodeHook(hooks[i]).library
  {
    seq(|hooks|, i requires 0 <= i < |hooks| => DecodeHook(hooks[i]).library)
  }

  /** Injected libraries, in the order database, lease commands, high availability. */
  function InjectedLibraries(spec: Dhcp4Spec): seq<string> {
    (match spec.leaseDatabase
     case None => []
     case Some(db) =>
       if db.dbType == "mysql" then [MYSQL_LIBRARY] else if db.dbType == "postgresql" then [PGSQL_LIBRARY] else [])
    + if spec.highAvailability.Some? then [LEASE_CMDS_LIBRARY, HA_LIBRARY] else []
  }

  /**
   * The user's hooks come first and in their order, the injected ones last and in theirs, for
   * every server name; of these only the one for high availability has parameters.
   */
  lemma InjectedHooksLast(spec: Dhcp4Spec, override: string)
    ensures var user := spec.hooksLibraries;
            var libs := Libraries(HookElems(spec, override));
            && |libs| == |user| + |InjectedLibraries(spec)|
            && (forall i | 0 <= i < |user| :: libs[i] == user[i].library)
            && libs[|user|..] == InjectedLibraries(spec)
    ensures var user, hooks := spec.hooksLibraries, HookElems(spec, override);
            forall i | |user| <= i < |hooks| ::
              DecodeHook(hooks[i]).parameters.Parsed? <==> spec.highAvailability.Some? && i == |hooks| - 1
  {
    var hooks, user := HookElems(spec, override), spec.hooksLibraries;
    DBHookShape(spec.leaseDatabase);
    LibraryOf(HookLibrary(MYSQL_LIBRARY, NoParameters));
    LibraryOf(HookLibrary(PGSQL_LIBRARY, NoParameters));
    LibraryOf(HookLibrary(LEASE_CMDS_LIBRARY, NoParameters));
    if spec.highAvailability.Some? {
      var ha := spec.highAvailability.value;
      LibraryOf(HookLibrary(HA_LIBRARY, Parsed(HAParameters(HATree(ha, EffectiveName(ha, override), HAPort(spec.controlSocket))))));
    }
    forall i | 0 <= i < |user| ensures DecodeHook(hooks[i]).library == user[i].library {
      LibraryOf(user[i]);
      assert hooks[i] == HookTree(user[i]);
    }
  }

  /** High availability is recognised exactly when the resource asks for it, or its own hooks end in the HA library. */
  lemma HAHookPresent(spec: Dhcp4Spec, override: string)
    ensures HasHAHook(HookElems(spec, override)) <==> spec.highAvailability.Some? || !Unambiguous(spec)
  {
    var hooks := HookElems(spec, override);
    DBHookShape(spec.leaseDatabase);
    if spec.highAvailability.Some? {
      var ha := spec.highAvailability.value;
      var tree := HATree(ha, EffectiveName(ha, override), HAPort(spec.controlSocket));
      LibraryOf(HookLibrary(HA_LIBRARY, Parsed(HAParameters(tree))));
      assert hooks[|hooks| - 1] == HookTree(HookLibrary(HA_LIBRARY, Parsed(HAParameters(tree))));
    } else if !InjectsDBHook(spec.leaseDatabase) && spec.hooksLibraries != [] {
      assert hooks == MapSeq(HookTree, spec.hooksLibraries);
      LibraryOf(spec.hooksLibraries[|spec.hooksLibraries| - 1]);
    }
  }

  lemma HAHookDecodes(spec: Dhcp4Spec, override: string)
    requires Unambiguous(spec)
    ensures DecodeHAHook(HookElems(spec, override)) == NormOptHA(spec.highAvailability, override)
  {
    HAHookPresent(spec, override);
    if spec.highAvailability.Some? {
      var ha := spec.highAvailability.value;
      var tree := HATree(ha, EffectiveName(ha, override), HAPort(spec.controlSocket));
      var hooks := HookElems(spec, override);
      assert hooks[|hooks| - 1] == HookTree(HookLibrary(HA_LIBRARY, Parsed(HAParameters(tree))));
      assert Lookup(Of(hooks[|hooks| - 1]), PARAMETERS) == Some(HAParameters(tree));
      assert ElemsOf(Lookup(Of(HAParameters(tree)), HIGH_AVAILABILITY)) == [tree];
      HARoundTrip(ha, EffectiveName(ha, override), HAPort(spec.controlSocket));
    }
  }

  lemma UserHooksDecode(spec: Dhcp4Spec, override: string)
    requires Unambiguous(spec)
    ensures DecodeUserHooks(HookElems(spec, override), NormOptDatabase(spec.leaseDatabase)) == MapSeq(NormHook, spec.hooksLibraries)
  {
    HAHookPresent(spec, override);
    DBHookShape(spec.leaseDatabase);
    var user := MapSeq(HookTree, spec.hooksLibraries);
    var hooks := HookElems(spec, override);
    assert hooks[..|user|] == user;
    forall i | 0 <= i < |user| ensures DecodeHook(user[i]) == NormHook(spec.hooksLibraries[i]) {
      HookRoundTrip(spec.hooksLibraries[i]);
    }
  }

  lemma FirstSectionLookups(spec: Dhcp4Spec, creds: Credentials)
    ensures var m := Sections(spec, creds);
            && Lookup(m, INTERFACES_CONFIG) == Some(InterfacesTree(spec.interfacesConfig))
            && Lookup(m, LEASE_DATABASE) == OptDatabaseTree(spec.leaseDatabase, creds.lease)
            && Lookup(m, HOSTS_DATABASE) == OptDatabaseTree(spec.hostsDatabase, creds.hosts)
            && Lookup(m, HOSTS_DATABASES) == DatabaseTrees(spec.hostsDatabases, creds.hostsDBs)
            && Lookup(m, SUBNET4) == SubnetTrees(spec.subnet4)
  {
  }

  lemma MiddleSectionLookups(spec: Dhcp4Spec, creds: Credentials)
    ensures var m := Sections(spec, creds);
            && Lookup(m, SHARED_NETWORKS) == NetworkTrees(spec.sharedNetworks)
            && Lookup(m, OPTION_DATA) == OptionTrees(spec.optionData)
            && Lookup(m, OPTION_DEF) == OptionDefTrees(spec.optionDef)
            && Lookup(m, CLIENT_CLASSES) == ClientClassTrees(spec.clientClasses)
            && Lookup(m, RESERVATIONS) == ReservationTrees(spec.reservations)
  {
  }

  lemma LastSectionLookups(spec: Dhcp4Spec, creds: Credentials)
    ensures var m := Sections(spec, creds);
            && Lookup(m, HOOKS_LIBRARIES) == None
            && Lookup(m, HOST_RESERVATION_IDENTIFIERS) == Texts(spec.hostReservationIdentifiers)
            && Lookup(m, CONTROL_SOCKET) == ControlSocketTree(spec.controlSocket)
            && Lookup(m, LOGGERS) == LoggerTrees(spec.loggers)
            && Lookup(m, MULTI_THREADING) == ThreadsTree(spec.multiThreading)
  {
  }

  lemma SectionsSetNoGlobals(spec: Dhcp4Spec, creds: Credentials)
    ensures Unset(Sections(spec, creds), VALID_LIFETIME, DDNS_USE_CONFLICT_RESOLUTION)
  {
  }

  lemma Dhcp4OfRoot(m: Fields)
    ensures Dhcp4Of(RootOf(m)) == m
  {
  }

  /** The sections of the Dhcp4 object, unaffected by the scalar settings. */
  lemma SharedLookups(spec: Dhcp4Spec, creds: Credentials)
    ensures DecodeGlobals(Shared(spec, creds)) == spec.globals
    ensures Frame(Sections(spec, creds), Shared(spec, creds), VALID_LIFETIME, DDNS_USE_CONFLICT_RESOLUTION)
  {
    SectionsSetNoGlobals(spec, creds);
    GlobalsRoundTrip(Sections(spec, creds), spec.globals);
  }

  lemma HooksOfRoot(m: Fields, hooks: seq<Json>)
    requires Lookup(m, HOOKS_LIBRARIES) == None
    ensures var r := Put(m, HOOKS_LIBRARIES, Array(hooks));
            ElemsOf(Lookup(r, HOOKS_LIBRARIES)) == hooks && DecodeGlobals(r) == DecodeGlobals(m)
  {
  }

  /** Decoding the tree gives the normal form of the resource, at every nesting level. */
  lemma RoundTrip(spec: Dhcp4Spec, creds: Credentials, override: string)
    requires Unambiguous(spec)
    ensures Decode(RootTree(spec, creds, override)) == Norm(spec, creds, override)
  {
    var shared := Shared(spec, creds);
    SharedLookups(spec, creds);
    FirstSectionLookups(spec, creds);
    MiddleSectionLookups(spec, creds);
    LastSectionLookups(spec, creds);
    assert Lookup(shared, HOOKS_LIBRARIES) == Lookup(Sections(spec, creds), HOOKS_LIBRARIES) == None;
    HooksOfRoot(shared, HookElems(spec, override));
    Dhcp4OfRoot(Put(shared, HOOKS_LIBRARIES, Array(HookElems(spec, override))));
    InterfacesRoundTrip(spec.interfacesConfig);
    OptDatabaseRoundTrip(spec.leaseDatabase, creds.lease);
    OptDatabaseRoundTrip(spec.hostsDatabase, creds.hosts);
    DatabasesRoundTrip(spec.hostsDatabases, creds.hostsDBs);
    SubnetsRoundTrip(spec.subnet4);
    NetworksRoundTrip(spec.sharedNetworks);
    OptionsRoundTrip(spec.optionData);
    OptionDefsRoundTrip(spec.optionDef);
    ClientClassesRoundTrip(spec.clientClasses);
    ReservationsRoundTrip(spec.reservations);
    HAHookDecodes(spec, override);
    UserHooksDecode(spec, override);
    ControlSocketRoundTrip(spec.controlSocket);
    LoggersRoundTrip(spec.loggers);
    ThreadsRoundTrip(spec.multiThreading);
  }

  // ---------- main results ----------

  /** The tree determines what Kea sees exactly when the user's hooks do not imitate the injected ones. */
  lemma RoundTripExactly(spec: Dhcp4Spec, creds: Credentials, override: string)
    ensures Decode(RootTree(spec, creds, override)) == Norm(spec, creds, override) <==> Unambiguous(spec)
  {
    if Unambiguous(spec) {
      RoundTrip(spec, creds, override);
    } else {
      var shared := Shared(spec, creds);
      SharedLookups(spec, creds);
      LastSectionLookups(spec, creds);
      assert Lookup(shared, HOOKS_LIBRARIES) == Lookup(Sections(spec, creds), HOOKS_LIBRARIES) == None;
      HooksOfRoot(shared, HookElems(spec, override));
      Dhcp4OfRoot(Put(shared, HOOKS_LIBRARIES, Array(HookElems(spec, override))));
      HAHookPresent(spec, override);
    }
  }

  /** Unambiguous resources that render equally agree on everything Kea sees. */
  lemma RenderInjective(spec: Dhcp4Spec, creds: Credentials, override: string,
                        spec': Dhcp4Spec, creds': Credentials, override': string)
    requires Unambiguous(spec) && Unambiguous(spec')
    requires RootTree(spec, creds, override) == RootTree(spec', creds', override')
    ensures Norm(spec, creds, override) == Norm(spec', creds', override')
  {
    RoundTrip(spec, creds, override);
    RoundTrip(spec', creds', override');
  }

  /** The user hooks that imitate high availability. */
  function Imitation(spec: Dhcp4Spec, override: string): Dhcp4Spec
    requires spec.highAvailability.Some?
  {
    var ha := spec.highAvailability.value;
    var tree := HATree(ha, EffectiveName(ha, override), HAPort(spec.controlSocket));
    spec.(highAvailability := None,
          hooksLibraries := spec.hooksLibraries + [HookLibrary(LEASE_CMDS_LIBRARY, NoParameters),
                                                   HookLibrary(HA_LIBRARY, Parsed(HAParameters(tree)))])
  }

  /** Without the condition two different resources render to the same tree. */
  lemma ImitationRendersEqually(spec: Dhcp4Spec, creds: Credentials, override: string)
    requires spec.highAvailability.Some? && !InjectsDBHook(spec.leaseDatabase)
    ensures RootTree(Imitation(spec, override), creds, override) == RootTree(spec, creds, override)
    ensures Norm(Imitation(spec, override), creds, override) != Norm(spec, creds, override)
    ensures !Unambiguous(Imitation(spec, override))
  {
    var other := Imitation(spec, override);
    SharedIgnoresHooks(spec, other);
    ImitationHooks(spec, override);
    NormOfHA(spec, creds, override);
    NormOfHA(other, creds, override);
  }

  lemma ImitationHooks(spec: Dhcp4Spec, override: string)
    requires spec.highAvailability.Some? && !InjectsDBHook(spec.leaseDatabase)
    ensures HookElems(Imitation(spec, override), override) == HookElems(spec, override)
    ensures !Unambiguous(Imitation(spec, override))
  {
    var other := Imitation(spec, override);
    var user := MapSeq(HookTree, spec.hooksLibraries);
    var injected := HAHookElems(spec.highAvailability, override, HAPort(spec.controlSocket));
    assert MapSeq(HookTree, other.hooksLibraries) == user + injected;
    assert DBHookElems(spec.leaseDatabase) == [];
    assert user + injected + [] + [] == user + [] + injected;
  }

  lemma SharedIgnoresHooks(spec: Dhcp4Spec, other: Dhcp4Spec)
    requires other == spec.(highAvailability := other.highAvailability, hooksLibraries := other.hooksLibraries)
    ensures forall creds :: Shared(other, creds) == Shared(spec, creds)
  {
  }

  lemma NormOfHA(spec: Dhcp4Spec, creds: Credentials, override: string)
    ensures Norm(spec, creds, override).spec.highAvailability.Some? <==> spec.highAvailability.Some?
  {
  }

  /** The hook with another `this-server-name` in its first high-availability entry. */
  function RenameHook(hook: Json, name: string): Json {
    var parameters := FieldsOf(Lookup(Of(hook), PARAMETERS));
    var configs := ElemsOf(Lookup(parameters, HIGH_AVAILABILITY));
    if configs == [] then hook
    else
      var config := Obj(Of(configs[0])[THIS_SERVER_NAME := Str(name)]);
      Obj(Of(hook)[PARAMETERS := Obj(parameters[HIGH_AVAILABILITY := Arr(configs[0 := config])])])
  }

  function RenameLast(hooks: seq<Json>, name: string): seq<Json> {
    if hooks == [] then [] else hooks[|hooks| - 1 := RenameHook(hooks[|hooks| - 1], name)]
  }

  /** The same tree with another `this-server-name` in the last hook. */
  function WithServerName(j: Json, name: string): Json {
    var m := Dhcp4Of(j);
    var hooks := ElemsOf(Lookup(m, HOOKS_LIBRARIES));
    Obj(Of(j)[DHCP4 := Obj(m[HOOKS_LIBRARIES := Arr(RenameLast(hooks, name))])])
  }

  lemma PutOver(m: Fields, k: Key, v: Json, w: Json)
    ensures Put(m, k, Some(v))[k := w] == Put(m, k, Some(w))
  {
  }

  lemma RenameHAHook(tree: Json, name: string)
    ensures RenameHook(HookTree(HookLibrary(HA_LIBRARY, Parsed(HAParameters(tree)))), name) ==
            HookTree(HookLibrary(HA_LIBRARY, Parsed(HAParameters(Obj(Of(tree)[THIS_SERVER_NAME := Str(name)])))))
  {
    var config := Obj(Of(tree)[THIS_SERVER_NAME := Str(name)]);
    var base := Put(map[], LIBRARY, RequiredText(HA_LIBRARY));
    var hook := Put(base, PARAMETERS, Some(HAParameters(tree)));
    assert Lookup(hook, PARAMETERS) == Some(HAParameters(tree));
    assert Lookup(Put(map[], HIGH_AVAILABILITY, Some(Arr([tree]))), HIGH_AVAILABILITY) == Some(Arr([tree]));
    assert [tree][0 := config] == [config];
    PutOver(map[], HIGH_AVAILABILITY, Arr([tree]), Arr([config]));
    PutOver(base, PARAMETERS, HAParameters(tree), HAParameters(config));
  }

  /**
   * For any two non-empty server names the rendered trees are equal everywhere except the single
   * `this-server-name` leaf.
   */
  lemma OverrideIsolation(spec: Dhcp4Spec, creds: Credentials, a: string, b: string)
    requires spec.highAvailability.Some? && a != "" && b != ""
    ensures WithServerName(RootTree(spec, creds, a), b) == RootTree(spec, creds, b)
  {
    var shared := Shared(spec, creds);
    SharedLookups(spec, creds);
    LastSectionLookups(spec, creds);
    assert Lookup(shared, HOOKS_LIBRARIES) == Lookup(Sections(spec, creds), HOOKS_LIBRARIES) == None;
    HooksRenamed(spec, a, b);
    RootRenamed(shared, HookElems(spec, a), HookElems(spec, b), b);
  }

  lemma HooksRenamed(spec: Dhcp4Spec, a: string, b: string)
    requires spec.highAvailability.Some? && a != "" && b != ""
    ensures HookElems(spec, a) != [] && RenameLast(HookElems(spec, a), b) == HookElems(spec, b)
  {
    var ha, port := spec.highAvailability.value, HAPort(spec.controlSocket);
    var hooks := HookElems(spec, a);
    assert hooks[|hooks| - 1] == HookTree(HookLibrary(HA_LIBRARY, Parsed(HAParameters(HATree(ha, a, port)))));
    RenameHAHook(HATree(ha, a, port), b);
    PutOver(HASettings(ha, port), THIS_SERVER_NAME, Str(a), Str(b));
  }

  lemma RootRenamed(m: Fields, hooks: seq<Json>, hooks': seq<Json>, name: string)
    requires hooks != [] && hooks' == RenameLast(hooks, name) && Lookup(m, HOOKS_LIBRARIES) == None
    ensures WithServerName(RootOf(Put(m, HOOKS_LIBRARIES, Array(hooks))), name) ==
            RootOf(Put(m, HOOKS_LIBRARIES, Array(hooks')))
  {
    HooksOfRoot(m, hooks);
    Dhcp4OfRoot(Put(m, HOOKS_LIBRARIES, Array(hooks)));
    ReplaceHooks(m, hooks, hooks');
  }

  lemma ReplaceHooks(m: Fields, hooks: seq<Json>, hooks': seq<Json>)
    requires hooks != [] && hooks' != []
    ensures var j := RootOf(Put(m, HOOKS_LIBRARIES, Array(hooks)));
            Obj(Of(j)[DHCP4 := Obj(Dhcp4Of(j)[HOOKS_LIBRARIES := Arr(hooks')])]) ==
            RootOf(Put(m, HOOKS_LIBRARIES, Array(hooks')))
  {
    var a := Put(m, HOOKS_LIBRARIES, Array(hooks));
    Dhcp4OfRoot(a);
    assert a[HOOKS_LIBRARIES := Arr(hooks')] == Put(m, HOOKS_LIBRARIES, Array(hooks'));
  }
}
