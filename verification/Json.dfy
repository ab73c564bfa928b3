/**
 * The tree of maps a renderer builds before it is marshalled. Field names are numbered
 * constants, one number per JSON name.
 */
module Json {
  import opened Options

  type Key = nat

  const NAME: Key := 1
  const CODE: Key := 2
  const SPACE: Key := 3
  const CSV_FORMAT: Key := 4
  const DATA: Key := 5
  const ALWAYS_SEND: Key := 6
  const NEVER_SEND: Key := 7
  const TYPE: Key := 8
  const ARRAY: Key := 9
  const RECORD_TYPES: Key := 10
  const ENCAPSULATE: Key := 11
  const TEST: Key := 12
  const OPTION_DATA: Key := 13
  const ONLY_IF_REQUIRED: Key := 14
  const HW_ADDRESS: Key := 15
  const CLIENT_ID: Key := 16
  const DUID: Key := 17
  const CIRCUIT_ID: Key := 18
  const FLEX_ID: Key := 19
  const HOSTNAME: Key := 20
  const IP_ADDRESS: Key := 21
  const IP_ADDRESSES: Key := 22
  const PREFIXES: Key := 23
  const CLIENT_CLASSES: Key := 24
  const LIBRARY: Key := 25
  const PARAMETERS: Key := 26
  const SOCKET_TYPE: Key := 27
  const SOCKET_NAME: Key := 28
  const SOCKET_PORT: Key := 29
  const SOCKET_ADDRESS: Key := 30
  const SEVERITY: Key := 31
  const DEBUGLEVEL: Key := 32
  const OUTPUT_OPTIONS: Key := 33
  const OUTPUT: Key := 34
  const MAXSIZE: Key := 35
  const MAXVER: Key := 36
  const FLUSH: Key := 37
  const PATTERN: Key := 38
  const PERSIST: Key := 39
  const HOST: Key := 40
  const PORT: Key := 41
  const USER: Key := 42
  const PASSWORD: Key := 43
  const CONNECT_TIMEOUT: Key := 44
  const MAX_RECONNECT_TRIES: Key := 45
  const RECONNECT_WAIT_TIME: Key := 46
  const ON_FAIL: Key := 47
  const RETRY_ON_STARTUP: Key := 48
  const LFC_INTERVAL: Key := 49
  const MAX_ROW_ERRORS: Key := 50
  const READONLY: Key := 51
  const READ_TIMEOUT: Key := 52
  const WRITE_TIMEOUT: Key := 53
  const TCP_USER_TIMEOUT: Key := 54
  const INTERFACES: Key := 55
  const DHCP_SOCKET_TYPE: Key := 56
  const OUTBOUND_INTERFACE: Key := 57
  const RE_DETECT: Key := 58
  const SOCKETS_REQUIRE_ALL: Key := 59
  const SOCKETS_MAX_RETRIES: Key := 60
  const SOCKETS_RETRY_WAIT_TIME: Key := 61
  const ID: Key := 62
  const SUBNET: Key := 63
  const POOLS: Key := 64
  const POOL: Key := 65
  const RESERVATIONS: Key := 66
  const CLIENT_CLASS: Key := 67
  const REQUIRE_CLIENT_CLASSES: Key := 68
  const INTERFACE: Key := 69
  const RELAY: Key := 70
  const RESERVATION_MODE: Key := 71
  const USER_CONTEXT: Key := 72
  const SUBNET4: Key := 73
  const THIS_SERVER_NAME: Key := 74
  const MODE: Key := 75
  const HEARTBEAT_DELAY: Key := 76
  const MAX_RESPONSE_DELAY: Key := 77
  const MAX_ACK_DELAY: Key := 78
  const MAX_UNACKED_CLIENTS: Key := 79
  const SEND_LEASE_UPDATES: Key := 80
  const SYNC_LEASES: Key := 81
  const SYNC_TIMEOUT: Key := 82
  const SYNC_PAGE_LIMIT: Key := 83
  const DELAYED_UPDATES_LIMIT: Key := 84
  const PEERS: Key := 85
  const URL: Key := 86
  const ROLE: Key := 87
  const AUTO_FAILOVER: Key := 88
  const ENABLE_MULTI_THREADING: Key := 89
  const HTTP_CLIENT_THREADS: Key := 90
  const HTTP_LISTENER_THREADS: Key := 91
  const HTTP_DEDICATED_LISTENER: Key := 92
  const HTTP_LISTENER_ADDRESS: Key := 93
  const HTTP_LISTENER_PORT: Key := 94
  const HIGH_AVAILABILITY: Key := 95
  const THREAD_POOL_SIZE: Key := 96
  const PACKET_QUEUE_SIZE: Key := 97
  // scalar settings at the top level: 100 up to 120
  const VALID_LIFETIME: Key := 100
  const MIN_VALID_LIFETIME: Key := 101
  const MAX_VALID_LIFETIME: Key := 102
  const RENEW_TIMER: Key := 103
  const REBIND_TIMER: Key := 104
  const CALCULATE_TEE_TIMES: Key := 105
  const T1_PERCENT: Key := 106
  const T2_PERCENT: Key := 107
  const AUTHORITATIVE: Key := 108
  const MATCH_CLIENT_ID: Key := 109
  const SERVER_TAG: Key := 110
  const NEXT_SERVER: Key := 111
  const BOOT_FILE_NAME: Key := 112
  const SERVER_HOSTNAME: Key := 113
  const DDNS_SEND_UPDATES: Key := 114
  const DDNS_OVERRIDE_NO_UPDATE: Key := 115
  const DDNS_OVERRIDE_CLIENT_UPDATE: Key := 116
  const DDNS_REPLACE_CLIENT_NAME: Key := 117
  const DDNS_GENERATED_PREFIX: Key := 118
  const DDNS_QUALIFYING_SUFFIX: Key := 119
  const DDNS_USE_CONFLICT_RESOLUTION: Key := 120
  // sections at the top level
  const INTERFACES_CONFIG: Key := 130
  const LEASE_DATABASE: Key := 131
  const HOSTS_DATABASE: Key := 132
  const HOSTS_DATABASES: Key := 133
  const SHARED_NETWORKS: Key := 134
  const OPTION_DEF: Key := 135
  const HOST_RESERVATION_IDENTIFIERS: Key := 136
  const HOOKS_LIBRARIES: Key := 137
  const CONTROL_SOCKET: Key := 138
  const LOGGERS: Key := 139
  const MULTI_THREADING: Key := 140
  const DHCP4: Key := 141

  datatype Json =
    | Null
    | Bool(b: bool)
    | Num(n: int)
    | Str(s: string)
    | Arr(elems: seq<Json>)
    | Obj(fields: map<Key, Json>)

  type Fields = map<Key, Json>

  function Lookup(m: Fields, k: Key): Option<Json> { if k in m then Some(m[k]) else None }

  /** Set a field if there is a value for it (setIfNotNil, setIfNotEmpty and the guarded assignments). */
  function Put(m: Fields, k: Key, v: Option<Json>): (r: Fields)
    ensures Lookup(r, k) == if v.Some? then v else Lookup(m, k)
    ensures forall j {:trigger Lookup(r, j)} :: j != k ==> Lookup(r, j) == Lookup(m, j)
    ensures v.Some? || m != map[] ==> r != map[]
    ensures v.None? ==> r == m
  {
    match v
    case None => m
    case Some(x) => m[k := x]
  }

  // ---------- values of fields, and what they decode to ----------

  /** What a decoder gives for a field that should not be there, or should be and is not. */
  const MISPLACED := "?"

  /** A text that is there only if it is not empty. */
  function TextOf(v: Option<Json>): string {
    match v
    case None => ""
    case Some(Str(s)) => if s == "" then MISPLACED else s
    case _ => MISPLACED
  }

  /** A text that is always there. */
  function RequiredTextOf(v: Option<Json>): string { match v case Some(Str(s)) => s case _ => MISPLACED }

  function StringOf(j: Json): string { match j case Str(s) => s case _ => "" }

  function OptTextOf(v: Option<Json>): Option<string> { match v case Some(Str(s)) => Some(s) case _ => None }

  function IntOf(v: Option<Json>): Option<int> { match v case Some(Num(n)) => Some(n) case _ => None }

  function RequiredIntOf(v: Option<Json>): int { match v case Some(Num(n)) => n case _ => -1 }

  function BoolOf(v: Option<Json>): Option<bool> { match v case Some(Bool(b)) => Some(b) case _ => None }

  function FieldsOf(v: Option<Json>): Fields { match v case Some(Obj(m)) => m case _ => map[] }

  /** A list that is there only if it is not empty. */
  function ElemsOf(v: Option<Json>): seq<Json> {
    match v
    case None => []
    case Some(Arr(s)) => if s == [] then [Null] else s
    case _ => []
  }

  function Strings(elems: seq<Json>): (r: seq<string>)
    ensures |r| == |elems| && forall i | 0 <= i < |elems| :: r[i] == StringOf(elems[i])
  {
    seq(|elems|, i requires 0 <= i < |elems| => StringOf(elems[i]))
  }

  function TextsOf(v: Option<Json>): seq<string> { Strings(ElemsOf(v)) }

  /** A list of texts that is always there. */
  function RequiredTextsOf(v: Option<Json>): seq<string> {
    match v case Some(Arr(s)) => Strings(s) case _ => [MISPLACED]
  }

  function Text(s: string): (v: Option<Json>)
    ensures TextOf(v) == s && (v.None? <==> s == "")
  {
    if s == "" then None else Some(Str(s))
  }

  function RequiredText(s: string): (v: Option<Json>)
    ensures RequiredTextOf(v) == s && v.Some?
  {
    Some(Str(s))
  }

  function OptText(s: Option<string>): (v: Option<Json>)
    ensures OptTextOf(v) == s
  {
    match s case None => None case Some(x) => Some(Str(x))
  }

  function Int(n: Option<int>): (v: Option<Json>)
    ensures IntOf(v) == n && (v.None? <==> n.None?)
  {
    match n case None => None case Some(x) => Some(Num(x))
  }

  function RequiredInt(n: int): (v: Option<Json>)
    ensures RequiredIntOf(v) == n && v.Some?
  {
    Some(Num(n))
  }

  function Flag(b: Option<bool>): (v: Option<Json>)
    ensures BoolOf(v) == b && (v.None? <==> b.None?)
  {
    match b case None => None case Some(x) => Some(Bool(x))
  }

  function Array(elems: seq<Json>): (v: Option<Json>)
    ensures ElemsOf(v) == elems
  {
    if elems == [] then None else Some(Arr(elems))
  }

  function TextElems(ss: seq<string>): (r: seq<Json>)
    ensures |r| == |ss| && forall i | 0 <= i < |ss| :: r[i] == Str(ss[i])
  {
    seq(|ss|, i requires 0 <= i < |ss| => Str(ss[i]))
  }

  function Texts(ss: seq<string>): (v: Option<Json>)
    ensures TextsOf(v) == ss
  {
    Array(TextElems(ss))
  }

  function RequiredTexts(ss: seq<string>): (v: Option<Json>)
    ensures RequiredTextsOf(v) == ss && v.Some?
  {
    Some(Arr(TextElems(ss)))
  }

  /** A nested object, dropped when it is empty. */
  function NonEmptyObject(m: Fields): (v: Option<Json>)
    ensures FieldsOf(v) == m && (v.None? <==> m == map[])
  {
    if m == map[] then None else Some(Obj(m))
  }
}
