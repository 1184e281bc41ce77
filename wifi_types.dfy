/** Values shared by the WiFi station model: the policy constants, the
    event identifiers the handlers switch on, the flag word of the event
    group and the abstract state of the connection state machine. */
module WifiTypes {

  datatype Option<T> = None | Some(value: T)

  /** The C `int32_t` of an event identifier. */
  newtype int32 = x: int | -0x8000_0000 <= x < 0x8000_0000

  /** An `EventBits_t` flag word of a FreeRTOS event group (32 bits on this target). */
  type EventBits = bv32

  /** `WIFI_CONNECT_MAX_RETRY`: how many reconnects a run of disconnects may trigger. */
  const MaxRetry: int := 5

  /** `WIFI_CONNECTED_BIT` (BIT0) and `WIFI_FAIL_BIT` (BIT1). */
  const ConnectedBit: EventBits := 1
  const FailBit: EventBits := 2
  const OutcomeMask: EventBits := ConnectedBit | FailBit

  /** Event identifiers as ESP-IDF numbers them: `WIFI_EVENT_STA_START`,
      `WIFI_EVENT_STA_DISCONNECTED` within the WiFi base and
      `IP_EVENT_STA_GOT_IP` within the IP base. */
  const StaStart: int32 := 2
  const StaDisconnected: int32 := 5
  const StaGotIp: int32 := 0

  /** The base an event is posted under; handlers compare it by identity. */
  datatype EventBase = WifiEvent | IpEvent | OtherBase

  datatype Event = Event(base: EventBase, id: int32)

  /** The state the handlers act on: the file-scope `retry_num`; the two
      bits of `s_wifi_event_group` that the handlers set (no other bit of
      the group is ever set); and the number of `esp_wifi_connect()` calls
      issued so far (the abstract effect of that call). */
  datatype Station = Station(retryNum: int, connected: bool, failed: bool, attempts: nat)

  /** `retry_num = 0` at load time, a freshly created event group, no connect issued. */
  const Initial: Station := Station(0, false, false, 0)

  predicate ConnectedFlag(bits: EventBits) {
    bits & ConnectedBit != 0
  }

  predicate FailFlag(bits: EventBits) {
    bits & FailBit != 0
  }

  /** The flag word of the event group, as the wait hands it back: exactly
      the two flags of the state, and no other bit. */
  function FlagWord(s: Station): (bits: EventBits)
    ensures ConnectedFlag(bits) == s.connected
    ensures FailFlag(bits) == s.failed
    ensures bits & !OutcomeMask == 0
  {
    if s.connected && s.failed then OutcomeMask
    else if s.connected then ConnectedBit
    else if s.failed then FailBit
    else 0
  }

  /** What every reachable state satisfies: the counter within the retry bound. */
  predicate Consistent(s: Station) {
    0 <= s.retryNum <= MaxRetry
  }

  function Min(a: int, b: int): int {
    if a <= b then a else b
  }
}
