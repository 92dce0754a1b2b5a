/**
 * Constants, enumerations and the connection-slot record of the transparent
 * UART service header: the capacity of the slot table, the buffer sizes, the
 * global application state, the per-slot request state and the slot itself.
 */
module UartTypes {

  /** Number of peers the slot table can hold (MAX_REMOTE_DEVICE). */
  const MaxRemoteDevice: nat := 3

  /** Size of the outbound characteristic value buffer (APP_BUF_SIZE). */
  const AppBufSize: nat := 150

  /** Size of a slot's city_name character buffer. */
  const CityNameSize: nat := 20

  /** Longest payload whose bytes and NUL terminator fit in city_name. */
  const MaxPayloadLen: nat := CityNameSize - 1

  /** An 8-bit C char / uint8_t. */
  newtype Byte = b: int | 0 <= b < 256

  /** The string terminator. */
  const Nul: Byte := 0

  /** A 16-bit connection handle assigned by the BLE stack. */
  newtype Handle = h: int | 0 <= h < 0x1_0000

  datatype Option<T> = None | Some(value: T)

  /** at_ble_status_t, with every non-success code collapsed into Failure. */
  datatype Status = Success | Failure

  /**
   * ble_app_init_t. The source compares these values with < and >=, so each
   * carries its C enumerator value.
   */
  datatype AppState = Init | StartAdv | AdvStarted | Connected | Disconnected | SymbolReceived
  {
    function Code(): nat {
      match this
      case Init => 0
      case StartAdv => 1
      case AdvStarted => 2
      case Connected => 3
      case Disconnected => 4
      case SymbolReceived => 5
    }
  }

  /** ble_app_sq_state_t: the request state of one slot, with its C value. */
  datatype SqState = CityNameNotReceived | CityNameReceived | WeatherUnderProcessing
  {
    function Code(): nat {
      match this
      case CityNameNotReceived => 0
      case CityNameReceived => 1
      case WeatherUnderProcessing => 2
    }
  }

  /**
   * The part of at_ble_connected_t the slot keeps: the peer address, the
   * connection handle and the connection status. The connection interval,
   * latency and supervision timeout are copied too, but nothing reads them.
   */
  datatype ConnInfo = ConnInfo(peerAddr: seq<Byte>, handle: Handle, connStatus: Status)

  /** remote_dev_info_t: one entry of the slot table. */
  datatype Slot = Slot(conn: ConnInfo, entryFlag: bool, sqState: SqState, cityName: seq<Byte>)

  /** A connection record after memset(0): zero address, handle 0, status 0 (success). */
  function ZeroConn(): ConnInfo {
    ConnInfo(seq(6, _ => 0), 0, Success)
  }

  /** A slot after memset(0), which is also how the static table starts. */
  function ZeroSlot(): Slot {
    Slot(ZeroConn(), false, CityNameNotReceived, seq(CityNameSize, _ => Nul))
  }

  /**
   * The enumerators of ble_app_init_t are numbered in declaration order, so
   * "below CONNECTED" is exactly INIT, START_ADV and ADV_STARTED, and
   * "at least START_ADV" is every state but INIT.
   */
  lemma AppStateOrder(s: AppState)
    ensures Init.Code() < StartAdv.Code() < AdvStarted.Code() < Connected.Code()
                       < Disconnected.Code() < SymbolReceived.Code()
    ensures s.Code() < Connected.Code() <==> s in {Init, StartAdv, AdvStarted}
    ensures s.Code() >= StartAdv.Code() <==> s != Init
  {
  }

  /** A zero-filled slot is both unoccupied and idle: CITY_NAME_NOT_RECEIVED is 0. */
  lemma ZeroSlotIsFreeAndIdle()
    ensures !ZeroSlot().entryFlag
    ensures ZeroSlot().sqState.Code() == 0 && ZeroSlot().sqState == CityNameNotReceived
    ensures |ZeroSlot().cityName| == CityNameSize
    ensures ZeroSlot().conn.handle == 0
  {
  }
}
