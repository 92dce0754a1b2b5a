/**
 * The connection and session logic of the transparent UART service as pure
 * functions over a value of the module's state. Each handler and each pass
 * of the processing loop maps the old state to the new state and to the list
 * of calls it makes into the BLE stack and into the weather lookup.
 * TransparentUart.BleApp is proved to behave as these functions say.
 */
module SessionSpec {
  import opened UartTypes

  /**
   * The module-level state of transparent_uart.c: the slot table
   * remote_dev_info, ble_app_state and is_ble_advertising.
   */
  datatype Bridge = Bridge(slots: seq<Slot>, app: AppState, advertising: bool)

  /** Reason passed to at_ble_disconnect when the table is full. */
  datatype DisconnectReason = RemoteDevTermLowResources

  /** A call the core makes into the stack or into the lookup collaborator. */
  datatype Effect =
    | DisconnectPeer(handle: Handle, reason: DisconnectReason)  // at_ble_disconnect
    | DefineService                                             // at_ble_primary_service_define
    | StartAdvertising                                          // ble_app_start_adv
    | RequestWeather(cityName: seq<Byte>)                       // request_weather
    | SetTxValue(data: seq<Byte>)                               // at_ble_characteristic_value_set
    | NotifyPeer(handle: Handle)                                // at_ble_notification_send
    | PumpEvents                                                // ble_event_task

  /** The new state and the calls made on the way, in order. */
  datatype Step = Step(next: Bridge, effects: seq<Effect>)

  /** Outcomes of the stack calls made by one ble_app_process pass. */
  datatype RadioOutcome = RadioOutcome(serviceDefined: bool, advStarted: bool)

  /**
   * Outcomes of the stack calls made by ble_app_tu_serv_send_data: whether the
   * client configuration could be read and its value, whether the stack took
   * the new value, and whether the notification was queued.
   */
  datatype SendOutcome = SendOutcome(configRead: bool, configValue: nat, valueSet: bool, notified: bool)

  /** The link-layer events the registered callbacks receive. */
  datatype Event =
    | ConnectedEv(info: ConnInfo)
    | DisconnectedEv(handle: Handle, status: Status)
    | CharChangedEv(connHandle: Handle, charHandle: Handle, status: Status, value: seq<Byte>)
    | NotificationConfirmedEv(status: Status)

  /** The value of client characteristic configuration that enables notifications. */
  const NotificationsEnabled: nat := 1

  // ---------------------------------------------------------------------
  // The slot table
  // ---------------------------------------------------------------------

  /** The table before anything happened: three zero slots, INIT, not advertising. */
  function Initial(): Bridge {
    Bridge(seq(MaxRemoteDevice, _ => ZeroSlot()), Init, false)
  }

  /** The table has its fixed size and every name buffer its fixed size. */
  predicate WellFormed(b: Bridge) {
    |b.slots| == MaxRemoteDevice &&
    forall i :: 0 <= i < |b.slots| ==> |b.slots[i].cityName| == CityNameSize
  }

  /**
   * The state invariant: an unoccupied slot is exactly a zero slot, so in
   * particular its request state is CITY_NAME_NOT_RECEIVED.
   */
  predicate Inv(b: Bridge) {
    WellFormed(b) &&
    forall i :: 0 <= i < |b.slots| ==> (!b.slots[i].entryFlag ==> b.slots[i] == ZeroSlot())
  }

  /** The conditions the scanning loops of the handlers test. */
  datatype Query = Free | Occupied | WithHandle(h: Handle) | OccupiedWithHandle(h: Handle) | InState(st: SqState)

  predicate Matches(q: Query, s: Slot) {
    match q
    case Free => !s.entryFlag
    case Occupied => s.entryFlag
    case WithHandle(h) => s.conn.handle == h
    case OccupiedWithHandle(h) => s.conn.handle == h && s.entryFlag
    case InState(st) => s.sqState == st
  }

  /** The first slot, by ascending index, that matches q. */
  function FirstMatch(slots: seq<Slot>, q: Query): (r: Option<nat>)
    ensures r.Some? ==> r.value < |slots| && Matches(q, slots[r.value])
    ensures r.Some? ==> forall j :: 0 <= j < r.value ==> !Matches(q, slots[j])
    ensures r.None? <==> forall j :: 0 <= j < |slots| ==> !Matches(q, slots[j])
  {
    if |slots| == 0 then None
    else if Matches(q, slots[0]) then Some(0)
    else match FirstMatch(slots[1..], q)
      case None => None
      case Some(k) => Some(k + 1)
  }

  /** Number of occupied slots. */
  function Occupancy(slots: seq<Slot>): (n: nat)
    ensures n <= |slots|
    ensures n == |slots| <==> forall i :: 0 <= i < |slots| ==> slots[i].entryFlag
    ensures n == 0 <==> forall i :: 0 <= i < |slots| ==> !slots[i].entryFlag
  {
    if |slots| == 0 then 0
    else Occupancy(slots[..|slots| - 1]) + (if slots[|slots| - 1].entryFlag then 1 else 0)
  }

  /** Number of slots in request state st. */
  function CountInState(slots: seq<Slot>, st: SqState): (n: nat)
    ensures n <= |slots|
    ensures n == 0 <==> forall i :: 0 <= i < |slots| ==> slots[i].sqState != st
  {
    if |slots| == 0 then 0
    else CountInState(slots[..|slots| - 1], st) + (if slots[|slots| - 1].sqState == st then 1 else 0)
  }

  /** The C string a char pointer to buf denotes: the bytes before the first NUL. */
  function CString(buf: seq<Byte>): (r: seq<Byte>)
    ensures |r| <= |buf| && r == buf[..|r|]
    ensures Nul !in r
    ensures |r| < |buf| ==> buf[|r|] == Nul
  {
    if |buf| == 0 || buf[0] == Nul then [] else [buf[0]] + CString(buf[1..])
  }

  /** A scan that tests slot i and finds it, after passing every slot before it, returns i. */
  lemma FirstMatchAt(slots: seq<Slot>, q: Query, i: nat)
    requires i < |slots| && Matches(q, slots[i])
    requires forall j :: 0 <= j < i ==> !Matches(q, slots[j])
    ensures FirstMatch(slots, q) == Some(i)
  {
  }

  // ---------------------------------------------------------------------
  // Event handlers
  // ---------------------------------------------------------------------

  /**
   * ble_app_connected_event: first-fit admission, or a low-resources
   * disconnect when every slot is taken. The slot's request state and name
   * buffer are left as they were.
   */
  function OnConnected(b: Bridge, info: ConnInfo): Step {
    if info.connStatus != Success then Step(b, [])
    else match FirstMatch(b.slots, Free)
      case None => Step(b, [DisconnectPeer(info.handle, RemoteDevTermLowResources)])
      case Some(i) =>
        Step(Bridge(b.slots[i := b.slots[i].(conn := info, entryFlag := true)],
                    if b.app.Code() < Connected.Code() then Connected else b.app,
                    false),
             [])
  }

  /**
   * ble_app_disconnected_event: the first slot whose stored handle equals the
   * event's, occupied or not, is zeroed and the state becomes DISCONNECTED.
   */
  function OnDisconnected(b: Bridge, handle: Handle, status: Status): Bridge {
    if status != Success then b
    else match FirstMatch(b.slots, WithHandle(handle))
      case None => b
      case Some(i) => Bridge(b.slots[i := ZeroSlot()], Disconnected, b.advertising)
  }

  /**
   * The test at the head of ble_app_char_changed_event: the length is 2 and
   * the FIRST byte of the value is 1 (the cast to uint16_t is applied after
   * dereferencing a byte pointer).
   */
  predicate IsNotificationEnable(value: seq<Byte>) {
    |value| == 2 && value[0] as int == NotificationsEnabled
  }

  /**
   * The byte loop and terminator of the write handler: the payload is
   * copied to the front of the buffer, a NUL follows it, and the rest of the
   * buffer keeps its old bytes.
   */
  function StoreName(buf: seq<Byte>, value: seq<Byte>): (r: seq<Byte>)
    requires |value| < |buf|
    ensures |r| == |buf|
  {
    value + [Nul] + buf[|value| + 1..]
  }

  /**
   * The handler copies the payload into city_name with no bound check, but
   * only when the write succeeded, is not the notification-enable value and
   * comes from the handle of an occupied slot. Only such a write must fit
   * the 20-byte buffer with its NUL; any other write is ignored whatever
   * its length.
   */
  predicate WriteFits(b: Bridge, connHandle: Handle, status: Status, value: seq<Byte>) {
    (status == Success && !IsNotificationEnable(value) && FirstMatch(b.slots, OccupiedWithHandle(connHandle)).Some?)
    ==> |value| <= MaxPayloadLen
  }

  /**
   * ble_app_char_changed_event. Which characteristic was written is not
   * looked at; a notification-enable write is ignored; any other write is
   * stored in the first occupied slot with the writer's handle, whatever
   * that slot's request state.
   */
  function OnCharChanged(b: Bridge, connHandle: Handle, charHandle: Handle, status: Status, value: seq<Byte>): Bridge
    requires WellFormed(b)
    requires WriteFits(b, connHandle, status, value)
  {
    if status != Success || IsNotificationEnable(value) then b
    else match FirstMatch(b.slots, OccupiedWithHandle(connHandle))
      case None => b
      case Some(i) =>
        var s := b.slots[i];
        Bridge(b.slots[i := s.(cityName := StoreName(s.cityName, value), sqState := CityNameReceived)],
               SymbolReceived, b.advertising)
  }

  /** The callback tables: each event goes to its handler; a notification confirmation only logs. */
  function OnEvent(b: Bridge, ev: Event): Step
    requires WellFormed(b)
    requires ev.CharChangedEv? ==> WriteFits(b, ev.connHandle, ev.status, ev.value)
  {
    match ev
    case ConnectedEv(info) => OnConnected(b, info)
    case DisconnectedEv(h, st) => Step(OnDisconnected(b, h, st), [])
    case CharChangedEv(ch, vh, st, v) => Step(OnCharChanged(b, ch, vh, st, v), [])
    case NotificationConfirmedEv(_) => Step(b, [])
  }

  // ---------------------------------------------------------------------
  // Completion path
  // ---------------------------------------------------------------------

  /** The stack accepts a value only up to the characteristic's maximum length, APP_BUF_SIZE. */
  predicate ValueAccepted(data: seq<Byte>, o: SendOutcome) {
    o.valueSet && |data| <= AppBufSize
  }

  /** The stack calls ble_app_tu_serv_send_data makes, in order. */
  function SendEffects(handle: Handle, data: seq<Byte>, o: SendOutcome): seq<Effect> {
    if !o.configRead || o.configValue != NotificationsEnabled then []
    else if !ValueAccepted(data, o) then [SetTxValue(data)]
    else [SetTxValue(data), NotifyPeer(handle)]
  }

  /** The status ble_app_tu_serv_send_data returns. */
  function SendStatus(data: seq<Byte>, o: SendOutcome): Status {
    if !o.configRead then Failure
    else if o.configValue != NotificationsEnabled then Success
    else if !ValueAccepted(data, o) then Failure
    else if o.notified then Success
    else Failure
  }

  /**
   * ble_app_send_weather_data: the first slot in WEATHER_UNDER_PROCESSING is
   * sent the data and set back to CITY_NAME_NOT_RECEIVED, whatever the send
   * returned.
   */
  function OnWeatherData(b: Bridge, data: seq<Byte>, o: SendOutcome): Step {
    match FirstMatch(b.slots, InState(WeatherUnderProcessing))
    case None => Step(b, [])
    case Some(i) =>
      Step(b.(slots := b.slots[i := b.slots[i].(sqState := CityNameNotReceived)]),
           SendEffects(b.slots[i].conn.handle, data, o))
  }

  /** ble_app_get_city_name: the buffer of the first in-flight slot, or NULL. */
  function InFlightName(b: Bridge): Option<seq<Byte>> {
    match FirstMatch(b.slots, InState(WeatherUnderProcessing))
    case None => None
    case Some(i) => Some(b.slots[i].cityName)
  }

  // ---------------------------------------------------------------------
  // ble_app_process
  // ---------------------------------------------------------------------

  /** ble_app_start_adv: the flag is set only when the start succeeds. */
  function TryStartAdv(b: Bridge, ok: bool): Step {
    Step(b.(advertising := b.advertising || ok), [StartAdvertising])
  }

  /**
   * The START_ADV case: ble_app_init defines the service and, if that
   * succeeded, starts advertising; only when both succeed does the state
   * move on to ADV_STARTED.
   */
  function StartAdvCase(b: Bridge, o: RadioOutcome): Step {
    if !o.serviceDefined then Step(b, [DefineService])
    else
      var s := TryStartAdv(b, o.advStarted);
      Step(s.next.(app := if o.advStarted then AdvStarted else StartAdv), [DefineService] + s.effects)
  }

  /**
   * The CONNECTED case: when a slot is free and the flag is clear, the flag
   * is set and then advertising is started once; the flag stays set even if
   * the start fails.
   */
  function ConnectedCase(b: Bridge, o: RadioOutcome): Step {
    if FirstMatch(b.slots, Free).Some? && !b.advertising then
      TryStartAdv(b.(advertising := true), o.advStarted)
    else Step(b, [])
  }

  /**
   * The DISCONNECTED case: start advertising unless already advertising
   * (free capacity is not checked); stay while any slot is occupied,
   * otherwise go to ADV_STARTED or, when the start failed, to START_ADV.
   */
  function DisconnectedCase(b: Bridge, o: RadioOutcome): Step {
    var s := if !b.advertising then TryStartAdv(b, o.advStarted) else Step(b, []);
    var ok := b.advertising || o.advStarted;
    var app :=
      if FirstMatch(b.slots, Occupied).Some? then Disconnected
      else if ok then AdvStarted
      else StartAdv;
    Step(s.next.(app := app), s.effects)
  }

  /** One slot after the SYMBOL_RECEIVED loop body. */
  function Promote(s: Slot): Slot {
    if s.sqState == CityNameReceived then s.(sqState := WeatherUnderProcessing) else s
  }

  /** The whole table after the SYMBOL_RECEIVED loop. */
  function PromoteAll(slots: seq<Slot>): (r: seq<Slot>)
    ensures |r| == |slots|
  {
    seq(|slots|, i requires 0 <= i < |slots| => Promote(slots[i]))
  }

  /** The request_weather calls of the SYMBOL_RECEIVED loop, in slot order. */
  function Requests(slots: seq<Slot>): seq<Effect> {
    if |slots| == 0 then []
    else
      var last := slots[|slots| - 1];
      Requests(slots[..|slots| - 1]) +
      (if last.sqState == CityNameReceived then [RequestWeather(last.cityName)] else [])
  }

  /**
   * The SYMBOL_RECEIVED case: every slot with a received name is handed to
   * the lookup; the state returns to CONNECTED once no slot is in flight.
   */
  function SymbolReceivedCase(b: Bridge): Step {
    var slots := PromoteAll(b.slots);
    var more := FirstMatch(slots, InState(WeatherUnderProcessing)).Some?;
    Step(b.(slots := slots, app := if more then SymbolReceived else Connected), Requests(b.slots))
  }

  /** The switch of ble_app_process. */
  function Dispatch(b: Bridge, o: RadioOutcome): Step {
    match b.app
    case Init => Step(b, [])
    case StartAdv => StartAdvCase(b, o)
    case AdvStarted => Step(b, [])
    case Connected => ConnectedCase(b, o)
    case Disconnected => DisconnectedCase(b, o)
    case SymbolReceived => SymbolReceivedCase(b)
  }

  /** ble_app_process: the switch, then the event pump when the state is at least START_ADV. */
  function Process(b: Bridge, o: RadioOutcome): Step {
    var s := Dispatch(b, o);
    if s.next.app.Code() >= StartAdv.Code() then Step(s.next, s.effects + [PumpEvents]) else s
  }

  /** ble_app_state_set_start_adv. */
  function SetStartAdv(b: Bridge): Bridge {
    b.(app := StartAdv)
  }
}
