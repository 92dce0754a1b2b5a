/**
 * What the connection and session logic guarantees, and where it is looser
 * than its comments suggest, stated over the functions of SessionSpec.
 */
module SessionProperties {
  import opened UartTypes
  import opened SessionSpec

  // ---------------------------------------------------------------------
  // Helpers on the slot table
  // ---------------------------------------------------------------------

  /** Replacing one slot changes the occupancy by the difference of the two flags. */
  lemma {:induction false} OccupancyUpdate(slots: seq<Slot>, i: nat, s: Slot)
    requires i < |slots|
    ensures Occupancy(slots[i := s]) ==
            Occupancy(slots) - (if slots[i].entryFlag then 1 else 0) + (if s.entryFlag then 1 else 0)
  {
    var n := |slots| - 1;
    if i < n {
      OccupancyUpdate(slots[..n], i, s);
      assert slots[i := s][..n] == slots[..n][i := s];
    } else {
      assert slots[i := s][..n] == slots[..n];
    }
  }

  /** An unoccupied slot of a table that keeps the invariant has handle 0. */
  lemma FreeSlotHasHandleZero(b: Bridge, i: nat)
    requires Inv(b) && i < |b.slots| && !b.slots[i].entryFlag
    ensures b.slots[i].conn.handle == 0 && b.slots[i].sqState == CityNameNotReceived
  {
  }

  // ---------------------------------------------------------------------
  // The invariant: every handler and every step keeps it
  // ---------------------------------------------------------------------

  lemma InitialInv()
    ensures Inv(Initial())
    ensures Occupancy(Initial().slots) == 0
  {
  }

  lemma ConnectPreservesInv(b: Bridge, info: ConnInfo)
    requires Inv(b)
    ensures Inv(OnConnected(b, info).next)
  {
  }

  lemma DisconnectPreservesInv(b: Bridge, handle: Handle, status: Status)
    requires Inv(b)
    ensures Inv(OnDisconnected(b, handle, status))
  {
  }

  lemma CharChangedPreservesInv(b: Bridge, connHandle: Handle, charHandle: Handle, status: Status, value: seq<Byte>)
    requires Inv(b)
    requires WriteFits(b, connHandle, status, value)
    ensures Inv(OnCharChanged(b, connHandle, charHandle, status, value))
  {
  }

  lemma EventPreservesInv(b: Bridge, ev: Event)
    requires Inv(b)
    requires ev.CharChangedEv? ==> WriteFits(b, ev.connHandle, ev.status, ev.value)
    ensures Inv(OnEvent(b, ev).next)
  {
    match ev
    case ConnectedEv(info) => ConnectPreservesInv(b, info);
    case DisconnectedEv(h, st) => DisconnectPreservesInv(b, h, st);
    case CharChangedEv(ch, vh, st, v) => CharChangedPreservesInv(b, ch, vh, st, v);
    case NotificationConfirmedEv(_) =>
  }

  lemma WeatherDataPreservesInv(b: Bridge, data: seq<Byte>, o: SendOutcome)
    requires Inv(b)
    ensures Inv(OnWeatherData(b, data, o).next)
  {
  }

  lemma ProcessPreservesInv(b: Bridge, o: RadioOutcome)
    requires Inv(b)
    ensures Inv(Process(b, o).next)
  {
    var p := PromoteAll(b.slots);
    assert forall i :: 0 <= i < |p| ==> p[i] == Promote(b.slots[i]);
  }

  lemma SetStartAdvPreservesInv(b: Bridge)
    requires Inv(b)
    ensures Inv(SetStartAdv(b))
  {
  }

  /** The table can never hold more than MAX_REMOTE_DEVICE peers. */
  lemma OccupancyWithinCapacity(b: Bridge)
    requires Inv(b)
    ensures Occupancy(b.slots) <= MaxRemoteDevice
  {
  }

  // ---------------------------------------------------------------------
  // Runs of the environment
  // ---------------------------------------------------------------------

  /** What the environment can do next: a pass of the loop, an event, a lookup result, the start request. */
  datatype Action =
    | Tick(radio: RadioOutcome)
    | Deliver(ev: Event)
    | WeatherResult(data: seq<Byte>, send: SendOutcome)
    | RequestStartAdv

  /** An action the code has defined behaviour for: a stored write fits the name buffer. */
  predicate Admissible(b: Bridge, a: Action) {
    a.Deliver? && a.ev.CharChangedEv? ==> WriteFits(b, a.ev.connHandle, a.ev.status, a.ev.value)
  }

  /** Every action of the run is admissible in the state it is applied to. */
  predicate AdmissibleRun(b: Bridge, actions: seq<Action>)
    decreases |actions|
  {
    |actions| == 0 ||
    (Admissible(b, actions[0]) && (WellFormed(b) ==> AdmissibleRun(Apply(b, actions[0]).next, actions[1..])))
  }

  function Apply(b: Bridge, a: Action): Step
    requires WellFormed(b) && Admissible(b, a)
  {
    match a
    case Tick(o) => Process(b, o)
    case Deliver(ev) => OnEvent(b, ev)
    case WeatherResult(data, o) => OnWeatherData(b, data, o)
    case RequestStartAdv => Step(SetStartAdv(b), [])
  }

  lemma ApplyPreservesInv(b: Bridge, a: Action)
    requires Inv(b) && Admissible(b, a)
    ensures Inv(Apply(b, a).next)
  {
    match a
    case Tick(o) => ProcessPreservesInv(b, o);
    case Deliver(ev) => EventPreservesInv(b, ev);
    case WeatherResult(data, o) => WeatherDataPreservesInv(b, data, o);
    case RequestStartAdv => SetStartAdvPreservesInv(b);
  }

  /**
   * The state after a sequence of actions. Whatever the environment does,
   * the invariant holds and occupancy stays within capacity.
   */
  function Run(b: Bridge, actions: seq<Action>): (r: Bridge)
    requires Inv(b)
    requires AdmissibleRun(b, actions)
    ensures Inv(r)
    ensures Occupancy(r.slots) <= MaxRemoteDevice
    ensures forall i :: 0 <= i < |r.slots| && !r.slots[i].entryFlag ==> r.slots[i].sqState == CityNameNotReceived
    decreases |actions|
  {
    if |actions| == 0 then b
    else
      ApplyPreservesInv(b, actions[0]);
      Run(Apply(b, actions[0]).next, actions[1..])
  }

  // ---------------------------------------------------------------------
  // Admission (ble_app_connected_event)
  // ---------------------------------------------------------------------

  /**
   * A successful connection when slot i is the lowest free slot: slot i takes
   * the connection and is marked used, nothing else in the table changes,
   * the advertising flag is cleared, the state becomes CONNECTED only if it
   * was below CONNECTED, and no disconnect is issued.
   */
  lemma AdmitsLowestFreeSlot(b: Bridge, info: ConnInfo, i: nat)
    requires info.connStatus == Success
    requires i < |b.slots| && !b.slots[i].entryFlag
    requires forall j :: 0 <= j < i ==> b.slots[j].entryFlag
    ensures var s := OnConnected(b, info);
      && |s.next.slots| == |b.slots|
      && s.next.slots[i].conn == info && s.next.slots[i].entryFlag
      && s.next.slots[i].sqState == b.slots[i].sqState
      && s.next.slots[i].cityName == b.slots[i].cityName
      && (forall j :: 0 <= j < |b.slots| && j != i ==> s.next.slots[j] == b.slots[j])
      && !s.next.advertising
      && s.next.app == (if b.app.Code() < Connected.Code() then Connected else b.app)
      && s.effects == []
  {
    FirstMatchAt(b.slots, Free, i);
  }

  /**
   * A successful connection is refused, with one low-resources disconnect,
   * exactly when every slot is occupied; a refusal changes no state.
   */
  lemma {:induction false} RejectedIffFull(b: Bridge, info: ConnInfo)
    requires info.connStatus == Success
    ensures var s := OnConnected(b, info);
      && (s.effects != [] <==> Occupancy(b.slots) == |b.slots|)
      && (Occupancy(b.slots) == |b.slots| ==>
            s.next == b && s.effects == [DisconnectPeer(info.handle, RemoteDevTermLowResources)])
  {
  }

  /** An admission adds exactly one occupant. */
  lemma {:induction false} AdmissionAddsOneOccupant(b: Bridge, info: ConnInfo)
    requires info.connStatus == Success
    requires Occupancy(b.slots) < |b.slots|
    ensures Occupancy(OnConnected(b, info).next.slots) == Occupancy(b.slots) + 1
  {
    var i := FirstMatch(b.slots, Free).value;
    OccupancyUpdate(b.slots, i, b.slots[i].(conn := info, entryFlag := true));
  }

  /** A connection event whose status is not success changes nothing. */
  lemma FailedConnectionChangesNothing(b: Bridge, info: ConnInfo)
    requires info.connStatus != Success
    ensures OnConnected(b, info) == Step(b, [])
  {
  }

  /**
   * The state test of admission is "below CONNECTED": a connection admitted
   * while DISCONNECTED or SYMBOL_RECEIVED leaves the state as it was.
   */
  lemma AdmissionKeepsLaterStates(b: Bridge, info: ConnInfo)
    requires b.app == Disconnected || b.app == SymbolReceived
    ensures OnConnected(b, info).next.app == b.app
  {
  }

  // ---------------------------------------------------------------------
  // Release (ble_app_disconnected_event)
  // ---------------------------------------------------------------------

  /**
   * A successful disconnect zeroes the first slot holding the handle (not
   * looking at its occupancy flag) and sets the state to DISCONNECTED.
   */
  lemma ReleasesFirstSlotWithHandle(b: Bridge, handle: Handle, i: nat)
    requires i < |b.slots| && b.slots[i].conn.handle == handle
    requires forall j :: 0 <= j < i ==> b.slots[j].conn.handle != handle
    ensures OnDisconnected(b, handle, Success) == Bridge(b.slots[i := ZeroSlot()], Disconnected, b.advertising)
    ensures !OnDisconnected(b, handle, Success).slots[i].entryFlag
    ensures OnDisconnected(b, handle, Success).slots[i].sqState == CityNameNotReceived
  {
    FirstMatchAt(b.slots, WithHandle(handle), i);
  }

  /** No slot with the handle, or a failed status: nothing changes. */
  lemma UnmatchedDisconnectChangesNothing(b: Bridge, handle: Handle, status: Status)
    requires status != Success || forall j :: 0 <= j < |b.slots| ==> b.slots[j].conn.handle != handle
    ensures OnDisconnected(b, handle, status) == b
  {
  }

  /**
   * Disconnect matching ignores the occupancy flag, and a zeroed slot keeps
   * handle 0. So when a free slot comes before an occupied slot whose peer
   * has handle 0, the disconnect of that peer zeroes the free slot and the
   * occupied one stays occupied.
   */
  lemma DisconnectOfHandleZeroCanMissItsSlot(b: Bridge, f: nat, k: nat)
    requires Inv(b)
    requires f < k < |b.slots| && !b.slots[f].entryFlag
    requires forall j :: 0 <= j < f ==> b.slots[j].conn.handle != 0
    requires b.slots[k].entryFlag && b.slots[k].conn.handle == 0
    ensures OnDisconnected(b, 0, Success).slots[k] == b.slots[k]
    ensures Occupancy(OnDisconnected(b, 0, Success).slots) == Occupancy(b.slots)
  {
    FirstMatchAt(b.slots, WithHandle(0), f);
    OccupancyUpdate(b.slots, f, ZeroSlot());
  }

  /** The peers of the trace below: A gets handle 0, C handle 1. */
  const PeerA: ConnInfo := ConnInfo([1, 1, 1, 1, 1, 1], 0, Success)
  const PeerC: ConnInfo := ConnInfo([2, 2, 2, 2, 2, 2], 1, Success)

  /** A zero slot that a connection has taken. */
  function Occupant(info: ConnInfo): Slot {
    ZeroSlot().(conn := info, entryFlag := true)
  }

  /** The table the trace below ends with holds one peer, in slot 1, with handle 0. */
  lemma StaleTraceOutcome()
    ensures Occupancy([ZeroSlot(), Occupant(PeerA), ZeroSlot()]) == 1
    ensures FirstMatch([ZeroSlot(), Occupant(PeerA), ZeroSlot()], OccupiedWithHandle(0)) == Some(1)
  {
    var z := ZeroSlot();
    var sl := [z, Occupant(PeerA), z];
    FirstMatchAt(sl, OccupiedWithHandle(0), 1);
    assert sl[..2] == [z, Occupant(PeerA)] && sl[..2][..1] == [z];
    assert Occupancy(sl) == Occupancy([z, Occupant(PeerA)]) == Occupancy([z]) + 1;
  }

  /**
   * A run from power-up in which the peer with handle 0 disconnects while
   * its slot stays occupied. C (handle 1) takes slot 0 and A (handle 0)
   * slot 1; C leaves and slot 0 is zeroed, so it holds handle 0; then A's
   * disconnect matches the free slot 0 first, and slot 1 keeps A.
   */
  lemma StaleSlotAfterDisconnects()
    ensures var b0 := OnConnected(OnConnected(Initial(), PeerC).next, PeerA).next;  // C: slot 0, A: slot 1
            var b1 := OnDisconnected(b0, 1, Success);                                // C leaves
            var b2 := OnDisconnected(b1, 0, Success);                                // A leaves
            && Occupancy(b2.slots) == 1
            && FirstMatch(b2.slots, OccupiedWithHandle(0)) == Some(1)
            && b2.app == Disconnected
  {
    var z := ZeroSlot();
    var i0 := Initial();
    assert i0.slots == [z, z, z];
    FirstMatchAt(i0.slots, Free, 0);
    var s1 := OnConnected(i0, PeerC).next;
    assert s1.slots == [Occupant(PeerC), z, z];
    FirstMatchAt(s1.slots, Free, 1);
    var b0 := OnConnected(s1, PeerA).next;
    assert b0.slots == [Occupant(PeerC), Occupant(PeerA), z];
    FirstMatchAt(b0.slots, WithHandle(1), 0);
    var b1 := OnDisconnected(b0, 1, Success);
    assert b1.slots == [z, Occupant(PeerA), z];
    FirstMatchAt(b1.slots, WithHandle(0), 0);
    assert OnDisconnected(b1, 0, Success) == b1;
    StaleTraceOutcome();
  }

  // ---------------------------------------------------------------------
  // Writes (ble_app_char_changed_event)
  // ---------------------------------------------------------------------

  /** A notification-enable write changes nothing. */
  lemma NotificationEnableIgnored(b: Bridge, connHandle: Handle, charHandle: Handle, status: Status, value: seq<Byte>)
    requires WellFormed(b)
    requires IsNotificationEnable(value)
    ensures OnCharChanged(b, connHandle, charHandle, status, value) == b
  {
  }

  /**
   * Only the first byte is compared with 1: every two-byte value starting
   * with 0x01 counts as enabling notifications, and the little-endian
   * "disable" value 0x0000 and "enable indications" value 0x0002 do not.
   */
  lemma OnlyFirstByteTested(x: Byte)
    ensures IsNotificationEnable([1, x])
    ensures !IsNotificationEnable([0, 0]) && !IsNotificationEnable([2, 0])
    ensures !IsNotificationEnable([1]) && !IsNotificationEnable([1, 0, 0])
  {
  }

  /**
   * Any other successful write from the peer in slot i, the first occupied
   * slot with that handle, stores the bytes followed by a NUL, marks the
   * name received and sets the state to SYMBOL_RECEIVED; the rest of the
   * table is unchanged.
   */
  lemma WriteStoresPayload(b: Bridge, connHandle: Handle, charHandle: Handle, value: seq<Byte>, i: nat)
    requires WellFormed(b) && |value| <= MaxPayloadLen
    requires !IsNotificationEnable(value)
    requires i < |b.slots| && b.slots[i].entryFlag && b.slots[i].conn.handle == connHandle
    requires forall j :: 0 <= j < i ==> !(b.slots[j].entryFlag && b.slots[j].conn.handle == connHandle)
    ensures var n := OnCharChanged(b, connHandle, charHandle, Success, value);
      && |n.slots| == |b.slots|
      && n.slots[i].cityName[..|value|] == value
      && n.slots[i].cityName[|value|] == Nul
      && n.slots[i].cityName[|value| + 1..] == b.slots[i].cityName[|value| + 1..]
      && n.slots[i].sqState == CityNameReceived
      && n.slots[i].conn == b.slots[i].conn && n.slots[i].entryFlag
      && (forall j :: 0 <= j < |b.slots| && j != i ==> n.slots[j] == b.slots[j])
      && n.app == SymbolReceived && n.advertising == b.advertising
  {
    FirstMatchAt(b.slots, OccupiedWithHandle(connHandle), i);
  }

  /** A write from a handle no occupied slot holds, or a failed write, changes nothing. */
  lemma UnmatchedWriteChangesNothing(b: Bridge, connHandle: Handle, charHandle: Handle, status: Status, value: seq<Byte>)
    requires WellFormed(b)
    requires status != Success || forall j :: 0 <= j < |b.slots| ==> !(b.slots[j].entryFlag && b.slots[j].conn.handle == connHandle)
    ensures OnCharChanged(b, connHandle, charHandle, status, value) == b
  {
  }

  /** Which characteristic was written makes no difference. */
  lemma WriteIgnoresCharacteristic(b: Bridge, connHandle: Handle, h1: Handle, h2: Handle, status: Status, value: seq<Byte>)
    requires WellFormed(b) && WriteFits(b, connHandle, status, value)
    ensures OnCharChanged(b, connHandle, h1, status, value) == OnCharChanged(b, connHandle, h2, status, value)
  {
  }

  /**
   * The write handler does not look at the slot's request state: a write to
   * a slot whose lookup is in flight puts it back to CITY_NAME_RECEIVED, so
   * the next SYMBOL_RECEIVED pass requests again. Writing the two-byte
   * "disable notifications" value is stored as a name like any payload.
   */
  lemma WriteRestartsRequest(b: Bridge, connHandle: Handle, charHandle: Handle, value: seq<Byte>, i: nat)
    requires WellFormed(b) && |value| <= MaxPayloadLen && !IsNotificationEnable(value)
    requires i < |b.slots| && b.slots[i].entryFlag && b.slots[i].conn.handle == connHandle
    requires forall j :: 0 <= j < i ==> !(b.slots[j].entryFlag && b.slots[j].conn.handle == connHandle)
    ensures OnCharChanged(b, connHandle, charHandle, Success, value).slots[i].sqState == CityNameReceived
    ensures OnCharChanged(b, connHandle, charHandle, Success, [0, 0]).slots[i].sqState == CityNameReceived
  {
    FirstMatchAt(b.slots, OccupiedWithHandle(connHandle), i);
  }

  /**
   * The name handed to request_weather, read as a C string, is exactly the
   * payload written, when the payload holds no NUL byte.
   */
  lemma {:induction false} StoredNameRoundTrip(buf: seq<Byte>, value: seq<Byte>)
    requires |value| < |buf|
    requires Nul !in value
    ensures CString(StoreName(buf, value)) == value
  {
    var stored := StoreName(buf, value);
    assert stored[..|value|] == value;
    CStringOfTerminated(stored, value);
  }

  /** A buffer that holds s and then a NUL, with no NUL inside s, denotes the C string s. */
  lemma {:induction false} CStringOfTerminated(buf: seq<Byte>, s: seq<Byte>)
    requires |s| < |buf| && buf[..|s|] == s && buf[|s|] == Nul
    requires Nul !in s
    ensures CString(buf) == s
  {
    if s != [] {
      assert buf[0] == s[0] && s[0] in s;
      assert buf[1..][..|s| - 1] == s[1..];
      CStringOfTerminated(buf[1..], s[1..]);
    }
  }

  // ---------------------------------------------------------------------
  // Completion (ble_app_send_weather_data, ble_app_tu_serv_send_data,
  // ble_app_get_city_name)
  // ---------------------------------------------------------------------

  /** Replacing one slot changes the count of a request state by the difference. */
  lemma {:induction false} CountInStateUpdate(slots: seq<Slot>, i: nat, s: Slot, st: SqState)
    requires i < |slots|
    ensures CountInState(slots[i := s], st) ==
            CountInState(slots, st) - (if slots[i].sqState == st then 1 else 0) + (if s.sqState == st then 1 else 0)
  {
    var n := |slots| - 1;
    if i < n {
      CountInStateUpdate(slots[..n], i, s, st);
      assert slots[i := s][..n] == slots[..n][i := s];
    } else {
      assert slots[i := s][..n] == slots[..n];
    }
  }

  /**
   * A lookup result goes to slot i, the first slot in flight: its handle is
   * the one notified, it returns to CITY_NAME_NOT_RECEIVED whatever the send
   * returned, nothing else changes, and its name is what
   * ble_app_get_city_name returns.
   */
  lemma CompletionClearsFirstInFlight(b: Bridge, data: seq<Byte>, o: SendOutcome, i: nat)
    requires i < |b.slots| && b.slots[i].sqState == WeatherUnderProcessing
    requires forall j :: 0 <= j < i ==> b.slots[j].sqState != WeatherUnderProcessing
    ensures var s := OnWeatherData(b, data, o);
      && s.next == b.(slots := b.slots[i := b.slots[i].(sqState := CityNameNotReceived)])
      && s.effects == SendEffects(b.slots[i].conn.handle, data, o)
    ensures InFlightName(b) == Some(b.slots[i].cityName)
  {
    FirstMatchAt(b.slots, InState(WeatherUnderProcessing), i);
  }

  /** With no slot in flight a lookup result is dropped and the lookup name is NULL. */
  lemma CompletionWithoutInFlightChangesNothing(b: Bridge, data: seq<Byte>, o: SendOutcome)
    requires forall j :: 0 <= j < |b.slots| ==> b.slots[j].sqState != WeatherUnderProcessing
    ensures OnWeatherData(b, data, o) == Step(b, [])
    ensures InFlightName(b) == None
  {
  }

  /** Each lookup result takes exactly one slot out of flight, if there is one. */
  lemma {:induction false} CompletionCountsDown(b: Bridge, data: seq<Byte>, o: SendOutcome)
    ensures var n := CountInState(b.slots, WeatherUnderProcessing);
      CountInState(OnWeatherData(b, data, o).next.slots, WeatherUnderProcessing) == if n == 0 then 0 else n - 1
  {
    match FirstMatch(b.slots, InState(WeatherUnderProcessing))
    case None =>
    case Some(i) =>
      CountInStateUpdate(b.slots, i, b.slots[i].(sqState := CityNameNotReceived), WeatherUnderProcessing);
  }

  /**
   * A notification is sent only when the client configuration was read and
   * equals 1 and the stack accepted the value, which it does only for at
   * most APP_BUF_SIZE bytes; with the configuration unreadable or not 1
   * no stack call is made at all.
   */
  lemma NotifiesOnlyWhenEnabled(handle: Handle, data: seq<Byte>, o: SendOutcome)
    ensures NotifyPeer(handle) in SendEffects(handle, data, o) <==>
            o.configRead && o.configValue == NotificationsEnabled && o.valueSet && |data| <= AppBufSize
    ensures SendEffects(handle, data, o) != [] <==> o.configRead && o.configValue == NotificationsEnabled
    ensures SendStatus(data, o) == Success <==>
            o.configRead && (o.configValue != NotificationsEnabled || (ValueAccepted(data, o) && o.notified))
  {
  }

  // ---------------------------------------------------------------------
  // ble_app_process
  // ---------------------------------------------------------------------

  /** The switch never runs the event pump itself. */
  lemma DispatchDoesNotPump(b: Bridge, o: RadioOutcome)
    ensures PumpEvents !in Dispatch(b, o).effects
  {
    if b.app == SymbolReceived {
      RequestsAreLookups(b.slots);
    }
  }

  /**
   * After any pass the event pump runs, once and last, exactly when the
   * resulting state is not INIT (numerically at least START_ADV).
   */
  lemma PumpsIffPastInit(b: Bridge, o: RadioOutcome)
    ensures var s := Process(b, o);
      && (PumpEvents in s.effects <==> s.next.app != Init)
      && (s.next.app != Init ==> s.effects[|s.effects| - 1] == PumpEvents)
      && multiset(s.effects)[PumpEvents] <= 1
  {
    DispatchDoesNotPump(b, o);
    AppStateOrder(Dispatch(b, o).next.app);
  }

  /** INIT does nothing, not even the pump. */
  lemma InitPassIsIdle(b: Bridge, o: RadioOutcome)
    requires b.app == Init
    ensures Process(b, o) == Step(b, [])
  {
  }

  /**
   * START_ADV reruns ble_app_init: the service is defined again, advertising
   * is started only if that succeeded, and the state moves to ADV_STARTED
   * only when both succeed.
   */
  lemma StartAdvPass(b: Bridge, o: RadioOutcome)
    requires b.app == StartAdv
    ensures var s := Process(b, o);
      && s.next.app == (if o.serviceDefined && o.advStarted then AdvStarted else StartAdv)
      && s.next.advertising == (b.advertising || (o.serviceDefined && o.advStarted))
      && s.next.slots == b.slots
      && s.effects == [DefineService] + (if o.serviceDefined then [StartAdvertising] else []) + [PumpEvents]
  {
  }

  /**
   * CONNECTED starts advertising at most once, and only when a slot is free
   * and the flag is clear; afterwards the flag is set whether or not the
   * start succeeded.
   */
  lemma ConnectedPassAdvertisesAtMostOnce(b: Bridge, o: RadioOutcome)
    requires b.app == Connected
    ensures var s := Process(b, o);
      && multiset(s.effects)[StartAdvertising] <= 1
      && (StartAdvertising in s.effects <==> Occupancy(b.slots) < |b.slots| && !b.advertising)
      && (StartAdvertising in s.effects ==> s.next.advertising)
      && s.next.slots == b.slots && s.next.app == Connected
  {
  }

  /**
   * Because the flag is set before the start, a failed start is never
   * retried by later CONNECTED passes.
   */
  lemma FailedStartNotRetriedWhileConnected(b: Bridge, o1: RadioOutcome, o2: RadioOutcome)
    requires b.app == Connected && !b.advertising && Occupancy(b.slots) < |b.slots|
    requires !o1.advStarted
    ensures var b1 := Process(b, o1).next;
      && b1.advertising && b1.app == Connected
      && StartAdvertising !in Process(b1, o2).effects
  {
  }

  /**
   * DISCONNECTED starts advertising exactly when the flag is clear, even
   * with every slot taken; it stays DISCONNECTED while any slot is occupied,
   * and otherwise moves to ADV_STARTED if the start succeeded or was not
   * needed, or to START_ADV if it failed.
   */
  lemma DisconnectedPass(b: Bridge, o: RadioOutcome)
    requires b.app == Disconnected
    ensures var s := Process(b, o);
      && (StartAdvertising in s.effects <==> !b.advertising)
      && (Occupancy(b.slots) == |b.slots| && !b.advertising ==> StartAdvertising in s.effects)
      && (Occupancy(b.slots) > 0 ==> s.next.app == Disconnected)
      && (Occupancy(b.slots) == 0 ==>
            s.next.app == (if b.advertising || o.advStarted then AdvStarted else StartAdv))
      && s.next.slots == b.slots
  {
    if Occupancy(b.slots) > 0 {
      assert FirstMatch(b.slots, Occupied).Some?;
    }
  }

  /**
   * A disconnect that arrives while a received name waits for the
   * SYMBOL_RECEIVED pass moves the state to DISCONNECTED. With the waiting
   * peer still connected, the DISCONNECTED pass keeps that state and makes
   * no lookup, so the name is not handed on until a later write.
   */
  lemma ReceivedNameWaitsAfterDisconnect(b: Bridge, handle: Handle, o: RadioOutcome, i: nat, j: nat)
    requires Inv(b) && b.app == SymbolReceived
    requires i < |b.slots| && b.slots[i].sqState == CityNameReceived
    requires j < |b.slots| && j != i && b.slots[j].conn.handle == handle
    requires forall k :: 0 <= k < j ==> b.slots[k].conn.handle != handle
    ensures var b1 := OnDisconnected(b, handle, Success);
            var s := Process(b1, o);
            && b1.app == Disconnected
            && s.next.app == Disconnected
            && s.next.slots[i] == b.slots[i]
            && (forall k :: 0 <= k < |s.effects| ==> !s.effects[k].RequestWeather?)
  {
    ReleasesFirstSlotWithHandle(b, handle, j);
    var b1 := OnDisconnected(b, handle, Success);
    assert b1.slots[i] == b.slots[i] && b1.slots[i].entryFlag;
    assert FirstMatch(b1.slots, Occupied).Some?;
    DisconnectedPass(b1, o);
    assert Process(b1, o).effects == (if b.advertising then [] else [StartAdvertising]) + [PumpEvents];
  }

  /** The lookups of a SYMBOL_RECEIVED pass: one request_weather per received name. */
  lemma {:induction false} RequestsAreLookups(slots: seq<Slot>)
    ensures |Requests(slots)| == CountInState(slots, CityNameReceived)
    ensures forall k :: 0 <= k < |Requests(slots)| ==> Requests(slots)[k].RequestWeather?
  {
    if |slots| > 0 {
      RequestsAreLookups(slots[..|slots| - 1]);
    }
  }

  /**
   * Counting over a table c whose slots are the promotions of those of a:
   * c has as many slots in flight as a had in flight or received.
   */
  lemma {:induction false} PromotedInFlightCount(a: seq<Slot>, c: seq<Slot>)
    requires |a| == |c|
    requires forall i :: 0 <= i < |a| ==> c[i] == Promote(a[i])
    ensures CountInState(c, WeatherUnderProcessing) ==
            CountInState(a, WeatherUnderProcessing) + CountInState(a, CityNameReceived)
  {
    if |a| > 0 {
      var n := |a| - 1;
      PromotedInFlightCount(a[..n], c[..n]);
    }
  }

  /** Promotion moves every received name into flight and leaves the rest. */
  lemma PromoteAllCounts(slots: seq<Slot>)
    ensures CountInState(PromoteAll(slots), WeatherUnderProcessing) ==
            CountInState(slots, WeatherUnderProcessing) + CountInState(slots, CityNameReceived)
    ensures CountInState(PromoteAll(slots), CityNameReceived) == 0
  {
    var p := PromoteAll(slots);
    assert forall i :: 0 <= i < |p| ==> p[i].sqState != CityNameReceived;
    PromotedInFlightCount(slots, p);
  }

  /** After promotion, some slot is in flight exactly when some promoted slot was. */
  lemma InFlightAfterPromotion(slots: seq<Slot>)
    ensures FirstMatch(PromoteAll(slots), InState(WeatherUnderProcessing)).Some? <==>
            exists j :: 0 <= j < |slots| && Promote(slots[j]).sqState == WeatherUnderProcessing
  {
    var p := PromoteAll(slots);
    if exists j :: 0 <= j < |slots| && Promote(slots[j]).sqState == WeatherUnderProcessing {
      var j :| 0 <= j < |slots| && Promote(slots[j]).sqState == WeatherUnderProcessing;
      assert Matches(InState(WeatherUnderProcessing), p[j]);
    }
  }

  /** The lookups of a three-slot table are made in ascending slot order. */
  lemma RequestsInSlotOrder(sl: seq<Slot>)
    requires |sl| == 3
    ensures Requests(sl) ==
      (if sl[0].sqState == CityNameReceived then [RequestWeather(sl[0].cityName)] else []) +
      (if sl[1].sqState == CityNameReceived then [RequestWeather(sl[1].cityName)] else []) +
      (if sl[2].sqState == CityNameReceived then [RequestWeather(sl[2].cityName)] else [])
  {
    assert sl[..1][..0] == [] && sl[..2][..1] == sl[..1] && sl[..2] == sl[..|sl| - 1];
    assert Requests(sl[..1]) ==
      (if sl[0].sqState == CityNameReceived then [RequestWeather(sl[0].cityName)] else []);
    assert Requests(sl[..2]) == Requests(sl[..1]) +
      (if sl[1].sqState == CityNameReceived then [RequestWeather(sl[1].cityName)] else []);
  }

  /**
   * SYMBOL_RECEIVED: every slot with a received name is put in flight and
   * no other slot changes; the state returns to CONNECTED exactly when no
   * slot is in flight afterwards.
   */
  lemma SymbolReceivedPass(b: Bridge, o: RadioOutcome)
    requires b.app == SymbolReceived
    ensures var s := Process(b, o);
      && |s.next.slots| == |b.slots|
      && (forall i :: 0 <= i < |b.slots| ==> s.next.slots[i] == Promote(b.slots[i]))
      && CountInState(s.next.slots, CityNameReceived) == 0
      && CountInState(s.next.slots, WeatherUnderProcessing) ==
           CountInState(b.slots, WeatherUnderProcessing) + CountInState(b.slots, CityNameReceived)
      && (s.next.app == Connected <==> CountInState(s.next.slots, WeatherUnderProcessing) == 0)
      && s.next.advertising == b.advertising
  {
    var c := SymbolReceivedCase(b);
    assert Process(b, o).next == c.next;
    PromoteAllCounts(b.slots);
  }

  /**
   * The calls of a SYMBOL_RECEIVED pass: one request_weather per slot with
   * a received name, in ascending slot order, then the event pump.
   */
  lemma SymbolReceivedLookups(b: Bridge, o: RadioOutcome)
    requires WellFormed(b) && b.app == SymbolReceived
    ensures var s := Process(b, o);
      && s.effects == Requests(b.slots) + [PumpEvents]
      && |Requests(b.slots)| == CountInState(b.slots, CityNameReceived)
      && Requests(b.slots) ==
           (if b.slots[0].sqState == CityNameReceived then [RequestWeather(b.slots[0].cityName)] else []) +
           (if b.slots[1].sqState == CityNameReceived then [RequestWeather(b.slots[1].cityName)] else []) +
           (if b.slots[2].sqState == CityNameReceived then [RequestWeather(b.slots[2].cityName)] else [])
  {
    RequestsAreLookups(b.slots);
    RequestsInSlotOrder(b.slots);
  }
}
