/**
 * transparent_uart.c as a class: the slot table is a fixed array of three
 * slots updated in place, and ble_app_state and is_ble_advertising are
 * fields. The calls the code makes into the BLE stack and into the weather
 * lookup are appended to a ghost log; their outcomes are parameters.
 * Every method is proved to do what the matching function of SessionSpec
 * says, and to keep the invariant SessionSpec.Inv.
 */
module TransparentUart {
  import opened UartTypes
  import opened SessionSpec
  import opened SessionProperties

  class BleApp {
    /** remote_dev_info[MAX_REMOTE_DEVICE] */
    const slots: array<Slot>
    /** ble_app_state */
    var appState: AppState
    /** is_ble_advertising */
    var isAdvertising: bool
    /** The calls made into the stack and into request_weather, oldest first. */
    ghost var log: seq<Effect>

    /** The state as a value. */
    ghost function Abs(): Bridge
      reads this, slots
    {
      Bridge(slots[..], appState, isAdvertising)
    }

    ghost predicate Valid()
      reads this, slots
    {
      Inv(Abs())
    }

    /** The static initialisers: a zeroed table, BLE_APP_INIT, not advertising. */
    constructor ()
      ensures Valid() && fresh(slots)
      ensures Abs() == Initial() && log == []
    {
      slots := new Slot[MaxRemoteDevice](_ => ZeroSlot());
      appState := Init;
      isAdvertising := false;
      log := [];
      new;
      assert slots[..] == Initial().slots;
    }

    /** ble_app_connected_event */
    method ConnectedEvent(info: ConnInfo) returns (status: Status)
      requires Valid()
      modifies this, slots
      ensures Valid()
      ensures Abs() == OnConnected(old(Abs()), info).next
      ensures log == old(log) + OnConnected(old(Abs()), info).effects
      ensures status == Success
    {
      ghost var b := Abs();
      var disconnect := true;
      if info.connStatus == Success {
        var i := 0;
        while i < slots.Length
          invariant 0 <= i <= slots.Length
          invariant disconnect && Abs() == b && log == old(log)
          invariant forall j :: 0 <= j < i ==> slots[j].entryFlag
        {
          if !slots[i].entryFlag {
            FirstMatchAt(b.slots, Free, i);
            slots[i] := slots[i].(conn := info, entryFlag := true);
            disconnect := false;
            isAdvertising := false;
            if appState.Code() < Connected.Code() {
              appState := Connected;
            }
            break;
          }
          i := i + 1;
        }
        if disconnect {
          log := log + [DisconnectPeer(info.handle, RemoteDevTermLowResources)];
        }
      }
      ConnectPreservesInv(b, info);
      status := Success;
    }

    /** ble_app_disconnected_event */
    method DisconnectedEvent(handle: Handle, eventStatus: Status) returns (status: Status)
      requires Valid()
      modifies this, slots
      ensures Valid()
      ensures Abs() == OnDisconnected(old(Abs()), handle, eventStatus)
      ensures log == old(log)
      ensures status == Success
    {
      ghost var b := Abs();
      if eventStatus == Success {
        var i := 0;
        while i < slots.Length
          invariant 0 <= i <= slots.Length
          invariant Abs() == b
          invariant forall j :: 0 <= j < i ==> slots[j].conn.handle != handle
        {
          if slots[i].conn.handle == handle {
            FirstMatchAt(b.slots, WithHandle(handle), i);
            slots[i] := ZeroSlot();
            appState := Disconnected;
            break;
          }
          i := i + 1;
        }
      }
      DisconnectPreservesInv(b, handle, eventStatus);
      status := Success;
    }

    /**
     * ble_app_char_changed_event. A stored payload of 20 bytes or more would
     * run past the slot's 20-byte name buffer, so callers must not send one;
     * a long write the handler ignores is allowed.
     */
    method CharChangedEvent(connHandle: Handle, charHandle: Handle, eventStatus: Status, value: seq<Byte>)
      returns (status: Status)
      requires Valid()
      requires WriteFits(Abs(), connHandle, eventStatus, value)
      modifies this, slots
      ensures Valid()
      ensures Abs() == OnCharChanged(old(Abs()), connHandle, charHandle, eventStatus, value)
      ensures log == old(log)
      ensures status == Success
    {
      ghost var b := Abs();
      CharChangedPreservesInv(b, connHandle, charHandle, eventStatus, value);
      status := Success;
      if eventStatus == Success {
        if |value| == 2 && value[0] as int == NotificationsEnabled {
          return;
        }
        var i := 0;
        while i < slots.Length
          invariant 0 <= i <= slots.Length
          invariant Abs() == b && log == old(log)
          invariant forall j :: 0 <= j < i ==> !Matches(OccupiedWithHandle(connHandle), slots[j])
        {
          if slots[i].conn.handle == connHandle && slots[i].entryFlag {
            FirstMatchAt(b.slots, OccupiedWithHandle(connHandle), i);
            StorePayload(i, value);
            slots[i] := slots[i].(sqState := CityNameReceived);
            appState := SymbolReceived;
            assert slots[..] == OnCharChanged(b, connHandle, charHandle, eventStatus, value).slots;
            return;
          }
          i := i + 1;
        }
        assert FirstMatch(b.slots, OccupiedWithHandle(connHandle)).None?;
      }
    }

    /**
     * The byte loop and the terminator of ble_app_char_changed_event, on
     * slot i: char_len bytes, then a NUL, in place in the name buffer.
     */
    method StorePayload(i: nat, value: seq<Byte>)
      requires i < slots.Length && |value| < |slots[i].cityName|
      modifies slots
      ensures slots[..] == old(slots[..])[i := old(slots[i]).(cityName := StoreName(old(slots[i].cityName), value))]
    {
      ghost var name := slots[i].cityName;
      var index := 0;
      while index < |value|
        invariant 0 <= index <= |value|
        invariant |slots[i].cityName| == |name|
        invariant forall k :: 0 <= k < index ==> slots[i].cityName[k] == value[k]
        invariant forall k :: index <= k < |name| ==> slots[i].cityName[k] == name[k]
        invariant slots[i] == old(slots[i]).(cityName := slots[i].cityName)
        invariant forall j :: 0 <= j < slots.Length && j != i ==> slots[j] == old(slots[j])
      {
        slots[i] := slots[i].(cityName := slots[i].cityName[index := value[index]]);
        index := index + 1;
      }
      slots[i] := slots[i].(cityName := slots[i].cityName[index := Nul]);
      assert slots[i].cityName == StoreName(name, value);
    }

    /** The callback tables: each link-layer event goes to its handler. */
    method HandleEvent(ev: Event) returns (status: Status)
      requires Valid()
      requires ev.CharChangedEv? ==> WriteFits(Abs(), ev.connHandle, ev.status, ev.value)
      modifies this, slots
      ensures Valid()
      ensures Abs() == OnEvent(old(Abs()), ev).next
      ensures log == old(log) + OnEvent(old(Abs()), ev).effects
      ensures status == Success
    {
      match ev
      case ConnectedEv(info) =>
        status := ConnectedEvent(info);
      case DisconnectedEv(h, st) =>
        status := DisconnectedEvent(h, st);
      case CharChangedEv(ch, vh, st, v) =>
        status := CharChangedEvent(ch, vh, st, v);
      case NotificationConfirmedEv(_) =>
        status := Success;
    }

    /** ble_app_start_adv, with the outcome of the two stack calls as a parameter. */
    method StartAdvertisement(ok: bool) returns (status: Status)
      modifies this`isAdvertising, this`log
      ensures isAdvertising == (old(isAdvertising) || ok)
      ensures log == old(log) + [StartAdvertising]
      ensures status == (if ok then Success else Failure)
    {
      log := log + [StartAdvertising];
      if !ok {
        return Failure;
      }
      isAdvertising := true;
      status := Success;
    }

    /**
     * ble_app_tu_serv_send_data: the value is set and notified only when the
     * client configuration was read and equals 1.
     */
    method SendData(handle: Handle, data: seq<Byte>, o: SendOutcome) returns (status: Status)
      modifies this`log
      ensures log == old(log) + SendEffects(handle, data, o)
      ensures status == SendStatus(data, o)
    {
      if !o.configRead {
        return Failure;
      }
      status := Success;
      if o.configValue == NotificationsEnabled {
        log := log + [SetTxValue(data)];
        if !ValueAccepted(data, o) {
          return Failure;
        }
        log := log + [NotifyPeer(handle)];
        if !o.notified {
          return Failure;
        }
      }
    }

    /** ble_app_send_weather_data */
    method SendWeatherData(data: seq<Byte>, o: SendOutcome)
      requires Valid()
      modifies this, slots
      ensures Valid()
      ensures Abs() == OnWeatherData(old(Abs()), data, o).next
      ensures log == old(log) + OnWeatherData(old(Abs()), data, o).effects
    {
      ghost var b := Abs();
      var i := 0;
      while i < slots.Length
        invariant 0 <= i <= slots.Length
        invariant Abs() == b && log == old(log)
        invariant forall j :: 0 <= j < i ==> slots[j].sqState != WeatherUnderProcessing
      {
        if slots[i].sqState == WeatherUnderProcessing {
          FirstMatchAt(b.slots, InState(WeatherUnderProcessing), i);
          var _ := SendData(slots[i].conn.handle, data, o);
          slots[i] := slots[i].(sqState := CityNameNotReceived);
          break;
        }
        i := i + 1;
      }
      WeatherDataPreservesInv(b, data, o);
    }

    /** ble_app_get_city_name: the name buffer of the first in-flight slot, or NULL. */
    method GetCityName() returns (r: Option<seq<Byte>>)
      requires Valid()
      ensures r == InFlightName(Abs())
      ensures r.None? <==> forall j :: 0 <= j < slots.Length ==> slots[j].sqState != WeatherUnderProcessing
      ensures r.Some? ==> exists i :: 0 <= i < slots.Length && slots[i].sqState == WeatherUnderProcessing
                                      && r.value == slots[i].cityName
    {
      var i := 0;
      while i < slots.Length
        invariant 0 <= i <= slots.Length
        invariant forall j :: 0 <= j < i ==> slots[j].sqState != WeatherUnderProcessing
      {
        if slots[i].sqState == WeatherUnderProcessing {
          FirstMatchAt(slots[..], InState(WeatherUnderProcessing), i);
          return Some(slots[i].cityName);
        }
        i := i + 1;
      }
      r := None;
    }

    /** ble_app_is_init_state */
    method IsInitState() returns (r: bool)
      ensures r <==> appState == Init
    {
      r := appState == Init;
    }

    /** ble_app_state_set_start_adv */
    method SetStartAdvState()
      requires Valid()
      modifies this`appState
      ensures Valid()
      ensures Abs() == SetStartAdv(old(Abs()))
    {
      appState := StartAdv;
    }

    /** ble_app_init after the callbacks are registered: define the service, then advertise. */
    method AppInit(serviceDefined: bool, advStarted: bool) returns (status: Status)
      modifies this`isAdvertising, this`log
      ensures isAdvertising == (old(isAdvertising) || (serviceDefined && advStarted))
      ensures log == old(log) + [DefineService] + (if serviceDefined then [StartAdvertising] else [])
      ensures status == (if serviceDefined && advStarted then Success else Failure)
    {
      log := log + [DefineService];
      if !serviceDefined {
        return Failure;
      }
      status := StartAdvertisement(advStarted);
    }

    /** The BLE_APP_CONNECTED case of ble_app_process. */
    method ConnectedStep(o: RadioOutcome)
      requires Valid() && appState == Connected
      modifies this
      ensures Abs() == ConnectedCase(old(Abs()), o).next
      ensures log == old(log) + ConnectedCase(old(Abs()), o).effects
    {
      ghost var b := Abs();
      var i := 0;
      while i < slots.Length
        invariant 0 <= i <= slots.Length
        invariant Abs() == b && log == old(log)
        invariant forall j :: 0 <= j < i ==> slots[j].entryFlag || isAdvertising
      {
        if !slots[i].entryFlag && !isAdvertising {
          FirstMatchAt(b.slots, Free, i);
          isAdvertising := true;
          var _ := StartAdvertisement(o.advStarted);
          break;
        }
        i := i + 1;
      }
      if b.advertising {
        assert ConnectedCase(b, o) == Step(b, []);
      }
    }

    /** The BLE_APP_DISCONNECTED case of ble_app_process. */
    method DisconnectedStep(o: RadioOutcome)
      requires Valid() && appState == Disconnected
      modifies this
      ensures Abs() == DisconnectedCase(old(Abs()), o).next
      ensures log == old(log) + DisconnectedCase(old(Abs()), o).effects
    {
      var status := Success;
      var connExist := false;
      if !isAdvertising {
        status := StartAdvertisement(o.advStarted);
      }
      ghost var b := Abs();
      var i := 0;
      while i < slots.Length
        invariant 0 <= i <= slots.Length
        invariant Abs() == b && !connExist
        invariant forall j :: 0 <= j < i ==> !slots[j].entryFlag
      {
        if slots[i].entryFlag {
          FirstMatchAt(b.slots, Occupied, i);
          connExist := true;
          break;
        }
        i := i + 1;
      }
      if connExist {
        return;
      } else if status == Success {
        appState := AdvStarted;
      } else {
        appState := StartAdv;
      }
    }

    /** The BLE_APP_SYMBOL_RECEIVED case of ble_app_process. */
    method SymbolReceivedStep()
      requires Valid() && appState == SymbolReceived
      modifies this, slots
      ensures Abs() == SymbolReceivedCase(old(Abs())).next
      ensures log == old(log) + SymbolReceivedCase(old(Abs())).effects
    {
      var moreCityName := PromoteSlots();
      if !moreCityName {
        appState := Connected;
      }
    }

    /**
     * The loop of the BLE_APP_SYMBOL_RECEIVED case: each slot with a received
     * name is handed to request_weather and put in flight; the result says
     * whether any slot is in flight afterwards.
     */
    method PromoteSlots() returns (moreCityName: bool)
      modifies slots, this`log
      ensures slots[..] == PromoteAll(old(slots[..]))
      ensures log == old(log) + Requests(old(slots[..]))
      ensures moreCityName <==> FirstMatch(slots[..], InState(WeatherUnderProcessing)).Some?
    {
      ghost var b := slots[..];
      moreCityName := false;
      var i := 0;
      while i < slots.Length
        invariant 0 <= i <= slots.Length && |b| == slots.Length
        invariant forall j :: 0 <= j < i ==> slots[j] == Promote(b[j])
        invariant forall j :: i <= j < slots.Length ==> slots[j] == b[j]
        invariant log == old(log) + Requests(b[..i])
        invariant moreCityName <==> exists j :: 0 <= j < i && Promote(b[j]).sqState == WeatherUnderProcessing
      {
        assert b[..i + 1][..i] == b[..i];
        assert Requests(b[..i + 1]) == Requests(b[..i]) +
          (if b[i].sqState == CityNameReceived then [RequestWeather(b[i].cityName)] else []);
        var inFlight := PromoteSlot(i);
        moreCityName := moreCityName || inFlight;
        i := i + 1;
      }
      assert b[..i] == b;
      assert slots[..] == PromoteAll(b);
      InFlightAfterPromotion(b);
    }

    /**
     * One iteration of the BLE_APP_SYMBOL_RECEIVED loop, on slot i: a received
     * name is handed to request_weather and the slot put in flight; the
     * result says whether the slot is in flight afterwards.
     */
    method PromoteSlot(i: nat) returns (inFlight: bool)
      requires i < slots.Length
      modifies slots, this`log
      ensures slots[..] == old(slots[..])[i := Promote(old(slots[i]))]
      ensures log == old(log) +
        (if old(slots[i]).sqState == CityNameReceived then [RequestWeather(old(slots[i]).cityName)] else [])
      ensures inFlight <==> Promote(old(slots[i])).sqState == WeatherUnderProcessing
    {
      if slots[i].sqState == CityNameReceived {
        slots[i] := slots[i].(sqState := WeatherUnderProcessing);
        log := log + [RequestWeather(slots[i].cityName)];
      }
      inFlight := slots[i].sqState == WeatherUnderProcessing;
    }

    /**
     * ble_app_process: one pass of the switch, then the event pump when the
     * resulting state is at least BLE_APP_START_ADV. The pump itself is left to
     * the environment, which calls HandleEvent; pumped says whether it runs.
     */
    method Process(o: RadioOutcome) returns (pumped: bool)
      requires Valid()
      modifies this, slots
      ensures Valid()
      ensures Abs() == SessionSpec.Process(old(Abs()), o).next
      ensures log == old(log) + SessionSpec.Process(old(Abs()), o).effects
      ensures pumped <==> appState.Code() >= StartAdv.Code()
    {
      ghost var b := Abs();
      ghost var d := Dispatch(b, o);
      match appState {
        case Init =>
        case StartAdv =>
          var status := AppInit(o.serviceDefined, o.advStarted);
          if status == Success {
            appState := AdvStarted;
          }
        case AdvStarted =>
        case Connected =>
          ConnectedStep(o);
        case Disconnected =>
          DisconnectedStep(o);
        case SymbolReceived =>
          SymbolReceivedStep();
      }
      assert Abs() == d.next && log == old(log) + d.effects;
      pumped := appState.Code() >= StartAdv.Code();
      if pumped {
        log := log + [PumpEvents];
      }
      ProcessPreservesInv(b, o);
    }
  }
}
