# Connection and session logic of the D21 weather BLE bridge

This project models the part of the firmware that runs the BLE peripheral's
sessions (`transparent_uart.c` and its header). Up to three central devices
can be connected at once. Each one writes a city name to the transparent UART
service. The bridge hands each name to an external weather lookup and
notifies the result back to the peer whose lookup is in flight.

The model has four modules:

- `UartTypes` (`uart_types.dfy`) holds the header. It has the constants
  `MAX_REMOTE_DEVICE` = 3, `APP_BUF_SIZE` = 150 and the 20-byte `city_name`
  buffer. It has the two enumerations `ble_app_init_t` and
  `ble_app_sq_state_t`, each with its C value. It has the slot record
  `remote_dev_info_t` and the zero slot left by `memset`.
- `SessionSpec` (`session_spec.dfy`) holds one pure function per handler and
  per case of `ble_app_process`. Each function maps the state to the new
  state and to the ordered list of calls made into the BLE stack and into
  `request_weather`. These are the specification of the class.
- `SessionProperties` (`session_properties.dfy`) holds the lemmas. They cover
  first-fit admission, release, the write handler, the completion path, each
  case of the processing loop, and the invariant that a free slot is a zero
  slot. They also show the code's quirks.
- `TransparentUart` (`transparent_uart.dfy`) holds the class `BleApp`. The
  slot table is an `array<Slot>` of three entries that is updated in place.
  `ble_app_state` and `is_ble_advertising` are fields. The stack and lookup
  calls go to a ghost `log`. Every handler and step is a method with the
  source's scanning loops and `break`s. Each method is proved to produce the
  state and the calls its `SessionSpec` function gives. Each one keeps
  `Valid()`, which includes the invariant.

Foreign calls are modelled as outcomes. The success of starting advertising,
of defining the GATT service, of reading the client configuration (and its
value), of setting the TX value and of sending the notification are all
parameters. The event pump `ble_event_task` is logged as a call. The events
it would deliver are passed in by the caller through `BleApp.HandleEvent`.
In `SessionProperties.Run` they are a sequence of actions chosen freely by
the environment.

Quirks of the code as written, each proved:

- The write handler copies `char_len` bytes into the 20-byte name buffer
  with no bound check (transparent_uart.c:138-146). So a write that reaches
  the copy must carry at most 19 bytes: this is the precondition
  `WriteFits` on `CharChangedEvent`. A write the handler ignores may have
  any length.
- The write handler checks neither which characteristic was written nor
  the length, and it ignores the slot's request state
  (transparent_uart.c:134-148).
- The test for the 0x0001 notification-enable value compares only the first
  byte of the written value (transparent_uart.c:126).
- Disconnect matching ignores `entry_flag`, and a zeroed slot keeps handle 0
  (transparent_uart.c:104-111). So whenever a free slot comes before the
  slot of the peer with handle 0, that peer's disconnect zeroes the free
  slot instead of its own. Its slot then stays occupied with no peer
  behind it (`StaleSlotAfterDisconnects`: two connects and two
  disconnects from power-up).
- The CONNECTED case sets `is_ble_advertising` before starting to advertise
  (transparent_uart.c:489-493). A failed start is therefore not retried
  from that state.
- The DISCONNECTED case starts advertising without checking for free
  capacity (transparent_uart.c:505-509).
- A connection admitted while DISCONNECTED or SYMBOL_RECEIVED leaves the
  state unchanged, because both are numerically at least CONNECTED
  (transparent_uart.c:78-81).
- A disconnect while a received name waits for the SYMBOL_RECEIVED pass
  moves the state to DISCONNECTED (transparent_uart.c:109). While any peer
  is connected, the DISCONNECTED pass stays in that state and never hands
  the name to the lookup (transparent_uart.c:501-536). The name waits for
  the next write.
- The send path reads one client configuration value, with no connection
  handle, so notifications are on or off for every peer at once
  (transparent_uart.c:216-222).

## Model

| member | source | states |
|---|---|---|
| UartTypes.AppStateOrder | D21_Weather_BLE_Bridge/D21_Weather_BLE_Bridge/src/transparent_uart.h:62-70 | the application states are ordered INIT < START_ADV < ADV_STARTED < CONNECTED < DISCONNECTED < SYMBOL_RECEIVED; "below CONNECTED" means exactly the first three states, and "at least START_ADV" means every state except INIT |
| UartTypes.ZeroSlotIsFreeAndIdle | D21_Weather_BLE_Bridge/D21_Weather_BLE_Bridge/src/transparent_uart.h:72-93 | a zero-filled slot is unoccupied, its request state is CITY_NAME_NOT_RECEIVED (value 0), its name buffer has 20 bytes and its handle is 0 |
| SessionSpec.FirstMatch | D21_Weather_BLE_Bridge/D21_Weather_BLE_Bridge/src/transparent_uart.c:63-83 | the first-fit scan returns the lowest index whose slot passes the test, or none exactly when no slot passes |
| SessionSpec.FirstMatchAt | D21_Weather_BLE_Bridge/D21_Weather_BLE_Bridge/src/transparent_uart.c:104-111 | a scan that passes every slot before i and then finds slot i returns i |
| SessionSpec.Occupancy | D21_Weather_BLE_Bridge/D21_Weather_BLE_Bridge/src/transparent_uart.c:15 | the number of occupied slots is at most the table size; it equals the size exactly when all slots are taken, and it is 0 exactly when none is |
| SessionSpec.CountInState | D21_Weather_BLE_Bridge/D21_Weather_BLE_Bridge/src/transparent_uart.h:72-80 | the number of slots in a request state is at most the table size, and it is 0 exactly when no slot is in that state |
| SessionSpec.CString | D21_Weather_BLE_Bridge/D21_Weather_BLE_Bridge/src/transparent_uart.c:552 | the string passed as a char pointer is the prefix of the buffer before its first NUL, and it contains no NUL |
| SessionSpec.StoreName | D21_Weather_BLE_Bridge/D21_Weather_BLE_Bridge/src/transparent_uart.c:138-146 | storing a payload shorter than the buffer keeps the buffer's 20-byte size |
| SessionSpec.PromoteAll | D21_Weather_BLE_Bridge/D21_Weather_BLE_Bridge/src/transparent_uart.c:544-561 | the SYMBOL_RECEIVED loop keeps the table size |
| SessionProperties.OccupancyUpdate | D21_Weather_BLE_Bridge/D21_Weather_BLE_Bridge/src/transparent_uart.c:70 | replacing one slot changes the occupancy by the difference of the two entry flags |
| SessionProperties.FreeSlotHasHandleZero | D21_Weather_BLE_Bridge/D21_Weather_BLE_Bridge/src/transparent_uart.c:108 | under the invariant, a free slot has handle 0 and is idle |
| SessionProperties.InitialInv | D21_Weather_BLE_Bridge/D21_Weather_BLE_Bridge/src/transparent_uart.c:15-20 | the zero-initialised table satisfies the invariant and holds no peer |
| SessionProperties.ConnectPreservesInv | D21_Weather_BLE_Bridge/D21_Weather_BLE_Bridge/src/transparent_uart.c:55-94 | after the connected handler, every free slot is still a zero slot |
| SessionProperties.DisconnectPreservesInv | D21_Weather_BLE_Bridge/D21_Weather_BLE_Bridge/src/transparent_uart.c:97-117 | after the disconnected handler, every free slot is still a zero slot |
| SessionProperties.CharChangedPreservesInv | D21_Weather_BLE_Bridge/D21_Weather_BLE_Bridge/src/transparent_uart.c:119-157 | after the write handler, every free slot is still a zero slot, because writes only touch occupied slots |
| SessionProperties.EventPreservesInv | D21_Weather_BLE_Bridge/D21_Weather_BLE_Bridge/src/transparent_uart.c:43-52 | every event delivered through the callback tables keeps the invariant |
| SessionProperties.WeatherDataPreservesInv | D21_Weather_BLE_Bridge/D21_Weather_BLE_Bridge/src/transparent_uart.c:251-267 | completing a lookup keeps the invariant |
| SessionProperties.ProcessPreservesInv | D21_Weather_BLE_Bridge/D21_Weather_BLE_Bridge/src/transparent_uart.c:455-580 | every pass of ble_app_process keeps the invariant |
| SessionProperties.SetStartAdvPreservesInv | D21_Weather_BLE_Bridge/D21_Weather_BLE_Bridge/src/transparent_uart.c:413-416 | requesting START_ADV keeps the invariant |
| SessionProperties.OccupancyWithinCapacity | D21_Weather_BLE_Bridge/D21_Weather_BLE_Bridge/src/transparent_uart.h:40 | a table that satisfies the invariant holds at most MAX_REMOTE_DEVICE = 3 peers |
| SessionProperties.ApplyPreservesInv | D21_Weather_BLE_Bridge/D21_Weather_BLE_Bridge/src/transparent_uart.c:455-580 | any single action of the environment (a pass, an event, a lookup result, a start request) keeps the invariant |
| SessionProperties.Run | D21_Weather_BLE_Bridge/D21_Weather_BLE_Bridge/src/transparent_uart.c:15 | after any sequence of actions in which every stored write fits the name buffer, the invariant holds, occupancy is at most 3, and every free slot is CITY_NAME_NOT_RECEIVED |
| SessionProperties.AdmitsLowestFreeSlot | D21_Weather_BLE_Bridge/D21_Weather_BLE_Bridge/src/transparent_uart.c:60-83 | a successful connection takes the lowest free slot. That slot gets the connection record and is marked used, and its request state and name are kept. All other slots are unchanged. The advertising flag is cleared. The state becomes CONNECTED only if it was below CONNECTED. No disconnect is issued |
| SessionProperties.RejectedIffFull | D21_Weather_BLE_Bridge/D21_Weather_BLE_Bridge/src/transparent_uart.c:63-90 | a successful connection issues a call exactly when all slots are occupied; that call is one low-resources disconnect of the new handle, and no state changes |
| SessionProperties.AdmissionAddsOneOccupant | D21_Weather_BLE_Bridge/D21_Weather_BLE_Bridge/src/transparent_uart.c:65-70 | admitting into a table with a free slot raises occupancy by exactly one |
| SessionProperties.FailedConnectionChangesNothing | D21_Weather_BLE_Bridge/D21_Weather_BLE_Bridge/src/transparent_uart.c:60 | a connection event with a non-success status changes nothing and makes no call |
| SessionProperties.AdmissionKeepsLaterStates | D21_Weather_BLE_Bridge/D21_Weather_BLE_Bridge/src/transparent_uart.c:78-81 | a connection while DISCONNECTED or SYMBOL_RECEIVED leaves the state unchanged |
| SessionProperties.ReleasesFirstSlotWithHandle | D21_Weather_BLE_Bridge/D21_Weather_BLE_Bridge/src/transparent_uart.c:101-111 | a successful disconnect zeroes the first slot with that handle, occupied or not, so it becomes free and CITY_NAME_NOT_RECEIVED with a zero name; the state becomes DISCONNECTED |
| SessionProperties.UnmatchedDisconnectChangesNothing | D21_Weather_BLE_Bridge/D21_Weather_BLE_Bridge/src/transparent_uart.c:101-113 | a disconnect with a failed status, or with a handle no slot holds, changes nothing |
| SessionProperties.DisconnectOfHandleZeroCanMissItsSlot | D21_Weather_BLE_Bridge/D21_Weather_BLE_Bridge/src/transparent_uart.c:106 | when a free slot comes before an occupied slot with handle 0, and no earlier slot has handle 0, disconnecting handle 0 leaves the occupied slot and the occupancy as they were |
| SessionProperties.StaleTraceOutcome | D21_Weather_BLE_Bridge/D21_Weather_BLE_Bridge/src/transparent_uart.c:104-111 | the table left by that run counts one peer, and its first occupied slot with handle 0 is slot 1 |
| SessionProperties.StaleSlotAfterDisconnects | D21_Weather_BLE_Bridge/D21_Weather_BLE_Bridge/src/transparent_uart.c:55-117 | from power-up, a peer with handle 1 takes slot 0 and a peer with handle 0 takes slot 1. Both then disconnect, handle 1 first. Afterwards the state is DISCONNECTED, and the table still counts one peer: slot 1, occupied, with handle 0 |
| SessionProperties.NotificationEnableIgnored | D21_Weather_BLE_Bridge/D21_Weather_BLE_Bridge/src/transparent_uart.c:126-131 | a write recognised as enabling notifications changes nothing |
| SessionProperties.OnlyFirstByteTested | D21_Weather_BLE_Bridge/D21_Weather_BLE_Bridge/src/transparent_uart.c:126 | every two-byte value whose first byte is 0x01 counts as enabling notifications; the values 0x0000 and 0x0002, and any length other than 2, do not |
| SessionProperties.WriteStoresPayload | D21_Weather_BLE_Bridge/D21_Weather_BLE_Bridge/src/transparent_uart.c:134-149 | any other successful write from the peer in the first occupied slot with its handle does four things. The name buffer becomes the written bytes, then a NUL, then the buffer's old tail. The request state becomes CITY_NAME_RECEIVED. The app state becomes SYMBOL_RECEIVED. Nothing else changes |
| SessionProperties.UnmatchedWriteChangesNothing | D21_Weather_BLE_Bridge/D21_Weather_BLE_Bridge/src/transparent_uart.c:124-151 | a failed write, or a write from a handle that no occupied slot holds, changes nothing, whatever its length |
| SessionProperties.WriteIgnoresCharacteristic | D21_Weather_BLE_Bridge/D21_Weather_BLE_Bridge/src/transparent_uart.c:134-148 | the result does not depend on which characteristic was written |
| SessionProperties.WriteRestartsRequest | D21_Weather_BLE_Bridge/D21_Weather_BLE_Bridge/src/transparent_uart.c:136-147 | a write is stored whatever the slot's request state, so an in-flight slot goes back to CITY_NAME_RECEIVED; the "disable notifications" value 0x0000 is stored as a name |
| SessionProperties.StoredNameRoundTrip | D21_Weather_BLE_Bridge/D21_Weather_BLE_Bridge/src/transparent_uart.c:138-146 | reading the stored buffer as a C string gives back exactly the payload written, if the payload has no NUL byte |
| SessionProperties.CStringOfTerminated | D21_Weather_BLE_Bridge/D21_Weather_BLE_Bridge/src/transparent_uart.c:146 | a buffer holding s followed by a NUL, with no NUL inside s, denotes the C string s |
| SessionProperties.CountInStateUpdate | D21_Weather_BLE_Bridge/D21_Weather_BLE_Bridge/src/transparent_uart.c:262 | replacing one slot changes the count of a request state by the difference |
| SessionProperties.CompletionClearsFirstInFlight | D21_Weather_BLE_Bridge/D21_Weather_BLE_Bridge/src/transparent_uart.c:251-267 | a lookup result goes to the first WEATHER_UNDER_PROCESSING slot, and the send calls use that slot's handle. That slot alone returns to CITY_NAME_NOT_RECEIVED, whatever the send returned. Its name is what ble_app_get_city_name returns |
| SessionProperties.CompletionWithoutInFlightChangesNothing | D21_Weather_BLE_Bridge/D21_Weather_BLE_Bridge/src/transparent_uart.c:253-266 | with no slot in flight, a result changes nothing and makes no call; ble_app_get_city_name returns NULL |
| SessionProperties.CompletionCountsDown | D21_Weather_BLE_Bridge/D21_Weather_BLE_Bridge/src/transparent_uart.c:253-266 | each lookup result lowers the number of in-flight slots by one, if there is any |
| SessionProperties.NotifiesOnlyWhenEnabled | D21_Weather_BLE_Bridge/D21_Weather_BLE_Bridge/src/transparent_uart.c:209-241 | a notification is sent exactly when four things hold: the client configuration was read, it equals 1, the stack took the value, and the value is at most APP_BUF_SIZE bytes. If the configuration is unreadable or not 1, no stack call is made. The returned status is as the code computes it |
| SessionProperties.DispatchDoesNotPump | D21_Weather_BLE_Bridge/D21_Weather_BLE_Bridge/src/transparent_uart.c:459-574 | the switch itself never runs the event pump |
| SessionProperties.PumpsIffPastInit | D21_Weather_BLE_Bridge/D21_Weather_BLE_Bridge/src/transparent_uart.c:576-579 | after any pass, the event pump runs exactly when the resulting state is at least START_ADV; it runs once, as the last call |
| SessionProperties.InitPassIsIdle | D21_Weather_BLE_Bridge/D21_Weather_BLE_Bridge/src/transparent_uart.c:461-465 | a pass in INIT changes nothing and makes no call, not even the pump |
| SessionProperties.StartAdvPass | D21_Weather_BLE_Bridge/D21_Weather_BLE_Bridge/src/transparent_uart.c:467-477 | a pass in START_ADV defines the service, and starts advertising only if that succeeded. It reaches ADV_STARTED only when both succeed |
| SessionProperties.ConnectedPassAdvertisesAtMostOnce | D21_Weather_BLE_Bridge/D21_Weather_BLE_Bridge/src/transparent_uart.c:485-499 | a pass in CONNECTED starts advertising at most once. It does so exactly when a slot is free and the flag is clear. The flag is then set whatever the outcome, and neither the table nor the state changes |
| SessionProperties.FailedStartNotRetriedWhileConnected | D21_Weather_BLE_Bridge/D21_Weather_BLE_Bridge/src/transparent_uart.c:489-493 | after a failed start in CONNECTED, the flag stays set, so the next CONNECTED pass does not try again |
| SessionProperties.DisconnectedPass | D21_Weather_BLE_Bridge/D21_Weather_BLE_Bridge/src/transparent_uart.c:501-536 | a pass in DISCONNECTED starts advertising exactly when the flag is clear, even with every slot taken. It stays DISCONNECTED while any slot is occupied. Otherwise it goes to ADV_STARTED if the start succeeded or was skipped, and to START_ADV if the start failed |
| SessionProperties.ReceivedNameWaitsAfterDisconnect | D21_Weather_BLE_Bridge/D21_Weather_BLE_Bridge/src/transparent_uart.c:501-536 | another peer's disconnect while a received name waits for the SYMBOL_RECEIVED pass moves the state to DISCONNECTED (line 109). The next pass stays DISCONNECTED, leaves the waiting slot as it was and makes no lookup |
| SessionProperties.RequestsAreLookups | D21_Weather_BLE_Bridge/D21_Weather_BLE_Bridge/src/transparent_uart.c:547-553 | the SYMBOL_RECEIVED loop makes one request_weather call per slot in CITY_NAME_RECEIVED, and no other call |
| SessionProperties.PromotedInFlightCount | D21_Weather_BLE_Bridge/D21_Weather_BLE_Bridge/src/transparent_uart.c:547-550 | a table whose slots are the promotions of another's has as many slots in flight as the other had in flight or received |
| SessionProperties.PromoteAllCounts | D21_Weather_BLE_Bridge/D21_Weather_BLE_Bridge/src/transparent_uart.c:547-550 | after the loop, no slot is in CITY_NAME_RECEIVED, and the in-flight count grows by the number of received names |
| SessionProperties.InFlightAfterPromotion | D21_Weather_BLE_Bridge/D21_Weather_BLE_Bridge/src/transparent_uart.c:544-561 | after the loop some slot is in flight exactly when some slot's promotion is in flight, which is what more_city_name records |
| SessionProperties.RequestsInSlotOrder | D21_Weather_BLE_Bridge/D21_Weather_BLE_Bridge/src/transparent_uart.c:544-553 | the lookups of a three-slot table are made in ascending slot order, each with the name of its slot |
| SessionProperties.SymbolReceivedPass | D21_Weather_BLE_Bridge/D21_Weather_BLE_Bridge/src/transparent_uart.c:538-570 | a pass in SYMBOL_RECEIVED puts every received slot in flight and changes no other slot. The state becomes CONNECTED exactly when no slot is in flight afterwards |
| SessionProperties.SymbolReceivedLookups | D21_Weather_BLE_Bridge/D21_Weather_BLE_Bridge/src/transparent_uart.c:544-579 | a pass in SYMBOL_RECEIVED makes one lookup per received slot, in slot order, and then runs the pump |
| TransparentUart.BleApp.constructor | D21_Weather_BLE_Bridge/D21_Weather_BLE_Bridge/src/transparent_uart.c:15-20 | the table starts with three zero slots, the state starts at INIT, the flag is clear, and the invariant holds |
| TransparentUart.BleApp.ConnectedEvent | D21_Weather_BLE_Bridge/D21_Weather_BLE_Bridge/src/transparent_uart.c:55-94 | the first-fit loop gives the state and calls of OnConnected, keeps the invariant, and returns success |
| TransparentUart.BleApp.DisconnectedEvent | D21_Weather_BLE_Bridge/D21_Weather_BLE_Bridge/src/transparent_uart.c:97-117 | the handle-matching loop gives the state of OnDisconnected, makes no call, keeps the invariant, and returns success |
| TransparentUart.BleApp.CharChangedEvent | D21_Weather_BLE_Bridge/D21_Weather_BLE_Bridge/src/transparent_uart.c:119-157 | the write handler gives the state of OnCharChanged, keeps the invariant, and returns success; a write that reaches the copy must carry at most 19 bytes, and a write the handler ignores may have any length |
| TransparentUart.BleApp.StorePayload | D21_Weather_BLE_Bridge/D21_Weather_BLE_Bridge/src/transparent_uart.c:138-146 | the byte loop and the terminator change only the name buffer of the written slot, which becomes the payload, then a NUL, then the old tail |
| TransparentUart.BleApp.HandleEvent | D21_Weather_BLE_Bridge/D21_Weather_BLE_Bridge/src/transparent_uart.c:43-52 | each event goes to its handler, and a notification confirmation changes nothing |
| TransparentUart.BleApp.StartAdvertisement | D21_Weather_BLE_Bridge/D21_Weather_BLE_Bridge/src/transparent_uart.c:176-204 | starting advertising sets the flag only on success, and its status reports the outcome |
| TransparentUart.BleApp.SendData | D21_Weather_BLE_Bridge/D21_Weather_BLE_Bridge/src/transparent_uart.c:209-241 | the stack calls and the returned status are those of SendEffects and SendStatus |
| TransparentUart.BleApp.SendWeatherData | D21_Weather_BLE_Bridge/D21_Weather_BLE_Bridge/src/transparent_uart.c:251-267 | the scan-send-clear loop gives the state and calls of OnWeatherData and keeps the invariant |
| TransparentUart.BleApp.GetCityName | D21_Weather_BLE_Bridge/D21_Weather_BLE_Bridge/src/transparent_uart.c:436-447 | returns the name buffer of the first in-flight slot, and none (NULL) exactly when no slot is in flight |
| TransparentUart.BleApp.IsInitState | D21_Weather_BLE_Bridge/D21_Weather_BLE_Bridge/src/transparent_uart.c:424-427 | true exactly in INIT |
| TransparentUart.BleApp.SetStartAdvState | D21_Weather_BLE_Bridge/D21_Weather_BLE_Bridge/src/transparent_uart.c:413-416 | sets the state to START_ADV and changes nothing else |
| TransparentUart.BleApp.AppInit | D21_Weather_BLE_Bridge/D21_Weather_BLE_Bridge/src/transparent_uart.c:378-405 | defines the service, then starts advertising only if that succeeded; it succeeds only when both do |
| TransparentUart.BleApp.ConnectedStep | D21_Weather_BLE_Bridge/D21_Weather_BLE_Bridge/src/transparent_uart.c:485-499 | the CONNECTED loop gives the state and calls of ConnectedCase |
| TransparentUart.BleApp.DisconnectedStep | D21_Weather_BLE_Bridge/D21_Weather_BLE_Bridge/src/transparent_uart.c:501-536 | the DISCONNECTED case gives the state and calls of DisconnectedCase |
| TransparentUart.BleApp.SymbolReceivedStep | D21_Weather_BLE_Bridge/D21_Weather_BLE_Bridge/src/transparent_uart.c:538-570 | the SYMBOL_RECEIVED loop gives the state and calls of SymbolReceivedCase |
| TransparentUart.BleApp.PromoteSlots | D21_Weather_BLE_Bridge/D21_Weather_BLE_Bridge/src/transparent_uart.c:544-561 | the loop turns the table into its promotion and makes the request_weather calls of Requests, in slot order. Its result is true exactly when some slot is in flight afterwards |
| TransparentUart.BleApp.PromoteSlot | D21_Weather_BLE_Bridge/D21_Weather_BLE_Bridge/src/transparent_uart.c:547-558 | one iteration changes only slot i, into its promotion. It makes one request_weather call with the slot's name when the name was received. It reports whether the slot is in flight |
| TransparentUart.BleApp.Process | D21_Weather_BLE_Bridge/D21_Weather_BLE_Bridge/src/transparent_uart.c:455-580 | one pass gives the state and calls of Process, keeps the invariant, and reports whether the event pump runs (exactly when the state is at least START_ADV) |

## Left out

- GATT attribute-table setup (`ble_app_tu_serv_init`, `ble_app_tu_primary_service_define`): these are field assignments and one stack call. Only the success or failure of defining the service is kept.
- The advertising payload bytes and the parameters of `at_ble_adv_data_set` and `at_ble_adv_start`: only whether `ble_app_start_adv` succeeded is kept.
- `ble_app_noti_confirmed_event`: it only logs. It is dispatched by `HandleEvent` and changes nothing.
- The callback registration in `ble_app_init`, and all `LED_Off`, `printf` and `DBG_LOG` calls: they have no effect on the state.
- `ble_event_task`: it is logged as a call, and the events it delivers are given by the caller or the environment.
- `request_weather`: it is an external, fire-and-forget call. It is logged with a copy of the name buffer at the time of the call. The code passes a pointer into the slot's `city_name`, so a later write (`WriteRestartsRequest`) or disconnect that changes the buffer while the lookup still holds the pointer is not modelled.
- The unused global `city_name`, the commented-out stock-quote code, and the header's keypad, UUID and advertising-payload macros: these have no behaviour.
- The connection interval, latency and supervision timeout of `at_ble_connected_t`: they are copied into the slot but never read.
- Status codes other than success: they are collapsed into one failure value, because the code only compares against success.
- The `default:` branch of `ble_app_process`: the state is a six-value datatype and every assignment in the code stores one of the six enumerators, so that branch cannot be reached in the model.
- BleApp.CharChangedEvent: a payload of 20 bytes or more that reaches the copy is excluded by the precondition `WriteFits`. The copy is reached when the status is success, the value is not the notification-enable value, and an occupied slot holds the writer's handle. The code writes past the 20-byte `city_name` buffer for such a payload, which is undefined behaviour in C. Longer writes that the handler ignores are modelled.
- BleApp.GetCityName: returns the contents of the name buffer, not a pointer into the slot, so aliasing with later writes is not modelled.
- SessionSpec.ValueAccepted: the stack is taken to refuse a value longer than the characteristic's maximum length, which is APP_BUF_SIZE as set at transparent_uart.c:289-290. Any other refusal is a parameter.
