# SmartClassroom: device session, light codec, hub bridge and two station sketches

This Dafny project models the logic of the SmartClassroom IoT installation.

- **The `SmartDevice` library** (modules `DeviceSession`, `Mqtt`, `LightCodec`, `ArduinoJson`, `SmartHome`, `Arduino`).
  - A device keeps an ordered, duplicate-free registry of topics.
  - Whenever the broker session comes back, the device replays the registry.
  - Publishing and `update` depend on the session being up.
  - A single callback slot receives every inbound message.
  - The static helper `commandToLight` decodes a JSON light command into a `Light` whose fields are clamped to their documented ranges.
  - `getRGB` and `getBrightnessValue` project a `Light` onto output levels.
- **The hub bridge `bridge.py`** (modules `Bridge`, `Python`).
  - A cloud write becomes a local payload: `ON`/`OFF`, `SWITCH=..,BRIGHTNESS=..[,HUE=..,SATURATION=..]`, or `str(value)`.
  - That payload is published only while the local client is connected, and only for variables the cloud may write.
  - At start-up the bridge builds a routing table from the configuration.
  - On connect it subscribes to every routed topic.
  - It converts each device report per variable type and pushes it to the cloud.
- **The curtain sketch `StationSample5`** (module `CurtainStation`).
  - A 32-bit NEC infrared frame decoder.
  - Servo control from remote keys 8 and 10 and from hub commands.
- **The entrance-lock sketch `StationSample4`** (module `LockStation`).
  - Two mirrored lock servos.
  - A keypad read through Arduino `map()`.
  - A door contact that reports on every pass.
  - The `local` flag, which makes the station swallow the next lock-topic message after a keypad change.

Code that changes state step by step is modelled as classes. The device object (`DeviceSession.SmartDevice`), the broker client (`Mqtt.Client`), the callback slot, and the two sketches (`CurtainStation.Curtain`, `LockStation.Station`) are classes. Their state-changing methods have `modifies` clauses. Each method is tied by its postcondition to functions on the old state, and properties of those functions are proved as lemmas. The decoder, the projections, the payload formatting and the IR decoder are pure code and become functions. The routing-table construction and `on_connect_local`/`on_message_local` keep their loops. They are methods proved equal to reference functions (`TableOf(ConfigRules(config))`, `PushesFor`), and further lemmas characterise those functions.

The foreign pieces are parameters or abstract objects:

- **Arduino `map()`** is a parameter `MapFn`. The only constraint is `WithinOneUnit`: on in-range inputs whose arithmetic fits the 32-bit `long` of the ESP8266 core (`FitsLong`), the result is within one unit of the exact linear value. Every call site (0-100 to 0-255, 0-360 to 0-65535, 0-1023 to 0-2) fits. From that the model proves the output range and the exact endpoints. `TruncatingMap` shows the constraint can be met.
- **ArduinoJson.** `deserializeJson` is represented by its outcome: an error or a document. `v | 0` on an `int` target is "the JSON integer if it fits 32 bits, else 0". The conversion `as<bool>()` is fixed only on JSON booleans; for other kinds of value the caller supplies it.
- **PubSubClient** is `Mqtt.Client`. It has a connected flag, a scripted sequence of connect outcomes, a set of `unsendable` topics whose subscribe the client fails to send (too long for its packet buffer, or a failed write; PubSubClient does not wait for the broker's acknowledgement), and a log of every connect attempt, and of every subscribe, publish and `loop()` made while connected. A `Drop` method models the link going away.
- **Adafruit_NeoPixel.** `ColorHSV` is a parameter. `Color` is packed as 0xRRGGBB.
- **Python.** `float()` and `json.loads` are parameters that return a value or `None` (the exception). `str()`, truth testing, `dict.get`, `str.lower()` and `int()` are modelled in `Python`.
- **Servo writes and `publishTo`/`subscribeTo` calls of the sketches** are recorded in a per-sketch effect log. What the library does with these calls is modelled in `DeviceSession`.

Two facts about the code that the model makes explicit:

- The library has no `KEY=VALUE` decoder and no `Light` encoder; the only `KEY=VALUE` text is the hub's output (`Bridge.FormatPayload`).
- `getRGB` and `getBrightnessValue` never read `isOn`; the model proves the projections do not depend on it (`DimmableRGBIsGray`, `BrightnessValueInRange`).

`DeviceSession.OfflineRegistration`, `DeviceSession.ReplayScenario`, `DeviceSession.DropScenario` and `LockStation.EchoScenario` are worked scenarios: fixed call sequences whose whole outcome is stated and proved.

## Model

| member | source | states |
|---|---|---|
| `Arduino.Constrain` | Embedded/SmartDevice.cpp:222-224 | the result is the point of [low, high] nearest to the input: the input itself when inside, the nearer bound otherwise |
| `Arduino.ToUint8` | Embedded/SmartDevice.cpp:262 | the conversion to `uint8_t` keeps values in 0..255 and otherwise reduces modulo 256 |
| `Arduino.ToUint16` | Embedded/SmartDevice.cpp:255 | the conversion to `uint16_t` keeps values in 0..65535 and otherwise reduces modulo 65536 |
| `Arduino.MapInRange` | Embedded/SmartDevice.cpp:270 | on ranges whose 32-bit `long` arithmetic cannot overflow, any linear integer map keeps an in-range input inside the output range and sends the input bounds exactly to the output bounds |
| `ArduinoJson.Member` | Embedded/SmartDevice.cpp:217-219 | `doc[key]` of a key the document does not hold is null |
| `ArduinoJson.IntOr` | Embedded/SmartDevice.cpp:217-219 | `v \| 0` yields the JSON integer when it fits a 32-bit `int` and the default for anything that is not an integer |
| `ArduinoJson.AsBool` | Embedded/SmartDevice.cpp:200 | `as<bool>()` of a JSON boolean is that boolean |
| `LightCodec.CommandToLight` | Embedded/SmartDevice.cpp:172-236 | the result is always in the documented ranges (brightness 0-100, hue 0-360, saturation 0-100); a parse error gives the all-zero DIMMABLE off light; COLOR exactly when a `hue` or `sat` key is present; DIMMABLE has hue = saturation = 0; on exactly when `swi` is present and converts to true; a missing `bri`, `hue` or `sat` reads 0; in-range integers are taken verbatim |
| `LightCodec.FieldClamps` | Embedded/SmartDevice.cpp:217-232 | an integer above the range decodes to the upper bound, a negative one to 0, and a value that is not a 32-bit integer to 0 |
| `LightCodec.GetBrightnessValue` | Embedded/SmartDevice.cpp:268-271 | the `uint8_t` result is the map's result whenever that is in 0..255, and otherwise differs from it by a multiple of 256 |
| `LightCodec.BrightnessValueInRange` | Embedded/SmartDevice.cpp:268-271 | for brightness 0-100 the value is the map's result in 0-255, 0 goes to 0 and 100 to 255, and the switch state plays no part |
| `LightCodec.PackColor` | Embedded/SmartDevice.cpp:263 | the packed colour carries red, green and blue in its three bytes |
| `LightCodec.GetRGB` | Embedded/SmartDevice.cpp:246-265 | a DIMMABLE light projects to a gray whose three channels all equal `getBrightnessValue` |
| `LightCodec.DimmableRGBIsGray` | Embedded/SmartDevice.cpp:259-264 | the DIMMABLE projection has three equal channels, each equal to `getBrightnessValue`, and ignores `isOn` |
| `LightCodec.DecodedBrightnessValue` | Embedded/SmartDevice.cpp:186-194 | every decoded command drives the dimmer through the map, and an unparseable command drives it to 0 |
| `Mqtt.Client.Connect` | Embedded/SmartDevice.cpp:71 | a handshake consumes one scripted outcome, sets the session state to it and logs one connect with the client identifier |
| `Mqtt.Client.Subscribe` | Embedded/SmartDevice.cpp:146 | a subscribe is logged only while connected and succeeds exactly when connected and the topic is not one the client fails to send |
| `Mqtt.Client.Publish` | Embedded/SmartDevice.cpp:99 | a publish is logged only while connected |
| `Mqtt.Client.Loop` | Embedded/SmartDevice.cpp:92 | `loop()` is logged only while connected and changes nothing else |
| `Mqtt.Client.Drop` | Embedded/SmartDevice.cpp:88-91 | a dropped link leaves the client disconnected, with its log, script and unsendable topics unchanged, so the next `update` reconnects |
| `DeviceSession.AssembleMessage` | Embedded/SmartDevice.cpp:22-26 | the message has exactly `length` characters, the i-th being payload byte i |
| `DeviceSession.MqttCallback` | Embedded/SmartDevice.cpp:20-34 | with a handler registered, exactly one delivery of the topic and the reassembled message; with none, no delivery; the slot is unchanged |
| `DeviceSession.AddTopic` | Embedded/SmartDevice.cpp:110-123 | after adding `t`, `t` is stored, the registry stays duplicate-free, an already stored topic leaves it unchanged, otherwise `t` is appended at the end and the old order is kept |
| `DeviceSession.AddTopicIdempotent` | Embedded/SmartDevice.cpp:110-123 | registering the same topic twice is the same as registering it once |
| `DeviceSession.Resubscriptions` | Embedded/SmartDevice.cpp:139-154 | one subscribe per stored topic, position by position in registry order; none for an empty registry |
| `DeviceSession.ResubscriptionsSnoc` | Embedded/SmartDevice.cpp:144-154 | a topic appended to the registry adds its subscribe at the end of the replay |
| `DeviceSession.FirstSuccess` | Embedded/SmartDevice.cpp:67-83 | the retry loop stops at the first successful outcome, every earlier one having failed |
| `DeviceSession.ConnectAttempts` | Embedded/SmartDevice.cpp:71 | every attempt uses the same client identifier |
| `DeviceSession.ReconnectShape` | Embedded/SmartDevice.cpp:65-84 | reconnecting is one connect per failed attempt, one successful connect, then exactly one replay of the registry |
| `DeviceSession.RemainingShape` | Embedded/SmartDevice.cpp:67-83 | reconnecting consumes exactly the outcomes up to and including the first success |
| `DeviceSession.FailedAttempt` | Embedded/SmartDevice.cpp:76-82 | a failed attempt sends one connect and leaves the rest of the reconnect still to come |
| `DeviceSession.SmartDevice.constructor` | Embedded/SmartDevice.cpp:38-41 | a new device has an empty registry |
| `DeviceSession.SmartDevice.Begin` | Embedded/SmartDevice.cpp:43-45 | `begin` records the device name used as client identifier |
| `DeviceSession.SmartDevice.SubscribeTo` | Embedded/SmartDevice.cpp:108-134 | the registry becomes `AddTopic(old, t)` and stays duplicate-free; exactly one subscribe is sent if connected, even for a stored topic, and none if not |
| `DeviceSession.SmartDevice.Resubscribe` | Embedded/SmartDevice.cpp:136-155 | the requests sent are exactly the replay of the registry, unsendable topics included |
| `DeviceSession.SmartDevice.Reconnect` | Embedded/SmartDevice.cpp:65-84 | returns connected; from a disconnected state it sends exactly the reconnect trace with the device name; when already connected it sends nothing |
| `DeviceSession.SmartDevice.Update` | Embedded/SmartDevice.cpp:86-93 | reconnects first when down, then exactly one `loop()`; ends connected |
| `DeviceSession.SmartDevice.PublishTo` | Embedded/SmartDevice.cpp:95-106 | one publish if and only if connected; nothing queued otherwise |
| `DeviceSession.SmartDevice.OnMessage` | Embedded/SmartDevice.cpp:157-160 | the slot holds the new handler; the last registration wins |
| `DeviceSession.SmartDevice.IsConnected` | Embedded/SmartDevice.cpp:162-165 | reports the client's connected flag |
| `Python.Truthy` | bridge.py:64-65 | a false value that is not a dictionary prints as one of `None`, `False`, `0`, `0.0`, `-0.0` or the empty text; a boolean is true exactly when it prints as `True`; `None` is false (also the `enabled` test at bridge.py:197) |
| `Python.Str` | bridge.py:92 | `str()` of a string is the string, of an integer a text `int()` reads back as that integer, and of a boolean a text that lowers to "true" exactly for `True` |
| `Python.Get` | bridge.py:70-73 | `dict.get` gives the entry when present and the default otherwise |
| `Python.IntToString` | bridge.py:92 | `str()` of an integer starts with a minus sign exactly when it is negative and is all digits otherwise |
| `Python.Lower` | bridge.py:144 | `lower()` keeps the length and folds each character |
| `Python.LowerIsTrue` | bridge.py:144 | `s.lower() == 'true'` holds exactly for the four-letter spellings of "true" in any mix of cases |
| `Python.DigitsValueOfDecimal` | bridge.py:148 | a decimal numeral reads back as the number it was written from |
| `Python.ParseInt` | bridge.py:148 | `int()` fails on text that is empty after stripping whitespace and on any text holding a character other than whitespace, digits, `_`, `+` and `-` |
| `Python.ParseIntOfString` | bridge.py:148 | `int()` of an integer's decimal text, with any surrounding whitespace, gives back that integer |
| `Python.ParseIntOfNumeral` | bridge.py:148 | `int(str(n)) == n` for every integer |
| `Bridge.SwitchState` | bridge.py:70 | the switch field is always "ON" or "OFF" |
| `Bridge.SwitchStateCases` | bridge.py:70 | a missing `swi` means off; a boolean `swi` switches on exactly when true; a string switches on exactly when it spells "true" in any case; an integer or `None` means off |
| `Bridge.FormatPayload` | bridge.py:62-92 | formatting fails (no publish) exactly for a Color or Dimmed value that is not a dictionary |
| `Bridge.DimmedIsColorPrefix` | bridge.py:66-86 | the Dimmed payload is the beginning of the Color payload for the same command, which continues with `,HUE=` |
| `Bridge.CommandFields` | bridge.py:66-86 | when the entry texts hold no comma, splitting the Color payload at `,` gives exactly `SWITCH=`, `BRIGHTNESS=`, `HUE=` and `SATURATION=` followed by the switch state and the entry texts, and the Dimmed payload the first two |
| `Bridge.EmptyCommandDefaults` | bridge.py:70-86 | an empty command formats with the defaults swi 'false', bri '100', hue '0', sat '0' |
| `Bridge.ColorCommandExample` | bridge.py:68-75 | the documented colour command formats to `SWITCH=ON,BRIGHTNESS=43,HUE=355,SATURATION=74` |
| `Bridge.OnWrite` | bridge.py:48-105 | at most one publish, made exactly when the four keys exist, the payload formats, the local client is connected and the direction is FROM_CLOUD or BIDIRECTIONAL; it goes to the variable's own topic with the formatted payload |
| `Bridge.VarStep` | bridge.py:206-232 | a variable yields a rule only when its direction is TO_CLOUD or BIDIRECTIONAL, and the rule copies its name, type, direction and topic and adds the account |
| `Bridge.RulesOn` | bridge.py:227-232 | the rules for one topic are rules of the list, all on that topic, and every rule of the list on that topic is among them |
| `Bridge.TableOfRules` | bridge.py:226-232 | the table's key order lists each key once and exactly its keys; a topic is a key exactly when some rule is on it, and its list is the rules on that topic in insertion order |
| `Bridge.VarRulesSplit` | bridge.py:206-232 | an account's rules split at any point before its first configuration error |
| `Bridge.VarRulesSound` | bridge.py:222-232 | each rule of an account names that account and a reported direction |
| `Bridge.ConfigRulesSound` | bridge.py:195-232 | every rule has direction TO_CLOUD or BIDIRECTIONAL and belongs to an enabled account whose client could be created |
| `Bridge.VarRulesComplete` | bridge.py:206-232 | in an account with no configuration error, a variable contributes its rule if and only if its direction is TO_CLOUD or BIDIRECTIONAL |
| `Bridge.ReportedVariableRouted` | bridge.py:198-232 | in a started account with no configuration error, every variable whose direction is TO_CLOUD or BIDIRECTIONAL has its rule in the table under its topic |
| `Bridge.BuildRouting` | bridge.py:195-234 | the loops build exactly `TableOf(ConfigRules(config))` and store a client for exactly the accounts that start without a configuration error |
| `Bridge.RouteAccount` | bridge.py:206-232 | one account's rules are appended in variable order, and `complete` tells whether no variable raised a configuration error |
| `Bridge.AppendRule` | bridge.py:227-232 | appending a rule (creating the list for a new topic) is inserting it into the table |
| `Bridge.OnConnectLocal` | bridge.py:109-118 | on code 0 exactly one subscribe per table key, in key order, with no repeats and no other topic; on any other code none |
| `Bridge.Convert` | bridge.py:138-157 | an Integer conversion succeeds exactly when `int()` does; non-JSON types never yield `None` |
| `Bridge.PushFor` | bridge.py:133-168 | a push goes to the rule's own account (which has a client) and variable, never with the value `None` |
| `Bridge.PushesFor` | bridge.py:132-168 | at most one push per rule, each to an account with a client |
| `Bridge.PushesForAppend` | bridge.py:132-168 | the pushes for two lists of rules are the pushes for each, one after the other |
| `Bridge.SingleFailingRule` | bridge.py:165-168 | a rule whose conversion fails pushes nothing |
| `Bridge.FailingRuleSkipped` | bridge.py:165-168 | a failing rule is skipped on its own: the rules before and after it still push |
| `Bridge.BooleanConversion` | bridge.py:142-144 | a Boolean report is true exactly for a case-insensitive "true" and false for every other payload |
| `Bridge.IntegerConversion` | bridge.py:146-148 | an integer's decimal text converts back to that integer |
| `Bridge.OnMessageLocal` | bridge.py:120-173 | undecodable payloads and unknown topics push nothing; otherwise the pushes are exactly `PushesFor` the topic's rules |
| `CurtainStation.MapCodeToButton` | Embedded/StationSample5.cpp:31-40 | -1 unless the low half is 0xBF00 and bits 24-31 complement bits 16-23; every result is -1 or in 0..255 |
| `CurtainStation.MapCodeRoundTrip` | Embedded/StationSample5.cpp:33-37 | the frame `0xBF00 \| b<<16 \| (~b & 0xFF)<<24` of every key b decodes to b |
| `CurtainStation.MapCodeOnlyFrames` | Embedded/StationSample5.cpp:31-40 | a code that decodes to a key is exactly that key's frame |
| `CurtainStation.ReadInfrared` | Embedded/StationSample5.cpp:43-52 | the code read is -1 or a key in 0..255 |
| `CurtainStation.ReadInfraredIsKey` | Embedded/StationSample5.cpp:43-52 | the code read is key k if and only if key k's frame was received |
| `CurtainStation.CurtainEffects` | Embedded/StationSample5.cpp:55-63 | the servo moves first, to 180 for closed and 0 for open; a report follows only when the server is to be informed |
| `CurtainStation.SensorEffects` | Embedded/StationSample5.cpp:65-72 | a pass acts exactly on the frames of keys 8 and 10: 8 closes (180) and reports "true", 10 opens (0) and reports "false" |
| `CurtainStation.Curtain.SetupDevice` | Embedded/StationSample5.cpp:21-28 | starts open, then subscribes to the curtain topic |
| `CurtainStation.Curtain.CurtainClosed` | Embedded/StationSample5.cpp:55-63 | appends exactly the curtain effects |
| `CurtainStation.Curtain.ReadSensor` | Embedded/StationSample5.cpp:65-72 | appends exactly the sensor effects of what was received |
| `CurtainStation.Curtain.TriggerActuator` | Embedded/StationSample5.cpp:74-77 | whatever the topic, one servo write, 180 if and only if the command is "true", and no publish |
| `LockStation.KeypadOf` | Embedded/StationSample4.cpp:61 | 0 is STANDBY, 1 LOCK and 2 UNLOCK |
| `LockStation.LockWrites` | Embedded/StationSample4.cpp:43-44 | lock 1 then lock 2; their angles always add to 180, and lock 1 is at 180 exactly when locked |
| `LockStation.Station.constructor` | Embedded/StationSample4.cpp:12-23 | the flag starts clear and the request at STANDBY |
| `LockStation.Station.SetupDevice` | Embedded/StationSample4.cpp:26-38 | subscribes to the lock topic |
| `LockStation.Station.SetLock` | Embedded/StationSample4.cpp:41-50 | both servos move; only a keypad change publishes (on the door topic) and sets `local` |
| `LockStation.Station.ReadSensor` | Embedded/StationSample4.cpp:52-63 | the door state is published first ("true" when the active-low pin reads LOW); the mapped keypad value is in 0..2 (0 at reading 0, 2 at 1023); STANDBY does nothing more; LOCK and UNLOCK call `setLock(request == LOCK, true)` |
| `LockStation.Station.TriggerActuator` | Embedded/StationSample4.cpp:65-70 | other topics change nothing; on the lock topic a set flag is cleared and the message swallowed, otherwise the servos follow `command == "true"`; it never publishes and never sets the flag |

## Left out

- Wi-Fi association, `delay(500)` and `delay(5000)` in `begin` and `_reconnect`, and every `Serial` print. These are hardware, timing and logging.
- `mqttClient.setServer`/`setCallback` in `begin`, and `loop()` delivering inbound messages and detecting a dead link. `loop()` is a logged request, a drop is `Mqtt.Client.Drop`, and delivery is `DeviceSession.MqttCallback` called directly.
- `DeviceSession.SmartDevice.Reconnect`: requires the connect script to hold a success. With none, the source retries forever, which a terminating model cannot express. `DeviceSession.SmartDevice.Update` has the same requirement.
- `LightCodec.GetRGB`: the COLOR branch hands the mapped hue, saturation and brightness to `ColorHSV`, a foreign HSV-to-RGB transform taken as a parameter. Only the DIMMABLE branch has properties.
- `ArduinoJson.AsBool`: ArduinoJson's `as<bool>()` on numbers, strings and other non-boolean values is not fixed. It is a caller-supplied function.
- `Arduino.MapInRange`: Arduino `map()` is kept abstract because its rounding differs between cores. Only the range and the endpoints are proved, and only for ranges whose 32-bit `long` arithmetic cannot overflow; what an overflowing `map()` returns is not modelled.
- The parsing inside `deserializeJson` and the 256-byte document capacity. These are library internals; the model starts from the parse outcome.
- `DeviceSession.MqttCallback`: Arduino `String` is a byte string. Each payload byte becomes the character with the same code, and no UTF-8 decoding happens.
- `deviceName` before `begin` is the empty string. In the source it is an uninitialised pointer.
- `Python.Lower`: folds only ASCII capitals. It is exact for the comparisons with "true" made here, but not for general Unicode text.
- `Python.ParseInt`: strips only the ASCII whitespace (space and tab through carriage return) and reads only ASCII digits. The non-ASCII whitespace `int()` also strips (such as U+0085 and U+00A0) and non-ASCII decimal digits are not modelled: the model rejects such text where Python accepts it. The integer-string length limit of newer Python versions is not modelled either.
- `Python.Truthy`: a float is false exactly when its text is `0.0` or `-0.0`. Float values are represented by their `str()` text and never computed on.
- `Bridge.Convert`: `float()` and `json.loads` are parameters returning a value or `None` for their exception. Floating point and JSON parsing are foreign.
- `Bridge.OnMessageLocal`: `msg.payload.decode()` is an optional string, with `None` for invalid UTF-8. The assignment into the cloud client is a recorded push, and an exception inside the cloud library is not modelled.
- `Bridge.BuildRouting`:
  - the `ArduinoCloudClient` constructor and `register` are foreign and assumed not to raise;
  - a registered client is recorded by account name;
  - `CloudWorker` threads (bridge.py:29-45) are concurrency.
- The YAML loading, the main connect loop with `time.sleep`, shutdown in bridge.py (lines 177-193 and 241-275), and the `on_write` lambda registration. These are I/O and plumbing; the callback itself is `Bridge.OnWrite`.
- `Bridge.OnWrite`: a missing configuration key raises `KeyError` out of the callback (bridge.py:55-58, outside any `try`); the model returns `None` (no publish) and does not model the exception. This happens for a FROM_CLOUD variable without `topic`, which is still registered with the callback (bridge.py:211-215).
- `Mqtt.Client.Publish`: PubSubClient's `publish` result, false also for a packet larger than its buffer, is not returned, because `publishTo` never reads it; an oversized publish is logged like any other.
- `OnWrite` takes the local client's state as a boolean, and a missing client (`local_client` is `None`) counts as not connected.
- Servo attachment, `pinMode`, `IrReceiver.begin`/`resume`, `digitalRead` and `analogRead`. These are hardware: the readings are parameters, and servo writes are logged effects.
- The raw IR data is taken as the 32-bit `unsigned long` that `mapCodeToButton` receives.
- `setLock` assigns `this.local` inside a free function (StationSample4.cpp:49), which is not valid C++. It is modelled as the evident intent, setting the global `local`.
- `readSensor` assigns the `int` result of `map()` to the enum `request` (StationSample4.cpp:61), which needs a cast in C++. It is modelled as the conversion to the enum value.
- `setLock` publishes the lock state on the door topic. It is modelled as written.
- `system_onMessage`, `setup` and `loop` of the two sketches. They only wire the functions above together.
- StationSample3.cpp and StationSample6.cpp are not part of this model. They only dispatch topics to outputs.
