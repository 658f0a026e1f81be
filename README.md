# Loex Xsmart register protocol, in Dafny

This project models the core of the Home Assistant integration for the Loex Xsmart
radiant heating and cooling controller. Each poll, the controller answers with a flat
table of integer registers (JSON keys `"t" + id`). The integration:

- decodes that table into a snapshot: the outdoor temperature, one circuit and 38 rooms,
  with every field either its value or "N/A";
- shows the snapshot as climate and sensor entities. A reading stabiliser rejects
  jumps of 20 units or more;
- turns user requests into single-register writes `"<register>=<value>"`;
- keeps an authenticated HTTP session. It re-authenticates once after a transport
  exception.

Modules (one file each):

- `Fields` (`fields.dfy`): `Option`, the `Field` type (value or "N/A") and `Outcome`,
  which stands for a Python property that returns or raises a TypeError. It also holds
  `Trunc`, Python's `int()` on a float.
- `Const` (`const.dfy`): `MAX_ROOMS`, `CONTROL_VALUE` and the three code tables of
  `const.py`.
- `Decimal` (`decimal.dfy`): `str(int)` for payload bodies, and reading it back.
- `LoexApi` (`loex_api.dfy`): the room register offset and the register layout. It has
  the decoder (`parse_*_data` and `extract_from_api_data`), its inverse `Encode` with
  the round trip, the four `set_*` payload encoders, and the validity filter shared by
  both platforms.
- `LoexSession` (`loex_session.dfy`): the `loex_api` object as a class. It has the
  credential fields, the `session` flag and a log of the requests sent, plus
  `authenticate`, `get_data`, `save_data` and scenario methods.
- `Stabiliser` (`stabiliser.dfy`): the rule of the `current_temperature`,
  `current_humidity` and `state` properties, and its behaviour over a run of readings.
- `Climate` (`climate.dfy`): the main-circuit and thermostat entities as classes. The
  mode and action mappings, the commands they issue and the pending-target latch are
  pure functions. `async_setup_entry` is a loop.
- `Sensor` (`sensor.dfy`): the outdoor temperature and room humidity sensors as
  classes, and the setup loop.

Modelling choices:

- Decoded tenths are exact reals (`raw / 10`). Python comparisons against "N/A" are
  modelled as they behave: equality is false, and arithmetic or ordering raises.
- The network, the clock and Home Assistant are parameters. Each session call is given
  the reply its request gets (`AuthReply`, `ReadReply`, `WriteReply`), and records what
  it sent in `events`.
- The season comes from registers 10042 and 10043, as `parse_circuit_data` does.
  Register 10043 is consulted only when 10042 is 1. Register 10105 is the circuit
  *state*, not the season.
- The stabiliser threshold `CONTROL_VALUE = 20` is compared with decoded values, so it
  is 20 decoded units: 200 raw tenths (`Stabiliser.ThresholdInTenths`).
- `climate.py` imports `LoexCircuitState` (climate.py:18-25), but `const.py` does not
  define it. As written, that import fails with an ImportError, so the climate platform
  never loads. The model assumes the import resolves. It takes the circuit state codes
  from the comment in `parse_circuit_data` (loex_api.py:155-159): 0 off, 1 heating or
  cooling by season, 2 unknown, 3 idle (`Climate.StateOff`, `StateActive`,
  `StateIdle`).

Consequences of the code that the proofs bring out:

- The room offset formula has no upper cap. Room 32's target write goes to 18001, the
  circuit mode register. Room 33's target write goes to 18011 (comfort set point) and
  its mode write to 18012 (eco set point).
- After a transport exception, a refused re-authentication leaves no session. Every
  later poll then fails before sending anything.
- The main circuit's `async_turn_on` tests `_hvac_mode`, which is never assigned after
  construction, so it never writes. The thermostat's `_room_mode` is never HEAT_COOL,
  so its `async_turn_on` can only write AUTO.
- The thermostat skips target writes by testing the circuit mode against the *room*
  codes AUTO (0) and OFF (3). Numerically these are the circuit's OFF and AUTO, so both
  entities skip the same modes.

## Model

| member | source | states |
|---|---|---|
| Fields.Trunc | custom_components/loex_xsmart/climate.py:134 | `int(x)` truncates toward zero: the result is within one of `x` and not beyond it, on either sign |
| Const.CircuitCode | custom_components/loex_xsmart/const.py:23-27 | every circuit mode has a code in 0..3 |
| Const.RoomCode | custom_components/loex_xsmart/const.py:31-35 | every room mode has a code in 0..3 |
| Const.SeasonCode | custom_components/loex_xsmart/const.py:39-41 | winter and summer are codes 0 and 1 |
| Const.CircuitModeOf | custom_components/loex_xsmart/const.py:23-27 | a code decodes exactly when it is in 0..3, and it is decoded to the mode whose code it is |
| Const.RoomModeOf | custom_components/loex_xsmart/const.py:31-35 | the same for the room table |
| Const.CodeTablesAreBijections | custom_components/loex_xsmart/const.py:23-35 | each table is injective, decoding inverts encoding, and each table's codes are exactly {0,1,2,3} |
| Const.ModeCodesAsymmetry | custom_components/loex_xsmart/const.py:23-35 | the tables agree on COMFORT and ECO and swap OFF and AUTO |
| Decimal.NatToString | custom_components/loex_xsmart/loex_api.py:282 | `str(n)` is a non-empty string of digits with no leading zero |
| Decimal.IntToString | custom_components/loex_xsmart/loex_api.py:282 | `str(i)` is digits with an optional leading minus |
| Decimal.NatRoundTrip | custom_components/loex_xsmart/loex_api.py:282 | the digits of `str(n)` have value `n` |
| Decimal.IntRoundTrip | custom_components/loex_xsmart/loex_api.py:282 | reading `str(i)` back gives `i`, negative numbers included |
| LoexApi.RoomOffset | custom_components/loex_xsmart/loex_api.py:202-204 | the block index skips two blocks after rooms 7, 17 and 27 |
| LoexApi.RoomAtOffset | custom_components/loex_xsmart/loex_api.py:202-204 | a block that belongs to a room names one of rooms 0..37, whose offset is that block |
| LoexApi.RoomOffsetStrictlyIncreasing | custom_components/loex_xsmart/loex_api.py:202-204 | the offset is strictly increasing in the room id |
| LoexApi.RoomOffsetInverse | custom_components/loex_xsmart/loex_api.py:202-204 | every room 0..37 is recovered from its block |
| LoexApi.RoomRegistersDistinct | custom_components/loex_xsmart/loex_api.py:200-256 | two room read registers coincide only for the same room and the same field |
| LoexApi.Raw | custom_components/loex_xsmart/loex_api.py:150-153 | a copied field is the register value, and "N/A" exactly when the register is absent |
| LoexApi.Tenths | custom_components/loex_xsmart/loex_api.py:101-104 | a scaled field times 10 is the register value, and "N/A" exactly when the register is absent |
| LoexApi.ParseExternal | custom_components/loex_xsmart/loex_api.py:97-106 | the outdoor temperature is register 10011 in tenths, or "N/A" |
| LoexApi.DecodeSeason | custom_components/loex_xsmart/loex_api.py:180-186 | summer iff 10042 is 1 and 10043 is 0; "N/A" iff 10042 is absent, or it is 1 and 10043 is absent; winter in every other case |
| LoexApi.ParseCircuit | custom_components/loex_xsmart/loex_api.py:108-188 | each of the eleven circuit fields reads its own register, copied or in tenths, and the season is decoded as above |
| LoexApi.ParseRoom | custom_components/loex_xsmart/loex_api.py:190-258 | the name is at 20201 + 7·id, and the other six fields at their base + 10·offset |
| LoexApi.Decode | custom_components/loex_xsmart/loex_api.py:260-276 | the snapshot always has 38 room records |
| LoexApi.ExtractFromApiData | custom_components/loex_xsmart/loex_api.py:260-276 | the loop over `range(MAX_ROOMS)` builds exactly the decoded snapshot |
| LoexApi.DecodeEmptyTable | custom_components/loex_xsmart/loex_api.py:260-276 | decoding never fails: an empty table gives 38 rooms and a circuit whose fields are all "N/A" |
| LoexApi.SeasonBack | custom_components/loex_xsmart/loex_api.py:180-186 | the two season registers written for a season are decoded back as that season |
| LoexApi.CircuitBack | custom_components/loex_xsmart/loex_api.py:97-188 | the outdoor and circuit records are decoded back from their own registers |
| LoexApi.RoomBack | custom_components/loex_xsmart/loex_api.py:190-258 | every room record is decoded back from its own registers |
| LoexApi.DecodeEncode | custom_components/loex_xsmart/loex_api.py:260-276 | round trip: any snapshot of whole tenths is decoded from its register table, so no two fields share a register |
| LoexApi.PayloadTextRoundTrip | custom_components/loex_xsmart/loex_api.py:282 | a body `"<register>=<value>"` splits back into the same register and value |
| LoexApi.RoomTargetPayload | custom_components/loex_xsmart/loex_api.py:278-284 | the correction is written to 17621 + 10·offset |
| LoexApi.RoomModePayload | custom_components/loex_xsmart/loex_api.py:295-301 | the room mode code is written to 17622 + 10·offset |
| LoexApi.CircuitModePayload | custom_components/loex_xsmart/loex_api.py:303-307 | the circuit mode code is written to 18001 |
| LoexApi.CommandPayload | custom_components/loex_xsmart/loex_api.py:278-307 | the payload of each `set_*` method: room target and room mode at the room's write registers, circuit mode at 18001, and circuit target at 18011 or 18012. There is no payload iff it is a circuit target in a mode other than 1 or 2 |
| LoexApi.CircuitTargetPayload | custom_components/loex_xsmart/loex_api.py:286-293 | a payload exists iff the mode is 1 or 2: 18011 for comfort, 18012 for eco |
| LoexApi.WriteBlockMatchesReadBlock | custom_components/loex_xsmart/loex_api.py:278-301 | a room's write registers sit 6600 above its read block |
| LoexApi.RoomWriteRegistersDistinct | custom_components/loex_xsmart/loex_api.py:278-301 | writes of different rooms, or of the two write kinds, never share a register |
| LoexApi.RoomWritesAvoidCircuitRegisters | custom_components/loex_xsmart/loex_api.py:278-307 | rooms 0..31 never write to 18001, 18011 or 18012 |
| LoexApi.RoomWritesReachCircuitRegisters | custom_components/loex_xsmart/loex_api.py:278-307 | room 32's target write hits 18001, and room 33's writes hit 18011 and 18012 |
| LoexApi.DataKeys | custom_components/loex_xsmart/loex_api.py:262-272 | the aggregated data has "external", "circuit" and one key per room |
| LoexApi.ActiveAmongMembers | custom_components/loex_xsmart/climate.py:57 | a room is selected from a key list iff its key is there and its validity is 6 |
| LoexApi.ActiveAmongIncreasing | custom_components/loex_xsmart/climate.py:42-65 | the rooms are selected in strictly increasing order |
| LoexApi.ActiveRoomsExactly | custom_components/loex_xsmart/sensor.py:37-55 | the selected rooms are exactly those whose validity is 6, each once, in room order |
| LoexSession.Api.constructor | custom_components/loex_xsmart/loex_api.py:23-31 | no credentials, no token, no session |
| LoexSession.Api.Authenticate | custom_components/loex_xsmart/loex_api.py:33-58 | one handshake. On status 200, stores the four credentials and the token and returns True. Otherwise the session is dropped and False is returned; if the request raises, the exception escapes with the session open. Credentials are unchanged in both failure cases |
| LoexSession.Api.Reconnect | custom_components/loex_xsmart/loex_api.py:72-75 | it closes the session and repeats the handshake once with the stored credentials. The error is CannotConnect, or the handshake's own exception |
| LoexSession.Api.GetData | custom_components/loex_xsmart/loex_api.py:60-75 | with no device id or session, fails before sending. A response is decoded. An exception costs one poll, one close and one handshake; the token is replaced iff that handshake answers 200 |
| LoexSession.Api.SaveData | custom_components/loex_xsmart/loex_api.py:77-95 | one POST with basic auth. Status 200 succeeds, any other is WriteToRemoteDeviceError with no reconnect. An exception reconnects once, and the token is replaced iff that handshake answers 200 |
| LoexSession.Api.Send | custom_components/loex_xsmart/loex_api.py:278-307 | a command with no payload sends nothing. Otherwise it is `save_data` of the payload text. Unconnected, it fails before sending. A 200 succeeds, and any other status is WriteToRemoteDeviceError after exactly one POST. An exception adds a close and a handshake, replacing the token iff that handshake answers 200 |
| LoexSession.PollBeforeHandshake | custom_components/loex_xsmart/loex_api.py:60-71 | a poll on a fresh object sends nothing and fails |
| LoexSession.PollDropReauthenticatesOnce | custom_components/loex_xsmart/loex_api.py:64-75 | a dropped poll fails with CannotConnect, and the requests are exactly the poll, a close and one handshake with the stored credentials |
| LoexSession.StuckAfterRefusedReauth | custom_components/loex_xsmart/loex_api.py:33-75 | after a refused re-authentication, every later poll fails without a request |
| LoexSession.RejectedWriteDoesNotReconnect | custom_components/loex_xsmart/loex_api.py:77-95 | a write answered with a non-200 status is exactly one POST |
| Stabiliser.Adopt | custom_components/loex_xsmart/climate.py:228-232 | the reading is adopted when nothing is kept or it is within the threshold; otherwise the kept value stays |
| Stabiliser.Stabilise | custom_components/loex_xsmart/sensor.py:82-91 | with nothing kept, any reading is adopted, even "N/A". With "N/A" on either side afterwards the property raises. Otherwise `Adopt` applies |
| Stabiliser.ThresholdInTenths | custom_components/loex_xsmart/sensor.py:88 | on raw registers the threshold is 200 tenths |
| Stabiliser.Run | custom_components/loex_xsmart/sensor.py:82-91 | one shown value per reading |
| Stabiliser.RunStepsBounded | custom_components/loex_xsmart/sensor.py:82-91 | the shown value never moves by the threshold or more between reads |
| Stabiliser.RunShowsOnlyReadings | custom_components/loex_xsmart/sensor.py:82-91 | every shown value is a reading or the value kept at the start |
| Stabiliser.RunHoldsAgainstLargeChange | custom_components/loex_xsmart/sensor.py:82-91 | while readings stay the threshold or more away, the kept value is shown forever |
| Climate.CircuitHvacMode | custom_components/loex_xsmart/climate.py:163-176 | OFF iff mode 0 and AUTO iff mode 3. Otherwise HEAT iff winter and COOL iff summer. Never HEAT_COOL |
| Climate.CircuitHvacAction | custom_components/loex_xsmart/climate.py:204-222 | IDLE iff state 3 and OFF iff state 0. HEATING or COOLING iff state 1 in winter or in summer. None otherwise |
| Climate.PresetFor | custom_components/loex_xsmart/climate.py:258-267 | codes 1 and 2 select COMFORT and ECO; anything else keeps the previous preset |
| Climate.RoomPresetReadsRoomCodes | custom_components/loex_xsmart/climate.py:429-438 | testing room modes against circuit codes still reads room COMFORT and ECO correctly |
| Climate.RoomHvacMode | custom_components/loex_xsmart/climate.py:406-427 | circuit state 0 forces OFF. Otherwise room code 3 is OFF and 0 is AUTO, and other codes follow the season or keep the previous mode |
| Climate.SameCodeDifferentMode | custom_components/loex_xsmart/climate.py:406-427 | raw 0 is OFF on the circuit but AUTO on a running room, and raw 3 the reverse |
| Climate.RoomHvacAction | custom_components/loex_xsmart/climate.py:475-492 | OFF iff the circuit is off. It raises iff the valve is "N/A". COOLING or HEATING iff the valve is open in summer or in winter. IDLE otherwise |
| Climate.RoomMinTemp | custom_components/loex_xsmart/climate.py:450-453 | the circuit target minus 4; raises iff the target is "N/A" |
| Climate.RoomMaxTemp | custom_components/loex_xsmart/climate.py:455-458 | the circuit target plus 4; raises iff the target is "N/A" |
| Climate.CircuitSetTemperature | custom_components/loex_xsmart/climate.py:124-136 | in mode 0 or 3 nothing is sent. Otherwise a circuit target command for the current mode, whose value is `t·10` truncated toward zero (stated by magnitude and sign) |
| Climate.CircuitTargetWriteThenRead | custom_components/loex_xsmart/climate.py:124-136 | a set point in whole tenths sent in COMFORT or ECO is what the decoder reads back from that mode's register |
| Climate.CircuitTargetUnknownModeSendsNothing | custom_components/loex_xsmart/loex_api.py:286-293 | in a mode outside 0..3, or "N/A", the request reaches the API but no payload is bound |
| Climate.RoomCorrection | custom_components/loex_xsmart/climate.py:392-399 | `int((t - circuit target)·10)`: truncation toward zero, stated by magnitude and sign |
| Climate.RoomCorrectionExact | custom_components/loex_xsmart/climate.py:392-399 | for temperatures of whole tenths the correction is the exact difference in tenths |
| Climate.RoomCorrectionWithinRange | custom_components/loex_xsmart/climate.py:450-458 | a request within the advertised range needs a correction in -40..40 |
| Climate.RoomGuardIsCircuitGuard | custom_components/loex_xsmart/climate.py:385-390 | the thermostat and the circuit skip target writes in exactly the same circuit modes |
| Climate.CircuitSetHvacMode | custom_components/loex_xsmart/climate.py:138-161 | a circuit mode command iff OFF, HEAT_COOL or AUTO; any other mode sends nothing |
| Climate.RoomSetHvacMode | custom_components/loex_xsmart/climate.py:337-361 | a room mode command for this room iff OFF, HEAT_COOL or AUTO |
| Climate.CircuitTurnOff | custom_components/loex_xsmart/climate.py:120-122 | the same command as selecting OFF, written as 0 to 18001 |
| Climate.RoomTurnOff | custom_components/loex_xsmart/climate.py:379-383 | the same command as selecting OFF, written as 3 to the room's mode register |
| Climate.CircuitModeWriteThenRead | custom_components/loex_xsmart/climate.py:138-176 | the code written for OFF or AUTO reads back as OFF or AUTO. HEAT_COOL reads back as heating or cooling by season, with the preset that was asked |
| Climate.RoomModeWriteThenRead | custom_components/loex_xsmart/climate.py:337-427 | the same for a room under a running circuit, in room codes |
| Climate.LatchStep | custom_components/loex_xsmart/climate.py:506-519 | while pending, the requested value is shown, and the latch opens iff the device reports it; otherwise the device value is shown |
| Climate.LatchRun | custom_components/loex_xsmart/climate.py:506-519 | one shown target per report |
| Climate.LatchHoldsUntilReported | custom_components/loex_xsmart/climate.py:506-519 | the requested value is shown up to and including the first report of it |
| Climate.LatchReleased | custom_components/loex_xsmart/climate.py:506-519 | once the latch is open, the reports are shown as they come |
| Climate.MainCircuit.constructor | custom_components/loex_xsmart/climate.py:73-102 | nothing kept, `_hvac_mode` OFF, preset COMFORT |
| Climate.MainCircuit.CurrentTemperature | custom_components/loex_xsmart/climate.py:224-234 | the home temperature through the stabiliser, keeping what it adopts |
| Climate.MainCircuit.CurrentHumidity | custom_components/loex_xsmart/climate.py:246-256 | the home humidity through the stabiliser |
| Climate.MainCircuit.PresetMode | custom_components/loex_xsmart/climate.py:258-267 | the stored preset is updated from the circuit mode and returned |
| Climate.MainCircuit.TurnOn | custom_components/loex_xsmart/climate.py:104-118 | issues nothing, because `_hvac_mode` is OFF |
| Climate.Thermostat.constructor | custom_components/loex_xsmart/climate.py:303-335 | nothing kept or pending, remembered target -1, COMFORT, `_room_mode` OFF |
| Climate.Thermostat.HvacModeProperty | custom_components/loex_xsmart/climate.py:406-427 | `_room_mode` becomes the mapped mode and is returned; it stays other than HEAT_COOL |
| Climate.Thermostat.PresetMode | custom_components/loex_xsmart/climate.py:429-438 | the stored preset is updated from the room mode and returned |
| Climate.Thermostat.CurrentTemperature | custom_components/loex_xsmart/climate.py:494-504 | the room temperature through the stabiliser |
| Climate.Thermostat.CurrentHumidity | custom_components/loex_xsmart/climate.py:521-531 | the room humidity through the stabiliser |
| Climate.Thermostat.TargetTemperature | custom_components/loex_xsmart/climate.py:506-519 | one latch step on the reported room target |
| Climate.Thermostat.SetTemperature | custom_components/loex_xsmart/climate.py:385-399 | nothing in circuit mode 0 or 3. It raises, before latching, when the circuit target is "N/A". Otherwise it latches `t` and sends the truncated correction in tenths |
| Climate.CircuitTurnOn | custom_components/loex_xsmart/climate.py:104-118 | a remembered HEAT_COOL sends the preset's circuit code, and AUTO sends code 3. Any other remembered mode sends nothing |
| Climate.RoomTurnOn | custom_components/loex_xsmart/climate.py:363-377 | the same in room codes: the preset's code for HEAT_COOL, 0 for AUTO, nothing otherwise |
| Climate.Thermostat.TurnOn | custom_components/loex_xsmart/climate.py:363-377 | sends at most room AUTO, since `_room_mode` is never HEAT_COOL |
| Climate.SetupEntities | custom_components/loex_xsmart/climate.py:32-67 | the main circuit, then one thermostat per room whose validity is 6, in room order |
| Climate.SetupCreatesActiveThermostats | custom_components/loex_xsmart/climate.py:42-65 | the main circuit is always created, and a room's thermostat iff its validity is 6 |
| Sensor.TemperatureSensor.constructor | custom_components/loex_xsmart/sensor.py:63-80 | nothing kept |
| Sensor.TemperatureSensor.State | custom_components/loex_xsmart/sensor.py:82-91 | the outdoor temperature through the stabiliser, keeping what it adopts |
| Sensor.HumiditySensor.constructor | custom_components/loex_xsmart/sensor.py:127-146 | bound to its room, nothing kept |
| Sensor.HumiditySensor.State | custom_components/loex_xsmart/sensor.py:148-157 | the room humidity through the stabiliser |
| Sensor.TwoHumidityReads | custom_components/loex_xsmart/sensor.py:148-157 | a fresh sensor adopts its first reading, raises after a first "N/A", and adopts a second reading only within the threshold |
| Sensor.SetupEntities | custom_components/loex_xsmart/sensor.py:17-57 | the outdoor sensor, then one humidity sensor per room whose validity is 6, in room order |
| Sensor.SetupCreatesActiveSensors | custom_components/loex_xsmart/sensor.py:37-55 | the outdoor sensor first, and a humidity sensor iff the room's validity is 6, in increasing room order |

## Left out

- HTTP, JSON, URL quoting, timeouts and `requests.Session` are not modelled. Each
  request's outcome is a parameter, and the session is a flag.
- The coordinator, the config flow, the base entity class and `__init__.py` are not
  part of this model, and neither is the update interval. Commands end at
  `LoexSession.Api.Send`.
- Floating point is not modelled. Decoded values are exact reals, so the rounding of
  `raw / 10` and of `t * 10` in floating point is not captured.
- JSON keys are the register id rather than the string `"t" + id`. Names (20001,
  20201 + 7·id) are kept as the raw integers the controller sends.
- Modes are compared as integer codes. Python's comparison of an integer with a
  `StrEnum` member as written would be false; the model takes the intended
  comparison.
- The ImportError of `from .const import LoexCircuitState` is not modelled: the model
  assumes the import resolves, with the state codes of loex_api.py:155-159.
- Logging is not modelled, and neither is the warning for an unsupported HVAC mode.
- The thermostat's `async_set_preset_mode` is not modelled, because it only logs.
- Constant or pass-through properties are not modelled: icon, unit, name, id,
  unique id, supported features, the hvac and preset lists, and the circuit target
  temperature and target humidity. They carry no logic. The circuit minimum and
  maximum are recorded as the constants `Climate.CircuitMinTemp` (10.0) and
  `Climate.CircuitMaxTemp` (30.0); no other member depends on them.
- A `set_temperature` call without a `temperature` argument is not modelled: the
  temperature is always a number.
- Asynchrony and concurrent property reads are not modelled. Each method is one
  uninterrupted step.
