/** The climate platform: the main circuit entity and one thermostat per active room,
    reading the decoded snapshot and turning user requests into commands. */
module Climate {
  import opened Fields
  import opened Const
  import opened LoexApi
  import opened Stabiliser

  datatype HvacMode = Off | Heat | Cool | HeatCool | Auto
  datatype HvacAction = ActionOff | Heating | Cooling | Idle
  datatype Preset = Comfort | Eco

  /** Codes of the circuit state register 10105: 0 off, 1 heating or cooling
      (by season), 2 unknown, 3 idle. */
  const StateOff := 0
  const StateActive := 1
  const StateIdle := 3

  /** What a user request does: nothing, one command to the coordinator, or a
      TypeError before anything is sent. */
  datatype Effect = NoWrite | Issue(cmd: Command) | Fails

  // ---------------------------------------------------------------------------
  // Read side of the main circuit

  predicate CircuitOffOrAuto(mode: Field<int>) {
    mode == Available(CircuitCode(CircuitOff)) || mode == Available(CircuitCode(CircuitAuto))
  }

  /** `hvac_mode` of the main circuit; None is Python's None. */
  function CircuitHvacMode(mode: Field<int>, season: Field<Season>): (m: Option<HvacMode>)
    ensures m == Some(Off) <==> mode == Available(CircuitCode(CircuitOff))
    ensures m == Some(Auto) <==> mode == Available(CircuitCode(CircuitAuto))
    ensures m == Some(Heat) <==> !CircuitOffOrAuto(mode) && season == Available(Winter)
    ensures m == Some(Cool) <==> !CircuitOffOrAuto(mode) && season == Available(Summer)
    ensures m != Some(HeatCool)
  {
    if mode == Available(CircuitCode(CircuitOff)) then Some(Off)
    else if mode == Available(CircuitCode(CircuitAuto)) then Some(Auto)
    else if season == Available(Winter) then Some(Heat)
    else if season == Available(Summer) then Some(Cool)
    else None
  }

  /** `hvac_action` of the main circuit; None is Python's None. */
  function CircuitHvacAction(state: Field<int>, season: Field<Season>): (a: Option<HvacAction>)
    ensures a == Some(Idle) <==> state == Available(StateIdle)
    ensures a == Some(ActionOff) <==> state == Available(StateOff)
    ensures a == Some(Heating) <==> state == Available(StateActive) && season == Available(Winter)
    ensures a == Some(Cooling) <==> state == Available(StateActive) && season == Available(Summer)
  {
    if state == Available(StateIdle) then Some(Idle)
    else if state == Available(StateActive) && season == Available(Summer) then Some(Cooling)
    else if state == Available(StateActive) && season == Available(Winter) then Some(Heating)
    else if state == Available(StateOff) then Some(ActionOff)
    else None
  }

  /** `preset_mode` of either entity: mode codes 1 and 2 select the preset, any other
      value keeps the previous one. */
  function PresetFor(previous: Preset, mode: Field<int>): (p: Preset)
    ensures mode == Available(CircuitCode(CircuitComfort)) ==> p == Comfort
    ensures mode == Available(CircuitCode(CircuitEco)) ==> p == Eco
    ensures !(mode == Available(CircuitCode(CircuitComfort)) || mode == Available(CircuitCode(CircuitEco))) ==>
              p == previous
  {
    if mode == Available(CircuitCode(CircuitComfort)) then Comfort
    else if mode == Available(CircuitCode(CircuitEco)) then Eco
    else previous
  }

  /** The thermostat compares its room mode against the circuit codes; because the two
      tables agree on COMFORT and ECO this reads the room codes correctly. */
  lemma RoomPresetReadsRoomCodes(previous: Preset, roomMode: Field<int>)
    ensures roomMode == Available(RoomCode(RoomComfort)) ==> PresetFor(previous, roomMode) == Comfort
    ensures roomMode == Available(RoomCode(RoomEco)) ==> PresetFor(previous, roomMode) == Eco
    ensures roomMode == Available(RoomCode(RoomOff)) || roomMode == Available(RoomCode(RoomAuto)) ==>
              PresetFor(previous, roomMode) == previous
  {
    ModeCodesAsymmetry();
  }

  const CircuitMinTemp: real := 10.0
  const CircuitMaxTemp: real := 30.0

  // ---------------------------------------------------------------------------
  // Read side of a thermostat

  /** `hvac_mode` of a thermostat, as the new value of `_room_mode`. */
  function RoomHvacMode(previous: HvacMode, state: Field<int>, roomMode: Field<int>, season: Field<Season>): (m: HvacMode)
    ensures state == Available(StateOff) ==> m == Off
    ensures state != Available(StateOff) && roomMode == Available(RoomCode(RoomOff)) ==> m == Off
    ensures state != Available(StateOff) && roomMode == Available(RoomCode(RoomAuto)) ==> m == Auto
    ensures state != Available(StateOff) && roomMode != Available(RoomCode(RoomOff)) &&
            roomMode != Available(RoomCode(RoomAuto)) ==>
              m == (match season
                    case Available(Winter) => Heat
                    case Available(Summer) => Cool
                    case NotAvailable => previous)
  {
    if state == Available(StateOff) then Off
    else if roomMode == Available(RoomCode(RoomOff)) then Off
    else if roomMode == Available(RoomCode(RoomAuto)) then Auto
    else if season == Available(Winter) then Heat
    else if season == Available(Summer) then Cool
    else previous
  }

  /** The raw code 0 means OFF for the circuit and AUTO for a room (with the circuit
      running), and 3 the other way round. */
  lemma SameCodeDifferentMode(previous: HvacMode, season: Field<Season>)
    ensures CircuitHvacMode(Available(0), season) == Some(Off)
    ensures RoomHvacMode(previous, Available(StateActive), Available(0), season) == Auto
    ensures CircuitHvacMode(Available(3), season) == Some(Auto)
    ensures RoomHvacMode(previous, Available(StateActive), Available(3), season) == Off
  {
  }

  /** `hvac_action` of a thermostat; `"N/A" > 0` raises. */
  function RoomHvacAction(state: Field<int>, season: Field<Season>, valve: Field<int>): (a: Outcome<HvacAction>)
    ensures a == Returns(ActionOff) <==> state == Available(StateOff)
    ensures a == Raises <==> state != Available(StateOff) && valve.NotAvailable?
    ensures a == Returns(Cooling) <==>
              state != Available(StateOff) && valve.Available? && valve.value > 0 && season == Available(Summer)
    ensures a == Returns(Heating) <==>
              state != Available(StateOff) && valve.Available? && valve.value > 0 && season == Available(Winter)
    ensures a == Returns(Idle) <==>
              state != Available(StateOff) && valve.Available? && (valve.value <= 0 || season.NotAvailable?)
  {
    if state == Available(StateOff) then Returns(ActionOff)
    else if valve.NotAvailable? then Raises
    else if valve.value <= 0 then Returns(Idle)
    else
      match season
      case Available(Summer) => Returns(Cooling)
      case Available(Winter) => Returns(Heating)
      case NotAvailable => Returns(Idle)
  }

  /** `min_temp` and `max_temp` of a thermostat: four degrees either side of the
      circuit target; "N/A" - 4 raises. */
  function RoomMinTemp(circuitTarget: Field<real>): (t: Outcome<real>)
    ensures t.Raises? <==> circuitTarget.NotAvailable?
    ensures t.Returns? ==> t.value + 4.0 == circuitTarget.value
  {
    if circuitTarget.NotAvailable? then Raises else Returns(circuitTarget.value - 4.0)
  }

  function RoomMaxTemp(circuitTarget: Field<real>): (t: Outcome<real>)
    ensures t.Raises? <==> circuitTarget.NotAvailable?
    ensures t.Returns? ==> t.value - 4.0 == circuitTarget.value
  {
    if circuitTarget.NotAvailable? then Raises else Returns(circuitTarget.value + 4.0)
  }

  // ---------------------------------------------------------------------------
  // Target temperature requests

  /** The circuit's `async_set_temperature`: nothing in OFF or AUTO, otherwise the
      requested temperature in whole tenths for the current mode. */
  function CircuitSetTemperature(mode: Field<int>, temperature: real): (e: Effect)
    ensures CircuitOffOrAuto(mode) ==> e == NoWrite
    ensures !CircuitOffOrAuto(mode) ==>
              e.Issue? && e.cmd.SetCircuitTargetTemperature? && e.cmd.mode == mode &&
              Abs(e.cmd.target as real) <= Abs(temperature * 10.0) < Abs(e.cmd.target as real) + 1.0 &&
              (temperature > 0.0 ==> e.cmd.target >= 0) && (temperature < 0.0 ==> e.cmd.target <= 0)
  {
    if CircuitOffOrAuto(mode) then NoWrite
    else Issue(SetCircuitTargetTemperature(mode, Trunc(temperature * 10.0)))
  }

  /** A set point of whole tenths written in COMFORT mode is what the decoder then
      reads back from the comfort register; in ECO, from the eco register. */
  lemma CircuitTargetWriteThenRead(table: RegisterTable, tenths: int, comfort: bool)
    ensures var mode := Available(CircuitCode(if comfort then CircuitComfort else CircuitEco));
            var e := CircuitSetTemperature(mode, tenths as real / 10.0);
            && e.Issue? && CommandPayload(e.cmd).Some?
            && var p := CommandPayload(e.cmd).value;
               var decoded := ParseCircuit(table[p.register := p.value]);
               (if comfort then decoded.comfortTemperature else decoded.ecoTemperature) ==
                 Available(tenths as real / 10.0)
  {
    assert tenths as real / 10.0 * 10.0 == tenths as real;
    TruncOfInteger(tenths);
  }

  /** In a mode other than 0 to 3 (or "N/A") the request is passed on but no payload
      is ever bound, so nothing reaches the controller. */
  lemma CircuitTargetUnknownModeSendsNothing(mode: Field<int>, temperature: real)
    requires mode.NotAvailable? || mode.value < 0 || mode.value > 3
    ensures CircuitSetTemperature(mode, temperature).Issue?
    ensures CommandPayload(CircuitSetTemperature(mode, temperature).cmd).None?
  {
  }

  /** The room target register takes a correction against the circuit target, in
      tenths, truncated like Python's `int`. */
  function RoomCorrection(temperature: real, circuitTarget: real): (c: int)
    ensures Abs(c as real) <= Abs((temperature - circuitTarget) * 10.0) < Abs(c as real) + 1.0
    ensures temperature > circuitTarget ==> c >= 0
    ensures temperature < circuitTarget ==> c <= 0
  {
    Trunc((temperature - circuitTarget) * 10.0)
  }

  /** For temperatures of whole tenths the correction is exact. */
  lemma RoomCorrectionExact(a: int, b: int)
    ensures RoomCorrection(a as real / 10.0, b as real / 10.0) == a - b
  {
    assert (a as real / 10.0 - b as real / 10.0) * 10.0 == (a - b) as real;
    TruncOfInteger(a - b);
  }

  /** A temperature inside the thermostat's advertised range needs a correction of
      at most 40 tenths either way. */
  lemma RoomCorrectionWithinRange(temperature: real, circuitTarget: Field<real>)
    requires RoomMinTemp(circuitTarget).Returns? && RoomMaxTemp(circuitTarget).Returns?
    requires RoomMinTemp(circuitTarget).value <= temperature <= RoomMaxTemp(circuitTarget).value
    ensures -40 <= RoomCorrection(temperature, circuitTarget.value) <= 40
  {
  }

  predicate RoomGuardSkips(circuitMode: Field<int>) {
    circuitMode == Available(RoomCode(RoomAuto)) || circuitMode == Available(RoomCode(RoomOff))
  }

  /** The thermostat tests the circuit mode against the room codes AUTO (0) and
      OFF (3); numerically these are the circuit's OFF and AUTO, so both entities
      skip the same modes. */
  lemma RoomGuardIsCircuitGuard(circuitMode: Field<int>)
    ensures RoomGuardSkips(circuitMode) <==> CircuitOffOrAuto(circuitMode)
  {
    ModeCodesAsymmetry();
  }

  // ---------------------------------------------------------------------------
  // Mode requests

  /** The circuit's `async_set_hvac_mode`; None for an unsupported mode (a warning). */
  function CircuitSetHvacMode(hvac: HvacMode, preset: Preset): (c: Option<Command>)
    ensures c.Some? <==> hvac in {Off, HeatCool, Auto}
    ensures c.Some? ==> c.value.SetCircuitMode?
  {
    match hvac
    case Off => Some(SetCircuitMode(CircuitCode(CircuitOff)))
    case HeatCool =>
      Some(SetCircuitMode(CircuitCode(if preset == Comfort then CircuitComfort else CircuitEco)))
    case Auto => Some(SetCircuitMode(CircuitCode(CircuitAuto)))
    case _ => None
  }

  /** The thermostat's `async_set_hvac_mode`, in room codes. */
  function RoomSetHvacMode(roomId: int, hvac: HvacMode, preset: Preset): (c: Option<Command>)
    ensures c.Some? <==> hvac in {Off, HeatCool, Auto}
    ensures c.Some? ==> c.value.SetRoomMode? && c.value.roomId == roomId
  {
    match hvac
    case Off => Some(SetRoomMode(roomId, RoomCode(RoomOff)))
    case HeatCool =>
      Some(SetRoomMode(roomId, RoomCode(if preset == Comfort then RoomComfort else RoomEco)))
    case Auto => Some(SetRoomMode(roomId, RoomCode(RoomAuto)))
    case _ => None
  }

  /** `async_turn_off` of the main circuit: circuit code 0 to register 18001. */
  function CircuitTurnOff(): (c: Command)
    ensures forall preset :: CircuitSetHvacMode(Off, preset) == Some(c)
    ensures CommandPayload(c) == Some(Payload(CircuitModeWriteRegister, 0))
  {
    SetCircuitMode(CircuitCode(CircuitOff))
  }

  /** `async_turn_off` of a thermostat: room code 3 to the room's mode register. */
  function RoomTurnOff(roomId: int): (c: Command)
    ensures forall preset :: RoomSetHvacMode(roomId, Off, preset) == Some(c)
    ensures CommandPayload(c) == Some(Payload(RoomRegister(RoomModeWriteBase, roomId), 3))
  {
    SetRoomMode(roomId, RoomCode(RoomOff))
  }

  /** Write then read: once the controller reports the code a mode request wrote,
      the entity shows OFF and AUTO as requested and HEAT_COOL as heating or cooling
      by season, with the preset that was asked for. */
  lemma CircuitModeWriteThenRead(hvac: HvacMode, preset: Preset, season: Field<Season>)
    requires CircuitSetHvacMode(hvac, preset).Some?
    ensures var code := Available(CircuitSetHvacMode(hvac, preset).value.circuitMode);
            && (hvac == Off ==> CircuitHvacMode(code, season) == Some(Off))
            && (hvac == Auto ==> CircuitHvacMode(code, season) == Some(Auto))
            && (hvac == HeatCool ==>
                  CircuitHvacMode(code, season) ==
                    (match season case Available(Winter) => Some(Heat)
                                  case Available(Summer) => Some(Cool)
                                  case NotAvailable => None)
                  && PresetFor(Eco, code) == preset && PresetFor(Comfort, code) == preset)
  {
    if hvac == HeatCool {
      match season {
        case NotAvailable =>
        case Available(sn) => match sn { case Winter => case Summer => }
      }
    }
  }

  lemma RoomModeWriteThenRead(roomId: int, hvac: HvacMode, preset: Preset, previous: HvacMode,
                              season: Field<Season>)
    requires RoomSetHvacMode(roomId, hvac, preset).Some?
    ensures var code := Available(RoomSetHvacMode(roomId, hvac, preset).value.roomMode);
            && (hvac == Off ==> RoomHvacMode(previous, Available(StateActive), code, season) == Off)
            && (hvac == Auto ==> RoomHvacMode(previous, Available(StateActive), code, season) == Auto)
            && (hvac == HeatCool ==>
                  RoomHvacMode(previous, Available(StateActive), code, season) ==
                    (match season case Available(Winter) => Heat
                                  case Available(Summer) => Cool
                                  case NotAvailable => previous)
                  && PresetFor(Eco, code) == preset && PresetFor(Comfort, code) == preset)
  {
    if hvac == HeatCool {
      match season {
        case NotAvailable =>
        case Available(sn) => match sn { case Winter => case Summer => }
      }
    }
  }

  /** `async_turn_on` of either entity, from the remembered HVAC mode and preset. */
  function CircuitTurnOn(remembered: HvacMode, preset: Preset): (c: Option<Command>)
    ensures remembered == HeatCool ==>
              c == Some(SetCircuitMode(CircuitCode(if preset == Comfort then CircuitComfort else CircuitEco)))
    ensures remembered == Auto ==> c == Some(SetCircuitMode(CircuitCode(CircuitAuto)))
    ensures remembered !in {HeatCool, Auto} ==> c.None?
  {
    if remembered == HeatCool || remembered == Auto then CircuitSetHvacMode(remembered, preset) else None
  }

  function RoomTurnOn(roomId: int, remembered: HvacMode, preset: Preset): (c: Option<Command>)
    ensures remembered == HeatCool ==>
              c == Some(SetRoomMode(roomId, RoomCode(if preset == Comfort then RoomComfort else RoomEco)))
    ensures remembered == Auto ==> c == Some(SetRoomMode(roomId, RoomCode(RoomAuto)))
    ensures remembered !in {HeatCool, Auto} ==> c.None?
  {
    if remembered == HeatCool || remembered == Auto then RoomSetHvacMode(roomId, remembered, preset) else None
  }

  // ---------------------------------------------------------------------------
  // The pending-target latch of a thermostat

  /** One reading of `target_temperature`: while a request is pending the requested
      value is shown, and the latch opens once the controller reports it. */
  function LatchStep(pending: bool, requested: real, reported: Field<real>): (r: (Field<real>, bool))
    ensures pending ==> r.0 == Available(requested) && (r.1 <==> reported != Available(requested))
    ensures !pending ==> r.0 == reported && !r.1
  {
    if pending then (Available(requested), reported != Available(requested)) else (reported, false)
  }

  /** The values shown over a sequence of reported targets. */
  function LatchRun(pending: bool, requested: real, reports: seq<Field<real>>): (shown: seq<Field<real>>)
    ensures |shown| == |reports|
    decreases |reports|
  {
    if reports == [] then []
    else
      var step := LatchStep(pending, requested, reports[0]);
      [step.0] + LatchRun(step.1, requested, reports[1..])
  }

  /** The requested value is shown up to and including the first report of it. */
  lemma {:induction false} LatchHoldsUntilReported(requested: real, reports: seq<Field<real>>, n: nat)
    requires n < |reports|
    requires forall i :: 0 <= i < n ==> reports[i] != Available(requested)
    ensures forall i :: 0 <= i <= n ==> LatchRun(true, requested, reports)[i] == Available(requested)
    decreases n
  {
    var run := LatchRun(true, requested, reports);
    if n > 0 {
      LatchHoldsUntilReported(requested, reports[1..], n - 1);
      forall i | 0 < i <= n ensures run[i] == Available(requested) {
        assert run[i] == LatchRun(true, requested, reports[1..])[i - 1];
      }
    }
  }

  /** After that the device value is shown as reported. */
  lemma {:induction false} LatchReleased(requested: real, reports: seq<Field<real>>)
    ensures LatchRun(false, requested, reports) == reports
    decreases |reports|
  {
    if reports != [] {
      LatchReleased(requested, reports[1..]);
      assert reports == [reports[0]] + reports[1..];
    }
  }

  // ---------------------------------------------------------------------------
  // Entities

  class MainCircuit {
    var currentTemperatureValue: Option<Field<real>>
    var currentHumidityValue: Option<Field<real>>
    /** `_hvac_mode`: set at construction and never assigned again. */
    var hvacMode: HvacMode
    var presetMode: Preset

    ghost predicate Valid()
      reads this
    {
      hvacMode == Off
    }

    constructor ()
      ensures Valid()
      ensures currentTemperatureValue.None? && currentHumidityValue.None? && presetMode == Comfort
    {
      currentTemperatureValue, currentHumidityValue := None, None;
      hvacMode, presetMode := Off, Comfort;
    }

    method CurrentTemperature(data: Snapshot) returns (r: Outcome<Field<real>>)
      modifies this`currentTemperatureValue
      ensures r == Stabilise(old(currentTemperatureValue), data.circuit.homeTemperature)
      ensures currentTemperatureValue == if r.Returns? then Some(r.value) else old(currentTemperatureValue)
    {
      r := Stabilise(currentTemperatureValue, data.circuit.homeTemperature);
      if r.Returns? {
        currentTemperatureValue := Some(r.value);
      }
    }

    method CurrentHumidity(data: Snapshot) returns (r: Outcome<Field<real>>)
      modifies this`currentHumidityValue
      ensures r == Stabilise(old(currentHumidityValue), data.circuit.homeHumidity)
      ensures currentHumidityValue == if r.Returns? then Some(r.value) else old(currentHumidityValue)
    {
      r := Stabilise(currentHumidityValue, data.circuit.homeHumidity);
      if r.Returns? {
        currentHumidityValue := Some(r.value);
      }
    }

    method PresetMode(data: Snapshot) returns (p: Preset)
      modifies this`presetMode
      ensures p == presetMode == PresetFor(old(presetMode), data.circuit.mode)
    {
      presetMode := PresetFor(presetMode, data.circuit.mode);
      p := presetMode;
    }

    /** `async_turn_on` never sends anything: it tests `_hvac_mode`, which stays OFF. */
    method TurnOn() returns (c: Option<Command>)
      requires Valid()
      ensures c == CircuitTurnOn(hvacMode, presetMode)
      ensures c.None?
    {
      c := None;
      if hvacMode == HeatCool || hvacMode == Auto {
        c := CircuitSetHvacMode(hvacMode, presetMode);
      }
    }
  }

  class Thermostat {
    const roomId: nat
    var currentTemperatureValue: Option<Field<real>>
    var currentHumidityValue: Option<Field<real>>
    var setTargetTemperaturePending: bool
    var setTargetTemperature: real
    var presetMode: Preset
    /** `_room_mode`: the last HVAC mode shown. */
    var roomMode: HvacMode

    /** `hvac_mode` only ever stores OFF, AUTO, HEAT or COOL. */
    ghost predicate Valid()
      reads this
    {
      roomMode != HeatCool
    }

    constructor (room: nat)
      ensures Valid() && roomId == room
      ensures currentTemperatureValue.None? && currentHumidityValue.None?
      ensures !setTargetTemperaturePending && setTargetTemperature == -1.0
      ensures presetMode == Comfort && roomMode == Off
    {
      roomId := room;
      currentTemperatureValue, currentHumidityValue := None, None;
      setTargetTemperaturePending, setTargetTemperature := false, -1.0;
      presetMode, roomMode := Comfort, Off;
    }

    method HvacModeProperty(data: Snapshot) returns (m: HvacMode)
      requires Valid() && roomId < |data.rooms|
      modifies this`roomMode
      ensures Valid()
      ensures m == roomMode ==
                RoomHvacMode(old(roomMode), data.circuit.state, data.rooms[roomId].mode, data.circuit.season)
    {
      roomMode := RoomHvacMode(roomMode, data.circuit.state, data.rooms[roomId].mode, data.circuit.season);
      m := roomMode;
    }

    method PresetMode(data: Snapshot) returns (p: Preset)
      requires roomId < |data.rooms|
      modifies this`presetMode
      ensures p == presetMode == PresetFor(old(presetMode), data.rooms[roomId].mode)
    {
      presetMode := PresetFor(presetMode, data.rooms[roomId].mode);
      p := presetMode;
    }

    method CurrentTemperature(data: Snapshot) returns (r: Outcome<Field<real>>)
      requires roomId < |data.rooms|
      modifies this`currentTemperatureValue
      ensures r == Stabilise(old(currentTemperatureValue), data.rooms[roomId].temperature)
      ensures currentTemperatureValue == if r.Returns? then Some(r.value) else old(currentTemperatureValue)
    {
      r := Stabilise(currentTemperatureValue, data.rooms[roomId].temperature);
      if r.Returns? {
        currentTemperatureValue := Some(r.value);
      }
    }

    method CurrentHumidity(data: Snapshot) returns (r: Outcome<Field<real>>)
      requires roomId < |data.rooms|
      modifies this`currentHumidityValue
      ensures r == Stabilise(old(currentHumidityValue), data.rooms[roomId].humidity)
      ensures currentHumidityValue == if r.Returns? then Some(r.value) else old(currentHumidityValue)
    {
      r := Stabilise(currentHumidityValue, data.rooms[roomId].humidity);
      if r.Returns? {
        currentHumidityValue := Some(r.value);
      }
    }

    method TargetTemperature(data: Snapshot) returns (r: Field<real>)
      requires roomId < |data.rooms|
      modifies this`setTargetTemperaturePending
      ensures (r, setTargetTemperaturePending) ==
                LatchStep(old(setTargetTemperaturePending), setTargetTemperature,
                          data.rooms[roomId].targetTemperature)
    {
      var reported := data.rooms[roomId].targetTemperature;
      if setTargetTemperaturePending {
        if reported == Available(setTargetTemperature) {
          setTargetTemperaturePending := false;
        }
        return Available(setTargetTemperature);
      }
      r := reported;
    }

    /** `async_set_temperature`: skipped in circuit OFF or AUTO; otherwise the
        correction against the circuit target is sent and the request latched. */
    method SetTemperature(data: Snapshot, temperature: real) returns (e: Effect)
      modifies this`setTargetTemperaturePending, this`setTargetTemperature
      ensures RoomGuardSkips(data.circuit.mode) ==>
                e == NoWrite && unchanged(this)
      ensures !RoomGuardSkips(data.circuit.mode) && data.circuit.temperature.NotAvailable? ==>
                e == Fails && unchanged(this)
      ensures !RoomGuardSkips(data.circuit.mode) && data.circuit.temperature.Available? ==>
                && e == Issue(SetRoomTargetTemperature(roomId,
                                RoomCorrection(temperature, data.circuit.temperature.value)))
                && setTargetTemperaturePending && setTargetTemperature == temperature
    {
      if RoomGuardSkips(data.circuit.mode) {
        return NoWrite;
      }
      if data.circuit.temperature.NotAvailable? {
        return Fails;
      }
      var correction := RoomCorrection(temperature, data.circuit.temperature.value);
      setTargetTemperaturePending := true;
      setTargetTemperature := temperature;
      e := Issue(SetRoomTargetTemperature(roomId, correction));
    }

    /** `async_turn_on`: since `_room_mode` is never HEAT_COOL, at most AUTO is sent. */
    method TurnOn() returns (c: Option<Command>)
      requires Valid()
      ensures c == RoomTurnOn(roomId, roomMode, presetMode)
      ensures c.None? || c.value == SetRoomMode(roomId, RoomCode(RoomAuto))
    {
      c := None;
      if roomMode == HeatCool || roomMode == Auto {
        c := RoomSetHvacMode(roomId, roomMode, presetMode);
      }
    }
  }

  // ---------------------------------------------------------------------------
  // Platform setup

  datatype ClimateEntity = MainCircuitEntity | ThermostatEntity(roomId: nat)

  /** The entities the setup loop has created after the keys `keys`. */
  function ClimateEntitiesAmong(s: Snapshot, keys: seq<Key>): seq<ClimateEntity> {
    if keys == [] then []
    else
      ClimateEntitiesAmong(s, keys[..|keys| - 1]) +
      match keys[|keys| - 1]
      case ExternalKey => []
      case CircuitKey => [MainCircuitEntity]
      case RoomKey(r) => if IsActive(s, r) then [ThermostatEntity(r)] else []
  }

  function Thermostats(rooms: seq<nat>): (es: seq<ClimateEntity>)
    ensures |es| == |rooms|
    ensures forall j :: 0 <= j < |rooms| ==> es[j] == ThermostatEntity(rooms[j])
  {
    seq(|rooms|, j requires 0 <= j < |rooms| => ThermostatEntity(rooms[j]))
  }

  lemma {:induction false} ClimateEntitiesOfPrefix(s: Snapshot, n: nat)
    requires 2 <= n <= |DataKeys(s)|
    ensures ClimateEntitiesAmong(s, DataKeys(s)[..n]) ==
              [MainCircuitEntity] + Thermostats(ActiveAmong(s, DataKeys(s)[..n]))
  {
    var keys := DataKeys(s);
    var k := keys[..n];
    if n == 2 {
      assert k == [ExternalKey, CircuitKey];
      assert k[..1] == [ExternalKey] && [ExternalKey][..0] == [];
      assert ActiveAmong(s, k[..1]) == [];
      assert ActiveAmong(s, k) == [];
      assert ClimateEntitiesAmong(s, k[..1]) == [];
    } else {
      ClimateEntitiesOfPrefix(s, n - 1);
      assert k[..n - 1] == keys[..n - 1];
      assert k[n - 1] == RoomKey(n - 3);
    }
  }

  /** `async_setup_entry`: the loop over the aggregated data. */
  method SetupEntities(data: Snapshot) returns (entities: seq<ClimateEntity>)
    ensures entities == [MainCircuitEntity] + Thermostats(ActiveRooms(data))
  {
    var keys := DataKeys(data);
    entities := [];
    var i := 0;
    while i < |keys|
      invariant 0 <= i <= |keys|
      invariant entities == ClimateEntitiesAmong(data, keys[..i])
    {
      assert keys[..i + 1][..i] == keys[..i];
      match keys[i] {
        case ExternalKey =>
        case CircuitKey =>
          entities := entities + [MainCircuitEntity];
        case RoomKey(r) =>
          if IsActive(data, r) {
            entities := entities + [ThermostatEntity(r)];
          }
      }
      i := i + 1;
    }
    assert keys[..|keys|] == keys;
    ClimateEntitiesOfPrefix(data, |keys|);
  }

  /** One main circuit, always, and a thermostat exactly for each room whose
      validity is 6. */
  lemma SetupCreatesActiveThermostats(data: Snapshot, r: nat)
    ensures MainCircuitEntity in [MainCircuitEntity] + Thermostats(ActiveRooms(data))
    ensures ThermostatEntity(r) in [MainCircuitEntity] + Thermostats(ActiveRooms(data)) <==> IsActive(data, r)
  {
    ActiveRoomsExactly(data);
    var es := [MainCircuitEntity] + Thermostats(ActiveRooms(data));
    if ThermostatEntity(r) in es {
      var j :| 0 <= j < |es| && es[j] == ThermostatEntity(r);
      assert ActiveRooms(data)[j - 1] == r;
    }
    if IsActive(data, r) {
      var j :| 0 <= j < |ActiveRooms(data)| && ActiveRooms(data)[j] == r;
      assert es[j + 1] == ThermostatEntity(r);
    }
  }
}
