/** The register protocol of the controller: room offsets, the snapshot decoder
    and the write payload encoders. */
module LoexApi {
  import opened Fields
  import opened Const
  import opened Decimal

  /** One poll of the controller: register id to raw integer (the JSON key is "t" + id). */
  type RegisterTable = map<int, int>

  // ---------------------------------------------------------------------------
  // Register index mapper

  /** Register block of a room: the controller leaves two unused blocks after
      rooms 7, 17 and 27. */
  function RoomOffset(roomId: int): (idx: int)
    ensures 0 <= roomId < 8 ==> idx == roomId
    ensures 8 <= roomId < 18 ==> idx == roomId + 2
    ensures 18 <= roomId < 28 ==> idx == roomId + 4
    ensures 28 <= roomId < 38 ==> idx == roomId + 6
  {
    roomId + (if roomId >= 8 then 2 else 0) + (if roomId >= 18 then 2 else 0)
      + (if roomId >= 28 then 2 else 0)
  }

  /** The room whose block starts at `idx`, if any; the gap blocks 8, 9, 20, 21, 32
      and 33 belong to no room. */
  function RoomAtOffset(idx: int): (r: Option<int>)
    ensures r.Some? ==> 0 <= r.value < MaxRooms && RoomOffset(r.value) == idx
  {
    if 0 <= idx < 8 then Some(idx)
    else if 10 <= idx < 20 then Some(idx - 2)
    else if 22 <= idx < 32 then Some(idx - 4)
    else if 34 <= idx < 44 then Some(idx - 6)
    else None
  }

  lemma RoomOffsetStrictlyIncreasing(a: int, b: int)
    requires a < b
    ensures RoomOffset(a) < RoomOffset(b)
  {
  }

  /** `RoomAtOffset` inverts `RoomOffset` on the rooms 0 .. MaxRooms - 1. */
  lemma RoomOffsetInverse(roomId: int)
    requires 0 <= roomId < MaxRooms
    ensures RoomAtOffset(RoomOffset(roomId)) == Some(roomId)
  {
  }

  // ---------------------------------------------------------------------------
  // Register layout

  const ExternalTemperatureRegister := 10011
  const CircuitNameRegister := 20001
  const HomeTemperatureRegister := 10003
  const HomeHumidityRegister := 10004
  const CircuitTargetRegister := 10101
  const ComfortTemperatureRegister := 18011
  const EcoTemperatureRegister := 18012
  const CircuitModeRegister := 10103
  const CircuitStateRegister := 10105
  const DehumidificationRegister := 10107
  const TargetHumidityRegister := 18081
  const HysteresisHumidityRegister := 18082
  const HeatingDisabledRegister := 10042
  const CoolingActiveRegister := 10043

  /** Per-room read registers: base + 10 * RoomOffset(room). */
  const ValidityBase := 11021
  const RoomTemperatureBase := 11022
  const RoomTargetBase := 11023
  const OutputValveBase := 11025
  const RoomModeBase := 11026
  const RoomHumidityBase := 11027

  /** Room names are not shifted by the room offset. */
  const RoomNameBase := 20201

  /** Write registers. */
  const CircuitModeWriteRegister := 18001
  const RoomTargetWriteBase := 17621
  const RoomModeWriteBase := 17622

  function RoomRegister(base: int, roomId: int): int {
    base + 10 * RoomOffset(roomId)
  }

  function RoomNameRegister(roomId: int): int {
    RoomNameBase + 7 * roomId
  }

  /** Distinct rooms, or distinct fields of one room, never share a read register. */
  lemma RoomRegistersDistinct(slotA: int, roomA: int, slotB: int, roomB: int)
    requires 0 <= slotA < 10 && 0 <= slotB < 10
    requires RoomRegister(ValidityBase + slotA, roomA) == RoomRegister(ValidityBase + slotB, roomB)
    ensures slotA == slotB && roomA == roomB
  {
    var da, db := RoomOffset(roomA), RoomOffset(roomB);
    assert slotA - slotB == 10 * (db - da);
    if roomA < roomB {
      RoomOffsetStrictlyIncreasing(roomA, roomB);
    } else if roomB < roomA {
      RoomOffsetStrictlyIncreasing(roomB, roomA);
    }
  }

  // ---------------------------------------------------------------------------
  // Snapshot

  datatype External = External(extTemp: Field<real>)

  datatype Circuit = Circuit(
    name: Field<int>,
    homeTemperature: Field<real>,
    homeHumidity: Field<real>,
    temperature: Field<real>,
    comfortTemperature: Field<real>,
    ecoTemperature: Field<real>,
    mode: Field<int>,
    state: Field<int>,
    dehumidificationActive: Field<int>,
    targetHumidity: Field<real>,
    hysteresisHumidity: Field<real>,
    season: Field<Season>)

  datatype Room = Room(
    name: Field<int>,
    validity: Field<int>,
    temperature: Field<real>,
    targetTemperature: Field<real>,
    humidity: Field<real>,
    outputValve: Field<int>,
    mode: Field<int>)

  /** The aggregated data of one poll: "external", "circuit" and rooms 0 .. 37. */
  datatype Snapshot = Snapshot(external: External, circuit: Circuit, rooms: seq<Room>)

  /** `f` is the register `id` copied verbatim, or "N/A" exactly when `id` is absent. */
  ghost predicate ReadsRaw(f: Field<int>, table: RegisterTable, id: int) {
    (f.Available? <==> id in table) && (f.Available? ==> f.value == table[id])
  }

  /** `f` is the register `id` divided by 10, or "N/A" exactly when `id` is absent. */
  ghost predicate ReadsTenths(f: Field<real>, table: RegisterTable, id: int) {
    (f.Available? <==> id in table) && (f.Available? ==> f.value * 10.0 == table[id] as real)
  }

  function Raw(table: RegisterTable, id: int): (f: Field<int>)
    ensures ReadsRaw(f, table, id)
  {
    if id in table then Available(table[id]) else NotAvailable
  }

  function Tenths(table: RegisterTable, id: int): (f: Field<real>)
    ensures ReadsTenths(f, table, id)
  {
    if id in table then Available(table[id] as real / 10.0) else NotAvailable
  }

  // ---------------------------------------------------------------------------
  // Decoder

  function ParseExternal(table: RegisterTable): (e: External)
    ensures ReadsTenths(e.extTemp, table, ExternalTemperatureRegister)
  {
    External(Tenths(table, ExternalTemperatureRegister))
  }

  /** Season from the heating-disabled flag 10042 and the cooling flag 10043; the
      second register is consulted only when the first equals 1. */
  function DecodeSeason(table: RegisterTable): (s: Field<Season>)
    ensures s == Available(Summer) <==>
              HeatingDisabledRegister in table && table[HeatingDisabledRegister] == 1 &&
              CoolingActiveRegister in table && table[CoolingActiveRegister] == 0
    ensures s == NotAvailable <==>
              HeatingDisabledRegister !in table ||
              (table[HeatingDisabledRegister] == 1 && CoolingActiveRegister !in table)
    ensures s == Available(Winter) <==>
              HeatingDisabledRegister in table &&
              (table[HeatingDisabledRegister] != 1 ||
               (CoolingActiveRegister in table && table[CoolingActiveRegister] != 0))
  {
    if HeatingDisabledRegister !in table then NotAvailable
    else if table[HeatingDisabledRegister] != 1 then Available(Winter)
    else if CoolingActiveRegister !in table then NotAvailable
    else if table[CoolingActiveRegister] == 0 then Available(Summer)
    else Available(Winter)
  }

  function ParseCircuit(table: RegisterTable): (c: Circuit)
    ensures ReadsRaw(c.name, table, CircuitNameRegister)
    ensures ReadsTenths(c.homeTemperature, table, HomeTemperatureRegister)
    ensures ReadsTenths(c.homeHumidity, table, HomeHumidityRegister)
    ensures ReadsTenths(c.temperature, table, CircuitTargetRegister)
    ensures ReadsTenths(c.comfortTemperature, table, ComfortTemperatureRegister)
    ensures ReadsTenths(c.ecoTemperature, table, EcoTemperatureRegister)
    ensures ReadsRaw(c.mode, table, CircuitModeRegister)
    ensures ReadsRaw(c.state, table, CircuitStateRegister)
    ensures ReadsRaw(c.dehumidificationActive, table, DehumidificationRegister)
    ensures ReadsTenths(c.targetHumidity, table, TargetHumidityRegister)
    ensures ReadsTenths(c.hysteresisHumidity, table, HysteresisHumidityRegister)
    ensures c.season == DecodeSeason(table)
  {
    Circuit(
      Raw(table, CircuitNameRegister),
      Tenths(table, HomeTemperatureRegister),
      Tenths(table, HomeHumidityRegister),
      Tenths(table, CircuitTargetRegister),
      Tenths(table, ComfortTemperatureRegister),
      Tenths(table, EcoTemperatureRegister),
      Raw(table, CircuitModeRegister),
      Raw(table, CircuitStateRegister),
      Raw(table, DehumidificationRegister),
      Tenths(table, TargetHumidityRegister),
      Tenths(table, HysteresisHumidityRegister),
      DecodeSeason(table))
  }

  function ParseRoom(table: RegisterTable, roomId: int): (r: Room)
    ensures ReadsRaw(r.name, table, RoomNameBase + 7 * roomId)
    ensures ReadsRaw(r.validity, table, 11021 + 10 * RoomOffset(roomId))
    ensures ReadsTenths(r.temperature, table, 11022 + 10 * RoomOffset(roomId))
    ensures ReadsTenths(r.targetTemperature, table, 11023 + 10 * RoomOffset(roomId))
    ensures ReadsTenths(r.humidity, table, 11027 + 10 * RoomOffset(roomId))
    ensures ReadsRaw(r.outputValve, table, 11025 + 10 * RoomOffset(roomId))
    ensures ReadsRaw(r.mode, table, 11026 + 10 * RoomOffset(roomId))
  {
    Room(
      Raw(table, RoomNameRegister(roomId)),
      Raw(table, RoomRegister(ValidityBase, roomId)),
      Tenths(table, RoomRegister(RoomTemperatureBase, roomId)),
      Tenths(table, RoomRegister(RoomTargetBase, roomId)),
      Tenths(table, RoomRegister(RoomHumidityBase, roomId)),
      Raw(table, RoomRegister(OutputValveBase, roomId)),
      Raw(table, RoomRegister(RoomModeBase, roomId)))
  }

  /** The snapshot `extract_from_api_data` builds. */
  function Decode(table: RegisterTable): (s: Snapshot)
    ensures |s.rooms| == MaxRooms
  {
    Snapshot(ParseExternal(table), ParseCircuit(table), seq(MaxRooms, i => ParseRoom(table, i)))
  }

  method ExtractFromApiData(table: RegisterTable) returns (s: Snapshot)
    ensures s == Decode(table)
  {
    var external := ParseExternal(table);
    var circuit := ParseCircuit(table);
    var rooms: seq<Room> := [];
    for roomId := 0 to MaxRooms
      invariant |rooms| == roomId
      invariant forall j :: 0 <= j < roomId ==> rooms[j] == ParseRoom(table, j)
    {
      rooms := rooms + [ParseRoom(table, roomId)];
    }
    s := Snapshot(external, circuit, rooms);
  }

  ghost predicate AllRoomFieldsMissing(r: Room) {
    r.name.NotAvailable? && r.validity.NotAvailable? && r.temperature.NotAvailable? &&
    r.targetTemperature.NotAvailable? && r.humidity.NotAvailable? &&
    r.outputValve.NotAvailable? && r.mode.NotAvailable?
  }

  ghost predicate AllCircuitFieldsMissing(c: Circuit) {
    c.name.NotAvailable? && c.homeTemperature.NotAvailable? && c.homeHumidity.NotAvailable? &&
    c.temperature.NotAvailable? && c.comfortTemperature.NotAvailable? &&
    c.ecoTemperature.NotAvailable? && c.mode.NotAvailable? && c.state.NotAvailable? &&
    c.dehumidificationActive.NotAvailable? && c.targetHumidity.NotAvailable? &&
    c.hysteresisHumidity.NotAvailable? && c.season.NotAvailable?
  }

  /** Decoding never fails: an empty table gives a full snapshot of "N/A" fields. */
  lemma DecodeEmptyTable()
    ensures Decode(map[]).external.extTemp.NotAvailable?
    ensures AllCircuitFieldsMissing(Decode(map[]).circuit)
    ensures |Decode(map[]).rooms| == MaxRooms
    ensures forall i :: 0 <= i < MaxRooms ==> AllRoomFieldsMissing(Decode(map[]).rooms[i])
  {
  }

  // ---------------------------------------------------------------------------
  // The register table a snapshot stands for: the decoder's inverse

  /** A real the wire can carry exactly: a whole number of tenths. */
  ghost predicate IsTenths(v: real) {
    (v * 10.0).Floor as real == v * 10.0
  }

  ghost predicate CarriesTenths(f: Field<real>) {
    f.Available? ==> IsTenths(f.value)
  }

  ghost predicate RoomCarriesTenths(r: Room) {
    CarriesTenths(r.temperature) && CarriesTenths(r.targetTemperature) && CarriesTenths(r.humidity)
  }

  /** Snapshots some register table could have produced (up to the season, which
      the decoder derives from two registers). */
  ghost predicate Encodable(s: Snapshot) {
    && |s.rooms| == MaxRooms
    && CarriesTenths(s.external.extTemp)
    && CarriesTenths(s.circuit.homeTemperature) && CarriesTenths(s.circuit.homeHumidity)
    && CarriesTenths(s.circuit.temperature) && CarriesTenths(s.circuit.comfortTemperature)
    && CarriesTenths(s.circuit.ecoTemperature) && CarriesTenths(s.circuit.targetHumidity)
    && CarriesTenths(s.circuit.hysteresisHumidity)
    && forall i :: 0 <= i < |s.rooms| ==> RoomCarriesTenths(s.rooms[i])
  }

  function ScaledRaw(f: Field<real>): Option<int> {
    match f
    case NotAvailable => None
    case Available(v) => Some((v * 10.0).Floor)
  }

  function CopiedRaw(f: Field<int>): Option<int> {
    match f
    case NotAvailable => None
    case Available(v) => Some(v)
  }

  /** Register `ValidityBase + slot` of a room block. */
  function RoomSlot(r: Room, slot: int): Option<int> {
    if slot == 0 then CopiedRaw(r.validity)
    else if slot == 1 then ScaledRaw(r.temperature)
    else if slot == 2 then ScaledRaw(r.targetTemperature)
    else if slot == 4 then CopiedRaw(r.outputValve)
    else if slot == 5 then CopiedRaw(r.mode)
    else if slot == 6 then ScaledRaw(r.humidity)
    else None
  }

  /** The raw value a circuit or external register carries; None for other registers. */
  function CircuitRegisterOf(e: External, c: Circuit, k: int): (v: Option<int>)
    ensures v.Some? ==> 10000 <= k < 11000 || 18000 <= k < 18100 || k == CircuitNameRegister
  {
    if k == ExternalTemperatureRegister then ScaledRaw(e.extTemp)
    else if k == CircuitNameRegister then CopiedRaw(c.name)
    else if k == HomeTemperatureRegister then ScaledRaw(c.homeTemperature)
    else if k == HomeHumidityRegister then ScaledRaw(c.homeHumidity)
    else if k == CircuitTargetRegister then ScaledRaw(c.temperature)
    else if k == ComfortTemperatureRegister then ScaledRaw(c.comfortTemperature)
    else if k == EcoTemperatureRegister then ScaledRaw(c.ecoTemperature)
    else if k == CircuitModeRegister then CopiedRaw(c.mode)
    else if k == CircuitStateRegister then CopiedRaw(c.state)
    else if k == DehumidificationRegister then CopiedRaw(c.dehumidificationActive)
    else if k == TargetHumidityRegister then ScaledRaw(c.targetHumidity)
    else if k == HysteresisHumidityRegister then ScaledRaw(c.hysteresisHumidity)
    else if k == HeatingDisabledRegister then
      (match c.season
       case NotAvailable => None
       case Available(Summer) => Some(1)
       case Available(Winter) => Some(0))
    else if k == CoolingActiveRegister then
      (if c.season == Available(Summer) then Some(0) else None)
    else None
  }

  /** The raw value a room register (name or block) carries; None for other registers. */
  function RoomRegisterOf(rooms: seq<Room>, k: int): Option<int>
    requires |rooms| == MaxRooms
  {
    if RoomNameBase <= k < RoomNameBase + 7 * MaxRooms && (k - RoomNameBase) % 7 == 0 then
      CopiedRaw(rooms[(k - RoomNameBase) / 7].name)
    else if ValidityBase <= k < ValidityBase + 440 then
      (match RoomAtOffset((k - ValidityBase) / 10)
       case None => None
       case Some(i) => RoomSlot(rooms[i], (k - ValidityBase) % 10))
    else None
  }

  /** The raw value register `k` carries in a table that decodes to `s`. */
  function RegisterOf(s: Snapshot, k: int): Option<int>
    requires |s.rooms| == MaxRooms
  {
    var v := CircuitRegisterOf(s.external, s.circuit, k);
    if v.Some? then v else RoomRegisterOf(s.rooms, k)
  }

  function Encode(s: Snapshot): (table: RegisterTable)
    requires |s.rooms| == MaxRooms
  {
    map k | 10000 <= k < 20500 && RegisterOf(s, k).Some? :: RegisterOf(s, k).value
  }

  lemma EncodeAt(s: Snapshot, k: int)
    requires |s.rooms| == MaxRooms && 10000 <= k < 20500
    ensures k in Encode(s) <==> RegisterOf(s, k).Some?
    ensures k in Encode(s) ==> Encode(s)[k] == RegisterOf(s, k).value
  {
  }

  lemma TenthsBack(table: RegisterTable, id: int, f: Field<real>)
    requires CarriesTenths(f)
    requires id in table <==> f.Available?
    requires f.Available? ==> table[id] == (f.value * 10.0).Floor
    ensures Tenths(table, id) == f
  {
  }

  lemma RawBack(table: RegisterTable, id: int, f: Field<int>)
    requires id in table <==> f.Available?
    requires f.Available? ==> table[id] == f.value
    ensures Raw(table, id) == f
  {
  }

  /** Register `ValidityBase + slot` of room `i`'s block carries that room's slot. */
  lemma RoomSlotAt(s: Snapshot, i: int, slot: int)
    requires |s.rooms| == MaxRooms && 0 <= i < MaxRooms && 0 <= slot < 10
    ensures var k := ValidityBase + slot + 10 * RoomOffset(i);
            k in Encode(s) <==> RoomSlot(s.rooms[i], slot).Some?
    ensures var k := ValidityBase + slot + 10 * RoomOffset(i);
            k in Encode(s) ==> Encode(s)[k] == RoomSlot(s.rooms[i], slot).value
  {
    var d := RoomOffset(i);
    var k := ValidityBase + slot + 10 * d;
    RoomOffsetInverse(i);
    assert (k - ValidityBase) / 10 == d && (k - ValidityBase) % 10 == slot;
    assert CircuitRegisterOf(s.external, s.circuit, k) == None;
    assert RegisterOf(s, k) == RoomSlot(s.rooms[i], slot);
    EncodeAt(s, k);
  }

  lemma RoomRawBack(s: Snapshot, i: int, slot: int)
    requires |s.rooms| == MaxRooms && 0 <= i < MaxRooms && slot in {0, 4, 5}
    ensures Raw(Encode(s), ValidityBase + slot + 10 * RoomOffset(i)) ==
            if slot == 0 then s.rooms[i].validity
            else if slot == 4 then s.rooms[i].outputValve
            else s.rooms[i].mode
  {
    RoomSlotAt(s, i, slot);
  }

  lemma RoomTenthsBack(s: Snapshot, i: int, slot: int)
    requires |s.rooms| == MaxRooms && 0 <= i < MaxRooms && slot in {1, 2, 6}
    requires RoomCarriesTenths(s.rooms[i])
    ensures Tenths(Encode(s), ValidityBase + slot + 10 * RoomOffset(i)) ==
            if slot == 1 then s.rooms[i].temperature
            else if slot == 2 then s.rooms[i].targetTemperature
            else s.rooms[i].humidity
  {
    RoomSlotAt(s, i, slot);
    var f := if slot == 1 then s.rooms[i].temperature
             else if slot == 2 then s.rooms[i].targetTemperature
             else s.rooms[i].humidity;
    TenthsBack(Encode(s), ValidityBase + slot + 10 * RoomOffset(i), f);
  }

  lemma RoomNameBack(s: Snapshot, i: int)
    requires |s.rooms| == MaxRooms && 0 <= i < MaxRooms
    ensures Raw(Encode(s), RoomNameRegister(i)) == s.rooms[i].name
  {
    var kn := RoomNameRegister(i);
    assert (kn - RoomNameBase) / 7 == i && (kn - RoomNameBase) % 7 == 0;
    assert CircuitRegisterOf(s.external, s.circuit, kn) == None;
    EncodeAt(s, kn);
  }

  lemma RoomBack(s: Snapshot, i: int)
    requires Encodable(s) && 0 <= i < MaxRooms
    ensures ParseRoom(Encode(s), i) == s.rooms[i]
  {
    assert RoomCarriesTenths(s.rooms[i]);
    RoomNameBack(s, i);
    RoomRawBack(s, i, 0);
    RoomTenthsBack(s, i, 1);
    RoomTenthsBack(s, i, 2);
    RoomRawBack(s, i, 4);
    RoomRawBack(s, i, 5);
    RoomTenthsBack(s, i, 6);
  }

  lemma CircuitRawAt(s: Snapshot, k: int, f: Field<int>)
    requires |s.rooms| == MaxRooms
    requires 10000 <= k < ValidityBase || ValidityBase + 440 <= k < RoomNameBase
    requires CircuitRegisterOf(s.external, s.circuit, k) == CopiedRaw(f)
    ensures Raw(Encode(s), k) == f
  {
    EncodeAt(s, k);
  }

  lemma CircuitTenthsAt(s: Snapshot, k: int, f: Field<real>)
    requires |s.rooms| == MaxRooms && CarriesTenths(f)
    requires 10000 <= k < ValidityBase || ValidityBase + 440 <= k < RoomNameBase
    requires CircuitRegisterOf(s.external, s.circuit, k) == ScaledRaw(f)
    ensures Tenths(Encode(s), k) == f
  {
    EncodeAt(s, k);
    TenthsBack(Encode(s), k, f);
  }

  lemma SeasonBack(s: Snapshot)
    requires |s.rooms| == MaxRooms
    ensures DecodeSeason(Encode(s)) == s.circuit.season
  {
    EncodeAt(s, HeatingDisabledRegister);
    EncodeAt(s, CoolingActiveRegister);
    match s.circuit.season {
      case NotAvailable =>
      case Available(sn) => match sn { case Summer => case Winter => }
    }
  }

  lemma CircuitBack(s: Snapshot)
    requires Encodable(s)
    ensures ParseExternal(Encode(s)) == s.external
    ensures ParseCircuit(Encode(s)) == s.circuit
  {
    var e, c := s.external, s.circuit;
    CircuitTenthsAt(s, ExternalTemperatureRegister, e.extTemp);
    CircuitRawAt(s, CircuitNameRegister, c.name);
    CircuitTenthsAt(s, HomeTemperatureRegister, c.homeTemperature);
    CircuitTenthsAt(s, HomeHumidityRegister, c.homeHumidity);
    CircuitTenthsAt(s, CircuitTargetRegister, c.temperature);
    CircuitTenthsAt(s, ComfortTemperatureRegister, c.comfortTemperature);
    CircuitTenthsAt(s, EcoTemperatureRegister, c.ecoTemperature);
    CircuitRawAt(s, CircuitModeRegister, c.mode);
    CircuitRawAt(s, CircuitStateRegister, c.state);
    CircuitRawAt(s, DehumidificationRegister, c.dehumidificationActive);
    CircuitTenthsAt(s, TargetHumidityRegister, c.targetHumidity);
    CircuitTenthsAt(s, HysteresisHumidityRegister, c.hysteresisHumidity);
    SeasonBack(s);
  }

  /** Round trip: every snapshot the wire can carry is decoded from its own table,
      so no two fields share a register and every scale is undone exactly. */
  lemma DecodeEncode(s: Snapshot)
    requires Encodable(s)
    ensures Decode(Encode(s)) == s
  {
    CircuitBack(s);
    forall i | 0 <= i < MaxRooms ensures Decode(Encode(s)).rooms[i] == s.rooms[i] {
      RoomBack(s, i);
    }
  }

  // ---------------------------------------------------------------------------
  // Command encoder

  /** One register write, sent as the text body "<register>=<value>". */
  datatype Payload = Payload(register: int, value: int)

  function PayloadText(p: Payload): string {
    IntToString(p.register) + "=" + IntToString(p.value)
  }

  function IndexOf(s: string, c: char): (k: nat)
    ensures k <= |s| && (k < |s| ==> s[k] == c)
    ensures forall j :: 0 <= j < k ==> s[j] != c
  {
    if |s| == 0 || s[0] == c then 0 else 1 + IndexOf(s[1..], c)
  }

  /** How the controller reads a write body: split at the first '='. */
  function ParsePayload(body: string): Option<Payload> {
    var k := IndexOf(body, '=');
    if k == |body| then None
    else
      match (ParseInt(body[..k]), ParseInt(body[k + 1..]))
      case (Some(register), Some(value)) => Some(Payload(register, value))
      case _ => None
  }

  /** The text body of a payload is read back as the same register and value. */
  lemma PayloadTextRoundTrip(p: Payload)
    ensures ParsePayload(PayloadText(p)) == Some(p)
  {
    var a, b := IntToString(p.register), IntToString(p.value);
    var body := PayloadText(p);
    assert body == a + "=" + b;
    var k := IndexOf(body, '=');
    assert body[|a|] == '=';
    assert k == |a|;
    assert body[..k] == a;
    assert body[k + 1..] == b;
    IntRoundTrip(p.register);
    IntRoundTrip(p.value);
  }

  /** `set_room_target_temperature`: the correction is written to 17621 + 10 * offset. */
  function RoomTargetPayload(roomId: int, correction: int): (p: Payload)
    ensures p.register == RoomRegister(RoomTargetWriteBase, roomId) && p.value == correction
  {
    Payload(RoomTargetWriteBase + 10 * RoomOffset(roomId), correction)
  }

  /** `set_room_mode`: the room mode code is written to 17622 + 10 * offset. */
  function RoomModePayload(roomId: int, mode: int): (p: Payload)
    ensures p.register == RoomRegister(RoomModeWriteBase, roomId) && p.value == mode
  {
    Payload(RoomModeWriteBase + 10 * RoomOffset(roomId), mode)
  }

  /** `set_circuit_mode`: the circuit mode code is written to 18001. */
  function CircuitModePayload(mode: int): (p: Payload)
    ensures p.register == CircuitModeWriteRegister && p.value == mode
  {
    Payload(CircuitModeWriteRegister, mode)
  }

  /** `set_circuit_target_temperature`: the comfort set point for mode 1, the eco set
      point for mode 2; any other mode leaves the payload unbound and nothing is sent. */
  function CircuitTargetPayload(mode: Field<int>, target: int): (p: Option<Payload>)
    ensures p.Some? <==> mode == Available(CircuitCode(CircuitComfort)) ||
                         mode == Available(CircuitCode(CircuitEco))
    ensures mode == Available(CircuitCode(CircuitComfort)) ==>
              p == Some(Payload(ComfortTemperatureRegister, target))
    ensures mode == Available(CircuitCode(CircuitEco)) ==>
              p == Some(Payload(EcoTemperatureRegister, target))
  {
    if mode == Available(1) then Some(Payload(ComfortTemperatureRegister, target))
    else if mode == Available(2) then Some(Payload(EcoTemperatureRegister, target))
    else None
  }

  /** The four write requests the presentation side issues through the coordinator. */
  datatype Command =
    | SetRoomTargetTemperature(roomId: int, correction: int)
    | SetCircuitTargetTemperature(mode: Field<int>, target: int)
    | SetRoomMode(roomId: int, roomMode: int)
    | SetCircuitMode(circuitMode: int)

  /** The payload each `set_*` method binds, if it binds one. */
  function CommandPayload(c: Command): (p: Option<Payload>)
    ensures p.None? <==> c.SetCircuitTargetTemperature? && !(c.mode == Available(1) || c.mode == Available(2))
    ensures c.SetRoomTargetTemperature? ==>
              p == Some(Payload(RoomRegister(RoomTargetWriteBase, c.roomId), c.correction))
    ensures c.SetRoomMode? ==> p == Some(Payload(RoomRegister(RoomModeWriteBase, c.roomId), c.roomMode))
    ensures c.SetCircuitMode? ==> p == Some(Payload(CircuitModeWriteRegister, c.circuitMode))
    ensures c.SetCircuitTargetTemperature? && p.Some? ==>
              p.value.value == c.target &&
              p.value.register == (if c.mode == Available(1) then ComfortTemperatureRegister
                                   else EcoTemperatureRegister)
  {
    match c
    case SetRoomTargetTemperature(r, v) => Some(RoomTargetPayload(r, v))
    case SetCircuitTargetTemperature(m, v) => CircuitTargetPayload(m, v)
    case SetRoomMode(r, m) => Some(RoomModePayload(r, m))
    case SetCircuitMode(m) => Some(CircuitModePayload(m))
  }

  /** Read and write side use the same block for a room: its write registers sit a
      fixed distance (6600) above its read registers. */
  lemma WriteBlockMatchesReadBlock(roomId: int, v: int, m: int)
    ensures RoomTargetPayload(roomId, v).register == RoomRegister(ValidityBase, roomId) + 6600
    ensures RoomModePayload(roomId, m).register == RoomRegister(RoomTemperatureBase, roomId) + 6600
  {
  }

  /** No two room writes of different rooms or kinds go to the same register. */
  lemma RoomWriteRegistersDistinct(a: int, b: int, v: int, w: int)
    ensures RoomTargetPayload(a, v).register == RoomTargetPayload(b, w).register ==> a == b
    ensures RoomModePayload(a, v).register == RoomModePayload(b, w).register ==> a == b
    ensures RoomTargetPayload(a, v).register != RoomModePayload(b, w).register
  {
    if a < b {
      RoomOffsetStrictlyIncreasing(a, b);
    } else if b < a {
      RoomOffsetStrictlyIncreasing(b, a);
    }
  }

  /** Rooms 0 .. 31 never write to a circuit write register. */
  lemma RoomWritesAvoidCircuitRegisters(roomId: int, v: int)
    requires 0 <= roomId < 32
    ensures RoomTargetPayload(roomId, v).register !in {CircuitModeWriteRegister, ComfortTemperatureRegister, EcoTemperatureRegister}
    ensures RoomModePayload(roomId, v).register !in {CircuitModeWriteRegister, ComfortTemperatureRegister, EcoTemperatureRegister}
  {
  }

  /** The offset formula is not capped: room 32's target write lands on the circuit
      mode register and room 33's writes land on the comfort and eco set points. */
  lemma RoomWritesReachCircuitRegisters(v: int)
    ensures RoomTargetPayload(32, v).register == CircuitModeWriteRegister
    ensures RoomTargetPayload(33, v).register == ComfortTemperatureRegister
    ensures RoomModePayload(33, v).register == EcoTemperatureRegister
  {
  }

  // ---------------------------------------------------------------------------
  // Iterating the aggregated data, and the validity filter of both platforms

  /** The keys of the aggregated data in insertion order. */
  datatype Key = ExternalKey | CircuitKey | RoomKey(roomId: nat)

  function DataKeys(s: Snapshot): (keys: seq<Key>)
    ensures |keys| == |s.rooms| + 2
  {
    [ExternalKey, CircuitKey] + seq(|s.rooms|, (i: nat) => RoomKey(i))
  }

  /** Validity sentinel of a configured room. */
  const ActiveValidity := 6

  predicate IsActive(s: Snapshot, roomId: nat) {
    roomId < |s.rooms| && s.rooms[roomId].validity == Available(ActiveValidity)
  }

  /** Rooms among `keys`, in order, whose validity is the sentinel. */
  function ActiveAmong(s: Snapshot, keys: seq<Key>): seq<nat> {
    if keys == [] then []
    else
      ActiveAmong(s, keys[..|keys| - 1]) +
      match keys[|keys| - 1]
      case RoomKey(r) => if IsActive(s, r) then [r] else []
      case _ => []
  }

  function ActiveRooms(s: Snapshot): seq<nat> {
    ActiveAmong(s, DataKeys(s))
  }

  lemma {:induction false} ActiveAmongMembers(s: Snapshot, keys: seq<Key>, r: nat)
    ensures r in ActiveAmong(s, keys) <==> RoomKey(r) in keys && IsActive(s, r)
  {
    if keys != [] {
      var init := keys[..|keys| - 1];
      ActiveAmongMembers(s, init, r);
      assert keys == init + [keys[|keys| - 1]];
    }
  }

  lemma {:induction false} ActiveAmongIncreasing(s: Snapshot, keys: seq<Key>)
    requires forall j :: 0 <= j < |keys| ==> keys[j] == ExternalKey || keys[j] == CircuitKey ||
                                             (j >= 2 && keys[j] == RoomKey(j - 2))
    ensures forall j, k :: 0 <= j < k < |ActiveAmong(s, keys)| ==>
              ActiveAmong(s, keys)[j] < ActiveAmong(s, keys)[k]
    ensures forall j :: 0 <= j < |ActiveAmong(s, keys)| ==> ActiveAmong(s, keys)[j] + 2 < |keys|
  {
    if keys != [] {
      var init := keys[..|keys| - 1];
      ActiveAmongIncreasing(s, init);
    }
  }

  /** The validity filter: a room is surfaced exactly when its validity register
      reads 6, each such room once and in room order. */
  lemma ActiveRoomsExactly(s: Snapshot)
    ensures forall r :: r in ActiveRooms(s) <==> IsActive(s, r)
    ensures forall j, k :: 0 <= j < k < |ActiveRooms(s)| ==> ActiveRooms(s)[j] < ActiveRooms(s)[k]
  {
    var keys := DataKeys(s);
    forall r: nat ensures r in ActiveRooms(s) <==> IsActive(s, r) {
      ActiveAmongMembers(s, keys, r);
      if IsActive(s, r) {
        assert keys[r + 2] == RoomKey(r);
      }
    }
    ActiveAmongIncreasing(s, keys);
  }
}
