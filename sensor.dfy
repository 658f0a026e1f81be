/** The sensor platform: one outdoor temperature sensor and one humidity sensor per
    active room, each with its own stabilised reading. */
module Sensor {
  import opened Fields
  import opened LoexApi
  import opened Stabiliser

  /** `loex_temperature_sensor`: the `external_temp` kept between reads. */
  class TemperatureSensor {
    var externalTemp: Option<Field<real>>

    constructor ()
      ensures externalTemp.None?
    {
      externalTemp := None;
    }

    /** `state`: the stabilised outdoor temperature. */
    method State(data: Snapshot) returns (r: Outcome<Field<real>>)
      modifies this
      ensures r == Stabilise(old(externalTemp), data.external.extTemp)
      ensures externalTemp == if r.Returns? then Some(r.value) else old(externalTemp)
    {
      var value := data.external.extTemp;
      match externalTemp {
        case None =>
          externalTemp := Some(value);
        case Some(kept) =>
          if kept.NotAvailable? || value.NotAvailable? {
            return Raises;
          }
          if Abs(value.value - kept.value) < Threshold {
            externalTemp := Some(value);
          }
      }
      r := Returns(externalTemp.value);
    }
  }

  /** `loex_humidity_sensor`: the `room_humidity` kept between reads. */
  class HumiditySensor {
    const roomId: nat
    var roomHumidity: Option<Field<real>>

    constructor (room: nat)
      ensures roomId == room && roomHumidity.None?
    {
      roomId := room;
      roomHumidity := None;
    }

    /** `state`: the stabilised humidity of the sensor's room. */
    method State(data: Snapshot) returns (r: Outcome<Field<real>>)
      requires roomId < |data.rooms|
      modifies this
      ensures r == Stabilise(old(roomHumidity), data.rooms[roomId].humidity)
      ensures roomHumidity == if r.Returns? then Some(r.value) else old(roomHumidity)
    {
      var value := data.rooms[roomId].humidity;
      match roomHumidity {
        case None =>
          roomHumidity := Some(value);
        case Some(kept) =>
          if kept.NotAvailable? || value.NotAvailable? {
            return Raises;
          }
          if Abs(value.value - kept.value) < Threshold {
            roomHumidity := Some(value);
          }
      }
      r := Returns(roomHumidity.value);
    }
  }

  /** Two readings in a row on a fresh humidity sensor: the first is adopted as it
      is, the second only when it is within the threshold of the first. */
  method TwoHumidityReads(room: nat, first: Snapshot, second: Snapshot)
      returns (r1: Outcome<Field<real>>, r2: Outcome<Field<real>>)
    requires room < |first.rooms| && room < |second.rooms|
    ensures r1 == Returns(first.rooms[room].humidity)
    ensures first.rooms[room].humidity.NotAvailable? ==> r2 == Raises
    ensures first.rooms[room].humidity.Available? && second.rooms[room].humidity.Available? ==>
              var a := first.rooms[room].humidity.value;
              var b := second.rooms[room].humidity.value;
              r2 == Returns(Available(if Abs(b - a) < Threshold then b else a))
  {
    var sensor := new HumiditySensor(room);
    r1 := sensor.State(first);
    r2 := sensor.State(second);
  }

  datatype SensorEntity = ExternalTemperatureSensor | RoomHumiditySensor(roomId: nat)

  /** The sensors the setup loop has added for the keys `keys`. */
  function HumiditySensorsAmong(s: Snapshot, keys: seq<Key>): seq<SensorEntity> {
    if keys == [] then []
    else
      HumiditySensorsAmong(s, keys[..|keys| - 1]) +
      match keys[|keys| - 1]
      case RoomKey(r) => if IsActive(s, r) then [RoomHumiditySensor(r)] else []
      case _ => []
  }

  function HumiditySensors(rooms: seq<nat>): (es: seq<SensorEntity>)
    ensures |es| == |rooms|
    ensures forall j :: 0 <= j < |rooms| ==> es[j] == RoomHumiditySensor(rooms[j])
  {
    seq(|rooms|, j requires 0 <= j < |rooms| => RoomHumiditySensor(rooms[j]))
  }

  lemma {:induction false} HumiditySensorsAmongActive(s: Snapshot, keys: seq<Key>)
    ensures HumiditySensorsAmong(s, keys) == HumiditySensors(ActiveAmong(s, keys))
  {
    if keys != [] {
      HumiditySensorsAmongActive(s, keys[..|keys| - 1]);
    }
  }

  /** `async_setup_entry`: the outdoor sensor first, then the loop over the data. */
  method SetupEntities(data: Snapshot) returns (entities: seq<SensorEntity>)
    ensures entities == [ExternalTemperatureSensor] + HumiditySensors(ActiveRooms(data))
  {
    entities := [ExternalTemperatureSensor];
    var keys := DataKeys(data);
    var i := 0;
    while i < |keys|
      invariant 0 <= i <= |keys|
      invariant entities == [ExternalTemperatureSensor] + HumiditySensorsAmong(data, keys[..i])
    {
      assert keys[..i + 1][..i] == keys[..i];
      match keys[i] {
        case ExternalKey =>
        case CircuitKey =>
        case RoomKey(r) =>
          if IsActive(data, r) {
            entities := entities + [RoomHumiditySensor(r)];
          }
      }
      i := i + 1;
    }
    assert keys[..|keys|] == keys;
    HumiditySensorsAmongActive(data, keys);
  }

  /** The outdoor sensor always, and a humidity sensor exactly for each room whose
      validity is 6, each once and in room order. */
  lemma SetupCreatesActiveSensors(data: Snapshot, r: nat)
    ensures var es := [ExternalTemperatureSensor] + HumiditySensors(ActiveRooms(data));
            && es[0] == ExternalTemperatureSensor
            && (RoomHumiditySensor(r) in es <==> IsActive(data, r))
            && forall j, k :: 1 <= j < k < |es| ==> es[j].roomId < es[k].roomId
  {
    ActiveRoomsExactly(data);
    var es := [ExternalTemperatureSensor] + HumiditySensors(ActiveRooms(data));
    if RoomHumiditySensor(r) in es {
      var j :| 0 <= j < |es| && es[j] == RoomHumiditySensor(r);
      assert ActiveRooms(data)[j - 1] == r;
    }
    if IsActive(data, r) {
      var j :| 0 <= j < |ActiveRooms(data)| && ActiveRooms(data)[j] == r;
      assert es[j + 1] == RoomHumiditySensor(r);
    }
    forall j, k | 1 <= j < k < |es| ensures es[j].roomId < es[k].roomId {
      assert es[j].roomId == ActiveRooms(data)[j - 1];
      assert es[k].roomId == ActiveRooms(data)[k - 1];
    }
  }
}
