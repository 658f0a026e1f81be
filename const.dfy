/** The code tables and constants of the integration. */
module Const {
  import opened Fields

  /** Number of room records the decoder always produces. */
  const MaxRooms: nat := 38

  /** Jump threshold of the reading stabiliser, in decoded (physical) units. */
  const ControlValue: int := 20

  /** Circuit operating mode as carried by registers 10103 and 18001. */
  datatype CircuitMode = CircuitOff | CircuitComfort | CircuitEco | CircuitAuto

  /** Room operating mode as carried by the per-room mode registers. */
  datatype RoomMode = RoomAuto | RoomComfort | RoomEco | RoomOff

  datatype Season = Winter | Summer

  function CircuitCode(m: CircuitMode): (c: int)
    ensures 0 <= c < 4
  {
    match m
    case CircuitOff => 0
    case CircuitComfort => 1
    case CircuitEco => 2
    case CircuitAuto => 3
  }

  function RoomCode(m: RoomMode): (c: int)
    ensures 0 <= c < 4
  {
    match m
    case RoomAuto => 0
    case RoomComfort => 1
    case RoomEco => 2
    case RoomOff => 3
  }

  function SeasonCode(s: Season): (c: int)
    ensures 0 <= c < 2
  {
    match s
    case Winter => 0
    case Summer => 1
  }

  /** Reading a circuit code back; defined exactly on the four codes. */
  function CircuitModeOf(c: int): (m: Option<CircuitMode>)
    ensures m.Some? <==> 0 <= c < 4
    ensures m.Some? ==> CircuitCode(m.value) == c
  {
    if c == 0 then Some(CircuitOff)
    else if c == 1 then Some(CircuitComfort)
    else if c == 2 then Some(CircuitEco)
    else if c == 3 then Some(CircuitAuto)
    else None
  }

  /** Reading a room code back; defined exactly on the four codes. */
  function RoomModeOf(c: int): (m: Option<RoomMode>)
    ensures m.Some? <==> 0 <= c < 4
    ensures m.Some? ==> RoomCode(m.value) == c
  {
    if c == 0 then Some(RoomAuto)
    else if c == 1 then Some(RoomComfort)
    else if c == 2 then Some(RoomEco)
    else if c == 3 then Some(RoomOff)
    else None
  }

  /** Each code table is a bijection between its four modes and {0, 1, 2, 3}. */
  lemma CodeTablesAreBijections()
    ensures forall a, b :: CircuitCode(a) == CircuitCode(b) ==> a == b
    ensures forall a, b :: RoomCode(a) == RoomCode(b) ==> a == b
    ensures forall m :: CircuitModeOf(CircuitCode(m)) == Some(m)
    ensures forall m :: RoomModeOf(RoomCode(m)) == Some(m)
    ensures (set m | m in {CircuitOff, CircuitComfort, CircuitEco, CircuitAuto} :: CircuitCode(m)) == {0, 1, 2, 3}
    ensures (set m | m in {RoomAuto, RoomComfort, RoomEco, RoomOff} :: RoomCode(m)) == {0, 1, 2, 3}
  {
    forall m ensures CircuitModeOf(CircuitCode(m)) == Some(m) {
      var r := CircuitModeOf(CircuitCode(m));
      assert r.Some? && CircuitCode(r.value) == CircuitCode(m);
      match m { case CircuitOff => case CircuitComfort => case CircuitEco => case CircuitAuto => }
    }
    forall m ensures RoomModeOf(RoomCode(m)) == Some(m) {
      match m { case RoomAuto => case RoomComfort => case RoomEco => case RoomOff => }
    }
    var cs := set m | m in {CircuitOff, CircuitComfort, CircuitEco, CircuitAuto} :: CircuitCode(m);
    assert CircuitCode(CircuitOff) in cs && CircuitCode(CircuitComfort) in cs;
    assert CircuitCode(CircuitEco) in cs && CircuitCode(CircuitAuto) in cs;
    var rs := set m | m in {RoomAuto, RoomComfort, RoomEco, RoomOff} :: RoomCode(m);
    assert RoomCode(RoomAuto) in rs && RoomCode(RoomComfort) in rs;
    assert RoomCode(RoomEco) in rs && RoomCode(RoomOff) in rs;
  }

  /** The two mode tables agree on COMFORT and ECO and swap OFF and AUTO. */
  lemma ModeCodesAsymmetry()
    ensures CircuitCode(CircuitComfort) == RoomCode(RoomComfort)
    ensures CircuitCode(CircuitEco) == RoomCode(RoomEco)
    ensures CircuitCode(CircuitOff) == RoomCode(RoomAuto)
    ensures CircuitCode(CircuitAuto) == RoomCode(RoomOff)
    ensures CircuitCode(CircuitOff) != RoomCode(RoomOff)
    ensures CircuitCode(CircuitAuto) != RoomCode(RoomAuto)
  {
  }
}
