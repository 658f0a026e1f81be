/** The reading stabiliser that the temperature and humidity properties of both
    platforms apply to each decoded reading, each instance with its own kept value. */
module Stabiliser {
  import opened Fields
  import opened Const

  /** CONTROL_VALUE compared against decoded values, i.e. in physical units. */
  const Threshold: real := ControlValue as real

  /** The rule on present numbers: adopt the reading when nothing is kept yet or it
      is closer than the threshold to the kept value; otherwise keep the old one. */
  function Adopt(kept: Option<real>, value: real): (r: real)
    ensures kept.None? ==> r == value
    ensures kept.Some? && Abs(value - kept.value) < Threshold ==> r == value
    ensures kept.Some? && Abs(value - kept.value) >= Threshold ==> r == kept.value
  {
    if kept.None? || Abs(value - kept.value) < Threshold then value else kept.value
  }

  /** The property as written: with nothing kept any reading is adopted, even "N/A";
      otherwise the subtraction raises a TypeError when either side is "N/A". */
  function Stabilise(kept: Option<Field<real>>, value: Field<real>): (r: Outcome<Field<real>>)
    ensures kept.None? ==> r == Returns(value)
    ensures kept.Some? && (kept.value.NotAvailable? || value.NotAvailable?) ==> r == Raises
    ensures kept.Some? && kept.value.Available? && value.Available? ==>
              r == Returns(Available(Adopt(Some(kept.value.value), value.value)))
  {
    match kept
    case None => Returns(value)
    case Some(k) =>
      if k.NotAvailable? || value.NotAvailable? then Raises
      else Returns(Available(Adopt(Some(k.value), value.value)))
  }

  /** Compared on raw registers, the threshold is 200 tenths, not 20. */
  lemma ThresholdInTenths(a: int, b: int)
    ensures Abs(a as real / 10.0 - b as real / 10.0) < Threshold <==> -200 < a - b < 200
  {
  }

  /** The kept values after each of a sequence of readings. */
  function Run(kept: Option<real>, readings: seq<real>): (out: seq<real>)
    ensures |out| == |readings|
    decreases |readings|
  {
    if readings == [] then []
    else
      var r := Adopt(kept, readings[0]);
      [r] + Run(Some(r), readings[1..])
  }

  /** Once a value is kept, the shown value never moves by the threshold or more in
      one step. */
  lemma {:induction false} RunStepsBounded(kept: Option<real>, readings: seq<real>)
    ensures forall i :: 0 < i < |readings| ==> Abs(Run(kept, readings)[i] - Run(kept, readings)[i - 1]) < Threshold
    ensures kept.Some? && |readings| > 0 ==> Abs(Run(kept, readings)[0] - kept.value) < Threshold
    decreases |readings|
  {
    if readings != [] {
      var r := Adopt(kept, readings[0]);
      RunStepsBounded(Some(r), readings[1..]);
      var out := Run(kept, readings);
      assert out == [r] + Run(Some(r), readings[1..]);
      forall i | 0 < i < |readings|
        ensures Abs(out[i] - out[i - 1]) < Threshold
      {
        if i > 1 {
          assert out[i] == Run(Some(r), readings[1..])[i - 1];
          assert out[i - 1] == Run(Some(r), readings[1..])[i - 2];
        }
      }
    }
  }

  /** Every shown value is the initially kept value or one of the readings. */
  lemma {:induction false} RunShowsOnlyReadings(kept: Option<real>, readings: seq<real>)
    ensures forall i :: 0 <= i < |readings| ==>
              Run(kept, readings)[i] in readings || (kept.Some? && Run(kept, readings)[i] == kept.value)
    decreases |readings|
  {
    if readings != [] {
      var r := Adopt(kept, readings[0]);
      RunShowsOnlyReadings(Some(r), readings[1..]);
      var out := Run(kept, readings);
      forall i | 0 <= i < |readings|
        ensures out[i] in readings || (kept.Some? && out[i] == kept.value)
      {
        if i > 0 {
          var tail := Run(Some(r), readings[1..]);
          assert out[i] == tail[i - 1];
          if tail[i - 1] in readings[1..] {
            assert tail[i - 1] in readings;
          }
        }
      }
    }
  }

  /** A real change of the threshold or more is never shown while the readings stay
      that far from the kept value: the kept value is held forever. */
  lemma {:induction false} RunHoldsAgainstLargeChange(k: real, readings: seq<real>)
    requires forall i :: 0 <= i < |readings| ==> Abs(readings[i] - k) >= Threshold
    ensures forall i :: 0 <= i < |readings| ==> Run(Some(k), readings)[i] == k
  {
    if readings != [] {
      RunHoldsAgainstLargeChange(k, readings[1..]);
      var out := Run(Some(k), readings);
      forall i | 0 < i < |readings| ensures out[i] == k {
        assert out[i] == Run(Some(k), readings[1..])[i - 1];
      }
    }
  }
}
