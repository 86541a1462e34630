/** Counter rates over the per-service item state: `get_rate` reads the
    sample last stored under a key, stores the new one and returns the
    change per second, or reports why it cannot. */
module ItemState {
  import opened Wrappers

  /** A stored sample: the time it was taken and the counter value. */
  datatype Sample = Sample(time: real, value: real)

  /** What `get_rate` does when no rate can be computed. */
  datatype OnWrap = RAISE | ZERO | SKIP

  /** The three reasons of `GetRateError`. */
  datatype RateError = CounterInitialization | NoTimeDifference | ValueOverflow
  {
    function Message(): (m: string)
      ensures |m| > 0
    {
      match this
      case CounterInitialization => "Counter initialization"
      case NoTimeDifference => "No time difference"
      case ValueOverflow => "Value overflow"
    }
  }

  /** Why no rate can be computed from `prior` to (`time`, `value`), checked
      in this order: no earlier sample, time not advanced, counter
      decreased while negative rates are not allowed. */
  function WrapReason(prior: Option<Sample>, time: real, value: real, allowNegative: bool): Option<RateError>
  {
    match prior
    case None => Some(CounterInitialization)
    case Some(s) =>
      if time <= s.time then Some(NoTimeDifference)
      else if value < s.value && !allowNegative then Some(ValueOverflow)
      else None
  }

  /** The result of `get_rate` given the sample stored before the call. */
  function Rate(prior: Option<Sample>, time: real, value: real, allowNegative: bool, onwrap: OnWrap): (r: Result<real, RateError>)
    ensures r.Err? <==> onwrap == RAISE && WrapReason(prior, time, value, allowNegative).Some?
    ensures r.Err? ==> Some(r.error) == WrapReason(prior, time, value, allowNegative)
    ensures r.Ok? && WrapReason(prior, time, value, allowNegative).Some? ==> r.value == 0.0
    ensures r.Ok? && WrapReason(prior, time, value, allowNegative).None? ==>
              prior.Some? && time > prior.value.time && r.value * (time - prior.value.time) == value - prior.value.value
    ensures r.Ok? && !allowNegative ==> r.value >= 0.0
  {
    match WrapReason(prior, time, value, allowNegative)
    case Some(e) => if onwrap == RAISE then Err(e) else Ok(0.0)
    case None => Ok((value - prior.value.value) / (time - prior.value.time))
  }

  /** The keyed item-state store of one check. A key may be stored with
      `None`, which reads as no sample. */
  class ItemStateStore {
    var store: map<string, Option<Sample>>

    constructor ()
      ensures store == map[]
    {
      store := map[];
    }

    /** `get_item_state(key, None)`. */
    function Get(key: string): Option<Sample>
      reads this
    {
      if key in store then store[key] else None
    }

    /** `set_item_state`. */
    method Set(key: string, state: Option<Sample>)
      modifies this
      ensures store == old(store)[key := state]
      ensures Get(key) == state
    {
      store := store[key := state];
    }

    /** `get_rate`: the new sample is stored whether or not a rate results. */
    method GetRate(key: string, time: real, value: real, allowNegative: bool, onwrap: OnWrap) returns (r: Result<real, RateError>)
      modifies this
      ensures r == Rate(old(Get(key)), time, value, allowNegative, onwrap)
      ensures store == old(store)[key := Some(Sample(time, value))]
    {
      var prior := Get(key);
      store := store[key := Some(Sample(time, value))];
      r := Rate(prior, time, value, allowNegative, onwrap);
    }
  }

  /** The error cases of `test_get_rate_raises`. */
  lemma RateRaises()
    ensures Rate(Some(Sample(0.0, 42.0)), 0.0, 42.0, false, RAISE) == Err(NoTimeDifference)
    ensures Rate(Some(Sample(0.0, 42.0)), 1.0, 23.0, false, RAISE) == Err(ValueOverflow)
    ensures Rate(None, 0.0, 42.0, false, RAISE) == Err(CounterInitialization)
  {
  }

  /** The values of `test_get_rate`, all with negative rates allowed. */
  lemma RateValues()
    ensures Rate(Some(Sample(0.0, 42.0)), 1.0, 42.0, true, RAISE) == Ok(0.0)
    ensures Rate(None, 1.0, 42.0, true, ZERO) == Ok(0.0)
    ensures Rate(None, 1.0, 42.0, true, SKIP) == Ok(0.0)
    ensures Rate(Some(Sample(0.0, 23.0)), 38.0, 42.0, true, RAISE) == Ok(0.5)
    ensures Rate(Some(Sample(0.0, 42.0)), 19.0, 23.0, true, RAISE) == Ok(-1.0)
  {
    assert WrapReason(Some(Sample(0.0, 42.0)), 19.0, 23.0, true) == None;
    assert (23.0 - 42.0) / (19.0 - 0.0) == -1.0;
  }

  /** Allowing negative rates changes only the overflow case: the rate
      itself is the same, and the error disappears. */
  lemma AllowNegativeOnlyAffectsOverflow(prior: Option<Sample>, time: real, value: real, onwrap: OnWrap)
    ensures Rate(prior, time, value, false, onwrap) != Rate(prior, time, value, true, onwrap) <==>
              prior.Some? && time > prior.value.time && value < prior.value.value
  {
    if prior.Some? && time > prior.value.time && value < prior.value.value {
      var s := prior.value;
      assert (value - s.value) / (time - s.time) < 0.0 by {
        assert value - s.value < 0.0 && time - s.time > 0.0;
      }
    }
  }

  /** A sample taken one second after a stored one, with the counter
      risen by `delta`, gives the rate `delta`. */
  lemma OneSecondRate(s: Sample, delta: real)
    requires delta >= 0.0
    ensures Rate(Some(s), s.time + 1.0, s.value + delta, false, RAISE) == Ok(delta)
  {
    assert WrapReason(Some(s), s.time + 1.0, s.value + delta, false) == None;
    var elapsed, rise := s.time + 1.0 - s.time, s.value + delta - s.value;
    assert elapsed == 1.0 && rise == delta;
    assert rise / elapsed == delta;
  }

  /** Two calls in a row: the first only initialises the counter, the
      second, one second later, returns the counter's rise. */
  method SuccessiveRates() returns (first: Result<real, RateError>, second: Result<real, RateError>)
    ensures first == Err(CounterInitialization)
    ensures second == Ok(19.0)
  {
    var state := new ItemStateStore();
    state.Set("foo", None);
    first := state.GetRate("foo", 0.0, 23.0, false, RAISE);
    second := state.GetRate("foo", 1.0, 42.0, false, RAISE);
    OneSecondRate(Sample(0.0, 23.0), 19.0);
  }
}
