/** Periods of time, as in pkg/model/time_bounds.go. */
module TimeBounds {
  import opened Wrappers
  import opened History

  datatype TimeBounds = TimeBounds(fromTime: Option<Time>, toTime: Option<Time>)

  /** Refuses exactly the pairs whose lower bound is after the upper one. */
  function NewTimeBounds(fromTime: Option<Time>, toTime: Option<Time>): (r: Result<TimeBounds, string>)
    ensures r.Err? <==> fromTime.Some? && toTime.Some? && toTime.value < fromTime.value
    ensures r.Ok? ==> (forall t: Time :: Contains(r.value, t) <==>
                        (fromTime.Some? ==> fromTime.value <= t) && (toTime.Some? ==> t <= toTime.value))
  {
    if fromTime.Some? && toTime.Some? && fromTime.value > toTime.value then
      Err("fromTime should be less than toTime")
    else
      Ok(TimeBounds(fromTime, toTime))
  }

  function NewTimeBoundsTo(toTime: Time): TimeBounds {
    NewTimeBounds(None, Some(toTime)).value
  }

  function NewTimeBoundsFrom(fromTime: Time): TimeBounds {
    NewTimeBounds(Some(fromTime), None).value
  }

  /** Both ends are inclusive. */
  predicate Contains(tb: TimeBounds, value: Time) {
    if tb.fromTime.Some? && value < tb.fromTime.value then false
    else if tb.toTime.Some? && tb.toTime.value < value then false
    else true
  }
}
