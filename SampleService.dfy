/** The sample business operation (NotificationPatternSample/Service.cs).
    Dates are tick counts; `today` is the tick of today's midnight, read
    from the clock by the caller; `cancelled` says whether the cancellation
    token fires during the delay. */
module SampleService {
  import Wrappers
  import opened Notifications
  import ResultExtensions

  /** Ticks (100 ns units) in one day. */
  const TicksPerDay: int := 864_000_000_000

  const DateGreaterThanToday: Notification :=
    Notification(Error, "Service.GreaterThanToday", Wrappers.Some("Operation date greater than today"))
  const InvalidOperation: Notification :=
    Notification(Error, "Service.InvalidOperation", Wrappers.Some("Invalid operation"))
  const DateLessThanToday: Notification :=
    Notification(Warning, "Service.DateLessThanToday", Wrappers.Some("Operation date less than today"))

  /** The (errors, warnings) of the Result the operation returns, or None
      when it is cancelled and returns no Result. */
  function Expected(date: int, valid: bool, today: int, cancelled: bool)
    : (o: Wrappers.Option<(seq<Notification>, seq<Notification>)>)
    ensures o.None? <==> date <= today && cancelled
    ensures o.Some? ==> |o.value.0| + |o.value.1| <= 1
    ensures o.Some? ==> (o.value.0 != [] <==> date > today || !valid)
    ensures o.Some? ==> (o.value.1 != [] <==> date < today && valid)
    ensures date > today ==> o == Wrappers.Some(([DateGreaterThanToday], []))
    ensures o.Some? && date <= today && !valid ==> o.value == ([InvalidOperation], [])
    ensures o.Some? && date < today && valid ==> o.value == ([], [DateLessThanToday])
    ensures o.Some? && date == today && valid ==> o.value == ([], [])
  {
    if date > today then Wrappers.Some(([DateGreaterThanToday], []))
    else if cancelled then Wrappers.None
    else if !valid then Wrappers.Some(([InvalidOperation], []))
    else if date < today then Wrappers.Some(([], [DateLessThanToday]))
    else Wrappers.Some(([], []))
  }

  /** `Service.Operation`: a future date fails at once; otherwise the delay
      may be cancelled; then an invalid request fails, and a valid one
      succeeds, warning when the date lies before today. */
  method Operation(date: int, valid: bool, today: int, cancelled: bool) returns (r: Wrappers.Option<Result>)
    ensures r.Some? ==> fresh(r.value)
    ensures r.None? <==> Expected(date, valid, today, cancelled).None?
    ensures r.Some? ==> (r.value.errors, r.value.warnings) == Expected(date, valid, today, cancelled).value
  {
    var notifications: seq<Notification> := [];
    if date > today {
      var failure := AsResult(DateGreaterThanToday);
      return Wrappers.Some(failure);
    }
    if cancelled {
      return Wrappers.None;
    }
    if !valid {
      var failure := AsResult(InvalidOperation);
      return Wrappers.Some(failure);
    }
    if date < today {
      notifications := notifications + [DateLessThanToday];
    }
    assert notifications == (if date < today then [DateLessThanToday] else []);
    SingletonRouting(DateLessThanToday);
    var t := Result.SuccessFrom(notifications);
    assert t.Ok?;
    r := Wrappers.Some(t.value);
  }

  /** A date later today (time of day after midnight) counts as after today:
      the comparison is against midnight and the date is not normalised. */
  lemma LaterTodayIsFuture(today: int, timeOfDay: int, valid: bool, cancelled: bool)
    requires 0 < timeOfDay < TicksPerDay
    ensures Expected(today + timeOfDay, valid, today, cancelled) == Wrappers.Some(([DateGreaterThanToday], []))
  {
  }

  /** A date one day before the current instant lies before today's midnight,
      and a valid request for it succeeds with the single warning. */
  lemma YesterdayWarns(now: int, today: int)
    requires today <= now < today + TicksPerDay
    ensures Expected(now - TicksPerDay, true, today, false) == Wrappers.Some(([], [DateLessThanToday]))
  {
  }

  /** Today's midnight, valid, not cancelled: success with no notifications. */
  lemma TodaySucceeds(today: int)
    ensures Expected(today, true, today, false) == Wrappers.Some(([], []))
  {
  }

  /** What the route handler sends back for a Result of the operation: the
      problem shape exactly when the date is after today or the request is
      invalid; a success carries `warnings` exactly for a past date. */
  lemma {:induction false} OperationResponse(date: int, valid: bool, today: int, r: Result)
    requires (r.errors, r.warnings) == Expected(date, valid, today, false).value
    ensures ResultExtensions.ToResponse(r).ProblemResult? <==> date > today || !valid
    ensures ResultExtensions.ToResponse(r).OkResult? ==>
      ResultExtensions.ToResponse(r).success.extensions ==
        (if date < today then [ResultExtensions.Extension("warnings", [ResultExtensions.Item(DateLessThanToday.code, DateLessThanToday.description)])]
         else [])
  {
    if date < today && valid {
      var item := ResultExtensions.Item(DateLessThanToday.code, DateLessThanToday.description);
      assert ResultExtensions.Project(r.warnings)[0] == item;
      assert ResultExtensions.Project(r.warnings) == [item];
    }
  }
}
