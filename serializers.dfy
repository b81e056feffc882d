/** The validation hooks of the schedule and barber serializers. Each either
    returns the data it was given or raises a validation error; the one
    database query, "does an overlapping active schedule exist", reads the
    stored table passed in as `stored`. */
module Serializers {
  import opened Wrappers
  import opened Models
  import Seqs

  /** A schedule request after field-level parsing. A key missing from the
      request is None. */
  datatype ScheduleData = ScheduleData(
    barber: Option<UserId>,
    day: Option<int>,
    start: Option<Time>,
    end: Option<Time>,
    active: Option<bool>)

  datatype Rejection = StartNotBeforeEnd | OverlapsExisting

  /** barber, day_of_week, start_time and end_time are all in the data. */
  predicate HasAllKeys(d: ScheduleData)
  {
    d.barber.Some? && d.day.Some? && d.start.Some? && d.end.Some?
  }

  /** Both times are present and the window is empty or backwards. */
  predicate Inverted(d: ScheduleData)
  {
    d.start.Some? && d.end.Some? && d.start.value >= d.end.value
  }

  /** The filter of the overlap query: same barber, same weekday, active,
      start_time < end and end_time > start. */
  predicate Clashes(row: Schedule, barber: UserId, day: int, start: Time, end: Time)
  {
    row.barber == barber && row.day == day && row.active && row.start < end && row.end > start
  }

  predicate AnyClash(stored: seq<Schedule>, barber: UserId, day: int, start: Time, end: Time)
  {
    exists row :: row in stored && Clashes(row, barber, day, start, end)
  }

  /** ScheduleSerializer.validate. `instance` is the row being updated, None
      on creation. The query also excludes the instance's id, which on
      creation excludes nothing, so that step has no counterpart here. */
  function ValidateSchedule(data: ScheduleData, instance: Option<Schedule>, stored: seq<Schedule>)
    : (r: Result<ScheduleData, Rejection>)
    ensures r.Ok? ==> r.value == data
  {
    if Inverted(data) then Err(StartNotBeforeEnd)
    else if instance.None? && HasAllKeys(data)
         && AnyClash(stored, data.barber.value, data.day.value, data.start.value, data.end.value)
    then Err(OverlapsExisting)
    else Ok(data)
  }

  /** The ordering check comes first: a backwards window is reported as such
      whatever the stored rows, and only a backwards window is. */
  lemma OrderingCheckedFirst(data: ScheduleData, instance: Option<Schedule>, stored: seq<Schedule>)
    ensures ValidateSchedule(data, instance, stored) == Err(StartNotBeforeEnd) <==> Inverted(data)
  {
  }

  /** Times keep their fractions of a second: a window from 09:00:00.5 to
      09:00:00.7 is a forward window and passes the ordering check. */
  lemma FractionalSecondsOrdered()
    ensures
      var data := ScheduleData(None, None, Some(At(9, 0) + 500_000), Some(At(9, 0) + 700_000), None);
      !Inverted(data) && ValidateSchedule(data, None, []) == Ok(data)
  {
  }

  /** A window given by one time only is never checked for order: an update
      carrying just one of the two times is accepted as it is. */
  lemma OneTimeOnlyNotOrdered(data: ScheduleData, instance: Option<Schedule>, stored: seq<Schedule>)
    requires data.start.None? || data.end.None?
    requires instance.Some?
    ensures ValidateSchedule(data, instance, stored) == Ok(data)
  {
  }

  /** On creation with all keys present and a forward window, the data is
      refused exactly when some stored row of the same barber and weekday is
      active and overlaps the half-open window [start, end). */
  lemma CreationRejectedIff(data: ScheduleData, stored: seq<Schedule>)
    requires HasAllKeys(data) && !Inverted(data)
    ensures ValidateSchedule(data, None, stored).Err? <==>
      exists row :: row in stored && row.barber == data.barber.value && row.day == data.day.value
        && row.active && row.start < data.end.value && data.start.value < row.end
  {
  }

  /** Instant t lies in the half-open window [from, to). */
  predicate Within(t: Time, from: Time, to: Time)
  {
    from <= t < to
  }

  /** The query's strict inequalities mean half-open windows: for two forward
      windows, Clashes holds exactly when some instant lies in both. */
  lemma {:induction false} ClashIsSharedInstant(row: Schedule, barber: UserId, day: int, start: Time, end: Time)
    requires row.start < row.end && start < end
    ensures Clashes(row, barber, day, start, end) <==>
      row.barber == barber && row.day == day && row.active
      && exists t: Time :: Within(t, row.start, row.end) && Within(t, start, end)
  {
    if Clashes(row, barber, day, start, end) {
      var t: Time := if row.start < start then start else row.start;
      assert Within(t, row.start, row.end) && Within(t, start, end);
    }
  }

  /** A stored window that ends where the new one starts, or starts where it
      ends, does not clash with it. */
  lemma TouchingWindowsAccepted(row: Schedule, barber: UserId, day: int, start: Time, end: Time)
    requires row.end == start || row.start == end
    ensures !Clashes(row, barber, day, start, end)
  {
  }

  /** Inactive rows, rows of other barbers and rows of other weekdays never
      cause a rejection: the result is the same when only the active rows of
      that barber and weekday are stored. */
  lemma {:induction false} OnlyRelevantRowsMatter(data: ScheduleData, instance: Option<Schedule>, stored: seq<Schedule>)
    requires HasAllKeys(data)
    ensures ValidateSchedule(data, instance, stored) ==
      ValidateSchedule(data, instance,
        Seqs.Filter(stored, (row: Schedule) => row.barber == data.barber.value && row.day == data.day.value && row.active))
  {
    var keep := (row: Schedule) => row.barber == data.barber.value && row.day == data.day.value && row.active;
    var relevant := Seqs.Filter(stored, keep);
    var b, d, s, e := data.barber.value, data.day.value, data.start.value, data.end.value;
    if AnyClash(stored, b, d, s, e) {
      var row :| row in stored && Clashes(row, b, d, s, e);
      Seqs.FilterMembers(stored, keep, row);
    }
    if AnyClash(relevant, b, d, s, e) {
      var row :| row in relevant && Clashes(row, b, d, s, e);
      Seqs.FilterMembers(stored, keep, row);
    }
  }

  /** On update (an instance is present), or when a key is missing, the
      overlap query is skipped: the stored rows do not affect the result. */
  lemma OverlapSkipped(data: ScheduleData, instance: Option<Schedule>, stored: seq<Schedule>)
    requires instance.Some? || !HasAllKeys(data)
    ensures ValidateSchedule(data, instance, stored) == ValidateSchedule(data, instance, [])
    ensures ValidateSchedule(data, instance, stored).Ok? <==> !Inverted(data)
  {
  }

  /** An overlap rejection needs a stored row with the same barber and
      weekday, so a table that honours unique_together and has no row for
      that key never produces one. */
  lemma OverlapNeedsSameKey(data: ScheduleData, stored: seq<Schedule>)
    requires HasAllKeys(data)
    requires forall row :: row in stored ==> row.barber != data.barber.value || row.day != data.day.value
    ensures ValidateSchedule(data, None, stored) != Err(OverlapsExisting)
  {
  }

  /** The fields of a barber profile that this model keeps: the username,
      None when the request leaves it out, and the phone number, blank when
      the request leaves it out. */
  datatype BarberData = BarberData(username: Option<string>, phone: string)

  datatype BarberRejection = NotABarber

  /** BarberSerializer.validate: refuses an existing user whose role is not
      barber; otherwise returns the data unchanged. */
  function ValidateBarber(instance: Option<User>, data: BarberData): (r: Result<BarberData, BarberRejection>)
    ensures r.Err? <==> instance.Some? && instance.value.role != Barber
    ensures r.Ok? ==> r.value == data
  {
    if instance.Some? && instance.value.role != Barber then Err(NotABarber) else Ok(data)
  }
}
