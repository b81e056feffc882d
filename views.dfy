/** The barber endpoint: its permission table, the creation of barbers, and
    the two extra actions that list, add, update and delete the schedules
    of one barber. The database tables the endpoint works on are the fields
    of the class BarberViewSet; each action is a method that returns the
    response it sends. */
module Views {
  import opened Wrappers
  import opened Models
  import opened Serializers
  import Seqs

  // ---------------------------------------------------------------------
  // Permissions

  /** Who sends the request. `isStaff` is the flag the admin permission
      reads; it is not the role. */
  datatype Requester = Anonymous | Authenticated(user: UserId, isStaff: bool)

  /** The six actions of a model view set and the two extra actions. */
  datatype Action =
    | List | Retrieve | Create | Update | PartialUpdate | Destroy
    | SchedulesAction  // GET or POST .../schedules/
    | ScheduleAction   // PUT or DELETE .../schedule/

  predicate AdminOnly(a: Action)
  {
    a == Create || a == Update || a == PartialUpdate || a == Destroy
  }

  datatype Denial = NotAuthenticated | PermissionDenied

  /** get_permissions: the four writing actions need a staff user, every other
      action an authenticated one. A request without credentials is answered
      "not authenticated" either way. */
  function CheckPermission(a: Action, who: Requester): (d: Option<Denial>)
    ensures d.None? <==> who.Authenticated? && (AdminOnly(a) ==> who.isStaff)
    ensures d == Some(NotAuthenticated) <==> who.Anonymous?
  {
    if who.Anonymous? then Some(NotAuthenticated)
    else if AdminOnly(a) && !who.isStaff then Some(PermissionDenied)
    else None
  }

  /** A staff user may do all that any other user may, and the schedule
      actions, which add, change and delete rows, are open to every
      authenticated user. */
  lemma PermissionsByAction(a: Action, u: UserId)
    ensures CheckPermission(a, Authenticated(u, true)) == None
    ensures !AdminOnly(a) ==> CheckPermission(a, Authenticated(u, false)) == None
    ensures CheckPermission(SchedulesAction, Authenticated(u, false)) == None
    ensures CheckPermission(ScheduleAction, Authenticated(u, false)) == None
    ensures AdminOnly(a) ==> CheckPermission(a, Authenticated(u, false)) == Some(PermissionDenied)
  {
  }

  // ---------------------------------------------------------------------
  // Responses

  datatype Reason =
    | MissingField           // a required field is absent
    | InvalidField           // a day outside the choices, an unknown barber, a malformed phone
    | NotUnique              // the barber already has a schedule for that weekday
    | Invalid(why: Rejection) // refused by ScheduleSerializer.validate
    | NoScheduleId           // neither the body nor the query names a schedule

  datatype Outcome =
    | Listed(rows: seq<Schedule>)
    | Created(row: Schedule)
    | Updated(row: Schedule)
    | Deleted
    | BarberCreated(id: UserId, user: User)
    | BadRequest(reason: Reason)
    | Denied(denial: Denial)
    | NotFound

  // ---------------------------------------------------------------------
  // The schedule id of an update or a delete

  /** A value in the JSON body counts only when it is truthy: absent and 0
      both fall through to the query string. A query value is text, so any
      value given there counts (a blank one is read as absent). */
  predicate BodyIdGiven(bodyId: Option<nat>)
  {
    bodyId.Some? && bodyId.value != 0
  }

  function ChosenScheduleId(bodyId: Option<nat>, queryId: Option<nat>): Option<nat>
  {
    if BodyIdGiven(bodyId) then bodyId else queryId
  }

  /** The id in the body takes precedence over the query parameter, and an id
      is missing only when neither gives one. */
  lemma ChosenIdPrecedence(bodyId: Option<nat>, queryId: Option<nat>)
    ensures BodyIdGiven(bodyId) ==> ChosenScheduleId(bodyId, queryId) == bodyId
    ensures !BodyIdGiven(bodyId) ==> ChosenScheduleId(bodyId, queryId) == queryId
    ensures ChosenScheduleId(bodyId, queryId).None? <==> !BodyIdGiven(bodyId) && queryId.None?
  {
  }

  // ---------------------------------------------------------------------
  // Partial update of one row

  /** Saving a partial update: every field present in the validated data is
      written, every other field keeps its stored value. */
  function ApplyPatch(row: Schedule, patch: ScheduleData): (r: Schedule)
    ensures r.id == row.id
  {
    row.(
      barber := if patch.barber.Some? then patch.barber.value else row.barber,
      day := if patch.day.Some? then patch.day.value else row.day,
      start := if patch.start.Some? then patch.start.value else row.start,
      end := if patch.end.Some? then patch.end.value else row.end,
      active := if patch.active.Some? then patch.active.value else row.active)
  }

  /** Only the supplied fields change; a patch with no field changes nothing;
      applying the same patch twice is applying it once. */
  lemma PatchChangesOnlySuppliedFields(row: Schedule, patch: ScheduleData)
    ensures patch.barber.None? ==> ApplyPatch(row, patch).barber == row.barber
    ensures patch.day.None? ==> ApplyPatch(row, patch).day == row.day
    ensures patch.start.None? ==> ApplyPatch(row, patch).start == row.start
    ensures patch.end.None? ==> ApplyPatch(row, patch).end == row.end
    ensures patch.active.None? ==> ApplyPatch(row, patch).active == row.active
    ensures patch.barber.Some? ==> ApplyPatch(row, patch).barber == patch.barber.value
    ensures patch.day.Some? ==> ApplyPatch(row, patch).day == patch.day.value
    ensures patch.start.Some? ==> ApplyPatch(row, patch).start == patch.start.value
    ensures patch.end.Some? ==> ApplyPatch(row, patch).end == patch.end.value
    ensures patch.active.Some? ==> ApplyPatch(row, patch).active == patch.active.value
    ensures ApplyPatch(row, ScheduleData(None, None, None, None, None)) == row
    ensures ApplyPatch(ApplyPatch(row, patch), patch) == ApplyPatch(row, patch)
  {
  }

  /** A partial update that carries only an end time is validated without
      the ordering check, so it can leave a stored window backwards: a 09:00
      to 17:00 row patched with end 08:00 is accepted. */
  lemma PartialUpdateCanInvertWindow()
    ensures
      var row := Schedule(1, 7, 0, At(9, 0), At(17, 0), true);
      var patch := ScheduleData(None, None, None, Some(At(8, 0)), None);
      ValidateSchedule(patch, Some(row), [row]) == Ok(patch)
      && ApplyPatch(row, patch).start > ApplyPatch(row, patch).end
  {
  }

  /** Deleting row i of a table with unique ids keeps exactly the rows with
      another id. */
  lemma {:induction false} RemoveAtKeepsOtherIds(rows: seq<Schedule>, i: nat, x: Schedule)
    requires UniqueIds(rows)
    requires i < |rows|
    ensures x in Seqs.RemoveAt(rows, i) <==> x in rows && x.id != rows[i].id
  {
    var r := Seqs.RemoveAt(rows, i);
    if x in r {
      var j :| 0 <= j < |r| && r[j] == x;
      var k := if j < i then j else j + 1;
      assert rows[k] == x && k != i;
      assert rows[k].id != rows[i].id by {
        if k < i { assert rows[k].id != rows[i].id; } else { assert rows[i].id != rows[k].id; }
      }
    }
    if x in rows && x.id != rows[i].id {
      var k :| 0 <= k < |rows| && rows[k] == x;
      assert k != i;
      var j := if k < i then k else k - 1;
      assert r[j] == x;
    }
  }

  /** Removing a row keeps both uniqueness constraints. */
  lemma RemoveAtKeepsUnique(rows: seq<Schedule>, i: nat)
    requires UniqueIds(rows) && UniquePerBarberDay(rows)
    requires i < |rows|
    ensures UniqueIds(Seqs.RemoveAt(rows, i)) && UniquePerBarberDay(Seqs.RemoveAt(rows, i))
  {
    var r := Seqs.RemoveAt(rows, i);
    forall a, b | 0 <= a < b < |r|
      ensures r[a].id != r[b].id && (r[a].barber != r[b].barber || r[a].day != r[b].day)
    {
      var a', b' := if a < i then a else a + 1, if b < i then b else b + 1;
      assert r[a] == rows[a'] && r[b] == rows[b'] && a' < b';
    }
  }

  /** Appending a row with a fresh id and a fresh (barber, weekday) pair
      keeps both uniqueness constraints. */
  lemma AppendKeepsUnique(rows: seq<Schedule>, row: Schedule)
    requires UniqueIds(rows) && UniquePerBarberDay(rows)
    requires forall i :: 0 <= i < |rows| ==> rows[i].id != row.id
    requires forall i :: 0 <= i < |rows| ==> rows[i].barber != row.barber || rows[i].day != row.day
    ensures UniqueIds(rows + [row]) && UniquePerBarberDay(rows + [row])
  {
    var r := rows + [row];
    forall a, b | 0 <= a < b < |r|
      ensures r[a].id != r[b].id && (r[a].barber != r[b].barber || r[a].day != r[b].day)
    {
      assert r[a] == rows[a];
      if b < |rows| { assert r[b] == rows[b]; } else { assert r[b] == row; }
    }
  }

  /** An instance handed to BarberSerializer.validate by this view set comes
      from its queryset, which holds only barbers, so validation never fails
      there. */
  lemma BarberInstancesPassValidation(users: map<UserId, User>, pk: UserId, data: BarberData)
    requires pk in users && users[pk].role == Barber
    ensures ValidateBarber(Some(users[pk]), data) == Ok(data)
  {
  }

  // ---------------------------------------------------------------------
  // The view set over the user and schedule tables

  class BarberViewSet {
    var users: map<UserId, User>
    var nextUserId: UserId
    var schedules: seq<Schedule>
    var nextScheduleId: ScheduleId

    /** Ids are positive and below the next one to hand out; every stored
        schedule has a day in the choices and belongs to a barber; ids and
        (barber, weekday) pairs are unique. */
    ghost predicate Valid()
      reads this
    {
      && 0 < nextUserId
      && 0 < nextScheduleId
      && (forall u :: u in users ==> 0 < u < nextUserId)
      && (forall u, v :: u in users && v in users && u != v ==> users[u].username != users[v].username)
      && (forall i :: 0 <= i < |schedules| ==>
            0 < schedules[i].id < nextScheduleId
            && ValidDay(schedules[i].day)
            && IsBarber(schedules[i].barber))
      && UniqueIds(schedules)
      && UniquePerBarberDay(schedules)
    }

    constructor ()
      ensures Valid()
      ensures users == map[] && schedules == []
    {
      users := map[];
      nextUserId := 1;
      schedules := [];
      nextScheduleId := 1;
    }

    /** The view set's queryset: users whose role is barber. */
    predicate IsBarber(pk: UserId)
      reads this
    {
      pk in users && users[pk].role == Barber
    }

    /** Some stored user already has this username. */
    predicate UsernameTaken(name: string)
      reads this
    {
      exists u :: u in users && users[u].username == name
    }

    /** Some row other than `except` already holds this barber and weekday. */
    predicate KeyTaken(barber: UserId, day: int, except: Option<ScheduleId>)
      reads this
    {
      exists i :: 0 <= i < |schedules| && schedules[i].barber == barber && schedules[i].day == day
        && (except.None? || schedules[i].id != except.value)
    }

    /** get_object_or_404(Schedule, id=id, barber=barber). */
    function Locate(pk: UserId, id: ScheduleId): (r: Option<nat>)
      reads this
      ensures r.Some? ==> r.value < |schedules| && schedules[r.value].id == id && schedules[r.value].barber == pk
      ensures r.None? <==> forall i :: 0 <= i < |schedules| ==> schedules[i].id != id || schedules[i].barber != pk
    {
      Seqs.FindIndex(schedules, (s: Schedule) => s.id == id && s.barber == pk)
    }

    /** The row an update or a delete acts on: the chosen id, owned by `pk`. */
    function Target(pk: UserId, bodyId: Option<nat>, queryId: Option<nat>): (r: Option<nat>)
      reads this
      ensures r.Some? ==>
        (r.value < |schedules| && ChosenScheduleId(bodyId, queryId).Some?
         && schedules[r.value].id == ChosenScheduleId(bodyId, queryId).value && schedules[r.value].barber == pk)
      ensures r.None? <==>
        ChosenScheduleId(bodyId, queryId).None? || Locate(pk, ChosenScheduleId(bodyId, queryId).value).None?
    {
      match ChosenScheduleId(bodyId, queryId)
      case None => None
      case Some(id) => Locate(pk, id)
    }

    /** The fields of a patch that are checked one by one: a day among the
        choices, and a barber that exists with the barber role. */
    predicate PatchFieldsValid(patch: ScheduleData)
      reads this
    {
      (patch.day.Some? ==> ValidDay(patch.day.value))
      && (patch.barber.Some? ==> IsBarber(patch.barber.value))
    }

    /** GET .../barbers/{pk}/schedules/: every schedule of that barber,
        active or not, and no other. */
    method ListSchedules(who: Requester, pk: UserId) returns (out: Outcome)
      ensures who.Anonymous? ==> out == Denied(NotAuthenticated)
      ensures who.Authenticated? && !IsBarber(pk) ==> out == NotFound
      ensures who.Authenticated? && IsBarber(pk) ==>
        out == Listed(Seqs.Filter(schedules, (s: Schedule) => s.barber == pk))
      ensures out.Listed? ==> forall s :: s in out.rows <==> s in schedules && s.barber == pk
    {
      var denial := CheckPermission(SchedulesAction, who);
      if denial.Some? {
        return Denied(denial.value);
      }
      if !IsBarber(pk) {
        return NotFound;
      }
      var owned := (s: Schedule) => s.barber == pk;
      out := Listed(Seqs.Filter(schedules, owned));
      forall s ensures s in out.rows <==> s in schedules && s.barber == pk {
        Seqs.FilterMembers(schedules, owned, s);
      }
    }

    /** POST .../barbers/{pk}/schedules/: the barber in the URL replaces any
        barber in the body; the row gets the next id and, unless the body
        says otherwise, is active. */
    method AddSchedule(who: Requester, pk: UserId, body: ScheduleData) returns (out: Outcome)
      requires Valid()
      modifies this
      ensures Valid()
      ensures users == old(users) && nextUserId == old(nextUserId)
      ensures who.Anonymous? ==> out == Denied(NotAuthenticated)
      ensures who.Authenticated? && !old(IsBarber(pk)) ==> out == NotFound
      ensures out == BadRequest(MissingField) <==>
        who.Authenticated? && old(IsBarber(pk)) && (body.day.None? || body.start.None? || body.end.None?)
      ensures out == BadRequest(InvalidField) <==>
        who.Authenticated? && old(IsBarber(pk)) && body.day.Some? && body.start.Some? && body.end.Some?
        && !ValidDay(body.day.value)
      ensures out == BadRequest(NotUnique) <==>
        who.Authenticated? && old(IsBarber(pk)) && body.day.Some? && body.start.Some? && body.end.Some?
        && ValidDay(body.day.value) && old(KeyTaken(pk, body.day.value, None))
      ensures out == BadRequest(Invalid(StartNotBeforeEnd)) <==>
        who.Authenticated? && old(IsBarber(pk)) && body.day.Some? && body.start.Some? && body.end.Some?
        && ValidDay(body.day.value) && !old(KeyTaken(pk, body.day.value, None))
        && body.start.value >= body.end.value
      ensures out != BadRequest(Invalid(OverlapsExisting))
      ensures who.Authenticated? && old(IsBarber(pk)) && !out.Created? ==> out.BadRequest?
      ensures out.Created? <==>
        who.Authenticated? && old(IsBarber(pk))
        && body.day.Some? && body.start.Some? && body.end.Some?
        && ValidDay(body.day.value) && !old(KeyTaken(pk, body.day.value, None))
        && body.start.value < body.end.value
      ensures out.Created? ==>
        out.row == Schedule(old(nextScheduleId), pk, body.day.value, body.start.value, body.end.value,
                            if body.active.Some? then body.active.value else DefaultActive)
        && schedules == old(schedules) + [out.row]
        && nextScheduleId == old(nextScheduleId) + 1
      ensures out.Created? ==>
        Seqs.Filter(schedules, (s: Schedule) => s.barber == pk)
        == Seqs.Filter(old(schedules), (s: Schedule) => s.barber == pk) + [out.row]
      ensures !out.Created? ==> schedules == old(schedules) && nextScheduleId == old(nextScheduleId)
    {
      var denial := CheckPermission(SchedulesAction, who);
      if denial.Some? {
        return Denied(denial.value);
      }
      if !IsBarber(pk) {
        return NotFound;
      }
      var data := body.(barber := Some(pk));
      if data.day.None? || data.start.None? || data.end.None? {
        return BadRequest(MissingField);
      }
      if !ValidDay(data.day.value) {
        return BadRequest(InvalidField);
      }
      if KeyTaken(pk, data.day.value, None) {
        return BadRequest(NotUnique);
      }
      assert forall r :: r in schedules ==> r.barber != pk || r.day != data.day.value;
      OverlapNeedsSameKey(data, schedules);
      var checked := ValidateSchedule(data, None, schedules);
      if checked.Err? {
        return BadRequest(Invalid(checked.error));
      }
      var active := if data.active.Some? then data.active.value else DefaultActive;
      var row := Insert(pk, data.day.value, data.start.value, data.end.value, active);
      out := Created(row);
    }

    /** serializer.save() on creation: the row gets the next id and is
        appended to the table. */
    method Insert(barber: UserId, day: int, start: Time, end: Time, active: bool) returns (row: Schedule)
      requires Valid()
      requires IsBarber(barber) && ValidDay(day) && !KeyTaken(barber, day, None)
      modifies this
      ensures Valid()
      ensures users == old(users) && nextUserId == old(nextUserId)
      ensures row == Schedule(old(nextScheduleId), barber, day, start, end, active)
      ensures schedules == old(schedules) + [row] && nextScheduleId == old(nextScheduleId) + 1
      ensures Seqs.Filter(schedules, (s: Schedule) => s.barber == barber)
              == Seqs.Filter(old(schedules), (s: Schedule) => s.barber == barber) + [row]
    {
      row := Schedule(nextScheduleId, barber, day, start, end, active);
      Seqs.FilterAppend(schedules, row, (s: Schedule) => s.barber == barber);
      AppendKeepsUnique(schedules, row);
      ghost var before := schedules;
      schedules := schedules + [row];
      nextScheduleId := nextScheduleId + 1;
      forall j | 0 <= j < |schedules|
        ensures 0 < schedules[j].id < nextScheduleId && ValidDay(schedules[j].day) && IsBarber(schedules[j].barber)
      {
        if j < |before| { assert schedules[j] == before[j]; }
      }
    }

    /** PUT .../barbers/{pk}/schedule/: a partial update of the chosen row
        of that barber. The patch's fields are checked one by one, the
        (barber, weekday) pair after the update must stay unique, and
        ScheduleSerializer.validate runs on the patch alone, with the row as
        its instance, so no overlap check applies. */
    method UpdateSchedule(who: Requester, pk: UserId, bodyId: Option<nat>, queryId: Option<nat>,
                          patch: ScheduleData) returns (out: Outcome)
      requires Valid()
      modifies this
      ensures Valid()
      ensures users == old(users) && nextUserId == old(nextUserId) && nextScheduleId == old(nextScheduleId)
      ensures who.Anonymous? ==> out == Denied(NotAuthenticated)
      ensures who.Authenticated? && !old(IsBarber(pk)) ==> out == NotFound
      ensures who.Authenticated? && old(IsBarber(pk)) && ChosenScheduleId(bodyId, queryId).None? ==>
        out == BadRequest(NoScheduleId)
      ensures (who.Authenticated? && old(IsBarber(pk)) && ChosenScheduleId(bodyId, queryId).Some?
               && old(Target(pk, bodyId, queryId)).None?) ==> out == NotFound
      ensures out == BadRequest(InvalidField) <==>
        who.Authenticated? && old(IsBarber(pk)) && old(Target(pk, bodyId, queryId)).Some?
        && !old(PatchFieldsValid(patch))
      ensures out == BadRequest(NotUnique) <==>
        who.Authenticated? && old(IsBarber(pk)) && old(Target(pk, bodyId, queryId)).Some?
        && old(PatchFieldsValid(patch))
        && var row := ApplyPatch(old(schedules)[old(Target(pk, bodyId, queryId)).value], patch);
           old(KeyTaken(row.barber, row.day, Some(row.id)))
      ensures out == BadRequest(Invalid(StartNotBeforeEnd)) <==>
        who.Authenticated? && old(IsBarber(pk)) && old(Target(pk, bodyId, queryId)).Some?
        && old(PatchFieldsValid(patch)) && Inverted(patch)
        && var row := ApplyPatch(old(schedules)[old(Target(pk, bodyId, queryId)).value], patch);
           !old(KeyTaken(row.barber, row.day, Some(row.id)))
      ensures out != BadRequest(Invalid(OverlapsExisting))
      ensures who.Authenticated? && old(IsBarber(pk)) && old(Target(pk, bodyId, queryId)).Some? && !out.Updated? ==>
        out.BadRequest?
      ensures out.Updated? <==>
        who.Authenticated? && old(IsBarber(pk)) && old(Target(pk, bodyId, queryId)).Some?
        && old(PatchFieldsValid(patch)) && !Inverted(patch)
        && var row := ApplyPatch(old(schedules)[old(Target(pk, bodyId, queryId)).value], patch);
           !old(KeyTaken(row.barber, row.day, Some(row.id)))
      ensures out.Updated? ==>
        var i := old(Target(pk, bodyId, queryId)).value;
        out.row == ApplyPatch(old(schedules)[i], patch)
        && schedules == old(schedules)[i := out.row]
      ensures !out.Updated? ==> schedules == old(schedules)
    {
      var denial := CheckPermission(ScheduleAction, who);
      if denial.Some? {
        return Denied(denial.value);
      }
      if !IsBarber(pk) {
        return NotFound;
      }
      var id := ChosenScheduleId(bodyId, queryId);
      if id.None? {
        return BadRequest(NoScheduleId);
      }
      var found := Locate(pk, id.value);
      if found.None? {
        return NotFound;
      }
      var i := found.value;
      if !PatchFieldsValid(patch) {
        return BadRequest(InvalidField);
      }
      var row := ApplyPatch(schedules[i], patch);
      if KeyTaken(row.barber, row.day, Some(row.id)) {
        return BadRequest(NotUnique);
      }
      var checked := ValidateSchedule(patch, Some(schedules[i]), schedules);
      if checked.Err? {
        return BadRequest(Invalid(checked.error));
      }
      Replace(i, row);
      out := Updated(row);
    }

    /** serializer.save() on update: row i is overwritten in place. */
    method Replace(i: nat, row: Schedule)
      requires Valid()
      requires i < |schedules| && row.id == schedules[i].id
      requires IsBarber(row.barber) && ValidDay(row.day) && !KeyTaken(row.barber, row.day, Some(row.id))
      modifies this
      ensures Valid()
      ensures users == old(users) && nextUserId == old(nextUserId) && nextScheduleId == old(nextScheduleId)
      ensures schedules == old(schedules)[i := row]
    {
      ghost var before := schedules;
      schedules := schedules[i := row];
      forall a, b | 0 <= a < b < |schedules|
        ensures schedules[a].id != schedules[b].id
             && (schedules[a].barber != schedules[b].barber || schedules[a].day != schedules[b].day)
      {
        if a == i {
          assert before[b].id != row.id;
        } else if b == i {
          assert before[a].id != row.id;
        } else {
          assert schedules[a] == before[a] && schedules[b] == before[b];
        }
      }
    }

    /** DELETE .../barbers/{pk}/schedule/: removes the chosen row of that
        barber and nothing else. */
    method DeleteSchedule(who: Requester, pk: UserId, bodyId: Option<nat>, queryId: Option<nat>)
      returns (out: Outcome)
      requires Valid()
      modifies this
      ensures Valid()
      ensures users == old(users) && nextUserId == old(nextUserId) && nextScheduleId == old(nextScheduleId)
      ensures who.Anonymous? ==> out == Denied(NotAuthenticated)
      ensures who.Authenticated? && !old(IsBarber(pk)) ==> out == NotFound
      ensures who.Authenticated? && old(IsBarber(pk)) && ChosenScheduleId(bodyId, queryId).None? ==>
        out == BadRequest(NoScheduleId)
      ensures (who.Authenticated? && old(IsBarber(pk)) && ChosenScheduleId(bodyId, queryId).Some?
               && old(Target(pk, bodyId, queryId)).None?) ==> out == NotFound
      ensures out == Deleted <==>
        who.Authenticated? && old(IsBarber(pk)) && old(Target(pk, bodyId, queryId)).Some?
      ensures out == Deleted ==>
        schedules == Seqs.RemoveAt(old(schedules), old(Target(pk, bodyId, queryId)).value)
        && forall s :: s in schedules <==> s in old(schedules) && s.id != ChosenScheduleId(bodyId, queryId).value
      ensures out != Deleted ==> schedules == old(schedules)
    {
      var denial := CheckPermission(ScheduleAction, who);
      if denial.Some? {
        return Denied(denial.value);
      }
      if !IsBarber(pk) {
        return NotFound;
      }
      var id := ChosenScheduleId(bodyId, queryId);
      if id.None? {
        return BadRequest(NoScheduleId);
      }
      var found := Locate(pk, id.value);
      if found.None? {
        return NotFound;
      }
      var i := found.value;
      ghost var before := schedules;
      RemoveAtKeepsUnique(schedules, i);
      schedules := Seqs.RemoveAt(schedules, i);
      forall j | 0 <= j < |schedules|
        ensures 0 < schedules[j].id < nextScheduleId && ValidDay(schedules[j].day) && IsBarber(schedules[j].barber)
      {
        assert schedules[j] == before[if j < i then j else j + 1];
      }
      forall s ensures s in schedules <==> s in before && s.id != id.value {
        RemoveAtKeepsOtherIds(before, i, s);
      }
      out := Deleted;
    }

    /** POST .../barbers/: a staff user creates a user, which is always
        stored with the barber role whatever the request says. The username
        is required, may not be blank and must be free; the phone may be
        blank and otherwise must match the phone pattern. */
    method CreateBarber(who: Requester, data: BarberData) returns (out: Outcome)
      requires Valid()
      modifies this
      ensures Valid()
      ensures schedules == old(schedules) && nextScheduleId == old(nextScheduleId)
      ensures CheckPermission(Create, who).Some? ==> out == Denied(CheckPermission(Create, who).value)
      ensures out == BadRequest(MissingField) <==> CheckPermission(Create, who).None? && data.username.None?
      ensures out == BadRequest(InvalidField) <==>
        CheckPermission(Create, who).None? && data.username.Some?
        && (data.username.value == ""
            || (!old(UsernameTaken(data.username.value)) && !ValidPhone(data.phone)))
      ensures out == BadRequest(NotUnique) <==>
        CheckPermission(Create, who).None? && data.username.Some? && data.username.value != ""
        && old(UsernameTaken(data.username.value))
      ensures out.BarberCreated? <==>
        CheckPermission(Create, who).None? && data.username.Some? && data.username.value != ""
        && !old(UsernameTaken(data.username.value)) && ValidPhone(data.phone)
      ensures CheckPermission(Create, who).None? && !out.BarberCreated? ==> out.BadRequest?
      ensures out.BarberCreated? ==>
        out.id == old(nextUserId) && out.user == User(data.username.value, Barber, data.phone)
        && users == old(users)[out.id := out.user] && nextUserId == old(nextUserId) + 1
        && IsBarber(out.id)
      ensures !out.BarberCreated? ==> users == old(users) && nextUserId == old(nextUserId)
    {
      var denial := CheckPermission(Create, who);
      if denial.Some? {
        return Denied(denial.value);
      }
      if data.username.None? {
        return BadRequest(MissingField);
      }
      var name := data.username.value;
      if name == "" {
        return BadRequest(InvalidField);
      }
      if UsernameTaken(name) {
        return BadRequest(NotUnique);
      }
      if !ValidPhone(data.phone) {
        return BadRequest(InvalidField);
      }
      var accepted := ValidateBarber(None, data).value;
      var user := User(name, Barber, accepted.phone);
      var id := nextUserId;
      users := users[id := user];
      nextUserId := nextUserId + 1;
      out := BarberCreated(id, user);
    }
  }
}
