# Barber schedules of the barbershop booking backend, in Dafny

This project models the part of the barbershop appointment backend that has
logic of its own: the weekly working schedules of barbers.

- **Stored entities** (`models.dfy`, module `Models`):
  - users, with their closed set of roles and their phone-number validator;
  - schedules, one row per barber and weekday (Monday = 0 … Sunday = 6), unique per (barber, weekday);
  - appointments, with their closed set of statuses and their newest-first listing order.
- **Validation hooks** (`serializers.dfy`, module `Serializers`):
  - `ScheduleSerializer.validate`: the start must come before the end; on creation, no overlap with an active schedule of the same barber on the same weekday;
  - `BarberSerializer.validate`: refuses an existing user whose role is not barber.
- **The barber endpoint** (`views.dfy`, module `Views`):
  - the permission table of the view set;
  - the creation of barbers;
  - the actions that list, add, partially update and delete a barber's schedules. The class `BarberViewSet` holds the user table and the schedule table, and each action is a method that returns the response.
- **Helpers** (`seqs.dfy`, `wrappers.dfy`): sequence operations that stand for the database queries, plus `Option` and `Result`.

Times of day are microseconds after midnight, the resolution of a Python time. Overlap is tested on half-open
windows `[start, end)`, so windows that only touch do not clash
(`Serializers.ClashIsSharedInstant`).

What the model shows about the code as written:
- The schedule model declares `unique_together = ['barber', 'day_of_week']`. The serializer framework checks that constraint before it calls `validate`. The model does the same, in `AddSchedule` and `UpdateSchedule`.
- As a result, the overlap check in `validate` never decides a creation. A clashing row would have the same barber and weekday, and such a row is already refused as a duplicate. `AddSchedule` proves that it never answers "overlaps".
- On a partial update, `validate` sees only the fields in the request. The start/end ordering check runs only when both times are sent. An update carrying a single time can therefore store a backwards window (`Views.PartialUpdateCanInvertWindow`). For this reason the table invariant does not include `start < end`.
- The schedule actions need only an authenticated user. The admin permission applies only to the view set's own create, update, partial update and destroy. It reads the staff flag, not the `admin` role.

The code has no slot enumeration, break windows, schedule exceptions,
appointment conflict checks, derived end times or status transitions.
`Appointment.end` is a plain stored field, and statuses have no transition
rules.

## Model

| member | source | states |
|---|---|---|
| `Models.RoleCodes` | appointments/models.py:10-21 | every role has a stored code of at most 10 characters that reads back as that role; exactly the three codes client, barber and admin are accepted; the default role is client |
| `Models.PhonePatternShape` | appointments/models.py:16-19 | the pattern accepts exactly an optional `+`, then 9 to 15 digits or 16 digits starting with `1`, then the end of the text or one final line break |
| `Models.PhoneMaxLengthOnlyCutsNewline` | appointments/models.py:16-22 | any text the pattern accepts has at most 18 characters; the 17-character field limit only refuses a match that ends in a line break, which happens only when the validators run on their own, since the API strips the phone first |
| `Models.AcceptedPhones` | appointments/models.py:16-22 | blank, `+573001234567` and a 17-character `+1…` number are valid phones |
| `Models.RefusedPhones` | appointments/models.py:16-22 | eight digits, seventeen digits after `+` and a dashed number are not valid phones |
| `Models.DayNumbering` | appointments/models.py:60-76 | weekdays number 0..6 with Monday 0 and Sunday 6; a stored day is valid exactly when it is in 0..6, and numbers and weekdays convert both ways |
| `Models.StatusCodes` | appointments/models.py:93-98 | every status has a stored code of at most 20 characters that reads back as that status; exactly pending, confirmed, cancelled and completed are accepted |
| `Models.NewAppointment` | appointments/models.py:117-125 | an appointment created without a status is pending; every other field is stored as given, end time included |
| `Models.DisplayOrderIsTotalPreorder` | appointments/models.py:133 | the listing order (date descending, then start time descending) compares any two appointments and is reflexive and transitive |
| `Models.NewestFirst` | appointments/models.py:133 | in a list in that order, the first appointment has the latest date and the latest start among appointments of that date |
| `Serializers.ValidateSchedule` | appointments/serializers.py:43-73 | when validation passes it returns the data unchanged |
| `Serializers.FractionalSecondsOrdered` | appointments/serializers.py:49-53 | times keep fractions of a second: 09:00:00.5 to 09:00:00.7 is a forward window and passes the ordering check |
| `Serializers.OrderingCheckedFirst` | appointments/serializers.py:49-53 | the data is refused as "start not before end" exactly when both times are present and start >= end, whatever is stored |
| `Serializers.OneTimeOnlyNotOrdered` | appointments/serializers.py:49 | an update carrying only one of the two times passes validation |
| `Serializers.CreationRejectedIff` | appointments/serializers.py:56-71 | on creation with all keys and a forward window, the data is refused exactly when a stored active row of the same barber and weekday has start < new end and end > new start |
| `Serializers.ClashIsSharedInstant` | appointments/serializers.py:64-65 | for forward windows, the query's strict comparisons hold exactly when some instant lies in both half-open windows |
| `Serializers.TouchingWindowsAccepted` | appointments/serializers.py:64-65 | a stored window that ends where the new one starts, or starts where it ends, does not clash, whatever the order of either window's ends |
| `Serializers.OnlyRelevantRowsMatter` | appointments/serializers.py:57-61 | inactive rows, other barbers' rows and other weekdays' rows never affect the result |
| `Serializers.OverlapSkipped` | appointments/serializers.py:56 | with an instance present, or with a key missing, the stored rows do not affect the result and only the ordering check can refuse |
| `Serializers.OverlapNeedsSameKey` | appointments/serializers.py:56-66 | an overlap refusal needs a stored row with the same barber and weekday |
| `Serializers.ValidateBarber` | appointments/serializers.py:85-88 | fails exactly when an existing instance has a role other than barber; otherwise returns the data unchanged |
| `Views.CheckPermission` | appointments/views.py:54-62 | create, update, partial update and destroy need a staff user; every other action needs an authenticated one; a request without credentials is refused as not authenticated |
| `Views.PermissionsByAction` | appointments/views.py:54-62 | a staff user may perform every action; the two schedule actions are open to any authenticated user; a non-staff user is refused the four admin actions |
| `Views.ChosenIdPrecedence` | appointments/views.py:91-97 | a truthy id in the body wins over the query parameter; the id is missing exactly when the body gives none and the query gives none |
| `Views.ApplyPatch` | appointments/views.py:101-104 | saving a partial update keeps the row's id |
| `Views.PatchChangesOnlySuppliedFields` | appointments/views.py:101-104 | every supplied field takes the supplied value and every other field keeps its stored value; an empty patch changes nothing; applying a patch twice equals applying it once |
| `Views.PartialUpdateCanInvertWindow` | appointments/serializers.py:49-56 | a 09:00-17:00 row patched with only end 08:00 passes validation and ends up with start after end |
| `Views.RemoveAtKeepsOtherIds` | appointments/views.py:108-110 | deleting a row from a table with unique ids leaves exactly the rows with another id |
| `Views.RemoveAtKeepsUnique` | appointments/views.py:108-110 | deleting a row keeps ids and (barber, weekday) pairs unique |
| `Views.AppendKeepsUnique` | appointments/views.py:80 | appending a row with a fresh id and a free (barber, weekday) pair keeps ids and pairs unique |
| `Views.BarberViewSet.Insert` | appointments/views.py:79-80 | saving a created schedule appends it with the next id; the invariant holds, and the barber's listing gains the row at its end |
| `Views.BarberViewSet.Replace` | appointments/views.py:103-104 | saving an update overwrites that one row in place and keeps the invariant; all other rows stay as they were |
| `Views.BarberInstancesPassValidation` | appointments/views.py:44-45 | an instance drawn from the view set's barber-only queryset always passes the barber validation |
| `Views.BarberViewSet.Locate` | appointments/views.py:99 | finds a row with the given id that belongs to the given barber, and finds none exactly when no such row is stored |
| `Views.BarberViewSet.Target` | appointments/views.py:91-99 | the row an update or delete acts on has the chosen id and belongs to the URL's barber; there is none exactly when no id is given or that barber has no row with that id |
| `Views.BarberViewSet.ListSchedules` | appointments/views.py:70-75 | a request without credentials is refused; a user that is not a barber gives not-found; otherwise every schedule of that barber is listed, active or not, and no other |
| `Views.BarberViewSet.AddSchedule` | appointments/views.py:77-82 | refused without credentials, not-found for a non-barber. For a barber, every request that creates nothing is a 400, and the reason follows the check order: a missing field, else a day outside 0..6, else a taken weekday, else a backwards window, each exactly when the earlier checks pass. Otherwise a row is appended with the URL's barber, the next id and active defaulting to true, and it lists last among that barber's schedules. A refusal changes nothing, and the overlap refusal never occurs |
| `Views.BarberViewSet.UpdateSchedule` | appointments/views.py:90-106 | refused without credentials, not-found for a non-barber, 400 without an id, not-found for an id that barber does not own. For an owned row, every request that updates nothing is a 400, and the reason follows the check order: an invalid day or barber, else a weekday taken by another row after the patch, else a backwards window given in full, each exactly when the earlier checks pass. Otherwise that one row is replaced by the patched row, with no overlap check; any refusal changes nothing |
| `Views.BarberViewSet.DeleteSchedule` | appointments/views.py:90-110 | the same refusals as update, each leaving the table unchanged; otherwise exactly the chosen row is removed, the others keep their order, and the rows left are the old rows with another id |
| `Views.BarberViewSet.CreateBarber` | appointments/views.py:48-62 | only a staff user may create. Otherwise every request that creates nothing is a 400, in this order: a missing username, else a blank one, else a username already in use, else an invalid phone. An accepted user always gets the barber role and the next id, and nothing else changes |
| `Views.BarberViewSet.constructor` | appointments/models.py:84 | an empty user table and an empty schedule table satisfy the invariant |

The class invariant `BarberViewSet.Valid` holds before and after every
action. It states the following:
- ids are positive and unique;
- usernames are unique;
- every schedule's day is in 0..6;
- every schedule belongs to a user with the barber role;
- no two schedules share a barber and a weekday (models.py:84).

The barber-role clause is not a stored constraint. `limit_choices_to`
(models.py:73) only restricts the barber choices a form offers. The clause
holds in the model because nothing in the model changes a user's role (see
"Left out").

## Left out

- Slot enumeration, schedule exceptions, break windows, appointment conflict checks, end-time derivation and status transitions: the code has none of them.
- appointments/urls.py: only HTTP routing. It also registers view sets that appointments/views.py does not define, so they cannot be modelled.
- appointments/admin.py (admin-panel display) and appointments/migrations/0001_initial.py (a generated copy of the models).
- generate_passwords.py, `UserSerializer`, the token serializer and view, `RegisterView`, `get_user_profile` and `update_user_profile`: these are password hashing and token plumbing over libraries.
- `update_user_profile` (appointments/views.py:30-37) lets a user rewrite their own `role`, which `UserSerializer` leaves writable (appointments/serializers.py:13-14). A barber who becomes a client keeps their schedules, so the barber-role clause of `BarberViewSet.Valid` can fail in the running system. The model leaves user updates out, and so does not capture this.
- The view set's inherited list, retrieve, update, partial update and destroy of barbers: framework behaviour. This includes the cascade that deletes a barber's schedules. Only their permissions (`CheckPermission`) and the barber validation they run (`BarberInstancesPassValidation`) are modelled.
- `Service` (its price is a decimal, its duration an interval, its image an upload that is not modelled), `created_at`/`updated_at`, first and last names, address and notes: stored data, checked at most for length.
- `Views.BarberViewSet.CreateBarber`: does not model the username's character set (letters, digits and `@.+-_`) or its 150-character limit. It also does not model the e-mail field, whose format check refuses a malformed address with a 400. It also does not model `profile_picture`, a writable field whose upload must be a valid image, or else the request gets a 400. The framework strips surrounding whitespace from the phone before the pattern runs, and the model does not. So `" +573001234567"` and `"+1234567890123456\n"` are accepted by the source but answered with `BadRequest(InvalidField)` here. Because of that stripping, a final line break never reaches the pattern through the API; the case `Models.PhoneMaxLengthOnlyCutsNewline` describes arises only when the validators are used on their own. The model keeps only the username's presence, non-blankness and uniqueness, and the phone pattern on the text as sent.
- `__str__` and the translated labels are display, except the weekday labels, which are kept.
- Parsing of request text is left out: times, integers, and a non-numeric `schedule_id`, which makes the lookup fail with a server error. Requests arrive as already-typed optional fields, and a blank query value is read as absent.
- `Models.PhonePatternShape`: `\d` is read as the ASCII digits only; Python also accepts other Unicode decimal digits.
- The framework reports all field errors of a request at once. The model returns one reason per refusal.
- The order of listed schedules: the schedule model declares no ordering, and the model keeps table order.
- The race between the overlap query and the insert: concurrency is out of scope. Each action runs as one atomic step.
