/** The stored entities of the booking backend: users with their role and
    phone number, weekly barber schedules, and appointments. Each Django
    field becomes a datatype field; each `choices` table a datatype with its
    stored code; each validator a predicate. */
module Models {
  import opened Wrappers

  type UserId = nat
  type ScheduleId = nat
  type ServiceId = nat

  /** A calendar date as a count of days from a fixed origin; only its order is used. */
  type Date = int

  /** A time of day, in microseconds after midnight: the resolution of a
      Python time, so 23:59:59.999999 is the last one. */
  type Time = t: int | 0 <= t < 86_400_000_000

  const MicrosPerSecond := 1_000_000

  /** The time hour:minute:00. */
  function At(hour: int, minute: int): Time
    requires 0 <= hour < 24 && 0 <= minute < 60
  {
    (hour * 3600 + minute * 60) * MicrosPerSecond
  }

  // ---------------------------------------------------------------------
  // User.role: the closed set ROLE_CHOICES, stored as a short code.

  datatype Role = Client | Barber | Admin

  const DefaultRole: Role := Client
  const RoleMaxLength := 10

  function RoleCode(r: Role): string
  {
    match r
    case Client => "client"
    case Barber => "barber"
    case Admin => "admin"
  }

  /** Reads a stored role code; any code outside ROLE_CHOICES is refused. */
  function ParseRole(code: string): (r: Option<Role>)
  {
    if code == "client" then Some(Client)
    else if code == "barber" then Some(Barber)
    else if code == "admin" then Some(Admin)
    else None
  }

  lemma RoleCodes(r: Role, code: string)
    ensures ParseRole(RoleCode(r)) == Some(r)
    ensures |RoleCode(r)| <= RoleMaxLength
    ensures ParseRole(code).Some? ==> RoleCode(ParseRole(code).value) == code
    ensures ParseRole(code).Some? <==> code == "client" || code == "barber" || code == "admin"
    ensures RoleCode(DefaultRole) == "client"
  {
  }

  // ---------------------------------------------------------------------
  // User.phone_number: blank, or at most 17 characters matching
  // ^\+?1?\d{9,15}$ as Python's `re.search` reads it.

  const PhoneMaxLength := 17

  predicate IsDigit(c: char) { '0' <= c <= '9' }

  predicate AllDigits(s: string) { forall i :: 0 <= i < |s| ==> IsDigit(s[i]) }

  /** `s` without one final line break, if it has one. */
  function WithoutFinalNewline(s: string): string
  {
    if |s| > 0 && s[|s| - 1] == '\n' then s[..|s| - 1] else s
  }

  /** `\d{9,15}$`: nine to fifteen digits, then the end of the text. Python's
      `$` also matches just before a single final line break. */
  predicate DigitsToEnd(s: string)
  {
    var body := WithoutFinalNewline(s);
    9 <= |body| <= 15 && AllDigits(body)
  }

  /** `1?\d{9,15}$`: the optional `1` is tried taken, then skipped. */
  predicate OptionalOneThenDigits(s: string)
  {
    (|s| > 0 && s[0] == '1' && DigitsToEnd(s[1..])) || DigitsToEnd(s)
  }

  /** `^\+?1?\d{9,15}$`: the optional `+` is tried taken, then skipped. */
  predicate MatchesPhonePattern(s: string)
  {
    (|s| > 0 && s[0] == '+' && OptionalOneThenDigits(s[1..])) || OptionalOneThenDigits(s)
  }

  /** The field accepts a blank value without running its validators;
      otherwise both the length limit and the pattern must hold. */
  predicate ValidPhone(s: string)
  {
    s == "" || (|s| <= PhoneMaxLength && MatchesPhonePattern(s))
  }

  function WithoutPlus(s: string): string
  {
    if |s| > 0 && s[0] == '+' then s[1..] else s
  }

  lemma {:induction false} OptionalOneShape(s: string)
    requires forall i :: 0 <= i < |s| - 1 ==> s[i] != '\n'
    ensures OptionalOneThenDigits(s) <==>
      var d := WithoutFinalNewline(s);
      AllDigits(d) && (9 <= |d| <= 15 || (|d| == 16 && d[0] == '1'))
  {
    var d := WithoutFinalNewline(s);
    if |s| > 0 && s[0] == '1' {
      var t := s[1..];
      if |s| > 1 && s[|s| - 1] == '\n' {
        assert WithoutFinalNewline(t) == d[1..];
      } else if |s| == 1 {
        assert WithoutFinalNewline(t) == [];
      } else {
        assert WithoutFinalNewline(t) == d[1..];
      }
      if AllDigits(d[1..]) {
        assert AllDigits(d) by {
          forall i | 0 <= i < |d| ensures IsDigit(d[i]) {
            if i > 0 { assert d[i] == d[1..][i - 1]; }
          }
        }
      }
      if AllDigits(d) && |d| > 0 {
        assert AllDigits(d[1..]) by {
          forall i | 0 <= i < |d| - 1 ensures IsDigit(d[1..][i]) {
            assert d[1..][i] == d[i + 1];
          }
        }
      }
    }
  }

  /** The pattern, read as a whole: an optional `+`, then nine to fifteen
      digits, or sixteen digits of which the first is `1`, then the end of
      the text or a single final line break. */
  lemma {:induction false} PhonePatternShape(s: string)
    ensures MatchesPhonePattern(s) <==>
      var d := WithoutPlus(WithoutFinalNewline(s));
      AllDigits(d) && (9 <= |d| <= 15 || (|d| == 16 && d[0] == '1'))
  {
    var d := WithoutPlus(WithoutFinalNewline(s));
    var inner := forall i :: 0 <= i < |s| - 1 ==> s[i] != '\n';
    if inner {
      OptionalOneShape(s);
      if |s| > 0 && s[0] == '+' {
        var t := s[1..];
        OptionalOneShape(t);
        assert WithoutFinalNewline(t) == d;
        assert !OptionalOneThenDigits(s) by {
          if |WithoutFinalNewline(s)| > 0 {
            assert WithoutFinalNewline(s)[0] == '+';
            assert !IsDigit(WithoutFinalNewline(s)[0]);
          }
        }
      } else {
        assert d == WithoutFinalNewline(s);
      }
    } else {
      var k :| 0 <= k < |s| - 1 && s[k] == '\n';
      assert !DigitsToEnd(s) by { assert WithoutFinalNewline(s)[k] == '\n'; }
      if |s| > 0 && s[0] == '1' {
        assert k > 0 ==> WithoutFinalNewline(s[1..])[k - 1] == '\n';
      }
      if |s| > 0 && s[0] == '+' {
        var t := s[1..];
        assert k > 0 ==> WithoutFinalNewline(t)[k - 1] == '\n';
        if |t| > 0 && t[0] == '1' {
          assert k > 1 ==> WithoutFinalNewline(t[1..])[k - 2] == '\n';
        }
        assert k > 0 ==> d[k - 1] == '\n';
      } else {
        assert d[k] == '\n';
      }
    }
  }

  /** A text the pattern accepts is at most 18 characters long, and only a
      final line break takes it past the 17-character limit of the field. */
  lemma PhoneMaxLengthOnlyCutsNewline(s: string)
    requires MatchesPhonePattern(s)
    ensures |s| <= PhoneMaxLength + 1
    ensures |s| > PhoneMaxLength ==> s[|s| - 1] == '\n'
  {
    PhonePatternShape(s);
  }

  lemma AcceptedPhones()
    ensures ValidPhone("")
    ensures ValidPhone("+573001234567")
    ensures ValidPhone("+1234567890123456")
  {
    assert DigitsToEnd("573001234567");
    assert DigitsToEnd("234567890123456");
    assert OptionalOneThenDigits("1234567890123456");
  }

  lemma RefusedPhones()
    ensures !ValidPhone("12345678")
    ensures !ValidPhone("+12345678901234567")
    ensures !ValidPhone("555-123-4567")
  {
    PhonePatternShape("12345678");
    PhonePatternShape("555-123-4567");
    assert !IsDigit("555-123-4567"[3]);
  }

  /** A user as this model keeps it: the login name, which the user table
      holds unique, the role and the phone number. */
  datatype User = User(username: string, role: Role, phone: string)

  // ---------------------------------------------------------------------
  // Schedule: one row per barber and weekday.

  /** DAYS_OF_WEEK: Monday is 0 and Sunday is 6. */
  datatype Weekday = Monday | Tuesday | Wednesday | Thursday | Friday | Saturday | Sunday

  function DayNumber(w: Weekday): int
  {
    match w
    case Monday => 0
    case Tuesday => 1
    case Wednesday => 2
    case Thursday => 3
    case Friday => 4
    case Saturday => 5
    case Sunday => 6
  }

  /** The display label stored beside each number. */
  function DayLabel(w: Weekday): string
  {
    match w
    case Monday => "Lunes"
    case Tuesday => "Martes"
    case Wednesday => "Miércoles"
    case Thursday => "Jueves"
    case Friday => "Viernes"
    case Saturday => "Sábado"
    case Sunday => "Domingo"
  }

  /** Reads a stored day_of_week; numbers outside the choices are refused. */
  function WeekdayOf(n: int): Option<Weekday>
  {
    if n == 0 then Some(Monday)
    else if n == 1 then Some(Tuesday)
    else if n == 2 then Some(Wednesday)
    else if n == 3 then Some(Thursday)
    else if n == 4 then Some(Friday)
    else if n == 5 then Some(Saturday)
    else if n == 6 then Some(Sunday)
    else None
  }

  predicate ValidDay(n: int) { WeekdayOf(n).Some? }

  lemma DayNumbering(w: Weekday, n: int)
    ensures WeekdayOf(DayNumber(w)) == Some(w)
    ensures ValidDay(n) <==> 0 <= n <= 6
    ensures ValidDay(n) ==> DayNumber(WeekdayOf(n).value) == n
    ensures DayNumber(Monday) == 0 && DayNumber(Sunday) == 6
    ensures DayLabel(Monday) == "Lunes" && DayLabel(Sunday) == "Domingo"
  {
  }

  const DefaultActive := true

  datatype Schedule = Schedule(
    id: ScheduleId,
    barber: UserId,
    day: int,
    start: Time,
    end: Time,
    active: bool)

  /** unique_together = ['barber', 'day_of_week']: whatever their is_active
      flags, no two rows share a barber and a weekday. */
  predicate UniquePerBarberDay(rows: seq<Schedule>)
  {
    forall i, j :: 0 <= i < j < |rows| ==>
      rows[i].barber != rows[j].barber || rows[i].day != rows[j].day
  }

  predicate UniqueIds(rows: seq<Schedule>)
  {
    forall i, j :: 0 <= i < j < |rows| ==> rows[i].id != rows[j].id
  }

  // ---------------------------------------------------------------------
  // Appointment: status from STATUS_CHOICES, listed newest first.

  datatype Status = Pending | Confirmed | Cancelled | Completed

  const DefaultStatus: Status := Pending
  const StatusMaxLength := 20

  function StatusCode(s: Status): string
  {
    match s
    case Pending => "pending"
    case Confirmed => "confirmed"
    case Cancelled => "cancelled"
    case Completed => "completed"
  }

  function ParseStatus(code: string): Option<Status>
  {
    if code == "pending" then Some(Pending)
    else if code == "confirmed" then Some(Confirmed)
    else if code == "cancelled" then Some(Cancelled)
    else if code == "completed" then Some(Completed)
    else None
  }

  lemma StatusCodes(s: Status, code: string)
    ensures ParseStatus(StatusCode(s)) == Some(s)
    ensures |StatusCode(s)| <= StatusMaxLength
    ensures ParseStatus(code).Some? ==> StatusCode(ParseStatus(code).value) == code
    ensures ParseStatus(code).Some? <==>
      code == "pending" || code == "confirmed" || code == "cancelled" || code == "completed"
  {
  }

  /** end is a stored field like the others: nothing derives it from the
      service's duration. */
  datatype Appointment = Appointment(
    client: UserId,
    barber: UserId,
    service: ServiceId,
    date: Date,
    start: Time,
    end: Time,
    status: Status,
    notes: string)

  /** A new appointment whose status was not given. */
  function NewAppointment(client: UserId, barber: UserId, service: ServiceId,
                          date: Date, start: Time, end: Time, notes: string): (a: Appointment)
    ensures a.status == Pending
    ensures a.client == client && a.barber == barber && a.service == service
    ensures a.date == date && a.start == start && a.end == end && a.notes == notes
  {
    Appointment(client, barber, service, date, start, end, DefaultStatus, notes)
  }

  /** ordering = ['-date', '-start_time']: a may be listed before b. */
  predicate ListedBefore(a: Appointment, b: Appointment)
  {
    a.date > b.date || (a.date == b.date && a.start >= b.start)
  }

  predicate InDisplayOrder(s: seq<Appointment>)
  {
    forall i :: 0 < i < |s| ==> ListedBefore(s[i - 1], s[i])
  }

  lemma DisplayOrderIsTotalPreorder(a: Appointment, b: Appointment, c: Appointment)
    ensures ListedBefore(a, a)
    ensures ListedBefore(a, b) || ListedBefore(b, a)
    ensures ListedBefore(a, b) && ListedBefore(b, c) ==> ListedBefore(a, c)
  {
  }

  /** In a list in display order, the first appointment has the latest date,
      and the latest start time among those of that date. */
  lemma {:induction false} NewestFirst(s: seq<Appointment>, i: nat)
    requires InDisplayOrder(s)
    requires i < |s|
    ensures s[0].date >= s[i].date
    ensures s[0].date == s[i].date ==> s[0].start >= s[i].start
  {
    if i > 0 {
      NewestFirst(s, i - 1);
      assert ListedBefore(s[i - 1], s[i]);
    }
  }
}
