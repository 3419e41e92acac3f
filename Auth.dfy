/** The account views: sign-up validation and account creation, login and
    logout, and the date window of the leaderboard. The request form and the
    clock are parameters; the random salt of the password hash is one too. */
module Auth {
  import opened Base
  import opened Store
  import opened Calendar

  // ---------------------------------------------------------------- sign-up

  datatype SignUpForm = SignUpForm(email: string, firstName: string, password1: string, password2: string)

  /** The sign-up checks, each with the error it flashes. */
  datatype SignUpError = EmailExists | EmailTooShort | FirstNameTooShort | PasswordsDiffer | PasswordTooShort

  /** The position of a check in the `if`/`elif` chain. */
  function Rank(e: SignUpError): nat {
    match e
    case EmailExists => 0
    case EmailTooShort => 1
    case FirstNameTooShort => 2
    case PasswordsDiffer => 3
    case PasswordTooShort => 4
  }

  /** Whether the check `e` rejects the form; `emailTaken` says whether a user
      with the form's email exists. */
  predicate Fails(e: SignUpError, form: SignUpForm, emailTaken: bool) {
    match e
    case EmailExists => emailTaken
    case EmailTooShort => |form.email| < 4
    case FirstNameTooShort => |form.firstName| < 2
    case PasswordsDiffer => form.password1 != form.password2
    case PasswordTooShort => |form.password1| < 7
  }

  /** The error `sign_up` flashes, or `None` when the account is created: the
      first failing check in chain order wins, and there is an error exactly
      when some check fails. */
  function ValidateSignUp(form: SignUpForm, emailTaken: bool): (r: Option<SignUpError>)
    ensures r.Some? ==> Fails(r.value, form, emailTaken)
    ensures r.Some? ==> forall e :: Rank(e) < Rank(r.value) ==> !Fails(e, form, emailTaken)
    ensures r.None? ==> forall e :: !Fails(e, form, emailTaken)
  {
    if emailTaken then Some(EmailExists)
    else if |form.email| < 4 then Some(EmailTooShort)
    else if |form.firstName| < 2 then Some(FirstNameTooShort)
    else if form.password1 != form.password2 then Some(PasswordsDiffer)
    else if |form.password1| < 7 then Some(PasswordTooShort)
    else None
  }

  /** The limits are inclusive: a 4-character email, a 2-character first name
      and a 7-character password are accepted. */
  lemma BoundaryValuesAccepted(form: SignUpForm)
    requires |form.email| == 4 && |form.firstName| == 2
    requires form.password1 == form.password2 && |form.password1| == 7
    ensures ValidateSignUp(form, false) == None
  {
  }

  /** `User.query.filter_by(email=email).first()`: the first user, in table
      order, with that email. */
  function FindByEmail(users: seq<User>, email: string): (r: Option<User>)
    ensures r.Some? ==> r.value in users && r.value.email == email
    ensures r.None? <==> forall i :: 0 <= i < |users| ==> users[i].email != email
    decreases |users|
  {
    if users == [] then None
    else if users[0].email == email then Some(users[0])
    else FindByEmail(users[1..], email)
  }

  /** A user appended after the table is found by their email exactly when no
      earlier user has it. */
  lemma {:induction false} FindByEmailAppended(users: seq<User>, u: User)
    requires forall i :: 0 <= i < |users| ==> users[i].email != u.email
    ensures FindByEmail(users + [u], u.email) == Some(u)
    decreases |users|
  {
    if users != [] {
      assert (users + [u])[1..] == users[1..] + [u];
      FindByEmailAppended(users[1..], u);
    }
  }

  function MaxId(users: seq<User>): (m: int)
    ensures forall i :: 0 <= i < |users| ==> users[i].id <= m
    decreases |users|
  {
    if users == [] then 0
    else
      var rest := MaxId(users[..|users| - 1]);
      var last := users[|users| - 1].id;
      if last > rest then last else rest
  }

  /** The id the database assigns to the next row: one past the largest in use. */
  function NextId(users: seq<User>): (id: UserId)
    ensures forall i :: 0 <= i < |users| ==> users[i].id != id
  {
    MaxId(users) + 1
  }

  /** The row `sign_up` adds: the password is stored as its pbkdf2:sha256
      hash, no provider is linked yet. */
  function NewUser(id: UserId, form: SignUpForm, salt: string): (u: User)
    ensures u.id == id && u.email == form.email && u.firstName == form.firstName
    ensures u.password.Pbkdf2Sha256? && Verifies(u.password, form.password1)
    ensures u.garminAccessToken.None? && u.stravaAccessToken.None?
  {
    User(id, form.email, Pbkdf2Sha256(salt, form.password1), form.firstName,
         None, None, None, None, None, None)
  }

  // ---------------------------------------------------------------- login

  /** flask_login's record of who is logged in. */
  class LoginSession {
    var currentUser: Option<UserId>
    /** `remember=True` sets the long-lived cookie. */
    var remember: bool

    constructor ()
      ensures currentUser == None && !remember
    {
      currentUser := None;
      remember := false;
    }

    /** `login_user(user, remember=True)`. */
    method LogIn(id: UserId)
      modifies this
      ensures currentUser == Some(id) && remember
    {
      currentUser := Some(id);
      remember := true;
    }

    /** `logout_user()`. */
    method LogOut()
      modifies this
      ensures currentUser == None && !remember
    {
      currentUser := None;
      remember := false;
    }
  }

  /** What a login attempt flashes. */
  datatype LoginOutcome = EmailUnknown | IncorrectPassword | LoggedIn(id: UserId)

  /** The outcome of `login` for a posted email and password: success needs a
      user with that email whose stored hash checks against the password, and
      a missing email and a wrong password are told apart. */
  function LoginResult(users: seq<User>, email: string, password: string): (r: LoginOutcome)
    ensures r == EmailUnknown <==> forall i :: 0 <= i < |users| ==> users[i].email != email
    ensures r.LoggedIn? <==> FindByEmail(users, email).Some? && Verifies(FindByEmail(users, email).value.password, password)
    ensures r.LoggedIn? ==> exists i :: 0 <= i < |users| && users[i].id == r.id && users[i].email == email
  {
    match FindByEmail(users, email)
    case None => EmailUnknown
    case Some(u) => if Verifies(u.password, password) then LoggedIn(u.id) else IncorrectPassword
  }

  /** `login` on a POST: only a successful attempt changes who is logged in. */
  method Login(db: Session, login: LoginSession, email: string, password: string) returns (r: LoginOutcome)
    modifies login
    ensures r == LoginResult(db.working.users, email, password)
    ensures r.LoggedIn? ==> login.currentUser == Some(r.id) && login.remember
    ensures !r.LoggedIn? ==> login.currentUser == old(login.currentUser) && login.remember == old(login.remember)
  {
    var user := FindByEmail(db.working.users, email);
    if user.None? {
      return EmailUnknown;
    }
    if !Verifies(user.value.password, password) {
      return IncorrectPassword;
    }
    login.LogIn(user.value.id);
    r := LoggedIn(user.value.id);
  }

  /** `sign_up` on a POST: a rejected form leaves the database and the login
      as they were; an accepted one adds the new user, commits, and logs them in. */
  method SignUp(db: Session, login: LoginSession, form: SignUpForm, salt: string) returns (r: Option<SignUpError>)
    modifies db, login
    ensures r == ValidateSignUp(form, FindByEmail(old(db.working.users), form.email).Some?)
    ensures r.Some? ==>
      && db.working == old(db.working) && db.committed == old(db.committed)
      && login.currentUser == old(login.currentUser) && login.remember == old(login.remember)
    ensures r.None? ==>
      && db.working == old(db.working).(users := old(db.working.users) + [NewUser(NextId(old(db.working.users)), form, salt)])
      && db.committed == db.working
      && login.currentUser == Some(NextId(old(db.working.users))) && login.remember
  {
    var existing := FindByEmail(db.working.users, form.email);
    r := ValidateSignUp(form, existing.Some?);
    if r.Some? {
      return;
    }
    var user := NewUser(NextId(db.working.users), form, salt);
    db.working := db.working.(users := db.working.users + [user]);
    db.Commit();
    login.LogIn(user.id);
  }

  /** An account just created can be logged into with the password it was
      created with. */
  lemma SignUpThenLogin(users: seq<User>, form: SignUpForm, salt: string)
    requires ValidateSignUp(form, FindByEmail(users, form.email).Some?) == None
    ensures LoginResult(users + [NewUser(NextId(users), form, salt)], form.email, form.password1) == LoggedIn(NextId(users))
  {
    FindByEmailAppended(users, NewUser(NextId(users), form, salt));
  }

  // ---------------------------------------------------------------- leaderboard

  /** An inclusive range of days. */
  datatype Window = Window(start: Day, end: Day)

  datatype LeaderboardError = UnknownTimeframe | DateOverflow | UnknownMetric

  /** The date range of the leaderboard for a timeframe, on day `today`.
      An unknown timeframe leaves `start_date` unbound, and a week whose Sunday
      would fall after 9999-12-31 overflows `date`; both end the request with
      an error. */
  function DateWindow(timeframe: string, today: Date): (r: Result<Window>)
    requires ValidDate(today)
    ensures r == Err(UnknownTimeframe) <==> timeframe !in {"day", "week", "month", "year"}
    ensures r == Err(DateOverflow) ==> timeframe == "week"
    ensures r.Err? ==> r.error != UnknownMetric
  {
    var t := Ordinal(today);
    if timeframe == "day" then Ok(Window(t, t))
    else if timeframe == "week" then
      var monday := t - Weekday(t);
      if monday + 6 > MaxOrdinal then Err(DateOverflow) else Ok(Window(monday, monday + 6))
    else if timeframe == "month" then
      var first := Ordinal(today.(day := 1));
      if today.month == 12 then Ok(Window(first, Ordinal(today.(day := 31))))
      else Ok(Window(first, Ordinal(Date(today.year, today.month + 1, 1)) - 1))
    else if timeframe == "year" then
      Ok(Window(Ordinal(Date(today.year, 1, 1)), Ordinal(Date(today.year, 12, 31))))
    else Err(UnknownTimeframe)
  }

  datatype Result<T> = Ok(value: T) | Err(error: LeaderboardError)

  /** The leaderboard's metrics, by their query-string names. */
  datatype Metric = RunningMileage | Calories | Water | Sleep

  function MetricNamed(name: string): (r: Option<Metric>)
    ensures r.Some? <==> name in {"running_mileage", "calories", "water", "sleep"}
  {
    if name == "running_mileage" then Some(RunningMileage)
    else if name == "calories" then Some(Calories)
    else if name == "water" then Some(Water)
    else if name == "sleep" then Some(Sleep)
    else None
  }

  /** The unit the leaderboard shows beside a metric: water, and only water,
      is labelled in millilitres. */
  function Unit(m: Metric): (u: string)
    ensures u == "ml" <==> m == Water
    ensures u in {"miles", "kcal", "ml", "hours"}
  {
    match m
    case RunningMileage => "miles"
    case Calories => "kcal"
    case Water => "ml"
    case Sleep => "hours"
  }

  /** What `leaderboard` settles before it queries: the metric (default
      `running_mileage`) and the window of the timeframe (default `day`). The
      timeframe is looked at first, so an unknown timeframe is reported even
      when the metric is unknown too. */
  function LeaderboardRange(metricArg: Option<string>, timeframeArg: Option<string>, today: Date): (r: Result<(Metric, Window)>)
    requires ValidDate(today)
    ensures metricArg.None? && timeframeArg.None? ==>
      r == Ok((RunningMileage, Window(Ordinal(today), Ordinal(today))))
    ensures r.Ok? <==> DateWindow(timeframeArg.GetOr("day"), today).Ok? && MetricNamed(metricArg.GetOr("running_mileage")).Some?
    ensures DateWindow(timeframeArg.GetOr("day"), today).Err? ==> r == Err(DateWindow(timeframeArg.GetOr("day"), today).error)
    ensures r.Ok? ==> r.value == (MetricNamed(metricArg.GetOr("running_mileage")).value, DateWindow(timeframeArg.GetOr("day"), today).value)
  {
    match DateWindow(timeframeArg.GetOr("day"), today)
    case Err(e) => Err(e)
    case Ok(w) =>
      match MetricNamed(metricArg.GetOr("running_mileage"))
      case None => Err(UnknownMetric)
      case Some(m) => Ok((m, w))
  }

  /** The `'day'` window is today alone. */
  lemma DayWindow(today: Date)
    requires ValidDate(today)
    ensures DateWindow("day", today) == Ok(Window(Ordinal(today), Ordinal(today)))
  {
  }

  /** The `'week'` window runs from the Monday of this week to the Sunday six
      days later, and contains today; it fails only in the last five days of
      9999, whose Sunday does not exist. */
  lemma WeekWindow(today: Date)
    requires ValidDate(today)
    ensures DateWindow("week", today).Err? <==> today.year == 9999 && today.month == 12 && today.day >= 27
    ensures DateWindow("week", today).Ok? ==>
      var w := DateWindow("week", today).value;
      && Weekday(w.start) == 0 && Weekday(w.end) == 6 && w.end == w.start + 6
      && w.start <= Ordinal(today) <= w.end
  {
    var t := Ordinal(today);
    MondayOfWeek(t);
    OrdinalBounds(today);
    SundayPastMax(t);
    LastFiveDays(today);
  }

  /** The Sunday of the week of `t` lies past 9999-12-31 exactly when `t` is
      one of the last five days (9999-12-31 is a Friday). */
  lemma SundayPastMax(t: Day)
    requires 1 <= t <= MaxOrdinal
    ensures t - Weekday(t) + 6 > MaxOrdinal <==> t > MaxOrdinal - 5
  {
    assert Weekday(MaxOrdinal) == 4;
  }

  /** The last five days are 9999-12-27 to 9999-12-31. */
  lemma LastFiveDays(today: Date)
    requires ValidDate(today)
    ensures Ordinal(today) > MaxOrdinal - 5 <==> today.year == 9999 && today.month == 12 && today.day >= 27
  {
    OrdinalBounds(today);
    YearLength(today.year);
    if today.year < 9999 {
      DaysBeforeYearBelowMax(today.year + 1);
      NextYearStart(today.year + 1);
    } else {
      assert DaysBeforeYear(9999) == MaxOrdinal - 365;
      if today.month < 12 {
        DaysBeforeMonthGrows(today.year, today.month + 1);
      }
    }
  }

  /** The `'month'` window runs from the 1st to the last day of this month;
      December ends on the 31st. */
  lemma MonthWindow(today: Date)
    requires ValidDate(today)
    ensures DateWindow("month", today) ==
      Ok(Window(Ordinal(today.(day := 1)), Ordinal(today.(day := DaysInMonth(today.year, today.month)))))
    ensures DateWindow("month", today).value.end - DateWindow("month", today).value.start + 1
         == DaysInMonth(today.year, today.month)
  {
    if today.month < 12 {
      MonthsAreContiguous(today.year, today.month);
    }
  }

  /** The `'year'` window runs from 1 January to 31 December and holds 365 or
      366 days. */
  lemma YearWindow(today: Date)
    requires ValidDate(today)
    ensures DateWindow("year", today) == Ok(Window(Ordinal(Date(today.year, 1, 1)), Ordinal(Date(today.year, 12, 31))))
    ensures DateWindow("year", today).value.end - DateWindow("year", today).value.start + 1
         == if IsLeap(today.year) then 366 else 365
  {
    YearLength(today.year);
  }

  /** Every window the leaderboard can use contains today. */
  lemma WindowContainsToday(timeframe: string, today: Date)
    requires ValidDate(today)
    ensures DateWindow(timeframe, today).Ok? ==>
      DateWindow(timeframe, today).value.start <= Ordinal(today) <= DateWindow(timeframe, today).value.end
    ensures DateWindow(timeframe, today).Err? ==>
      timeframe !in {"day", "month", "year"}
  {
    if timeframe == "week" {
      WeekWindow(today);
    } else if timeframe == "month" {
      MonthWindow(today);
    } else if timeframe == "year" {
      DaysBeforeMonthNonNegative(today.year, today.month);
      DaysBeforeMonthBounds(today.year, today.month);
      YearLength(today.year);
    }
  }
}
