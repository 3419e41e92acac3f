# Health tracker: fitness-data sync, accounts and chatbot, modelled in Dafny

This project models the core of a Flask health-tracker web application.

- **Provider integrations.**
  - Garmin: OAuth 2.0 token handling, running-activity sync and the upsert of today's sleep.
  - MyFitnessPal: a 31-day diary sync into the per-day `Entry` table.
  - Strava: an activity sync that de-duplicates on the Strava id.
- **The scheduled Strava job**, which picks the users to sync.
- **The account views**: the sign-up validation chain, account creation, login and logout, and the leaderboard's date window.
- **The rule-based health chatbot.**

Each integration is a class with the fields the Python object updates (its client or token, plus a log of the calls it makes). Each sync is a method proved against a specification function of the old state, and the de-duplication, overwrite and idempotence properties are lemmas about those functions.

The database is a `Store.Session` holding two table states: `working`, which queries see, and `committed`, which a rollback returns to. That is enough to state what each path commits and what it leaves pending.

Provider APIs, token endpoints, the clock, the password-hash salt and the random quote draw are all parameters. `None` stands for a call that raised.

Time is whole seconds since 0001-01-01 local time. Days are proleptic Gregorian ordinals, the numbers `date.toordinal()` gives.

Observations the model reproduces rather than corrects:

- A Garmin token is refreshed when its expiry is `<=` now, but the Strava job skips a user only when the expiry is `<` now (`Tasks.ExpiryBoundaryDiffers`).
- Garmin de-duplicates per user and source; Strava de-duplicates globally, across users (`Garmin.GarminDedupIsPerUser`, `Strava.StravaDedupIsGlobal`).
- A Garmin refresh stores whatever refresh token the reply carries. A reply that omits it (section 6 of RFC 6749 allows this) replaces the stored token with `None`.
- MyFitnessPal stores water in ounces, while the chatbot's thresholds (2000) and the leaderboard's unit label treat water as millilitres.
- A Strava sync that hits `AccessUnauthorized` returns without commit or rollback, so the rows it added stay pending in the session.
- A Garmin sleep reply without `dailySleepDTO` returns False without a rollback.
- Date arithmetic that leaves `datetime`'s range (0001-01-01 to 9999-12-31 23:59:59) raises `OverflowError`. The model follows these cases, each ending in an error result or a rollback as the source does: the leaderboard's week window in the last five days of 9999, a Garmin token expiry past the end of 9999 (`Garmin.DefaultExpiryOverflows`), the Garmin 30-day lookback before year 1, and both ends of the MyFitnessPal walk.

## Model

| member | source | states |
|---|---|---|
| Base.TextOf | website/garmin_integration.py:172 | `str()` of an optional id: an integer's text exactly when the id is present, carrying that integer |
| Store.Session.Commit | website/garmin_integration.py:191 | every pending change becomes the committed state |
| Store.Session.Rollback | website/garmin_integration.py:196 | every pending change is discarded; the working state is the last committed one |
| Calendar.DaysInMonth | website/auth.py:88-91 | months have 28 to 31 days, February has 29 exactly in leap years, December has 31 |
| Calendar.Weekday | website/auth.py:82 | `weekday()` is in 0..6 |
| Calendar.MonthsAreContiguous | website/auth.py:91 | the day before the 1st of month m+1 is the last day of month m |
| Calendar.YearLength | website/auth.py:94-96 | 31 December is day 365 or 366 of its year |
| Calendar.NextYearStart | website/auth.py:94-96 | a year has 366 days exactly when it is a leap year, 365 otherwise |
| Calendar.OrdinalBounds | website/auth.py:76 | every valid date lies between 0001-01-01 and 9999-12-31 and within its own year |
| Calendar.MondayOfWeek | website/auth.py:82-83 | today minus its weekday is a Monday, and six days later is a Sunday |
| Garmin.TokensFromResponse | website/garmin_integration.py:113-124 | tokens are taken from the reply; expiry is now + `expires_in`, or now + 3600 when it is missing; an expiry outside 0001-01-01..9999-12-31 23:59:59 gives no tokens |
| Garmin.DefaultExpiryOverflows | website/garmin_integration.py:113 | with the default lifetime, a token obtained in the last hour of 9999 cannot be given an expiry, and at any earlier instant it can |
| Garmin.FreshTokenDueAfterLifetime | website/garmin_integration.py:148 | a new token is due for refresh exactly once its lifetime has passed |
| Garmin.RefreshAttemptedIffExpired | website/garmin_integration.py:148-149 | a refresh is attempted exactly when the stored expiry is set and `<=` now; a null expiry never triggers one |
| Garmin.PlanRefresh | website/garmin_integration.py:148-158 | a refresh happens only when the expiry test fired; success stores exactly the post-processed tokens, including the new expiry; failure means no reply or an expiry out of range |
| Garmin.WithGarminTokens | website/garmin_integration.py:150-153 | all three credential fields of that user are replaced; nothing else changes |
| Garmin.GarminRow | website/garmin_integration.py:178-186 | a new row has this user, source `garmin`, `str(activityId)`, and distance and duration defaulting to 0 |
| Garmin.FromTimestamp | website/garmin_integration.py:185 | timestamp 0 falls on 1970-01-01; each 86400 seconds is one more day, and the time of day is kept |
| Garmin.InsertGarmin | website/garmin_integration.py:166-187 | existing rows are never modified or removed (the old table is a prefix of the new) |
| Garmin.InsertGarminAddsOnlyRunning | website/garmin_integration.py:166-187 | every added row is this user's row for a fetched activity whose type is `running` |
| Garmin.InsertGarminStoresEveryRun | website/garmin_integration.py:166-187 | after the loop, every fetched running activity is stored for this user |
| Garmin.InsertGarminSkipsStored | website/garmin_integration.py:170-176 | an id already stored for (user, `garmin`) gets no new row |
| Garmin.InsertGarminKeepsKeysUnique | website/garmin_integration.py:170-187 | the table never gains a second row for the same (user, external id, `garmin`) |
| Garmin.InsertGarminAllStored | website/garmin_integration.py:170-176 | when every fetched run is already stored, the loop changes nothing |
| Garmin.InsertGarminIdempotent | website/garmin_integration.py:166-187 | syncing the same activities twice equals syncing once |
| Garmin.GarminDedupIsPerUser | website/garmin_integration.py:170-174 | a run whose id is stored only for other users is still inserted for this one |
| Garmin.FetchStart | website/garmin_integration.py:161 | the fetch starts at the last sync, or 30 days before now when it is unset; that lookback fails when it falls before 0001-01-01 |
| Garmin.SleepHours | website/garmin_integration.py:227 | seconds become hours (a missing `sleepTimeSeconds` gives 0) |
| Garmin.UpsertSleep | website/garmin_integration.py:230-245 | today's entry is found or created with only its sleep hours set; other keys and fields are untouched |
| Garmin.UpsertSleepIdempotent | website/garmin_integration.py:235-247 | writing the same night twice equals writing it once |
| Garmin.OrElse | website/garmin_integration.py:15-16 | Python `or`: the argument unless it is missing or empty, else the fallback |
| Garmin.GarminIntegration.constructor | website/garmin_integration.py:14-17 | credentials come from the arguments or the environment; no client yet |
| Garmin.GarminIntegration.InitializeClient | website/garmin_integration.py:129-138 | the client exists and carries the given token |
| Garmin.GarminIntegration.ExchangeCodeForToken | website/garmin_integration.py:50-92 | the client is configured before the request; with a reply whose expiry is in range, the tokens are post-processed and the client takes the new access token; otherwise None and no new token on the client, which keeps any client it already had |
| Garmin.GarminIntegration.RefreshToken | website/garmin_integration.py:94-127 | one refresh request; no reply or an out-of-range expiry gives None with the client untouched; otherwise the post-processed tokens are returned |
| Garmin.GarminIntegration.EnsureFreshToken | website/garmin_integration.py:147-158 | when due, a successful refresh replaces and commits all three credentials before any fetch; a failed one, including an expiry past 9999-12-31, stops the sync with nothing changed |
| Garmin.GarminIntegration.SyncActivities | website/garmin_integration.py:140-197 | a failed refresh returns False with no fetch; a lookback before 0001-01-01 or a failed fetch rolls back to the last commit, keeping refreshed credentials; success inserts new runs, sets last-sync to now and commits |
| Garmin.StoreRuns | website/garmin_integration.py:166-187 | the loop over the fetched activities leaves the table InsertGarmin gives, uncommitted |
| Garmin.GarminIntegration.SyncSleepData | website/garmin_integration.py:199-255 | a failed refresh, including an expiry past 9999-12-31, returns False with the session unchanged and the client configured with the stored token if it was unset; otherwise today's sleep is upserted and committed; no DTO gives False with nothing written; a failed fetch rolls back |
| MyFitnessPal.WaterOunces | website/myfitnesspal_integration.py:101-102 | missing or zero water gives 0; otherwise millilitres times 0.033814 |
| MyFitnessPal.NewEntry | website/myfitnesspal_integration.py:87-95 | a created entry has sleep hours, mileage and screen time equal to 0 |
| MyFitnessPal.Synced | website/myfitnesspal_integration.py:97-102 | calories are overwritten with the day's total (0 when missing), and water with its converted value; other fields are unchanged |
| MyFitnessPal.SyncDay | website/myfitnesspal_integration.py:76-106 | a failed day changes nothing; an answered day finds or creates the user's entry for that day and overwrites it; every other key is untouched |
| MyFitnessPal.SyncDays | website/myfitnesspal_integration.py:76-111 | the walk over the days never removes an entry |
| MyFitnessPal.SyncDaysAt | website/myfitnesspal_integration.py:76-111 | after the walk, each answered window day has exactly one entry for the user, found or created and then overwritten; every other key, including failed days, is untouched |
| MyFitnessPal.SyncDaysIdempotent | website/myfitnesspal_integration.py:98-102 | re-syncing the same diary data changes nothing |
| MyFitnessPal.DaysFromAscending | website/myfitnesspal_integration.py:72-76 | the walk from `first` to `last` visits first, first+1, …, last: each day once, ascending |
| MyFitnessPal.WindowIsThirtyOneDays | website/myfitnesspal_integration.py:72-76 | the walk's window holds 31 days, from today−30 to today |
| MyFitnessPal.MyFitnessPalIntegration.constructor | website/myfitnesspal_integration.py:12-13 | no client yet |
| MyFitnessPal.MyFitnessPalIntegration.Authenticate | website/myfitnesspal_integration.py:15-62 | a non-200 login leaves the client as it was; otherwise the client is set and today is probed, and a failing probe gives False with the client kept |
| MyFitnessPal.MyFitnessPalIntegration.SyncData | website/myfitnesspal_integration.py:64-119 | without a client: False, and nothing read or written; a window starting before 0001-01-01 rolls back with nothing read; otherwise the 31 days from today−30 to today are requested in order and merged, then one commit and True, except that on 9999-12-31 the step past the last day rolls everything back and gives False |
| Strava.StravaRow | website/strava_integration.py:44-52 | a new row has this user, `str(activity.id)` and the type; calories default to 0 only when the attribute is missing |
| Strava.InsertStrava | website/strava_integration.py:37-53 | existing rows are never modified or removed |
| Strava.InsertStravaAddsOnlyFetched | website/strava_integration.py:43-53 | every added row is this user's row for a fetched activity, of any type |
| Strava.InsertStravaStoresEveryId | website/strava_integration.py:37-53 | after the loop, every fetched id is stored |
| Strava.InsertStravaSkipsStored | website/strava_integration.py:39-43 | an id already stored, for any user, gets no new row |
| Strava.InsertStravaKeepsIdsUnique | website/strava_integration.py:37-53 | the table never gains two rows with the same Strava id |
| Strava.InsertStravaAllStored | website/strava_integration.py:39-43 | when every fetched id is already stored, the loop changes nothing |
| Strava.InsertStravaIdempotent | website/strava_integration.py:37-53 | syncing the same activities twice equals syncing once |
| Strava.StravaDedupIsGlobal | website/strava_integration.py:39-41 | any row of another user with the same Strava id blocks the insert, whatever its other fields |
| Strava.FetchAfter | website/strava_integration.py:33 | only activities after now − 14 days are requested |
| Strava.SyncEffect | website/strava_integration.py:35-60 | one sync only adds activity rows after the existing ones; it is committed unless the fetch hit `AccessUnauthorized` |
| Strava.StravaIntegration.constructor | website/strava_integration.py:10-13 | keeps the credentials; no token yet |
| Strava.StravaIntegration.SyncActivities | website/strava_integration.py:30-60 | the client takes the user's token before the one fetch; new ids are inserted; `AccessUnauthorized` gives False with no commit, otherwise one commit and True |
| Tasks.StravaUsersMembers | website/tasks.py:7 | exactly the users with a non-null Strava token are considered |
| Tasks.Skipped | website/tasks.py:9 | a token without an expiry is never skipped; a skipped token is one the Garmin refresh test would also treat as expired |
| Tasks.Selected | website/tasks.py:7-12 | the synced users are users of the table, each with a token and not skipped, and no more of them than there are users |
| Tasks.DueMembers | website/tasks.py:9-11 | exactly the users without an expiry strictly before now are kept |
| Tasks.SelectedIff | website/tasks.py:7-12 | a user is synced iff they have a token and their expiry is null or not before now |
| Tasks.FirstSelected | website/tasks.py:8-12 | the first user synced is the first user in table order who has a token and is not skipped |
| Tasks.ExpiryBoundaryDiffers | website/tasks.py:9 | the Garmin refresh test and the Strava skip test disagree exactly at expiry == now |
| Tasks.RequestsFor | website/tasks.py:8-12 | one fetch per selected user, in order, with that user's token |
| Tasks.SyncEachOnlyAdds | website/tasks.py:12 | the job only adds activities: users and entries stay, existing rows stay in place |
| Tasks.Visit | website/tasks.py:9-12 | a skipped user causes no call and no change; any other user is synced once |
| Tasks.SyncStravaActivities | website/tasks.py:5-12 | each selected user is synced exactly once, in query order; skipped users cause no call and no change |
| Tasks.JobAsWritten | website/tasks.py:12 | as written, the job completes only when nobody is selected; otherwise its `NameError` names the first user in table order who has a token and is not skipped |
| Tasks.AsWrittenSyncsNobody | website/tasks.py:12 | one user with a token: as written the job fails, while the intended job syncs that user |
| Auth.ValidateSignUp | website/auth.py:47-57 | the first failing check wins, in chain order; no error exactly when every check passes |
| Auth.BoundaryValuesAccepted | website/auth.py:50-57 | a 4-character email, a 2-character first name and a 7-character password pass |
| Auth.FindByEmail | website/auth.py:18 | the result is a user with that email; none exactly when no user has it |
| Auth.FindByEmailAppended | website/auth.py:59-61 | a newly added user whose email was free is the one found by it |
| Auth.NextId | website/auth.py:59-61 | the new user's id is used by no existing user |
| Auth.NewUser | website/auth.py:59-60 | the stored password is a pbkdf2:sha256 hash that checks against password1, never the plaintext |
| Auth.LoginSession.LogIn | website/auth.py:22 | the user is logged in with remember set |
| Auth.LoginSession.LogOut | website/auth.py:33-37 | nobody is logged in |
| Auth.LoginResult | website/auth.py:18-27 | success iff the email exists and the hash matches; an unknown email and a wrong password are distinct outcomes |
| Auth.Login | website/auth.py:12-29 | only a successful attempt changes who is logged in |
| Auth.SignUp | website/auth.py:39-67 | a failed check creates nothing; success adds exactly the new user, commits and logs them in |
| Auth.SignUpThenLogin | website/auth.py:58-63 | an account just created logs in with password1 |
| Auth.MetricNamed | website/auth.py:101-106 | exactly the four metric names are known |
| Auth.Unit | website/auth.py:108-113 | water, and only water, is labelled `ml`; every label is one of the four units |
| Auth.LeaderboardRange | website/auth.py:72-98 | the defaults are `running_mileage` and `day`; a timeframe error comes before a metric error; an accepted request yields the named metric and the timeframe's window |
| Auth.DateWindow | website/auth.py:76-96 | an unknown timeframe is the only cause of the unbound-range error; an overflow can come only from `week` |
| Auth.DayWindow | website/auth.py:77-79 | the day window is [today, today] |
| Auth.WeekWindow | website/auth.py:80-83 | Monday to the Sunday six days later, containing today; it fails only from 9999-12-27 on |
| Auth.SundayPastMax | website/auth.py:82-83 | the week's Sunday lies past 9999-12-31 exactly for the last five days, since 9999-12-31 is a Friday |
| Auth.LastFiveDays | website/auth.py:76 | the last five valid days are 9999-12-27 to 9999-12-31 |
| Auth.MonthWindow | website/auth.py:84-91 | from the 1st to the month's last day; December ends on the 31st |
| Auth.YearWindow | website/auth.py:92-96 | from 1 January to 31 December: 365 or 366 days |
| Auth.WindowContainsToday | website/auth.py:76-96 | start <= today <= end for every supported timeframe; day, month and year never fail |
| Chatbot.Motivation | website/chatbot.py:21-23 | the answer is always one of the ten stored quotes |
| Chatbot.DailyGoals | website/chatbot.py:77-101 | 1 to 4 goals; the default goals appear exactly when there is no entry, never mixed with goals drawn from one |
| Chatbot.DailyGoalsWithoutEntries | website/chatbot.py:94-101 | without entries, exactly the four default goals |
| Chatbot.DailyGoalsRunningFirst | website/chatbot.py:77-81 | 1 to 4 goals; the first is the running goal, 3 miles below a 3-mile last run and the last run's distance otherwise |
| Chatbot.DailyGoalsOneRunningGoal | website/chatbot.py:77-93 | there is exactly one running goal |
| Chatbot.DailyGoalsThresholds | website/chatbot.py:83-93 | sleep goal iff sleep < 7, water goal iff water < 2000, screen goal iff screen > 4 |
| Chatbot.GenerateDailyGoals | website/chatbot.py:69-103 | the appended list is the goal list of the latest entry |
| Chatbot.WeeklyGoals | website/chatbot.py:105-141 | always 5 goals in topic order; with entries the running target is max(1.1 × total, 10) and the sleep target max(average, 7), followed by the water, screen and logging goals; without entries, exactly the five defaults |
| Chatbot.WeeklyRunTargetCoversTotal | website/chatbot.py:120-125 | with non-negative mileage, the running target is at least the recent total |
| Chatbot.Sentences | website/chatbot.py:43-65 | 2 to 4 sentences, led by the mileage sentence exactly when the average mileage is positive |
| Chatbot.Analyze | website/chatbot.py:36-65 | the fixed not-enough-data message exactly when there are no entries; otherwise a report of 2 to 4 sentences |
| Chatbot.AnalysisCounts | website/chatbot.py:36-65 | no entries gives the fixed message, and only then; otherwise 2 to 4 sentences, exactly one on sleep and one on water, one on mileage iff the average is positive, one on screen time iff the average is above 4 |
| Chatbot.SentencesSleepAndWaterOnce | website/chatbot.py:49-60 | a report has exactly one sentence on sleep and exactly one on water |
| Chatbot.SentencesRunningAndScreen | website/chatbot.py:43-65 | one mileage sentence iff the average mileage is positive, and one screen sentence iff the average screen time is above 4; never more |
| Chatbot.SentencesThresholds | website/chatbot.py:43-65 | the mileage sentence carries the average and appears iff it is > 0; low-sleep advice iff < 7, and the well-slept sentence otherwise; water advice iff < 2000, and the hydrated sentence otherwise; screen advice iff > 4 |
| Chatbot.AnalyzeProgress | website/chatbot.py:25-67 | the appended sentences are the analysis of the entries |
| Chatbot.Lower | website/chatbot.py:145 | same length, each letter lower-cased |
| Chatbot.LowerIdempotent | website/chatbot.py:145 | lower-casing twice is lower-casing once |
| Chatbot.Classify | website/chatbot.py:148-176 | the general fallback answer is given exactly when no keyword of any topic occurs |
| Chatbot.ClassifyIsFirstMatch | website/chatbot.py:148-176 | the dispatch picks the first of goals, progress, motivation, help with a keyword present, else the fallback |
| Chatbot.TargetsAsksGoals | website/chatbot.py:148 | matching is by substring, so "targets" selects the goals branch |
| Chatbot.DoingBeforeHow | website/chatbot.py:156-162 | "doing" selects progress even when "how" is present too |
| Chatbot.ProcessMessage | website/chatbot.py:143-178 | the reply kind is the branch selected for the lower-cased message; goals and analysis are the generated ones; motivation is a stored quote |

Some definitions model a source expression and are stated through the rows that cite the same lines:
- `Garmin.NeedsRefresh` (the expiry test at website/garmin_integration.py:148 and 207) is covered by `Garmin.RefreshAttemptedIffExpired` and `Garmin.FreshTokenDueAfterLifetime`.
- `Garmin.HasGarminRow` (the duplicate query at website/garmin_integration.py:170-174) is covered by `Garmin.InsertGarminSkipsStored` and `Garmin.GarminDedupIsPerUser`.
- `Strava.HasStravaRow` (the duplicate query at website/strava_integration.py:39-41) is covered by `Strava.InsertStravaSkipsStored` and `Strava.StravaDedupIsGlobal`.
- `Tasks.StravaUsers` (the query at website/tasks.py:7) is covered by `Tasks.StravaUsersMembers`.
- `Base.DayOf` (`datetime.now().date()`) is covered by `Garmin.FromTimestamp` and `MyFitnessPal.MyFitnessPalIntegration.SyncData`.
- `Calendar.Ordinal` (`date.toordinal()`) is covered by `Calendar.OrdinalBounds`, `Calendar.YearLength` and `Calendar.NextYearStart`.

## Findings

| source | as written | input that shows it | evidently intended | confidence | as-written member | corrected member |
|---|---|---|---|---|---|---|
| website/tasks.py:12 | `strava_integration` is never bound in the module, so the job raises `NameError` at the first user it does not skip | one user with a Strava token and no expiry | an integration instance is called once per selected user | medium (not executed; a binding from outside the repository's files cannot be ruled out) | Tasks.JobAsWritten | Tasks.SyncStravaActivities |

## Left out

- HTTP calls: the Garmin token endpoint, the MyFitnessPal login page and post, and the Strava token exchange are parameters returning optional replies. `StravaIntegration.exchange_code_for_token` only forwards the library's reply, so it is not modelled.
- `get_auth_url` (Garmin and Strava) builds URLs through library encoders and is not modelled. The Garmin version also configures the client; the model does not capture that effect.
- The third-party clients (garth, stravalib, myfitnesspal) appear only through their outputs: the activities or days they return, or the fact that they raised.
- Exceptions other than the modelled failures are not modelled:
  - a malformed Garmin activity or a failing commit, which would roll back;
  - Strava errors other than `AccessUnauthorized`, which propagate;
  - a failing MyFitnessPal commit, which would roll back.
- Floating point is modelled as exact reals. The model does not capture `round(..., 1)` in the water conversion, the leaderboard's `round(score, 2)` or the `:.1f` formatting. Sentences and goals are constructors carrying their numbers, not formatted text.
- Garmin.FromTimestamp ignores the local time-zone offset that `datetime.fromtimestamp` applies. The clock is read once per call, where the code calls `datetime.now()` several times.
- Password hashing is symbolic: a salt (a parameter) and the hashed secret. `Store.Verifies` plays `check_password_hash`.
- The code has no retry, rate-limit or partial-outcome handling; none is modelled.
- A JSON key that is present with the value `null` is modelled as if the key were missing. Python's `.get(key, default)` returns `None` in that case, and the source then behaves differently from the model in these fields:
  - Garmin `expires_in` (website/garmin_integration.py:80, 113): the source raises and the refresh or exchange fails; the model uses 3600 seconds.
  - Garmin `sleepTimeSeconds` (227) and `dailySleepDTO` (225-226): for either one null, the source raises, rolls back and returns False. The model stores 0 hours for a null `sleepTimeSeconds`, and treats a null `dailySleepDTO` as a missing one, which returns False without a rollback.
  - Garmin `distance` and `duration` (183-184): the source stores NULL; the model stores 0.
  - MyFitnessPal `calories` (website/myfitnesspal_integration.py:98): the source stores NULL; the model stores 0.
- Strava.StravaIntegration.SyncActivities: before 0001-01-15, `now - timedelta(days=14)` (website/strava_integration.py:33) raises `OverflowError`, which is not caught and propagates, after the client has taken the user's token. The model fetches from an instant before year 1 instead. The same exception would end Tasks.SyncStravaActivities at the first user it syncs.
- Garmin.GarminRow: a `startTimeInSeconds` outside `datetime`'s range makes `datetime.fromtimestamp` (website/garmin_integration.py:185) raise, so the source rolls back and returns False. The model stores the instant.
- The chatbot's entry queries start 7 days or `days` days before today (website/chatbot.py:28, 108). In the first days of year 1 that subtraction raises; since the queries are parameters, the model does not capture this.
- Form fields are strings. A missing field, where `request.form.get` returns `None`, is not modelled.
- `random.choice` is modelled as a draw index `roll`.
- `str.lower` is modelled on ASCII letters only.
- The chatbot's entry queries are parameters: the latest entry, and the entries of the analysed days. A NULL metric column would raise `TypeError` in the sums and comparisons; that is not modelled.
- The `HealthChatbot` object holds only the constant quote list, so it is modelled as a module constant rather than a class.
- The leaderboard's SQL aggregation and ordering, and its display mapping, are not modelled. The model stops at the metric and the date window.
- Logging, `flash`, `render_template`, `redirect`, `login_required`, and the debug prints are not modelled.
- Not modelled at all: website/views.py, website/__init__.py, wsgi.py, main.py, website/models.py (used as a shape reference only) and the migrations.
- Tasks.SyncStravaActivities is the corrected job: it calls an integration object passed in, since the name the code uses is unbound (see Findings). The app context it runs under is not modelled.
