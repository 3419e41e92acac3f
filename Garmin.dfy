/** The Garmin integration: OAuth 2.0 token handling (the refresh grant of
    section 6 of RFC 6749, reading `expires_in` from the token response of
    section 5.1), activity sync with de-duplication per user, and the upsert
    of today's sleep into the `Entry` table. The token endpoint and the garth
    client's API are parameters: functions from the request to the response,
    `None` standing for a request that raised. */
module Garmin {
  import opened Base
  import opened Store
  import Calendar

  const GarminSource: string := "garmin"
  const RunningTypeKey: string := "running"
  /** Lifetime assumed when the token response has no `expires_in`. */
  const DefaultExpiresIn: int := 3600
  /** How far back the first sync looks. */
  const FirstSyncLookbackDays: int := 30
  /** `datetime.fromtimestamp(0)` as an `Instant`: 1970-01-01 is ordinal day 719163. */
  const UnixEpoch: Instant := 719162 * SecondsPerDay

  // ---------------------------------------------------------------------------
  // Tokens

  /** The fields of a token endpoint's JSON reply that the integration reads. */
  datatype TokenResponse = TokenResponse(
    accessToken: Option<string>,
    refreshToken: Option<string>,
    expiresIn: Option<int>)

  /** What `refresh_token` and `exchange_code_for_token` return on success. */
  datatype Tokens = Tokens(accessToken: Option<string>, refreshToken: Option<string>, expiresAt: Instant)

  /** Post-processing of a token reply: both tokens are taken as the reply
      gives them and the expiry is `expires_in` seconds from now, one hour
      when the reply leaves `expires_in` out. An expiry `datetime` cannot
      hold raises inside the handler, and the call returns `None`. */
  function TokensFromResponse(resp: TokenResponse, now: Instant): (t: Option<Tokens>)
    ensures t.Some? <==> Calendar.InDatetimeRange(now + resp.expiresIn.GetOr(3600))
    ensures t.Some? ==> t.value.accessToken == resp.accessToken && t.value.refreshToken == resp.refreshToken
    ensures t.Some? && resp.expiresIn.None? ==> t.value.expiresAt == now + 3600
    ensures t.Some? && resp.expiresIn.Some? ==> t.value.expiresAt == now + resp.expiresIn.value
  {
    var expiresAt := now + resp.expiresIn.GetOr(DefaultExpiresIn);
    if Calendar.InDatetimeRange(expiresAt) then Some(Tokens(resp.accessToken, resp.refreshToken, expiresAt)) else None
  }

  /** With the default lifetime, a token obtained in the last hour of
      9999-12-31 has no expiry `datetime` can hold, so the exchange or
      refresh fails; at any earlier instant it succeeds. */
  lemma DefaultExpiryOverflows(resp: TokenResponse, now: Instant)
    requires resp.expiresIn.None? && Calendar.InDatetimeRange(now)
    ensures TokensFromResponse(resp, now).None? <==> now >= Calendar.MaxOrdinal * SecondsPerDay - 3600
  {
  }

  /** A stored token is refreshed when its expiry is set and not after now. */
  predicate NeedsRefresh(expiresAt: Option<Instant>, now: Instant) {
    expiresAt.Some? && expiresAt.value <= now
  }

  /** A freshly obtained token is due again exactly once its `expires_in`
      seconds (one hour by default) have passed. */
  lemma FreshTokenDueAfterLifetime(resp: TokenResponse, now: Instant, later: Instant)
    requires TokensFromResponse(resp, now).Some?
    ensures NeedsRefresh(Some(TokensFromResponse(resp, now).value.expiresAt), later)
        <==> later - now >= resp.expiresIn.GetOr(3600)
  {
  }

  /** The user's three Garmin credential fields replaced together. */
  function WithGarminTokens(t: Tables, ui: nat, tok: Tokens): (r: Tables)
    requires ui < |t.users|
    ensures |r.users| == |t.users| && r.activities == t.activities && r.entries == t.entries
    ensures forall i :: 0 <= i < |t.users| && i != ui ==> r.users[i] == t.users[i]
    ensures r.users[ui].garminAccessToken == tok.accessToken
    ensures r.users[ui].garminRefreshToken == tok.refreshToken
    ensures r.users[ui].garminTokenExpiresAt == Some(tok.expiresAt)
    ensures r.users[ui] == t.users[ui].(garminAccessToken := r.users[ui].garminAccessToken,
                                         garminRefreshToken := r.users[ui].garminRefreshToken,
                                         garminTokenExpiresAt := r.users[ui].garminTokenExpiresAt)
  {
    var u := t.users[ui];
    t.(users := t.users[ui := u.(garminAccessToken := tok.accessToken,
                                 garminRefreshToken := tok.refreshToken,
                                 garminTokenExpiresAt := Some(tok.expiresAt))])
  }

  // ---------------------------------------------------------------------------
  // Requests and the client

  /** The calls the integration makes to Garmin, in the order it makes them. */
  datatype GarminRequest =
    | CodeExchange(code: string, redirectUri: string)
    | TokenRefresh(refreshToken: Option<string>)
    | ActivityList(token: Option<string>, start: Instant)
    | SleepQuery(token: Option<string>, day: Day)

  /** The garth client, reduced to the token it sends. */
  datatype GarthClient = GarthClient(oauth2Token: Option<string>)

  /** The client after `if not self.client: self.initialize_client(token)`. */
  function Initialized(c: Option<GarthClient>, u: User): GarthClient {
    if c.Some? then c.value else GarthClient(u.garminAccessToken)
  }

  datatype RefreshStep = NotDue | Refreshed(tokens: Tokens) | RefreshFailed

  /** What the token check at the head of both syncs does for user `u`. */
  function PlanRefresh(u: User, now: Instant, tokenEndpoint: GarminRequest -> Option<TokenResponse>): (r: RefreshStep)
    ensures r.RefreshFailed? ==>
      && NeedsRefresh(u.garminTokenExpiresAt, now)
      && (tokenEndpoint(TokenRefresh(u.garminRefreshToken)).None?
          || TokensFromResponse(tokenEndpoint(TokenRefresh(u.garminRefreshToken)).value, now).None?)
    ensures r.Refreshed? ==>
      && NeedsRefresh(u.garminTokenExpiresAt, now)
      && tokenEndpoint(TokenRefresh(u.garminRefreshToken)).Some?
      && TokensFromResponse(tokenEndpoint(TokenRefresh(u.garminRefreshToken)).value, now) == Some(r.tokens)
  {
    if !NeedsRefresh(u.garminTokenExpiresAt, now) then NotDue
    else match tokenEndpoint(TokenRefresh(u.garminRefreshToken))
      case None => RefreshFailed
      case Some(resp) =>
        match TokensFromResponse(resp, now)
        case None => RefreshFailed
        case Some(t) => Refreshed(t)
  }

  /** A refresh is attempted exactly when the stored expiry is set and not
      after now; a missing expiry never triggers one. */
  lemma RefreshAttemptedIffExpired(u: User, now: Instant, tokenEndpoint: GarminRequest -> Option<TokenResponse>)
    ensures PlanRefresh(u, now, tokenEndpoint).NotDue?
        <==> (u.garminTokenExpiresAt.None? || now < u.garminTokenExpiresAt.value)
  {
  }

  // ---------------------------------------------------------------------------
  // Activities

  /** One element of the list `client.get_activities` returns; `None` marks a
      key the JSON object does not have. */
  datatype GarminActivity = GarminActivity(
    activityId: Option<int>,
    typeKey: Option<string>,
    activityName: Option<string>,
    distance: Option<real>,
    duration: Option<real>,
    startTimeInSeconds: Option<int>)

  predicate IsRunning(a: GarminActivity) {
    a.typeKey == Some(RunningTypeKey)
  }

  /** `datetime.fromtimestamp(ts)` (the local time-zone offset is not modelled). */
  function FromTimestamp(ts: int): (t: Instant)
    ensures DayOf(t) == Calendar.Ordinal(Calendar.Date(1970, 1, 1)) + ts / SecondsPerDay
    ensures t % SecondsPerDay == ts % SecondsPerDay
  {
    UnixEpoch + ts
  }

  /** The row stored for a new Garmin activity of user `uid`. */
  function GarminRow(uid: UserId, a: GarminActivity): (r: Activity)
    ensures r.userId == uid && r.source == Some(GarminSource)
    ensures r.externalId == Some(TextOf(a.activityId))
    ensures r.distance == (if a.distance.Some? then a.distance.value else 0.0)
    ensures r.duration == (if a.duration.Some? then a.duration.value else 0.0)
  {
    Activity(uid, Some(GarminSource), Some(TextOf(a.activityId)), None, a.activityName, None,
             a.distance.GetOr(0.0), a.duration.GetOr(0.0), FromTimestamp(a.startTimeInSeconds.GetOr(0)), None)
  }

  /** `Activity.query.filter_by(user_id=uid, external_id=id, source='garmin').first()` finds a row. */
  predicate HasGarminRow(rows: seq<Activity>, uid: UserId, id: IdText) {
    exists i :: 0 <= i < |rows| && rows[i].userId == uid && rows[i].externalId == Some(id) && rows[i].source == Some(GarminSource)
  }

  /** One pass of the loop body: a running activity not yet stored for this user is appended. */
  function StepGarmin(rows: seq<Activity>, uid: UserId, a: GarminActivity): seq<Activity> {
    if IsRunning(a) && !HasGarminRow(rows, uid, TextOf(a.activityId)) then rows + [GarminRow(uid, a)] else rows
  }

  /** The `Activity` table after the loop has seen `acts`, in order. */
  function InsertGarmin(rows: seq<Activity>, uid: UserId, acts: seq<GarminActivity>): (r: seq<Activity>)
    ensures rows <= r
    decreases |acts|
  {
    if acts == [] then rows
    else StepGarmin(InsertGarmin(rows, uid, acts[..|acts| - 1]), uid, acts[|acts| - 1])
  }

  lemma HasGarminRowGrows(rows: seq<Activity>, more: seq<Activity>, uid: UserId, id: IdText)
    requires rows <= more && HasGarminRow(rows, uid, id)
    ensures HasGarminRow(more, uid, id)
  {
    var i :| 0 <= i < |rows| && rows[i].userId == uid && rows[i].externalId == Some(id) && rows[i].source == Some(GarminSource);
    assert more[i] == rows[i];
  }

  /** `row` is the row stored for one of the running activities in `acts`. */
  predicate RowOfFetchedRun(row: Activity, uid: UserId, acts: seq<GarminActivity>) {
    exists j :: 0 <= j < |acts| && IsRunning(acts[j]) && row == GarminRow(uid, acts[j])
  }

  /** Every row the sync adds is the row of a fetched running activity, for this user. */
  lemma {:induction false} InsertGarminAddsOnlyRunning(rows: seq<Activity>, uid: UserId, acts: seq<GarminActivity>)
    ensures forall k :: |rows| <= k < |InsertGarmin(rows, uid, acts)| ==>
      RowOfFetchedRun(InsertGarmin(rows, uid, acts)[k], uid, acts)
    decreases |acts|
  {
    if acts != [] {
      var init := acts[..|acts| - 1];
      InsertGarminAddsOnlyRunning(rows, uid, init);
      var prev := InsertGarmin(rows, uid, init);
      var r := InsertGarmin(rows, uid, acts);
      forall k | |rows| <= k < |r|
        ensures RowOfFetchedRun(r[k], uid, acts)
      {
        if k < |prev| {
          assert RowOfFetchedRun(prev[k], uid, init);
          var j :| 0 <= j < |init| && IsRunning(init[j]) && prev[k] == GarminRow(uid, init[j]);
          assert acts[j] == init[j];
        } else {
          assert r[k] == GarminRow(uid, acts[|acts| - 1]);
        }
      }
    }
  }

  /** After the sync every fetched running activity is stored for this user. */
  lemma {:induction false} InsertGarminStoresEveryRun(rows: seq<Activity>, uid: UserId, acts: seq<GarminActivity>)
    ensures forall j :: 0 <= j < |acts| && IsRunning(acts[j]) ==> HasGarminRow(InsertGarmin(rows, uid, acts), uid, TextOf(acts[j].activityId))
    decreases |acts|
  {
    if acts != [] {
      var init := acts[..|acts| - 1];
      var last := acts[|acts| - 1];
      InsertGarminStoresEveryRun(rows, uid, init);
      var prev := InsertGarmin(rows, uid, init);
      var r := InsertGarmin(rows, uid, acts);
      forall j | 0 <= j < |acts| && IsRunning(acts[j])
        ensures HasGarminRow(r, uid, TextOf(acts[j].activityId))
      {
        if j < |init| {
          assert acts[j] == init[j];
          HasGarminRowGrows(prev, r, uid, TextOf(acts[j].activityId));
        } else if !HasGarminRow(prev, uid, TextOf(last.activityId)) {
          assert r[|prev|] == GarminRow(uid, last);
        }
      }
    }
  }

  /** A fetched activity already stored for (this user, its id, 'garmin') gets no new row. */
  lemma {:induction false} InsertGarminSkipsStored(rows: seq<Activity>, uid: UserId, acts: seq<GarminActivity>, id: IdText)
    requires HasGarminRow(rows, uid, id)
    ensures forall k :: |rows| <= k < |InsertGarmin(rows, uid, acts)| ==> InsertGarmin(rows, uid, acts)[k].externalId != Some(id)
    decreases |acts|
  {
    if acts != [] {
      var init := acts[..|acts| - 1];
      InsertGarminSkipsStored(rows, uid, init, id);
      var prev := InsertGarmin(rows, uid, init);
      var last := acts[|acts| - 1];
      HasGarminRowGrows(rows, prev, uid, id);
      var r := InsertGarmin(rows, uid, acts);
      forall k | |rows| <= k < |r|
        ensures r[k].externalId != Some(id)
      {
        if k == |prev| {
          assert TextOf(last.activityId) != id;
        }
      }
    }
  }

  /** No two Garmin rows of the same user share an external id. */
  predicate GarminKeysUnique(rows: seq<Activity>) {
    forall i, j ::
      && 0 <= i < j < |rows|
      && rows[i].source == Some(GarminSource) && rows[j].source == Some(GarminSource)
      && rows[i].userId == rows[j].userId
      ==> rows[i].externalId != rows[j].externalId
  }

  /** The de-duplication invariant: the sync never creates a second row for
      the same (user, external id, 'garmin'), even when the fetched list
      repeats an activity. */
  lemma {:induction false} InsertGarminKeepsKeysUnique(rows: seq<Activity>, uid: UserId, acts: seq<GarminActivity>)
    requires GarminKeysUnique(rows)
    ensures GarminKeysUnique(InsertGarmin(rows, uid, acts))
    decreases |acts|
  {
    if acts != [] {
      var init := acts[..|acts| - 1];
      var last := acts[|acts| - 1];
      InsertGarminKeepsKeysUnique(rows, uid, init);
      var prev := InsertGarmin(rows, uid, init);
      if IsRunning(last) && !HasGarminRow(prev, uid, TextOf(last.activityId)) {
        var r := prev + [GarminRow(uid, last)];
        forall i, j | 0 <= i < j < |r| && r[i].source == Some(GarminSource) && r[j].source == Some(GarminSource)
            && r[i].userId == r[j].userId
          ensures r[i].externalId != r[j].externalId
        {
        }
      }
    }
  }

  /** Once every running activity of a list is stored, syncing the list again changes nothing. */
  lemma {:induction false} InsertGarminAllStored(rows: seq<Activity>, uid: UserId, acts: seq<GarminActivity>)
    requires forall j :: 0 <= j < |acts| && IsRunning(acts[j]) ==> HasGarminRow(rows, uid, TextOf(acts[j].activityId))
    ensures InsertGarmin(rows, uid, acts) == rows
    decreases |acts|
  {
    if acts != [] {
      var init := acts[..|acts| - 1];
      forall j | 0 <= j < |init| && IsRunning(init[j])
        ensures HasGarminRow(rows, uid, TextOf(init[j].activityId))
      {
        assert init[j] == acts[j];
      }
      InsertGarminAllStored(rows, uid, init);
    }
  }

  /** Re-syncing the same fetched activities adds no rows: the sync is idempotent. */
  lemma InsertGarminIdempotent(rows: seq<Activity>, uid: UserId, acts: seq<GarminActivity>)
    ensures InsertGarmin(InsertGarmin(rows, uid, acts), uid, acts) == InsertGarmin(rows, uid, acts)
  {
    InsertGarminStoresEveryRun(rows, uid, acts);
    InsertGarminAllStored(InsertGarmin(rows, uid, acts), uid, acts);
  }

  /** De-duplication is per user: a running activity whose id is stored only
      for other users is still inserted for this one. */
  lemma GarminDedupIsPerUser(rows: seq<Activity>, uid: UserId, a: GarminActivity)
    requires IsRunning(a)
    requires forall i :: 0 <= i < |rows| && rows[i].externalId == Some(TextOf(a.activityId)) ==> rows[i].userId != uid
    ensures StepGarmin(rows, uid, a) == rows + [GarminRow(uid, a)]
  {
  }

  /** The table after a successful activity sync: new rows inserted and last-sync set to now. */
  function AfterActivitySync(t: Tables, ui: nat, now: Instant, acts: seq<GarminActivity>): Tables
    requires ui < |t.users|
  {
    t.(activities := InsertGarmin(t.activities, t.users[ui].id, acts),
       users := t.users[ui := t.users[ui].(garminLastSync := Some(now))])
  }

  /** `user.garmin_last_sync or (datetime.now() - timedelta(days=30))`;
      `None` when the lookback would fall before 0001-01-01 and raises. */
  function FetchStart(u: User, now: Instant): (s: Option<Instant>)
    ensures u.garminLastSync.Some? ==> s == Some(u.garminLastSync.value)
    ensures u.garminLastSync.None? ==> (s.Some? <==> Calendar.InDatetimeRange(now - 30 * 86400))
    ensures u.garminLastSync.None? && s.Some? ==> s.value == now - 30 * 86400
  {
    if u.garminLastSync.Some? then Some(u.garminLastSync.value)
    else
      var start := AddDays(now, -FirstSyncLookbackDays);
      if Calendar.InDatetimeRange(start) then Some(start) else None
  }

  // ---------------------------------------------------------------------------
  // Sleep

  datatype SleepDto = SleepDto(sleepTimeSeconds: Option<real>)

  /** The reply of `client.get_sleep_data(today)`: the request raised, or the
      reply with its `dailySleepDTO` (`None` when absent or the reply is empty). */
  datatype SleepResponse = SleepFetchFailed | SleepData(dailySleepDTO: Option<SleepDto>)

  /** Seconds of sleep as hours (a missing `sleepTimeSeconds` counts as 0). */
  function SleepHours(dto: SleepDto): (h: real)
    ensures dto.sleepTimeSeconds.None? ==> h == 0.0
    ensures dto.sleepTimeSeconds.Some? ==> h * 3600.0 == dto.sleepTimeSeconds.value
  {
    dto.sleepTimeSeconds.GetOr(0.0) / 3600.0
  }

  /** Find-or-create the entry for `key` and set its sleep hours. */
  function UpsertSleep(entries: map<EntryKey, Entry>, key: EntryKey, hours: real): (r: map<EntryKey, Entry>)
    ensures r.Keys == entries.Keys + {key}
    ensures r[key].sleepHours == Some(hours)
    ensures key in entries ==> r[key] == entries[key].(sleepHours := Some(hours))
    ensures key !in entries ==> r[key] == Entry(Some(hours), None, None, None, None)
    ensures forall k :: k in entries && k != key ==> r[k] == entries[k]
  {
    if key in entries then entries[key := entries[key].(sleepHours := Some(hours))]
    else entries[key := Entry(Some(hours), None, None, None, None)]
  }

  /** Syncing the same night twice leaves the table as syncing it once. */
  lemma UpsertSleepIdempotent(entries: map<EntryKey, Entry>, key: EntryKey, hours: real)
    ensures UpsertSleep(UpsertSleep(entries, key, hours), key, hours) == UpsertSleep(entries, key, hours)
  {
  }

  // ---------------------------------------------------------------------------
  // The integration object

  /** Python's `a or b` on optional strings: `b` when `a` is missing or empty. */
  function OrElse(a: Option<string>, b: Option<string>): (r: Option<string>)
    ensures a.Some? && a.value != "" ==> r == a
    ensures (a.None? || a.value == "") ==> r == b
  {
    if a.Some? && a.value != "" then a else b
  }

  /** The loop of `sync_activities` over the fetched activities: each
      running activity not yet stored for this user is added, uncommitted. */
  method StoreRuns(db: Session, uid: UserId, acts: seq<GarminActivity>)
    modifies db
    ensures db.working == old(db.working).(activities := InsertGarmin(old(db.working.activities), uid, acts))
    ensures db.committed == old(db.committed)
  {
    for i := 0 to |acts|
      invariant db.working == old(db.working).(activities := InsertGarmin(old(db.working.activities), uid, acts[..i]))
      invariant db.committed == old(db.committed)
    {
      assert acts[..i + 1][..i] == acts[..i];
      var a := acts[i];
      if IsRunning(a) {
        var id := TextOf(a.activityId);
        if !HasGarminRow(db.working.activities, uid, id) {
          db.working := db.working.(activities := db.working.activities + [GarminRow(uid, a)]);
        }
      }
    }
    assert acts[..|acts|] == acts;
  }

  class GarminIntegration {
    const clientId: Option<string>
    const clientSecret: Option<string>
    /** `self.client`: `None` until first configured. */
    var client: Option<GarthClient>
    /** Every call made to Garmin so far, oldest first. */
    var requests: seq<GarminRequest>

    /** The credentials come from the arguments, else from the environment
        (`GARMIN_CLIENT_ID`, `GARMIN_CLIENT_SECRET`, passed in as `envId`, `envSecret`). */
    constructor (id: Option<string>, secret: Option<string>, envId: Option<string>, envSecret: Option<string>)
      ensures clientId == OrElse(id, envId) && clientSecret == OrElse(secret, envSecret)
      ensures client == None && requests == []
    {
      clientId := OrElse(id, envId);
      clientSecret := OrElse(secret, envSecret);
      client := None;
      requests := [];
    }

    /** Configure the client if needed and give it `accessToken`. */
    method InitializeClient(accessToken: Option<string>) returns (ok: bool)
      modifies this
      ensures ok && client == Some(GarthClient(accessToken)) && requests == old(requests)
    {
      client := Some(GarthClient(accessToken));
      ok := true;
    }

    /** Authorization-code exchange. The client is configured before the call,
        so it exists afterwards even when the exchange fails. */
    method ExchangeCodeForToken(code: string, redirectUri: string, now: Instant,
                                tokenEndpoint: GarminRequest -> Option<TokenResponse>)
      returns (r: Option<Tokens>)
      modifies this
      ensures requests == old(requests) + [CodeExchange(code, redirectUri)]
      ensures var resp := tokenEndpoint(CodeExchange(code, redirectUri));
        var tokens := if resp.None? then None else TokensFromResponse(resp.value, now);
        && r == tokens
        && (tokens.None? ==> client == (if old(client).None? then Some(GarthClient(None)) else old(client)))
        && (tokens.Some? ==> client == Some(GarthClient(resp.value.accessToken)))
    {
      if client.None? {
        client := Some(GarthClient(None));
      }
      var req := CodeExchange(code, redirectUri);
      requests := requests + [req];
      var resp := tokenEndpoint(req);
      if resp.None? {
        return None;
      }
      r := TokensFromResponse(resp.value, now);
      if r.Some? {
        client := Some(GarthClient(r.value.accessToken));
      }
    }

    /** The refresh grant. On failure nothing but the request log changes. */
    method RefreshToken(refreshToken: Option<string>, now: Instant,
                        tokenEndpoint: GarminRequest -> Option<TokenResponse>)
      returns (r: Option<Tokens>)
      modifies this
      ensures requests == old(requests) + [TokenRefresh(refreshToken)]
      ensures var resp := tokenEndpoint(TokenRefresh(refreshToken));
        var tokens := if resp.None? then None else TokensFromResponse(resp.value, now);
        && r == tokens
        && (tokens.None? ==> client == old(client))
        && (tokens.Some? ==> client == Some(GarthClient(resp.value.accessToken)))
    {
      var req := TokenRefresh(refreshToken);
      requests := requests + [req];
      var resp := tokenEndpoint(req);
      if resp.None? {
        return None;
      }
      r := TokensFromResponse(resp.value, now);
      if r.Some? {
        client := Some(GarthClient(r.value.accessToken));
      }
    }

    /** The token check that opens both syncs: when the stored token is due, it
        is refreshed and all three credential fields are replaced and committed
        (with anything else pending) before any fetch; a failed refresh stops
        the sync with nothing changed. */
    method EnsureFreshToken(db: Session, ui: nat, now: Instant,
                            tokenEndpoint: GarminRequest -> Option<TokenResponse>)
      returns (proceed: bool)
      requires ui < |db.working.users|
      modifies this, db
      ensures var u := old(db.working.users[ui]);
        var step := PlanRefresh(u, now, tokenEndpoint);
        && proceed == !step.RefreshFailed?
        && requests == old(requests) + (if step.NotDue? then [] else [TokenRefresh(u.garminRefreshToken)])
        && (step.Refreshed? ==>
              && db.working == WithGarminTokens(old(db.working), ui, step.tokens)
              && db.committed == db.working
              && client == Some(GarthClient(step.tokens.accessToken)))
        && (!step.Refreshed? ==>
              db.working == old(db.working) && db.committed == old(db.committed) && client == old(client))
    {
      var u := db.working.users[ui];
      if NeedsRefresh(u.garminTokenExpiresAt, now) {
        var tokens := RefreshToken(u.garminRefreshToken, now, tokenEndpoint);
        if tokens.None? {
          return false;
        }
        db.working := WithGarminTokens(db.working, ui, tokens.value);
        db.Commit();
        var _ := InitializeClient(tokens.value.accessToken);
      }
      proceed := true;
    }

    /** `sync_activities`: fetch from the last sync (or 30 days back), store
        each running activity not yet stored for this user, set last-sync to
        now and commit. A failed fetch, or a lookback before 0001-01-01, rolls
        back to the last commit, which includes refreshed credentials. */
    method SyncActivities(db: Session, ui: nat, now: Instant,
                          tokenEndpoint: GarminRequest -> Option<TokenResponse>,
                          activityApi: (Option<string>, Instant) -> Option<seq<GarminActivity>>)
      returns (ok: bool)
      requires ui < |db.working.users|
      modifies this, db
      ensures var u := old(db.working.users[ui]);
        var step := PlanRefresh(u, now, tokenEndpoint);
        var token := if step.Refreshed? then step.tokens.accessToken else Initialized(old(client), u).oauth2Token;
        var refreshed := if step.Refreshed? then WithGarminTokens(old(db.working), ui, step.tokens) else old(db.working);
        var start := FetchStart(u, now);
        var fetched := if start.Some? then activityApi(token, start.value) else None;
        && (step.RefreshFailed? ==>
              && !ok && db.working == old(db.working) && db.committed == old(db.committed)
              && requests == old(requests) + [TokenRefresh(u.garminRefreshToken)]
              && client == Some(Initialized(old(client), u)))
        && (!step.RefreshFailed? ==>
              && requests == old(requests) + (if step.Refreshed? then [TokenRefresh(u.garminRefreshToken)] else [])
                                           + (if start.Some? then [ActivityList(token, start.value)] else [])
              && client == Some(GarthClient(token))
              && ok == fetched.Some?
              && (fetched.None? ==>
                    db.working == db.committed && db.committed == (if step.Refreshed? then refreshed else old(db.committed)))
              && (fetched.Some? ==>
                    db.working == db.committed && db.committed == AfterActivitySync(refreshed, ui, now, fetched.value)))
    {
      if client.None? {
        var _ := InitializeClient(db.working.users[ui].garminAccessToken);
      }
      var proceed := EnsureFreshToken(db, ui, now, tokenEndpoint);
      if !proceed {
        return false;
      }
      var u := db.working.users[ui];
      var start := FetchStart(u, now);
      var token := client.value.oauth2Token;
      if start.None? {
        db.Rollback();
        return false;
      }
      requests := requests + [ActivityList(token, start.value)];
      var fetched := activityApi(token, start.value);
      if fetched.None? {
        db.Rollback();
        return false;
      }
      StoreRuns(db, u.id, fetched.value);
      db.working := db.working.(users := db.working.users[ui := db.working.users[ui].(garminLastSync := Some(now))]);
      db.Commit();
      ok := true;
    }

    /** `sync_sleep_data`: find-or-create today's entry and set its sleep
        hours, then commit. A reply without `dailySleepDTO` gives False with
        nothing written; a failed fetch rolls back. */
    method SyncSleepData(db: Session, ui: nat, now: Instant,
                         tokenEndpoint: GarminRequest -> Option<TokenResponse>,
                         sleepApi: (Option<string>, Day) -> SleepResponse)
      returns (ok: bool)
      requires ui < |db.working.users|
      modifies this, db
      ensures var u := old(db.working.users[ui]);
        var step := PlanRefresh(u, now, tokenEndpoint);
        var token := if step.Refreshed? then step.tokens.accessToken else Initialized(old(client), u).oauth2Token;
        var refreshed := if step.Refreshed? then WithGarminTokens(old(db.working), ui, step.tokens) else old(db.working);
        var lastCommit := if step.Refreshed? then refreshed else old(db.committed);
        var today := DayOf(now);
        var reply := sleepApi(token, today);
        && (step.RefreshFailed? ==>
              && !ok && db.working == old(db.working) && db.committed == old(db.committed)
              && requests == old(requests) + [TokenRefresh(u.garminRefreshToken)]
              && client == Some(Initialized(old(client), u)))
        && (!step.RefreshFailed? ==>
              && requests == old(requests) + (if step.Refreshed? then [TokenRefresh(u.garminRefreshToken)] else [])
                                           + [SleepQuery(token, today)]
              && client == Some(GarthClient(token))
              && ok == (reply.SleepData? && reply.dailySleepDTO.Some?)
              && (reply.SleepFetchFailed? ==> db.working == lastCommit && db.committed == lastCommit)
              && (reply.SleepData? && reply.dailySleepDTO.None? ==> db.working == refreshed && db.committed == lastCommit)
              && (ok ==>
                    && db.committed == db.working
                    && db.working == refreshed.(entries := UpsertSleep(refreshed.entries, (u.id, today),
                                                                       SleepHours(reply.dailySleepDTO.value)))))
    {
      if client.None? {
        var _ := InitializeClient(db.working.users[ui].garminAccessToken);
      }
      var proceed := EnsureFreshToken(db, ui, now, tokenEndpoint);
      if !proceed {
        return false;
      }
      var u := db.working.users[ui];
      var today := DayOf(now);
      var token := client.value.oauth2Token;
      requests := requests + [SleepQuery(token, today)];
      var reply := sleepApi(token, today);
      if reply.SleepFetchFailed? {
        db.Rollback();
        return false;
      }
      if reply.dailySleepDTO.None? {
        return false;
      }
      var hours := SleepHours(reply.dailySleepDTO.value);
      var key := (u.id, today);
      if key in db.working.entries {
        db.working := db.working.(entries := db.working.entries[key := db.working.entries[key].(sleepHours := Some(hours))]);
      } else {
        db.working := db.working.(entries := db.working.entries[key := Entry(Some(hours), None, None, None, None)]);
      }
      db.Commit();
      ok := true;
    }
  }
}
