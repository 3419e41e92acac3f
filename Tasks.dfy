/** The scheduled Strava job: every user with a stored Strava access token is
    synced in turn, except those whose token expiry lies strictly before now
    (the refresh meant for them does not exist). The integration object the job
    uses is a parameter here, as is the clock; the job reads the clock once. */
module Tasks {
  import opened Base
  import opened Store
  import opened Strava
  import Garmin

  /** The job skips a user whose token has an expiry strictly before now:
      never a token without an expiry, and only a token the Garmin test
      would refresh too. */
  predicate Skipped(u: User, now: Instant)
    ensures u.stravaTokenExpiresAt.None? ==> !Skipped(u, now)
    ensures Skipped(u, now) ==> Garmin.NeedsRefresh(u.stravaTokenExpiresAt, now)
  {
    u.stravaTokenExpiresAt.Some? && u.stravaTokenExpiresAt.value < now
  }

  /** A user the job would sync: one with a Strava token who is not skipped. */
  predicate Eligible(u: User, now: Instant) {
    u.stravaAccessToken.Some? && !Skipped(u, now)
  }

  /** `User.query.filter(User.strava_access_token.isnot(None)).all()`, in table order. */
  function StravaUsers(users: seq<User>): (r: seq<User>)
    ensures |r| <= |users|
    decreases |users|
  {
    if users == [] then []
    else
      var last := users[|users| - 1];
      StravaUsers(users[..|users| - 1]) + (if last.stravaAccessToken.Some? then [last] else [])
  }

  /** The users, in order, that the loop does not skip. */
  function Due(users: seq<User>, now: Instant): (r: seq<User>)
    ensures |r| <= |users|
    decreases |users|
  {
    if users == [] then []
    else
      var last := users[|users| - 1];
      Due(users[..|users| - 1], now) + (if Skipped(last, now) then [] else [last])
  }

  /** The users the job syncs: only users of the table, each eligible. */
  function Selected(users: seq<User>, now: Instant): (r: seq<User>)
    ensures |r| <= |users|
    ensures forall u :: u in r ==> u in users && Eligible(u, now)
  {
    StravaUsersMembers(users);
    DueMembers(StravaUsers(users), now);
    Due(StravaUsers(users), now)
  }

  lemma {:induction false} StravaUsersMembers(users: seq<User>)
    ensures forall u :: u in StravaUsers(users) <==> u in users && u.stravaAccessToken.Some?
    decreases |users|
  {
    if users != [] {
      var init := users[..|users| - 1];
      StravaUsersMembers(init);
      assert users == init + [users[|users| - 1]];
    }
  }

  lemma {:induction false} DueMembers(users: seq<User>, now: Instant)
    ensures forall u :: u in Due(users, now) <==> u in users && !Skipped(u, now)
    decreases |users|
  {
    if users != [] {
      var init := users[..|users| - 1];
      DueMembers(init, now);
      assert users == init + [users[|users| - 1]];
    }
  }

  /** A user is synced exactly when they have a Strava access token and no
      expiry before now: a token without an expiry, or expiring exactly now,
      is still used. */
  lemma SelectedIff(users: seq<User>, now: Instant, u: User)
    ensures u in Selected(users, now) <==>
      u in users && u.stravaAccessToken.Some? &&
      (u.stravaTokenExpiresAt.None? || now <= u.stravaTokenExpiresAt.value)
  {
    StravaUsersMembers(users);
    DueMembers(StravaUsers(users), now);
  }

  /** The scheduler and the Garmin refresh read the same boundary differently:
      at expiry == now the Garmin token counts as expired while the Strava
      token is still used, and that is the only instant where they disagree. */
  lemma ExpiryBoundaryDiffers(u: User, now: Instant)
    requires u.stravaTokenExpiresAt.Some?
    ensures Garmin.NeedsRefresh(u.stravaTokenExpiresAt, now) != Skipped(u, now)
        <==> u.stravaTokenExpiresAt.value == now
  {
  }

  function Ids(us: seq<User>): (r: seq<UserId>)
    ensures |r| == |us|
    ensures forall i :: 0 <= i < |us| ==> r[i] == us[i].id
    decreases |us|
  {
    if us == [] then [] else Ids(us[..|us| - 1]) + [us[|us| - 1].id]
  }

  /** The `get_activities` calls that syncing `us` in order makes. */
  function RequestsFor(us: seq<User>, now: Instant): (r: seq<StravaRequest>)
    ensures |r| == |us|
    ensures forall i :: 0 <= i < |us| ==> r[i] == ActivitiesAfter(us[i].stravaAccessToken, FetchAfter(now))
    decreases |us|
  {
    if us == [] then []
    else RequestsFor(us[..|us| - 1], now) + [ActivitiesAfter(us[|us| - 1].stravaAccessToken, FetchAfter(now))]
  }

  /** The (committed, working) state after syncing `us` in order. */
  function SyncEach(committed: Tables, working: Tables, us: seq<User>, now: Instant,
                    api: (Option<string>, Instant) -> StravaFetch): (Tables, Tables)
    decreases |us|
  {
    if us == [] then (committed, working)
    else
      var prev := SyncEach(committed, working, us[..|us| - 1], now, api);
      SyncEffect(prev.0, prev.1, us[|us| - 1], now, api)
  }

  /** Syncing only adds activities: users and entries stay as they were, and
      every row already present stays in place. */
  lemma {:induction false} SyncEachOnlyAdds(committed: Tables, working: Tables, us: seq<User>, now: Instant,
                                            api: (Option<string>, Instant) -> StravaFetch)
    ensures SyncEach(committed, working, us, now, api).1.users == working.users
    ensures SyncEach(committed, working, us, now, api).1.entries == working.entries
    ensures working.activities <= SyncEach(committed, working, us, now, api).1.activities
    decreases |us|
  {
    if us != [] {
      SyncEachOnlyAdds(committed, working, us[..|us| - 1], now, api);
    }
  }

  /** The token the integration's client holds after syncing `us`. */
  function LastToken(us: seq<User>, before: Option<string>): Option<string> {
    if us == [] then before else us[|us| - 1].stravaAccessToken
  }

  /** How one more user changes the selection. */
  lemma DueStep(users: seq<User>, i: nat, now: Instant)
    requires i < |users|
    ensures Skipped(users[i], now) ==> Due(users[..i + 1], now) == Due(users[..i], now)
    ensures !Skipped(users[i], now) ==> Due(users[..i + 1], now) == Due(users[..i], now) + [users[i]]
  {
    assert users[..i + 1][..i] == users[..i];
  }

  /** Syncing one more user extends each record of the job by that user. */
  lemma SyncStep(us: seq<User>, u: User, committed: Tables, working: Tables, now: Instant,
                 api: (Option<string>, Instant) -> StravaFetch)
    ensures Ids(us + [u]) == Ids(us) + [u.id]
    ensures RequestsFor(us + [u], now) == RequestsFor(us, now) + [ActivitiesAfter(u.stravaAccessToken, FetchAfter(now))]
    ensures SyncEach(committed, working, us + [u], now, api)
         == SyncEffect(SyncEach(committed, working, us, now, api).0, SyncEach(committed, working, us, now, api).1, u, now, api)
  {
    assert (us + [u])[..|us|] == us;
  }

  /** One turn of the job's loop: a skipped user is passed over with no
      call and no change; any other user is synced once. */
  method Visit(db: Session, strava: StravaIntegration, user: User, now: Instant,
               api: (Option<string>, Instant) -> StravaFetch)
    returns (visited: bool)
    modifies db, strava
    ensures visited == !Skipped(user, now)
    ensures !visited ==> strava.requests == old(strava.requests) && strava.accessToken == old(strava.accessToken)
                         && db.committed == old(db.committed) && db.working == old(db.working)
    ensures visited ==> strava.requests == old(strava.requests) + [ActivitiesAfter(user.stravaAccessToken, FetchAfter(now))]
                        && strava.accessToken == user.stravaAccessToken
                        && (db.committed, db.working) == SyncEffect(old(db.committed), old(db.working), user, now, api)
  {
    if Skipped(user, now) {
      return false;
    }
    var _ := strava.SyncActivities(db, user, now, api);
    visited := true;
  }

  /** `sync_strava_activities`: the users with a Strava token are read once,
      then each one not skipped is synced in table order. Returns the ids of
      the users synced. */
  method SyncStravaActivities(db: Session, strava: StravaIntegration, now: Instant,
                              api: (Option<string>, Instant) -> StravaFetch)
    returns (synced: seq<UserId>)
    modifies db, strava
    ensures synced == Ids(Selected(old(db.working.users), now))
    ensures strava.requests == old(strava.requests) + RequestsFor(Selected(old(db.working.users), now), now)
    ensures strava.accessToken == LastToken(Selected(old(db.working.users), now), old(strava.accessToken))
    ensures (db.committed, db.working) == SyncEach(old(db.committed), old(db.working), Selected(old(db.working.users), now), now, api)
  {
    var users := StravaUsers(db.working.users);
    ghost var r0, t0 := strava.requests, strava.accessToken;
    synced := [];
    for i := 0 to |users|
      invariant synced == Ids(Due(users[..i], now))
      invariant strava.requests == r0 + RequestsFor(Due(users[..i], now), now)
      invariant strava.accessToken == LastToken(Due(users[..i], now), t0)
      invariant (db.committed, db.working) == SyncEach(old(db.committed), old(db.working), Due(users[..i], now), now, api)
    {
      var user := users[i];
      ghost var due := Due(users[..i], now);
      DueStep(users, i, now);
      SyncStep(due, user, old(db.committed), old(db.working), now, api);
      ghost var req := ActivitiesAfter(user.stravaAccessToken, FetchAfter(now));
      assert r0 + (RequestsFor(due, now) + [req]) == (r0 + RequestsFor(due, now)) + [req];
      var visited := Visit(db, strava, user, now, api);
      if visited {
        synced := synced + [user.id];
      }
    }
    assert users[..|users|] == users;
  }

  // ---------------------------------------------------------------- as written

  /** How the job as written ends: `strava_integration` is not bound in the
      module, so the first user who is not skipped ends the job with a
      `NameError` before anything is fetched for them. */
  datatype JobOutcome = Completed | NameErrorAt(user: UserId)

  /** The job as written: it gets through the users it skips and fails on
      the first one it would sync. */
  function JobAsWritten(users: seq<User>, now: Instant): (r: JobOutcome)
    ensures r == Completed <==> forall u :: u in users ==> u.stravaAccessToken.None? || Skipped(u, now)
    ensures r.NameErrorAt? ==>
      exists i ::
        && 0 <= i < |users| && r.user == users[i].id && Eligible(users[i], now)
        && forall j :: 0 <= j < i ==> !Eligible(users[j], now)
  {
    StravaUsersMembers(users);
    DueMembers(StravaUsers(users), now);
    var s := Selected(users, now);
    if s == [] then Completed
    else
      assert s[0] in s;
      FirstSelected(users, now);
      NameErrorAt(s[0].id)
  }

  /** Selecting from one more user: the selection grows by that user
      exactly when the user is eligible. */
  lemma SelectedSnoc(init: seq<User>, x: User, now: Instant)
    ensures Selected(init + [x], now) == Selected(init, now) + (if Eligible(x, now) then [x] else [])
  {
    assert (init + [x])[..|init|] == init;
    var s := StravaUsers(init);
    if x.stravaAccessToken.Some? {
      assert StravaUsers(init + [x]) == s + [x];
      assert (s + [x])[..|s|] == s;
    } else {
      assert StravaUsers(init + [x]) == s;
    }
  }

  /** The first user selected is the first eligible user in table order. */
  lemma {:induction false} FirstSelected(users: seq<User>, now: Instant)
    requires Selected(users, now) != []
    ensures exists i ::
      && 0 <= i < |users| && users[i] == Selected(users, now)[0] && Eligible(users[i], now)
      && forall j :: 0 <= j < i ==> !Eligible(users[j], now)
    decreases |users|
  {
    var init, x := users[..|users| - 1], users[|users| - 1];
    assert users == init + [x];
    SelectedSnoc(init, x, now);
    if Selected(init, now) != [] {
      FirstSelected(init, now);
      var i :|
        && 0 <= i < |init| && init[i] == Selected(init, now)[0] && Eligible(init[i], now)
        && forall j :: 0 <= j < i ==> !Eligible(init[j], now);
      assert users[i] == init[i];
    } else {
      StravaUsersMembers(init);
      DueMembers(StravaUsers(init), now);
      forall j | 0 <= j < |init|
        ensures !Eligible(users[j], now)
      {
        assert users[j] == init[j] && init[j] in init;
      }
      assert users[|init|] == Selected(users, now)[0];
    }
  }

  /** One user with a token and no expiry is enough: the job as written
      syncs nobody and fails, while `SyncStravaActivities` syncs that user. */
  lemma {:induction false} AsWrittenSyncsNobody()
    ensures var u := User(1, "ann@example.com", Store.Pbkdf2Sha256("s", "secret"), "Ann",
                          None, None, None, None, Some("token"), None);
      && JobAsWritten([u], 0) == NameErrorAt(1)
      && Ids(Selected([u], 0)) == [1]
  {
    var u := User(1, "ann@example.com", Store.Pbkdf2Sha256("s", "secret"), "Ann",
                  None, None, None, None, Some("token"), None);
    assert [u][..0] == [];
    assert StravaUsers([u]) == [u];
    assert Due([u], 0) == [u];
  }
}
