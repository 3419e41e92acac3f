/** The Strava integration: the client is handed the user's stored access
    token, asked for the activities of the last 14 days, and every activity
    whose Strava id is not yet in the `Activity` table (for any user) is
    inserted for this user; one commit at the end. The stravalib client's
    `get_activities` is a parameter: the activities it yields, and whether
    iteration then stops with `AccessUnauthorized`. */
module Strava {
  import opened Base
  import opened Store

  /** Only activities after now minus this many days are requested. */
  const LookbackDays: int := 14

  /** The attributes of a stravalib activity that the sync reads, already in
      base units (`distance.meters`, `moving_time.total_seconds()`);
      `calories` is `None` when the object has no such attribute, and
      `Some(None)` when the attribute is there but empty. */
  datatype StravaActivity = StravaActivity(
    id: int,
    activityType: string,
    distanceMeters: real,
    movingTimeSeconds: real,
    startDate: Instant,
    calories: Option<Option<real>>)

  /** What iterating over `client.get_activities(after=...)` gives: the
      activities yielded, then `AccessUnauthorized` or a normal end. */
  datatype StravaFetch = StravaFetch(items: seq<StravaActivity>, unauthorized: bool)

  datatype StravaRequest = ActivitiesAfter(token: Option<string>, after: Instant)

  /** The row inserted for a Strava activity, whatever its type. */
  function StravaRow(uid: UserId, a: StravaActivity): (r: Activity)
    ensures r.userId == uid && r.stravaId == Some(IntText(a.id))
    ensures r.activityType == Some(a.activityType)
    ensures a.calories.Some? ==> r.calories == a.calories.value
    ensures a.calories.None? ==> r.calories == Some(0.0)
    ensures r.distance == a.distanceMeters && r.duration == a.movingTimeSeconds && r.date == a.startDate
  {
    Activity(uid, None, None, Some(IntText(a.id)), None, Some(a.activityType),
             a.distanceMeters, a.movingTimeSeconds, a.startDate, a.calories.GetOr(Some(0.0)))
  }

  /** `Activity.query.filter_by(strava_id=id).first()` finds a row: the
      lookup ignores the user. */
  predicate HasStravaRow(rows: seq<Activity>, id: IdText) {
    exists i :: 0 <= i < |rows| && rows[i].stravaId == Some(id)
  }

  function StepStrava(rows: seq<Activity>, uid: UserId, a: StravaActivity): seq<Activity> {
    if HasStravaRow(rows, IntText(a.id)) then rows else rows + [StravaRow(uid, a)]
  }

  /** The `Activity` table after the loop has seen `acts`, in order. */
  function InsertStrava(rows: seq<Activity>, uid: UserId, acts: seq<StravaActivity>): (r: seq<Activity>)
    ensures rows <= r
    decreases |acts|
  {
    if acts == [] then rows
    else StepStrava(InsertStrava(rows, uid, acts[..|acts| - 1]), uid, acts[|acts| - 1])
  }

  lemma HasStravaRowGrows(rows: seq<Activity>, more: seq<Activity>, id: IdText)
    requires rows <= more && HasStravaRow(rows, id)
    ensures HasStravaRow(more, id)
  {
    var i :| 0 <= i < |rows| && rows[i].stravaId == Some(id);
    assert more[i] == rows[i];
  }

  /** `row` is the row stored for one of the fetched activities. */
  predicate RowOfFetched(row: Activity, uid: UserId, acts: seq<StravaActivity>) {
    exists j :: 0 <= j < |acts| && row == StravaRow(uid, acts[j])
  }

  /** Every row the sync adds is the row, for this user, of a fetched activity. */
  lemma {:induction false} InsertStravaAddsOnlyFetched(rows: seq<Activity>, uid: UserId, acts: seq<StravaActivity>)
    ensures forall k :: |rows| <= k < |InsertStrava(rows, uid, acts)| ==>
      RowOfFetched(InsertStrava(rows, uid, acts)[k], uid, acts)
    decreases |acts|
  {
    if acts != [] {
      var init := acts[..|acts| - 1];
      InsertStravaAddsOnlyFetched(rows, uid, init);
      var prev := InsertStrava(rows, uid, init);
      var r := InsertStrava(rows, uid, acts);
      forall k | |rows| <= k < |r|
        ensures RowOfFetched(r[k], uid, acts)
      {
        if k < |prev| {
          assert RowOfFetched(prev[k], uid, init);
          var j :| 0 <= j < |init| && prev[k] == StravaRow(uid, init[j]);
          assert acts[j] == init[j];
        } else {
          assert r[k] == StravaRow(uid, acts[|acts| - 1]);
        }
      }
    }
  }

  /** After the sync every fetched activity's id is in the table. */
  lemma {:induction false} InsertStravaStoresEveryId(rows: seq<Activity>, uid: UserId, acts: seq<StravaActivity>)
    ensures forall j :: 0 <= j < |acts| ==> HasStravaRow(InsertStrava(rows, uid, acts), IntText(acts[j].id))
    decreases |acts|
  {
    if acts != [] {
      var init := acts[..|acts| - 1];
      var last := acts[|acts| - 1];
      InsertStravaStoresEveryId(rows, uid, init);
      var prev := InsertStrava(rows, uid, init);
      var r := InsertStrava(rows, uid, acts);
      forall j | 0 <= j < |acts|
        ensures HasStravaRow(r, IntText(acts[j].id))
      {
        if j < |init| {
          assert acts[j] == init[j];
          HasStravaRowGrows(prev, r, IntText(acts[j].id));
        } else if !HasStravaRow(prev, IntText(last.id)) {
          assert r[|prev|] == StravaRow(uid, last);
        }
      }
    }
  }

  /** An id already stored, by any user, gets no new row. */
  lemma {:induction false} InsertStravaSkipsStored(rows: seq<Activity>, uid: UserId, acts: seq<StravaActivity>, id: IdText)
    requires HasStravaRow(rows, id)
    ensures forall k :: |rows| <= k < |InsertStrava(rows, uid, acts)| ==> InsertStrava(rows, uid, acts)[k].stravaId != Some(id)
    decreases |acts|
  {
    if acts != [] {
      var init := acts[..|acts| - 1];
      var last := acts[|acts| - 1];
      InsertStravaSkipsStored(rows, uid, init, id);
      var prev := InsertStrava(rows, uid, init);
      HasStravaRowGrows(rows, prev, id);
      var r := InsertStrava(rows, uid, acts);
      forall k | |rows| <= k < |r|
        ensures r[k].stravaId != Some(id)
      {
        if k == |prev| {
          assert IntText(last.id) != id;
        }
      }
    }
  }

  /** No two rows share a Strava id. */
  predicate StravaIdsUnique(rows: seq<Activity>) {
    forall i, j :: 0 <= i < j < |rows| && rows[i].stravaId.Some? ==> rows[i].stravaId != rows[j].stravaId
  }

  /** The de-duplication invariant: the table never holds two rows with the
      same Strava id, even when the fetched activities repeat one. */
  lemma {:induction false} InsertStravaKeepsIdsUnique(rows: seq<Activity>, uid: UserId, acts: seq<StravaActivity>)
    requires StravaIdsUnique(rows)
    ensures StravaIdsUnique(InsertStrava(rows, uid, acts))
    decreases |acts|
  {
    if acts != [] {
      var init := acts[..|acts| - 1];
      InsertStravaKeepsIdsUnique(rows, uid, init);
    }
  }

  /** Once every fetched id is stored, syncing the same activities changes nothing. */
  lemma {:induction false} InsertStravaAllStored(rows: seq<Activity>, uid: UserId, acts: seq<StravaActivity>)
    requires forall j :: 0 <= j < |acts| ==> HasStravaRow(rows, IntText(acts[j].id))
    ensures InsertStrava(rows, uid, acts) == rows
    decreases |acts|
  {
    if acts != [] {
      var init := acts[..|acts| - 1];
      forall j | 0 <= j < |init|
        ensures HasStravaRow(rows, IntText(init[j].id))
      {
        assert init[j] == acts[j];
      }
      InsertStravaAllStored(rows, uid, init);
    }
  }

  /** Re-syncing the same activities adds no rows. */
  lemma InsertStravaIdempotent(rows: seq<Activity>, uid: UserId, acts: seq<StravaActivity>)
    ensures InsertStrava(InsertStrava(rows, uid, acts), uid, acts) == InsertStrava(rows, uid, acts)
  {
    InsertStravaStoresEveryId(rows, uid, acts);
    InsertStravaAllStored(InsertStrava(rows, uid, acts), uid, acts);
  }

  /** De-duplication is global: an activity whose id is stored for another
      user, whatever that row's other fields, is not inserted for this one. */
  lemma StravaDedupIsGlobal(rows: seq<Activity>, uid: UserId, other: UserId, a: StravaActivity)
    requires exists i :: 0 <= i < |rows| && rows[i].stravaId == Some(IntText(a.id)) && rows[i].userId == other
    ensures StepStrava(rows, uid, a) == rows
  {
  }

  /** `two_weeks_ago = datetime.now() - timedelta(days=14)`. */
  function FetchAfter(now: Instant): (t: Instant)
    ensures t == now - 14 * 86400
  {
    AddDays(now, -LookbackDays)
  }

  /** The (committed, working) state after one sync of user `u`: the rows are
      pending after an `AccessUnauthorized` and committed otherwise. */
  function SyncEffect(committed: Tables, working: Tables, u: User, now: Instant,
                      api: (Option<string>, Instant) -> StravaFetch): (r: (Tables, Tables))
    ensures r.1.users == working.users && r.1.entries == working.entries
    ensures working.activities <= r.1.activities
    ensures api(u.stravaAccessToken, FetchAfter(now)).unauthorized ==> r.0 == committed
    ensures !api(u.stravaAccessToken, FetchAfter(now)).unauthorized ==> r.0 == r.1
  {
    var fetch := api(u.stravaAccessToken, FetchAfter(now));
    var w := working.(activities := InsertStrava(working.activities, u.id, fetch.items));
    if fetch.unauthorized then (committed, w) else (w, w)
  }

  class StravaIntegration {
    const clientId: string
    const clientSecret: string
    /** `self.client.access_token`. */
    var accessToken: Option<string>
    /** Every `get_activities` call so far, oldest first. */
    var requests: seq<StravaRequest>

    constructor (id: string, secret: string)
      ensures clientId == id && clientSecret == secret
      ensures accessToken == None && requests == []
    {
      clientId := id;
      clientSecret := secret;
      accessToken := None;
      requests := [];
    }

    /** `sync_activities`: the client takes the user's stored token, then
        every activity yielded is inserted unless its Strava id is already
        stored. `AccessUnauthorized` gives False and leaves the rows inserted
        so far pending, uncommitted; otherwise one commit and True. */
    method SyncActivities(db: Session, u: User, now: Instant,
                          api: (Option<string>, Instant) -> StravaFetch)
      returns (ok: bool)
      modifies this, db
      ensures accessToken == u.stravaAccessToken
      ensures requests == old(requests) + [ActivitiesAfter(u.stravaAccessToken, FetchAfter(now))]
      ensures var fetch := api(u.stravaAccessToken, FetchAfter(now));
        && ok == !fetch.unauthorized
        && db.working == old(db.working).(activities := InsertStrava(old(db.working.activities), u.id, fetch.items))
        && db.committed == (if ok then db.working else old(db.committed))
      ensures (db.committed, db.working) == SyncEffect(old(db.committed), old(db.working), u, now, api)
    {
      accessToken := u.stravaAccessToken;
      var after := FetchAfter(now);
      requests := requests + [ActivitiesAfter(accessToken, after)];
      var fetch := api(accessToken, after);
      var acts := fetch.items;
      ghost var before := db.working;
      for i := 0 to |acts|
        modifies db
        invariant db.working == before.(activities := InsertStrava(before.activities, u.id, acts[..i]))
        invariant db.committed == old(db.committed)
      {
        assert acts[..i + 1][..i] == acts[..i];
        var a := acts[i];
        if !HasStravaRow(db.working.activities, IntText(a.id)) {
          db.working := db.working.(activities := db.working.activities + [StravaRow(u.id, a)]);
        }
      }
      assert acts[..|acts|] == acts;
      if fetch.unauthorized {
        return false;
      }
      db.Commit();
      ok := true;
    }
  }
}
