/** The MyFitnessPal integration: a walk over the last 31 days that finds or
    creates the user's entry for each day the diary returns and overwrites its
    calories and water intake, one commit at the end. The diary of the
    `myfitnesspal` client is a parameter: for each day, its reply or `None`
    when `client.get_date` raised. */
module MyFitnessPal {
  import opened Base
  import opened Store
  import Calendar

  /** The window reaches back this many days before today... */
  const SyncWindowDays: int := 30
  /** ...so it holds 31 days, today included. */
  const WindowLength: nat := SyncWindowDays + 1

  /** One diary day: `day.totals.get('calories')` and `day.water` (millilitres). */
  datatype MfpDay = MfpDay(calories: Option<real>, water: Option<real>)

  /** `round(water_ml * 0.033814, 1) if water_ml else 0`: missing or zero
      water gives 0, anything else the value in ounces (the rounding to one
      decimal is not modelled). */
  function WaterOunces(waterMl: Option<real>): (oz: real)
    ensures (waterMl.None? || waterMl.value == 0.0) ==> oz == 0.0
    ensures (waterMl.Some? && waterMl.value != 0.0) ==> oz == waterMl.value * 0.033814
  {
    if waterMl.None? || waterMl.value == 0.0 then 0.0 else waterMl.value * 0.033814
  }

  /** The entry created for a day that has none: sleep, mileage and screen
      time 0, calories and water not yet set. */
  function NewEntry(): (e: Entry)
    ensures e.sleepHours == Some(0.0) && e.runningMileage == Some(0.0) && e.screenTime == Some(0.0)
  {
    Entry(Some(0.0), None, None, Some(0.0), Some(0.0))
  }

  /** An entry with the day's calories and water written over it; the
      calories are the day's total (0 when missing), not added to the old value. */
  function Synced(e: Entry, day: MfpDay): (r: Entry)
    ensures r.calories == Some(if day.calories.Some? then day.calories.value else 0.0)
    ensures r.waterIntake == Some(WaterOunces(day.water))
    ensures r.sleepHours == e.sleepHours && r.runningMileage == e.runningMileage && r.screenTime == e.screenTime
  {
    e.(calories := Some(day.calories.GetOr(0.0)), waterIntake := Some(WaterOunces(day.water)))
  }

  /** One iteration: a day whose fetch raised leaves the table as it was. */
  function SyncDay(entries: map<EntryKey, Entry>, uid: UserId, d: Day, reply: Option<MfpDay>): (r: map<EntryKey, Entry>)
    ensures reply.None? ==> r == entries
    ensures reply.Some? ==> r.Keys == entries.Keys + {(uid, d)}
    ensures reply.Some? && (uid, d) in entries ==> r[(uid, d)] == Synced(entries[(uid, d)], reply.value)
    ensures reply.Some? && (uid, d) !in entries ==> r[(uid, d)] == Synced(NewEntry(), reply.value)
    ensures forall k :: k in entries && k != (uid, d) ==> r[k] == entries[k]
  {
    if reply.None? then entries
    else entries[(uid, d) := Synced(if (uid, d) in entries then entries[(uid, d)] else NewEntry(), reply.value)]
  }

  /** The `Entry` table after the days `first`, ..., `last`, in that order
      (none when `last < first`). */
  function SyncDays(entries: map<EntryKey, Entry>, uid: UserId, first: Day, last: Day,
                    diary: Day -> Option<MfpDay>): (r: map<EntryKey, Entry>)
    ensures entries.Keys <= r.Keys
    decreases if last < first then 0 else last - first + 1
  {
    if last < first then entries
    else SyncDay(SyncDays(entries, uid, first, last - 1, diary), uid, last, diary(last))
  }

  /** What the walk leaves at each key: a window day the diary answered holds
      exactly one entry, the old one (or a new one) with calories and water
      overwritten; every other key, including days that failed, is untouched. */
  lemma {:induction false} SyncDaysAt(entries: map<EntryKey, Entry>, uid: UserId, first: Day, last: Day,
                                      diary: Day -> Option<MfpDay>, k: EntryKey)
    ensures k.0 == uid && first <= k.1 <= last && diary(k.1).Some? ==>
      && k in SyncDays(entries, uid, first, last, diary)
      && SyncDays(entries, uid, first, last, diary)[k] == Synced(if k in entries then entries[k] else NewEntry(), diary(k.1).value)
    ensures !(k.0 == uid && first <= k.1 <= last && diary(k.1).Some?) ==>
      && (k in SyncDays(entries, uid, first, last, diary) <==> k in entries)
      && (k in entries ==> SyncDays(entries, uid, first, last, diary)[k] == entries[k])
    decreases if last < first then 0 else last - first + 1
  {
    if first <= last {
      SyncDaysAt(entries, uid, first, last - 1, diary, k);
    }
  }

  /** Re-syncing the same diary data changes nothing: values are overwritten,
      never accumulated. */
  lemma SyncDaysIdempotent(entries: map<EntryKey, Entry>, uid: UserId, first: Day, last: Day,
                           diary: Day -> Option<MfpDay>)
    ensures SyncDays(SyncDays(entries, uid, first, last, diary), uid, first, last, diary)
         == SyncDays(entries, uid, first, last, diary)
  {
    var once := SyncDays(entries, uid, first, last, diary);
    var twice := SyncDays(once, uid, first, last, diary);
    forall k | k in once || k in twice
      ensures k in once && k in twice && twice[k] == once[k]
    {
      SyncDaysAt(entries, uid, first, last, diary, k);
      SyncDaysAt(once, uid, first, last, diary, k);
    }
    assert twice.Keys == once.Keys;
  }

  /** The days `first`, `first + 1`, ..., `last`. */
  function DaysFrom(first: Day, last: Day): seq<Day>
    decreases if last < first then 0 else last - first + 1
  {
    if last < first then [] else DaysFrom(first, last - 1) + [last]
  }

  /** The walk's days are `first`, `first + 1`, ..., `last`: each day once, in
      ascending order. */
  lemma {:induction false} DaysFromAscending(first: Day, last: Day)
    requires first <= last + 1
    ensures |DaysFrom(first, last)| == last - first + 1
    ensures forall i :: 0 <= i < last - first + 1 ==> DaysFrom(first, last)[i] == first + i
    decreases last - first + 1
  {
    if first <= last {
      DaysFromAscending(first, last - 1);
    }
  }

  /** The sync window holds 31 days, ending today. */
  lemma WindowIsThirtyOneDays(today: Day)
    ensures |DaysFrom(today - SyncWindowDays, today)| == WindowLength
    ensures DaysFrom(today - SyncWindowDays, today)[0] == today - 30
    ensures DaysFrom(today - SyncWindowDays, today)[WindowLength - 1] == today
  {
    DaysFromAscending(today - SyncWindowDays, today);
  }

  /** The client of the `myfitnesspal` library, reduced to the account it logged into. */
  datatype MfpClient = MfpClient(username: string)

  class MyFitnessPalIntegration {
    /** `self.client`: set once a login has gone through. */
    var client: Option<MfpClient>
    /** Every day asked of `client.get_date`, oldest call first. */
    var requests: seq<Day>

    constructor ()
      ensures client == None && requests == []
    {
      client := None;
      requests := [];
    }

    /** `authenticate`: the web login answers with `loginStatus` (`None` when
        the request raised) and the library client may fail to come up; after
        that, today's diary is read as a probe. A failing probe still leaves
        the client set. */
    method Authenticate(username: string, loginStatus: Option<int>, clientCreated: bool, now: Instant,
                        diary: Day -> Option<MfpDay>)
      returns (ok: bool)
      modifies this
      ensures (loginStatus != Some(200) || !clientCreated) ==>
        !ok && client == old(client) && requests == old(requests)
      ensures (loginStatus == Some(200) && clientCreated) ==>
        && client == Some(MfpClient(username))
        && requests == old(requests) + [DayOf(now)]
        && ok == diary(DayOf(now)).Some?
    {
      if loginStatus != Some(200) || !clientCreated {
        return false;
      }
      client := Some(MfpClient(username));
      var today := DayOf(now);
      requests := requests + [today];
      ok := diary(today).Some?;
    }

    /** `sync_data`: without a client nothing is read or written. Otherwise
        every day from today - 30 to today is asked for once, in ascending
        order; each answered day is merged into the user's entry, a failing day
        is skipped, and everything is committed once at the end. Date
        arithmetic that leaves `datetime`'s range rolls everything back: a
        start before 0001-01-01 before any day is read, and the step past
        9999-12-31 after the last day. */
    method SyncData(db: Session, uid: UserId, now: Instant, diary: Day -> Option<MfpDay>) returns (ok: bool)
      modifies this, db
      ensures client == old(client)
      ensures old(client).None? ==>
        !ok && requests == old(requests) && db.working == old(db.working) && db.committed == old(db.committed)
      ensures old(client).Some? && DayOf(now) - SyncWindowDays < 1 ==>
        !ok && requests == old(requests) && db.working == old(db.committed) && db.committed == old(db.committed)
      ensures old(client).Some? && 1 <= DayOf(now) - SyncWindowDays ==>
        && requests == old(requests) + DaysFrom(DayOf(now) - SyncWindowDays, DayOf(now))
        && ok == (DayOf(now) < Calendar.MaxOrdinal)
        && (ok ==>
              && db.working == old(db.working).(entries := SyncDays(old(db.working.entries), uid, DayOf(now) - SyncWindowDays, DayOf(now), diary))
              && db.committed == db.working)
        && (!ok ==> db.working == old(db.committed) && db.committed == old(db.committed))
    {
      if client.None? {
        return false;
      }
      var endDate := DayOf(now);
      var startDate := endDate - SyncWindowDays;
      if startDate < 1 {
        db.Rollback();
        return false;
      }
      var current := startDate;
      ghost var w0, r0 := db.working, requests;
      while current <= endDate
        invariant startDate <= current <= endDate + 1
        invariant client == old(client)
        invariant requests == r0 + DaysFrom(startDate, current - 1)
        invariant db.working == w0.(entries := SyncDays(w0.entries, uid, startDate, current - 1, diary))
        invariant db.committed == old(db.committed)
        decreases endDate + 1 - current
      {
        assert r0 + (DaysFrom(startDate, current - 1) + [current]) == (r0 + DaysFrom(startDate, current - 1)) + [current];
        requests := requests + [current];
        var day := diary(current);
        if day.Some? {
          var key := (uid, current);
          var entry: Entry;
          if key in db.working.entries {
            entry := db.working.entries[key];
          } else {
            entry := NewEntry();
          }
          entry := entry.(calories := Some(day.value.calories.GetOr(0.0)));
          entry := entry.(waterIntake := Some(WaterOunces(day.value.water)));
          assert entry == Synced(if key in db.working.entries then db.working.entries[key] else NewEntry(), day.value);
          db.working := db.working.(entries := db.working.entries[key := entry]);
        }
        current := current + 1;
      }
      if endDate >= Calendar.MaxOrdinal {
        db.Rollback();
        return false;
      }
      db.Commit();
      ok := true;
    }
  }
}
