/** The database as the integrations use it: the `User` rows with their
    provider credentials, the `Activity` table and the `Entry` table keyed by
    (user, day), behind a session that holds uncommitted changes until
    `commit()` and throws them away on `rollback()`. The record shapes are
    those the integration code reads and writes. */
module Store {
  import opened Base

  /** A password as werkzeug's `generate_password_hash` stores it, kept
      symbolic: the random salt and the hashed secret. Only `Verifies` looks
      inside it, as `check_password_hash` does. */
  datatype PasswordHash = Pbkdf2Sha256(salt: string, secret: string)

  /** `check_password_hash(h, password)`. */
  predicate Verifies(h: PasswordHash, password: string) {
    h.secret == password
  }

  datatype User = User(
    id: UserId,
    email: string,
    password: PasswordHash,
    firstName: string,
    garminAccessToken: Option<string>,
    garminRefreshToken: Option<string>,
    garminTokenExpiresAt: Option<Instant>,
    garminLastSync: Option<Instant>,
    stravaAccessToken: Option<string>,
    stravaTokenExpiresAt: Option<Instant>)

  /** One row of the `Activity` table. Garmin rows carry `source` and
      `externalId`; Strava rows carry `stravaId`, `activityType` and `calories`. */
  datatype Activity = Activity(
    userId: UserId,
    source: Option<string>,
    externalId: Option<IdText>,
    stravaId: Option<IdText>,
    name: Option<string>,
    activityType: Option<string>,
    distance: real,
    duration: real,
    date: Instant,
    calories: Option<real>)

  /** The metric columns of one `Entry` row; `None` is a NULL column. */
  datatype Entry = Entry(
    sleepHours: Option<real>,
    calories: Option<real>,
    waterIntake: Option<real>,
    runningMileage: Option<real>,
    screenTime: Option<real>)

  /** The `Entry` table is keyed by (user id, day). */
  type EntryKey = (UserId, Day)

  datatype Tables = Tables(
    users: seq<User>,
    activities: seq<Activity>,
    entries: map<EntryKey, Entry>)

  /** The SQLAlchemy session. `working` is what queries see: the committed
      state plus every pending change (queries autoflush, so rows added earlier
      in the same transaction are found). `committed` is what a rollback
      returns to. */
  class Session {
    var committed: Tables
    var working: Tables

    constructor (t: Tables)
      ensures committed == t && working == t
    {
      committed := t;
      working := t;
    }

    /** `db.session.commit()`: every pending change becomes durable. */
    method Commit()
      modifies this
      ensures committed == old(working) && working == old(working)
    {
      committed := working;
    }

    /** `db.session.rollback()`: every pending change is discarded. */
    method Rollback()
      modifies this
      ensures working == old(committed) && committed == old(committed)
    {
      working := committed;
    }
  }
}
