/**
 * The two MySQL tables the driver dashboard reads and writes, as maps from
 * the auto-increment primary key to the row, and each SQL statement the core
 * issues as a function from the old tables to the new ones.
 */
module Tables {
  import opened Wrappers

  /** A reading of the wall clock; `datetime.now()` is passed in as a value. */
  type Time = nat

  /** A row of `drivers` (without its id, which is the map key). */
  datatype Driver = Driver(
    name: string,
    age: int,
    gender: string,
    licenseNo: string,
    place: string,
    phone: string,
    username: string,
    password: string)

  /** The values the source writes into `journey_status`. */
  datatype Status = Active | Completed

  /** A row of `journeys`; `end` is NULL until the journey is ended. */
  datatype Journey = Journey(driverId: nat, start: Time, end: Option<Time>, count: int, status: Status)

  /** Both tables and their AUTO_INCREMENT counters. */
  datatype Db = Db(
    drivers: map<nat, Driver>,
    journeys: map<nat, Journey>,
    nextDriverId: nat,
    nextJourneyId: nat)

  /** The values of the `username` column. */
  function Usernames(drivers: map<nat, Driver>): set<string> {
    set id | id in drivers :: drivers[id].username
  }

  /** The `UNIQUE` constraint on `drivers.username`. */
  predicate UniqueUsernames(drivers: map<nat, Driver>) {
    forall i, j :: i in drivers && j in drivers && drivers[i].username == drivers[j].username ==> i == j
  }

  /** The `FOREIGN KEY (driver_id) REFERENCES drivers(id)` constraint. */
  predicate JourneysHaveDrivers(db: Db) {
    forall k :: k in db.journeys ==> db.journeys[k].driverId in db.drivers
  }

  /**
   * What the schema guarantees of every state of the database: the counters
   * are past every id in use, usernames are unique and every journey belongs
   * to an existing driver.
   */
  predicate Valid(db: Db) {
    && (forall id :: id in db.drivers ==> id < db.nextDriverId)
    && (forall id :: id in db.journeys ==> id < db.nextJourneyId)
    && UniqueUsernames(db.drivers)
    && JourneysHaveDrivers(db)
  }

  /** The ids of the journeys of one driver (`WHERE driver_id = %s`). */
  function JourneyIdsOf(journeys: map<nat, Journey>, driverId: nat): set<nat> {
    set k | k in journeys && journeys[k].driverId == driverId
  }

  /** `INSERT INTO drivers ...`: one new row under the next id. */
  function InsertDriver(db: Db, d: Driver): (r: Db)
    ensures r.journeys == db.journeys && r.nextJourneyId == db.nextJourneyId
    ensures db.nextDriverId in r.drivers && r.drivers[db.nextDriverId] == d
    ensures Valid(db) ==>
      && db.nextDriverId !in db.drivers
      && r.drivers.Keys == db.drivers.Keys + {db.nextDriverId}
      && |r.drivers| == |db.drivers| + 1
      && (forall id :: id in db.drivers ==> r.drivers[id] == db.drivers[id])
      && Usernames(r.drivers) == Usernames(db.drivers) + {d.username}
    ensures Valid(db) && d.username !in Usernames(db.drivers) ==> Valid(r)
  {
    FreshKey(db.drivers, db.nextDriverId, d);
    UsernamesAfterInsert(db.drivers, db.nextDriverId, d);
    db.(drivers := db.drivers[db.nextDriverId := d], nextDriverId := db.nextDriverId + 1)
  }

  /** Adding a row under a fresh id adds exactly its username to the column. */
  lemma UsernamesAfterInsert(drivers: map<nat, Driver>, id: nat, d: Driver)
    ensures id !in drivers ==> Usernames(drivers[id := d]) == Usernames(drivers) + {d.username}
    ensures id !in drivers && d.username !in Usernames(drivers) && UniqueUsernames(drivers) ==>
      UniqueUsernames(drivers[id := d])
  {
    if id in drivers {
      return;
    }
    var r := drivers[id := d];
    forall u | u in Usernames(drivers) + {d.username} ensures u in Usernames(r) {
      if u != d.username {
        var i :| i in drivers && drivers[i].username == u;
        assert r[i] == drivers[i];
      } else {
        assert r[id].username == u;
      }
    }
    if d.username !in Usernames(drivers) && UniqueUsernames(drivers) {
      forall i, j | i in r && j in r && r[i].username == r[j].username ensures i == j {
        if i != id && j != id {
          assert drivers[i].username == drivers[j].username;
        }
      }
    }
  }

  /** A row added under a fresh key: the key set grows by that key and the other rows stay. */
  lemma FreshKey<V>(m: map<nat, V>, id: nat, v: V)
    ensures id !in m ==>
      && m[id := v].Keys == m.Keys + {id}
      && |m[id := v]| == |m| + 1
      && (forall k :: k in m ==> m[id := v][k] == m[k])
  {
    if id !in m {
      assert m[id := v].Keys == m.Keys + {id};
    }
  }

  /** `INSERT INTO journeys ... VALUES (driver, now, 0, 'Active')`: one new row under the next id. */
  function InsertJourney(db: Db, driverId: nat, now: Time): (r: Db)
    ensures r.drivers == db.drivers && r.nextDriverId == db.nextDriverId
    ensures db.nextJourneyId in r.journeys
    ensures r.journeys[db.nextJourneyId] == Journey(driverId, now, None, 0, Active)
    ensures Valid(db) ==>
      && db.nextJourneyId !in db.journeys
      && r.journeys.Keys == db.journeys.Keys + {db.nextJourneyId}
      && |r.journeys| == |db.journeys| + 1
      && (forall k :: k in db.journeys ==> r.journeys[k] == db.journeys[k])
    ensures Valid(db) && driverId in db.drivers ==> Valid(r)
  {
    var row := Journey(driverId, now, None, 0, Active);
    var r := db.(journeys := db.journeys[db.nextJourneyId := row], nextJourneyId := db.nextJourneyId + 1);
    FreshKey(db.journeys, db.nextJourneyId, row);
    ForeignKeyAfterInsert(db, db.nextJourneyId, row);
    r
  }

  /** A journey row of an existing driver, stored under any id, keeps the foreign key. */
  lemma ForeignKeyAfterInsert(db: Db, id: nat, row: Journey)
    ensures JourneysHaveDrivers(db) && row.driverId in db.drivers ==>
      JourneysHaveDrivers(db.(journeys := db.journeys[id := row]))
  {
    if JourneysHaveDrivers(db) && row.driverId in db.drivers {
      var m := db.journeys[id := row];
      forall k | k in m ensures m[k].driverId in db.drivers {
        if k != id {
          assert m[k] == db.journeys[k];
        }
      }
    }
  }

  /** `UPDATE journeys SET drowsiness_count = n WHERE id = id`: no row matches a missing id. */
  function UpdateCount(db: Db, id: nat, n: int): (r: Db)
    ensures r.drivers == db.drivers && r.nextDriverId == db.nextDriverId && r.nextJourneyId == db.nextJourneyId
    ensures r.journeys.Keys == db.journeys.Keys
    ensures forall k :: k in db.journeys && k != id ==> r.journeys[k] == db.journeys[k]
    ensures id in db.journeys ==>
      var (old_, new_) := (db.journeys[id], r.journeys[id]);
      new_.count == n && new_.driverId == old_.driverId && new_.start == old_.start
      && new_.end == old_.end && new_.status == old_.status
    ensures Valid(db) ==> Valid(r)
  {
    if id in db.journeys then db.(journeys := db.journeys[id := db.journeys[id].(count := n)]) else db
  }

  /** `UPDATE journeys SET end_time = now, journey_status = 'Completed' WHERE id = id`. */
  function FinishJourney(db: Db, id: nat, now: Time): (r: Db)
    ensures r.drivers == db.drivers && r.nextDriverId == db.nextDriverId && r.nextJourneyId == db.nextJourneyId
    ensures r.journeys.Keys == db.journeys.Keys
    ensures forall k :: k in db.journeys && k != id ==> r.journeys[k] == db.journeys[k]
    ensures id in db.journeys ==>
      var (old_, new_) := (db.journeys[id], r.journeys[id]);
      new_.end == Some(now) && new_.status == Completed
      && new_.driverId == old_.driverId && new_.start == old_.start && new_.count == old_.count
    ensures Valid(db) ==> Valid(r)
  {
    if id in db.journeys then
      db.(journeys := db.journeys[id := db.journeys[id].(end := Some(now), status := Completed)])
    else
      db
  }

  /**
   * `DELETE FROM journeys WHERE driver_id = id` followed by
   * `DELETE FROM drivers WHERE id = id`, committed together.
   */
  function DeleteDriverAndJourneys(db: Db, id: nat): (r: Db)
    ensures r.nextDriverId == db.nextDriverId && r.nextJourneyId == db.nextJourneyId
    ensures id !in r.drivers
    ensures forall k :: k in db.drivers && k != id ==> k in r.drivers && r.drivers[k] == db.drivers[k]
    ensures r.drivers.Keys <= db.drivers.Keys
    ensures JourneyIdsOf(r.journeys, id) == {}
    ensures forall k :: k in db.journeys && db.journeys[k].driverId != id ==> k in r.journeys && r.journeys[k] == db.journeys[k]
    ensures r.journeys.Keys == db.journeys.Keys - JourneyIdsOf(db.journeys, id)
    ensures Valid(db) ==> Valid(r)
  {
    var journeys := map k | k in db.journeys && db.journeys[k].driverId != id :: db.journeys[k];
    var r := db.(journeys := journeys, drivers := db.drivers - {id});
    assert JourneyIdsOf(r.journeys, id) == {} by {
      forall k | k in JourneyIdsOf(r.journeys, id) ensures false { }
    }
    r
  }

  /**
   * The order of the two deletes matters: removing the driver row alone
   * would leave journeys whose driver does not exist, which the foreign key
   * forbids.
   */
  lemma {:induction false} DeletingDriverFirstBreaksForeignKey(db: Db, id: nat, k: nat)
    requires k in db.journeys && db.journeys[k].driverId == id
    ensures !JourneysHaveDrivers(db.(drivers := db.drivers - {id}))
  {
    var d := db.(drivers := db.drivers - {id});
    assert k in d.journeys && d.journeys[k].driverId !in d.drivers;
  }
}
