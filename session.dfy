/**
 * The driver dashboard as a state machine: the attributes the GUI object
 * keeps between button presses (`current_driver`, `journey_active`,
 * `drowsiness_count`, `current_journey_id`, whether the End Journey button is
 * enabled) together with the database tables. Each operation of the source
 * is a function from the old state to the new state and the outcome shown
 * to the user. Database failures are the parameter `dbOk`: when it is false
 * the connection could not be opened or the statement raised a MySQL error,
 * and no table changes.
 */
module Session {
  import opened Wrappers
  import opened Tables
  import opened Registration

  /**
   * `current_driver`: never assigned (the `hasattr` checks fail), `None`
   * after a logout, or the row of the logged-in driver.
   */
  datatype Login = NeverLoggedIn | LoggedOut | LoggedIn(id: nat, driver: Driver)

  datatype State = State(
    login: Login,
    journeyActive: bool,
    drowsinessCount: int,
    currentJourneyId: Option<nat>,
    endEnabled: bool,
    db: Db)

  /** The application right after launch: nobody logged in, End Journey disabled. */
  function Launch(db: Db): (s: State)
    ensures s.db == db && s.login == NeverLoggedIn && !s.journeyActive && !s.endEnabled
    ensures s.drowsinessCount == 0 && s.currentJourneyId == None
  {
    State(NeverLoggedIn, false, 0, None, false, db)
  }

  /**
   * What every operation preserves: the database satisfies its schema, and
   * the End Journey button is only enabled once a journey id has been
   * recorded (which is what `end_journey` relies on instead of a check).
   */
  predicate Inv(s: State) {
    Valid(s.db) && (s.endEnabled ==> s.currentJourneyId.Some?)
  }

  /** The ids of the journeys stored with status Active. */
  function ActiveIds(db: Db): set<nat> {
    set k | k in db.journeys && db.journeys[k].status == Active
  }

  /**
   * Every Active journey is the one this session is running, and End
   * Journey is enabled for it.
   */
  predicate OnlyCurrentActive(s: State) {
    forall k :: k in ActiveIds(s.db) ==> s.endEnabled && s.currentJourneyId == Some(k)
  }

  // ---------------------------------------------------------------- register

  datatype RegOutcome = Rejected(error: RegError) | DatabaseError | Registered(driverId: nat)

  /**
   * The Register button: the field checks, then the database is opened and
   * the username looked up, then the row is inserted.
   */
  function Register(s: State, f: Form, dbOk: bool): (r: (State, RegOutcome))
    ensures r.0 == s.(db := r.0.db)
    ensures r.1.Registered? <==> dbOk && Validate(f, s.db.drivers).Ok?
    ensures r.1.Registered? ==>
      r.1.driverId == s.db.nextDriverId && r.0.db == InsertDriver(s.db, Validate(f, s.db.drivers).value)
    ensures r.1.Rejected? ==> Validate(f, s.db.drivers) == Err(r.1.error)
    ensures r.1 == RegOutcome.DatabaseError <==> !dbOk && CheckFields(f).Ok?
    ensures !r.1.Registered? ==> r.0.db == s.db
    ensures Inv(s) ==> Inv(r.0)
  {
    match CheckFields(f)
    case Err(e) => (s, Rejected(e))
    case Ok(d) =>
      if !dbOk then (s, RegOutcome.DatabaseError)
      else if d.username in Usernames(s.db.drivers) then (s, Rejected(UsernameTaken))
      else (s.(db := InsertDriver(s.db, d)), Registered(s.db.nextDriverId))
  }

  // ----------------------------------------------------------- start journey

  datatype StartOutcome =
    | NoDriverLoggedIn
    | ModelNotFound
    | DatabaseError
    | TypeErrorRaised
    | Started(journeyId: nat)

  /**
   * The Start Journey button. Once the model file is found the counter is
   * reset and the journey marked active BEFORE the row is inserted, so a
   * failed insert leaves `journey_active` set. A driver row deleted in the
   * meantime makes the insert violate the foreign key. Nothing checks for an
   * Active journey already in the table.
   */
  function StartJourney(s: State, modelFound: bool, dbOk: bool, now: Time): (r: (State, StartOutcome))
    ensures s.login.NeverLoggedIn? || !modelFound ==> r.0 == s
    ensures r.1 == NoDriverLoggedIn <==> s.login.NeverLoggedIn?
    ensures r.1 == ModelNotFound <==> !s.login.NeverLoggedIn? && !modelFound
    ensures r.1 == StartOutcome.DatabaseError <==>
      !s.login.NeverLoggedIn? && modelFound && (!dbOk || (s.login.LoggedIn? && s.login.id !in s.db.drivers))
    ensures r.1 == TypeErrorRaised <==> s.login.LoggedOut? && modelFound && dbOk
    ensures r.1.Started? <==> s.login.LoggedIn? && modelFound && dbOk && s.login.id in s.db.drivers
    ensures r.1.Started? ==>
      var id := r.1.journeyId;
      && id == s.db.nextJourneyId
      && (Valid(s.db) ==> id !in s.db.journeys)
      && r.0 == s.(drowsinessCount := 0, journeyActive := true, currentJourneyId := Some(id),
                   endEnabled := true, db := r.0.db)
      && r.0.db == InsertJourney(s.db, s.login.id, now)
      && r.0.db.journeys[id] == Journey(s.login.id, now, None, 0, Active)
    ensures !s.login.NeverLoggedIn? && modelFound && !r.1.Started? ==>
      r.0 == s.(drowsinessCount := 0, journeyActive := true)
    ensures Inv(s) ==> Inv(r.0)
  {
    if s.login.NeverLoggedIn? then (s, NoDriverLoggedIn)
    else if !modelFound then (s, ModelNotFound)
    else
      var s1 := s.(drowsinessCount := 0, journeyActive := true);
      if !dbOk then (s1, StartOutcome.DatabaseError)
      else if s.login.LoggedOut? then (s1, TypeErrorRaised)
      else if s.login.id !in s.db.drivers then (s1, StartOutcome.DatabaseError)
      else
        var id := s.db.nextJourneyId;
        (s1.(db := InsertJourney(s.db, s.login.id, now), currentJourneyId := Some(id), endEnabled := true),
         Started(id))
  }

  // ------------------------------------------------------ drowsiness events

  /**
   * One drowsiness event reported by the detector: the in-memory counter
   * goes up by one and is written to the current journey's row. A failed
   * `UPDATE` is printed and a failed connection shows the connection-error
   * dialog; neither stops the counting. Without a journey id the write
   * raises before it reaches the table.
   */
  function UpdateDrowsinessCount(s: State, dbOk: bool): (t: State)
    ensures t == s.(drowsinessCount := s.drowsinessCount + 1, db := t.db)
    ensures t.db.drivers == s.db.drivers && t.db.journeys.Keys == s.db.journeys.Keys
    ensures t.db.nextJourneyId == s.db.nextJourneyId && t.db.nextDriverId == s.db.nextDriverId
    ensures forall k :: k in s.db.journeys && s.currentJourneyId != Some(k) ==> t.db.journeys[k] == s.db.journeys[k]
    ensures forall k :: k in s.db.journeys ==> t.db.journeys[k].status == s.db.journeys[k].status
    ensures dbOk && s.currentJourneyId.Some? && s.currentJourneyId.value in s.db.journeys ==>
      t.db.journeys[s.currentJourneyId.value] == s.db.journeys[s.currentJourneyId.value].(count := t.drowsinessCount)
    ensures !dbOk || s.currentJourneyId.None? ==> t.db == s.db
    ensures Inv(s) ==> Inv(t)
  {
    var count := s.drowsinessCount + 1;
    if dbOk && s.currentJourneyId.Some? then
      s.(drowsinessCount := count, db := UpdateCount(s.db, s.currentJourneyId.value, count))
    else
      s.(drowsinessCount := count)
  }

  /** A run of drowsiness events, one per element, each write succeeding or not. */
  function Events(s: State, writes: seq<bool>): State {
    if writes == [] then s
    else UpdateDrowsinessCount(Events(s, writes[..|writes| - 1]), writes[|writes| - 1])
  }

  /**
   * Over a run of events the in-memory counter counts them, only the
   * current journey's row changes, and whenever the last write succeeded
   * the stored count equals the in-memory one.
   */
  lemma {:induction false} EventsAreCounted(s: State, writes: seq<bool>)
    requires s.currentJourneyId.Some? && s.currentJourneyId.value in s.db.journeys
    requires s.db.journeys[s.currentJourneyId.value].count == s.drowsinessCount
    ensures
      var (t, id) := (Events(s, writes), s.currentJourneyId.value);
      && t.drowsinessCount == s.drowsinessCount + |writes|
      && t.currentJourneyId == s.currentJourneyId
      && t.db.journeys.Keys == s.db.journeys.Keys
      && (forall k :: k in s.db.journeys && k != id ==> t.db.journeys[k] == s.db.journeys[k])
      && t.db.journeys[id] == s.db.journeys[id].(count := t.db.journeys[id].count)
      && (writes == [] || writes[|writes| - 1] ==> t.db.journeys[id].count == t.drowsinessCount)
  {
    if writes != [] {
      EventsAreCounted(s, writes[..|writes| - 1]);
    }
  }

  /**
   * After a journey starts and n drowsiness events are all written, its
   * row holds n and so does the counter.
   */
  lemma FreshJourneyCountsEvents(s: State, now: Time, n: nat)
    requires s.login.LoggedIn? && s.login.id in s.db.drivers && Valid(s.db)
    ensures
      var (t, outcome) := StartJourney(s, true, true, now);
      var u := Events(t, seq(n, _ => true));
      && outcome.Started?
      && u.drowsinessCount == n
      && outcome.journeyId in u.db.journeys
      && u.db.journeys[outcome.journeyId] == Journey(s.login.id, now, None, n, Active)
  {
    var (t, outcome) := StartJourney(s, true, true, now);
    EventsAreCounted(t, seq(n, _ => true));
  }

  // ------------------------------------------------------------- end journey

  datatype EndOutcome = Declined | DatabaseError | AttributeErrorRaised | Ended

  /**
   * The End Journey button, after the confirmation dialog: the journey is
   * marked inactive (and the detector joined) before the row is updated.
   * Nothing checks that a journey is active; the button is disabled when
   * there is none.
   */
  function EndJourney(s: State, confirmed: bool, dbOk: bool, now: Time): (r: (State, EndOutcome))
    ensures !confirmed ==> r == (s, EndOutcome.Declined)
    ensures confirmed ==> !r.0.journeyActive
    ensures r.1 == EndOutcome.DatabaseError <==> confirmed && !dbOk
    ensures r.1 == AttributeErrorRaised <==> confirmed && dbOk && s.currentJourneyId.None?
    ensures r.0 == s.(journeyActive := r.0.journeyActive, endEnabled := r.0.endEnabled, db := r.0.db)
    ensures r.1 == Ended <==> confirmed && dbOk && s.currentJourneyId.Some?
    ensures r.1 == Ended ==>
      var id := s.currentJourneyId.value;
      && !r.0.endEnabled
      && r.0.db == FinishJourney(s.db, id, now)
      && (id in s.db.journeys ==>
            r.0.db.journeys[id] == s.db.journeys[id].(end := Some(now), status := Completed))
    ensures r.1 != Ended ==> r.0.db == s.db && r.0.endEnabled == s.endEnabled
    ensures Inv(s) ==> Inv(r.0)
  {
    if !confirmed then (s, EndOutcome.Declined)
    else
      var s1 := s.(journeyActive := false);
      if !dbOk then (s1, EndOutcome.DatabaseError)
      else if s.currentJourneyId.None? then (s1, AttributeErrorRaised)
      else (s1.(db := FinishJourney(s.db, s.currentJourneyId.value, now), endEnabled := false), Ended)
  }

  /**
   * What the invariant's second half is for: pressing End Journey while it
   * is enabled, confirmed and with a working connection, always ends the
   * journey and never reaches the `AttributeError` path.
   */
  lemma EndButtonEnds(s: State, now: Time)
    requires Inv(s) && s.endEnabled
    ensures EndJourney(s, true, true, now).1 == Ended
  {
  }

  /**
   * Ending a journey right after starting it leaves a Completed row with
   * no drowsiness events and the end time recorded.
   */
  lemma StartThenEnd(s: State, start: Time, end: Time)
    requires s.login.LoggedIn? && s.login.id in s.db.drivers && Valid(s.db)
    ensures
      var (t, started) := StartJourney(s, true, true, start);
      var (u, ended) := EndJourney(t, true, true, end);
      && started.Started? && ended == Ended
      && u.db.journeys[started.journeyId] == Journey(s.login.id, start, Some(end), 0, Completed)
      && !u.journeyActive && !u.endEnabled
  {
  }

  // ------------------------------------------------------------------ logout

  datatype LogoutOutcome = JourneyStillActive | Declined | LoggedOutOk

  /** The Logout button: refused while a journey is active, then confirmed. */
  function Logout(s: State, confirmed: bool): (r: (State, LogoutOutcome))
    ensures s.journeyActive ==> r == (s, JourneyStillActive)
    ensures r.1 == LoggedOutOk <==> !s.journeyActive && confirmed
    ensures r.1 == LoggedOutOk ==> r.0 == s.(login := LoggedOut)
    ensures r.1 != LoggedOutOk ==> r.0 == s
  {
    if s.journeyActive then (s, JourneyStillActive)
    else if confirmed then (s.(login := LoggedOut), LoggedOutOk)
    else (s, LogoutOutcome.Declined)
  }

  // ----------------------------------------------------------- delete driver

  datatype DeleteOutcome = NothingSelected | Declined | DatabaseError | Deleted

  /**
   * The admin's Delete Selected Driver button: the driver's journeys are
   * deleted, then the driver, in one transaction.
   */
  function DeleteDriver(s: State, selected: Option<nat>, confirmed: bool, dbOk: bool): (r: (State, DeleteOutcome))
    ensures r.0 == s.(db := r.0.db)
    ensures r.1 == Deleted <==> selected.Some? && confirmed && dbOk
    ensures r.1 == Deleted ==>
      var id := selected.value;
      && r.0.db == DeleteDriverAndJourneys(s.db, id)
      && id !in r.0.db.drivers
      && JourneyIdsOf(r.0.db.journeys, id) == {}
    ensures r.1 != Deleted ==> r.0 == s
    ensures Inv(s) ==> Inv(r.0)
  {
    if selected.None? then (s, NothingSelected)
    else if !confirmed then (s, DeleteOutcome.Declined)
    else if !dbOk then (s, DeleteOutcome.DatabaseError)
    else (s.(db := DeleteDriverAndJourneys(s.db, selected.value)), Deleted)
  }

  // ---------------------------------------------------- at most one Active

  /** Under `OnlyCurrentActive` at most one journey is Active. */
  lemma {:induction false} AtMostOneActive(s: State)
    requires OnlyCurrentActive(s)
    ensures |ActiveIds(s.db)| <= 1
  {
    if s.currentJourneyId.Some? {
      assert ActiveIds(s.db) <= {s.currentJourneyId.value};
      SubsetCard(ActiveIds(s.db), {s.currentJourneyId.value});
    } else {
      assert ActiveIds(s.db) == {};
    }
  }

  lemma SubsetCard(a: set<nat>, b: set<nat>)
    requires a <= b
    ensures |a| <= |b|
  {
    assert b == a + (b - a);
  }

  /** With no Active journey in the table at launch, the property holds. */
  lemma LaunchOnlyCurrentActive(db: Db)
    requires ActiveIds(db) == {}
    ensures OnlyCurrentActive(Launch(db))
  {
  }

  /** Registering a driver adds no journey. */
  lemma RegisterKeepsOnlyCurrentActive(s: State, f: Form, dbOk: bool)
    requires OnlyCurrentActive(s)
    ensures OnlyCurrentActive(Register(s, f, dbOk).0)
  {
  }

  /** Logging out touches neither the tables nor the journey attributes. */
  lemma LogoutKeepsOnlyCurrentActive(s: State, confirmed: bool)
    requires OnlyCurrentActive(s)
    ensures OnlyCurrentActive(Logout(s, confirmed).0)
  {
  }

  /**
   * Starting a journey while Start Journey is enabled (End Journey
   * disabled) keeps every Active journey the current one.
   */
  lemma {:induction false} StartKeepsOnlyCurrentActive(s: State, modelFound: bool, dbOk: bool, now: Time)
    requires Inv(s) && OnlyCurrentActive(s) && !s.endEnabled
    ensures OnlyCurrentActive(StartJourney(s, modelFound, dbOk, now).0)
  {
    var (t, outcome) := StartJourney(s, modelFound, dbOk, now);
    if outcome.Started? {
      forall k | k in ActiveIds(t.db) ensures t.endEnabled && t.currentJourneyId == Some(k) {
      }
    }
  }

  /** Drowsiness events change no status. */
  lemma {:induction false} UpdateKeepsOnlyCurrentActive(s: State, dbOk: bool)
    requires OnlyCurrentActive(s)
    ensures OnlyCurrentActive(UpdateDrowsinessCount(s, dbOk))
  {
    var t := UpdateDrowsinessCount(s, dbOk);
    forall k | k in ActiveIds(t.db) ensures t.endEnabled && t.currentJourneyId == Some(k) {
      assert k in ActiveIds(s.db);
    }
  }

  /** Ending the journey leaves no Active journey, or changes nothing. */
  lemma {:induction false} EndKeepsOnlyCurrentActive(s: State, confirmed: bool, dbOk: bool, now: Time)
    requires OnlyCurrentActive(s)
    ensures OnlyCurrentActive(EndJourney(s, confirmed, dbOk, now).0)
    ensures EndJourney(s, confirmed, dbOk, now).1 == Ended ==> ActiveIds(EndJourney(s, confirmed, dbOk, now).0.db) == {}
  {
    var (t, outcome) := EndJourney(s, confirmed, dbOk, now);
    if outcome == Ended {
      var id := s.currentJourneyId.value;
      forall k | k in t.db.journeys ensures t.db.journeys[k].status != Active {
        if k != id {
          assert t.db.journeys[k] == s.db.journeys[k];
          assert k !in ActiveIds(s.db);
        }
      }
    }
  }

  /** Deleting a driver only removes journeys. */
  lemma {:induction false} DeleteKeepsOnlyCurrentActive(s: State, selected: Option<nat>, confirmed: bool, dbOk: bool)
    requires OnlyCurrentActive(s)
    ensures OnlyCurrentActive(DeleteDriver(s, selected, confirmed, dbOk).0)
  {
    var t := DeleteDriver(s, selected, confirmed, dbOk).0;
    forall k | k in ActiveIds(t.db) ensures t.endEnabled && t.currentJourneyId == Some(k) {
      assert k in ActiveIds(s.db);
    }
  }

  /**
   * Nothing in `start_journey` itself looks for an Active journey: pressed
   * while one is running, it inserts a second Active row for the same
   * driver. Only the disabled Start Journey button prevents this.
   */
  lemma {:induction false} StartWhileActiveDuplicates(s: State, now: Time)
    requires Inv(s) && s.login.LoggedIn? && s.login.id in s.db.drivers
    requires s.currentJourneyId.Some? && s.currentJourneyId.value in ActiveIds(s.db)
    requires s.db.journeys[s.currentJourneyId.value].driverId == s.login.id
    ensures
      var t := StartJourney(s, true, true, now).0;
      exists j, k :: j != k && j in ActiveIds(t.db) && k in ActiveIds(t.db)
        && t.db.journeys[j].driverId == t.db.journeys[k].driverId
  {
    var (t, outcome) := StartJourney(s, true, true, now);
    var old_ := s.currentJourneyId.value;
    var new_ := outcome.journeyId;
    assert old_ in ActiveIds(t.db);
    assert new_ in ActiveIds(t.db);
  }
}
