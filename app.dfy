/**
 * The dashboard object itself: the attributes it keeps between button
 * presses, updated in place by one method per button and by the detector's
 * callback `UpdateDrowsinessCount`, in the order of the source's statements.
 * Each method that changes state is proved to make exactly the transition
 * the `Session` function of the same name describes. `GenerateReport`
 * changes nothing and states its outcome directly.
 */
module App {
  import opened Wrappers
  import opened Tables
  import opened Registration
  import Session
  import Report

  class DriverApp {
    var login: Session.Login
    var journeyActive: bool
    var drowsinessCount: int
    var currentJourneyId: Option<nat>
    var endEnabled: bool
    var db: Db

    /** The state the `Session` functions speak about. */
    ghost function Snapshot(): Session.State
      reads this
    {
      Session.State(login, journeyActive, drowsinessCount, currentJourneyId, endEnabled, db)
    }

    ghost predicate Valid()
      reads this
    {
      Session.Inv(Snapshot())
    }

    /** The application at launch, over an existing database. */
    constructor (tables: Db)
      requires Tables.Valid(tables)
      ensures Valid() && Snapshot() == Session.Launch(tables)
    {
      login := Session.NeverLoggedIn;
      journeyActive := false;
      drowsinessCount := 0;
      currentJourneyId := None;
      endEnabled := false;
      db := tables;
    }

    /** `register`. */
    method Register(f: Form, dbOk: bool) returns (outcome: Session.RegOutcome)
      requires Valid()
      modifies this
      ensures Valid()
      ensures (Snapshot(), outcome) == Session.Register(old(Snapshot()), f, dbOk)
    {
      var checked := CheckFields(f);
      if checked.Err? {
        return Session.Rejected(checked.error);
      }
      if !dbOk {
        return Session.RegOutcome.DatabaseError;
      }
      if f.username in Usernames(db.drivers) {
        return Session.Rejected(UsernameTaken);
      }
      var id := db.nextDriverId;
      db := InsertDriver(db, checked.value);
      outcome := Session.Registered(id);
    }

    /** `start_journey`. */
    method StartJourney(modelFound: bool, dbOk: bool, now: Time) returns (outcome: Session.StartOutcome)
      requires Valid()
      modifies this
      ensures Valid()
      ensures (Snapshot(), outcome) == Session.StartJourney(old(Snapshot()), modelFound, dbOk, now)
    {
      if login.NeverLoggedIn? {
        return Session.NoDriverLoggedIn;
      }
      if !modelFound {
        return Session.ModelNotFound;
      }
      drowsinessCount := 0;
      journeyActive := true;
      if !dbOk {
        return Session.StartOutcome.DatabaseError;
      }
      if login.LoggedOut? {
        return Session.TypeErrorRaised;
      }
      if login.id !in db.drivers {
        return Session.StartOutcome.DatabaseError;
      }
      var id := db.nextJourneyId;
      db := InsertJourney(db, login.id, now);
      currentJourneyId := Some(id);
      endEnabled := true;
      outcome := Session.Started(id);
    }

    /** `update_drowsiness_count`, the detector's callback. */
    method UpdateDrowsinessCount(dbOk: bool)
      requires Valid()
      modifies this
      ensures Valid()
      ensures Snapshot() == Session.UpdateDrowsinessCount(old(Snapshot()), dbOk)
    {
      drowsinessCount := drowsinessCount + 1;
      if dbOk && currentJourneyId.Some? {
        db := UpdateCount(db, currentJourneyId.value, drowsinessCount);
      }
    }

    /** `end_journey`. */
    method EndJourney(confirmed: bool, dbOk: bool, now: Time) returns (outcome: Session.EndOutcome)
      requires Valid()
      modifies this
      ensures Valid()
      ensures (Snapshot(), outcome) == Session.EndJourney(old(Snapshot()), confirmed, dbOk, now)
    {
      if !confirmed {
        return Session.EndOutcome.Declined;
      }
      journeyActive := false;
      if !dbOk {
        return Session.EndOutcome.DatabaseError;
      }
      if currentJourneyId.None? {
        return Session.AttributeErrorRaised;
      }
      db := FinishJourney(db, currentJourneyId.value, now);
      endEnabled := false;
      outcome := Session.Ended;
    }

    /** `logout`. */
    method Logout(confirmed: bool) returns (outcome: Session.LogoutOutcome)
      requires Valid()
      modifies this
      ensures Valid()
      ensures (Snapshot(), outcome) == Session.Logout(old(Snapshot()), confirmed)
    {
      if journeyActive {
        return Session.JourneyStillActive;
      }
      if !confirmed {
        return Session.LogoutOutcome.Declined;
      }
      login := Session.LoggedOut;
      outcome := Session.LoggedOutOk;
    }

    /** `delete_driver`, on the admin dashboard. */
    method DeleteDriver(selected: Option<nat>, confirmed: bool, dbOk: bool) returns (outcome: Session.DeleteOutcome)
      requires Valid()
      modifies this
      ensures Valid()
      ensures (Snapshot(), outcome) == Session.DeleteDriver(old(Snapshot()), selected, confirmed, dbOk)
    {
      if selected.None? {
        return Session.NothingSelected;
      }
      if !confirmed {
        return Session.DeleteOutcome.Declined;
      }
      if !dbOk {
        return Session.DeleteOutcome.DatabaseError;
      }
      db := DeleteDriverAndJourneys(db, selected.value);
      outcome := Session.Deleted;
    }

    /**
     * `generate_report`. `ids` are the rows the journeys query returns for
     * the logged-in driver.
     */
    method GenerateReport(dbOk: bool, ids: seq<nat>) returns (outcome: Report.ReportOutcome)
      requires login.LoggedIn? && dbOk ==> Report.IsQueryResult(ids, db.journeys, login.id)
      ensures login.NeverLoggedIn? ==> outcome == Report.NoDriverLoggedIn
      ensures !login.NeverLoggedIn? && !dbOk ==> outcome == Report.DatabaseError
      ensures login.LoggedOut? && dbOk ==> outcome == Report.TypeErrorRaised
      ensures login.LoggedIn? && dbOk ==>
        && (outcome == Report.NoJourneys <==> JourneyIdsOf(db.journeys, login.id) == {})
        && (outcome != Report.NoJourneys ==>
              outcome == Report.Shown(Report.ReportText(login.driver.name, ids, db.journeys)))
    {
      if login.NeverLoggedIn? {
        return Report.NoDriverLoggedIn;
      }
      if !dbOk {
        return Report.DatabaseError;
      }
      if login.LoggedOut? {
        return Report.TypeErrorRaised;
      }
      Report.QueryResultSize(ids, db.journeys, login.id);
      if ids == [] {
        return Report.NoJourneys;
      }
      var report := Report.BuildReport(login.driver.name, ids, db.journeys);
      outcome := Report.Shown(report);
    }
  }
}
