# Driver Drowsiness Management System — verified model of the driver dashboard

This project models the driver-facing core of the Driver Drowsiness
Management System (`driver.py`, class `DriverDrowsinessGUI`). A driver
registers and then logs in. They start a journey, and while it runs each
drowsiness event the detector reports is counted. They end the journey, ask
for a report of their journeys, and log out. An administrator can delete a
driver together with all of that driver's journeys.

The MySQL tables `drivers` and `journeys` are maps from id to row. Each table
has an auto-increment counter. The schema's guarantees are one predicate,
`Tables.Valid`:

- every id is below its table's counter;
- `drivers.username` is UNIQUE;
- every journey's `driver_id` refers to an existing driver (the foreign key).

Every statement that changes a table is a pure function on these tables:
`InsertDriver`, `InsertJourney`, `UpdateCount`, `FinishJourney` and
`DeleteDriverAndJourneys`. The two queries are modelled differently. The
username lookup of registration is membership in `Tables.Usernames`. The
rows of the report query are the parameter `ids` described below.

The GUI object keeps these attributes between button presses:

- `current_driver`;
- `journey_active`;
- `drowsiness_count`;
- `current_journey_id`;
- whether End Journey is enabled. Start Journey is always its opposite.

The class `App.DriverApp` holds these attributes and the tables as fields.
It has one method per button, plus `UpdateDrowsinessCount`, the detector's
callback. Each is written in the source's statement order. Every method but
`GenerateReport` is proved to make exactly the transition of the pure
function of the same name in module `Session`. `GenerateReport` changes
nothing, so it has no `Session` counterpart. Its contract states the outcome
directly, with the report text given by `Report.ReportText`. The properties
of the dashboard are proved as lemmas about the `Session` functions:

- every operation keeps the schema;
- a run of drowsiness events is counted;
- ending a started journey completes it;
- at most one journey is Active while the buttons are used as the GUI allows them.

Registration's field checks are in module `Registration`. They are made in
the source's order, so the first failing check decides the message.

Python's `int()` and `str.isdigit()` are modelled for ASCII text by module
`Decimal`. The same module renders numbers in the report.

The report text and its construction loop are in module `Report`.

Inputs the program gets from outside become parameters:

- `dbOk: bool` is false when `get_db_connection()` returned nothing or the statement raised `mysql.connector.Error`; no table changes then;
- `now: Time` is `datetime.now()`;
- `modelFound: bool` says whether `drowsiness_model.h5` exists;
- `confirmed: bool` is the answer to a yes/no dialog;
- `selected: Option<nat>` is the driver row selected in the admin list;
- `ids: seq<nat>` are the rows the report query returns. They are constrained by `Report.IsQueryResult`: every journey of the driver appears exactly once, latest start first.

`current_driver` has three states in the model (`Session.Login`):

- never assigned, so the `hasattr` checks fail;
- `None` after a logout, so `hasattr` still succeeds;
- the row of the logged-in driver.

### Behaviour as written

The model follows the code, including these behaviours:

- `start_journey` never looks for an Active journey of the driver already in the table. Pressed while a journey runs, it inserts a second Active row (`Session.StartWhileActiveDuplicates`). Only the disabled Start Journey button prevents this. Under that discipline at most one journey is Active. This is `Session.OnlyCurrentActive`, and a lemma for every button shows that it is kept.
- `start_journey` sets `journey_active` and resets the counter before the row is inserted. A failed insert leaves `journey_active` true, and then `logout` refuses.
- `end_journey` does not check that a journey is active. With no journey id ever recorded, a confirmed `end_journey` whose connection opens raises `AttributeError` after clearing `journey_active` (`Session.EndOutcome.AttributeErrorRaised`). If the connection does not open, the `UPDATE` is skipped and nothing raises. When End Journey is enabled, a journey id is always recorded, so the button never reaches this path (`Session.EndButtonEnds`). A failed update leaves the row Active, and the error is only shown.
- After `logout`, `current_driver` is `None`. If the model file exists and the connection opens, `start_journey` then resets the counter, sets `journey_active` and raises `TypeError` at `current_driver[0]`. If the connection opens, `generate_report` raises the same error. In the model, `dbOk` false in these cases stands for a connection that did not open. The GUI cannot reach this, because logout leaves the dashboard.
- A driver with no journeys gets the message "No journeys found for this driver", not an empty report.
- `Session.OnlyCurrentActive` holds at launch only if the tables hold no Active journey (`Session.LaunchOnlyCurrentActive`). driver.py has no handler for closing the window. A window closed during a journey leaves its row Active, and the next launch starts without that hypothesis.
- A failed drowsiness-count write stops nothing. A failed `UPDATE` is printed. A failed connection shows the connection-error dialog of `get_db_connection`, from the detector's thread. In both cases the in-memory counter has still been incremented, and counting goes on.

## Model

| member | source | states |
|---|---|---|
| Decimal.ParseInt | driver.py:505 | `int()` on the age text succeeds exactly for one or more digits, optionally after a single '+' or '-'; a leading '-' gives a value at most 0, anything else a value at least 0 |
| Decimal.ParseShowInt | driver.py:505 | `int()` reads back every integer written in decimal without leading zeros or '+' |
| Decimal.ParseIntLeadingZero | driver.py:505 | a leading zero does not change the number: "018" reads as 18 |
| Decimal.ParseIntPlus | driver.py:505 | a leading '+' does not change the number: "+18" reads as 18 |
| Decimal.ParseIntMinus | driver.py:505 | a leading '-' negates the number the digits denote, so "-0" reads as 0 |
| Decimal.ParseIntMinusLeadingZero | driver.py:505 | a zero after a leading '-' does not change the number: "-018" reads as -18 |
| Decimal.ParseIntRejectsNonDigit | driver.py:504-511 | a string with a character that is neither a digit nor a leading sign is not a number (the `ValueError` branch) |
| Tables.InsertDriver | driver.py:528-542 | the insert adds exactly one row under the next id and changes no other row; the set of usernames gains the new one; with a fresh username the schema still holds |
| Tables.UsernamesAfterInsert | driver.py:522-541 | the usernames after an insert under a fresh id are the old ones plus the new one; a fresh username keeps the UNIQUE column unique |
| Tables.InsertJourney | driver.py:608-613 | the insert adds one row (driver, now, no end, count 0, Active) under a fresh id, keeps every other row and the drivers, and keeps the schema when the driver exists |
| Tables.ForeignKeyAfterInsert | driver.py:608-611 | a journey row of an existing driver keeps the foreign key of driver.py:129 |
| Tables.UpdateCount | driver.py:642-646 | only the count of the row with that id changes (a missing id matches no row), and the schema is kept |
| Tables.FinishJourney | driver.py:665-669 | only the row with that id changes, getting the end time and status Completed (a missing id matches no row), and the schema is kept |
| Tables.DeleteDriverAndJourneys | driver.py:418-422 | the driver and exactly that driver's journeys are removed, every other row stays, and the schema is kept |
| Tables.DeletingDriverFirstBreaksForeignKey | driver.py:418-421 | deleting the driver row before its journeys would leave a journey without a driver, which the foreign key forbids |
| Registration.CheckFields | driver.py:496-516 | each field error happens exactly when the earlier checks pass and its own check fails (empty field, age not a number, age under 18, bad phone); on success the row is acceptable and carries the parsed age |
| Registration.Validate | driver.py:496-526 | registration accepts exactly when the field checks pass and the username is new; a taken username is reported only after the field checks pass |
| Registration.ValidateAcceptsAcceptable | driver.py:496-541 | a form that describes an acceptable driver with a new username yields exactly that driver row |
| Registration.RegistrationKeepsUsernamesUnique | driver.py:522-541 | a successful registration keeps the schema, adds one driver and adds its username |
| Registration.MessagesDistinct | driver.py:500-525 | each refusal shows a different message |
| Session.Launch | driver.py:222-242 | at launch nobody is logged in, no journey is active, the counter is 0, no journey id is recorded and End Journey is disabled |
| Session.Register | driver.py:493-554 | a driver is added exactly when the connection works and validation passes, under the next id; every other outcome leaves the tables unchanged; the invariant is kept |
| Session.StartJourney | driver.py:587-633 | a journey starts exactly when someone is logged in, the model file exists, the database works and the driver row exists; the new Active row gets the next id; each failure outcome (nobody logged in, model missing, database error or missing driver row, `TypeError` after logout) happens exactly under its own condition; the counter is reset and `journey_active` set even when the insert fails; the invariant is kept |
| Session.UpdateDrowsinessCount | driver.py:635-652 | the counter goes up by one; with a working connection the current journey's row gets the new count; no other row and no status changes |
| Session.EventsAreCounted | driver.py:635-646 | after a run of events the counter has grown by their number, only the current row changed, and it holds the counter whenever the last write succeeded |
| Session.FreshJourneyCountsEvents | driver.py:600-646 | a journey started and then given n successfully written events holds count n and is still Active |
| Session.EndJourney | driver.py:654-681 | after confirmation `journey_active` is false; the journey ends exactly when the connection works and a journey id exists, and its row then gets the end time and Completed; a database error happens exactly when the connection fails, and `AttributeError` exactly when the connection opens and no journey id was ever recorded; otherwise no table changes |
| Session.EndButtonEnds | driver.py:654-674 | pressing the enabled End Journey button, confirmed and with a working connection, always ends the journey: the invariant guarantees a recorded journey id, so the `AttributeError` path is never reached |
| Session.StartThenEnd | driver.py:587-681 | starting then ending a journey leaves a Completed row with the start and end times and no events, and the buttons reset |
| Session.Logout | driver.py:720-728 | logout is refused while a journey is active; otherwise it happens exactly when confirmed and only clears the driver |
| Session.DeleteDriver | driver.py:405-429 | a driver is deleted exactly when one is selected, the deletion confirmed and the connection works; then neither the driver nor any of its journeys remain; otherwise nothing changes |
| Session.AtMostOneActive | driver.py:608-617 | while every Active journey is the current one, at most one journey is Active |
| Session.LaunchOnlyCurrentActive | driver.py:222-242 | a launch over tables with no Active journey starts with every Active journey being the current one |
| Session.RegisterKeepsOnlyCurrentActive | driver.py:528-542 | registering a driver keeps every Active journey the current one |
| Session.LogoutKeepsOnlyCurrentActive | driver.py:720-728 | logging out keeps every Active journey the current one |
| Session.StartKeepsOnlyCurrentActive | driver.py:608-617 | starting a journey while Start Journey is enabled keeps every Active journey the current one |
| Session.UpdateKeepsOnlyCurrentActive | driver.py:642-646 | drowsiness events keep every Active journey the current one |
| Session.EndKeepsOnlyCurrentActive | driver.py:665-674 | ending a journey leaves no Active journey at all, and any other outcome keeps the property |
| Session.DeleteKeepsOnlyCurrentActive | driver.py:418-421 | deleting a driver keeps every Active journey the current one |
| Session.StartWhileActiveDuplicates | driver.py:608-611 | starting while a journey is Active creates a second Active journey for the same driver |
| Report.EndText | driver.py:708 | the end column reads "Ongoing" exactly when the end time is NULL |
| Report.EntryShowsOngoing | driver.py:708 | a journey's End line is "Ongoing" exactly when it has no end time |
| Report.BuildReport | driver.py:705-710 | the loop's text is the header followed by one entry per returned row, in the query's order |
| Report.JoinedAppend | driver.py:706-710 | the text for two runs of rows is the text for the first followed by the text for the second |
| Report.ReportShowsEachJourney | driver.py:705-710 | every returned row's entry appears in the report, after the entries of the rows before it and before the entries of the rows after it |
| Report.QueryResultSize | driver.py:693-703 | the query returns one row per journey of the driver, so it is empty exactly when the driver has no journeys |
| App.DriverApp.constructor | driver.py:17-72 | the application starts in the launch state over a database that satisfies the schema |
| App.DriverApp.Register | driver.py:493-554 | the method makes exactly the `Session.Register` transition and keeps the invariant |
| App.DriverApp.StartJourney | driver.py:587-633 | the method makes exactly the `Session.StartJourney` transition and keeps the invariant |
| App.DriverApp.UpdateDrowsinessCount | driver.py:635-652 | the method makes exactly the `Session.UpdateDrowsinessCount` transition and keeps the invariant |
| App.DriverApp.EndJourney | driver.py:654-681 | the method makes exactly the `Session.EndJourney` transition and keeps the invariant |
| App.DriverApp.Logout | driver.py:720-728 | the method makes exactly the `Session.Logout` transition and keeps the invariant |
| App.DriverApp.DeleteDriver | driver.py:405-429 | the method makes exactly the `Session.DeleteDriver` transition and keeps the invariant |
| App.DriverApp.GenerateReport | driver.py:683-718 | nobody logged in, a database failure and the logged-out `TypeError` are reported; otherwise the report is "no journeys" exactly when the driver has none, and else the header plus one entry per journey in the query's order |

## Left out

- Decimal.ParseInt: models `int()` and `str.isdigit()` on ASCII text only. The surrounding whitespace and `_` separators that `int()` accepts, and non-ASCII digits, are not modelled. Its own contract gives only which strings parse and the sign of the result. The value of every accepted string follows from `ParseShowInt`, `ParseIntLeadingZero`, `ParseIntPlus`, `ParseIntMinus` and `ParseIntMinusLeadingZero` together.
- Usernames are compared exactly. MySQL's default collation compares them case-insensitively and ignoring trailing spaces; that is not modelled.
- Times are natural numbers, and the report writes them in decimal. The `YYYY-MM-DD HH:MM:SS` format of `datetime` is not modelled.
- The detection thread, `DrowsinessDetector` (drowsiness_detector.py) and the camera are not part of this model. Each drowsiness event is a call of `UpdateDrowsinessCount`. `join` on the thread is assumed to return. The loop of `run_detection` (drowsiness_detector.py:38-46) is a placeholder whose body is comments only. It never calls the `update_drowsiness_count` callback passed at driver.py:622, so as written no event is counted and every stored count stays 0. The model's events stand for the calls the finished loop would make. The detector's construction failure and the thread's own exceptions are not modelled.
- Threads are not modelled: the detector's callback and the GUI's buttons are taken to run one at a time.
- Message boxes, frames, widgets and button colours are not modelled. Of the GUI state, only whether End Journey is enabled is kept. The Start Journey button is its opposite.
- `login` and `admin_login` are not modelled. `login` is an SQL lookup that sets `current_driver`; the model's `login` field is set directly. `admin_login` sets `current_admin`, which no modelled operation reads.
- `admin_logout`, `delete_journey`, `view_database`, `refresh_admin_data`, `get_db_connection` and `create_database` are not part of this model. The schema constraints of `create_database` appear only as `Tables.Valid`.
- database.py and gui_styles.py are not part of this model.
- The attributes `journey_active`, `drowsiness_count` and `current_journey_id` do not exist before the first journey starts. The model gives them the values false, 0 and none. `logout` and `end_journey` behave the same either way. `update_drowsiness_count` cannot run before a journey starts.
- The order the journeys query returns is not computed. It is a parameter that satisfies `Report.IsQueryResult`.
- The `VARCHAR` widths of the `drivers` columns (driver.py:109-119) are not modelled. A field longer than its column passes every check of registration, for example a Gender longer than 10 characters or a phone number longer than 20 digits. MySQL then rejects the insert in strict mode, or truncates the value otherwise. The model always inserts the full strings.
- `selected` is at most one driver. The admin list allows several rows to be selected. With more than one selected, `drivers_tree.item` is given several items at driver.py:412, outside the `try`, and nothing is deleted. That case is not modelled.
- MySQL's 32-bit `INT` limits on ids, ages and counts are not modelled; integers are unbounded.
