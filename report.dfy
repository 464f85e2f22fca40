/**
 * The journey report shown to a logged-in driver: the rows the query
 * returns, and the text built from them line by line.
 */
module Report {
  import opened Wrappers
  import opened Decimal
  import opened Tables

  /** What Generate Report shows. */
  datatype ReportOutcome =
    | NoDriverLoggedIn
    | DatabaseError
    | TypeErrorRaised
    | NoJourneys
    | Shown(text: string)

  /**
   * `ids` is what `SELECT ... FROM journeys WHERE driver_id = d ORDER BY
   * start_time DESC` returns: every journey of the driver exactly once, the
   * latest start first (rows with equal start times in either order).
   */
  predicate IsQueryResult(ids: seq<nat>, journeys: map<nat, Journey>, driverId: nat) {
    && (forall i :: 0 <= i < |ids| ==> ids[i] in journeys && journeys[ids[i]].driverId == driverId)
    && (forall k :: k in journeys && journeys[k].driverId == driverId ==> k in ids)
    && (forall i, j :: 0 <= i < j < |ids| ==> ids[i] != ids[j])
    && (forall i, j :: 0 <= i < j < |ids| ==> journeys[ids[i]].start >= journeys[ids[j]].start)
  }

  function StatusText(status: Status): string {
    match status
    case Active => "Active"
    case Completed => "Completed"
  }

  /** The end time, or "Ongoing" for a journey whose end time is NULL. */
  function EndText(end: Option<Time>): (r: string)
    ensures r == "Ongoing" <==> end.None?
  {
    match end
    case None => "Ongoing"
    case Some(t) => assert ShowNat(t)[0] != "Ongoing"[0]; ShowNat(t)
  }

  /** The four pieces the loop appends for one journey. */
  function StartLine(j: Journey): string { "\nStart: " + ShowNat(j.start) }
  function EndLine(j: Journey): string { "\nEnd: " + EndText(j.end) }
  function EventsLine(j: Journey): string { "\nDrowsiness Events: " + ShowInt(j.count) }
  function StatusLine(j: Journey): string { "\nStatus: " + StatusText(j.status) + "\n" }

  function Entry(j: Journey): string {
    StartLine(j) + EndLine(j) + EventsLine(j) + StatusLine(j)
  }

  /** Every id listed is a row of `journeys`. */
  predicate Stored(ids: seq<nat>, journeys: map<nat, Journey>) {
    forall i :: 0 <= i < |ids| ==> ids[i] in journeys
  }

  /** The texts `render` gives the journeys `ids`, joined in the order given. */
  function Joined(ids: seq<nat>, journeys: map<nat, Journey>, render: Journey -> string): string
    requires Stored(ids, journeys)
  {
    if ids == [] then ""
    else Joined(ids[..|ids| - 1], journeys, render) + render(journeys[ids[|ids| - 1]])
  }

  /** The entries of the journeys `ids`, in the order given. */
  function Entries(ids: seq<nat>, journeys: map<nat, Journey>): string
    requires Stored(ids, journeys)
  {
    Joined(ids, journeys, Entry)
  }

  function Header(name: string): string {
    "Driver: " + name + "\n\nJourney History:\n"
  }

  /** The whole report for the driver called `name`. */
  function ReportText(name: string, ids: seq<nat>, journeys: map<nat, Journey>): string
    requires Stored(ids, journeys)
  {
    Header(name) + Entries(ids, journeys)
  }

  /**
   * The loop of `generate_report`: start from the header and append each
   * journey's four lines in turn.
   */
  method BuildReport(name: string, ids: seq<nat>, journeys: map<nat, Journey>) returns (report: string)
    requires Stored(ids, journeys)
    ensures report == ReportText(name, ids, journeys)
  {
    report := Header(name);
    var i := 0;
    while i < |ids|
      invariant 0 <= i <= |ids|
      invariant report == Header(name) + Entries(ids[..i], journeys)
    {
      var journey := journeys[ids[i]];
      ghost var before := report;
      report := report + StartLine(journey);
      report := report + EndLine(journey);
      report := report + EventsLine(journey);
      report := report + StatusLine(journey);
      AppendEntry(before, journey);
      EntriesSnoc(ids, journeys, i);
      Associative(Header(name), Entries(ids[..i], journeys), Entry(journey));
      i := i + 1;
    }
    assert ids[..i] == ids;
  }

  /**
   * Joining is a homomorphism: the report of two runs of rows is the report
   * of the first followed by the report of the second.
   */
  lemma {:induction false} JoinedAppend(a: seq<nat>, b: seq<nat>, journeys: map<nat, Journey>, render: Journey -> string)
    requires Stored(a, journeys) && Stored(b, journeys)
    ensures Stored(a + b, journeys)
    ensures Joined(a + b, journeys, render) == Joined(a, journeys, render) + Joined(b, journeys, render)
  {
    if b == [] {
      assert a + b == a;
    } else {
      var b' := b[..|b| - 1];
      assert (a + b)[..|a + b| - 1] == a + b';
      assert (a + b)[|a + b| - 1] == b[|b| - 1];
      JoinedAppend(a, b', journeys, render);
    }
  }

  /** Appending a journey's four lines one after another appends its entry. */
  lemma AppendEntry(report: string, j: Journey)
    ensures report + StartLine(j) + EndLine(j) + EventsLine(j) + StatusLine(j) == report + Entry(j)
  {
  }

  lemma Associative(a: string, b: string, c: string)
    ensures (a + b) + c == a + (b + c)
  {
  }

  /** The entries of one more row are the entries so far followed by that row's entry. */
  lemma EntriesSnoc(ids: seq<nat>, journeys: map<nat, Journey>, i: nat)
    requires Stored(ids, journeys) && i < |ids|
    ensures Stored(ids[..i], journeys) && Stored(ids[..i + 1], journeys)
    ensures Entries(ids[..i + 1], journeys) == Entries(ids[..i], journeys) + Entry(journeys[ids[i]])
  {
    assert ids[..i + 1][..i] == ids[..i];
  }

  /** The joined texts of a run split around position `i`: before it, its own text, after it. */
  lemma {:induction false} JoinedAround(ids: seq<nat>, journeys: map<nat, Journey>, render: Journey -> string, i: nat)
    requires Stored(ids, journeys) && i < |ids|
    ensures Stored(ids[..i], journeys) && Stored(ids[i + 1..], journeys)
    ensures Joined(ids, journeys, render)
      == Joined(ids[..i], journeys, render) + render(journeys[ids[i]]) + Joined(ids[i + 1..], journeys, render)
  {
    var (before, at, after) := (ids[..i], [ids[i]], ids[i + 1..]);
    assert ids == (before + at) + after;
    assert (before + at)[..|before + at| - 1] == before;
    JoinedAppend(before + at, after, journeys, render);
  }

  /**
   * The report shows every row of the query, in the query's order: the
   * header, the entries of the rows before, the row's own entry, then the
   * entries of the rows after.
   */
  lemma ReportShowsEachJourney(name: string, ids: seq<nat>, journeys: map<nat, Journey>, i: nat)
    requires Stored(ids, journeys) && i < |ids|
    ensures Stored(ids[..i], journeys) && Stored(ids[i + 1..], journeys)
    ensures ReportText(name, ids, journeys)
      == Header(name) + (Entries(ids[..i], journeys) + Entry(journeys[ids[i]]) + Entries(ids[i + 1..], journeys))
  {
    JoinedAround(ids, journeys, Entry, i);
  }

  /** The entry of each journey says "Ongoing" exactly when it has no end time. */
  lemma EntryShowsOngoing(j: Journey)
    ensures EndLine(j) == "\nEnd: Ongoing" <==> j.end.None?
  {
    if EndLine(j) == "\nEnd: Ongoing" {
      assert EndText(j.end) == EndLine(j)[6..];
    }
  }

  /** The ids listed in `ids`. */
  function Elements(ids: seq<nat>): set<nat> {
    set x | x in ids
  }

  lemma {:induction false} DistinctCard(ids: seq<nat>)
    requires forall i, j :: 0 <= i < j < |ids| ==> ids[i] != ids[j]
    ensures |Elements(ids)| == |ids|
  {
    if ids != [] {
      var init := ids[..|ids| - 1];
      DistinctCard(init);
      var last := ids[|ids| - 1];
      assert Elements(ids) == Elements(init) + {last};
      assert last !in Elements(init) by {
        forall i | 0 <= i < |init| ensures init[i] != last {
          assert ids[i] != ids[|ids| - 1];
        }
      }
    }
  }

  /**
   * The query returns one row per journey of the driver, so it is empty
   * exactly when the driver has no journeys.
   */
  lemma {:induction false} QueryResultSize(ids: seq<nat>, journeys: map<nat, Journey>, driverId: nat)
    requires IsQueryResult(ids, journeys, driverId)
    ensures |ids| == |JourneyIdsOf(journeys, driverId)|
    ensures ids == [] <==> JourneyIdsOf(journeys, driverId) == {}
  {
    assert Elements(ids) == JourneyIdsOf(journeys, driverId);
    DistinctCard(ids);
  }
}
