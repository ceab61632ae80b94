/** `update_ticket_to_new_flight`: move a passenger's ticket to another flight,
    rewriting `ticket_flights` and `boarding_passes` in one transaction. */
module Rebooking {
  import opened Storage

  /** The statements the operation sends to the database, in the order it sends them. */
  datatype Statement =
    | SelectFlight
    | SelectTicketFlight
    | SelectTicket
    | UpdateTicketFlights
    | UpdateBoardingPasses
    | Commit

  /** An exception raised by one statement, with its text. */
  datatype Fault = NoFault | FailAt(statement: Statement, cause: string)

  /** What parsing `scheduled_departure` with `%Y-%m-%d %H:%M:%S.%f%z` yields:
      an instant in seconds, or the text of the exception it raises. */
  datatype Parsed = Parsed(epochSeconds: int) | Unparseable(cause: string)

  /** What the operation takes from its surroundings: the timestamp parser,
      the current time in seconds, and the exception, if any, that one of
      its statements raises. */
  datatype Env = Env(parseDeparture: string -> Parsed, now: int, fault: Fault)

  predicate Fails(fault: Fault, s: Statement)
  {
    fault.FailAt? && fault.statement == s
  }

  /** The notice the disabled departure rule would have demanded. */
  const MinimumNoticeSeconds: int := 3 * 3600

  const SuccessText: string := "Ticket successfully updated to new flight."

  /** What the `except` clause puts before the text of the exception it caught. */
  const ErrorPrefix: string := "Error updating ticket: "

  /** How a call ends. `NoPassengerConfigured` is a `ValueError` raised to the
      caller; every other outcome is a string returned to the caller.
      `ErrorUpdating` is any exception caught by the `except` clause. */
  datatype Outcome =
    | NoPassengerConfigured
    | InvalidFlight
    | TicketNotFound
    | NotOwner(passengerId: string, ticketNo: string)
    | ErrorUpdating(cause: string)
    | Updated
  {
    predicate Raises()
    {
      NoPassengerConfigured?
    }

    /** The returned string, or the message of the raised exception. A caller
        can tell success, and the `except` path, from the string alone. */
    function Text(): (s: string)
      ensures s == SuccessText <==> Updated?
      ensures (|s| >= |ErrorPrefix| && s[..|ErrorPrefix|] == ErrorPrefix) <==> ErrorUpdating?
    {
      match this
      case NoPassengerConfigured =>
        var s := "No passenger ID configured.";
        assert s[0] == 'N';
        s
      case InvalidFlight =>
        var s := "Invalid new flight ID provided.";
        assert s[0] == 'I';
        s
      case TicketNotFound =>
        var s := "No existing ticket found " + "for the given ticket number.";
        assert s[0] == 'N';
        s
      case NotOwner(p, t) =>
        var s := "Current signed-in passenger with ID " + p + " not the owner of ticket " + t;
        assert s[0] == 'C';
        s
      case ErrorUpdating(cause) =>
        var s := ErrorPrefix + cause;
        assert s[..|ErrorPrefix|] == ErrorPrefix;
        assert s[0] == 'E';
        s
      case Updated =>
        assert SuccessText[0] == 'T';
        SuccessText
    }
  }

  /** The result of a call: its outcome and the tables once it has returned. */
  datatype Transition = Transition(outcome: Outcome, tables: Tables)

  /** `if not passenger_id`: of the values a string id can take, exactly the
      two falsy ones, an absent id and an empty one, are refused. */
  function PassengerConfigured(passengerId: Option<string>): (configured: bool)
    ensures !configured <==> passengerId in {None, Some("")}
  {
    passengerId.Some? && passengerId.value != ""
  }

  /** SQLite stores integers in 64 bits. */
  const SqliteMinInteger: int := -0x8000_0000_0000_0000
  const SqliteMaxInteger: int := 0x7FFF_FFFF_FFFF_FFFF

  predicate FitsSqliteInteger(x: int)
  {
    SqliteMinInteger <= x <= SqliteMaxInteger
  }

  /** The `OverflowError` Python's sqlite3 raises when it binds a larger integer. */
  const OverflowText: string := "Python int too large to convert to SQLite INTEGER"

  /** The operation, as a function of the database before the call. Whatever
      happens, `flights` and `tickets` are untouched and no table gains or
      loses a row; every outcome but success leaves all tables as they were. */
  function Rebook(db: Tables, ticketNo: string, newFlightId: int,
                  passengerId: Option<string>, env: Env): (r: Transition)
    ensures r.outcome != Updated ==> r.tables == db
    ensures r.tables.flights == db.flights && r.tables.tickets == db.tickets
    ensures |r.tables.ticketFlights| == |db.ticketFlights|
    ensures |r.tables.boardingPasses| == |db.boardingPasses|
  {
    if !PassengerConfigured(passengerId) then Transition(NoPassengerConfigured, db)
    else
      var pid := passengerId.value;
      if !FitsSqliteInteger(newFlightId) then Transition(ErrorUpdating(OverflowText), db)
      else if Fails(env.fault, SelectFlight) then Transition(ErrorUpdating(env.fault.cause), db)
      else match FlightById(db.flights, newFlightId)
        case None => Transition(InvalidFlight, db)
        case Some(flight) =>
          match env.parseDeparture(flight.scheduledDeparture)
          case Unparseable(cause) => Transition(ErrorUpdating(cause), db)
          case Parsed(_) =>
            if Fails(env.fault, SelectTicketFlight) then Transition(ErrorUpdating(env.fault.cause), db)
            else if !HasRowFor(db.ticketFlights, ticketNo) then Transition(TicketNotFound, db)
            else if Fails(env.fault, SelectTicket) then Transition(ErrorUpdating(env.fault.cause), db)
            else if !HasTicket(db.tickets, ticketNo, pid) then Transition(NotOwner(pid, ticketNo), db)
            else if Fails(env.fault, UpdateTicketFlights) || Fails(env.fault, UpdateBoardingPasses)
                    || Fails(env.fault, Commit)
            then Transition(ErrorUpdating(env.fault.cause), db)
            else Transition(Updated, db.(ticketFlights := SetFlight(db.ticketFlights, ticketNo, newFlightId),
                                         boardingPasses := SetFlight(db.boardingPasses, ticketNo, newFlightId)))
  }

  // The stages of validation, as separate conditions for the lemmas below.

  predicate FlightAccepted(db: Tables, newFlightId: int, env: Env)
  {
    && FitsSqliteInteger(newFlightId)
    && !Fails(env.fault, SelectFlight)
    && FlightById(db.flights, newFlightId).Some?
    && env.parseDeparture(FlightById(db.flights, newFlightId).value.scheduledDeparture).Parsed?
  }

  predicate TicketFound(db: Tables, ticketNo: string, env: Env)
  {
    !Fails(env.fault, SelectTicketFlight) && HasRowFor(db.ticketFlights, ticketNo)
  }

  predicate OwnershipConfirmed(db: Tables, ticketNo: string, passengerId: string, env: Env)
  {
    !Fails(env.fault, SelectTicket) && HasTicket(db.tickets, ticketNo, passengerId)
  }

  predicate WritesSucceed(env: Env)
  {
    !Fails(env.fault, UpdateTicketFlights) && !Fails(env.fault, UpdateBoardingPasses)
    && !Fails(env.fault, Commit)
  }

  /** Whether a call gets as far as sending statement `s` to the database. */
  predicate Reaches(db: Tables, ticketNo: string, newFlightId: int,
                    passengerId: Option<string>, env: Env, s: Statement)
  {
    && PassengerConfigured(passengerId)
    && FitsSqliteInteger(newFlightId)
    && (s != SelectFlight ==> FlightAccepted(db, newFlightId, env))
    && (s !in {SelectFlight, SelectTicketFlight} ==> TicketFound(db, ticketNo, env))
    && (s !in {SelectFlight, SelectTicketFlight, SelectTicket} ==>
          OwnershipConfirmed(db, ticketNo, passengerId.value, env))
    && (s in {UpdateBoardingPasses, Commit} ==> !Fails(env.fault, UpdateTicketFlights))
    && (s == Commit ==> !Fails(env.fault, UpdateBoardingPasses))
  }

  /** Every boarding pass names a flight that its ticket is assigned to; in
      particular every ticket with a boarding pass has a flight assignment. */
  ghost predicate PassesMatchAssignments(db: Tables)
    ensures PassesMatchAssignments(db) ==>
      forall i :: 0 <= i < |db.boardingPasses| ==> HasRowFor(db.ticketFlights, db.boardingPasses[i].ticketNo)
  {
    forall i :: 0 <= i < |db.boardingPasses| ==> db.boardingPasses[i] in db.ticketFlights
  }

  /** A missing passenger id is refused before any statement runs, whatever the
      database holds and whichever statement would have failed. */
  lemma MissingPassengerRefusedFirst(db: Tables, ticketNo: string, newFlightId: int,
                                     passengerId: Option<string>, env: Env)
    ensures var r := Rebook(db, ticketNo, newFlightId, passengerId, env);
      && (r.outcome == NoPassengerConfigured <==> !PassengerConfigured(passengerId))
      && (r.outcome.Raises() <==> !PassengerConfigured(passengerId))
      && (!PassengerConfigured(passengerId) ==> r.tables == db)
  {
  }

  /** An unknown flight is reported as soon as the flight lookup runs, before
      the ticket is looked at: whether the ticket exists or whose it is does
      not matter. */
  lemma UnknownFlightReportedFirst(db: Tables, ticketNo: string, newFlightId: int,
                                   passengerId: Option<string>, env: Env)
    ensures var r := Rebook(db, ticketNo, newFlightId, passengerId, env);
      && (r.outcome == InvalidFlight <==>
            PassengerConfigured(passengerId) && FitsSqliteInteger(newFlightId)
            && !Fails(env.fault, SelectFlight)
            && forall i :: 0 <= i < |db.flights| ==> db.flights[i].flightId != newFlightId)
      && (r.outcome == InvalidFlight ==> r.tables == db)
  {
  }

  /** A ticket without a `ticket_flights` row is reported once the flight has
      been accepted, and before ownership is looked at. */
  lemma MissingTicketReportedBeforeOwnership(db: Tables, ticketNo: string, newFlightId: int,
                                             passengerId: Option<string>, env: Env)
    ensures var r := Rebook(db, ticketNo, newFlightId, passengerId, env);
      && (r.outcome == TicketNotFound <==>
            PassengerConfigured(passengerId) && FlightAccepted(db, newFlightId, env)
            && !Fails(env.fault, SelectTicketFlight)
            && forall i :: 0 <= i < |db.ticketFlights| ==> db.ticketFlights[i].ticketNo != ticketNo)
      && (r.outcome == TicketNotFound ==> r.tables == db)
  {
  }

  /** A ticket that no `tickets` row pairs with the caller is refused with a
      message naming both ids, once the flight and the ticket have been found. */
  lemma ForeignTicketRefused(db: Tables, ticketNo: string, newFlightId: int,
                             passengerId: Option<string>, env: Env)
    ensures var r := Rebook(db, ticketNo, newFlightId, passengerId, env);
      && (r.outcome.NotOwner? <==>
            PassengerConfigured(passengerId) && FlightAccepted(db, newFlightId, env)
            && TicketFound(db, ticketNo, env) && !Fails(env.fault, SelectTicket)
            && forall i :: 0 <= i < |db.tickets| ==>
                 !(db.tickets[i].ticketNo == ticketNo && db.tickets[i].passengerId == passengerId.value))
      && (r.outcome.NotOwner? ==> r.outcome == NotOwner(passengerId.value, ticketNo) && r.tables == db)
  {
  }

  /** The operation succeeds exactly when every check passes and no statement fails. */
  lemma SucceedsExactlyWhenChecksPass(db: Tables, ticketNo: string, newFlightId: int,
                                      passengerId: Option<string>, env: Env)
    ensures Rebook(db, ticketNo, newFlightId, passengerId, env).outcome == Updated <==>
      && PassengerConfigured(passengerId)
      && FlightAccepted(db, newFlightId, env)
      && TicketFound(db, ticketNo, env)
      && OwnershipConfirmed(db, ticketNo, passengerId.value, env)
      && WritesSucceed(env)
  {
  }

  /** A flight id outside SQLite's 64-bit range fails as the flight query binds
      it; the `except` clause reports Python's `OverflowError`. */
  lemma OversizedFlightIdFailsOnBinding(db: Tables, ticketNo: string, newFlightId: int,
                                        passengerId: Option<string>, env: Env)
    requires PassengerConfigured(passengerId)
    requires !FitsSqliteInteger(newFlightId)
    ensures Rebook(db, ticketNo, newFlightId, passengerId, env)
         == Transition(ErrorUpdating(OverflowText), db)
  {
  }

  /** A departure that does not parse is reported with the parser's message,
      and nothing changes. */
  lemma UnparseableDepartureReported(db: Tables, ticketNo: string, newFlightId: int,
                                     passengerId: Option<string>, env: Env)
    requires PassengerConfigured(passengerId)
    requires FitsSqliteInteger(newFlightId)
    requires !Fails(env.fault, SelectFlight)
    requires FlightById(db.flights, newFlightId).Some?
    requires env.parseDeparture(FlightById(db.flights, newFlightId).value.scheduledDeparture).Unparseable?
    ensures Rebook(db, ticketNo, newFlightId, passengerId, env)
         == Transition(ErrorUpdating(env.parseDeparture(FlightById(db.flights, newFlightId).value
                                                          .scheduledDeparture).cause), db)
  {
  }

  /** A statement that is reached and raises is reported with the text of its
      exception, and nothing changes, whichever statement it is. */
  lemma ReachedFaultReported(db: Tables, ticketNo: string, newFlightId: int,
                             passengerId: Option<string>, env: Env)
    requires env.fault.FailAt?
    requires Reaches(db, ticketNo, newFlightId, passengerId, env, env.fault.statement)
    ensures Rebook(db, ticketNo, newFlightId, passengerId, env)
         == Transition(ErrorUpdating(env.fault.cause), db)
  {
  }

  /** Conversely, the `except` path reports only one of those three causes: an
      oversized id, a departure that does not parse, or a reached statement
      that raised. */
  lemma ErrorUpdatingHasCause(db: Tables, ticketNo: string, newFlightId: int,
                              passengerId: Option<string>, env: Env)
    ensures var r := Rebook(db, ticketNo, newFlightId, passengerId, env);
      r.outcome.ErrorUpdating? ==>
        || (!FitsSqliteInteger(newFlightId) && r.outcome.cause == OverflowText)
        || (&& FitsSqliteInteger(newFlightId) && !Fails(env.fault, SelectFlight)
            && FlightById(db.flights, newFlightId).Some?
            && env.parseDeparture(FlightById(db.flights, newFlightId).value.scheduledDeparture)
               == Unparseable(r.outcome.cause))
        || (&& env.fault.FailAt?
            && Reaches(db, ticketNo, newFlightId, passengerId, env, env.fault.statement)
            && r.outcome.cause == env.fault.cause)
  {
  }

  /** An exception between the two UPDATE statements undoes the first one. */
  lemma FaultBetweenUpdatesUndoesFirst(db: Tables, ticketNo: string, newFlightId: int,
                                       passengerId: Option<string>, env: Env)
    requires PassengerConfigured(passengerId)
    requires FlightAccepted(db, newFlightId, env)
    requires TicketFound(db, ticketNo, env)
    requires OwnershipConfirmed(db, ticketNo, passengerId.value, env)
    requires Fails(env.fault, UpdateBoardingPasses)
    ensures Rebook(db, ticketNo, newFlightId, passengerId, env)
         == Transition(ErrorUpdating(env.fault.cause), db)
  {
  }

  /** Either both tables are rewritten for the ticket, or neither is touched. */
  lemma AllOrNothing(db: Tables, ticketNo: string, newFlightId: int,
                     passengerId: Option<string>, env: Env)
    ensures var r := Rebook(db, ticketNo, newFlightId, passengerId, env);
      || r.tables == db
      || r.tables == db.(ticketFlights := SetFlight(db.ticketFlights, ticketNo, newFlightId),
                         boardingPasses := SetFlight(db.boardingPasses, ticketNo, newFlightId))
  {
  }

  /** On success every row of the ticket in both tables carries the new flight,
      every other row is as it was, no table gains or loses a row, and
      `flights` and `tickets` are untouched. */
  lemma {:induction false} SuccessRebooksEveryRow(db: Tables, ticketNo: string, newFlightId: int,
                                                  passengerId: Option<string>, env: Env)
    requires Rebook(db, ticketNo, newFlightId, passengerId, env).outcome == Updated
    ensures var t := Rebook(db, ticketNo, newFlightId, passengerId, env).tables;
      && t.flights == db.flights
      && t.tickets == db.tickets
      && |t.ticketFlights| == |db.ticketFlights|
      && |t.boardingPasses| == |db.boardingPasses|
      && (forall k :: 0 <= k < |t.ticketFlights| ==>
            if db.ticketFlights[k].ticketNo == ticketNo
            then t.ticketFlights[k] == Leg(ticketNo, newFlightId)
            else t.ticketFlights[k] == db.ticketFlights[k])
      && (forall k :: 0 <= k < |t.boardingPasses| ==>
            if db.boardingPasses[k].ticketNo == ticketNo
            then t.boardingPasses[k] == Leg(ticketNo, newFlightId)
            else t.boardingPasses[k] == db.boardingPasses[k])
  {
    SetFlightRewritesMatching(db.ticketFlights, ticketNo, newFlightId);
    SetFlightRewritesMatching(db.boardingPasses, ticketNo, newFlightId);
  }

  /** A ticket without boarding passes is still rebooked; `boarding_passes`
      stays as it was. */
  lemma {:induction false} SucceedsWithoutBoardingPasses(db: Tables, ticketNo: string, newFlightId: int,
                                                         passengerId: Option<string>, env: Env)
    requires PassengerConfigured(passengerId)
    requires FlightAccepted(db, newFlightId, env)
    requires TicketFound(db, ticketNo, env)
    requires OwnershipConfirmed(db, ticketNo, passengerId.value, env)
    requires WritesSucceed(env)
    requires forall k :: 0 <= k < |db.boardingPasses| ==> db.boardingPasses[k].ticketNo != ticketNo
    ensures var r := Rebook(db, ticketNo, newFlightId, passengerId, env);
      r.outcome == Updated && r.tables.boardingPasses == db.boardingPasses
  {
    SetFlightWithoutMatch(db.boardingPasses, ticketNo, newFlightId);
  }

  /** The three-hour rule is commented out: a flight leaving within three hours,
      or one that has already left, is accepted all the same. */
  lemma ImminentDepartureAccepted(db: Tables, ticketNo: string, newFlightId: int,
                                  passengerId: Option<string>, env: Env)
    requires PassengerConfigured(passengerId)
    requires FlightAccepted(db, newFlightId, env)
    requires env.parseDeparture(FlightById(db.flights, newFlightId).value.scheduledDeparture).epochSeconds
             - env.now < MinimumNoticeSeconds
    requires TicketFound(db, ticketNo, env)
    requires OwnershipConfirmed(db, ticketNo, passengerId.value, env)
    requires WritesSucceed(env)
    ensures Rebook(db, ticketNo, newFlightId, passengerId, env).outcome == Updated
  {
  }

  /** Rebooking a ticket to the flight it was just moved to succeeds again and
      changes nothing further. */
  lemma {:induction false} RebookingIsIdempotent(db: Tables, ticketNo: string, newFlightId: int,
                                                 passengerId: Option<string>, env: Env)
    requires Rebook(db, ticketNo, newFlightId, passengerId, env).outcome == Updated
    ensures var once := Rebook(db, ticketNo, newFlightId, passengerId, env);
      Rebook(once.tables, ticketNo, newFlightId, passengerId, env) == once
  {
    SetFlightKeepsTickets(db.ticketFlights, ticketNo, newFlightId, ticketNo);
    SetFlightIdempotent(db.ticketFlights, ticketNo, newFlightId);
    SetFlightIdempotent(db.boardingPasses, ticketNo, newFlightId);
  }

  /** After a successful call every boarding pass of the ticket agrees with a
      flight assignment of the ticket, even if they disagreed before. */
  lemma {:induction false} RebookedTicketAgrees(db: Tables, ticketNo: string, newFlightId: int,
                                                passengerId: Option<string>, env: Env)
    requires Rebook(db, ticketNo, newFlightId, passengerId, env).outcome == Updated
    ensures var t := Rebook(db, ticketNo, newFlightId, passengerId, env).tables;
      forall i :: 0 <= i < |t.boardingPasses| && t.boardingPasses[i].ticketNo == ticketNo ==>
        t.boardingPasses[i] in t.ticketFlights
  {
    var t := Rebook(db, ticketNo, newFlightId, passengerId, env).tables;
    SuccessRebooksEveryRow(db, ticketNo, newFlightId, passengerId, env);
    var j :| 0 <= j < |db.ticketFlights| && db.ticketFlights[j].ticketNo == ticketNo;
    assert t.ticketFlights[j] == Leg(ticketNo, newFlightId);
    forall i | 0 <= i < |t.boardingPasses| && t.boardingPasses[i].ticketNo == ticketNo
      ensures t.boardingPasses[i] in t.ticketFlights
    {
      assert db.boardingPasses[i].ticketNo == ticketNo;
    }
  }

  /** Every call keeps each boarding pass in agreement with a flight assignment
      of its ticket. */
  lemma {:induction false} RebookingPreservesAgreement(db: Tables, ticketNo: string, newFlightId: int,
                                                       passengerId: Option<string>, env: Env)
    requires PassesMatchAssignments(db)
    ensures PassesMatchAssignments(Rebook(db, ticketNo, newFlightId, passengerId, env).tables)
  {
    var r := Rebook(db, ticketNo, newFlightId, passengerId, env);
    if r.outcome == Updated {
      var t := r.tables;
      RebookedTicketAgrees(db, ticketNo, newFlightId, passengerId, env);
      SuccessRebooksEveryRow(db, ticketNo, newFlightId, passengerId, env);
      forall i | 0 <= i < |t.boardingPasses| ensures t.boardingPasses[i] in t.ticketFlights {
        var b := db.boardingPasses[i];
        if b.ticketNo != ticketNo {
          assert b in db.ticketFlights;
          var j :| 0 <= j < |db.ticketFlights| && db.ticketFlights[j] == b;
          assert t.ticketFlights[j] == b;
        }
      }
    }
  }

  /** A worked example: ticket N3J2LG of passenger 3442 587242 moves
      from flight 19250 to flight 19251. */
  lemma ExampleRebooking(env: Env)
    requires env.fault == NoFault
    requires env.parseDeparture("2024-05-01 10:00:00.000000+03:00").Parsed?
    ensures var db := Tables(
        [Flight(19250, "SVO", "LED", "2024-04-30 10:00:00.000000+03:00"),
         Flight(19251, "SVO", "LED", "2024-05-01 10:00:00.000000+03:00")],
        [Ticket("N3J2LG", "3442 587242")],
        [Leg("N3J2LG", 19250)],
        [Leg("N3J2LG", 19250)]);
      var r := Rebook(db, "N3J2LG", 19251, Some("3442 587242"), env);
      && r.outcome == Updated
      && r.tables.ticketFlights == [Leg("N3J2LG", 19251)]
      && r.tables.boardingPasses == [Leg("N3J2LG", 19251)]
  {
    var flights := [Flight(19250, "SVO", "LED", "2024-04-30 10:00:00.000000+03:00"),
                    Flight(19251, "SVO", "LED", "2024-05-01 10:00:00.000000+03:00")];
    var legs := [Leg("N3J2LG", 19250)];
    assert FlightById(flights, 19251) == Some(flights[1]);
    assert legs[0].ticketNo == "N3J2LG";
    assert HasRowFor(legs, "N3J2LG");
    var moved := SetFlight(legs, "N3J2LG", 19251);
    SetFlightRewritesMatching(legs, "N3J2LG", 19251);
    assert moved[0] == Leg("N3J2LG", 19251);
    assert moved == [Leg("N3J2LG", 19251)];
  }

  /** The database behind one connection: the tables as this connection sees
      them, and the state its last commit made durable. */
  class Database {
    var flights: seq<Flight>
    var tickets: seq<Ticket>
    var ticketFlights: seq<Leg>
    var boardingPasses: seq<Leg>
    var committed: Tables

    function Snapshot(): Tables
      reads this
    {
      Tables(flights, tickets, ticketFlights, boardingPasses)
    }

    /** No transaction is open: what this connection sees is what is committed. */
    ghost predicate Valid()
      reads this
    {
      Snapshot() == committed
    }

    constructor (initial: Tables)
      ensures Valid() && Snapshot() == initial
    {
      flights := initial.flights;
      tickets := initial.tickets;
      ticketFlights := initial.ticketFlights;
      boardingPasses := initial.boardingPasses;
      committed := initial;
    }

    /** `conn.commit()`: the current tables become durable. */
    method CommitTransaction()
      modifies this`committed
      ensures committed == Snapshot()
    {
      committed := Snapshot();
    }

    /** `conn.rollback()`: every uncommitted write is discarded. */
    method Rollback()
      modifies this
      ensures Snapshot() == old(committed) && committed == old(committed)
    {
      flights := committed.flights;
      tickets := committed.tickets;
      ticketFlights := committed.ticketFlights;
      boardingPasses := committed.boardingPasses;
    }

    /** The `except` clause: roll back and report the exception's text. */
    method Abort(cause: string) returns (outcome: Outcome)
      modifies this
      ensures outcome == ErrorUpdating(cause)
      ensures Snapshot() == old(committed) && committed == old(committed)
    {
      Rollback();
      outcome := ErrorUpdating(cause);
    }

    method UpdateTicketToNewFlight(ticketNo: string, newFlightId: int,
                                   passengerId: Option<string>, env: Env)
      returns (outcome: Outcome)
      requires Valid()
      modifies this
      ensures Valid()
      ensures Transition(outcome, Snapshot())
           == Rebook(old(Snapshot()), ticketNo, newFlightId, passengerId, env)
      ensures outcome != Updated ==> Snapshot() == old(Snapshot())
    {
      if !PassengerConfigured(passengerId) {
        return NoPassengerConfigured;
      }
      var pid := passengerId.value;

      if !FitsSqliteInteger(newFlightId) {
        outcome := Abort(OverflowText);
        return;
      }
      if Fails(env.fault, SelectFlight) {
        outcome := Abort(env.fault.cause);
        return;
      }
      var flight := FlightById(flights, newFlightId);
      if flight.None? {
        return InvalidFlight;
      }

      var departure := env.parseDeparture(flight.value.scheduledDeparture);
      if departure.Unparseable? {
        outcome := Abort(departure.cause);
        return;
      }
      // Computed as the code does; the rule that would use it is disabled.
      var timeUntil := departure.epochSeconds - env.now;

      if Fails(env.fault, SelectTicketFlight) {
        outcome := Abort(env.fault.cause);
        return;
      }
      if !HasRowFor(ticketFlights, ticketNo) {
        return TicketNotFound;
      }

      if Fails(env.fault, SelectTicket) {
        outcome := Abort(env.fault.cause);
        return;
      }
      if !HasTicket(tickets, ticketNo, pid) {
        return NotOwner(pid, ticketNo);
      }

      if Fails(env.fault, UpdateTicketFlights) {
        outcome := Abort(env.fault.cause);
        return;
      }
      var rewritten := ExecuteUpdate(ticketFlights, ticketNo, newFlightId);
      ticketFlights := rewritten;

      if Fails(env.fault, UpdateBoardingPasses) {
        outcome := Abort(env.fault.cause);
        return;
      }
      rewritten := ExecuteUpdate(boardingPasses, ticketNo, newFlightId);
      boardingPasses := rewritten;

      if Fails(env.fault, Commit) {
        outcome := Abort(env.fault.cause);
        return;
      }
      CommitTransaction();
      return Updated;
    }
  }
}
