/** The four tables the rebooking operation touches, and the SQL statements it
    issues against them, as values and functions over those values. */
module Storage {

  datatype Option<+T> = None | Some(value: T)

  /** A row of `flights`: its key and the three columns the rebooking query selects. */
  datatype Flight = Flight(
    flightId: int,
    departureAirport: string,
    arrivalAirport: string,
    scheduledDeparture: string)

  /** A row of `tickets`: which passenger owns which ticket. */
  datatype Ticket = Ticket(ticketNo: string, passengerId: string)

  /** A row of `ticket_flights` or of `boarding_passes`: the two columns the
      operation reads or writes in either table. */
  datatype Leg = Leg(ticketNo: string, flightId: int)

  /** The database as the operation sees it. */
  datatype Tables = Tables(
    flights: seq<Flight>,
    tickets: seq<Ticket>,
    ticketFlights: seq<Leg>,
    boardingPasses: seq<Leg>)

  /** `SELECT ... FROM flights WHERE flight_id = ?` followed by `fetchone()`:
      a row with that id when there is one, and nothing otherwise. */
  function FlightById(flights: seq<Flight>, flightId: int): (r: Option<Flight>)
    ensures r.None? <==> forall i :: 0 <= i < |flights| ==> flights[i].flightId != flightId
    ensures r.Some? ==> r.value in flights && r.value.flightId == flightId
  {
    if flights == [] then None
    else if flights[0].flightId == flightId then Some(flights[0])
    else FlightById(flights[1..], flightId)
  }

  /** Whether a `ticket_flights` or `boarding_passes` table has a row for the
      ticket: `SELECT flight_id FROM ticket_flights WHERE ticket_no = ?` then
      returns a row, and an UPDATE of the ticket then has a row to rewrite. */
  function HasRowFor(rows: seq<Leg>, ticketNo: string): (found: bool)
    ensures found <==> exists i :: 0 <= i < |rows| && rows[i].ticketNo == ticketNo
  {
    if rows == [] then false
    else rows[0].ticketNo == ticketNo || HasRowFor(rows[1..], ticketNo)
  }

  /** `SELECT * FROM tickets WHERE ticket_no = ? AND passenger_id = ?` returns
      a row: some row pairs the ticket with the passenger. */
  function HasTicket(tickets: seq<Ticket>, ticketNo: string, passengerId: string): (found: bool)
    ensures found <==> exists i :: 0 <= i < |tickets| && tickets[i].ticketNo == ticketNo
                                                      && tickets[i].passengerId == passengerId
  {
    if tickets == [] then false
    else (tickets[0].ticketNo == ticketNo && tickets[0].passengerId == passengerId)
         || HasTicket(tickets[1..], ticketNo, passengerId)
  }

  /** A row as `UPDATE ... SET flight_id = ? WHERE ticket_no = ?` leaves it:
      its ticket number never changes, a row of the ticket carries the new
      flight, and any other row is left alone. */
  function Reassign(row: Leg, ticketNo: string, flightId: int): (r: Leg)
    ensures r.ticketNo == row.ticketNo
    ensures row.ticketNo == ticketNo ==> r == Leg(ticketNo, flightId)
    ensures row.ticketNo != ticketNo ==> r == row
  {
    if row.ticketNo == ticketNo then row.(flightId := flightId) else row
  }

  /** A whole table as `UPDATE ... SET flight_id = ? WHERE ticket_no = ?` leaves
      it: the statement applied to each row in turn. No row is added or removed. */
  function SetFlight(rows: seq<Leg>, ticketNo: string, flightId: int): (r: seq<Leg>)
    ensures |r| == |rows|
  {
    if rows == [] then []
    else [Reassign(rows[0], ticketNo, flightId)] + SetFlight(rows[1..], ticketNo, flightId)
  }

  /** After the UPDATE the rows of the ticket carry the new flight, and every
      other row is as it was, in its old place. */
  lemma {:induction false} SetFlightRewritesMatching(rows: seq<Leg>, ticketNo: string, flightId: int)
    ensures forall k :: 0 <= k < |rows| && rows[k].ticketNo == ticketNo ==>
      SetFlight(rows, ticketNo, flightId)[k] == Leg(ticketNo, flightId)
    ensures forall k :: 0 <= k < |rows| && rows[k].ticketNo != ticketNo ==>
      SetFlight(rows, ticketNo, flightId)[k] == rows[k]
  {
    if rows != [] {
      SetFlightRewritesMatching(rows[1..], ticketNo, flightId);
      var r := SetFlight(rows, ticketNo, flightId);
      assert r == [Reassign(rows[0], ticketNo, flightId)] + SetFlight(rows[1..], ticketNo, flightId);
      forall k | 1 <= k < |rows| ensures r[k] == Reassign(rows[k], ticketNo, flightId) {
        assert rows[1..][k - 1] == rows[k];
      }
    }
  }

  /** The UPDATE statement, applied row by row over the table. */
  method ExecuteUpdate(rows: seq<Leg>, ticketNo: string, flightId: int) returns (updated: seq<Leg>)
    ensures updated == SetFlight(rows, ticketNo, flightId)
  {
    updated := rows;
    var i := 0;
    while i < |updated|
      invariant |updated| == |rows|
      invariant 0 <= i <= |rows|
      invariant forall k :: 0 <= k < i ==> updated[k] == Reassign(rows[k], ticketNo, flightId)
      invariant forall k :: i <= k < |rows| ==> updated[k] == rows[k]
    {
      if updated[i].ticketNo == ticketNo {
        updated := updated[i := updated[i].(flightId := flightId)];
      }
      i := i + 1;
    }
    SetFlightRewritesMatching(rows, ticketNo, flightId);
    ghost var expected := SetFlight(rows, ticketNo, flightId);
    assert forall k :: 0 <= k < |rows| ==> updated[k] == expected[k];
  }

  /** Running the UPDATE a second time changes nothing. */
  lemma {:induction false} SetFlightIdempotent(rows: seq<Leg>, ticketNo: string, flightId: int)
    ensures SetFlight(SetFlight(rows, ticketNo, flightId), ticketNo, flightId)
         == SetFlight(rows, ticketNo, flightId)
  {
    var once := SetFlight(rows, ticketNo, flightId);
    var twice := SetFlight(once, ticketNo, flightId);
    SetFlightRewritesMatching(rows, ticketNo, flightId);
    SetFlightRewritesMatching(once, ticketNo, flightId);
    forall k | 0 <= k < |rows| ensures twice[k] == once[k] {
      if rows[k].ticketNo != ticketNo {
        assert once[k] == rows[k];
      }
    }
  }

  /** The UPDATE never writes `ticket_no`, so the same tickets have rows afterwards. */
  lemma {:induction false} SetFlightKeepsTickets(rows: seq<Leg>, ticketNo: string, flightId: int, other: string)
    ensures HasRowFor(SetFlight(rows, ticketNo, flightId), other) <==> HasRowFor(rows, other)
  {
    var r := SetFlight(rows, ticketNo, flightId);
    SetFlightRewritesMatching(rows, ticketNo, flightId);
    forall i | 0 <= i < |rows| ensures r[i].ticketNo == rows[i].ticketNo {
    }
    if HasRowFor(rows, other) {
      var i :| 0 <= i < |rows| && rows[i].ticketNo == other;
      assert r[i].ticketNo == other;
    }
    if HasRowFor(r, other) {
      var i :| 0 <= i < |r| && r[i].ticketNo == other;
      assert rows[i].ticketNo == other;
    }
  }

  /** An UPDATE whose WHERE clause matches no row leaves the table as it was. */
  lemma {:induction false} SetFlightWithoutMatch(rows: seq<Leg>, ticketNo: string, flightId: int)
    requires !HasRowFor(rows, ticketNo)
    ensures SetFlight(rows, ticketNo, flightId) == rows
  {
    var r := SetFlight(rows, ticketNo, flightId);
    SetFlightRewritesMatching(rows, ticketNo, flightId);
    forall k | 0 <= k < |rows| ensures r[k] == rows[k] {
      assert rows[k].ticketNo != ticketNo;
    }
  }
}
