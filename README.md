# Ticket rebooking, modelled in Dafny

The customer-support assistant can move a passenger's ticket to another
flight with `update_ticket_to_new_flight(ticket_no, new_flight_id)`. The
function reads the signed-in passenger's id from the run configuration. It
then looks up the new flight in `flights`, parses that flight's scheduled
departure, and checks that `ticket_flights` has a row for the ticket. It
checks that `tickets` pairs the ticket with the passenger. Finally it
rewrites `flight_id` on every row of the ticket in `ticket_flights` and in
`boarding_passes`, and commits. Any exception inside the transaction rolls
it back and is reported as a string.

The model has two modules.

- `Storage` (`storage.dfy`) holds the four tables as sequences of rows. The
  three SELECT statements become lookups: `FlightById`, `HasRowFor`
  and `HasTicket`. The UPDATE statement is given twice. `SetFlight` is the
  specification of the table after the update, and the lemmas beside it
  state what that table holds. `ExecuteUpdate` rewrites the matching rows
  one by one, and its contract proves it yields `SetFlight`.
- `Rebooking` (`rebooking.dfy`) holds the operation itself.
  - `Outcome` names the six ways a call ends. `Outcome.Text` gives the exact
    string the code returns or raises for each.
  - `Rebook` is the specification of a whole call. It maps the tables before
    the call to the outcome and the tables after it.
  - `Database` is a class holding the tables as this connection sees them,
    plus the last committed state. It has commit and rollback.
    `Database.UpdateTicketToNewFlight` runs the steps in the code's order.
    Its contract ties its outcome and its new state to `Rebook`, so a write
    undone by rollback is part of what it proves.
  - The lemmas state what `Rebook` promises: error order, nothing changed on
    failure, the rows rewritten on success, all-or-nothing, idempotence, and
    the boarding-pass / flight-assignment agreement.

What the function takes from outside becomes a parameter:

- The passenger id is an `Option<string>`. The code calls `ensure_config()`
  and `sqlite3.connect(db)`, but the file neither imports `ensure_config`
  nor defines `db`. The model therefore takes the id from the caller and
  the database as the object's state.
- `Env` holds three things. The first is a parser for `scheduled_departure`,
  which yields seconds or an exception text. The second is the current
  time. The third is an optional storage `Fault`, which says which SQL
  statement raises and with what text.
- Integers in the model are unbounded, as in Python. SQLite stores them
  in 64 bits, so binding a `new_flight_id` outside that range raises an
  `OverflowError` inside the transaction. `Rebook` and the method report it
  through the `except` path, before the flight query runs.

In four places the code behaves otherwise than its docstring or a reader
might expect; the model follows the code:

- A missing passenger id is raised as a `ValueError` outside the
  transaction; it is not returned as an error value. `Outcome.Raises` marks
  this outcome.
- The ownership check asks for a `tickets` row with both the ticket number
  and the passenger id. A ticket that has a `ticket_flights` row but no
  `tickets` row at all is therefore reported as "not the owner" too.
- The UPDATEs rewrite every matching row, which may be none or several.
  They are not "exactly two row mutations". A ticket with no boarding pass
  is rebooked all the same.
- The three-hour departure rule is commented out. The time until departure
  is computed and then not used.

## Model

| member | source | states |
|---|---|---|
| `Storage.FlightById` | src/tools/test.py:26-32 | the lookup finds nothing exactly when no `flights` row has the id; what it finds is a row of the table with that id |
| `Storage.HasRowFor` | src/tools/test.py:48-53 | the lookup reports a row exactly when some row of the table has the ticket number; it serves `ticket_flights` and, in the lemmas, `boarding_passes` |
| `Storage.HasTicket` | src/tools/test.py:56-62 | the lookup reports a row exactly when some `tickets` row pairs the ticket number with the passenger id |
| `Storage.Reassign` | src/tools/test.py:65-74 | the SET leaves a row's ticket number alone, turns a row of the ticket into that ticket on the new flight, and leaves any other row as it was |
| `Storage.SetFlight` | src/tools/test.py:65-74 | `UPDATE ... SET flight_id = ? WHERE ticket_no = ?` adds no row to the table and removes none |
| `Storage.SetFlightRewritesMatching` | src/tools/test.py:65-74 | after the UPDATE every row of the ticket carries the new flight, and every other row is unchanged and in its old place |
| `Storage.ExecuteUpdate` | src/tools/test.py:65-74 | rewriting the matching rows one at a time yields exactly the table the UPDATE specifies |
| `Storage.SetFlightIdempotent` | src/tools/test.py:65-74 | running the same UPDATE twice leaves the table as running it once |
| `Storage.SetFlightKeepsTickets` | src/tools/test.py:65-74 | the UPDATE never writes `ticket_no`, so a ticket has a row after it exactly when it had one before |
| `Storage.SetFlightWithoutMatch` | src/tools/test.py:71-74 | an UPDATE that matches no row, such as that of a ticket with no boarding pass, leaves the table unchanged |
| `Rebooking.Outcome.Text` | src/tools/test.py:19-82 | the strings at lines 19, 32, 53, 62, 78 and 82; the success string belongs to success alone, and a string starts with `Error updating ticket: ` exactly when the `except` clause produced it |
| `Rebooking.PassengerConfigured` | src/tools/test.py:17-18 | an id is refused exactly when it is absent or empty, the two falsy values a string id can take |
| `Rebooking.Rebook` | src/tools/test.py:5-86 | the whole call: `flights` and `tickets` are never touched, no table gains or loses a row, and every outcome other than success leaves all tables as they were |
| `Rebooking.PassesMatchAssignments` | src/tools/test.py:65-74 | the invariant the two UPDATEs keep: each boarding pass equals a flight assignment of its ticket, so every ticket with a boarding pass has a flight assignment |
| `Rebooking.MissingPassengerRefusedFirst` | src/tools/test.py:15-19 | an absent or empty passenger id, and nothing else, raises `No passenger ID configured.`; it is refused before any statement runs or can fail, and no table changes |
| `Rebooking.UnknownFlightReportedFirst` | src/tools/test.py:26-32 | `Invalid new flight ID provided.` is returned exactly when the id is set, the flight query does not fail, and no `flights` row has the id, whatever the ticket tables hold; no table changes |
| `Rebooking.MissingTicketReportedBeforeOwnership` | src/tools/test.py:48-53 | the ticket-not-found string is returned exactly when the flight was accepted and no `ticket_flights` row has the ticket, whoever owns it; no table changes |
| `Rebooking.ForeignTicketRefused` | src/tools/test.py:56-62 | the not-owner string naming both ids is returned exactly when flight and ticket were found and no `tickets` row pairs the ticket with the passenger; no table changes |
| `Rebooking.SucceedsExactlyWhenChecksPass` | src/tools/test.py:15-78 | the call succeeds if and only if the id is set, the flight exists and its departure parses, the ticket has a row, the passenger owns it, and no statement fails |
| `Rebooking.OversizedFlightIdFailsOnBinding` | src/tools/test.py:26-29 | a flight id outside the 64-bit range ends on the `except` path with Python's overflow message, and nothing changes |
| `Rebooking.UnparseableDepartureReported` | src/tools/test.py:38-43 | a departure that does not parse ends on the `except` path with the parser's message as its cause, and nothing changes |
| `Rebooking.ReachedFaultReported` | src/tools/test.py:26-82 | any statement that the call reaches and that raises ends on the `except` path with that exception's text as its cause, and nothing changes |
| `Rebooking.ErrorUpdatingHasCause` | src/tools/test.py:80-82 | the `except` path reports only an oversized id, an unparseable departure, or a reached statement that raised, each with its own text |
| `Rebooking.FaultBetweenUpdatesUndoesFirst` | src/tools/test.py:65-82 | an exception from the `boarding_passes` UPDATE, raised after `ticket_flights` was rewritten, is reported with its cause and leaves the tables as before the call |
| `Rebooking.AllOrNothing` | src/tools/test.py:65-82 | after any call either no table changed or both ticket tables were rewritten for the ticket and nothing else changed |
| `Rebooking.SuccessRebooksEveryRow` | src/tools/test.py:65-78 | on success every row of the ticket in both tables carries the new flight, other rows keep their values, no table gains or loses rows, and `flights` and `tickets` are untouched |
| `Rebooking.SucceedsWithoutBoardingPasses` | src/tools/test.py:65-78 | a ticket that passes every check but has no boarding pass is still rebooked, and `boarding_passes` stays unchanged |
| `Rebooking.ImminentDepartureAccepted` | src/tools/test.py:37-45 | with the three-hour rule disabled, a flight leaving within three hours of now, or already gone, is accepted when the other checks pass |
| `Rebooking.RebookingIsIdempotent` | src/tools/test.py:65-78 | repeating a successful rebooking succeeds again and leaves the same tables as the first call |
| `Rebooking.RebookedTicketAgrees` | src/tools/test.py:65-74 | after success every boarding pass of the ticket matches one of its flight assignments, even if they disagreed before |
| `Rebooking.RebookingPreservesAgreement` | src/tools/test.py:65-82 | if every boarding pass matched a flight assignment of its ticket before a call, the same holds after it, whatever the outcome |
| `Rebooking.ExampleRebooking` | src/tools/test.py:65-78 | ticket N3J2LG of passenger 3442 587242 moves from flight 19250 to 19251, and both of its rows read 19251 afterwards |
| `Rebooking.Database.constructor` | src/tools/test.py:21-22 | a freshly opened database has no open transaction and holds the given tables |
| `Rebooking.Database.CommitTransaction` | src/tools/test.py:77 | commit makes the current tables the committed state |
| `Rebooking.Database.Rollback` | src/tools/test.py:81 | rollback restores the committed state and keeps it |
| `Rebooking.Database.Abort` | src/tools/test.py:80-82 | the `except` clause rolls back and returns the exception's text as its cause |
| `Rebooking.Database.UpdateTicketToNewFlight` | src/tools/test.py:5-86 | the call runs the checks and writes in the code's order; its outcome and the tables afterwards are those `Rebook` gives for the tables before it; no transaction is left open; any failure leaves the tables as they were |

## Left out

- SQLite connection and cursor handling, including the `finally` that closes both (src/tools/test.py:21-22, 84-86). The model keeps only the commit and rollback effects.
- Timezone and `datetime` arithmetic. The parse of `scheduled_departure` is a caller-supplied function that yields seconds or an exception text. The float `total_seconds` becomes whole seconds; it only feeds the disabled rule.
- Exceptions are modelled at statement level. Exactly one statement raises, or none does, and a raising statement writes nothing (SQLite statements are atomic). Constraint violations raised by the storage engine, such as a duplicate key after an UPDATE, appear only as such an injected fault.
- Flight ids beyond SQLite's 64-bit range are modelled only where they are bound, in the flight query. Row values in the tables are not range-checked, because the storage engine stores them.
- Storage.FlightById: returns a row with the id, not necessarily the first in any order, because a SELECT without ORDER BY promises no order.
- Columns the operation neither reads nor writes, such as fares and seat numbers, are not part of the rows.
- Passenger ids of types other than strings: the model checks only absence and the empty string, the falsy values a string id can take.
- `src/load_config.py`, which sets environment variables, reads YAML and builds LLM clients. It is I/O with no logic of its own.
- `src/tools/tools_lookup_policy.py` and `Notebooks/tools/tools_lookup_policy.py`. Each is a single vector-store query whose results are joined with blank lines.
- Concurrent rebookings and isolation levels: the code does not express them, and the model is sequential.
