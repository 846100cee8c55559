/** The stored records of the ticketing backend (the `matches` and `tickets`
    tables), the result type shared by the controller actions, and the
    consistency conditions the seat inventory is meant to keep. */
module Inventory {
  import opened Text

  /** A field of a partial update: left alone, or overwritten. */
  datatype Patch<+T> = Keep | Set(value: T) {
    function Apply(current: T): T {
      match this
      case Keep => current
      case Set(v) => v
    }
  }

  type UserId = nat
  type MatchId = nat
  type TicketId = nat
  /** A point in time; only compared and copied, never interpreted. */
  type Timestamp = int

  datatype MatchStatus = Upcoming | Ongoing | Completed | Cancelled

  datatype Category = Vip | Premium | Regular | Economy

  datatype TicketStatus = Pending | Active | Used | Cancelled | Expired

  /** A row of the `matches` table (team logos are not modelled). */
  datatype MatchRecord = MatchRecord(
    title: string,
    matchDate: Timestamp,
    venue: string,
    competition: string,
    homeTeam: string,
    awayTeam: string,
    totalSeats: int,
    availableSeats: int,
    status: MatchStatus)

  /** A row of the `tickets` table. The link to the match is nullable; the
      title and date are a snapshot of the match taken at purchase time. */
  datatype Ticket = Ticket(
    owner: UserId,
    matchId: Option<MatchId>,
    matchTitle: string,
    matchDate: Timestamp,
    seatNumber: Option<string>,
    category: Category,
    price: nat,
    status: TicketStatus)

  /** The whole store: both tables and the next auto-increment key of each. */
  datatype Db = Db(
    matches: map<MatchId, MatchRecord>,
    tickets: map<TicketId, Ticket>,
    nextMatchId: MatchId,
    nextTicketId: TicketId)

  datatype Error =
    | NotFound
    | InvalidState
    | SeatsExhausted
    | ValidationFailed
    /** The database refused the row (a server error). */
    | StorageFailed
    | HasActiveTickets(count: nat)

  datatype Result<+T> = Ok(value: T) | Err(error: Error)

  /** The outcome of a controller action: the new store and the response. */
  datatype Step<+T> = Step(db: Db, result: Result<T>)

  /** A ticket in one of these states occupies a seat of its match. */
  predicate HoldsSeat(s: TicketStatus) {
    s == Pending || s == Active || s == Used
  }

  /** A ticket in one of these states blocks the deletion of its match. */
  predicate IsLive(s: TicketStatus) {
    s == Pending || s == Active
  }

  /** Ticket `t` occupies a seat of match `mid`. */
  predicate HoldsSeatOf(t: Ticket, mid: MatchId) {
    t.matchId == Some(mid) && HoldsSeat(t.status)
  }

  /** The tickets that occupy a seat of match `mid`. */
  function Holders(tickets: map<TicketId, Ticket>, mid: MatchId): set<TicketId> {
    set t | t in tickets && HoldsSeatOf(tickets[t], mid)
  }

  /** The tickets that would block the deletion of match `mid`. */
  function LiveTickets(tickets: map<TicketId, Ticket>, mid: MatchId): set<TicketId> {
    set t | t in tickets && tickets[t].matchId == Some(mid) && IsLive(tickets[t].status)
  }

  /** The tickets left once the rows pointing at match `mid` are deleted
      with it (the foreign key cascades). */
  function TicketsWithout(tickets: map<TicketId, Ticket>, mid: MatchId): map<TicketId, Ticket> {
    map tid | tid in tickets && tickets[tid].matchId != Some(mid) :: tickets[tid]
  }

  /** Structural soundness of the store: every seat counter within its
      bounds, every key below its auto-increment counter, and every ticket
      link pointing at an existing match (deleting a match deletes its
      tickets). */
  predicate WellFormed(db: Db) {
    && (forall mid :: mid in db.matches ==>
          0 <= db.matches[mid].availableSeats <= db.matches[mid].totalSeats)
    && (forall mid :: mid in db.matches ==> mid < db.nextMatchId)
    && (forall tid :: tid in db.tickets ==> tid < db.nextTicketId)
    && (forall tid :: tid in db.tickets && db.tickets[tid].matchId.Some? ==>
          db.tickets[tid].matchId.value in db.matches)
  }

  /** The seat accounting the purchase and cancellation logic intends: the
      free seats of a match plus the seats its tickets occupy make up its
      capacity. */
  predicate Balanced(db: Db) {
    forall mid :: mid in db.matches ==>
      db.matches[mid].availableSeats + |Holders(db.tickets, mid)| == db.matches[mid].totalSeats
  }

  /** Replacing a ticket by one that occupies a seat of `mid` exactly when
      the old one did leaves the holders of `mid` unchanged. */
  lemma HoldersUnchanged(tickets: map<TicketId, Ticket>, tid: TicketId, t: Ticket, mid: MatchId)
    requires tid in tickets
    requires HoldsSeatOf(tickets[tid], mid) == HoldsSeatOf(t, mid)
    ensures Holders(tickets[tid := t], mid) == Holders(tickets, mid)
  {
  }

  /** Adding a fresh ticket that occupies a seat of `mid` adds exactly that
      ticket to the holders of `mid` and to no other match's holders. */
  lemma HoldersAfterInsert(tickets: map<TicketId, Ticket>, tid: TicketId, t: Ticket, mid: MatchId)
    requires tid !in tickets
    ensures HoldsSeatOf(t, mid) ==>
              |Holders(tickets[tid := t], mid)| == |Holders(tickets, mid)| + 1
    ensures !HoldsSeatOf(t, mid) ==> Holders(tickets[tid := t], mid) == Holders(tickets, mid)
  {
    if HoldsSeatOf(t, mid) {
      assert Holders(tickets[tid := t], mid) == Holders(tickets, mid) + {tid};
    } else {
      assert Holders(tickets[tid := t], mid) == Holders(tickets, mid);
    }
  }

  /** Turning a ticket that occupies a seat of `mid` into one that occupies
      none removes exactly one holder of `mid`. */
  lemma HoldersAfterRelease(tickets: map<TicketId, Ticket>, tid: TicketId, t: Ticket, mid: MatchId)
    requires tid in tickets && HoldsSeatOf(tickets[tid], mid)
    requires !HoldsSeatOf(t, mid)
    ensures |Holders(tickets[tid := t], mid)| + 1 == |Holders(tickets, mid)|
  {
    assert Holders(tickets, mid) == Holders(tickets[tid := t], mid) + {tid};
  }

  // ----- single-row changes that keep the store well formed -----

  lemma MatchRowKeepsWellFormed(db: Db, mid: MatchId, row: MatchRecord)
    requires WellFormed(db) && mid in db.matches
    requires 0 <= row.availableSeats <= row.totalSeats
    ensures WellFormed(db.(matches := db.matches[mid := row]))
  {
  }

  lemma MatchInsertKeepsWellFormed(db: Db, row: MatchRecord)
    requires WellFormed(db)
    requires 0 <= row.availableSeats <= row.totalSeats
    ensures WellFormed(db.(matches := db.matches[db.nextMatchId := row], nextMatchId := db.nextMatchId + 1))
  {
  }

  lemma TicketRowKeepsWellFormed(db: Db, tid: TicketId, t: Ticket)
    requires WellFormed(db) && tid in db.tickets
    requires t.matchId.Some? ==> t.matchId.value in db.matches
    ensures WellFormed(db.(tickets := db.tickets[tid := t]))
  {
  }

  lemma TicketInsertKeepsWellFormed(db: Db, t: Ticket)
    requires WellFormed(db)
    requires t.matchId.Some? ==> t.matchId.value in db.matches
    ensures WellFormed(db.(tickets := db.tickets[db.nextTicketId := t], nextTicketId := db.nextTicketId + 1))
  {
  }

  lemma MatchDeleteKeepsWellFormed(db: Db, mid: MatchId)
    requires WellFormed(db)
    ensures WellFormed(db.(matches := db.matches - {mid}, tickets := TicketsWithout(db.tickets, mid)))
  {
  }
}
