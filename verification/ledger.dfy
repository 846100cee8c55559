/** The backend's state as objects: the match rows are `FootballMatch`
    objects whose seat counters the ticket actions change in place, the
    ticket rows a table the actions rewrite. Each controller action is a
    method whose effect is the corresponding transition of the store. */
module Ledger {
  import opened Text
  import opened Inventory
  import opened Matches
  import TicketController
  import MatchController

  class Ledger {
    var matches: map<MatchId, FootballMatch>
    var tickets: map<TicketId, Ticket>
    var nextMatchId: MatchId
    var nextTicketId: TicketId
    /** The rows the match objects hold. */
    ghost var records: map<MatchId, MatchRecord>

    /** The store the objects currently hold. */
    ghost function Snapshot(): Db
      reads this
    {
      Db(records, tickets, nextMatchId, nextTicketId)
    }

    /** Every key has its own match object (the one whose primary key it
        is), holding that key's row, and the store is well formed. */
    ghost predicate Valid()
      reads this, matches.Values
    {
      && matches.Keys == records.Keys
      && (forall mid :: mid in matches ==> matches[mid].id == mid && matches[mid].Record() == records[mid])
      && WellFormed(Snapshot())
    }

    constructor ()
      ensures Valid()
      ensures Snapshot() == Db(map[], map[], 0, 0)
      ensures Balanced(Snapshot())
    {
      matches, tickets := map[], map[];
      nextMatchId, nextTicketId := 0, 0;
      records := map[];
    }

    // ----- single-row changes -----

    /** Runs `decrementSeats(1)` on match `mid`. */
    method TakeSeat(mid: MatchId)
      requires Valid() && mid in matches
      modifies this, matches[mid]
      ensures Valid()
      ensures records == SeatTaken(old(records), mid)
      ensures matches == old(matches) && tickets == old(tickets)
      ensures nextMatchId == old(nextMatchId) && nextTicketId == old(nextTicketId)
    {
      var m := matches[mid];
      ghost var row := records[mid];
      row := row.(availableSeats := SeatsAfterDecrement(row.availableSeats, 1).GetOr(row.availableSeats));
      ghost var before := Snapshot();
      MatchRowKeepsWellFormed(before, mid, row);
      records := records[mid := row];
      var ok := m.DecrementSeats(1);
      assert Snapshot() == before.(matches := before.matches[mid := row]);
    }

    /** Runs `incrementSeats(1)` on match `mid`: one seat back, never past
        the capacity. */
    method ReturnSeat(mid: MatchId)
      requires Valid() && mid in matches
      modifies this, matches[mid]
      ensures Valid()
      ensures records == SeatReturned(old(records), mid)
      ensures matches == old(matches) && tickets == old(tickets)
      ensures nextMatchId == old(nextMatchId) && nextTicketId == old(nextTicketId)
    {
      var m := matches[mid];
      ghost var row := records[mid];
      row := row.(availableSeats := SeatsAfterIncrement(row.availableSeats, row.totalSeats, 1));
      ghost var before := Snapshot();
      MatchRowKeepsWellFormed(before, mid, row);
      records := records[mid := row];
      m.IncrementSeats(1);
      assert Snapshot() == before.(matches := before.matches[mid := row]);
    }

    /** Stores a new match row under the next key, as a new object. */
    method InsertMatch(row: MatchRecord) returns (mid: MatchId)
      requires Valid()
      requires 0 <= row.availableSeats <= row.totalSeats
      modifies this
      ensures Valid()
      ensures mid == old(nextMatchId)
      ensures records == old(records)[mid := row] && nextMatchId == mid + 1
      ensures tickets == old(tickets) && nextTicketId == old(nextTicketId)
    {
      ghost var before := Snapshot();
      MatchInsertKeepsWellFormed(before, row);
      mid := nextMatchId;
      var m := new FootballMatch(mid, row);
      matches := matches[mid := m];
      records := records[mid := row];
      nextMatchId := mid + 1;
      assert Snapshot() == before.(matches := before.matches[mid := row], nextMatchId := mid + 1);
    }

    /** Deletes match `mid` and, with it, the ticket rows pointing at it. */
    method RemoveMatch(mid: MatchId)
      requires Valid()
      modifies this
      ensures Valid()
      ensures records == old(records) - {mid} && tickets == TicketsWithout(old(tickets), mid)
      ensures nextMatchId == old(nextMatchId) && nextTicketId == old(nextTicketId)
    {
      ghost var before := Snapshot();
      MatchDeleteKeepsWellFormed(before, mid);
      matches := matches - {mid};
      records := records - {mid};
      tickets := TicketsWithout(tickets, mid);
      assert Snapshot() == before.(matches := before.matches - {mid}, tickets := TicketsWithout(before.tickets, mid));
    }

    /** Stores a new ticket row under the next key. */
    method InsertTicket(t: Ticket) returns (tid: TicketId)
      requires Valid()
      requires t.matchId.Some? ==> t.matchId.value in matches
      modifies this
      ensures Valid()
      ensures tid == old(nextTicketId)
      ensures tickets == old(tickets)[tid := t] && nextTicketId == tid + 1
      ensures matches == old(matches) && records == old(records) && nextMatchId == old(nextMatchId)
    {
      ghost var before := Snapshot();
      TicketInsertKeepsWellFormed(before, t);
      tid := nextTicketId;
      tickets := tickets[tid := t];
      nextTicketId := tid + 1;
      assert Snapshot() == before.(tickets := before.tickets[tid := t], nextTicketId := tid + 1);
    }

    /** Overwrites the existing ticket row `tid`. */
    method PutTicket(tid: TicketId, t: Ticket)
      requires Valid() && tid in tickets
      requires t.matchId.Some? ==> t.matchId.value in matches
      modifies this
      ensures Valid()
      ensures tickets == old(tickets)[tid := t]
      ensures matches == old(matches) && records == old(records)
      ensures nextMatchId == old(nextMatchId) && nextTicketId == old(nextTicketId)
    {
      ghost var before := Snapshot();
      TicketRowKeepsWellFormed(before, tid, t);
      tickets := tickets[tid := t];
      assert Snapshot() == before.(tickets := before.tickets[tid := t]);
    }

    // ----- MatchController -----

    method CreateMatch(req: MatchController.NewMatch) returns (r: Result<MatchId>)
      requires Valid()
      modifies this
      ensures Valid()
      ensures var s := MatchController.Store(old(Snapshot()), req);
              Snapshot() == s.db && r == s.result
      ensures Balanced(old(Snapshot())) ==> Balanced(Snapshot())
    {
      ghost var before := Snapshot();
      if req.totalSeats.Some? && !MatchController.ValidCapacity(req.totalSeats.value) {
        return Err(ValidationFailed);
      }
      if MatchController.StoredVenue(req.venue).None? {
        return Err(StorageFailed);
      }
      var mid := InsertMatch(MatchController.Created(req));
      r := Ok(mid);
      assert Snapshot() == MatchController.Store(before, req).db;
      assert Balanced(before) ==> Balanced(Snapshot()) by {
        if Balanced(before) {
          MatchController.StorePreservesInvariants(before, req);
        }
      }
    }

    method ShowMatch(mid: MatchId) returns (r: Result<MatchController.MatchStats>)
      requires Valid()
      ensures r == MatchController.Show(Snapshot(), mid)
    {
      if mid !in matches {
        return Err(NotFound);
      }
      var m := matches[mid];
      r := Ok(MatchController.MatchStats(m.Record(), m.totalSeats - m.availableSeats));
    }

    method UpdateMatch(mid: MatchId, patch: MatchController.MatchPatch) returns (r: Result<MatchRecord>)
      requires Valid()
      modifies this, matches.Values
      ensures Valid()
      ensures var s := MatchController.Update(old(Snapshot()), mid, patch);
              Snapshot() == s.db && r == s.result
    {
      if mid !in matches {
        return Err(NotFound);
      }
      if patch.totalSeats.Set? && !MatchController.ValidCapacity(patch.totalSeats.value) {
        return Err(ValidationFailed);
      }
      var m := matches[mid];
      var row := MatchController.Patched(m.Record(), patch);
      MatchRowKeepsWellFormed(Snapshot(), mid, row);
      records := records[mid := row];
      m.Overwrite(row);
      r := Ok(row);
    }

    method DestroyMatch(mid: MatchId) returns (r: Result<()>)
      requires Valid()
      modifies this
      ensures Valid()
      ensures var s := MatchController.Destroy(old(Snapshot()), mid);
              Snapshot() == s.db && r == s.result
      ensures Balanced(old(Snapshot())) ==> Balanced(Snapshot())
    {
      ghost var before := Snapshot();
      if mid !in matches {
        return Err(NotFound);
      }
      var live := |LiveTickets(tickets, mid)|;
      if live > 0 {
        return Err(HasActiveTickets(live));
      }
      RemoveMatch(mid);
      r := Ok(());
      assert Snapshot() == MatchController.Destroy(before, mid).db;
      assert Balanced(before) ==> Balanced(Snapshot()) by {
        if Balanced(before) {
          MatchController.DestroyPreservesBalanced(before, mid);
        }
      }
    }

    // ----- TicketController -----

    method ShowTicket(user: UserId, tid: TicketId) returns (r: Option<Ticket>)
      requires Valid()
      ensures r == TicketController.FindOwned(Snapshot(), user, tid)
    {
      if tid in tickets && tickets[tid].owner == user {
        return Some(tickets[tid]);
      }
      return None;
    }

    method Purchase(user: UserId, mid: MatchId, category: Category, draw: TicketController.SeatDraw)
      returns (r: Result<TicketId>)
      requires Valid()
      modifies this, matches.Values
      ensures Valid()
      ensures var s := TicketController.Store(old(Snapshot()), user, mid, category, draw);
              Snapshot() == s.db && r == s.result
      ensures Balanced(old(Snapshot())) ==> Balanced(Snapshot())
    {
      ghost var before := Snapshot();
      if mid !in matches {
        return Err(NotFound);
      }
      var m := matches[mid];
      if m.status != Upcoming {
        return Err(InvalidState);
      }
      if !m.HasAvailableSeats() {
        return Err(SeatsExhausted);
      }
      var tid := Sell(user, mid, category, draw);
      r := Ok(tid);
    }

    /** The body of a purchase that passed every check: insert the pending
        ticket, then take its seat. */
    method Sell(user: UserId, mid: MatchId, category: Category, draw: TicketController.SeatDraw)
      returns (tid: TicketId)
      requires Valid() && mid in matches
      requires records[mid].status == Upcoming && records[mid].availableSeats > 0
      modifies this, matches[mid]
      ensures Valid()
      ensures var s := TicketController.Store(old(Snapshot()), user, mid, category, draw);
              Snapshot() == s.db && s.result == Ok(tid)
      ensures Balanced(old(Snapshot())) ==> Balanced(Snapshot())
    {
      ghost var before := Snapshot();
      TicketController.StoreSucceeds(before, user, mid, category, draw);
      var row := matches[mid].Record();
      tid := InsertTicket(TicketController.NewTicket(user, mid, row, category, draw, true));
      TakeSeat(mid);
      assert Snapshot() == TicketController.Store(before, user, mid, category, draw).db;
      assert Balanced(before) ==> Balanced(Snapshot()) by {
        if Balanced(before) {
          TicketController.StorePreservesBalanced(before, user, mid, category, draw);
        }
      }
    }

    method Confirm(user: UserId, tid: TicketId) returns (r: Result<Ticket>)
      requires Valid()
      modifies this
      ensures Valid()
      ensures var s := TicketController.Confirm(old(Snapshot()), user, tid);
              Snapshot() == s.db && r == s.result
      ensures Balanced(old(Snapshot())) ==> Balanced(Snapshot())
    {
      ghost var before := Snapshot();
      if !(tid in tickets && tickets[tid].owner == user) {
        return Err(NotFound);
      }
      var t := tickets[tid];
      if t.status != Pending {
        return Err(InvalidState);
      }
      var confirmed := t.(status := Active);
      PutTicket(tid, confirmed);
      r := Ok(confirmed);
      assert Snapshot() == TicketController.Confirm(before, user, tid).db;
      assert Balanced(before) ==> Balanced(Snapshot()) by {
        if Balanced(before) {
          TicketController.ConfirmPreservesInvariants(before, user, tid);
        }
      }
    }

    method Cancel(user: UserId, tid: TicketId) returns (r: Result<()>)
      requires Valid()
      modifies this, matches.Values
      ensures Valid()
      ensures var s := TicketController.Destroy(old(Snapshot()), user, tid);
              Snapshot() == s.db && r == s.result
      ensures Balanced(old(Snapshot())) ==> Balanced(Snapshot())
    {
      ghost var before := Snapshot();
      if !(tid in tickets && tickets[tid].owner == user) {
        return Err(NotFound);
      }
      var t := tickets[tid];
      if !IsLive(t.status) {
        return Err(InvalidState);
      }
      Refund(tid);
      r := Ok(());
      assert Snapshot() == TicketController.Destroy(before, user, tid).db;
      assert Balanced(before) ==> Balanced(Snapshot()) by {
        if Balanced(before) {
          TicketController.DestroyPreservesInvariants(before, user, tid);
        }
      }
    }

    /** The body of a cancellation that passed every check: give the seat
        back to the ticket's match, if it has one, then mark the ticket
        cancelled. */
    method Refund(tid: TicketId)
      requires Valid() && tid in tickets
      modifies this, matches.Values
      ensures Valid()
      ensures Snapshot() == TicketController.Released(old(Snapshot()), tid, old(tickets[tid]))
    {
      var t := tickets[tid];
      if t.matchId.Some? && t.matchId.value in matches {
        ReturnSeat(t.matchId.value);
      }
      PutTicket(tid, t.(status := TicketStatus.Cancelled));
    }

    method UpdateTicket(user: UserId, tid: TicketId, patch: TicketController.TicketPatch)
      returns (r: Result<Ticket>)
      requires Valid()
      modifies this
      ensures Valid()
      ensures var s := TicketController.Update(old(Snapshot()), user, tid, patch);
              Snapshot() == s.db && r == s.result
      ensures Balanced(old(Snapshot())) ==> Balanced(Snapshot())
    {
      ghost var before := Snapshot();
      if !(tid in tickets && tickets[tid].owner == user) {
        return Err(NotFound);
      }
      var t := tickets[tid];
      if t.status != Pending {
        return Err(InvalidState);
      }
      var updated := TicketController.Edited(t, patch);
      PutTicket(tid, updated);
      r := Ok(updated);
      assert Snapshot() == TicketController.Update(before, user, tid, patch).db;
      assert Balanced(before) ==> Balanced(Snapshot()) by {
        if Balanced(before) {
          TicketController.UpdatePreservesInvariants(before, user, tid, patch);
        }
      }
    }
  }
}
