/** The ticket lifecycle of `TicketController`: purchase (`store`), `confirm`,
    cancellation (`destroy`) and re-pricing (`update`), each a transition of
    the store, and the seat accounting they keep. Every lookup goes through
    the caller's own tickets, so someone else's ticket is not found. */
module TicketController {
  import opened Text
  import opened Inventory
  import opened Matches

  /** The fixed price of each category, in the smallest currency unit. */
  function Price(c: Category): (p: nat)
    ensures p > 0
  {
    match c
    case Vip => 2500000
    case Premium => 1500000
    case Regular => 750000
    case Economy => 350000
  }

  /** The category as the request spells it. */
  function CategoryName(c: Category): (s: string)
    ensures |s| > 0
  {
    match c
    case Vip => "vip"
    case Premium => "premium"
    case Regular => "regular"
    case Economy => "economy"
  }

  /** The seat section: the upper-cased first letter of the category name. */
  function SectionLetter(c: Category): (l: char)
    ensures l == match c
                 case Vip => 'V'
                 case Premium => 'P'
                 case Regular => 'R'
                 case Economy => 'E'
  {
    UpperChar(CategoryName(c)[0])
  }

  /** Distinct categories get distinct sections, so a seat label names its
      category. */
  lemma SectionIdentifiesCategory(c: Category, d: Category)
    requires SectionLetter(c) == SectionLetter(d)
    ensures c == d
  {
  }

  function Digit(n: nat): (ch: char)
    requires n < 10
    ensures '0' <= ch <= '9'
  {
    ('0' as int + n) as char
  }

  /** The decimal spelling of `n`. */
  function Decimal(n: nat): (s: string)
    ensures 0 < |s|
    ensures forall i :: 0 <= i < |s| ==> '0' <= s[i] <= '9'
  {
    if n < 10 then [Digit(n)] else Decimal(n / 10) + [Digit(n % 10)]
  }

  /** The two random draws of a seat label: a row in 1..50, a seat in 1..30. */
  datatype SeatDraw = SeatDraw(row: nat, seat: nat)

  /** The generated seat label: section letter, row, a dash, seat. */
  function SeatLabel(c: Category, d: SeatDraw): (s: string)
    ensures 4 <= |s| && s[0] == SectionLetter(c)
  {
    [SectionLetter(c)] + Decimal(d.row) + "-" + Decimal(d.seat)
  }

  /** A seat label is its section letter followed by digits with exactly
      one dash between the row and the seat. */
  lemma SeatLabelShape(c: Category, d: SeatDraw)
    ensures var s := SeatLabel(c, d);
            var dash := |Decimal(d.row)| + 1;
            && dash + 1 < |s| && s[dash] == '-'
            && (forall i :: 0 < i < |s| && i != dash ==> '0' <= s[i] <= '9')
  {
    var row, seat := Decimal(d.row), Decimal(d.seat);
    var s := SeatLabel(c, d);
    assert s == [SectionLetter(c)] + row + "-" + seat;
    forall i | 0 < i < |s| && i != |row| + 1
      ensures '0' <= s[i] <= '9'
    {
      if i <= |row| {
        assert s[i] == row[i - 1];
      } else {
        assert s[i] == seat[i - |row| - 2];
      }
    }
  }

  /** The caller's ticket `tid`; None when it is missing or someone else's. */
  function FindOwned(db: Db, user: UserId, tid: TicketId): (r: Option<Ticket>)
    ensures r.Some? <==> tid in db.tickets && db.tickets[tid].owner == user
    ensures r.Some? ==> r.value == db.tickets[tid]
  {
    if tid in db.tickets && db.tickets[tid].owner == user then Some(db.tickets[tid]) else None
  }

  /** The ticket row a purchase creates: pending, priced from the table,
      with a snapshot of the match's title and date. When `linksMatch` is
      false the row carries no match link, which is what the ticket model's
      mass-assignment list makes of the request as written. */
  function NewTicket(user: UserId, mid: MatchId, m: MatchRecord, category: Category, draw: SeatDraw,
                     linksMatch: bool): Ticket
  {
    Ticket(user, if linksMatch then Some(mid) else None, m.title, m.matchDate,
           Some(SeatLabel(category, draw)), category, Price(category), Pending)
  }

  /** A purchase, linking the new ticket to its match or not. */
  function Purchase(db: Db, user: UserId, mid: MatchId, category: Category, draw: SeatDraw,
                    linksMatch: bool): Step<TicketId>
  {
    if mid !in db.matches then Step(db, Err(NotFound))
    else
      var m := db.matches[mid];
      if m.status != Upcoming then Step(db, Err(InvalidState))
      else if !IsAvailable(m) then Step(db, Err(SeatsExhausted))
      else
        var tid := db.nextTicketId;
        Step(db.(matches := SeatTaken(db.matches, mid),
                 tickets := db.tickets[tid := NewTicket(user, mid, m, category, draw, linksMatch)],
                 nextTicketId := tid + 1),
             Ok(tid))
  }

  /** `store`: buy a ticket of `category` for match `mid`. */
  function Store(db: Db, user: UserId, mid: MatchId, category: Category, draw: SeatDraw): (s: Step<TicketId>)
    ensures s.result == Err(NotFound) <==> mid !in db.matches
    ensures s.result == Err(InvalidState) <==>
              mid in db.matches && db.matches[mid].status != Upcoming
    ensures s.result == Err(SeatsExhausted) <==>
              mid in db.matches && db.matches[mid].status == Upcoming && db.matches[mid].availableSeats <= 0
    ensures s.result.Err? ==> s.db == db
    ensures s.result.Ok? ==>
              var m := db.matches[mid];
              && s.result.value == db.nextTicketId
              && s.db.tickets == db.tickets[db.nextTicketId :=
                   Ticket(user, Some(mid), m.title, m.matchDate, Some(SeatLabel(category, draw)),
                          category, Price(category), Pending)]
              && s.db.matches == db.matches[mid := m.(availableSeats := m.availableSeats - 1)]
              && s.db.nextTicketId == db.nextTicketId + 1
              && s.db.nextMatchId == db.nextMatchId
  {
    Purchase(db, user, mid, category, draw, true)
  }

  /** The store after a purchase that passes every check, as one value. */
  lemma StoreSucceeds(db: Db, user: UserId, mid: MatchId, category: Category, draw: SeatDraw)
    requires mid in db.matches && db.matches[mid].status == Upcoming && db.matches[mid].availableSeats > 0
    ensures Store(db, user, mid, category, draw) ==
              Step(Db(SeatTaken(db.matches, mid),
                      db.tickets[db.nextTicketId := NewTicket(user, mid, db.matches[mid], category, draw, true)],
                      db.nextMatchId, db.nextTicketId + 1),
                   Ok(db.nextTicketId))
  {
  }

  /** `store` with the ticket's fillable list as written: the same, except
      that the new ticket is not linked to its match (the ticket's uuid and
      its `match` relation are taken to exist, as everywhere in this
      model). */
  function StoreAsWritten(db: Db, user: UserId, mid: MatchId, category: Category, draw: SeatDraw): (s: Step<TicketId>)
    ensures s.result == Store(db, user, mid, category, draw).result
    ensures s.result.Err? ==> s.db == db
    ensures s.result.Ok? ==>
              var linked := Store(db, user, mid, category, draw).db;
              var tid := s.result.value;
              tid in linked.tickets &&
              s.db == linked.(tickets := linked.tickets[tid := linked.tickets[tid].(matchId := None)])
  {
    Purchase(db, user, mid, category, draw, false)
  }

  /** `confirm`: a pending ticket becomes active. */
  function Confirm(db: Db, user: UserId, tid: TicketId): (s: Step<Ticket>)
    ensures s.result.Ok? <==> FindOwned(db, user, tid).Some? && db.tickets[tid].status == Pending
    ensures FindOwned(db, user, tid).None? ==> s.result == Err(NotFound)
    ensures FindOwned(db, user, tid).Some? && db.tickets[tid].status != Pending ==>
              s.result == Err(InvalidState)
    ensures s.result.Err? ==> s.db == db
    ensures s.db.matches == db.matches
    ensures s.result.Ok? ==>
              && s.result.value == db.tickets[tid].(status := Active)
              && s.db == db.(tickets := db.tickets[tid := s.result.value])
  {
    match FindOwned(db, user, tid)
    case None => Step(db, Err(NotFound))
    case Some(t) =>
      if t.status != Pending then Step(db, Err(InvalidState))
      else
        var confirmed := t.(status := Active);
        Step(db.(tickets := db.tickets[tid := confirmed]), Ok(confirmed))
  }

  /** `destroy`: cancel a pending or active ticket and give its seat back to
      its match, if it has one. */
  function Destroy(db: Db, user: UserId, tid: TicketId): (s: Step<()>)
    ensures s.result.Ok? <==> FindOwned(db, user, tid).Some? && IsLive(db.tickets[tid].status)
    ensures FindOwned(db, user, tid).None? ==> s.result == Err(NotFound)
    ensures FindOwned(db, user, tid).Some? && !IsLive(db.tickets[tid].status) ==>
              s.result == Err(InvalidState)
    ensures s.result.Err? ==> s.db == db
    ensures s.db.matches.Keys == db.matches.Keys
    ensures s.db.nextMatchId == db.nextMatchId && s.db.nextTicketId == db.nextTicketId
    ensures s.result.Ok? ==>
              var t := db.tickets[tid];
              && s.db.tickets == db.tickets[tid := t.(status := TicketStatus.Cancelled)]
              && (forall mid :: mid in db.matches && t.matchId != Some(mid) ==>
                    s.db.matches[mid] == db.matches[mid])
              && (forall mid :: mid in db.matches && t.matchId == Some(mid) ==>
                    s.db.matches[mid] == db.matches[mid].(availableSeats :=
                      Min(db.matches[mid].availableSeats + 1, db.matches[mid].totalSeats)))
  {
    match FindOwned(db, user, tid)
    case None => Step(db, Err(NotFound))
    case Some(t) =>
      if !IsLive(t.status) then Step(db, Err(InvalidState))
      else Step(Released(db, tid, t), Ok(()))
  }

  /** The store once ticket `tid`, currently `t`, is cancelled: its match,
      if it still has one, gets the seat back. */
  function Released(db: Db, tid: TicketId, t: Ticket): Db {
    Db(if t.matchId.Some? && t.matchId.value in db.matches then SeatReturned(db.matches, t.matchId.value)
       else db.matches,
       db.tickets[tid := t.(status := TicketStatus.Cancelled)],
       db.nextMatchId, db.nextTicketId)
  }

  /** The fields a ticket update may carry. */
  datatype TicketPatch = TicketPatch(seatNumber: Patch<Option<string>>, category: Patch<Category>)

  /** `update`: change the seat label or the category of a pending ticket;
      a new category brings its own price. */
  function Update(db: Db, user: UserId, tid: TicketId, patch: TicketPatch): (s: Step<Ticket>)
    ensures s.result.Ok? <==> FindOwned(db, user, tid).Some? && db.tickets[tid].status == Pending
    ensures FindOwned(db, user, tid).None? ==> s.result == Err(NotFound)
    ensures FindOwned(db, user, tid).Some? && db.tickets[tid].status != Pending ==>
              s.result == Err(InvalidState)
    ensures s.result.Err? ==> s.db == db
    ensures s.db.matches == db.matches
    ensures s.result.Ok? ==>
              var t := db.tickets[tid];
              var u := s.result.value;
              && s.db == db.(tickets := db.tickets[tid := u])
              && u.status == Pending && u.owner == t.owner && u.matchId == t.matchId
              && u.matchTitle == t.matchTitle && u.matchDate == t.matchDate
              && u.seatNumber == patch.seatNumber.Apply(t.seatNumber)
              && u.category == patch.category.Apply(t.category)
              && u.price == (if patch.category.Set? then Price(u.category) else t.price)
  {
    match FindOwned(db, user, tid)
    case None => Step(db, Err(NotFound))
    case Some(t) =>
      if t.status != Pending then Step(db, Err(InvalidState))
      else
        var updated := Edited(t, patch);
        Step(db.(tickets := db.tickets[tid := updated]), Ok(updated))
  }

  /** The ticket with the patch applied; a new category brings its price. */
  function Edited(t: Ticket, patch: TicketPatch): Ticket {
    var price := match patch.category
      case Keep => t.price
      case Set(c) => Price(c);
    t.(seatNumber := patch.seatNumber.Apply(t.seatNumber),
       category := patch.category.Apply(t.category),
       price := price)
  }

  // ----- the seat accounting -----

  lemma StorePreservesWellFormed(db: Db, user: UserId, mid: MatchId, category: Category, draw: SeatDraw, linksMatch: bool)
    requires WellFormed(db)
    ensures WellFormed(Purchase(db, user, mid, category, draw, linksMatch).db)
  {
  }

  /** A purchase moves one seat of its match from free to taken, and touches
      no other match, so the accounting still balances. */
  lemma StorePreservesBalanced(db: Db, user: UserId, mid: MatchId, category: Category, draw: SeatDraw)
    requires WellFormed(db) && Balanced(db)
    ensures Balanced(Store(db, user, mid, category, draw).db)
  {
    var s := Store(db, user, mid, category, draw);
    if s.result.Ok? {
      var tid := s.result.value;
      var ticket := s.db.tickets[tid];
      forall other | other in s.db.matches
        ensures s.db.matches[other].availableSeats + |Holders(s.db.tickets, other)|
                == s.db.matches[other].totalSeats
      {
        HoldersAfterInsert(db.tickets, tid, ticket, other);
      }
    }
  }

  lemma ConfirmPreservesInvariants(db: Db, user: UserId, tid: TicketId)
    requires WellFormed(db) && Balanced(db)
    ensures WellFormed(Confirm(db, user, tid).db) && Balanced(Confirm(db, user, tid).db)
  {
    var s := Confirm(db, user, tid);
    if s.result.Ok? {
      forall mid | mid in s.db.matches
        ensures s.db.matches[mid].availableSeats + |Holders(s.db.tickets, mid)|
                == s.db.matches[mid].totalSeats
      {
        HoldersUnchanged(db.tickets, tid, s.result.value, mid);
      }
    }
  }

  lemma UpdatePreservesInvariants(db: Db, user: UserId, tid: TicketId, patch: TicketPatch)
    requires WellFormed(db) && Balanced(db)
    ensures WellFormed(Update(db, user, tid, patch).db) && Balanced(Update(db, user, tid, patch).db)
  {
    var s := Update(db, user, tid, patch);
    if s.result.Ok? {
      forall mid | mid in s.db.matches
        ensures s.db.matches[mid].availableSeats + |Holders(s.db.tickets, mid)|
                == s.db.matches[mid].totalSeats
      {
        HoldersUnchanged(db.tickets, tid, s.result.value, mid);
      }
    }
  }

  /** On a balanced store a live ticket's match has a seat missing, so the
      clamp in the increment never cuts the returned seat. */
  lemma CancelNeverClamps(db: Db, tid: TicketId, mid: MatchId)
    requires WellFormed(db) && Balanced(db)
    requires tid in db.tickets && db.tickets[tid].matchId == Some(mid) && IsLive(db.tickets[tid].status)
    ensures mid in db.matches
    ensures db.matches[mid].availableSeats < db.matches[mid].totalSeats
    ensures Destroy(db, db.tickets[tid].owner, tid).db.matches[mid].availableSeats
            == db.matches[mid].availableSeats + 1
  {
    assert tid in Holders(db.tickets, mid);
  }

  /** Cancelling moves one seat of the ticket's match from taken to free. */
  lemma DestroyPreservesInvariants(db: Db, user: UserId, tid: TicketId)
    requires WellFormed(db) && Balanced(db)
    ensures WellFormed(Destroy(db, user, tid).db) && Balanced(Destroy(db, user, tid).db)
  {
    var s := Destroy(db, user, tid);
    if s.result.Ok? {
      var t := db.tickets[tid];
      var cancelled := t.(status := TicketStatus.Cancelled);
      if t.matchId.Some? {
        CancelNeverClamps(db, tid, t.matchId.value);
      }
      forall mid | mid in s.db.matches
        ensures s.db.matches[mid].availableSeats + |Holders(s.db.tickets, mid)|
                == s.db.matches[mid].totalSeats
      {
        if t.matchId == Some(mid) {
          HoldersAfterRelease(db.tickets, tid, cancelled, mid);
        } else {
          HoldersUnchanged(db.tickets, tid, cancelled, mid);
        }
      }
    }
  }

  /** Buying a ticket and then cancelling it puts every match back exactly
      as it was. */
  lemma PurchaseThenCancelRestores(db: Db, user: UserId, mid: MatchId, category: Category, draw: SeatDraw)
    requires WellFormed(db)
    requires Store(db, user, mid, category, draw).result.Ok?
    ensures var s := Store(db, user, mid, category, draw);
            var c := Destroy(s.db, user, s.result.value);
            c.result.Ok? && c.db.matches == db.matches
  {
    var s := Store(db, user, mid, category, draw);
    var c := Destroy(s.db, user, s.result.value);
    assert c.db.matches[mid] == db.matches[mid];
  }

  /** Cancelling twice: the second attempt is refused and changes nothing. */
  lemma CancelTwiceRefused(db: Db, user: UserId, tid: TicketId)
    requires Destroy(db, user, tid).result.Ok?
    ensures var again := Destroy(Destroy(db, user, tid).db, user, tid);
            again.result == Err(InvalidState) && again.db == Destroy(db, user, tid).db
  {
  }

  /** With the fillable list as written, a purchase takes a seat that no
      ticket accounts for, and cancelling that ticket succeeds without giving
      the seat back. */
  lemma AsWrittenPurchaseLeaksSeat(db: Db, user: UserId, mid: MatchId, category: Category, draw: SeatDraw)
    requires WellFormed(db) && Balanced(db)
    requires Store(db, user, mid, category, draw).result.Ok?
    ensures !Balanced(StoreAsWritten(db, user, mid, category, draw).db)
    ensures var s := StoreAsWritten(db, user, mid, category, draw);
            var c := Destroy(s.db, user, s.result.value);
            c.result.Ok? && c.db.matches[mid].availableSeats == db.matches[mid].availableSeats - 1
  {
    var s := StoreAsWritten(db, user, mid, category, draw);
    var tid := s.result.value;
    HoldersAfterInsert(db.tickets, tid, s.db.tickets[tid], mid);
  }

  // ----- sequences of ticket actions -----

  /** One request to the ticket controller. */
  datatype Action =
    | Buy(user: UserId, mid: MatchId, category: Category, draw: SeatDraw)
    | ConfirmTicket(user: UserId, tid: TicketId)
    | CancelTicket(user: UserId, tid: TicketId)
    | EditTicket(user: UserId, tid: TicketId, patch: TicketPatch)

  function Apply(db: Db, a: Action): Db {
    match a
    case Buy(u, mid, c, d) => Store(db, u, mid, c, d).db
    case ConfirmTicket(u, tid) => Confirm(db, u, tid).db
    case CancelTicket(u, tid) => Destroy(db, u, tid).db
    case EditTicket(u, tid, p) => Update(db, u, tid, p).db
  }

  function Run(db: Db, actions: seq<Action>): Db
    decreases |actions|
  {
    if actions == [] then db else Run(Apply(db, actions[0]), actions[1..])
  }

  /** Whatever sequence of purchases, confirmations, cancellations and
      edits is applied, the seat accounting balances: free seats plus seats
      held by tickets equal the capacity, no match is oversold and none has
      more free seats than its capacity. */
  lemma {:induction false} RunKeepsSeatsBalanced(db: Db, actions: seq<Action>)
    requires WellFormed(db) && Balanced(db)
    ensures WellFormed(Run(db, actions)) && Balanced(Run(db, actions))
    ensures forall mid :: mid in Run(db, actions).matches ==>
              |Holders(Run(db, actions).tickets, mid)| <= Run(db, actions).matches[mid].totalSeats
    decreases |actions|
  {
    if actions != [] {
      var next := Apply(db, actions[0]);
      match actions[0] {
        case Buy(u, mid, c, d) =>
          StorePreservesWellFormed(db, u, mid, c, d, true);
          StorePreservesBalanced(db, u, mid, c, d);
        case ConfirmTicket(u, tid) => ConfirmPreservesInvariants(db, u, tid);
        case CancelTicket(u, tid) => DestroyPreservesInvariants(db, u, tid);
        case EditTicket(u, tid, p) => UpdatePreservesInvariants(db, u, tid, p);
      }
      RunKeepsSeatsBalanced(next, actions[1..]);
    }
  }
}
