/** The administrative side of `MatchController`: creating a match with a
    full counter, resizing it, refusing to delete it while tickets are live,
    and reporting how many seats are sold. */
module MatchController {
  import opened Text
  import opened Inventory

  /** Capacity of a match created without one (and the schema's default). */
  const DefaultSeats := 100
  /** The largest capacity the request rules accept. */
  const MaxSeats := 100000
  /** The schema's default venue, used when the request leaves it out. */
  const DefaultVenue := "Camp Nou"

  /** A request field that may be left out, sent as `null`, or given. */
  datatype Field<+T> = Absent | Null | Given(value: T)

  /** The venue the insert writes: the column default when the field is left
      out, nothing when it is `null` or empty (the request turns an empty
      string into `null`), otherwise the given text. */
  function StoredVenue(venue: Field<string>): (r: Option<string>)
    ensures r == None <==> venue.Null? || venue == Given("")
    ensures venue.Absent? ==> r == Some(DefaultVenue)
    ensures venue.Given? && venue.value != "" ==> r == Some(venue.value)
  {
    match venue
    case Absent => Some(DefaultVenue)
    case Null => None
    case Given(v) => if v == "" then None else Some(v)
  }

  predicate ValidCapacity(n: int) {
    1 <= n <= MaxSeats
  }

  /** The fields of a match-creation request. */
  datatype NewMatch = NewMatch(
    title: string,
    matchDate: Timestamp,
    venue: Field<string>,
    competition: string,
    homeTeam: string,
    awayTeam: string,
    totalSeats: Option<int>)

  /** `store`: create a match, every seat free and the status `upcoming`.
      The rules accept a `null` venue, but the `venue` column is NOT NULL,
      so such an insert is refused by the database. */
  function Store(db: Db, req: NewMatch): (s: Step<MatchId>)
    ensures s.result == Err(ValidationFailed) <==>
              req.totalSeats.Some? && !ValidCapacity(req.totalSeats.value)
    ensures s.result == Err(StorageFailed) <==>
              (req.totalSeats.None? || ValidCapacity(req.totalSeats.value)) &&
              (req.venue.Null? || req.venue == Given(""))
    ensures s.result.Err? ==> s.db == db
    ensures s.result.Ok? ==>
              var mid := s.result.value;
              var total := req.totalSeats.GetOr(DefaultSeats);
              var venue := if req.venue.Given? then req.venue.value else DefaultVenue;
              && mid == db.nextMatchId
              && s.db.nextMatchId == mid + 1 && s.db.nextTicketId == db.nextTicketId
              && s.db.tickets == db.tickets
              && s.db.matches == db.matches[mid := MatchRecord(req.title, req.matchDate,
                   venue, req.competition, req.homeTeam, req.awayTeam, total, total, Upcoming)]
  {
    if req.totalSeats.Some? && !ValidCapacity(req.totalSeats.value) then Step(db, Err(ValidationFailed))
    else if StoredVenue(req.venue).None? then Step(db, Err(StorageFailed))
    else
      var mid := db.nextMatchId;
      Step(db.(matches := db.matches[mid := Created(req)], nextMatchId := mid + 1), Ok(mid))
  }

  /** The row a creation request produces. */
  function Created(req: NewMatch): MatchRecord {
    var total := req.totalSeats.GetOr(DefaultSeats);
    MatchRecord(req.title, req.matchDate, StoredVenue(req.venue).GetOr(DefaultVenue), req.competition,
                req.homeTeam, req.awayTeam, total, total, Upcoming)
  }

  /** What `show` reports: the match and the seats sold. */
  datatype MatchStats = MatchStats(record: MatchRecord, ticketsSold: int)

  /** `show`: the match with its sold-seat count. */
  function Show(db: Db, mid: MatchId): (r: Result<MatchStats>)
    ensures r.Err? <==> mid !in db.matches
    ensures r.Err? ==> r.error == NotFound
    ensures r.Ok? ==> r.value.record == db.matches[mid]
    ensures r.Ok? ==> r.value.ticketsSold + db.matches[mid].availableSeats == db.matches[mid].totalSeats
  {
    if mid !in db.matches then Err(NotFound)
    else
      var m := db.matches[mid];
      Ok(MatchStats(m, m.totalSeats - m.availableSeats))
  }

  /** On a balanced store the sold count is the number of tickets holding a
      seat of the match. */
  lemma ShowCountsHolders(db: Db, mid: MatchId)
    requires Balanced(db) && mid in db.matches
    ensures Show(db, mid).Ok? && Show(db, mid).value.ticketsSold == |Holders(db.tickets, mid)|
  {
  }

  /** The free seats after the capacity changes from `total` to `newTotal`:
      the seats already sold stay sold, and the counter never goes below
      zero. */
  function ResizedAvailable(total: int, available: int, newTotal: int): (r: int)
    ensures 0 <= r
    ensures available <= total ==> r <= newTotal || newTotal < 0
    ensures total - available <= newTotal ==> newTotal - r == total - available
    ensures newTotal < total - available ==> r == 0
  {
    var sold := total - available;
    if newTotal - sold >= 0 then newTotal - sold else 0
  }

  /** The fields of a match update; each may be left out. */
  datatype MatchPatch = MatchPatch(
    title: Patch<string>,
    matchDate: Patch<Timestamp>,
    venue: Patch<string>,
    competition: Patch<string>,
    homeTeam: Patch<string>,
    awayTeam: Patch<string>,
    totalSeats: Patch<int>,
    status: Patch<MatchStatus>)

  /** The update changes the capacity. */
  predicate Resizes(m: MatchRecord, patch: MatchPatch) {
    patch.totalSeats.Set? && patch.totalSeats.value != m.totalSeats
  }

  /** `update`: overwrite the given fields; a new capacity recomputes the
      free seats so that the sold ones stay sold. */
  function Update(db: Db, mid: MatchId, patch: MatchPatch): (s: Step<MatchRecord>)
    ensures s.result == Err(NotFound) <==> mid !in db.matches
    ensures s.result == Err(ValidationFailed) <==>
              mid in db.matches && patch.totalSeats.Set? && !ValidCapacity(patch.totalSeats.value)
    ensures s.result.Err? ==> s.db == db
    ensures s.result.Ok? ==>
              var m := db.matches[mid];
              var r := s.result.value;
              && s.db == db.(matches := db.matches[mid := r])
              && r.title == patch.title.Apply(m.title)
              && r.matchDate == patch.matchDate.Apply(m.matchDate)
              && r.venue == patch.venue.Apply(m.venue)
              && r.competition == patch.competition.Apply(m.competition)
              && r.homeTeam == patch.homeTeam.Apply(m.homeTeam)
              && r.awayTeam == patch.awayTeam.Apply(m.awayTeam)
              && r.status == patch.status.Apply(m.status)
              && r.totalSeats == patch.totalSeats.Apply(m.totalSeats)
              && (!Resizes(m, patch) ==> r.availableSeats == m.availableSeats)
              && (Resizes(m, patch) ==>
                    r.availableSeats == ResizedAvailable(m.totalSeats, m.availableSeats, r.totalSeats))
  {
    if mid !in db.matches then Step(db, Err(NotFound))
    else if patch.totalSeats.Set? && !ValidCapacity(patch.totalSeats.value) then Step(db, Err(ValidationFailed))
    else
      var r := Patched(db.matches[mid], patch);
      Step(db.(matches := db.matches[mid := r]), Ok(r))
  }

  /** The match with the patch applied and its counter recomputed when the
      capacity changes. */
  function Patched(m: MatchRecord, patch: MatchPatch): MatchRecord {
    var available :=
      if Resizes(m, patch) then ResizedAvailable(m.totalSeats, m.availableSeats, patch.totalSeats.value)
      else m.availableSeats;
    MatchRecord(patch.title.Apply(m.title), patch.matchDate.Apply(m.matchDate),
                patch.venue.Apply(m.venue), patch.competition.Apply(m.competition),
                patch.homeTeam.Apply(m.homeTeam), patch.awayTeam.Apply(m.awayTeam),
                patch.totalSeats.Apply(m.totalSeats), available, patch.status.Apply(m.status))
  }

  /** `destroy`: delete a match that has no pending or active ticket; its
      remaining tickets go with it (the foreign key cascades). */
  function Destroy(db: Db, mid: MatchId): (s: Step<()>)
    ensures s.result == Err(NotFound) <==> mid !in db.matches
    ensures s.result.Ok? <==> mid in db.matches && LiveTickets(db.tickets, mid) == {}
    ensures mid in db.matches && LiveTickets(db.tickets, mid) != {} ==>
              s.result == Err(HasActiveTickets(|LiveTickets(db.tickets, mid)|))
    ensures s.result.Err? ==> s.db == db
    ensures s.result.Ok? ==>
              && s.db.matches == db.matches - {mid}
              && s.db.nextMatchId == db.nextMatchId && s.db.nextTicketId == db.nextTicketId
              && (forall tid :: tid in s.db.tickets <==>
                    tid in db.tickets && db.tickets[tid].matchId != Some(mid))
              && (forall tid :: tid in s.db.tickets ==> s.db.tickets[tid] == db.tickets[tid])
  {
    if mid !in db.matches then Step(db, Err(NotFound))
    else
      var live := |LiveTickets(db.tickets, mid)|;
      if live > 0 then Step(db, Err(HasActiveTickets(live)))
      else
        Step(db.(matches := db.matches - {mid}, tickets := TicketsWithout(db.tickets, mid)), Ok(()))
  }

  // ----- the seat accounting -----

  /** A new match has every seat free and no ticket pointing at it. */
  lemma StorePreservesInvariants(db: Db, req: NewMatch)
    requires WellFormed(db) && Balanced(db)
    ensures WellFormed(Store(db, req).db) && Balanced(Store(db, req).db)
  {
    var s := Store(db, req);
    if s.result.Ok? {
      assert Holders(db.tickets, db.nextMatchId) == {};
    }
  }

  /** Every update keeps each counter within its (possibly new) capacity. */
  lemma UpdatePreservesWellFormed(db: Db, mid: MatchId, patch: MatchPatch)
    requires WellFormed(db)
    ensures WellFormed(Update(db, mid, patch).db)
  {
  }

  /** An update keeps the accounting balanced as long as a new capacity
      still covers the seats already sold. */
  lemma UpdatePreservesBalanced(db: Db, mid: MatchId, patch: MatchPatch)
    requires WellFormed(db) && Balanced(db)
    requires mid in db.matches && patch.totalSeats.Set? ==>
               db.matches[mid].totalSeats - db.matches[mid].availableSeats <= patch.totalSeats.value
    ensures Balanced(Update(db, mid, patch).db)
  {
  }

  /** Shrinking a match below the seats already sold loses the accounting:
      the counter is clamped at zero while the tickets keep their seats. */
  lemma ShrinkBelowSoldUnbalances(db: Db, mid: MatchId, patch: MatchPatch)
    requires WellFormed(db) && Balanced(db) && mid in db.matches
    requires patch.totalSeats.Set? && ValidCapacity(patch.totalSeats.value)
    requires patch.totalSeats.value < db.matches[mid].totalSeats - db.matches[mid].availableSeats
    ensures Update(db, mid, patch).result.Ok?
    ensures !Balanced(Update(db, mid, patch).db)
  {
    var s := Update(db, mid, patch);
    assert s.db.matches[mid].availableSeats == 0;
    assert s.db.tickets == db.tickets;
  }

  /** Deleting a match takes its tickets with it, so no link dangles. */
  lemma DestroyPreservesWellFormed(db: Db, mid: MatchId)
    requires WellFormed(db)
    ensures WellFormed(Destroy(db, mid).db)
  {
  }

  /** Deleting a match removes it and only tickets pointing at it, so every
      other match keeps its seats and its holders. */
  lemma DestroyPreservesBalanced(db: Db, mid: MatchId)
    requires WellFormed(db) && Balanced(db)
    ensures Balanced(Destroy(db, mid).db)
  {
    var s := Destroy(db, mid);
    if s.result.Ok? {
      forall other | other in s.db.matches
        ensures Holders(s.db.tickets, other) == Holders(db.tickets, other)
      {
      }
    }
  }
}
