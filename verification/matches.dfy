/** The `FootballMatch` model: a match row whose `available_seats` counter is
    changed in place by a guarded decrement and a clamped increment. */
module Matches {
  import opened Text
  import opened Inventory

  /** `hasAvailableSeats`: the match still has a free seat. */
  predicate IsAvailable(m: MatchRecord) {
    m.availableSeats > 0
  }

  /** The counter after `decrementSeats(count)`, or None when the guard
      refuses because fewer than `count` seats are free. */
  function SeatsAfterDecrement(available: int, count: int): (r: Option<int>)
    ensures r.Some? <==> count <= available
    ensures r.Some? ==> r.value + count == available
    ensures r.Some? && 0 <= count ==> 0 <= r.value <= available
  {
    if available >= count then Some(available - count) else None
  }

  /** The counter after `incrementSeats(count)`: the increment is cut down to
      the seats missing from the capacity. */
  function SeatsAfterIncrement(available: int, total: int, count: int): (r: int)
    ensures r == Min(available + count, total)
    ensures 0 <= count && available <= total ==> available <= r <= total
    ensures 0 <= count && available == total ==> r == available
  {
    available + Min(count, total - available)
  }

  /** A successful decrement followed by an increment of the same amount
      restores the counter, as long as it started within the capacity. */
  lemma DecrementThenIncrement(available: int, total: int, count: int)
    requires available <= total && count <= available
    ensures SeatsAfterDecrement(available, count).Some?
    ensures SeatsAfterIncrement(SeatsAfterDecrement(available, count).value, total, count) == available
  {
  }

  /** The rows once match `mid` has run `decrementSeats(1)`. */
  function SeatTaken(rows: map<MatchId, MatchRecord>, mid: MatchId): map<MatchId, MatchRecord>
    requires mid in rows
  {
    var m := rows[mid];
    rows[mid := m.(availableSeats := SeatsAfterDecrement(m.availableSeats, 1).GetOr(m.availableSeats))]
  }

  /** The rows once match `mid` has run `incrementSeats(1)`. */
  function SeatReturned(rows: map<MatchId, MatchRecord>, mid: MatchId): map<MatchId, MatchRecord>
    requires mid in rows
  {
    var m := rows[mid];
    rows[mid := m.(availableSeats := SeatsAfterIncrement(m.availableSeats, m.totalSeats, 1))]
  }

  /** `scopeAvailable`: the matches that still have a free seat. */
  function ScopeAvailable(matches: map<MatchId, MatchRecord>): (r: map<MatchId, MatchRecord>)
    ensures forall mid :: mid in r <==> mid in matches && IsAvailable(matches[mid])
    ensures forall mid :: mid in r ==> r[mid] == matches[mid]
  {
    map mid | mid in matches && matches[mid].availableSeats > 0 :: matches[mid]
  }

  /** A match row as a mutable object. */
  class FootballMatch {
    /** The row's primary key, fixed at creation. */
    const id: MatchId
    var title: string
    var matchDate: Timestamp
    var venue: string
    var competition: string
    var homeTeam: string
    var awayTeam: string
    var totalSeats: int
    var availableSeats: int
    var status: MatchStatus

    /** The row's current contents. */
    function Record(): MatchRecord
      reads this
    {
      MatchRecord(title, matchDate, venue, competition, homeTeam, awayTeam,
                  totalSeats, availableSeats, status)
    }

    constructor (id: MatchId, rec: MatchRecord)
      ensures this.id == id && Record() == rec
    {
      this.id := id;
      title, matchDate, venue, competition := rec.title, rec.matchDate, rec.venue, rec.competition;
      homeTeam, awayTeam := rec.homeTeam, rec.awayTeam;
      totalSeats, availableSeats, status := rec.totalSeats, rec.availableSeats, rec.status;
    }

    function HasAvailableSeats(): (b: bool)
      reads this
      ensures b <==> IsAvailable(Record())
    {
      availableSeats > 0
    }

    /** Lowers the counter by `count` when at least that many seats are
        free; otherwise refuses and changes nothing. */
    method DecrementSeats(count: int) returns (ok: bool)
      modifies this
      ensures ok == SeatsAfterDecrement(old(availableSeats), count).Some?
      ensures Record() == old(Record()).(availableSeats :=
                SeatsAfterDecrement(old(availableSeats), count).GetOr(old(availableSeats)))
    {
      if availableSeats >= count {
        availableSeats := availableSeats - count;
        return true;
      }
      return false;
    }

    /** Raises the counter by `count`, but never past `totalSeats`. */
    method IncrementSeats(count: int)
      modifies this
      ensures Record() == old(Record()).(availableSeats :=
                SeatsAfterIncrement(old(availableSeats), old(totalSeats), count))
    {
      availableSeats := availableSeats + Min(count, totalSeats - availableSeats);
    }

    /** Overwrites the whole row (Eloquent's `update`). */
    method Overwrite(rec: MatchRecord)
      modifies this
      ensures Record() == rec
    {
      title, matchDate, venue, competition := rec.title, rec.matchDate, rec.venue, rec.competition;
      homeTeam, awayTeam := rec.homeTeam, rec.awayTeam;
      totalSeats, availableSeats, status := rec.totalSeats, rec.availableSeats, rec.status;
    }
  }
}
