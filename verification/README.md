# FC Barcelona ticketing and squad pages — a Dafny model

This project models the core of a small football-club site. The Laravel
backend sells tickets for matches. Its seat inventory is one counter per
match, `available_seats`:

- `FootballMatch` lowers the counter with a guarded decrement and raises it
  with an increment clamped at the capacity.
- `TicketController` buys (`store`), confirms, cancels (`destroy`) and edits
  (`update`) the caller's tickets, taking and returning seats.
- `MatchController` creates, shows, resizes and deletes matches.

The front end has two pieces of pure logic:

- the squad page's position badges and its filter and search
  (`src/players.js`);
- the `truncateText` helper (`src/script.js`).

The backend is modelled twice:

- **As values.** `Inventory.Db` holds both tables and their auto-increment
  counters. Each controller action is a function from a `Db` to a
  `Step(db, result)`. The error responses are the `Err` cases: a missing or
  foreign ticket is `NotFound`, a wrong status is `InvalidState`, and so on.
- **As objects.** `Ledger.Ledger` keeps the match rows as `FootballMatch`
  objects and changes their counters in place. Each of its methods is
  proved to perform exactly the transition the value model describes.

The seat accounting the code intends is `Inventory.Balanced`: for every
match, the free seats plus the tickets holding a seat (pending, active or
used) equal the capacity. `Inventory.WellFormed` states the structural
side: every counter lies within `0..total_seats`, and every ticket link
points at an existing match.

Modules:

| file | module | models |
|---|---|---|
| `text.dfy` | `Text` | `Option`; ASCII case mapping; `includes`; JavaScript `trim` |
| `inventory.dfy` | `Inventory` | the `matches` and `tickets` rows, the store, the invariants |
| `matches.dfy` | `Matches` | `FootballMatch`: the seat counter and its scopes |
| `ticket_controller.dfy` | `TicketController` | the ticket lifecycle, as values |
| `match_controller.dfy` | `MatchController` | the match administration, as values |
| `ledger.dfy` | `Ledger` | both controllers acting on mutable match objects |
| `players.dfy` | `Players` | badges, position filter, search, and the page state |
| `script.dfy` | `Script` | `truncateText` |

Where the specification and the code disagree, the model follows the code:

- **The ticket → match link is nullable.** The specification says a ticket
  references exactly one match. The code adds `match_id` as a nullable
  column and cancels a ticket without a match by changing only its status.
- **Matches can be resized.** The specification says only the ticket
  operations change `available_seats`. The code's `update` also recomputes
  it when `total_seats` changes, clamping at zero. Shrinking a match below
  the seats already sold therefore breaks the accounting (see
  `MatchController.ShrinkBelowSoldUnbalances`).
- **Nothing is atomic.** The specification requires atomic
  purchase/cancel. The code runs two separate statements, and the model
  runs them in sequence (see "Left out").

## Model

| member | source | states |
|---|---|---|
| `Matches.ScopeAvailable` | backend/app/Models/FootballMatch.php:78-81 | the `available` scope keeps exactly the matches with a free seat, unchanged |
| `Matches.FootballMatch.HasAvailableSeats` | backend/app/Models/FootballMatch.php:86-89 | true iff the row has a free seat |
| `Matches.SeatsAfterDecrement` | backend/app/Models/FootballMatch.php:94-101 | the guard refuses iff fewer than `count` seats are free; otherwise `count` seats leave the counter, which stays within `0..available` |
| `Matches.FootballMatch.DecrementSeats` | backend/app/Models/FootballMatch.php:94-101 | returns whether the guard let the decrement through; only the counter changes, and only then |
| `Matches.SeatsAfterIncrement` | backend/app/Models/FootballMatch.php:106-109 | the counter becomes `min(available + count, total)`: it never passes the capacity and never falls |
| `Matches.FootballMatch.IncrementSeats` | backend/app/Models/FootballMatch.php:106-109 | only the counter changes, to the clamped value |
| `Matches.DecrementThenIncrement` | backend/app/Models/FootballMatch.php:94-109 | a successful decrement followed by an increment of the same amount restores the counter |
| `Matches.FootballMatch.constructor` | backend/app/Http/Controllers/MatchController.php:68 | a new match object holds the given key and row |
| `Matches.FootballMatch.Overwrite` | backend/app/Http/Controllers/MatchController.php:136 | Eloquent `update`: the object afterwards holds exactly the new row |
| `Inventory.HoldersAfterInsert` | backend/app/Http/Controllers/TicketController.php:93-102 | a new seat-holding ticket adds exactly one holder to its match and none to any other |
| `Inventory.HoldersAfterRelease` | backend/app/Http/Controllers/TicketController.php:209 | cancelling a seat-holding ticket removes exactly one holder from its match |
| `Inventory.HoldersUnchanged` | backend/app/Http/Controllers/TicketController.php:238 | a ticket edit that keeps its match and its seat-holding status leaves every match's holders alone |
| `TicketController.Price` | backend/app/Http/Controllers/TicketController.php:81-86 | each category has its fixed, positive price |
| `TicketController.SectionLetter` | backend/app/Http/Controllers/TicketController.php:89 | the section is the upper-cased first letter of the category: V, P, R or E |
| `TicketController.SectionIdentifiesCategory` | backend/app/Http/Controllers/TicketController.php:89 | distinct categories get distinct section letters |
| `TicketController.Decimal` | backend/app/Http/Controllers/TicketController.php:90 | the decimal spelling of a number is a non-empty string of digits |
| `TicketController.SeatLabel` | backend/app/Http/Controllers/TicketController.php:89-90 | a seat label has at least four characters and starts with the category's section letter |
| `TicketController.SeatLabelShape` | backend/app/Http/Controllers/TicketController.php:89-90 | after the section letter, a seat label is digits with exactly one dash between the row and the seat |
| `TicketController.FindOwned` | backend/app/Http/Controllers/TicketController.php:117-132 | a ticket is found iff it exists and belongs to the caller |
| `TicketController.Store` | backend/app/Http/Controllers/TicketController.php:47-112 | error cases in the source's order (missing match → `NotFound`, not upcoming → `InvalidState`, no seat → `SeatsExhausted`), none with an effect; on success there is one new pending ticket at the next key, with the category's price, the match snapshot and a labelled seat, the match loses exactly one seat, and nothing else changes |
| `TicketController.StoreSucceeds` | backend/app/Http/Controllers/TicketController.php:93-105 | a purchase that passes the checks produces exactly the store with the ticket inserted and the seat taken |
| `TicketController.StoreAsWritten` | backend/app/Http/Controllers/TicketController.php:93-102 | the purchase with the ticket's fillable list as written: the same outcome as `Store`, except that the ticket row carries no match link |
| `TicketController.AsWrittenPurchaseLeaksSeat` | backend/app/Http/Controllers/TicketController.php:93-105 | with the fillable list as written (and the relation and uuid presumed), a purchase unbalances the accounting, and cancelling its ticket succeeds without returning the seat |
| `TicketController.Confirm` | backend/app/Http/Controllers/TicketController.php:220-245 | succeeds iff the caller's ticket is pending; it then becomes active and nothing else changes; otherwise `NotFound` or `InvalidState` with no effect |
| `TicketController.Destroy` | backend/app/Http/Controllers/TicketController.php:185-215 | succeeds iff the caller's ticket is pending or active; the ticket becomes cancelled, its match (if any) gets one seat back clamped at the capacity, and every other match is unchanged; otherwise `NotFound` or `InvalidState` with no effect |
| `TicketController.Update` | backend/app/Http/Controllers/TicketController.php:137-179 | succeeds iff the caller's ticket is pending; only the seat label and the category change, and a new category brings its price; otherwise an error with no effect |
| `TicketController.StorePreservesWellFormed` | backend/app/Http/Controllers/TicketController.php:93-105 | a purchase, linked or not, keeps every counter in range and every link valid |
| `TicketController.StorePreservesBalanced` | backend/app/Http/Controllers/TicketController.php:93-105 | a purchase keeps the seat accounting balanced |
| `TicketController.ConfirmPreservesInvariants` | backend/app/Http/Controllers/TicketController.php:238 | confirming keeps the store well formed and balanced |
| `TicketController.UpdatePreservesInvariants` | backend/app/Http/Controllers/TicketController.php:172 | editing a ticket keeps the store well formed and balanced |
| `TicketController.CancelNeverClamps` | backend/app/Http/Controllers/TicketController.php:204-207 | on a balanced store, a live ticket's match is below capacity, so cancelling returns a full seat |
| `TicketController.DestroyPreservesInvariants` | backend/app/Http/Controllers/TicketController.php:204-209 | cancelling keeps the store well formed and balanced |
| `TicketController.PurchaseThenCancelRestores` | backend/app/Http/Controllers/TicketController.php:104-105 | buying a ticket and then cancelling it leaves every match exactly as before |
| `TicketController.CancelTwiceRefused` | backend/app/Http/Controllers/TicketController.php:196-202 | a second cancellation of the same ticket fails with `InvalidState` and changes nothing |
| `TicketController.RunKeepsSeatsBalanced` | backend/app/Http/Controllers/TicketController.php:47-245 | any sequence of purchases, confirmations, cancellations and edits keeps the store well formed and balanced, so no match is oversold |
| `MatchController.StoredVenue` | backend/database/migrations/2025_12_24_000001_create_matches_table.php:19 | a venue left out of the request gets the column default "Camp Nou"; a `null` or empty venue (which `nullable` lets through) writes nothing into the NOT NULL column; a given venue is written as it is |
| `MatchController.Store` | backend/app/Http/Controllers/MatchController.php:50-75 | a capacity outside `1..100000` is refused as `ValidationFailed`; otherwise a `null` or empty venue makes the database refuse the insert (`StorageFailed`); neither error has an effect; on success a new upcoming match at the next key has every seat free (100 by default), the given venue or "Camp Nou" when it was left out, and the tickets are untouched |
| `MatchController.StorePreservesInvariants` | backend/app/Http/Controllers/MatchController.php:64-68 | creating a match keeps the store well formed and balanced |
| `MatchController.Show` | backend/app/Http/Controllers/MatchController.php:80-101 | `NotFound` iff the match is missing; otherwise the match with `tickets_sold = total - available` |
| `MatchController.ShowCountsHolders` | backend/app/Http/Controllers/MatchController.php:92 | on a balanced store, `tickets_sold` is the number of tickets holding a seat of the match |
| `MatchController.ResizedAvailable` | backend/app/Http/Controllers/MatchController.php:131-134 | after a resize the sold seats stay sold while they fit; the counter never goes negative and is 0 when the new capacity is below the seats sold |
| `MatchController.Update` | backend/app/Http/Controllers/MatchController.php:106-143 | `NotFound` for a missing match, `ValidationFailed` for a capacity outside `1..100000`, neither with an effect; otherwise each given field is overwritten, the others kept, and the counter recomputed only when the capacity changes |
| `MatchController.UpdatePreservesWellFormed` | backend/app/Http/Controllers/MatchController.php:130-136 | an update keeps every counter within its (new) capacity |
| `MatchController.UpdatePreservesBalanced` | backend/app/Http/Controllers/MatchController.php:130-136 | an update keeps the accounting balanced as long as the new capacity covers the seats sold |
| `MatchController.ShrinkBelowSoldUnbalances` | backend/app/Http/Controllers/MatchController.php:131-134 | shrinking a match below its sold seats is accepted and leaves the accounting unbalanced |
| `MatchController.Destroy` | backend/app/Http/Controllers/MatchController.php:148-174 | `NotFound` for a missing match; refused with the live-ticket count while a ticket is pending or active; otherwise the match and exactly the tickets pointing at it are deleted, and all other rows are kept |
| `MatchController.DestroyPreservesWellFormed` | backend/app/Http/Controllers/MatchController.php:168 | deleting a match leaves no dangling ticket link |
| `MatchController.DestroyPreservesBalanced` | backend/app/Http/Controllers/MatchController.php:159-168 | deleting a match keeps every other match's accounting |
| `Ledger.Ledger.TakeSeat` | backend/app/Http/Controllers/TicketController.php:105 | runs `decrementSeats()` on the match object; the rows change by exactly one taken seat |
| `Ledger.Ledger.ReturnSeat` | backend/app/Http/Controllers/TicketController.php:205-207 | runs `incrementSeats()` on the match object; the rows change by exactly one returned seat, clamped |
| `Ledger.Ledger.CreateMatch` | backend/app/Http/Controllers/MatchController.php:50-75 | creates a new match object; the store and the response are exactly those of `MatchController.Store`, and balance is kept |
| `Ledger.Ledger.ShowMatch` | backend/app/Http/Controllers/MatchController.php:80-101 | the response is exactly that of `MatchController.Show` |
| `Ledger.Ledger.UpdateMatch` | backend/app/Http/Controllers/MatchController.php:106-143 | overwrites the match object in place; the store and the response are exactly those of `MatchController.Update` |
| `Ledger.Ledger.DestroyMatch` | backend/app/Http/Controllers/MatchController.php:148-174 | the store and the response are exactly those of `MatchController.Destroy`, and balance is kept |
| `Ledger.Ledger.ShowTicket` | backend/app/Http/Controllers/TicketController.php:117-132 | returns the caller's ticket, or nothing for a missing or foreign one |
| `Ledger.Ledger.Purchase` | backend/app/Http/Controllers/TicketController.php:47-112 | checks the match object, inserts the ticket and decrements the object's counter; the store and the response are exactly those of `TicketController.Store`, and balance is kept |
| `Ledger.Ledger.Sell` | backend/app/Http/Controllers/TicketController.php:93-105 | the two writes of a purchase, performed in sequence, give exactly the purchase's store |
| `Ledger.Ledger.Confirm` | backend/app/Http/Controllers/TicketController.php:220-245 | the store and the response are exactly those of `TicketController.Confirm`, and balance is kept |
| `Ledger.Ledger.Cancel` | backend/app/Http/Controllers/TicketController.php:185-215 | the store and the response are exactly those of `TicketController.Destroy`, and balance is kept |
| `Ledger.Ledger.Refund` | backend/app/Http/Controllers/TicketController.php:204-209 | the match object of the ticket (if any) gets one seat back, clamped at its capacity, and the ticket row becomes cancelled; no other row changes |
| `Ledger.Ledger.UpdateTicket` | backend/app/Http/Controllers/TicketController.php:137-179 | the store and the response are exactly those of `TicketController.Update`, and balance is kept |
| `Text.Upper` | src/players.js:144 | `toUpperCase` maps character by character and leaves no lower-case ASCII letter |
| `Text.Lower` | src/players.js:165 | `toLowerCase` maps character by character and leaves no upper-case ASCII letter |
| `Text.ContainsOccurs` | src/players.js:176-181 | `includes` holds iff the needle occurs at some index of the haystack |
| `Text.Trim` | src/script.js:176 | the result is a contiguous piece of the input, with only whitespace removed around it and no whitespace at either end |
| `Players.PositionColor` | src/players.js:109-126 | a listed position gets its colour; any other gets `bg-gray-500`; the result is always one of the five badge colours |
| `Players.FormatPosition` | src/players.js:128-145 | a listed position gets its abbreviation; any other gets its first three characters upper-cased; a badge is never longer than three characters |
| `Players.SublistTransitive` | src/players.js:169-191 | filtering a filtered list still yields an order-preserving sub-list of the original |
| `Players.Select` | src/players.js:173-190 | `filter` keeps exactly the passing players, in their order and each as often as it occurs in the input, and keeps everything when everything passes |
| `Players.ApplyFilters` | src/players.js:168-194 | the result is an order-preserving sub-list of the squad; a player is in it iff it passes the position filter (unless `'all'`) and the query (unless empty), and then occurs in it as often as in the squad; `'all'` with an empty query keeps the whole squad |
| `Players.SearchNarrows` | src/players.js:186-191 | a search only removes players from the list the position filter leaves |
| `Players.PlayersPage.constructor` | src/players.js:5-6 | the page starts with no players and the filter `'all'` |
| `Players.PlayersPage.Load` | src/players.js:23-55 | the loaded squad is shown in full, whatever filter is selected |
| `Players.PlayersPage.FilterByPosition` | src/players.js:150-162 | sets the filter and shows exactly the players passing it, with any earlier search text dropped |
| `Players.PlayersPage.SearchPlayers` | src/players.js:164-166 | keeps the filter and shows the filtered players whose lower-cased name or nationality contains the lower-cased query |
| `Script.TruncateText` | src/script.js:173-177 | missing or empty text gives `''`; text that fits is unchanged; longer text becomes its first `maxLength` characters, trimmed, plus `'...'`, at most `maxLength + 3` long |

## Left out

- Concurrency: `store` and `destroy` write the ticket row and the match counter in two statements with no transaction or lock. The model runs each action to completion, one after another, so it cannot express the lost-update race.
- Randomness: the row and seat numbers of a seat label (`rand(1, 50)`, `rand(1, 30)`) are a `SeatDraw` parameter. Only the label's shape is specified.
- Identifiers: UUIDs and the JWT-authenticated user are abstracted. Rows are keyed by the auto-increment id, and the caller is a `UserId` parameter.
- Floating point: `tickets_percentage` in `show` is a rounded float and is not modelled. `tickets_sold` is.
- Validation: the request rules modelled are the `total_seats` range `1..100000` and the nullable `venue` of a new match. String lengths, URL formats, `required` fields and `after:now` on dates are left out, and dates are opaque `Timestamp` values.
- MatchController.Update: an empty string sent for a `sometimes|string` field becomes `null` before validation and is then refused; the model writes the empty string instead. Only `MatchController.Store`'s venue models that conversion.
- TicketController.Store, TicketController.Destroy: the model presumes that the ticket model declares a `match()` relation and generates the ticket's `uuid`. As the files stand it does neither: `Ticket::create` at backend/app/Http/Controllers/TicketController.php:93-102 supplies no value for the NOT NULL `uuid` column, and the eager loads at :110, :119 and :187 name a relation that does not exist, so those calls raise an error. The model also reads the match of a ticket from its `match_id` column, where :205 reads the relation.
- Team logos: they are plain optional columns with no logic and are not part of `MatchRecord`.
- Listing: the `index` actions and `MatchController::tickets` (filters, sorting, pagination) are read-only queries. They are not modelled.
- Scope `upcoming`: it compares `match_date` against the clock, which is not modelled. Only the `available` scope is.
- Deleting a match deletes its ticket rows through the `match_id` foreign key (`onDelete('cascade')`). `MatchController.Destroy` models this as part of the deletion.
- Text.Upper, Text.Lower: only ASCII letters change case. JavaScript and PHP also map other Unicode letters.
- Text.Trim: a string is a sequence of code points, not the UTF-16 code units that JavaScript's `length` and `substring` count.
- Players.FormatPosition, Players.PositionColor: the lookup tables are modelled as maps. A position that names an inherited object property (such as `constructor`) would find that property in JavaScript.
- Script.TruncateText: `maxLength` is an integer and the text, when present, is a string. Other JavaScript values (`NaN`, a non-string text) are not modelled.
- Page rendering: loading the squad over the network, the DOM updates and the mobile menu are left out. The list `renderPlayers` displays is the `shown` field, and a loaded squad is a parameter of `Load`.

## Findings

| source | as written | input that shows it | evidently intended | confidence | as-written member | corrected member |
|---|---|---|---|---|---|---|
| backend/app/Models/Ticket.php:8-51 | `match_id` is missing from the ticket's fillable list (:12-20), so `Ticket::create` drops the `'match_id' => $match->id` given at backend/app/Http/Controllers/TicketController.php:95. The model also declares no `match()` relation, so even a stored link would not be read: `$ticket->match` at :205 finds no match, and the eager loads at :110 and :187 raise an error. Either cause alone keeps a cancellation from returning the seat. | With the ticket `uuid` supplied and the `match()` relation declared, but `match_id` still not fillable: on a match with 1 seat, a purchase takes the seat; cancelling its ticket succeeds and the match stays at 0 free seats, so the next purchase fails with "No seats available". As the files stand (no relation), the purchase errors at :110 after taking the seat, and the cancellation errors at :187, so the seat is not returned either. Without a uuid the insert at :93 may be refused before any write. | The ticket is linked to its match, the relation is declared, and cancelling returns the seat. | medium, not executed | `TicketController.StoreAsWritten`, `TicketController.AsWrittenPurchaseLeaksSeat` | `TicketController.Store`, `TicketController.StorePreservesBalanced`, `TicketController.PurchaseThenCancelRestores` |
