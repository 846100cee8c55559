/** The squad page: position badges and colours looked up in fixed tables,
    and the list of players narrowed by a position filter and a search
    query. The page keeps the loaded squad, the selected filter and the
    list it displays. */
module Players {
  import opened Text

  /** A squad member as the football API delivers it. */
  datatype Player = Player(name: string, position: Option<string>, nationality: Option<string>)

  /** The badge text of each position the page knows. */
  const Abbreviations: map<string, string> := map[
    "Goalkeeper" := "GK",
    "Defence" := "DEF",
    "Left-Back" := "LB",
    "Right-Back" := "RB",
    "Centre-Back" := "CB",
    "Midfield" := "MID",
    "Central Midfield" := "CM",
    "Defensive Midfield" := "DM",
    "Attacking Midfield" := "AM",
    "Offence" := "FWD",
    "Centre-Forward" := "CF",
    "Left Winger" := "LW",
    "Right Winger" := "RW"]

  const Goalkeeper := "bg-yellow-500"
  const Defender := "bg-green-500"
  const Midfielder := "bg-blue-500"
  const Attacker := "bg-red-500"
  /** The badge colour of a position missing from the table. */
  const Unlisted := "bg-gray-500"

  /** The badge colour of each position the page knows. */
  const Colors: map<string, string> := map[
    "Goalkeeper" := Goalkeeper,
    "Defence" := Defender,
    "Left-Back" := Defender,
    "Right-Back" := Defender,
    "Centre-Back" := Defender,
    "Midfield" := Midfielder,
    "Central Midfield" := Midfielder,
    "Defensive Midfield" := Midfielder,
    "Attacking Midfield" := Midfielder,
    "Offence" := Attacker,
    "Centre-Forward" := Attacker,
    "Left Winger" := Attacker,
    "Right Winger" := Attacker]

  /** `getPositionColor`: the listed colour, grey for anything else. */
  function PositionColor(position: string): (r: string)
    ensures position in Colors ==> r == Colors[position]
    ensures position !in Colors ==> r == Unlisted
    ensures r in {Goalkeeper, Defender, Midfielder, Attacker, Unlisted}
  {
    if position in Colors then Colors[position] else Unlisted
  }

  /** `formatPosition`: the listed abbreviation, otherwise the first three
      characters upper-cased. Either way the badge is at most three
      characters long. */
  function FormatPosition(position: string): (r: string)
    ensures position in Abbreviations ==> r == Abbreviations[position]
    ensures position !in Abbreviations ==>
              |r| == Min(|position|, 3) &&
              forall i :: 0 <= i < |r| ==> r[i] == UpperChar(position[i]) && !IsLowerAscii(r[i])
    ensures |r| <= 3
  {
    if position in Abbreviations then Abbreviations[position]
    else Upper(position[..Min(|position|, 3)])
  }

  /** The position the filter inspects; a missing one counts as empty. */
  function PositionOf(p: Player): string {
    p.position.GetOr("")
  }

  /** The position test of `applyFilters` for a filter other than `'all'`. */
  predicate KeepsPosition(filter: string, pos: string) {
    if filter == "Defence" then Contains(pos, "Back") || pos == "Defence"
    else if filter == "Offence" then Contains(pos, "Forward") || Contains(pos, "Winger") || pos == "Offence"
    else Contains(pos, filter)
  }

  /** The search test of `applyFilters`: the (already lower-cased) query
      occurs in the lower-cased name or nationality. */
  predicate MatchesQuery(p: Player, query: string) {
    || Contains(Lower(p.name), query)
    || (p.nationality.Some? && p.nationality.value != "" && Contains(Lower(p.nationality.value), query))
  }

  /** `r` is `xs` with some elements dropped and the rest in their order. */
  predicate Sublist<T(==)>(r: seq<T>, xs: seq<T>)
    decreases |xs|
  {
    if |r| == 0 then true
    else if |xs| == 0 then false
    else (r[0] == xs[0] && Sublist(r[1..], xs[1..])) || Sublist(r, xs[1..])
  }

  lemma {:induction false} SublistTransitive<T>(a: seq<T>, b: seq<T>, c: seq<T>)
    requires Sublist(a, b) && Sublist(b, c)
    ensures Sublist(a, c)
    decreases |c|
  {
    if |a| == 0 {
    } else if Sublist(b, c[1..]) {
      SublistTransitive(a, b, c[1..]);
    } else {
      assert b[0] == c[0] && Sublist(b[1..], c[1..]);
      if a[0] == b[0] && Sublist(a[1..], b[1..]) {
        SublistTransitive(a[1..], b[1..], c[1..]);
      } else {
        SublistTransitive(a, b[1..], c[1..]);
      }
    }
  }

  lemma {:induction false} SublistOfSelf<T>(xs: seq<T>)
    ensures Sublist(xs, xs)
    decreases |xs|
  {
    if |xs| > 0 {
      SublistOfSelf(xs[1..]);
    }
  }

  /** The two tests `applyFilters` runs the squad through. */
  datatype Criterion = ByPosition(filter: string) | ByQuery(query: string)

  predicate Passes(c: Criterion, p: Player) {
    match c
    case ByPosition(filter) => KeepsPosition(filter, PositionOf(p))
    case ByQuery(query) => MatchesQuery(p, query)
  }

  /** `Array.prototype.filter`: the elements that pass, in their order. */
  function Select(xs: seq<Player>, c: Criterion): (r: seq<Player>)
    ensures Sublist(r, xs)
    ensures forall p :: p in r <==> p in xs && Passes(c, p)
    ensures forall p :: multiset(r)[p] == if Passes(c, p) then multiset(xs)[p] else 0
    ensures (forall p :: p in xs ==> Passes(c, p)) ==> r == xs
    decreases |xs|
  {
    if |xs| == 0 then []
    else
      var rest := Select(xs[1..], c);
      assert xs == [xs[0]] + xs[1..];
      assert forall p :: p in xs <==> p == xs[0] || p in xs[1..];
      if Passes(c, xs[0]) then [xs[0]] + rest else rest
  }

  /** `applyFilters(searchQuery)`: the squad narrowed by the current
      position filter (unless it is `'all'`) and then by the query (unless
      it is empty). */
  function ApplyFilters(all: seq<Player>, filter: string, query: string): (r: seq<Player>)
    ensures Sublist(r, all)
    ensures forall p :: p in r <==>
              && p in all
              && (filter == "all" || KeepsPosition(filter, PositionOf(p)))
              && (query == "" || MatchesQuery(p, query))
    ensures forall p :: multiset(r)[p] ==
              if (filter == "all" || KeepsPosition(filter, PositionOf(p))) && (query == "" || MatchesQuery(p, query))
              then multiset(all)[p] else 0
    ensures filter == "all" && query == "" ==> r == all
  {
    var byPosition := if filter != "all" then Select(all, ByPosition(filter)) else all;
    SublistOfSelf(all);
    if query != "" then
      var r := Select(byPosition, ByQuery(query));
      SublistTransitive(r, byPosition, all);
      r
    else byPosition
  }

  /** A search only narrows the list the position filter leaves. */
  lemma SearchNarrows(all: seq<Player>, filter: string, query: string)
    ensures Sublist(ApplyFilters(all, filter, query), ApplyFilters(all, filter, ""))
    ensures |ApplyFilters(all, filter, query)| <= |ApplyFilters(all, filter, "")|
  {
    var narrowed, filtered := ApplyFilters(all, filter, query), ApplyFilters(all, filter, "");
    if query == "" {
      SublistOfSelf(filtered);
    }
    SublistShorter(narrowed, filtered);
  }

  lemma {:induction false} SublistShorter<T>(r: seq<T>, xs: seq<T>)
    requires Sublist(r, xs)
    ensures |r| <= |xs|
    decreases |xs|
  {
    if |r| > 0 {
      if r[0] == xs[0] && Sublist(r[1..], xs[1..]) {
        SublistShorter(r[1..], xs[1..]);
      } else {
        SublistShorter(r, xs[1..]);
      }
    }
  }

  /** The players page: the loaded squad, the selected position filter and
      the list on screen. */
  class PlayersPage {
    var allPlayers: seq<Player>
    var currentFilter: string
    /** What `renderPlayers` last put on screen. */
    var shown: seq<Player>

    /** Everything on screen comes from the loaded squad, in squad order. */
    predicate Valid()
      reads this
    {
      Sublist(shown, allPlayers)
    }

    /** The page before anything is loaded: no players, filter `'all'`. */
    constructor ()
      ensures Valid()
      ensures allPlayers == [] && currentFilter == "all" && shown == []
    {
      allPlayers, currentFilter, shown := [], "all", [];
    }

    /** `loadPlayers` once the squad has arrived: the whole squad is shown,
        whatever filter is selected. */
    method Load(players: seq<Player>)
      modifies this
      ensures Valid()
      ensures allPlayers == players && shown == players && currentFilter == old(currentFilter)
    {
      allPlayers := players;
      shown := allPlayers;
      SublistOfSelf(shown);
    }

    /** `filterByPosition`: select the filter and re-filter with an empty
        query, so any search text typed before no longer applies. */
    method FilterByPosition(position: string)
      modifies this
      ensures Valid()
      ensures currentFilter == position && allPlayers == old(allPlayers)
      ensures shown == ApplyFilters(allPlayers, position, "")
      ensures forall p :: p in shown <==>
                p in allPlayers && (position == "all" || KeepsPosition(position, PositionOf(p)))
    {
      currentFilter := position;
      shown := ApplyFilters(allPlayers, currentFilter, "");
    }

    /** `searchPlayers`: re-filter with the lower-cased query under the
        selected filter; the match is case-insensitive on ASCII letters. */
    method SearchPlayers(query: string)
      modifies this
      ensures Valid()
      ensures currentFilter == old(currentFilter) && allPlayers == old(allPlayers)
      ensures shown == ApplyFilters(allPlayers, currentFilter, Lower(query))
      ensures query != "" ==> forall p :: p in shown ==> MatchesQuery(p, Lower(query))
    {
      shown := ApplyFilters(allPlayers, currentFilter, Lower(query));
    }
  }
}
