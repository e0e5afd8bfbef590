/**
 * The data of the international view: `aggregateByCountry` groups the
 * players born outside the United States by birth country,
 * `listInternationalDecades` lists their birth decades and `findWarExtent`
 * the range of their career WAR.
 */
module InternationalData {
  import opened Wrappers
  import opened Text
  import opened JsNumber
  import opened Sorting
  import opened Sequences
  import opened Grouping
  import opened Ranges
  import opened Records

  datatype InternationalPlayer = InternationalPlayer(
    playerId: string,
    fullName: string,
    birthYear: real,
    birthDecade: int,
    birthCountry: string,
    birthCountryRaw: Option<string>,
    birthCity: Option<string>,
    warCareer: real)

  datatype CountryAggregate = CountryAggregate(
    country: string,
    totalWar: real,
    playerCount: nat,
    averageWar: real,
    players: seq<InternationalPlayer>)

  function BirthDecades(players: seq<InternationalPlayer>): (r: seq<int>)
    ensures |r| == |players|
    ensures forall i :: 0 <= i < |players| ==> r[i] == players[i].birthDecade
  {
    seq(|players|, i requires 0 <= i < |players| => players[i].birthDecade)
  }

  /** `listInternationalDecades`: every birth decade present, once, in
      ascending order. */
  method ListInternationalDecades(players: seq<InternationalPlayer>) returns (decades: seq<int>)
    ensures StrictlyAscending(decades)
    ensures forall d :: d in decades <==> exists p :: p in players && p.birthDecade == d
  {
    var all := BirthDecades(players);
    decades := SortedDistinct(all);
    forall d ensures d in all <==> exists p :: p in players && p.birthDecade == d {
      if d in all {
        var i :| 0 <= i < |all| && all[i] == d;
        assert players[i] in players;
      }
      if exists p :: p in players && p.birthDecade == d {
        var p :| p in players && p.birthDecade == d;
        var i :| 0 <= i < |players| && players[i] == p;
        assert all[i] == d;
      }
    }
  }

  function Wars(players: seq<InternationalPlayer>): (r: seq<real>)
    ensures |r| == |players|
    ensures forall i :: 0 <= i < |players| ==> r[i] == players[i].warCareer
  {
    seq(|players|, i requires 0 <= i < |players| => players[i].warCareer)
  }

  /** `findWarExtent`: `[0, 0]` without players, otherwise the least and the
      greatest career WAR. */
  function FindWarExtent(players: seq<InternationalPlayer>): (r: (real, real))
    ensures players == [] ==> r == (0.0, 0.0)
    ensures players != [] ==>
              && (forall p :: p in players ==> r.0 <= p.warCareer <= r.1)
              && (exists p :: p in players && p.warCareer == r.0)
              && (exists p :: p in players && p.warCareer == r.1)
  {
    if |players| == 0 then (0.0, 0.0)
    else
      var wars := Wars(players);
      var lo, hi := MinOf(wars), MaxOf(wars);
      assert forall p :: p in players ==> lo <= p.warCareer <= hi;
      assert exists i :: 0 <= i < |players| && players[i].warCareer == lo;
      assert exists i :: 0 <= i < |players| && players[i].warCareer == hi;
      (lo, hi)
  }

  /** The filter of `aggregateByCountry`: not below the minimum WAR and, unless
      every decade is wanted, born in the chosen decade. */
  predicate Survives(minWar: real, decade: DecadeFilter, p: InternationalPlayer) {
    !(p.warCareer < minWar) && (decade.AllDecades? || p.birthDecade == decade.decade)
  }

  function Survivor(minWar: real, decade: DecadeFilter): InternationalPlayer -> bool {
    p => Survives(minWar, decade, p)
  }

  /** The filtered players, with the options' defaults: a minimum WAR of 0
      and every decade. */
  function Survivors(players: seq<InternationalPlayer>, minWar: Option<real>, decade: Option<DecadeFilter>): seq<InternationalPlayer> {
    Filter(players, Survivor(minWar.GetOr(0.0), decade.GetOr(AllDecades)))
  }

  /** A player survives exactly when its WAR reaches the minimum (0 when not
      given) and, when a decade is given, it was born in that decade. */
  lemma SurvivorsMember(players: seq<InternationalPlayer>, minWar: Option<real>, decade: Option<DecadeFilter>,
                        p: InternationalPlayer)
    ensures p in Survivors(players, minWar, decade) <==>
              && p in players
              && p.warCareer >= (if minWar.Some? then minWar.value else 0.0)
              && (decade.Some? && decade.value.OneDecade? ==> p.birthDecade == decade.value.decade)
  {
    FilterMember(players, Survivor(minWar.GetOr(0.0), decade.GetOr(AllDecades)), p);
  }

  function CountryKey(p: InternationalPlayer): Option<string> {
    Some(p.birthCountry)
  }

  /** A country's surviving players, in input order. */
  function CountryPlayers(filtered: seq<InternationalPlayer>, country: string): (g: seq<InternationalPlayer>)
    ensures forall i :: 0 <= i < |g| ==> g[i].birthCountry == country
  {
    Group(filtered, CountryKey, country)
  }

  /** The countries in order of first appearance: the `Map`'s key order. */
  function CountryOrder(filtered: seq<InternationalPlayer>): (order: seq<string>)
    ensures forall c :: c in order ==> CountryPlayers(filtered, c) != []
    ensures forall i, j :: 0 <= i < j < |order| ==> order[i] != order[j]
  {
    KeyOrderGroups(filtered, CountryKey);
    KeyOrder(filtered, CountryKey)
  }

  function War(p: InternationalPlayer): real {
    p.warCareer
  }

  /** The comparator `b.warCareer - a.warCareer`: higher WAR first. */
  predicate WarDescending(a: InternationalPlayer, b: InternationalPlayer) {
    a.warCareer > b.warCareer
  }

  /** One entry of the `map` stage: the players sorted by WAR, the total and
      the average rounded to thousandths, the average taken of the unrounded
      total. */
  function CountryAggregateOf(country: string, list: seq<InternationalPlayer>): CountryAggregate
    requires list != []
  {
    var sortedPlayers := SortBy(list, WarDescending);
    var totalWar := Sum(sortedPlayers, War);
    var averageWar := totalWar / |sortedPlayers| as real;
    CountryAggregate(country, Round3(totalWar), |sortedPlayers|, Round3(averageWar), sortedPlayers)
  }

  /** The comparator of the final sort: higher rounded total first, equal
      totals by country name. */
  predicate CountryBefore(a: CountryAggregate, b: CountryAggregate) {
    if b.totalWar == a.totalWar then LexLess(a.country, b.country) else a.totalWar > b.totalWar
  }

  /** The entries for the countries `order`, in that order. */
  function EntriesFor(filtered: seq<InternationalPlayer>, order: seq<string>): (r: seq<CountryAggregate>)
    requires forall c :: c in order ==> CountryPlayers(filtered, c) != []
    ensures |r| == |order|
  {
    seq(|order|, k requires 0 <= k < |order| => CountryAggregateOf(order[k], CountryPlayers(filtered, order[k])))
  }

  /** What `aggregateByCountry` returns. */
  function AggregatesByCountry(players: seq<InternationalPlayer>, minWar: Option<real>, decade: Option<DecadeFilter>): seq<CountryAggregate> {
    var filtered := Survivors(players, minWar, decade);
    SortBy(EntriesFor(filtered, CountryOrder(filtered)), CountryBefore)
  }

  /** The `forEach` filling the `Map` from country to players. */
  method GroupByCountry(filtered: seq<InternationalPlayer>)
    returns (groups: map<string, seq<InternationalPlayer>>, order: seq<string>)
    ensures GroupedLists(filtered, CountryKey, groups, order)
  {
    groups, order := map[], [];
    for i := 0 to |filtered|
      invariant GroupedLists(filtered[..i], CountryKey, groups, order)
    {
      var player := filtered[i];
      assert filtered[..i + 1] == filtered[..i] + [player];
      GroupedListsStep(filtered[..i], player, CountryKey, groups, order);
      var list := if player.birthCountry in groups then groups[player.birthCountry] else [];
      if player.birthCountry !in groups {
        order := order + [player.birthCountry];
      }
      groups := groups[player.birthCountry := list + [player]];
    }
    assert filtered[..|filtered|] == filtered;
  }

  /** `aggregateByCountry`: filter, group by birth country, summarise each
      country, and sort. */
  method AggregateByCountry(players: seq<InternationalPlayer>, minWar: Option<real>, decade: Option<DecadeFilter>)
    returns (result: seq<CountryAggregate>)
    ensures result == AggregatesByCountry(players, minWar, decade)
  {
    var filtered := Survivors(players, minWar, decade);
    var groups, order := GroupByCountry(filtered);
    assert order == CountryOrder(filtered);
    var entries := seq(|order|, k requires 0 <= k < |order| => CountryAggregateOf(order[k], groups[order[k]]));
    assert entries == EntriesFor(filtered, CountryOrder(filtered));
    result := SortBy(entries, CountryBefore);
  }

  lemma WarDescendingIsStrictOrder()
    ensures StrictOrder(WarDescending)
  {
  }

  lemma CountryBeforeIsStrictOrder()
    ensures StrictOrder(CountryBefore)
  {
    forall a ensures !CountryBefore(a, a) {
      LexLessIrreflexive(a.country);
    }
    forall a, b, c | CountryBefore(a, b) && CountryBefore(b, c) ensures CountryBefore(a, c) {
      if a.totalWar == b.totalWar == c.totalWar {
        LexLessTransitive(a.country, b.country, c.country);
      }
    }
  }

  /**
   * One country's entry: its players are the given ones sorted by WAR
   * (highest first), its count is their number, its total is their WAR sum
   * rounded to thousandths, and its average is that unrounded sum divided by
   * the count, rounded to thousandths.
   */
  lemma CountryAggregateSummary(country: string, list: seq<InternationalPlayer>)
    requires list != []
    ensures var a := CountryAggregateOf(country, list);
            && a.country == country
            && multiset(a.players) == multiset(list)
            && SortedBy(a.players, WarDescending)
            && a.playerCount == |a.players| == |list| >= 1
            && a.totalWar == Round3(Sum(list, War))
            && -0.0005 <= a.totalWar - Sum(list, War) <= 0.0005
            && a.averageWar == Round3(Sum(list, War) / |list| as real)
  {
    var sortedPlayers := SortBy(list, WarDescending);
    WarDescendingIsStrictOrder();
    SortBySorted(list, WarDescending);
    SumPermutation(sortedPlayers, list, War);
  }

  /** Every aggregate of the result is the entry of a country with
      surviving players. */
  lemma CountryOrigin(players: seq<InternationalPlayer>, minWar: Option<real>, decade: Option<DecadeFilter>,
                      a: CountryAggregate)
    requires a in AggregatesByCountry(players, minWar, decade)
    ensures var g := CountryPlayers(Survivors(players, minWar, decade), a.country);
            g != [] && a == CountryAggregateOf(a.country, g)
  {
    var filtered := Survivors(players, minWar, decade);
    var entries := EntriesFor(filtered, CountryOrder(filtered));
    SortByMembers(entries, CountryBefore, a);
  }

  /** Each aggregate summarises exactly its country's surviving players. */
  lemma CountrySummary(players: seq<InternationalPlayer>, minWar: Option<real>, decade: Option<DecadeFilter>,
                       a: CountryAggregate)
    requires a in AggregatesByCountry(players, minWar, decade)
    ensures var g := CountryPlayers(Survivors(players, minWar, decade), a.country);
            && multiset(a.players) == multiset(g)
            && SortedBy(a.players, WarDescending)
            && a.playerCount == |g| >= 1
            && a.totalWar == Round3(Sum(g, War))
            && a.averageWar == Round3(Sum(g, War) / |g| as real)
  {
    CountryOrigin(players, minWar, decade, a);
    CountryAggregateSummary(a.country, CountryPlayers(Survivors(players, minWar, decade), a.country));
  }

  /** The players of an aggregate are input players born in its country that
      pass the filter. */
  lemma CountryPlayersSurvive(players: seq<InternationalPlayer>, minWar: Option<real>, decade: Option<DecadeFilter>,
                              a: CountryAggregate, p: InternationalPlayer)
    requires a in AggregatesByCountry(players, minWar, decade)
    requires p in a.players
    ensures p in players && p.birthCountry == a.country
    ensures p.warCareer >= (if minWar.Some? then minWar.value else 0.0)
    ensures decade.Some? && decade.value.OneDecade? ==> p.birthDecade == decade.value.decade
  {
    var filtered := Survivors(players, minWar, decade);
    CountrySummary(players, minWar, decade, a);
    assert p in multiset(CountryPlayers(filtered, a.country));
    GroupMember(filtered, CountryKey, a.country, p);
    SurvivorsMember(players, minWar, decade, p);
  }

  /** There is an aggregate for a country exactly when some player born
      there passes the filter. */
  lemma AggregateForEveryCountry(players: seq<InternationalPlayer>, minWar: Option<real>, decade: Option<DecadeFilter>,
                                 country: string)
    ensures (exists a :: a in AggregatesByCountry(players, minWar, decade) && a.country == country) <==>
            (exists p :: p in Survivors(players, minWar, decade) && p.birthCountry == country)
  {
    var filtered := Survivors(players, minWar, decade);
    var result := AggregatesByCountry(players, minWar, decade);
    var g := CountryPlayers(filtered, country);
    if exists a :: a in result && a.country == country {
      var a :| a in result && a.country == country;
      CountryOrigin(players, minWar, decade, a);
      assert g[0] in g;
      GroupMember(filtered, CountryKey, country, g[0]);
    }
    if exists p :: p in filtered && p.birthCountry == country {
      var p :| p in filtered && p.birthCountry == country;
      GroupMember(filtered, CountryKey, country, p);
      var order := CountryOrder(filtered);
      KeyOrderMember(filtered, CountryKey, country);
      var k :| 0 <= k < |order| && order[k] == country;
      var entries := EntriesFor(filtered, order);
      assert entries[k] in entries;
      SortByMembers(entries, CountryBefore, entries[k]);
    }
  }

  function CountryName(a: CountryAggregate): string {
    a.country
  }

  /** No country has two aggregates. */
  lemma OneAggregatePerCountry(players: seq<InternationalPlayer>, minWar: Option<real>, decade: Option<DecadeFilter>)
    ensures DistinctKeys(AggregatesByCountry(players, minWar, decade), CountryName)
  {
    var filtered := Survivors(players, minWar, decade);
    var entries := EntriesFor(filtered, CountryOrder(filtered));
    DistinctPermutation(entries, SortBy(entries, CountryBefore), CountryName);
  }

  /** The result is in strictly descending order of rounded total WAR, and
      countries with equal totals are in ascending order of name. */
  lemma AggregatesInOrder(players: seq<InternationalPlayer>, minWar: Option<real>, decade: Option<DecadeFilter>)
    ensures var result := AggregatesByCountry(players, minWar, decade);
            forall i, j :: 0 <= i < j < |result| ==>
              result[i].totalWar > result[j].totalWar ||
              (result[i].totalWar == result[j].totalWar && LexLess(result[i].country, result[j].country))
  {
    var filtered := Survivors(players, minWar, decade);
    var result := AggregatesByCountry(players, minWar, decade);
    CountryBeforeIsStrictOrder();
    SortBySorted(EntriesFor(filtered, CountryOrder(filtered)), CountryBefore);
    OneAggregatePerCountry(players, minWar, decade);
    forall i, j | 0 <= i < j < |result|
      ensures result[i].totalWar > result[j].totalWar ||
              (result[i].totalWar == result[j].totalWar && LexLess(result[i].country, result[j].country))
    {
      assert !CountryBefore(result[j], result[i]);
      if result[i].totalWar == result[j].totalWar {
        LexLessTotal(result[i].country, result[j].country);
      }
    }
  }

  function Count(a: CountryAggregate): real {
    a.playerCount as real
  }

  lemma EntriesSnoc(filtered: seq<InternationalPlayer>, order: seq<string>)
    requires forall c :: c in order ==> CountryPlayers(filtered, c) != []
    requires order != []
    ensures var last := order[|order| - 1];
            EntriesFor(filtered, order) ==
              EntriesFor(filtered, order[..|order| - 1]) + [CountryAggregateOf(last, CountryPlayers(filtered, last))]
  {
    var init, last := order[..|order| - 1], order[|order| - 1];
    var whole := EntriesFor(filtered, order);
    var front := EntriesFor(filtered, init);
    var parts := front + [CountryAggregateOf(last, CountryPlayers(filtered, last))];
    forall k | 0 <= k < |whole| ensures whole[k] == parts[k] {
      EntriesForIndex(filtered, order, k);
      if k < |init| {
        EntriesForIndex(filtered, init, k);
        assert init[k] == order[k];
        assert parts[k] == front[k];
      }
    }
  }

  lemma EntriesForIndex(filtered: seq<InternationalPlayer>, order: seq<string>, k: nat)
    requires forall c :: c in order ==> CountryPlayers(filtered, c) != []
    requires k < |order|
    ensures EntriesFor(filtered, order)[k] == CountryAggregateOf(order[k], CountryPlayers(filtered, order[k]))
  {
  }

  lemma EntryCount(country: string, list: seq<InternationalPlayer>)
    requires list != []
    ensures Count(CountryAggregateOf(country, list)) == |list| as real
  {
  }

  lemma {:induction false} EntriesCounts(filtered: seq<InternationalPlayer>, order: seq<string>)
    requires forall c :: c in order ==> CountryPlayers(filtered, c) != []
    ensures Sum(EntriesFor(filtered, order), Count) == GroupSizes(filtered, CountryKey, order) as real
  {
    if order != [] {
      var init, last := order[..|order| - 1], order[|order| - 1];
      var e := CountryAggregateOf(last, CountryPlayers(filtered, last));
      EntriesSnoc(filtered, order);
      EntriesCounts(filtered, init);
      SumSnoc(EntriesFor(filtered, init), e, Count);
      EntryCount(last, CountryPlayers(filtered, last));
    }
  }

  /** The player counts add up to the number of surviving players. */
  lemma CountryCountsAddUp(players: seq<InternationalPlayer>, minWar: Option<real>, decade: Option<DecadeFilter>)
    ensures Sum(AggregatesByCountry(players, minWar, decade), Count) == |Survivors(players, minWar, decade)| as real
  {
    var filtered := Survivors(players, minWar, decade);
    var entries := EntriesFor(filtered, CountryOrder(filtered));
    EntriesCounts(filtered, CountryOrder(filtered));
    GroupSizesComplete(filtered, CountryKey);
    SumPermutation(entries, SortBy(entries, CountryBefore), Count);
  }
}
