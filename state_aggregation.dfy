/**
 * `filterPlayers` and `aggregateByState`: the players that pass the filters
 * are grouped by the FIPS code of their resolved birth state; each group
 * becomes one state aggregate with its WAR total, its player count, its
 * players ordered by WAR, and WAR per million residents when a population
 * figure is known; the aggregates are ordered by total WAR, highest first.
 */
module StateAggregation {
  import opened Wrappers
  import opened JsNumber
  import opened Sorting
  import opened StateMetaTable
  import opened Records
  import opened Sequences
  import opened Grouping
  import opened PopulationLookup

  /** `findStateMeta` as the aggregation sees it: raw text to a table entry. */
  type Resolver = string -> Option<StateMeta>

  /** The predicate of `filterPlayers`: inside the year range, at least the
      WAR floor, in the selected decade (if any) and born in a known state.
      The league setting is not consulted. */
  predicate Keep(resolve: Resolver, filters: Filters, p: PlayerRecord) {
    && filters.minYear <= p.birthYear <= filters.maxYear
    && filters.minWar <= p.warCareer
    && (filters.selectedDecade.OneDecade? ==> p.birthDecade == filters.selectedDecade.decade)
    && resolve(p.birthStateRaw).Some?
  }

  function Keeps(resolve: Resolver, filters: Filters): PlayerRecord -> bool {
    p => Keep(resolve, filters, p)
  }

  /** `filterPlayers`: the players that pass, in their original order. */
  function FilterPlayers(resolve: Resolver, players: seq<PlayerRecord>, filters: Filters): (r: seq<PlayerRecord>)
    ensures |r| <= |players|
    ensures forall i :: 0 <= i < |r| ==> Keep(resolve, filters, r[i])
  {
    Filter(players, Keeps(resolve, filters))
  }

  /** A player is in the filtered list exactly when it is in the input and passes. */
  lemma FilterPlayersMember(resolve: Resolver, players: seq<PlayerRecord>, filters: Filters, p: PlayerRecord)
    ensures p in FilterPlayers(resolve, players, filters) <==> p in players && Keep(resolve, filters, p)
  {
    FilterMember(players, Keeps(resolve, filters), p);
  }

  /** Filtering a concatenation filters each part: relative order is kept. */
  lemma FilterPlayersAppend(resolve: Resolver, a: seq<PlayerRecord>, b: seq<PlayerRecord>, filters: Filters)
    ensures FilterPlayers(resolve, a + b, filters) == FilterPlayers(resolve, a, filters) + FilterPlayers(resolve, b, filters)
  {
    FilterAppend(a, b, Keeps(resolve, filters));
  }

  /** The league setting never changes the result. */
  lemma LeagueIgnored(resolve: Resolver, players: seq<PlayerRecord>, filters: Filters, league: Option<string>)
    ensures FilterPlayers(resolve, players, filters.(league := league)) == FilterPlayers(resolve, players, filters)
  {
    FilterAgree(players, Keeps(resolve, filters.(league := league)), Keeps(resolve, filters));
  }

  /** Raising the WAR floor only removes players: it is the same as
      filtering the already filtered list again. */
  lemma RaiseMinWar(resolve: Resolver, players: seq<PlayerRecord>, filters: Filters, minWar: real)
    requires filters.minWar <= minWar
    ensures FilterPlayers(resolve, players, filters.(minWar := minWar)) ==
            FilterPlayers(resolve, FilterPlayers(resolve, players, filters), filters.(minWar := minWar))
  {
    FilterStronger(players, Keeps(resolve, filters), Keeps(resolve, filters.(minWar := minWar)));
  }

  /** The decade the filter uses: the requested one, else the filter's own. */
  function EffectiveDecade(filters: Filters, targetDecade: Option<int>): DecadeFilter {
    match targetDecade
    case Some(d) => OneDecade(d)
    case None => filters.selectedDecade
  }

  /** The players `aggregateByState` groups: `filterPlayers` with the
      effective decade in place of the selected one. */
  function Filtered(resolve: Resolver, players: seq<PlayerRecord>, filters: Filters, targetDecade: Option<int>): seq<PlayerRecord> {
    FilterPlayers(resolve, players, filters.(selectedDecade := EffectiveDecade(filters, targetDecade)))
  }

  /** `decadeTargetYear`, the year populations are matched against: the
      middle of a requested decade, else `midpointYear`, the rounded
      midpoint of the year range. */
  function TargetYear(filters: Filters, targetDecade: Option<int>): (y: real)
    ensures targetDecade.Some? ==> y == (targetDecade.value + 5) as real
    ensures targetDecade.None? ==> -0.5 < y - (filters.minYear + filters.maxYear) / 2.0 <= 0.5
    ensures targetDecade.None? ==> y == y.Floor as real
  {
    match targetDecade
    case Some(d) => (d + 5) as real
    case None => JsRound((filters.minYear + filters.maxYear) / 2.0) as real
  }

  function MetaOf(resolve: Resolver, p: PlayerRecord): Option<StateMeta> {
    resolve(p.birthStateRaw)
  }

  /** The player's birth state resolves to an entry with this FIPS code. */
  predicate InState(resolve: Resolver, p: PlayerRecord, fips: string) {
    MetaOf(resolve, p).Some? && MetaOf(resolve, p).value.fips == fips
  }

  /** The grouping key: the FIPS code of the player's resolved state. */
  function StateKey(resolve: Resolver): PlayerRecord -> Option<string> {
    p => if MetaOf(resolve, p).Some? then Some(MetaOf(resolve, p).value.fips) else None
  }

  /** The players of one state, in order. */
  function GroupOf(resolve: Resolver, players: seq<PlayerRecord>, fips: string): (g: seq<PlayerRecord>)
    ensures |g| <= |players|
    ensures forall i :: 0 <= i < |g| ==> InState(resolve, g[i], fips)
  {
    Group(players, StateKey(resolve), fips)
  }

  /** The FIPS codes of the players' states in order of first appearance:
      the key order of the `Map` the aggregation fills. */
  function FipsOrder(resolve: Resolver, players: seq<PlayerRecord>): (order: seq<string>)
    ensures forall i, j :: 0 <= i < j < |order| ==> order[i] != order[j]
  {
    KeyOrder(players, StateKey(resolve))
  }

  function War(p: PlayerRecord): real {
    p.warCareer
  }

  /** The sum of the players' WAR, unrounded. */
  function SumWar(players: seq<PlayerRecord>): real {
    Sum(players, War)
  }

  /** The comparator `b.warCareer - a.warCareer`: higher WAR first. */
  predicate WarDescending(a: PlayerRecord, b: PlayerRecord) {
    a.warCareer > b.warCareer
  }

  /** The comparator `b.totalWar - a.totalWar`: higher total first. */
  predicate TotalDescending(a: StateAggregate, b: StateAggregate) {
    a.totalWar > b.totalWar
  }

  /** WAR per million residents, when the population is known and positive. */
  function WarPerMillion(totalWar: real, population: Option<real>): (r: Option<real>)
    ensures r.Some? <==> population.Some? && population.value > 0.0
    ensures r.Some? ==> r.value * population.value == totalWar * 1000000.0
  {
    if population.Some? && population.value > 0.0 then Some(totalWar / (population.value / 1000000.0)) else None
  }

  /** A state's aggregate after the grouping pass: the meta of its first
      player, the running total and count, players in input order. */
  function Accumulated(resolve: Resolver, players: seq<PlayerRecord>, fips: string): StateAggregate
    requires GroupOf(resolve, players, fips) != []
  {
    var g := GroupOf(resolve, players, fips);
    StateAggregate(MetaOf(resolve, g[0]).value, SumWar(g), |g|, None, g)
  }

  /** A state's aggregate after the second pass: players sorted by WAR and
      WAR per million taken from the population nearest the target year. */
  function Finished(a: StateAggregate, lookup: Lookup, targetYear: real): StateAggregate {
    a.(players := SortBy(a.players, WarDescending),
       warPerMillion := WarPerMillion(a.totalWar, ClosestPopulation(lookup, a.meta.postal, targetYear)))
  }

  /** The finished aggregates in key order, before the final sort. */
  function FinishedAll(resolve: Resolver, players: seq<PlayerRecord>, order: seq<string>, lookup: Lookup, targetYear: real): (r: seq<StateAggregate>)
    requires forall f :: f in order ==> GroupOf(resolve, players, f) != []
    ensures |r| == |order|
  {
    if order == [] then []
    else
      FinishedAll(resolve, players, order[..|order| - 1], lookup, targetYear) +
      [Finished(Accumulated(resolve, players, order[|order| - 1]), lookup, targetYear)]
  }

  /** What `aggregateByState` returns. */
  function AggregatesOf(resolve: Resolver, players: seq<PlayerRecord>, populations: seq<PopulationRecord>,
                        filters: Filters, targetDecade: Option<int>): seq<StateAggregate>
  {
    var filtered := Filtered(resolve, players, filters, targetDecade);
    KeyOrderGroups(filtered, StateKey(resolve));
    SortBy(FinishedAll(resolve, filtered, FipsOrder(resolve, filtered), PopulationLookupOf(populations),
                       TargetYear(filters, targetDecade)),
           TotalDescending)
  }

  lemma SumWarSnoc(players: seq<PlayerRecord>, p: PlayerRecord)
    ensures SumWar(players + [p]) == SumWar(players) + p.warCareer
  {
    SumSnoc(players, p, War);
  }

  /** What the grouping pass has built after the players `ps`: the key
      order, a key per state present, each with its accumulated aggregate. */
  ghost predicate Grouped(resolve: Resolver, ps: seq<PlayerRecord>, aggregates: map<string, StateAggregate>, order: seq<string>) {
    && order == FipsOrder(resolve, ps)
    && (forall f :: f in aggregates <==> f in order)
    && (forall f :: f in aggregates ==> GroupOf(resolve, ps, f) != [] && aggregates[f] == Accumulated(resolve, ps, f))
  }

  /** A player of an unknown state is skipped. */
  lemma GroupSkip(resolve: Resolver, ps: seq<PlayerRecord>, p: PlayerRecord,
                  aggregates: map<string, StateAggregate>, order: seq<string>)
    requires Grouped(resolve, ps, aggregates, order) && MetaOf(resolve, p).None?
    ensures Grouped(resolve, ps + [p], aggregates, order)
  {
    assert FipsOrder(resolve, ps + [p]) == order by {
      KeyOrderSnoc(ps, p, StateKey(resolve));
    }
    forall f | f in aggregates
      ensures GroupOf(resolve, ps + [p], f) != [] && aggregates[f] == Accumulated(resolve, ps + [p], f)
    {
      AccumulatedOther(resolve, ps, p, f);
    }
  }

  /** A fresh aggregate for the state `meta`: no WAR, no players. */
  function Opened(meta: StateMeta): StateAggregate {
    StateAggregate(meta, 0.0, 0, None, [])
  }

  /** One more player added to an aggregate: WAR total, count and list. */
  function Added(a: StateAggregate, p: PlayerRecord): StateAggregate {
    a.(totalWar := a.totalWar + p.warCareer, playerCount := a.playerCount + 1, players := a.players + [p])
  }

  /** The first player of a state opens its aggregate and appends its key. */
  lemma GroupOpen(resolve: Resolver, ps: seq<PlayerRecord>, p: PlayerRecord,
                  aggregates: map<string, StateAggregate>, order: seq<string>)
    requires Grouped(resolve, ps, aggregates, order)
    requires MetaOf(resolve, p).Some? && MetaOf(resolve, p).value.fips !in aggregates
    ensures var meta := MetaOf(resolve, p).value;
            Grouped(resolve, ps + [p], aggregates[meta.fips := Added(Opened(meta), p)], order + [meta.fips])
  {
    var meta := MetaOf(resolve, p).value;
    var aggregates' := aggregates[meta.fips := Added(Opened(meta), p)];
    var order' := order + [meta.fips];
    assert order' == FipsOrder(resolve, ps + [p]) by {
      KeyOrderSnoc(ps, p, StateKey(resolve));
    }
    assert forall f :: f in aggregates' <==> f in order';
    forall f | f in aggregates'
      ensures GroupOf(resolve, ps + [p], f) != [] && aggregates'[f] == Accumulated(resolve, ps + [p], f)
    {
      GroupSnoc(ps, p, StateKey(resolve), f);
      if f == meta.fips {
        KeyOrderMember(ps, StateKey(resolve), f);
        assert GroupOf(resolve, ps + [p], f) == [p];
        SumWarSnoc([], p);
      }
    }
  }

  /** A further player of a state is added to its aggregate. */
  lemma GroupAdd(resolve: Resolver, ps: seq<PlayerRecord>, p: PlayerRecord,
                 aggregates: map<string, StateAggregate>, order: seq<string>)
    requires Grouped(resolve, ps, aggregates, order)
    requires MetaOf(resolve, p).Some? && MetaOf(resolve, p).value.fips in aggregates
    ensures var fips := MetaOf(resolve, p).value.fips;
            Grouped(resolve, ps + [p], aggregates[fips := Added(aggregates[fips], p)], order)
  {
    var fips := MetaOf(resolve, p).value.fips;
    var aggregates' := aggregates[fips := Added(aggregates[fips], p)];
    assert order == FipsOrder(resolve, ps + [p]) by {
      KeyOrderSnoc(ps, p, StateKey(resolve));
    }
    forall f | f in aggregates'
      ensures GroupOf(resolve, ps + [p], f) != [] && aggregates'[f] == Accumulated(resolve, ps + [p], f)
    {
      if f == fips {
        AccumulatedAdd(resolve, ps, p);
      } else {
        AccumulatedOther(resolve, ps, p, f);
      }
    }
  }

  lemma AccumulatedAdd(resolve: Resolver, ps: seq<PlayerRecord>, p: PlayerRecord)
    requires MetaOf(resolve, p).Some? && GroupOf(resolve, ps, MetaOf(resolve, p).value.fips) != []
    ensures var fips := MetaOf(resolve, p).value.fips;
            var a := Accumulated(resolve, ps, fips);
            GroupOf(resolve, ps + [p], fips) != [] &&
            Accumulated(resolve, ps + [p], fips) == Added(a, p)
  {
    var fips := MetaOf(resolve, p).value.fips;
    GroupSnoc(ps, p, StateKey(resolve), fips);
    var g := GroupOf(resolve, ps, fips);
    SumWarSnoc(g, p);
    assert (g + [p])[0] == g[0];
  }

  lemma AccumulatedOther(resolve: Resolver, ps: seq<PlayerRecord>, p: PlayerRecord, fips: string)
    requires GroupOf(resolve, ps, fips) != [] && !InState(resolve, p, fips)
    ensures GroupOf(resolve, ps + [p], fips) == GroupOf(resolve, ps, fips)
    ensures Accumulated(resolve, ps + [p], fips) == Accumulated(resolve, ps, fips)
  {
    GroupSnoc(ps, p, StateKey(resolve), fips);
  }

  /** The second pass handles the keys one at a time, in key order. */
  lemma FinishedStep(resolve: Resolver, players: seq<PlayerRecord>, order: seq<string>, k: nat,
                     lookup: Lookup, targetYear: real)
    requires forall f :: f in order ==> GroupOf(resolve, players, f) != []
    requires k < |order|
    ensures FinishedAll(resolve, players, order[..k + 1], lookup, targetYear) ==
            FinishedAll(resolve, players, order[..k], lookup, targetYear) +
            [Finished(Accumulated(resolve, players, order[k]), lookup, targetYear)]
  {
    assert order[..k + 1][..k] == order[..k];
  }

  /** What the second pass needs of the first: every key of the order
      names a present state, with its accumulated aggregate in the map. */
  ghost predicate Finishable(resolve: Resolver, filtered: seq<PlayerRecord>, aggregates: map<string, StateAggregate>,
                             order: seq<string>) {
    forall f :: f in order ==>
      GroupOf(resolve, filtered, f) != [] && f in aggregates && aggregates[f] == Accumulated(resolve, filtered, f)
  }

  /** The `k`-th step of the second pass finishes the aggregate the first
      pass left under the `k`-th key. */
  lemma GroupedStep(resolve: Resolver, filtered: seq<PlayerRecord>, aggregates: map<string, StateAggregate>,
                    order: seq<string>, k: nat, lookup: Lookup, targetYear: real)
    requires Finishable(resolve, filtered, aggregates, order)
    requires k < |order|
    ensures order[k] in aggregates
    ensures FinishedAll(resolve, filtered, order[..k + 1], lookup, targetYear) ==
            FinishedAll(resolve, filtered, order[..k], lookup, targetYear) + [Finished(aggregates[order[k]], lookup, targetYear)]
  {
    FinishedStep(resolve, filtered, order, k, lookup, targetYear);
  }

  /** The first pass of `aggregateByState`: the `Map` from
      FIPS code to aggregate, filled in player order, with its key order. */
  method GroupByState(resolve: Resolver, filtered: seq<PlayerRecord>)
    returns (aggregates: map<string, StateAggregate>, order: seq<string>)
    ensures Grouped(resolve, filtered, aggregates, order)
  {
    aggregates := map[];
    order := [];
    for i := 0 to |filtered|
      invariant Grouped(resolve, filtered[..i], aggregates, order)
    {
      var player := filtered[i];
      assert filtered[..i + 1] == filtered[..i] + [player];
      var meta := resolve(player.birthStateRaw);
      if meta.Some? {
        var fips := meta.value.fips;
        if fips in aggregates {
          GroupAdd(resolve, filtered[..i], player, aggregates, order);
          aggregates := aggregates[fips := Added(aggregates[fips], player)];
        } else {
          GroupOpen(resolve, filtered[..i], player, aggregates, order);
          order := order + [fips];
          aggregates := aggregates[fips := Added(Opened(meta.value), player)];
        }
      } else {
        GroupSkip(resolve, filtered[..i], player, aggregates, order);
      }
    }
    assert filtered[..|filtered|] == filtered;
  }

  /** The callback of the second pass on one aggregate. */
  method FinishAggregate(aggregate: StateAggregate, lookup: Lookup, targetYear: real) returns (finished: StateAggregate)
    ensures finished == Finished(aggregate, lookup, targetYear)
  {
    var sortedPlayers := SortBy(aggregate.players, WarDescending);
    var population := FindClosestPopulation(lookup, aggregate.meta.postal, targetYear);
    var warPerMillion := WarPerMillion(aggregate.totalWar, population);
    finished := aggregate.(players := sortedPlayers, warPerMillion := warPerMillion);
  }

  /** The second pass of `aggregateByState`, over the aggregates in key
      order: each state's players sorted by WAR, and WAR per million from
      the population nearest the target year. */
  method FinishAggregates(resolve: Resolver, filtered: seq<PlayerRecord>, aggregates: map<string, StateAggregate>,
                          order: seq<string>, lookup: Lookup, targetYear: real)
    returns (values: seq<StateAggregate>)
    requires Finishable(resolve, filtered, aggregates, order)
    ensures values == FinishedAll(resolve, filtered, order, lookup, targetYear)
  {
    values := [];
    for k := 0 to |order|
      invariant values == FinishedAll(resolve, filtered, order[..k], lookup, targetYear)
    {
      var aggregate := aggregates[order[k]];
      GroupedStep(resolve, filtered, aggregates, order, k, lookup, targetYear);
      var finished := FinishAggregate(aggregate, lookup, targetYear);
      values := values + [finished];
    }
    assert order[..|order|] == order;
  }

  /** `AggregatesOf` is the result of the two passes and the final sort. */
  lemma AggregatesOfPasses(resolve: Resolver, players: seq<PlayerRecord>, populations: seq<PopulationRecord>,
                           filters: Filters, targetDecade: Option<int>,
                           filtered: seq<PlayerRecord>, order: seq<string>, lookup: Lookup, targetYear: real)
    requires filtered == Filtered(resolve, players, filters, targetDecade)
    requires order == FipsOrder(resolve, filtered)
    requires lookup == PopulationLookupOf(populations)
    requires targetYear == TargetYear(filters, targetDecade)
    ensures forall f :: f in order ==> GroupOf(resolve, filtered, f) != []
    ensures AggregatesOf(resolve, players, populations, filters, targetDecade) ==
            SortBy(FinishedAll(resolve, filtered, order, lookup, targetYear), TotalDescending)
  {
    KeyOrderGroups(filtered, StateKey(resolve));
  }

  /** `aggregateByState`, with `findStateMeta` passed in as `resolve`.
      `targetDecade` is `options.targetDecade`, `None` for a missing or null option. */
  method AggregateByState(resolve: Resolver, players: seq<PlayerRecord>, populations: seq<PopulationRecord>,
                          filters: Filters, targetDecade: Option<int>) returns (result: seq<StateAggregate>)
    ensures result == AggregatesOf(resolve, players, populations, filters, targetDecade)
  {
    var filtered := Filtered(resolve, players, filters, targetDecade);
    var lookup := BuildPopulationLookup(populations);
    var targetYear := TargetYear(filters, targetDecade);

    // The grouping pass: a map keyed by FIPS code and its key order.
    var aggregates, order := GroupByState(resolve, filtered);

    // The second pass: sort each state's players, attach WAR per million.
    var values := FinishAggregates(resolve, filtered, aggregates, order, lookup, targetYear);
    result := SortBy(values, TotalDescending);
    AggregatesOfPasses(resolve, players, populations, filters, targetDecade, filtered, order, lookup, targetYear);
  }

  // Properties of the result of `aggregateByState`.

  lemma WarDescendingIsStrictOrder()
    ensures StrictOrder(WarDescending)
  {
  }

  lemma TotalDescendingIsStrictOrder()
    ensures StrictOrder(TotalDescending)
  {
  }

  /** The `k`-th finished aggregate belongs to the `k`-th key. */
  lemma {:induction false} FinishedAllIndex(resolve: Resolver, players: seq<PlayerRecord>, order: seq<string>,
                                           lookup: Lookup, targetYear: real, k: nat)
    requires forall f :: f in order ==> GroupOf(resolve, players, f) != []
    requires k < |order|
    ensures FinishedAll(resolve, players, order, lookup, targetYear)[k] ==
            Finished(Accumulated(resolve, players, order[k]), lookup, targetYear)
  {
    if k < |order| - 1 {
      var init := order[..|order| - 1];
      FinishedAllFront(resolve, players, order, lookup, targetYear, k);
      FinishedAllIndex(resolve, players, init, lookup, targetYear, k);
      assert init[k] == order[k];
    } else {
      FinishedAllLast(resolve, players, order, lookup, targetYear);
    }
  }

  lemma FinishedAllFront(resolve: Resolver, players: seq<PlayerRecord>, order: seq<string>,
                         lookup: Lookup, targetYear: real, k: nat)
    requires forall f :: f in order ==> GroupOf(resolve, players, f) != []
    requires k < |order| - 1
    ensures forall f :: f in order[..|order| - 1] ==> GroupOf(resolve, players, f) != []
    ensures FinishedAll(resolve, players, order, lookup, targetYear)[k] ==
            FinishedAll(resolve, players, order[..|order| - 1], lookup, targetYear)[k]
  {
  }

  lemma FinishedAllLast(resolve: Resolver, players: seq<PlayerRecord>, order: seq<string>,
                        lookup: Lookup, targetYear: real)
    requires forall f :: f in order ==> GroupOf(resolve, players, f) != []
    requires order != []
    ensures FinishedAll(resolve, players, order, lookup, targetYear)[|order| - 1] ==
            Finished(Accumulated(resolve, players, order[|order| - 1]), lookup, targetYear)
  {
  }

  /** A state's aggregate carries that state's FIPS code. */
  lemma AccumulatedState(resolve: Resolver, players: seq<PlayerRecord>, fips: string)
    requires GroupOf(resolve, players, fips) != []
    ensures Accumulated(resolve, players, fips).meta.fips == fips
  {
  }

  /** Every aggregate of the result is some present state's finished aggregate. */
  lemma AggregateOrigin(resolve: Resolver, players: seq<PlayerRecord>, populations: seq<PopulationRecord>,
                        filters: Filters, targetDecade: Option<int>, a: StateAggregate)
    requires a in AggregatesOf(resolve, players, populations, filters, targetDecade)
    ensures var filtered := Filtered(resolve, players, filters, targetDecade);
            GroupOf(resolve, filtered, a.meta.fips) != [] &&
            a == Finished(Accumulated(resolve, filtered, a.meta.fips),
                          PopulationLookupOf(populations), TargetYear(filters, targetDecade))
  {
    var filtered := Filtered(resolve, players, filters, targetDecade);
    var order := FipsOrder(resolve, filtered);
    var lookup, targetYear := PopulationLookupOf(populations), TargetYear(filters, targetDecade);
    var k := AggregateIndex(resolve, players, populations, filters, targetDecade, a);
    FinishedAllIndex(resolve, filtered, order, lookup, targetYear, k);
    AccumulatedState(resolve, filtered, order[k]);
  }

  /** Where an aggregate of the result sits before the final sort. */
  lemma AggregateIndex(resolve: Resolver, players: seq<PlayerRecord>, populations: seq<PopulationRecord>,
                       filters: Filters, targetDecade: Option<int>, a: StateAggregate) returns (k: nat)
    requires a in AggregatesOf(resolve, players, populations, filters, targetDecade)
    ensures var filtered := Filtered(resolve, players, filters, targetDecade);
            var order := FipsOrder(resolve, filtered);
            && (forall f :: f in order ==> GroupOf(resolve, filtered, f) != [])
            && k < |order|
            && FinishedAll(resolve, filtered, order, PopulationLookupOf(populations), TargetYear(filters, targetDecade))[k] == a
  {
    var filtered := Filtered(resolve, players, filters, targetDecade);
    var order := FipsOrder(resolve, filtered);
    KeyOrderGroups(filtered, StateKey(resolve));
    var finished := FinishedAll(resolve, filtered, order, PopulationLookupOf(populations), TargetYear(filters, targetDecade));
    SortByMembers(finished, TotalDescending, a);
    k :| 0 <= k < |finished| && finished[k] == a;
  }

  /**
   * Each aggregate of `aggregateByState` describes one state with at least
   * one filtered player: its players are exactly that state's filtered
   * players, sorted by WAR (highest first), its count is their number, its
   * total is the unrounded sum of their WAR, and its WAR per million is
   * taken from the population nearest the target year.
   */
  lemma AggregateSummary(resolve: Resolver, players: seq<PlayerRecord>, populations: seq<PopulationRecord>,
                         filters: Filters, targetDecade: Option<int>, a: StateAggregate)
    requires a in AggregatesOf(resolve, players, populations, filters, targetDecade)
    ensures var g := GroupOf(resolve, Filtered(resolve, players, filters, targetDecade), a.meta.fips);
            && g != []
            && multiset(a.players) == multiset(g)
            && SortedBy(a.players, WarDescending)
            && a.playerCount == |a.players| == |g|
            && a.totalWar == SumWar(a.players) == SumWar(g)
            && a.warPerMillion == WarPerMillion(a.totalWar, ClosestPopulation(PopulationLookupOf(populations),
                                                                             a.meta.postal, TargetYear(filters, targetDecade)))
  {
    AggregateOrigin(resolve, players, populations, filters, targetDecade, a);
    var g := GroupOf(resolve, Filtered(resolve, players, filters, targetDecade), a.meta.fips);
    WarDescendingIsStrictOrder();
    SortBySorted(g, WarDescending);
    SumPermutation(a.players, g, War);
  }

  /** The players of an aggregate passed the filters, with the requested
      decade overriding the selected one, and were born in its state. */
  lemma AggregatePlayers(resolve: Resolver, players: seq<PlayerRecord>, populations: seq<PopulationRecord>,
                         filters: Filters, targetDecade: Option<int>, a: StateAggregate, p: PlayerRecord)
    requires a in AggregatesOf(resolve, players, populations, filters, targetDecade)
    requires p in a.players
    ensures p in players && InState(resolve, p, a.meta.fips)
    ensures filters.minYear <= p.birthYear <= filters.maxYear && filters.minWar <= p.warCareer
    ensures targetDecade.Some? ==> p.birthDecade == targetDecade.value
    ensures targetDecade.None? && filters.selectedDecade.OneDecade? ==> p.birthDecade == filters.selectedDecade.decade
  {
    AggregateOrigin(resolve, players, populations, filters, targetDecade, a);
    var filtered := Filtered(resolve, players, filters, targetDecade);
    var g := GroupOf(resolve, filtered, a.meta.fips);
    assert p in multiset(g);
    GroupMember(filtered, StateKey(resolve), a.meta.fips, p);
    FilterPlayersMember(resolve, players, filters.(selectedDecade := EffectiveDecade(filters, targetDecade)), p);
  }

  /** There is an aggregate for a state exactly when some filtered player
      was born there. */
  lemma AggregateForEveryState(resolve: Resolver, players: seq<PlayerRecord>, populations: seq<PopulationRecord>,
                               filters: Filters, targetDecade: Option<int>, fips: string)
    ensures (exists a :: a in AggregatesOf(resolve, players, populations, filters, targetDecade) && a.meta.fips == fips) <==>
            GroupOf(resolve, Filtered(resolve, players, filters, targetDecade), fips) != []
  {
    var filtered := Filtered(resolve, players, filters, targetDecade);
    var result := AggregatesOf(resolve, players, populations, filters, targetDecade);
    if exists a :: a in result && a.meta.fips == fips {
      var a :| a in result && a.meta.fips == fips;
      AggregateOrigin(resolve, players, populations, filters, targetDecade, a);
    }
    if GroupOf(resolve, filtered, fips) != [] {
      var order := FipsOrder(resolve, filtered);
      KeyOrderGroups(filtered, StateKey(resolve));
      KeyOrderMember(filtered, StateKey(resolve), fips);
      var k :| 0 <= k < |order| && order[k] == fips;
      var lookup, targetYear := PopulationLookupOf(populations), TargetYear(filters, targetDecade);
      var finished := FinishedAll(resolve, filtered, order, lookup, targetYear);
      FinishedAllIndex(resolve, filtered, order, lookup, targetYear, k);
      AccumulatedState(resolve, filtered, fips);
      assert finished[k] in finished;
      SortByMembers(finished, TotalDescending, finished[k]);
    }
  }

  function AggregateFips(a: StateAggregate): string {
    a.meta.fips
  }

  /** No state has two aggregates. */
  lemma OneAggregatePerState(resolve: Resolver, players: seq<PlayerRecord>, populations: seq<PopulationRecord>,
                             filters: Filters, targetDecade: Option<int>)
    ensures DistinctKeys(AggregatesOf(resolve, players, populations, filters, targetDecade), AggregateFips)
  {
    var filtered := Filtered(resolve, players, filters, targetDecade);
    var order := FipsOrder(resolve, filtered);
    KeyOrderGroups(filtered, StateKey(resolve));
    var lookup, targetYear := PopulationLookupOf(populations), TargetYear(filters, targetDecade);
    var finished := FinishedAll(resolve, filtered, order, lookup, targetYear);
    forall i, j | 0 <= i < j < |finished| ensures AggregateFips(finished[i]) != AggregateFips(finished[j]) {
      FinishedAllIndex(resolve, filtered, order, lookup, targetYear, i);
      FinishedAllIndex(resolve, filtered, order, lookup, targetYear, j);
      AccumulatedState(resolve, filtered, order[i]);
      AccumulatedState(resolve, filtered, order[j]);
    }
    DistinctPermutation(finished, SortBy(finished, TotalDescending), AggregateFips);
  }

  /** The aggregates are ordered by total WAR, highest first. */
  lemma AggregatesByTotal(resolve: Resolver, players: seq<PlayerRecord>, populations: seq<PopulationRecord>,
                          filters: Filters, targetDecade: Option<int>)
    ensures SortedBy(AggregatesOf(resolve, players, populations, filters, targetDecade), TotalDescending)
  {
    var filtered := Filtered(resolve, players, filters, targetDecade);
    KeyOrderGroups(filtered, StateKey(resolve));
    TotalDescendingIsStrictOrder();
    SortBySorted(FinishedAll(resolve, filtered, FipsOrder(resolve, filtered), PopulationLookupOf(populations),
                             TargetYear(filters, targetDecade)), TotalDescending);
  }

  function Count(a: StateAggregate): real {
    a.playerCount as real
  }

  lemma {:induction false} FinishedCounts(resolve: Resolver, players: seq<PlayerRecord>, order: seq<string>,
                                         lookup: Lookup, targetYear: real)
    requires forall f :: f in order ==> GroupOf(resolve, players, f) != []
    ensures Sum(FinishedAll(resolve, players, order, lookup, targetYear), Count) == GroupSizes(players, StateKey(resolve), order) as real
  {
    if order != [] {
      var init := order[..|order| - 1];
      FinishedCounts(resolve, players, init, lookup, targetYear);
      SumSnoc(FinishedAll(resolve, players, init, lookup, targetYear),
              Finished(Accumulated(resolve, players, order[|order| - 1]), lookup, targetYear), Count);
    }
  }

  /** The player counts add up to the number of filtered players. */
  lemma CountsAddUp(resolve: Resolver, players: seq<PlayerRecord>, populations: seq<PopulationRecord>,
                    filters: Filters, targetDecade: Option<int>)
    ensures Sum(AggregatesOf(resolve, players, populations, filters, targetDecade), Count) ==
            |Filtered(resolve, players, filters, targetDecade)| as real
  {
    var filtered := Filtered(resolve, players, filters, targetDecade);
    var order := FipsOrder(resolve, filtered);
    KeyOrderGroups(filtered, StateKey(resolve));
    var lookup, targetYear := PopulationLookupOf(populations), TargetYear(filters, targetDecade);
    var finished := FinishedAll(resolve, filtered, order, lookup, targetYear);
    FinishedCounts(resolve, filtered, order, lookup, targetYear);
    GroupSizesComplete(filtered, StateKey(resolve));
    SumPermutation(finished, SortBy(finished, TotalDescending), Count);
  }
}
