/**
 * The domestic data store behind the React context: the loaded players and
 * population rows, the validation summary, the filter settings, and the
 * derived aggregates and decade list. The state lives in a class whose
 * methods are the context's callbacks and its year-bounds effect; reading
 * files, fetching samples and the browser's local storage are not modelled,
 * so the loaders take rows already split by the CSV reader.
 */
module DataContext {
  import opened Wrappers
  import opened Sorting
  import opened Sequences
  import opened StateMetaTable
  import opened Records
  import opened RowParsing
  import opened StateAggregation
  import opened Ranges
  import opened PlayerRanges

  /** `defaultFilters`: years from 1850 to the current year, no minimum WAR,
      every decade and every league. The year is read from the clock when
      the module loads, so it is a parameter here. */
  function DefaultFilters(currentYear: real): Filters {
    Filters(1850.0, currentYear, 0.0, AllDecades, Some("all"))
  }

  const NO_PLAYER_ROWS := PlayerSummary(0, 0, 0, 0)
  const NO_POPULATION_ROWS := PopulationSummary(0, 0, 0)

  /** The summary after loading players: the new players' summary, with the
      populations' summary kept from before (empty counts when none). */
  function WithPlayers(previous: Option<ValidationSummary>, summary: PlayerSummary): (r: ValidationSummary)
    ensures r.players == summary
    ensures previous.Some? ==> r.populations == previous.value.populations
    ensures previous.None? ==> r.populations == NO_POPULATION_ROWS
  {
    SummarizeValidation(summary, if previous.Some? then previous.value.populations else NO_POPULATION_ROWS)
  }

  /** The summary after loading populations, the other way round. */
  function WithPopulations(previous: Option<ValidationSummary>, summary: PopulationSummary): (r: ValidationSummary)
    ensures r.populations == summary
    ensures previous.Some? ==> r.players == previous.value.players
    ensures previous.None? ==> r.players == NO_PLAYER_ROWS
  {
    SummarizeValidation(if previous.Some? then previous.value.players else NO_PLAYER_ROWS, summary)
  }

  /** The ranking `getAggregates` may ask for. */
  datatype Metric = TotalWarMetric | WarPerMillionMetric

  predicate HasPerMillion(a: StateAggregate) {
    a.warPerMillion.Some?
  }

  /** The comparator `(b.warPerMillion ?? 0) - (a.warPerMillion ?? 0)`. */
  predicate PerMillionDescending(a: StateAggregate, b: StateAggregate) {
    a.warPerMillion.GetOr(0.0) > b.warPerMillion.GetOr(0.0)
  }

  /** What `getAggregates` returns: nothing without players; otherwise the
      state aggregates, and for the per-million ranking only those with a
      known rate, highest rate first. */
  function AggregatesFor(resolve: Resolver, players: seq<PlayerRecord>, populations: seq<PopulationRecord>,
                         filters: Filters, metric: Option<Metric>, decade: Option<int>): seq<StateAggregate>
  {
    if |players| == 0 then []
    else
      var aggregates := AggregatesOf(resolve, players, populations, filters, decade);
      if metric == Some(WarPerMillionMetric) then
        SortBy(Filter(aggregates, HasPerMillion), PerMillionDescending)
      else aggregates
  }

  class DataStore {
    /** The state reference table `findStateMeta` searches. */
    const table: seq<StateMeta>
    /** The current calendar year, read once when the module loads. */
    const currentYear: real

    var players: seq<PlayerRecord>
    var populations: seq<PopulationRecord>
    var validation: Option<ValidationSummary>
    var filters: Filters

    /** The provider's initial state. */
    constructor (table: seq<StateMeta>, currentYear: real)
      ensures this.table == table && this.currentYear == currentYear
      ensures players == [] && populations == [] && validation == None
      ensures filters == DefaultFilters(currentYear)
    {
      this.table := table;
      this.currentYear := currentYear;
      players := [];
      populations := [];
      validation := None;
      filters := DefaultFilters(currentYear);
    }

    /** `loadPlayersText`: replace the players with the parsed rows and merge
        their summary into the validation summary. */
    method LoadPlayersText(rows: seq<Row>)
      modifies this
      ensures players == ParsedPlayers(rows)
      ensures validation == Some(WithPlayers(old(validation), PlayerSummary(|rows|, |players|, Rejected(rows, ParsePlayerRow),
                                                                              MissingStateCount(table, players))))
      ensures populations == old(populations) && filters == old(filters)
    {
      var data, summary := ParsePlayersCsv(table, rows);
      players := data;
      validation := Some(WithPlayers(validation, summary));
    }

    /** `loadPopulationsText`: replace the population rows with the parsed
        ones and merge their summary into the validation summary. */
    method LoadPopulationsText(rows: seq<Row>)
      modifies this
      ensures populations == SortBy(ParsedPopulations(table, rows), PopulationBefore)
      ensures validation == Some(WithPopulations(old(validation), PopulationSummary(|rows|, |populations|,
                                                                                      Rejected(rows, PopulationParser(table)))))
      ensures players == old(players) && filters == old(filters)
    {
      var data, summary := ParsePopulationCsv(table, rows);
      populations := data;
      validation := Some(WithPopulations(validation, summary));
    }

    /** `clearStoredData`: forget everything loaded and reset the filters. */
    method ClearStoredData()
      modifies this
      ensures players == [] && populations == [] && validation == None
      ensures filters == DefaultFilters(currentYear)
    {
      players := [];
      populations := [];
      validation := None;
      filters := DefaultFilters(currentYear);
    }

    /**
     * The effect that runs after every change of the players: the year
     * range goes back to its defaults without players and otherwise spans
     * exactly the players' birth years; the other filters are kept.
     */
    method SyncYearBounds()
      modifies this
      ensures players == old(players) && populations == old(populations) && validation == old(validation)
      ensures filters.minWar == old(filters).minWar && filters.selectedDecade == old(filters).selectedDecade
      ensures filters.league == old(filters).league
      ensures players == [] ==> filters.minYear == 1850.0 && filters.maxYear == currentYear
      ensures players != [] ==>
                && (forall p :: p in players ==> filters.minYear <= p.birthYear <= filters.maxYear)
                && (exists p :: p in players && p.birthYear == filters.minYear)
                && (exists p :: p in players && p.birthYear == filters.maxYear)
    {
      if |players| == 0 {
        var defaults := DefaultFilters(currentYear);
        filters := filters.(minYear := defaults.minYear, maxYear := defaults.maxYear);
        return;
      }
      var years := BirthYears(players);
      var minYear, maxYear := MinOf(years), MaxOf(years);
      assert forall p :: p in players ==> minYear <= p.birthYear <= maxYear;
      assert exists i :: 0 <= i < |players| && players[i].birthYear == minYear;
      assert exists i :: 0 <= i < |players| && players[i].birthYear == maxYear;
      filters := filters.(minYear := minYear, maxYear := maxYear);
    }

    /** `getAggregates`, with `options.metric` and `options.decade` as
        options (`None` for missing or null). */
    method GetAggregates(metric: Option<Metric>, decade: Option<int>) returns (result: seq<StateAggregate>)
      ensures result == AggregatesFor(StateResolver(table), players, populations, filters, metric, decade)
    {
      if |players| == 0 {
        return [];
      }
      var aggregates := AggregateByState(StateResolver(table), players, populations, filters, decade);
      if metric == Some(WarPerMillionMetric) {
        result := SortBy(Filter(aggregates, HasPerMillion), PerMillionDescending);
      } else {
        result := aggregates;
      }
    }

    /** `decades`: the birth decades of the loaded players. */
    method Decades() returns (decades: seq<int>)
      ensures StrictlyAscending(decades)
      ensures forall d :: d in decades <==> exists p :: p in players && p.birthDecade == d
    {
      decades := ListDecades(players);
    }
  }

  lemma PerMillionDescendingIsStrictOrder()
    ensures StrictOrder(PerMillionDescending)
  {
  }

  /** The per-million ranking holds exactly the state aggregates that have a
      rate, each once, ordered by rate with the highest first. */
  lemma PerMillionRanking(resolve: Resolver, players: seq<PlayerRecord>, populations: seq<PopulationRecord>,
                          filters: Filters, decade: Option<int>)
    requires players != []
    ensures var all := AggregatesOf(resolve, players, populations, filters, decade);
            var ranked := AggregatesFor(resolve, players, populations, filters, Some(WarPerMillionMetric), decade);
            && (forall a :: a in ranked <==> a in all && a.warPerMillion.Some?)
            && (forall i, j :: 0 <= i < j < |ranked| ==>
                  ranked[i].warPerMillion.value >= ranked[j].warPerMillion.value)
            && DistinctKeys(ranked, AggregateFips)
  {
    var all := AggregatesOf(resolve, players, populations, filters, decade);
    var kept := Filter(all, HasPerMillion);
    var ranked := SortBy(kept, PerMillionDescending);
    forall a ensures a in ranked <==> a in all && a.warPerMillion.Some? {
      FilterMember(all, HasPerMillion, a);
      SortByMembers(kept, PerMillionDescending, a);
    }
    PerMillionDescendingIsStrictOrder();
    SortBySorted(kept, PerMillionDescending);
    forall i | 0 <= i < |ranked| ensures ranked[i].warPerMillion.Some? {
      assert ranked[i] in ranked;
    }
    OneAggregatePerState(resolve, players, populations, filters, decade);
    FilterDistinct(all, HasPerMillion, AggregateFips);
    DistinctPermutation(kept, ranked, AggregateFips);
  }

  /** The total-WAR ranking is the state aggregation itself, and nothing
      is shown before players are loaded. */
  lemma TotalWarRanking(resolve: Resolver, players: seq<PlayerRecord>, populations: seq<PopulationRecord>,
                        filters: Filters, metric: Option<Metric>, decade: Option<int>)
    ensures players == [] ==> AggregatesFor(resolve, players, populations, filters, metric, decade) == []
    ensures players != [] && metric != Some(WarPerMillionMetric) ==>
              AggregatesFor(resolve, players, populations, filters, metric, decade) ==
              AggregatesOf(resolve, players, populations, filters, decade)
  {
  }
}
