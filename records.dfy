/**
 * The records of the domestic pipeline: parsed players and population rows,
 * the filter settings, the per-state aggregate and the validation summary.
 */
module Records {
  import opened Wrappers
  import opened StateMetaTable

  /** One row of a CSV file, already split by the CSV reader: header -> cell. */
  type Row = map<string, string>

  datatype PlayerRecord = PlayerRecord(
    playerId: string,
    fullName: string,
    birthYear: real,
    birthStateRaw: string,
    warCareer: real,
    birthDecade: int)

  datatype PopulationRecord = PopulationRecord(
    state: string,
    year: real,
    population: real,
    meta: StateMeta)

  /** The decade selector: `'all'` or one decade. */
  datatype DecadeFilter = AllDecades | OneDecade(decade: int)

  /** `league` is carried but no record has a league, so it is never consulted. */
  datatype Filters = Filters(
    minYear: real,
    maxYear: real,
    minWar: real,
    selectedDecade: DecadeFilter,
    league: Option<string>)

  datatype StateAggregate = StateAggregate(
    meta: StateMeta,
    totalWar: real,
    playerCount: nat,
    warPerMillion: Option<real>,
    players: seq<PlayerRecord>)

  datatype PlayerSummary = PlayerSummary(rowCount: nat, accepted: nat, rejected: nat, missingState: nat)

  datatype PopulationSummary = PopulationSummary(rowCount: nat, accepted: nat, rejected: nat)

  datatype ValidationSummary = ValidationSummary(players: PlayerSummary, populations: PopulationSummary)

  /** `summarizeValidation`: pairs the two summaries, each kept as given. */
  function SummarizeValidation(playerSummary: PlayerSummary, populationSummary: PopulationSummary): (r: ValidationSummary)
    ensures r.players == playerSummary && r.populations == populationSummary
  {
    ValidationSummary(playerSummary, populationSummary)
  }

  /** The player's raw birth state resolves to an entry of the state table. */
  predicate ResolvesState(table: seq<StateMeta>, p: PlayerRecord) {
    FindStateMetaIn(table, Some(p.birthStateRaw)).Some?
  }

  /** A population record carries a table entry and that entry's postal code. */
  predicate Canonical(table: seq<StateMeta>, p: PopulationRecord) {
    p.meta in table && p.state == p.meta.postal
  }
}
