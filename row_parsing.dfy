/**
 * `parsePlayersCsv` and `parsePopulationCsv`: rows already split by the CSV
 * reader become typed records; every row is counted as accepted or rejected
 * and a bad row never fails the batch. `table` is the state reference
 * table that `findStateMeta` consults.
 */
module RowParsing {
  import opened Wrappers
  import opened Text
  import opened JsNumber
  import opened Sorting
  import opened StateMetaTable
  import opened Records

  // Header synonyms per field, in the order they are tried.
  const PLAYER_ID_COLUMNS: seq<string> := ["player_id", "playerID"]
  const FULL_NAME_COLUMNS: seq<string> := ["full_name", "name"]
  const BIRTH_STATE_COLUMNS: seq<string> := ["birth_state", "birthState"]
  const BIRTH_YEAR_COLUMNS: seq<string> := ["birth_year", "birthYear", "birthyear"]
  const WAR_COLUMNS: seq<string> := ["war_career", "war", "WAR"]
  const STATE_COLUMNS: seq<string> := ["state", "state_postal", "state_name"]
  const YEAR_COLUMNS: seq<string> := ["year", "Year"]
  const POPULATION_COLUMNS: seq<string> := ["population", "Population", "pop"]

  /** `row.a ?? row.b ?? ...`: the cell of the first column present in the
      row; a present but empty cell does not fall through to the next one. */
  function Field(row: Row, columns: seq<string>): (r: Option<string>)
    ensures r.None? <==> forall c :: c in columns ==> c !in row
    ensures r.Some? ==> exists i :: 0 <= i < |columns| && columns[i] in row && r.value == row[columns[i]]
                                    && forall j :: 0 <= j < i ==> columns[j] !in row
  {
    if columns == [] then None
    else if columns[0] in row then
      assert columns[0] in row && row[columns[0]] == row[columns[0]];
      Some(row[columns[0]])
    else
      var r := Field(row, columns[1..]);
      assert forall c :: c in columns ==> c == columns[0] || c in columns[1..];
      if r.Some? then
        var i :| 0 <= i < |columns[1..]| && columns[1..][i] in row && r.value == row[columns[1..][i]]
                  && forall j :: 0 <= j < i ==> columns[1..][j] !in row;
        assert forall j :: 0 <= j < i + 1 ==> columns[j] !in row by {
          forall j | 0 <= j < i + 1 ensures columns[j] !in row {
            if j > 0 { assert columns[j] == columns[1..][j - 1]; }
          }
        }
        r
      else r
  }

  /** `String(row.a ?? row.b ?? '').trim()` */
  function TextField(row: Row, columns: seq<string>): string {
    Trim(Field(row, columns).GetOr(""))
  }

  /** `Number(row.a ?? row.b ?? NaN)`, with NaN as `None`. */
  function NumberField(row: Row, columns: seq<string>): Option<real> {
    match Field(row, columns)
    case None => None
    case Some(cell) => ToNumber(cell)
  }

  /** One player row: rejected exactly when the trimmed id is empty or the
      birth year or WAR is NaN; the state is not looked at. */
  function ParsePlayerRow(row: Row): (r: Option<PlayerRecord>)
    ensures r.None? <==>
              TextField(row, PLAYER_ID_COLUMNS) == "" ||
              NumberField(row, BIRTH_YEAR_COLUMNS).None? ||
              NumberField(row, WAR_COLUMNS).None?
    ensures r.Some? ==>
              && r.value.playerId == TextField(row, PLAYER_ID_COLUMNS) != ""
              && r.value.fullName != ""
              && (TextField(row, FULL_NAME_COLUMNS) != "" ==> r.value.fullName == TextField(row, FULL_NAME_COLUMNS))
              && (TextField(row, FULL_NAME_COLUMNS) == "" ==> r.value.fullName == r.value.playerId)
              && Some(r.value.birthYear) == NumberField(row, BIRTH_YEAR_COLUMNS)
              && Some(r.value.warCareer) == NumberField(row, WAR_COLUMNS)
              && r.value.birthStateRaw == TextField(row, BIRTH_STATE_COLUMNS)
              && r.value.birthDecade as real <= r.value.birthYear < r.value.birthDecade as real + 10.0
              && r.value.birthDecade % 10 == 0
  {
    var playerId := TextField(row, PLAYER_ID_COLUMNS);
    var fullName := TextField(row, FULL_NAME_COLUMNS);
    var birthStateRaw := TextField(row, BIRTH_STATE_COLUMNS);
    var year := NumberField(row, BIRTH_YEAR_COLUMNS);
    var war := NumberField(row, WAR_COLUMNS);
    if playerId == "" || year.None? || war.None? then None
    else
      Some(PlayerRecord(
        playerId,
        if fullName == "" then playerId else fullName,
        year.value,
        birthStateRaw,
        war.value,
        Decade(year.value)))
  }

  /** The records of the accepted rows, in row order. */
  function Kept<R>(rows: seq<Row>, parse: Row -> Option<R>): seq<R> {
    if rows == [] then []
    else
      var init := Kept(rows[..|rows| - 1], parse);
      match parse(rows[|rows| - 1])
      case None => init
      case Some(record) => init + [record]
  }

  /** The number of rejected rows. */
  function Rejected<R>(rows: seq<Row>, parse: Row -> Option<R>): nat {
    if rows == [] then 0
    else Rejected(rows[..|rows| - 1], parse) + if parse(rows[|rows| - 1]).None? then 1 else 0
  }

  /** Every row is either accepted or rejected. */
  lemma {:induction false} RowsAccountedFor<R>(rows: seq<Row>, parse: Row -> Option<R>)
    ensures |Kept(rows, parse)| + Rejected(rows, parse) == |rows|
  {
    if rows != [] { RowsAccountedFor(rows[..|rows| - 1], parse); }
  }

  /** An accepted row's record is kept. */
  lemma {:induction false} AcceptedRowKept<R>(rows: seq<Row>, parse: Row -> Option<R>, i: nat)
    requires i < |rows| && parse(rows[i]).Some?
    ensures parse(rows[i]).value in Kept(rows, parse)
  {
    var init := rows[..|rows| - 1];
    if i < |rows| - 1 {
      assert init[i] == rows[i];
      AcceptedRowKept(init, parse, i);
    }
  }

  /** Each kept record comes from an accepted row. */
  lemma {:induction false} KeptFromRow<R>(rows: seq<Row>, parse: Row -> Option<R>, record: R)
    requires record in Kept(rows, parse)
    ensures exists i :: 0 <= i < |rows| && parse(rows[i]) == Some(record)
  {
    var init := rows[..|rows| - 1];
    if record in Kept(init, parse) {
      KeptFromRow(init, parse, record);
      var i :| 0 <= i < |init| && parse(init[i]) == Some(record);
      assert rows[i] == init[i];
    } else {
      assert parse(rows[|rows| - 1]) == Some(record);
    }
  }

  /** The player records of the accepted rows, in row order. */
  function ParsedPlayers(rows: seq<Row>): seq<PlayerRecord> {
    Kept(rows, ParsePlayerRow)
  }

  /** How many of the records have a birth state that does not resolve. */
  function MissingStateCount(table: seq<StateMeta>, records: seq<PlayerRecord>): nat {
    if records == [] then 0
    else MissingStateCount(table, records[..|records| - 1]) + if ResolvesState(table, records[|records| - 1]) then 0 else 1
  }

  lemma MissingStateAppend(table: seq<StateMeta>, records: seq<PlayerRecord>, p: PlayerRecord)
    ensures MissingStateCount(table, records + [p]) == MissingStateCount(table, records) + if ResolvesState(table, p) then 0 else 1
  {
    assert (records + [p])[..|records|] == records;
  }

  /** `parsePlayersCsv` on already-split rows. */
  method ParsePlayersCsv(table: seq<StateMeta>, rows: seq<Row>) returns (data: seq<PlayerRecord>, summary: PlayerSummary)
    ensures data == ParsedPlayers(rows)
    ensures summary == PlayerSummary(|rows|, |data|, Rejected(rows, ParsePlayerRow), MissingStateCount(table, data))
    ensures summary.rowCount == summary.accepted + summary.rejected
    ensures summary.missingState <= summary.accepted
  {
    var records: seq<PlayerRecord> := [];
    var rejected: nat := 0;
    var missingState: nat := 0;
    for i := 0 to |rows|
      invariant records == Kept(rows[..i], ParsePlayerRow)
      invariant rejected == Rejected(rows[..i], ParsePlayerRow)
      invariant missingState == MissingStateCount(table, records)
      invariant |records| + rejected == i
      invariant missingState <= |records|
    {
      assert rows[..i + 1][..i] == rows[..i];
      match ParsePlayerRow(rows[i]) {
        case None =>
          rejected := rejected + 1;
        case Some(record) =>
          MissingStateAppend(table, records, record);
          if !ResolvesState(table, record) {
            missingState := missingState + 1;
          }
          records := records + [record];
      }
    }
    assert rows[..|rows|] == rows;
    data := records;
    summary := PlayerSummary(|rows|, |records|, rejected, missingState);
  }

  /** A present but empty WAR cell reads as 0 and does not fall through to
      a later synonym column, and an id with a year is then accepted. */
  lemma EmptyWarCellIsZero(row: Row)
    requires "war_career" in row && row["war_career"] == ""
    requires TextField(row, PLAYER_ID_COLUMNS) != "" && NumberField(row, BIRTH_YEAR_COLUMNS).Some?
    ensures ParsePlayerRow(row).Some? && ParsePlayerRow(row).value.warCareer == 0.0
  {
    assert Field(row, WAR_COLUMNS) == Some("");
    assert AllSpace("");
  }

  /** A birth year of "NaN" rejects the row. */
  lemma NaNYearRejected(row: Row)
    requires "birth_year" in row && row["birth_year"] == "NaN"
    ensures ParsePlayerRow(row).None?
  {
    assert Field(row, BIRTH_YEAR_COLUMNS) == Some("NaN");
    WordsAreNaN();
  }

  /** One population row: rejected when the state text is blank, the year or
      population is NaN, or the state does not resolve; the stored state is
      the canonical postal code of the resolved entry. */
  function ParsePopulationRow(table: seq<StateMeta>, row: Row): (r: Option<PopulationRecord>)
    ensures r.None? <==>
              TextField(row, STATE_COLUMNS) == "" ||
              NumberField(row, YEAR_COLUMNS).None? ||
              NumberField(row, POPULATION_COLUMNS).None? ||
              FindStateMetaIn(table, Some(TextField(row, STATE_COLUMNS))).None?
    ensures r.Some? ==>
              && Some(r.value.meta) == FindStateMetaIn(table, Some(TextField(row, STATE_COLUMNS)))
              && Canonical(table, r.value)
              && Some(r.value.year) == NumberField(row, YEAR_COLUMNS)
              && Some(r.value.population) == NumberField(row, POPULATION_COLUMNS)
  {
    var stateRaw := TextField(row, STATE_COLUMNS);
    var year := NumberField(row, YEAR_COLUMNS);
    var population := NumberField(row, POPULATION_COLUMNS);
    if stateRaw == "" || year.None? || population.None? then None
    else
      match FindStateMetaIn(table, Some(stateRaw))
      case None => None
      case Some(meta) => Some(PopulationRecord(meta.postal, year.value, population.value, meta))
  }

  /** `ParsePopulationRow` against one state table. */
  function PopulationParser(table: seq<StateMeta>): Row -> Option<PopulationRecord> {
    row => ParsePopulationRow(table, row)
  }

  /** The population records of the accepted rows, in row order, before sorting. */
  function ParsedPopulations(table: seq<StateMeta>, rows: seq<Row>): seq<PopulationRecord> {
    Kept(rows, PopulationParser(table))
  }

  /** The comparator: by state code, then by year ascending. */
  predicate PopulationBefore(a: PopulationRecord, b: PopulationRecord) {
    if a.state == b.state then a.year < b.year else LexLess(a.state, b.state)
  }

  lemma PopulationBeforeIsStrictOrder()
    ensures StrictOrder(PopulationBefore)
  {
    forall a: PopulationRecord ensures !PopulationBefore(a, a) {
      LexLessIrreflexive(a.state);
    }
    forall a: PopulationRecord, b: PopulationRecord, c: PopulationRecord
      | PopulationBefore(a, b) && PopulationBefore(b, c)
      ensures PopulationBefore(a, c)
    {
      if a.state != b.state && b.state != c.state {
        LexLessTransitive(a.state, b.state, c.state);
        if a.state == c.state {
          LexLessTransitive(a.state, b.state, a.state);
          LexLessIrreflexive(a.state);
        }
      }
    }
  }

  /** A list sorted by `PopulationBefore` is ordered by state code and,
      within a state, by year. */
  lemma PopulationOrder(data: seq<PopulationRecord>)
    requires SortedBy(data, PopulationBefore)
    ensures forall i, j :: 0 <= i < j < |data| ==>
              (data[i].state == data[j].state ==> data[i].year <= data[j].year) &&
              (data[i].state != data[j].state ==> LexLess(data[i].state, data[j].state))
  {
    forall i, j | 0 <= i < j < |data|
      ensures data[i].state != data[j].state ==> LexLess(data[i].state, data[j].state)
    {
      if data[i].state != data[j].state {
        assert !PopulationBefore(data[j], data[i]);
        LexLessTotal(data[i].state, data[j].state);
      }
    }
  }

  /** `parsePopulationCsv` on already-split rows. */
  method ParsePopulationCsv(table: seq<StateMeta>, rows: seq<Row>) returns (data: seq<PopulationRecord>, summary: PopulationSummary)
    ensures data == SortBy(ParsedPopulations(table, rows), PopulationBefore)
    ensures summary == PopulationSummary(|rows|, |data|, Rejected(rows, PopulationParser(table)))
    ensures summary.rowCount == summary.accepted + summary.rejected
    ensures forall r :: r in data ==> Canonical(table, r)
    ensures forall i, j :: 0 <= i < j < |data| ==>
              (data[i].state == data[j].state ==> data[i].year <= data[j].year) &&
              (data[i].state != data[j].state ==> LexLess(data[i].state, data[j].state))
  {
    var records: seq<PopulationRecord> := [];
    var rejected: nat := 0;
    for i := 0 to |rows|
      invariant records == Kept(rows[..i], PopulationParser(table))
      invariant rejected == Rejected(rows[..i], PopulationParser(table))
      invariant |records| + rejected == i
      invariant forall r :: r in records ==> Canonical(table, r)
    {
      assert rows[..i + 1][..i] == rows[..i];
      match ParsePopulationRow(table, rows[i]) {
        case None =>
          rejected := rejected + 1;
        case Some(record) =>
          records := records + [record];
      }
    }
    assert rows[..|rows|] == rows;
    data := SortBy(records, PopulationBefore);
    summary := PopulationSummary(|rows|, |records|, rejected);
    SortedPopulations(table, records);
    PopulationOrder(data);
  }

  /** Sorting keeps every record canonical and orders them by state, then year. */
  lemma SortedPopulations(table: seq<StateMeta>, records: seq<PopulationRecord>)
    requires forall r :: r in records ==> Canonical(table, r)
    ensures forall r :: r in SortBy(records, PopulationBefore) ==> Canonical(table, r)
    ensures SortedBy(SortBy(records, PopulationBefore), PopulationBefore)
  {
    forall r | r in SortBy(records, PopulationBefore) ensures Canonical(table, r) {
      SortByMembers(records, PopulationBefore, r);
    }
    PopulationBeforeIsStrictOrder();
    SortBySorted(records, PopulationBefore);
  }
}
