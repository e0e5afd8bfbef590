/**
 * The player side of the dataset build script: each row of the master file
 * is placed in the domestic or the international `Map` of players (or
 * skipped), and then the WAR rows of the batting and pitching files are
 * added to the career WAR of the players they name. A `Map` is a class whose
 * methods change its contents; `PlayerTable` is the value those contents
 * have at any moment, and the functions over it specify the methods.
 */
module BuildMaster {
  import opened Wrappers
  import opened Text
  import opened JsNumber
  import opened Sequences
  import opened StateMetaTable
  import opened Records
  import opened BuildNormalize

  /** Where a player was born: a state of the table (by postal code), or a
      country outside the United States. */
  datatype Origin =
    | StateOrigin(birthStateRaw: string)
    | CountryOrigin(birthCountry: string, birthCountryRaw: Option<string>, birthCity: Option<string>)

  /** A player object as the build script creates it. */
  datatype MasterPlayer = MasterPlayer(
    playerId: string,
    fullName: string,
    birthYear: real,
    birthDecade: int,
    origin: Origin,
    warCareer: real)

  /** `row[column]`: missing when the file has no such column. */
  function Cell(row: Row, column: string): (r: Option<string>)
    ensures r.Some? <==> column in row
  {
    if column in row then Some(row[column]) else None
  }

  /** The cell is present and not the empty string. */
  predicate Truthy(cell: Option<string>) {
    cell.Some? && cell.value != ""
  }

  /** `cell ? String(cell).trim() || null : null`. */
  function TrimmedOrNull(cell: Option<string>): (r: Option<string>)
    ensures r.Some? ==> cell.Some? && r.value == Trim(cell.value) && r.value != ""
    ensures r.None? ==> cell.None? || Trim(cell.value) == ""
  {
    if !Truthy(cell) then None
    else if Trim(cell.value) == "" then None
    else Some(Trim(cell.value))
  }

  /** `` `${first} ${last}`.trim() || row.nameGiven || playerId ``, with a
      missing first or last name read as empty. */
  function FullName(row: Row, playerId: string): (r: string)
    ensures playerId != "" ==> r != ""
    ensures var joined := Trim(Cell(row, "nameFirst").GetOr("") + " " + Cell(row, "nameLast").GetOr(""));
            && (joined != "" ==> r == joined)
            && (joined == "" && Truthy(Cell(row, "nameGiven")) ==> r == row["nameGiven"])
            && (joined == "" && !Truthy(Cell(row, "nameGiven")) ==> r == playerId)
  {
    var joined := Trim(Cell(row, "nameFirst").GetOr("") + " " + Cell(row, "nameLast").GetOr(""));
    if joined != "" then joined
    else if Truthy(Cell(row, "nameGiven")) then row["nameGiven"]
    else playerId
  }

  /** What the master loop does with one row. */
  datatype Placement = Skip | ToDomestic(player: MasterPlayer) | ToInternational(player: MasterPlayer)

  /**
   * The body of the master loop: skip a row without an id or a birth year;
   * otherwise place the player by birth state and country.
   */
  function PlaceRow(table: seq<StateMeta>, row: Row): Placement {
    var id := Cell(row, "playerID");
    if !Truthy(id) then Skip
    else
      var year := NormalizeNumber(Cell(row, "birthYear"));
      if year.None? then Skip
      else
        PlaceBorn(id.value, FullName(row, id.value), year.value, FindState(table, Cell(row, "birthState")),
                  Cell(row, "birthCountry").GetOr(""), Cell(row, "birthCity"))
  }

  /** A player whose birth state resolved is domestic, under the state's
      postal code; any other goes abroad when its country allows. */
  function PlaceBorn(id: string, fullName: string, year: real, state: Option<StateMeta>,
                     countryRaw: string, city: Option<string>): (r: Placement)
    ensures !r.Skip? ==> r.player.playerId == id && r.player.birthYear == year && r.player.warCareer == 0.0
    ensures !r.Skip? ==> r.player.fullName == fullName
    ensures !r.Skip? ==> r.player.birthDecade == Decade(year)
    ensures state.Some? ==> r.ToDomestic? && r.player.origin == StateOrigin(state.value.postal)
    ensures state.None? ==> (r.Skip? <==> AbroadOrigin(countryRaw, city).None?)
    ensures r.ToInternational? ==> Some(r.player.origin) == AbroadOrigin(countryRaw, city)
    ensures r.ToInternational? ==>
              && r.player.origin.CountryOrigin?
              && r.player.origin.birthCountryRaw == TrimmedOrNull(Some(countryRaw))
              && r.player.origin.birthCity == TrimmedOrNull(city)
  {
    if state.Some? then
      ToDomestic(MasterPlayer(id, fullName, year, Decade(year), StateOrigin(state.value.postal), 0.0))
    else
      var origin := AbroadOrigin(countryRaw, city);
      if origin.None? then Skip
      else ToInternational(MasterPlayer(id, fullName, year, Decade(year), origin.value, 0.0))
  }

  /** The origin of a player born outside any state: none when the country
      normalises to nothing or is a spelling of the United States. */
  function AbroadOrigin(countryRaw: string, city: Option<string>): Option<Origin> {
    var country := NormalizeCountryName(Some(countryRaw));
    if country.None? || IsUnitedStates(Some(countryRaw)) then None
    else Some(CountryOrigin(country.value, TrimmedOrNull(Some(countryRaw)), TrimmedOrNull(city)))
  }

  /**
   * A player placed abroad has a country: the normalised, non-blank name
   * of the raw country, which is not a spelling of the United States; in
   * particular the name is not `United States`.
   */
  lemma AbroadCountry(countryRaw: string, city: Option<string>)
    requires AbroadOrigin(countryRaw, city).Some?
    ensures var o := AbroadOrigin(countryRaw, city).value;
            && o.CountryOrigin?
            && Some(o.birthCountry) == NormalizeCountryName(Some(countryRaw))
            && Trim(o.birthCountry) != ""
            && !IsUnitedStates(Some(countryRaw))
            && o.birthCountry != "United States"
            && o.birthCountryRaw == TrimmedOrNull(Some(countryRaw))
            && o.birthCity == TrimmedOrNull(city)
  {
    NormalizeCountryNameBlank(Some(countryRaw));
    if NormalizeCountryName(Some(countryRaw)) == Some("United States") {
      UnitedStatesRecognised(Some(countryRaw));
    }
  }

  /** A placed player carries the row's id and birth year, the decade of
      that year and no WAR yet. */
  lemma PlacedPlayer(table: seq<StateMeta>, row: Row)
    requires !PlaceRow(table, row).Skip?
    ensures var p := PlaceRow(table, row).player;
            && "playerID" in row && p.playerId == row["playerID"] && p.playerId != ""
            && p.fullName == FullName(row, row["playerID"])
            && NormalizeNumber(Cell(row, "birthYear")) == Some(p.birthYear)
            && p.birthDecade % 10 == 0
            && p.birthDecade as real <= p.birthYear < p.birthDecade as real + 10.0
            && p.warCareer == 0.0
  {
  }

  /** Rows without an id or without a birth year are skipped. */
  lemma SkippedRows(table: seq<StateMeta>, row: Row)
    requires !Truthy(Cell(row, "playerID")) || NormalizeNumber(Cell(row, "birthYear")).None?
    ensures PlaceRow(table, row).Skip?
  {
  }

  /** A row with an id and a birth year whose state resolves is domestic,
      under the postal code of the state found. */
  lemma ResolvedRowsAreDomestic(table: seq<StateMeta>, row: Row)
    requires Truthy(Cell(row, "playerID")) && NormalizeNumber(Cell(row, "birthYear")).Some?
    requires FindState(table, Cell(row, "birthState")).Some?
    ensures PlaceRow(table, row).ToDomestic?
    ensures PlaceRow(table, row).player.origin == StateOrigin(FindState(table, Cell(row, "birthState")).value.postal)
  {
    var id := row["playerID"];
    var state := FindState(table, Cell(row, "birthState"));
    assert PlaceRow(table, row) ==
           PlaceBorn(id, FullName(row, id), NormalizeNumber(Cell(row, "birthYear")).value, state,
                     Cell(row, "birthCountry").GetOr(""), Cell(row, "birthCity"));
  }

  /** A row whose state does not resolve goes abroad exactly when its
      country allows, and never to the domestic players. */
  lemma UnresolvedRows(table: seq<StateMeta>, row: Row)
    requires Truthy(Cell(row, "playerID")) && NormalizeNumber(Cell(row, "birthYear")).Some?
    requires FindState(table, Cell(row, "birthState")).None?
    ensures !PlaceRow(table, row).ToDomestic?
    ensures PlaceRow(table, row).ToInternational? <==>
              AbroadOrigin(Cell(row, "birthCountry").GetOr(""), Cell(row, "birthCity")).Some?
  {
  }

  /** An international row has no resolvable state and a country that is
      not the United States. */
  lemma InternationalRows(table: seq<StateMeta>, row: Row)
    requires PlaceRow(table, row).ToInternational?
    ensures var p := PlaceRow(table, row).player;
            && FindState(table, Cell(row, "birthState")).None?
            && p.origin.CountryOrigin? && Trim(p.origin.birthCountry) != ""
            && !IsUnitedStates(Some(Cell(row, "birthCountry").GetOr("")))
            && p.origin.birthCountry != "United States"
  {
    AbroadCountry(Cell(row, "birthCountry").GetOr(""), Cell(row, "birthCity"));
  }

  /** The contents of a `Map` from player id to player: the ids in the order
      they were first set, and the player under each. */
  datatype PlayerTable = PlayerTable(ids: seq<string>, entries: map<string, MasterPlayer>) {

    /** The ids are those of the entries, each listed once. */
    ghost predicate Valid() {
      && (forall id :: id in entries <==> id in ids)
      && (forall i, j :: 0 <= i < j < |ids| ==> ids[i] != ids[j])
    }

    /** `map.set(id, player)`: an id set again keeps its place. */
    function Set(id: string, player: MasterPlayer): (t: PlayerTable)
      ensures Valid() ==> t.Valid()
      ensures t.entries.Keys == entries.Keys + {id}
      ensures t.entries[id] == player
      ensures forall other :: other in entries && other != id ==> t.entries[other] == entries[other]
      ensures id in entries ==> t.ids == ids
      ensures id !in entries ==> t.ids == ids + [id]
    {
      PlayerTable(if id in entries then ids else ids + [id], entries[id := player])
    }

    /** `Array.from(map.values())`: the players in id order. */
    function Values(): (r: seq<MasterPlayer>)
      requires Valid()
      ensures |r| == |ids|
      ensures forall i :: 0 <= i < |ids| ==> r[i] == entries[ids[i]]
      ensures forall p :: p in r <==> exists id :: id in entries && entries[id] == p
    {
      var r := seq(|ids|, i requires 0 <= i < |ids| => entries[ids[i]]);
      assert forall p :: p in r ==> exists id :: id in entries && entries[id] == p by {
        forall p | p in r ensures exists id :: id in entries && entries[id] == p {
          var i :| 0 <= i < |r| && r[i] == p;
          assert ids[i] in entries;
        }
      }
      assert forall id :: id in entries ==> entries[id] in r by {
        forall id | id in entries ensures entries[id] in r {
          var i :| 0 <= i < |ids| && ids[i] == id;
          assert r[i] == entries[id];
        }
      }
      r
    }
  }

  const EMPTY_TABLE := PlayerTable([], map[])

  /** A JavaScript `Map` from player id to player object. */
  class PlayerMap {
    var ids: seq<string>
    var entries: map<string, MasterPlayer>

    function Contents(): PlayerTable
      reads this
    {
      PlayerTable(ids, entries)
    }

    /** `new Map()`. */
    constructor ()
      ensures Contents() == EMPTY_TABLE
    {
      ids := [];
      entries := map[];
    }

    /** `map.set(id, player)`. */
    method Set(id: string, player: MasterPlayer)
      modifies this
      ensures Contents() == old(Contents()).Set(id, player)
    {
      if id !in entries {
        ids := ids + [id];
      }
      entries := entries[id := player];
    }

    /** `map.get(id)`. */
    method Get(id: string) returns (player: Option<MasterPlayer>)
      ensures player.Some? <==> id in entries
      ensures player.Some? ==> player.value == entries[id]
    {
      if id in entries {
        player := Some(entries[id]);
      } else {
        player := None;
      }
    }
  }

  /** `PlaceRow` against the state table `table`. */
  function Placer(table: seq<StateMeta>): Row -> Placement {
    row => PlaceRow(table, row)
  }

  /** The player a row puts in the domestic (`domestic`) or the
      international map, if any. */
  function Destined(place: Row -> Placement, row: Row, domestic: bool): Option<MasterPlayer> {
    match place(row)
    case Skip => None
    case ToDomestic(p) => if domestic then Some(p) else None
    case ToInternational(p) => if domestic then None else Some(p)
  }

  /** The contents of one of the two maps after the master loop, placing
      each row with `place`, has seen `rows`. */
  function Collected(place: Row -> Placement, rows: seq<Row>, domestic: bool): (t: PlayerTable)
    ensures t.Valid()
  {
    if rows == [] then EMPTY_TABLE
    else
      var t := Collected(place, rows[..|rows| - 1], domestic);
      var p := Destined(place, rows[|rows| - 1], domestic);
      if p.Some? then t.Set(p.value.playerId, p.value) else t
  }

  lemma CollectedSnoc(place: Row -> Placement, rows: seq<Row>, row: Row, domestic: bool)
    ensures var t := Collected(place, rows, domestic);
            var p := Destined(place, row, domestic);
            Collected(place, rows + [row], domestic) == if p.Some? then t.Set(p.value.playerId, p.value) else t
  {
    assert (rows + [row])[..|rows|] == rows;
  }

  /** The row puts a player under `id` in the map. */
  predicate Places(place: Row -> Placement, row: Row, domestic: bool, id: string) {
    var p := Destined(place, row, domestic);
    p.Some? && p.value.playerId == id
  }

  /** No row after the `i`-th puts a player under `id` in the map. */
  predicate NoneAfter(place: Row -> Placement, rows: seq<Row>, domestic: bool, id: string, i: int) {
    forall j :: 0 <= j < |rows| && i < j ==> !Places(place, rows[j], domestic, id)
  }

  /** The player of the last row that puts `id` in the map, if any. */
  function LastPlaced(place: Row -> Placement, rows: seq<Row>, domestic: bool, id: string): (r: Option<MasterPlayer>)
    ensures r.Some? ==> r.value.playerId == id
    ensures r.Some? ==> exists i :: 0 <= i < |rows| && Destined(place, rows[i], domestic) == r &&
                                    NoneAfter(place, rows, domestic, id, i)
    ensures r.None? ==> NoneAfter(place, rows, domestic, id, -1)
  {
    if rows == [] then None
    else
      var init, last := rows[..|rows| - 1], rows[|rows| - 1];
      var p := Destined(place, last, domestic);
      if p.Some? && p.value.playerId == id then
        assert NoneAfter(place, rows, domestic, id, |rows| - 1);
        p
      else
        var r := LastPlaced(place, init, domestic, id);
        NoneAfterSnoc(place, rows, domestic, id);
        r
  }

  lemma NoneAfterSnoc(place: Row -> Placement, rows: seq<Row>, domestic: bool, id: string)
    requires rows != [] && !Places(place, rows[|rows| - 1], domestic, id)
    ensures forall i :: NoneAfter(place, rows[..|rows| - 1], domestic, id, i) ==> NoneAfter(place, rows, domestic, id, i)
    ensures forall i :: 0 <= i < |rows| - 1 ==> rows[..|rows| - 1][i] == rows[i]
  {
  }

  /** The map holds, under each id, the player of the last row placing that
      id in it, and no other id: a later row for the same id overwrites the
      player but not the id's place in the order. */
  lemma {:induction false} CollectedLast(place: Row -> Placement, rows: seq<Row>, domestic: bool, id: string)
    ensures var t := Collected(place, rows, domestic);
            && (id in t.entries <==> LastPlaced(place, rows, domestic, id).Some?)
            && (id in t.entries ==> t.entries[id] == LastPlaced(place, rows, domestic, id).value)
  {
    if rows != [] {
      CollectedLast(place, rows[..|rows| - 1], domestic, id);
    }
  }

  /** Every domestic player has the postal code of a state of the table and
      no WAR yet; every
      international one has a non-blank country other than the United
      States and no WAR yet. */
  lemma CollectedOrigins(table: seq<StateMeta>, rows: seq<Row>, domestic: bool, id: string)
    requires id in Collected(Placer(table), rows, domestic).entries
    ensures var p := Collected(Placer(table), rows, domestic).entries[id];
            && p.playerId == id && p.warCareer == 0.0
            && (domestic ==> p.origin.StateOrigin?)
            && (domestic ==> exists m :: m in table && p.origin == StateOrigin(m.postal))
            && (!domestic ==> p.origin.CountryOrigin? && Trim(p.origin.birthCountry) != "" &&
                              p.origin.birthCountry != "United States")
  {
    CollectedLast(Placer(table), rows, domestic, id);
    var p := LastPlaced(Placer(table), rows, domestic, id).value;
    var i :| 0 <= i < |rows| && Destined(Placer(table), rows[i], domestic) == Some(p);
    PlacedPlayer(table, rows[i]);
    if domestic {
      DomesticRowState(table, rows[i]);
    } else {
      InternationalRows(table, rows[i]);
    }
  }

  /** A domestic row is filed under the postal code of a state of the table. */
  lemma DomesticRowState(table: seq<StateMeta>, row: Row)
    requires PlaceRow(table, row).ToDomestic?
    ensures exists m :: m in table && PlaceRow(table, row).player.origin == StateOrigin(m.postal)
  {
    var state := FindState(table, Cell(row, "birthState"));
    FindStateIsFindStateMeta(table, Cell(row, "birthState"));
    if state.Some? {
      ResolvedRowsAreDomestic(table, row);
    }
  }

  /** `loadMasterRecords` on the rows of the master file: every cell is
      trimmed, then the trimmed rows are placed. */
  method LoadMasterRecords(table: seq<StateMeta>, rows: seq<Row>) returns (domestic: PlayerMap, international: PlayerMap)
    ensures fresh(domestic) && fresh(international) && domestic != international
    ensures domestic.Contents() == Collected(Placer(table), ParseCsv(rows), true)
    ensures international.Contents() == Collected(Placer(table), ParseCsv(rows), false)
  {
    var records := ParseCsv(rows);
    domestic, international := PlaceRows(Placer(table), records);
  }

  /** The loop of `loadMasterRecords`, each row placed by `place` (the
      build places rows with `PlaceRow`). */
  method PlaceRows(place: Row -> Placement, rows: seq<Row>) returns (domestic: PlayerMap, international: PlayerMap)
    ensures fresh(domestic) && fresh(international) && domestic != international
    ensures domestic.Contents() == Collected(place, rows, true)
    ensures international.Contents() == Collected(place, rows, false)
  {
    domestic := new PlayerMap();
    international := new PlayerMap();
    var i := 0;
    while i < |rows|
      invariant 0 <= i <= |rows|
      invariant fresh(domestic) && fresh(international) && domestic != international
      invariant domestic.Contents() == Collected(place, rows[..i], true)
      invariant international.Contents() == Collected(place, rows[..i], false)
    {
      PlaceNext(place, rows[i], domestic, international, rows[..i]);
      assert rows[..i + 1] == rows[..i] + [rows[i]];
      i := i + 1;
    }
    assert rows[..|rows|] == rows;
  }

  /** One pass of the loop: the row's player, if any, set in its map. */
  method PlaceNext(place: Row -> Placement, row: Row, domestic: PlayerMap, international: PlayerMap, ghost done: seq<Row>)
    requires domestic != international
    requires domestic.Contents() == Collected(place, done, true)
    requires international.Contents() == Collected(place, done, false)
    modifies domestic, international
    ensures domestic.Contents() == Collected(place, done + [row], true)
    ensures international.Contents() == Collected(place, done + [row], false)
  {
    match place(row) {
      case Skip =>
      case ToDomestic(p) => domestic.Set(p.playerId, p);
      case ToInternational(p) => international.Set(p.playerId, p);
    }
    CollectedSnoc(place, done, row, true);
    CollectedSnoc(place, done, row, false);
  }
}
