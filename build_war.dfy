/**
 * `accumulateWar`: each row of a WAR file adds its WAR to the career WAR of
 * the player it names, when that player is in the map. The player objects
 * of the map are updated in place by the script; here the map's entry for
 * the player is replaced by one with the new WAR.
 */
module BuildWar {
  import opened Wrappers
  import opened Sequences
  import opened Records
  import opened BuildNormalize
  import opened BuildMaster

  /** `row.player_ID || row.playerID`, an empty id counting as none. */
  function WarRowId(row: Row): (r: Option<string>)
    ensures r.Some? ==> r.value != ""
    ensures r.Some? ==> Cell(row, "player_ID") == r || Cell(row, "playerID") == r
    ensures r.None? ==> !Truthy(Cell(row, "player_ID")) && !Truthy(Cell(row, "playerID"))
  {
    if Truthy(Cell(row, "player_ID")) then Cell(row, "player_ID")
    else if Truthy(Cell(row, "playerID")) then Cell(row, "playerID")
    else None
  }

  /** `normalizeNumber(row.WAR ?? row.war)`. */
  function RowWar(row: Row): Option<real> {
    NormalizeNumber(Cell(row, "WAR").Or(Cell(row, "war")))
  }

  /** The player id and the WAR of a row that counts. */
  function WarRow(row: Row): (r: Option<(string, real)>)
    ensures r.Some? <==> WarRowId(row).Some? && RowWar(row).Some?
    ensures r.Some? ==> r.value == (WarRowId(row).value, RowWar(row).value)
  {
    var id := WarRowId(row);
    if id.None? then None
    else
      var war := RowWar(row);
      if war.None? then None else Some((id.value, war.value))
  }

  /** The WAR a row adds to the player `id`, the row being read by `read`
      (the build reads rows with `WarRow`). */
  function Credit(read: Row -> Option<(string, real)>, id: string, row: Row): real {
    var w := read(row);
    if w.Some? && w.value.0 == id then w.value.1 else 0.0
  }

  function Credits(read: Row -> Option<(string, real)>, id: string): Row -> real {
    row => Credit(read, id, row)
  }

  /** The total WAR the rows credit to the player `id`. */
  function WarOf(read: Row -> Option<(string, real)>, rows: seq<Row>, id: string): real {
    Sum(rows, Credits(read, id))
  }

  /** The map after the rows' WAR has been added: the same ids in the same
      order, each player with the WAR credited to it added. */
  function WithWar(t: PlayerTable, read: Row -> Option<(string, real)>, rows: seq<Row>): PlayerTable {
    PlayerTable(t.ids, map id | id in t.entries ::
                         t.entries[id].(warCareer := t.entries[id].warCareer + WarOf(read, rows, id)))
  }

  /** Adding WAR changes no id, no order and nothing of a player but the
      WAR, and keeps the table well formed. */
  lemma WithWarKeeps(t: PlayerTable, read: Row -> Option<(string, real)>, rows: seq<Row>)
    ensures var r := WithWar(t, read, rows);
            && r.ids == t.ids && r.entries.Keys == t.entries.Keys
            && (forall id :: id in t.entries ==> r.entries[id].(warCareer := 0.0) == t.entries[id].(warCareer := 0.0))
            && (t.Valid() ==> r.Valid())
  {
  }

  lemma WarOfSnoc(read: Row -> Option<(string, real)>, rows: seq<Row>, row: Row, id: string)
    ensures WarOf(read, rows + [row], id) == WarOf(read, rows, id) + Credit(read, id, row)
  {
    SumSnoc(rows, row, Credits(read, id));
  }

  /** What one row does to the map: a row naming a player of the map adds
      its WAR to that player; a row without an id, without a WAR or naming
      an unknown player changes nothing. No id is added or moved. */
  function Credited(u: PlayerTable, w: Option<(string, real)>): (r: PlayerTable)
    ensures r.ids == u.ids && r.entries.Keys == u.entries.Keys
  {
    if w.Some? && w.value.0 in u.entries
    then u.Set(w.value.0, u.entries[w.value.0].(warCareer := u.entries[w.value.0].warCareer + w.value.1))
    else u
  }

  lemma CreditedSome(u: PlayerTable, id: string, war: real)
    requires id in u.entries
    ensures Credited(u, Some((id, war))) == u.Set(id, u.entries[id].(warCareer := u.entries[id].warCareer + war))
  {
  }

  /** One more row is one more `Credited` step. */
  lemma WithWarSnoc(t: PlayerTable, read: Row -> Option<(string, real)>, rows: seq<Row>, row: Row)
    ensures WithWar(t, read, rows + [row]) == Credited(WithWar(t, read, rows), read(row))
  {
    var u := WithWar(t, read, rows);
    var w := read(row);
    if w.Some? && w.value.0 in u.entries {
      var (id, war) := w.value;
      CreditedRow(t, read, rows, row, u, id, war);
      CreditedSome(u, id, war);
    } else {
      IgnoredRow(t, read, rows, row, u);
    }
  }

  lemma CreditedRow(t: PlayerTable, read: Row -> Option<(string, real)>, rows: seq<Row>, row: Row,
                    u: PlayerTable, id: string, war: real)
    requires u == WithWar(t, read, rows)
    requires read(row) == Some((id, war)) && id in u.entries
    ensures WithWar(t, read, rows + [row]) == u.Set(id, u.entries[id].(warCareer := u.entries[id].warCareer + war))
  {
    var v := WithWar(t, read, rows + [row]);
    var s := u.Set(id, u.entries[id].(warCareer := u.entries[id].warCareer + war));
    assert s.entries.Keys == v.entries.Keys;
    forall k | k in v.entries ensures v.entries[k] == s.entries[k] {
      WarOfSnoc(read, rows, row, k);
    }
  }

  lemma IgnoredRow(t: PlayerTable, read: Row -> Option<(string, real)>, rows: seq<Row>, row: Row, u: PlayerTable)
    requires u == WithWar(t, read, rows)
    requires read(row).None? || read(row).value.0 !in u.entries
    ensures WithWar(t, read, rows + [row]) == u
  {
    var v := WithWar(t, read, rows + [row]);
    assert u.entries.Keys == v.entries.Keys;
    forall k | k in v.entries ensures v.entries[k] == u.entries[k] {
      WarOfSnoc(read, rows, row, k);
    }
  }

  /** Adding the WAR of two files one after the other is adding the WAR of
      both at once. */
  lemma WithWarAppend(t: PlayerTable, read: Row -> Option<(string, real)>, a: seq<Row>, b: seq<Row>)
    ensures WithWar(WithWar(t, read, a), read, b) == WithWar(t, read, a + b)
  {
    var l := WithWar(WithWar(t, read, a), read, b);
    var r := WithWar(t, read, a + b);
    forall id | id in t.entries ensures l.entries[id] == r.entries[id] {
      SumAppend(a, b, Credits(read, id));
    }
  }

  /** `accumulateWar(players, rows)`: the rows are read with `WarRow`. */
  method AccumulateWar(players: PlayerMap, rows: seq<Row>)
    modifies players
    ensures players.Contents() == WithWar(old(players.Contents()), WarRow, rows)
  {
    CreditRows(players, WarRow, rows);
  }

  /** The loop of `accumulateWar`, for rows read by `read`. */
  method CreditRows(players: PlayerMap, read: Row -> Option<(string, real)>, rows: seq<Row>)
    modifies players
    ensures players.Contents() == WithWar(old(players.Contents()), read, rows)
  {
    ghost var start := players.Contents();
    assert WithWar(start, read, []) == start;
    var i := 0;
    while i < |rows|
      invariant 0 <= i <= |rows|
      invariant players.Contents() == WithWar(start, read, rows[..i])
    {
      CreditRow(players, read(rows[i]));
      WithWarSnoc(start, read, rows[..i], rows[i]);
      assert rows[..i + 1] == rows[..i] + [rows[i]];
      i := i + 1;
    }
    assert rows[..|rows|] == rows;
  }

  /** One pass of the loop, on the id and WAR the row was read as. */
  method CreditRow(players: PlayerMap, reading: Option<(string, real)>)
    modifies players
    ensures players.Contents() == Credited(old(players.Contents()), reading)
  {
    if reading.Some? {
      var (id, war) := reading.value;
      var player := players.Get(id);
      if player.Some? {
        players.Set(id, player.value.(warCareer := player.value.warCareer + war));
      }
    }
  }
}
