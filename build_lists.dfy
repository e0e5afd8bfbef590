/**
 * The two player lists the build script writes: the players of each map
 * with at least 0.01 WAR either way, their WAR rounded to thousandths, the
 * highest WAR first.
 */
module BuildLists {
  import opened Wrappers
  import opened Text
  import opened JsNumber
  import opened Sorting
  import opened Sequences
  import opened StateMetaTable
  import opened Records
  import opened InternationalData
  import opened BuildNormalize
  import opened BuildMaster
  import opened BuildWar

  /** `Math.abs(player.warCareer) >= 0.01`. */
  predicate Significant(p: MasterPlayer) {
    Abs(p.warCareer) >= 0.01
  }

  /** The birth state of a domestic player. */
  function BirthState(p: MasterPlayer): string {
    match p.origin
    case StateOrigin(postal) => postal
    case CountryOrigin(_, _, _) => ""
  }

  /** The record written for a domestic player. */
  function DomesticRecord(p: MasterPlayer): PlayerRecord {
    PlayerRecord(p.playerId, p.fullName, p.birthYear, BirthState(p), Round3(p.warCareer), p.birthDecade)
  }

  /** The comparator `b.warCareer - a.warCareer`. */
  predicate RecordWarDescending(a: PlayerRecord, b: PlayerRecord) {
    a.warCareer > b.warCareer
  }

  /** `domesticList`. */
  function DomesticList(players: seq<MasterPlayer>): seq<PlayerRecord> {
    SortBy(Map(Filter(players, Significant), DomesticRecord), RecordWarDescending)
  }

  /** The birth country of an international player. */
  function BirthCountry(p: MasterPlayer): string {
    match p.origin
    case StateOrigin(_) => ""
    case CountryOrigin(country, _, _) => country
  }

  /** `player.birthCountry && Math.abs(player.warCareer) >= 0.01`. */
  predicate ListedAbroad(p: MasterPlayer) {
    BirthCountry(p) != "" && Significant(p)
  }

  /** The record written for an international player. */
  function InternationalRecord(p: MasterPlayer): InternationalPlayer {
    match p.origin
    case StateOrigin(_) =>
      InternationalPlayer(p.playerId, p.fullName, p.birthYear, p.birthDecade, "", None, None, Round3(p.warCareer))
    case CountryOrigin(country, raw, city) =>
      InternationalPlayer(p.playerId, p.fullName, p.birthYear, p.birthDecade, country, raw, city, Round3(p.warCareer))
  }

  /** `internationalList`. */
  function InternationalList(players: seq<MasterPlayer>): seq<InternationalPlayer> {
    SortBy(Map(Filter(players, ListedAbroad), InternationalRecord), WarDescending)
  }

  lemma RecordWarDescendingIsStrictOrder()
    ensures StrictOrder(RecordWarDescending)
  {
  }

  /** Records with the same rounded WAR are tied, and ties are transitive. */
  lemma RecordWarDescendingIsWeakOrder()
    ensures StrictWeakOrder(RecordWarDescending)
  {
  }

  lemma InternationalWarDescendingIsWeakOrder()
    ensures StrictWeakOrder(WarDescending)
  {
  }

  /** Records with the same rounded WAR as `r` keep the order of the player
      map in the domestic list. */
  lemma DomesticListStable(players: seq<MasterPlayer>, r: PlayerRecord)
    ensures Filter(DomesticList(players), TiedWith(RecordWarDescending, r))
         == Filter(Map(Filter(players, Significant), DomesticRecord), TiedWith(RecordWarDescending, r))
  {
    RecordWarDescendingIsWeakOrder();
    SortByStable(Map(Filter(players, Significant), DomesticRecord), RecordWarDescending, r);
  }

  /** Records with the same rounded WAR as `r` keep the order of the player
      map in the international list. */
  lemma InternationalListStable(players: seq<MasterPlayer>, r: InternationalPlayer)
    ensures Filter(InternationalList(players), TiedWith(WarDescending, r))
         == Filter(Map(Filter(players, ListedAbroad), InternationalRecord), TiedWith(WarDescending, r))
  {
    InternationalWarDescendingIsWeakOrder();
    SortByStable(Map(Filter(players, ListedAbroad), InternationalRecord), WarDescending, r);
  }

  /** Rounding to thousandths keeps a WAR of at least 0.01 either way at
      least 0.01 either way. */
  lemma Round3KeepsSignificance(x: real)
    requires Abs(x) >= 0.01
    ensures Abs(Round3(x)) >= 0.01
  {
    var n := Thousandths(x);
    if x < 0.0 {
      assert n as real <= 1000.0 * x + 0.5 <= -9.5;
      assert n <= -10;
    } else {
      assert n as real >= 1000.0 * x - 0.5 >= 9.5;
      assert n >= 10;
    }
  }

  /**
   * The domestic list holds the record of every player with at least 0.01
   * WAR either way and nothing else, one record per such player, with the
   * highest WAR first; every WAR written is still at least 0.01 either way.
   */
  lemma DomesticListSpec(players: seq<MasterPlayer>)
    ensures var list := DomesticList(players);
            && (forall r :: r in list <==> exists p :: p in players && Significant(p) && r == DomesticRecord(p))
            && multiset(list) == multiset(Map(Filter(players, Significant), DomesticRecord))
            && (forall i, j :: 0 <= i < j < |list| ==> list[i].warCareer >= list[j].warCareer)
            && (forall r :: r in list ==> Abs(r.warCareer) >= 0.01)
  {
    var kept := Filter(players, Significant);
    var records := Map(kept, DomesticRecord);
    var list := SortBy(records, RecordWarDescending);
    forall r ensures r in list <==> exists p :: p in players && Significant(p) && r == DomesticRecord(p) {
      SortByMembers(records, RecordWarDescending, r);
      MapMember(kept, DomesticRecord, r);
      forall p ensures p in kept <==> p in players && Significant(p) {
        FilterMember(players, Significant, p);
      }
    }
    RecordWarDescendingIsStrictOrder();
    SortBySorted(records, RecordWarDescending);
    forall r | r in list ensures Abs(r.warCareer) >= 0.01 {
      var p :| p in players && Significant(p) && r == DomesticRecord(p);
      Round3KeepsSignificance(p.warCareer);
    }
  }

  /**
   * The international list holds the record of every player with a birth
   * country and at least 0.01 WAR either way and nothing else, one record
   * per such player, with the highest WAR first.
   */
  lemma InternationalListSpec(players: seq<MasterPlayer>)
    ensures var list := InternationalList(players);
            && (forall r :: r in list <==> exists p :: p in players && ListedAbroad(p) && r == InternationalRecord(p))
            && multiset(list) == multiset(Map(Filter(players, ListedAbroad), InternationalRecord))
            && (forall i, j :: 0 <= i < j < |list| ==> list[i].warCareer >= list[j].warCareer)
            && (forall r :: r in list ==> Abs(r.warCareer) >= 0.01 && r.birthCountry != "")
  {
    var kept := Filter(players, ListedAbroad);
    var records := Map(kept, InternationalRecord);
    var list := SortBy(records, WarDescending);
    forall r ensures r in list <==> exists p :: p in players && ListedAbroad(p) && r == InternationalRecord(p) {
      SortByMembers(records, WarDescending, r);
      MapMember(kept, InternationalRecord, r);
      forall p ensures p in kept <==> p in players && ListedAbroad(p) {
        FilterMember(players, ListedAbroad, p);
      }
    }
    WarDescendingIsStrictOrder();
    SortBySorted(records, WarDescending);
    forall r | r in list ensures Abs(r.warCareer) >= 0.01 && r.birthCountry != "" {
      var p :| p in players && ListedAbroad(p) && r == InternationalRecord(p);
      Round3KeepsSignificance(p.warCareer);
    }
  }

  /** One of the two maps once the master rows and then the WAR rows have
      been read, the cells of both trimmed. */
  function Careers(table: seq<StateMeta>, master: seq<Row>, warRows: seq<Row>, domestic: bool): (t: PlayerTable)
    ensures t.Valid()
  {
    var t := WithWar(Collected(Placer(table), ParseCsv(master), domestic), WarRow, ParseCsv(warRows));
    WithWarKeeps(Collected(Placer(table), ParseCsv(master), domestic), WarRow, ParseCsv(warRows));
    t
  }

  /** A player's career WAR is all the WAR the trimmed WAR rows credit to
      its id; domestic players have the postal code of a state of the table,
      international ones a country other than the United States. */
  lemma CareerOf(table: seq<StateMeta>, master: seq<Row>, warRows: seq<Row>, domestic: bool, id: string)
    requires id in Careers(table, master, warRows, domestic).entries
    ensures var p := Careers(table, master, warRows, domestic).entries[id];
            && p.playerId == id
            && p.warCareer == WarOf(WarRow, ParseCsv(warRows), id)
            && (domestic ==> p.origin.StateOrigin?)
            && (domestic ==> exists m :: m in table && p.origin == StateOrigin(m.postal))
            && (!domestic ==> p.origin.CountryOrigin? && Trim(p.origin.birthCountry) != "" &&
                              p.origin.birthCountry != "United States")
  {
    var t := Collected(Placer(table), ParseCsv(master), domestic);
    WithWarKeeps(t, WarRow, ParseCsv(warRows));
    CollectedOrigins(table, ParseCsv(master), domestic, id);
  }

  /** `buildPlayerDatasets` on the master rows and the batting and pitching
      WAR rows. */
  method BuildPlayerDatasets(table: seq<StateMeta>, master: seq<Row>, batting: seq<Row>, pitching: seq<Row>)
    returns (domesticList: seq<PlayerRecord>, internationalList: seq<InternationalPlayer>)
    ensures domesticList == DomesticList(Careers(table, master, batting + pitching, true).Values())
    ensures internationalList == InternationalList(Careers(table, master, batting + pitching, false).Values())
  {
    var domestic, international := LoadMasterRecords(table, master);
    var battingRows := ParseCsv(batting);
    AccumulateWar(domestic, battingRows);
    AccumulateWar(international, battingRows);
    var pitchingRows := ParseCsv(pitching);
    AccumulateWar(domestic, pitchingRows);
    AccumulateWar(international, pitchingRows);
    ParseCsvAppend(batting, pitching);
    WithWarAppend(Collected(Placer(table), ParseCsv(master), true), WarRow, battingRows, pitchingRows);
    WithWarAppend(Collected(Placer(table), ParseCsv(master), false), WarRow, battingRows, pitchingRows);
    assert domestic.Contents() == Careers(table, master, batting + pitching, true);
    assert international.Contents() == Careers(table, master, batting + pitching, false);
    domesticList := DomesticList(domestic.Contents().Values());
    internationalList := InternationalList(international.Contents().Values());
  }
}
