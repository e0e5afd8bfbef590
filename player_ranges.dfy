/**
 * `listDecades` and `getPlayerYearExtent`: the birth decades present among
 * the players, and the range of their birth years for the year filter.
 */
module PlayerRanges {
  import opened Wrappers
  import opened Records
  import opened Ranges

  function BirthDecades(players: seq<PlayerRecord>): (r: seq<int>)
    ensures |r| == |players|
    ensures forall i :: 0 <= i < |players| ==> r[i] == players[i].birthDecade
  {
    seq(|players|, i requires 0 <= i < |players| => players[i].birthDecade)
  }

  function BirthYears(players: seq<PlayerRecord>): (r: seq<real>)
    ensures |r| == |players|
    ensures forall i :: 0 <= i < |players| ==> r[i] == players[i].birthYear
  {
    seq(|players|, i requires 0 <= i < |players| => players[i].birthYear)
  }

  /** `listDecades`: every birth decade present, once, in ascending order. */
  method ListDecades(players: seq<PlayerRecord>) returns (decades: seq<int>)
    ensures StrictlyAscending(decades)
    ensures forall d :: d in decades <==> exists p :: p in players && p.birthDecade == d
  {
    var all := BirthDecades(players);
    decades := SortedDistinct(all);
    forall d ensures d in all <==> exists p :: p in players && p.birthDecade == d {
      if d in all {
        var i :| 0 <= i < |all| && all[i] == d;
        assert players[i] in players;
      }
      if exists p :: p in players && p.birthDecade == d {
        var p :| p in players && p.birthDecade == d;
        var i :| 0 <= i < |players| && players[i] == p;
        assert all[i] == d;
      }
    }
  }

  /**
   * `getPlayerYearExtent`: `null` without players; otherwise the least and
   * the greatest birth year, except that either bound being 0 also gives
   * `null` (the bounds are tested for truthiness).
   */
  function PlayerYearExtent(players: seq<PlayerRecord>): (r: Option<(real, real)>)
    ensures players == [] ==> r.None?
    ensures r.Some? ==> r.value.0 != 0.0 && r.value.1 != 0.0
    ensures r.Some? ==> forall p :: p in players ==> r.value.0 <= p.birthYear <= r.value.1
    ensures r.Some? ==> (exists p :: p in players && p.birthYear == r.value.0) &&
                        (exists p :: p in players && p.birthYear == r.value.1)
  {
    if |players| == 0 then None
    else
      var years := BirthYears(players);
      var lo, hi := MinOf(years), MaxOf(years);
      if lo == 0.0 || hi == 0.0 then None
      else
        assert forall p :: p in players ==> lo <= p.birthYear <= hi;
        assert exists i :: 0 <= i < |players| && players[i].birthYear == lo;
        assert exists i :: 0 <= i < |players| && players[i].birthYear == hi;
        Some((lo, hi))
  }

  /** The extent is `null` for a non-empty list exactly when some player was
      born in year 0 and no birth year lies on the other side of 0. */
  lemma ZeroYearHidesExtent(players: seq<PlayerRecord>)
    requires players != []
    ensures PlayerYearExtent(players).None? <==>
              (exists p :: p in players && p.birthYear == 0.0) &&
              ((forall p :: p in players ==> p.birthYear >= 0.0) || (forall p :: p in players ==> p.birthYear <= 0.0))
  {
    var years := BirthYears(players);
    var lo, hi := MinOf(years), MaxOf(years);
    assert forall p :: p in players ==> lo <= p.birthYear <= hi;
    var i :| 0 <= i < |players| && years[i] == lo;
    var j :| 0 <= j < |players| && years[j] == hi;
    assert players[i] in players && players[j] in players;
  }
}
