/**
 * `buildPopulationLookup` and `findClosestPopulation`: the population rows
 * grouped by state code with each group ordered by year, and the population
 * of the row whose year is nearest a target year.
 */
module PopulationLookup {
  import opened Wrappers
  import opened JsNumber
  import opened Sorting
  import opened Records

  /** State code -> that state's population records. */
  type Lookup = map<string, seq<PopulationRecord>>

  /** The records of one state, in input order. */
  function RecordsOf(populations: seq<PopulationRecord>, state: string): (r: seq<PopulationRecord>)
    ensures forall p :: p in r <==> p in populations && p.state == state
    ensures |r| <= |populations|
  {
    if populations == [] then []
    else
      var init := RecordsOf(populations[..|populations| - 1], state);
      var last := populations[|populations| - 1];
      assert forall p :: p in populations ==> p in populations[..|populations| - 1] || p == last;
      if last.state == state then init + [last] else init
  }

  /** The state codes that occur in the records. */
  function StatesOf(populations: seq<PopulationRecord>): set<string> {
    set p | p in populations :: p.state
  }

  /** The comparator `a.year - b.year`: earlier year first. */
  predicate YearBefore(a: PopulationRecord, b: PopulationRecord) {
    a.year < b.year
  }

  lemma YearBeforeIsStrictOrder()
    ensures StrictOrder(YearBefore)
  {
  }

  /** The lookup `buildPopulationLookup` returns: every state present, each
      with its records stably sorted by year. */
  function PopulationLookupOf(populations: seq<PopulationRecord>): Lookup {
    map s | s in StatesOf(populations) :: SortBy(RecordsOf(populations, s), YearBefore)
  }

  lemma GroupStep(populations: seq<PopulationRecord>, record: PopulationRecord)
    ensures StatesOf(populations + [record]) == StatesOf(populations) + {record.state}
    ensures forall s :: RecordsOf(populations + [record], s) ==
              if s == record.state then RecordsOf(populations, s) + [record] else RecordsOf(populations, s)
  {
    assert (populations + [record])[..|populations|] == populations;
  }

  lemma NoRecordsWhenAbsent(populations: seq<PopulationRecord>, state: string)
    requires state !in StatesOf(populations)
    ensures RecordsOf(populations, state) == []
  {
    var none := RecordsOf(populations, state);
    assert forall k :: 0 <= k < |none| ==> none[k] in none;
  }

  /** The groups built from the records `ps`: a key per state present,
      holding that state's records in input order. */
  ghost predicate GroupedRecords(ps: seq<PopulationRecord>, groups: Lookup) {
    && groups.Keys == StatesOf(ps)
    && forall s :: s in groups ==> groups[s] == RecordsOf(ps, s)
  }

  /** Appending a record to its state's list (opened empty when missing)
      keeps the groups in step with the records seen. */
  lemma GroupRecord(ps: seq<PopulationRecord>, record: PopulationRecord, groups: Lookup)
    requires GroupedRecords(ps, groups)
    ensures GroupedRecords(ps + [record],
              groups[record.state := (if record.state in groups then groups[record.state] else []) + [record]])
  {
    GroupStep(ps, record);
    if record.state !in groups {
      NoRecordsWhenAbsent(ps, record.state);
    }
  }

  /** `buildPopulationLookup`: group by state code, then sort every group. */
  method BuildPopulationLookup(populations: seq<PopulationRecord>) returns (lookup: Lookup)
    ensures lookup == PopulationLookupOf(populations)
    ensures lookup.Keys == StatesOf(populations)
    ensures forall s :: s in lookup ==>
              SortedBy(lookup[s], YearBefore) &&
              multiset(lookup[s]) == multiset(RecordsOf(populations, s))
  {
    var groups: Lookup := map[];
    for i := 0 to |populations|
      invariant GroupedRecords(populations[..i], groups)
    {
      var record := populations[i];
      assert populations[..i + 1] == populations[..i] + [record];
      GroupRecord(populations[..i], record, groups);
      var list := if record.state in groups then groups[record.state] else [];
      groups := groups[record.state := list + [record]];
    }
    assert populations[..|populations|] == populations;
    lookup := SortGroups(groups);
    SortedGroups(populations, groups);
    PopulationLookupOfSorted(populations);
  }

  /** `lookup.forEach((list) => list.sort(...))`, on values. */
  function SortGroups(groups: Lookup): (sorted: Lookup)
    ensures sorted.Keys == groups.Keys
  {
    map s | s in groups :: SortBy(groups[s], YearBefore)
  }

  /** Sorting the complete groups gives the lookup. */
  lemma SortedGroups(populations: seq<PopulationRecord>, groups: Lookup)
    requires groups.Keys == StatesOf(populations)
    requires forall s :: s in groups ==> groups[s] == RecordsOf(populations, s)
    ensures SortGroups(groups) == PopulationLookupOf(populations)
  {
  }

  /** The lookup has a key for every state present, and each state's list
      holds exactly that state's records, ordered by year. */
  lemma PopulationLookupOfSorted(populations: seq<PopulationRecord>)
    ensures PopulationLookupOf(populations).Keys == StatesOf(populations)
    ensures forall s :: s in PopulationLookupOf(populations) ==>
              SortedBy(PopulationLookupOf(populations)[s], YearBefore) &&
              multiset(PopulationLookupOf(populations)[s]) == multiset(RecordsOf(populations, s))
  {
    YearBeforeIsStrictOrder();
    forall s | s in StatesOf(populations)
      ensures SortedBy(SortBy(RecordsOf(populations, s), YearBefore), YearBefore)
    {
      SortBySorted(RecordsOf(populations, s), YearBefore);
    }
  }

  /** How far a record's year is from the target year. */
  function Distance(p: PopulationRecord, targetYear: real): real {
    Abs(p.year - targetYear)
  }

  /** The position the scan of `findClosestPopulation` settles on: a record
      at the least distance, and the earliest such record, because a later
      one replaces it only when strictly closer. */
  function ClosestIndex(candidates: seq<PopulationRecord>, targetYear: real): (k: nat)
    requires |candidates| > 0
    ensures k < |candidates|
    ensures forall j :: 0 <= j < |candidates| ==> Distance(candidates[k], targetYear) <= Distance(candidates[j], targetYear)
    ensures forall j :: 0 <= j < k ==> Distance(candidates[j], targetYear) > Distance(candidates[k], targetYear)
  {
    if |candidates| == 1 then 0
    else
      var init := candidates[..|candidates| - 1];
      var k := ClosestIndex(init, targetYear);
      assert forall j :: 0 <= j < |init| ==> init[j] == candidates[j];
      if Distance(candidates[|candidates| - 1], targetYear) < Distance(candidates[k], targetYear) then |candidates| - 1 else k
  }

  /** The population `findClosestPopulation` answers, `None` for null. */
  function ClosestPopulation(lookup: Lookup, statePostal: string, targetYear: real): Option<real> {
    if statePostal !in lookup || lookup[statePostal] == [] then None
    else Some(lookup[statePostal][ClosestIndex(lookup[statePostal], targetYear)].population)
  }

  /** `findClosestPopulation`: null for a state without records; otherwise
      the population of the earliest record nearest the target year. */
  method FindClosestPopulation(lookup: Lookup, statePostal: string, targetYear: real) returns (population: Option<real>)
    ensures population == ClosestPopulation(lookup, statePostal, targetYear)
    ensures population.None? <==> statePostal !in lookup || lookup[statePostal] == []
    ensures population.Some? ==>
              exists k :: 0 <= k < |lookup[statePostal]| && lookup[statePostal][k].population == population.value &&
                forall j :: 0 <= j < |lookup[statePostal]| ==>
                  Distance(lookup[statePostal][k], targetYear) <= Distance(lookup[statePostal][j], targetYear)
  {
    if statePostal !in lookup || |lookup[statePostal]| == 0 {
      return None;
    }
    var candidates := lookup[statePostal];
    var closest := 0;
    var minDiff := Distance(candidates[0], targetYear);
    for i := 1 to |candidates|
      invariant closest == ClosestIndex(candidates[..i], targetYear)
      invariant minDiff == Distance(candidates[closest], targetYear)
    {
      assert candidates[..i + 1][..i] == candidates[..i];
      var diff := Distance(candidates[i], targetYear);
      if diff < minDiff {
        closest := i;
        minDiff := diff;
      }
    }
    assert candidates[..|candidates|] == candidates;
    population := Some(candidates[closest].population);
  }

  /** Records of other states never change the answer for a state. */
  lemma {:induction false} OtherStatesIrrelevant(populations: seq<PopulationRecord>, other: PopulationRecord, state: string)
    requires other.state != state
    ensures RecordsOf(populations + [other], state) == RecordsOf(populations, state)
    ensures RecordsOf([other] + populations, state) == RecordsOf(populations, state)
  {
    assert (populations + [other])[..|populations|] == populations;
    if populations != [] {
      var init := populations[..|populations| - 1];
      OtherStatesIrrelevant(init, other, state);
      assert ([other] + populations)[..|populations|] == [other] + init;
    } else {
      assert [other] + populations == populations + [other];
    }
  }
}
