/**
 * The population dataset the build script writes: the `total` rows of the
 * population file whose year and population are numbers and whose state
 * resolves, as postal code, year and rounded population, ordered by postal
 * code and then by year.
 */
module BuildPopulations {
  import opened Wrappers
  import opened Text
  import opened JsNumber
  import opened Sorting
  import opened Sequences
  import opened StateMetaTable
  import opened Records
  import opened BuildNormalize
  import opened BuildMaster

  /** One entry of the population dataset. */
  datatype PopulationEntry = PopulationEntry(state: string, year: real, population: int)

  /** The row as the first `map` stage reads it. */
  datatype PopulationDraft = PopulationDraft(state: Option<string>, year: Option<real>, population: Option<real>)

  /** `(row.ages ?? row.age ?? '').toLowerCase() === 'total'`. */
  predicate TotalRow(row: Row) {
    Lower(Cell(row, "ages").Or(Cell(row, "age")).GetOr("")) == "total"
  }

  /** The first `map` stage. */
  function Draft(row: Row): PopulationDraft {
    PopulationDraft(Cell(row, "state/region").Or(Cell(row, "state")),
                    NormalizeNumber(Cell(row, "year")),
                    NormalizeNumber(Cell(row, "population")))
  }

  /** The `filter` after it: year and population are numbers. */
  predicate Complete(d: PopulationDraft) {
    d.year.Some? && d.population.Some?
  }

  /** The second `map` stage: nothing for a state that does not resolve
      (an incomplete draft, which the filter before it has dropped, gives
      nothing too). */
  function Resolve(table: seq<StateMeta>, d: PopulationDraft): (r: Option<PopulationEntry>)
    ensures r.Some? ==> Complete(d)
    ensures r.Some? ==> exists m :: m in table && FindState(table, d.state) == Some(m) && r.value.state == m.postal
    ensures r.Some? ==> r.value.year == d.year.value
    ensures r.Some? ==> d.population.value - 0.5 < r.value.population as real <= d.population.value + 0.5
    ensures Complete(d) && FindState(table, d.state).Some? ==> r.Some?
  {
    var state := FindState(table, d.state);
    if state.None? || !Complete(d) then None
    else
      FindStateIsFindStateMeta(table, d.state);
      Some(PopulationEntry(state.value.postal, d.year.value, JsRound(d.population.value)))
  }

  function Resolver(table: seq<StateMeta>): PopulationDraft -> Option<PopulationEntry> {
    d => Resolve(table, d)
  }

  /** The comparator: by year within a state, states by postal code. */
  predicate EntryBefore(a: PopulationEntry, b: PopulationEntry) {
    if a.state == b.state then a.year < b.year else LexLess(a.state, b.state)
  }

  /** The population dataset of the rows of the population file. */
  function PopulationDataset(table: seq<StateMeta>, rows: seq<Row>): seq<PopulationEntry> {
    var drafts := Filter(Map(Filter(ParseCsv(rows), TotalRow), Draft), Complete);
    SortBy(Somes(Map(drafts, Resolver(table))), EntryBefore)
  }

  lemma EntryBeforeIsStrictOrder()
    ensures StrictOrder(EntryBefore)
  {
    forall a: PopulationEntry ensures !EntryBefore(a, a) {
      LexLessIrreflexive(a.state);
    }
    forall a: PopulationEntry, b: PopulationEntry, c: PopulationEntry | EntryBefore(a, b) && EntryBefore(b, c)
      ensures EntryBefore(a, c)
    {
      if a.state != b.state && b.state != c.state {
        LexLessTransitive(a.state, b.state, c.state);
        if a.state == c.state {
          LexLessIrreflexive(a.state);
        }
      }
    }
  }

  /** What a chain of `filter`, `map`, `filter`, `map` and
      `filter(Boolean)` keeps, element by element. */
  lemma {:induction false} PipelineMember<R, D, E>(rows: seq<R>, keep: R -> bool, draft: R -> D, complete: D -> bool,
                                                    resolve: D -> Option<E>, e: E)
    ensures e in Somes(Map(Filter(Map(Filter(rows, keep), draft), complete), resolve)) <==>
            exists row :: row in rows && keep(row) && complete(draft(row)) && resolve(draft(row)) == Some(e)
  {
    var kept := Filter(rows, keep);
    var drafts := Filter(Map(kept, draft), complete);
    var resolved := Map(drafts, resolve);
    SomesMember(resolved, e);
    MapMember(drafts, resolve, Some(e));
    forall d ensures d in drafts <==> d in Map(kept, draft) && complete(d) {
      FilterMember(Map(kept, draft), complete, d);
      MapMember(kept, draft, d);
    }
    forall row ensures row in kept <==> row in rows && keep(row) {
      FilterMember(rows, keep, row);
    }
  }

  /** What one trimmed row contributes to the dataset: the resolved entry of
      a `total` row with a numeric year and population, or nothing. */
  function RowEntry(table: seq<StateMeta>, row: Row): Option<PopulationEntry> {
    if TotalRow(row) && Complete(Draft(row)) then Resolve(table, Draft(row)) else None
  }

  function RowEntries(table: seq<StateMeta>): Row -> Option<PopulationEntry> {
    row => RowEntry(table, row)
  }

  /** The chain applied to two lists of rows one after the other. */
  lemma PipelineAppend<R, D, E>(a: seq<R>, b: seq<R>, keep: R -> bool, draft: R -> D, complete: D -> bool,
                                resolve: D -> Option<E>)
    ensures Somes(Map(Filter(Map(Filter(a + b, keep), draft), complete), resolve))
         == Somes(Map(Filter(Map(Filter(a, keep), draft), complete), resolve))
          + Somes(Map(Filter(Map(Filter(b, keep), draft), complete), resolve))
  {
    var ka, kb := Filter(a, keep), Filter(b, keep);
    var da, db := Map(ka, draft), Map(kb, draft);
    var ca, cb := Filter(da, complete), Filter(db, complete);
    calc {
      Somes(Map(Filter(Map(Filter(a + b, keep), draft), complete), resolve));
      == { FilterAppend(a, b, keep); }
      Somes(Map(Filter(Map(ka + kb, draft), complete), resolve));
      == { MapAppend(ka, kb, draft); }
      Somes(Map(Filter(da + db, complete), resolve));
      == { FilterAppend(da, db, complete); }
      Somes(Map(ca + cb, resolve));
      == { MapAppend(ca, cb, resolve); }
      Somes(Map(ca, resolve) + Map(cb, resolve));
      == { SomesAppend(Map(ca, resolve), Map(cb, resolve)); }
      Somes(Map(ca, resolve)) + Somes(Map(cb, resolve));
    }
  }

  /** The chain applied to one row yields that row's outcome. */
  lemma PipelineSingle<R, D, E>(x: R, keep: R -> bool, draft: R -> D, complete: D -> bool,
                                resolve: D -> Option<E>, outcome: Option<E>)
    requires outcome == if keep(x) && complete(draft(x)) then resolve(draft(x)) else None
    ensures Somes(Map(Filter(Map(Filter([x], keep), draft), complete), resolve)) == Somes([outcome])
  {
    FilterSnoc([], x, keep);
    assert [] + [x] == [x];
    var k := Filter([x], keep);
    var d := Map(k, draft);
    var c := Filter(d, complete);
    var m := Map(c, resolve);
    if !keep(x) {
      assert k == [];
      assert c == [];
    } else {
      assert d == [] + [draft(x)];
      FilterSnoc([], draft(x), complete);
      if !complete(draft(x)) {
        assert c == [];
      } else {
        assert c == [draft(x)];
        assert m == [outcome];
      }
    }
  }

  /**
   * The `filter`/`map`/`filter`/`map`/`filter(Boolean)` chain keeps, in row
   * order, one result for every row that passes every stage: the same as
   * mapping each row to its outcome and dropping the nulls.
   */
  lemma {:induction false} PipelineOutcomes<R, D, E>(rows: seq<R>, keep: R -> bool, draft: R -> D, complete: D -> bool,
                                                      resolve: D -> Option<E>, outcome: R -> Option<E>)
    requires forall r :: outcome(r) == if keep(r) && complete(draft(r)) then resolve(draft(r)) else None
    ensures Somes(Map(Filter(Map(Filter(rows, keep), draft), complete), resolve)) == Somes(Map(rows, outcome))
  {
    if rows != [] {
      var init, x := rows[..|rows| - 1], rows[|rows| - 1];
      calc {
        Somes(Map(Filter(Map(Filter(rows, keep), draft), complete), resolve));
        == { assert rows == init + [x]; PipelineAppend(init, [x], keep, draft, complete, resolve); }
        Somes(Map(Filter(Map(Filter(init, keep), draft), complete), resolve))
          + Somes(Map(Filter(Map(Filter([x], keep), draft), complete), resolve));
        == { PipelineOutcomes(init, keep, draft, complete, resolve, outcome);
             PipelineSingle(x, keep, draft, complete, resolve, outcome(x)); }
        Somes(Map(init, outcome)) + Somes([outcome(x)]);
        == { SomesAppend(Map(init, outcome), [outcome(x)]); }
        Somes(Map(init, outcome) + [outcome(x)]);
        == { MapAppend(init, [x], outcome); assert rows == init + [x]; }
        Somes(Map(rows, outcome));
      }
    }
  }

  /** Before sorting, the chain yields each trimmed row's entry in row
      order, one per row that has one. */
  lemma ResolvedOutcomes(table: seq<StateMeta>, rows: seq<Row>)
    ensures Somes(Map(Filter(Map(Filter(ParseCsv(rows), TotalRow), Draft), Complete), Resolver(table)))
         == Somes(Map(ParseCsv(rows), RowEntries(table)))
  {
    PipelineOutcomes(ParseCsv(rows), TotalRow, Draft, Complete, Resolver(table), RowEntries(table));
  }

  /** The entries resolved from the trimmed rows, before sorting. */
  lemma ResolvedMember(table: seq<StateMeta>, rows: seq<Row>, e: PopulationEntry)
    ensures e in Somes(Map(Filter(Map(Filter(ParseCsv(rows), TotalRow), Draft), Complete), Resolver(table))) <==>
            exists raw :: raw in rows && var row := TrimCells(raw);
              TotalRow(row) && Complete(Draft(row)) && Resolve(table, Draft(row)) == Some(e)
  {
    var records := ParseCsv(rows);
    PipelineMember(records, TotalRow, Draft, Complete, Resolver(table), e);
    forall row ensures row in records <==> exists raw :: raw in rows && TrimCells(raw) == row {
      ParseCsvMember(rows, row);
    }
  }

  /**
   * The dataset holds exactly the resolved `total` rows with a numeric year
   * and population, each under the postal code of a state of the table and
   * with its population rounded, one entry per such row; it is ordered by
   * postal code and, within a state, by year.
   */
  lemma PopulationDatasetSpec(table: seq<StateMeta>, rows: seq<Row>)
    ensures var data := PopulationDataset(table, rows);
            && (forall e :: e in data <==>
                  exists raw :: raw in rows && var row := TrimCells(raw);
                    TotalRow(row) && Complete(Draft(row)) && Resolve(table, Draft(row)) == Some(e))
            && multiset(data) == multiset(Somes(Map(ParseCsv(rows), RowEntries(table))))
            && (forall i, j :: 0 <= i < j < |data| ==>
                  if data[i].state == data[j].state then data[i].year <= data[j].year
                  else LexLess(data[i].state, data[j].state))
  {
    var drafts := Filter(Map(Filter(ParseCsv(rows), TotalRow), Draft), Complete);
    var resolved := Somes(Map(drafts, Resolver(table)));
    var data := SortBy(resolved, EntryBefore);
    forall e ensures e in data <==>
                     exists raw :: raw in rows && var row := TrimCells(raw);
                       TotalRow(row) && Complete(Draft(row)) && Resolve(table, Draft(row)) == Some(e)
    {
      SortByMembers(resolved, EntryBefore, e);
      ResolvedMember(table, rows, e);
    }
    ResolvedOutcomes(table, rows);
    EntryBeforeIsStrictOrder();
    SortBySorted(resolved, EntryBefore);
    forall i, j | 0 <= i < j < |data| && data[i].state != data[j].state
      ensures LexLess(data[i].state, data[j].state)
    {
      assert !EntryBefore(data[j], data[i]);
      LexLessTotal(data[i].state, data[j].state);
    }
  }
}
