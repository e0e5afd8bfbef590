/**
 * The U.S. state reference table and the resolver that maps free text (a
 * postal code or a full name, in any letter case, with surrounding white
 * space) to a table entry.
 */
module StateMetaTable {
  import opened Wrappers
  import opened Text

  datatype StateMeta = StateMeta(name: string, postal: string, fips: string)

  /** The reference table: the fifty states and the District of Columbia. */
  const STATES: seq<StateMeta> := [
    StateMeta("Alabama", "AL", "01"), StateMeta("Alaska", "AK", "02"),
    StateMeta("Arizona", "AZ", "04"), StateMeta("Arkansas", "AR", "05"),
    StateMeta("California", "CA", "06"), StateMeta("Colorado", "CO", "08"),
    StateMeta("Connecticut", "CT", "09"), StateMeta("Delaware", "DE", "10"),
    StateMeta("District of Columbia", "DC", "11"), StateMeta("Florida", "FL", "12"),
    StateMeta("Georgia", "GA", "13"), StateMeta("Hawaii", "HI", "15"),
    StateMeta("Idaho", "ID", "16"), StateMeta("Illinois", "IL", "17"),
    StateMeta("Indiana", "IN", "18"), StateMeta("Iowa", "IA", "19"),
    StateMeta("Kansas", "KS", "20"), StateMeta("Kentucky", "KY", "21"),
    StateMeta("Louisiana", "LA", "22"), StateMeta("Maine", "ME", "23"),
    StateMeta("Maryland", "MD", "24"), StateMeta("Massachusetts", "MA", "25"),
    StateMeta("Michigan", "MI", "26"), StateMeta("Minnesota", "MN", "27"),
    StateMeta("Mississippi", "MS", "28"), StateMeta("Missouri", "MO", "29"),
    StateMeta("Montana", "MT", "30"), StateMeta("Nebraska", "NE", "31"),
    StateMeta("Nevada", "NV", "32"), StateMeta("New Hampshire", "NH", "33"),
    StateMeta("New Jersey", "NJ", "34"), StateMeta("New Mexico", "NM", "35"),
    StateMeta("New York", "NY", "36"), StateMeta("North Carolina", "NC", "37"),
    StateMeta("North Dakota", "ND", "38"), StateMeta("Ohio", "OH", "39"),
    StateMeta("Oklahoma", "OK", "40"), StateMeta("Oregon", "OR", "41"),
    StateMeta("Pennsylvania", "PA", "42"), StateMeta("Rhode Island", "RI", "44"),
    StateMeta("South Carolina", "SC", "45"), StateMeta("South Dakota", "SD", "46"),
    StateMeta("Tennessee", "TN", "47"), StateMeta("Texas", "TX", "48"),
    StateMeta("Utah", "UT", "49"), StateMeta("Vermont", "VT", "50"),
    StateMeta("Virginia", "VA", "51"), StateMeta("Washington", "WA", "53"),
    StateMeta("West Virginia", "WV", "54"), StateMeta("Wisconsin", "WI", "55"),
    StateMeta("Wyoming", "WY", "56")
  ]

  /** `new Map(table.map(s => [key(s), s]))`: every entry is reachable under
      its key, and a later entry with the same key replaces an earlier one. */
  function IndexBy(table: seq<StateMeta>, key: StateMeta -> string): (m: map<string, StateMeta>)
    ensures forall k :: k in m ==> m[k] in table && key(m[k]) == k
    ensures forall s :: s in table ==> key(s) in m
  {
    if table == [] then map[]
    else
      var last := table[|table| - 1];
      var m := IndexBy(table[..|table| - 1], key)[key(last) := last];
      assert forall s :: s in table ==> s in table[..|table| - 1] || s == last;
      m
  }

  function PostalKey(s: StateMeta): string {
    Upper(s.postal)
  }

  function NameKey(s: StateMeta): string {
    Lower(s.name)
  }

  ghost predicate PostalMatches(table: seq<StateMeta>, t: string) {
    exists s :: s in table && Upper(s.postal) == Upper(t)
  }

  ghost predicate NameMatches(table: seq<StateMeta>, t: string) {
    exists s :: s in table && Lower(s.name) == Lower(t)
  }

  /**
   * `findStateMeta(value)` over a reference table: missing, empty or blank
   * text resolves to nothing; otherwise the trimmed text is looked up as a
   * postal code (ignoring case), and only when that fails as a full name
   * (ignoring case). The precise contract is `FindStateMetaSpec`.
   */
  function FindStateMetaIn(table: seq<StateMeta>, value: Option<string>): (r: Option<StateMeta>)
    ensures r.Some? ==> r.value in table
  {
    if value.None? || value.value == "" then None
    else LookupTrimmed(table, Trim(value.value))
  }

  lemma FindStateMetaSpec(table: seq<StateMeta>, value: Option<string>)
    ensures value.None? || Trim(value.value) == "" ==> FindStateMetaIn(table, value).None?
    ensures value.Some? && Trim(value.value) != "" && PostalMatches(table, Trim(value.value)) ==>
              var r := FindStateMetaIn(table, value);
              r.Some? && Upper(r.value.postal) == Upper(Trim(value.value))
    ensures value.Some? && Trim(value.value) != "" && !PostalMatches(table, Trim(value.value)) ==>
              (FindStateMetaIn(table, value).Some? <==> NameMatches(table, Trim(value.value)))
    ensures value.Some? && Trim(value.value) != "" && !PostalMatches(table, Trim(value.value)) &&
            FindStateMetaIn(table, value).Some? ==>
              Lower(FindStateMetaIn(table, value).value.name) == Lower(Trim(value.value))
  {
    if value.Some? {
      LookupTrimmedSpec(table, Trim(value.value));
      if value.value == "" { assert Trim(value.value) == ""; }
    }
  }

  /** The entry the index `IndexBy(table, key)` holds under `k`: the last
      entry of the table with that key. */
  function LastWith(table: seq<StateMeta>, key: StateMeta -> string, k: string): (r: Option<StateMeta>)
    ensures r.Some? ==> r.value in table && key(r.value) == k
    ensures r.None? <==> forall s :: s in table ==> key(s) != k
  {
    if table == [] then None
    else if key(table[|table| - 1]) == k then Some(table[|table| - 1])
    else
      var r := LastWith(table[..|table| - 1], key, k);
      assert forall s :: s in table ==> s in table[..|table| - 1] || s == table[|table| - 1];
      r
  }

  /** Looking a key up in the index built by `IndexBy` finds the last
      entry with that key, and finds nothing when no entry has it. */
  lemma {:induction false} IndexByLookup(table: seq<StateMeta>, key: StateMeta -> string, k: string)
    ensures k in IndexBy(table, key) <==> LastWith(table, key, k).Some?
    ensures k in IndexBy(table, key) ==> IndexBy(table, key)[k] == LastWith(table, key, k).value
  {
    if table != [] {
      IndexByLookup(table[..|table| - 1], key, k);
    }
  }

  /** The two index lookups made once the text is trimmed: first `byPostal`
      under the upper-cased text, then `byName` under the lower-cased text. */
  function LookupTrimmed(table: seq<StateMeta>, trimmed: string): (r: Option<StateMeta>)
    ensures r.Some? ==> r.value in table
  {
    if trimmed == "" then None
    else
      var byPostal := LastWith(table, PostalKey, Upper(trimmed));
      if byPostal.Some? then byPostal
      else LastWith(table, NameKey, Lower(trimmed))
  }

  /** A postal-code match wins; a full-name match is taken only without one. */
  lemma LookupTrimmedSpec(table: seq<StateMeta>, trimmed: string)
    ensures trimmed == "" ==> LookupTrimmed(table, trimmed).None?
    ensures trimmed != "" && PostalMatches(table, trimmed) ==>
              LookupTrimmed(table, trimmed).Some? && Upper(LookupTrimmed(table, trimmed).value.postal) == Upper(trimmed)
    ensures trimmed != "" && !PostalMatches(table, trimmed) ==>
              (LookupTrimmed(table, trimmed).Some? <==> NameMatches(table, trimmed))
    ensures trimmed != "" && !PostalMatches(table, trimmed) && LookupTrimmed(table, trimmed).Some? ==>
              Lower(LookupTrimmed(table, trimmed).value.name) == Lower(trimmed)
  {
  }

  /** `LookupTrimmed` is the lookup in the two indexes as they are built. */
  lemma LookupUsesIndexes(table: seq<StateMeta>, trimmed: string)
    requires trimmed != ""
    ensures LookupTrimmed(table, trimmed) ==
              if Upper(trimmed) in IndexBy(table, PostalKey) then Some(IndexBy(table, PostalKey)[Upper(trimmed)])
              else if Lower(trimmed) in IndexBy(table, NameKey) then Some(IndexBy(table, NameKey)[Lower(trimmed)])
              else None
  {
    IndexByLookup(table, PostalKey, Upper(trimmed));
    IndexByLookup(table, NameKey, Lower(trimmed));
  }

  /** `findStateMeta` over `table` as a function of the raw text. */
  function StateResolver(table: seq<StateMeta>): string -> Option<StateMeta> {
    raw => FindStateMetaIn(table, Some(raw))
  }

  /** `findStateMeta` over the reference table `STATES`. */
  function FindStateMeta(value: Option<string>): (r: Option<StateMeta>)
    ensures r.Some? ==> r.value in STATES
  {
    FindStateMetaIn(STATES, value)
  }

  lemma FindStateMetaTrims(table: seq<StateMeta>, v: string)
    ensures FindStateMetaIn(table, Some(v)) == LookupTrimmed(table, Trim(v))
  {
    if v == "" { assert Trim(v) == ""; }
  }

  /** Surrounding white space never changes the resolution. */
  lemma FindStateMetaIgnoresPadding(table: seq<StateMeta>, w1: string, v: string, w2: string)
    requires AllSpace(w1) && AllSpace(w2)
    ensures FindStateMetaIn(table, Some(w1 + v + w2)) == FindStateMetaIn(table, Some(v))
  {
    TrimPadded(w1, v, w2);
    FindStateMetaTrims(table, w1 + v + w2);
    FindStateMetaTrims(table, v);
  }

  lemma LookupSameKeys(table: seq<StateMeta>, a: string, b: string)
    requires |a| == |b| && Upper(a) == Upper(b) && Lower(a) == Lower(b)
    ensures LookupTrimmed(table, a) == LookupTrimmed(table, b)
  {
  }

  lemma SameKeysResolveSame(table: seq<StateMeta>, u: string, v: string)
    requires |Trim(u)| == |Trim(v)|
    requires Upper(Trim(u)) == Upper(Trim(v)) && Lower(Trim(u)) == Lower(Trim(v))
    ensures FindStateMetaIn(table, Some(u)) == FindStateMetaIn(table, Some(v))
  {
    FindStateMetaTrims(table, u);
    FindStateMetaTrims(table, v);
    LookupSameKeys(table, Trim(u), Trim(v));
  }

  /** Resolution ignores letter case. */
  lemma FindStateMetaIgnoresCase(table: seq<StateMeta>, v: string)
    ensures FindStateMetaIn(table, Some(Upper(v))) == FindStateMetaIn(table, Some(v))
    ensures FindStateMetaIn(table, Some(Lower(v))) == FindStateMetaIn(table, Some(v))
  {
    TrimCaseCommutes(v);
    CaseFolding(Trim(v));
    SameKeysResolveSame(table, Upper(v), v);
    SameKeysResolveSame(table, Lower(v), v);
  }
}
