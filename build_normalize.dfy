/**
 * The cell-level helpers of the dataset build script: trimming the rows the
 * CSV reader yields, reading a number out of a cell, normalising a country
 * name, recognising the United States, and resolving a state.
 */
module BuildNormalize {
  import opened Wrappers
  import opened Text
  import opened JsNumber
  import opened StateMetaTable
  import opened Records

  /** Every cell of a row, trimmed. */
  function TrimCells(row: Row): Row {
    map k | k in row :: Trim(row[k])
  }

  /** `parseCsv` on the rows the CSV reader has split: every cell trimmed. */
  function ParseCsv(rows: seq<Row>): (r: seq<Row>)
    ensures |r| == |rows|
    ensures forall i :: 0 <= i < |rows| ==> r[i] == TrimCells(rows[i])
  {
    seq(|rows|, i requires 0 <= i < |rows| => TrimCells(rows[i]))
  }

  lemma TrimCellsIdempotent(row: Row)
    ensures TrimCells(TrimCells(row)) == TrimCells(row)
  {
    var once := TrimCells(row);
    var twice := TrimCells(once);
    assert twice.Keys == once.Keys;
    forall k | k in once ensures twice[k] == once[k] {
      var v := row[k];
      assert once[k] == Trim(v);
      TrimIdempotent(v);
    }
    SameRows(twice, once);
  }

  lemma SameRows(a: Row, b: Row)
    requires a.Keys == b.Keys
    requires forall k :: k in a ==> a[k] == b[k]
    ensures a == b
  {
  }

  /** The rows of two files read one after the other are trimmed file by file. */
  lemma ParseCsvAppend(a: seq<Row>, b: seq<Row>)
    ensures ParseCsv(a + b) == ParseCsv(a) + ParseCsv(b)
  {
  }

  /** A trimmed row comes from a row of the file. */
  lemma ParseCsvMember(rows: seq<Row>, row: Row)
    ensures row in ParseCsv(rows) <==> exists raw :: raw in rows && TrimCells(raw) == row
  {
    var r := ParseCsv(rows);
    if row in r {
      var i :| 0 <= i < |r| && r[i] == row;
      assert rows[i] in rows;
    }
    if exists raw :: raw in rows && TrimCells(raw) == row {
      var raw :| raw in rows && TrimCells(raw) == row;
      var i :| 0 <= i < |rows| && rows[i] == raw;
      assert r[i] == row;
    }
  }

  /** Trimming the rows a second time changes nothing. */
  lemma ParseCsvIdempotent(rows: seq<Row>)
    ensures ParseCsv(ParseCsv(rows)) == ParseCsv(rows)
  {
    forall i | 0 <= i < |rows| ensures TrimCells(TrimCells(rows[i])) == TrimCells(rows[i]) {
      TrimCellsIdempotent(rows[i]);
    }
  }

  /**
   * `normalizeNumber`: nothing for a missing or empty value, for blank
   * text, for the words `null` and `nan` in any case, and for text that
   * does not convert to a finite number; otherwise the number.
   */
  function NormalizeNumber(value: Option<string>): Option<real> {
    if value.None? || value.value == "" then None
    else
      var cleaned := Trim(value.value);
      if cleaned == "" || Lower(cleaned) == "null" || Lower(cleaned) == "nan" then None
      else ToNumber(cleaned)
  }

  /** The words `null` and `nan`, in any case, are not numbers. */
  lemma NullWordsAreNaN(v: string)
    requires Trim(v) != "" && (Lower(Trim(v)) == "null" || Lower(Trim(v)) == "nan")
    ensures ToNumber(Trim(v)) == None
  {
    var w := Trim(v);
    TrimIdempotent(v);
    assert LowerChar(w[0]) == Lower(w)[0] == 'n';
    NotUnsignedDecimal(w);
  }

  /**
   * `normalizeNumber` is `Number` on the trimmed text, except that blank
   * text gives nothing where `Number` gives 0: the tests for `null` and
   * `nan` only reject what `Number` rejects anyway.
   */
  lemma NormalizeNumberIsNumber(value: Option<string>)
    ensures NormalizeNumber(value) ==
              if value.None? || Trim(value.value) == "" then None else ToNumber(Trim(value.value))
  {
    if value.Some? {
      var cleaned := Trim(value.value);
      if value.value == "" {
        assert cleaned == "";
      } else if cleaned != "" && (Lower(cleaned) == "null" || Lower(cleaned) == "nan") {
        NullWordsAreNaN(value.value);
      }
    }
  }

  /** Blank text is no number, though `Number` reads it as 0. */
  lemma BlankIsNull(text: string)
    requires AllSpace(text)
    ensures NormalizeNumber(Some(text)) == None
    ensures ToNumber(text) == Some(0.0)
  {
    BlankIsZero(text);
    TrimPadded(text, "", "");
    assert text + "" + "" == text;
  }

  /** `COUNTRY_ALIASES.get(key)`: the abbreviations used in the master file
      and the names they stand for. */
  function CountryAlias(key: string): Option<string> {
    if key == "USA" then Some("United States")
    else if key == "CAN" then Some("Canada")
    else if key == "D.R." then Some("Dominican Republic")
    else if key == "P.R." then Some("Puerto Rico")
    else if key == "V.I." then Some("U.S. Virgin Islands")
    else None
  }

  /**
   * `normalizeCountryName`: nothing for missing, empty or blank text;
   * otherwise the alias of the trimmed text, else the alias of its
   * upper-cased form, else the trimmed text itself.
   */
  function NormalizeCountryName(value: Option<string>): Option<string> {
    if value.None? || value.value == "" then None
    else
      var trimmed := Trim(value.value);
      if trimmed == "" then None
      else if CountryAlias(trimmed).Some? then CountryAlias(trimmed)
      else if CountryAlias(Upper(trimmed)).Some? then CountryAlias(Upper(trimmed))
      else Some(trimmed)
  }

  lemma UpperOfCapitals(s: string)
    requires forall i :: 0 <= i < |s| ==> !('a' <= s[i] <= 'z')
    ensures Upper(s) == s
  {
  }

  /** The abbreviations are in capitals. */
  lemma AliasKeyShape(key: string)
    requires CountryAlias(key).Some?
    ensures Upper(key) == key
  {
    UpperOfCapitals(key);
  }

  lemma AliasKeyNonEmpty(key: string)
    requires CountryAlias(key).Some?
    ensures key != ""
  {
  }

  /** The names the abbreviations stand for are longer than any
      abbreviation and carry no surrounding white space. */
  lemma AliasNameShape(key: string)
    requires CountryAlias(key).Some?
    ensures |CountryAlias(key).value| > 4 && Trim(CountryAlias(key).value) == CountryAlias(key).value
  {
    TrimUnpadded(CountryAlias(key).value);
  }

  /** An alias is found whatever the case and padding of the text. */
  lemma AliasIgnoresCase(text: string)
    requires CountryAlias(Upper(Trim(text))).Some?
    ensures NormalizeCountryName(Some(text)) == CountryAlias(Upper(Trim(text)))
  {
    var trimmed := Trim(text);
    AliasKeyNonEmpty(Upper(trimmed));
    assert |Upper(trimmed)| == |trimmed|;
    if CountryAlias(trimmed).Some? {
      AliasOfTrimmed(text);
      AliasKeyShape(trimmed);
    } else {
      AliasOfUpper(text);
    }
  }

  /** Blank text is the only text without a country, and a normalised name
      is never blank. */
  lemma NormalizeCountryNameBlank(value: Option<string>)
    ensures NormalizeCountryName(value).None? <==> value.None? || Trim(value.value) == ""
    ensures NormalizeCountryName(value).Some? ==> Trim(NormalizeCountryName(value).value) != ""
  {
    if value.Some? {
      var text := value.value;
      var trimmed := Trim(text);
      if trimmed == "" {
        BlankHasNoCountry(text);
      } else if CountryAlias(trimmed).Some? {
        AliasOfTrimmed(text);
        AliasNameShape(trimmed);
      } else if CountryAlias(Upper(trimmed)).Some? {
        AliasOfUpper(text);
        AliasNameShape(Upper(trimmed));
      } else {
        NoAliasKeepsName(text);
        TrimIdempotent(text);
      }
    }
  }

  lemma BlankHasNoCountry(text: string)
    requires Trim(text) == ""
    ensures NormalizeCountryName(Some(text)).None?
  {
  }

  lemma AliasOfTrimmed(text: string)
    requires Trim(text) != "" && CountryAlias(Trim(text)).Some?
    ensures NormalizeCountryName(Some(text)) == CountryAlias(Trim(text))
  {
    assert text != "";
  }

  lemma AliasOfUpper(text: string)
    requires Trim(text) != "" && CountryAlias(Trim(text)).None? && CountryAlias(Upper(Trim(text))).Some?
    ensures NormalizeCountryName(Some(text)) == CountryAlias(Upper(Trim(text)))
  {
    assert text != "";
  }

  lemma NoAliasKeepsName(text: string)
    requires Trim(text) != ""
    requires CountryAlias(Trim(text)).None? && CountryAlias(Upper(Trim(text))).None?
    ensures NormalizeCountryName(Some(text)) == Some(Trim(text))
  {
    assert text != "";
  }

  /** Normalising a normalised name changes nothing. */
  lemma NormalizeCountryNameIdempotent(value: Option<string>)
    requires NormalizeCountryName(value).Some?
    ensures NormalizeCountryName(NormalizeCountryName(value)) == NormalizeCountryName(value)
  {
    var text := value.value;
    var trimmed := Trim(text);
    NormalizeCountryNameBlank(value);
    if CountryAlias(trimmed).Some? {
      AliasOfTrimmed(text);
      AliasNameShape(trimmed);
      NameIsFinal(CountryAlias(trimmed).value);
    } else if CountryAlias(Upper(trimmed)).Some? {
      AliasOfUpper(text);
      AliasNameShape(Upper(trimmed));
      NameIsFinal(CountryAlias(Upper(trimmed)).value);
    } else {
      NoAliasKeepsName(text);
      TrimIdempotent(text);
      NoAliasKeepsName(trimmed);
    }
  }

  /** A name longer than any abbreviation, without surrounding white space,
      normalises to itself. */
  lemma NameIsFinal(name: string)
    requires |name| > 4 && Trim(name) == name
    ensures NormalizeCountryName(Some(name)) == Some(name)
  {
    LongKeyHasNoAlias(name);
    LongKeyHasNoAlias(Upper(name));
    NoAliasKeepsName(name);
  }

  /** Every abbreviation is at most four characters long. */
  lemma LongKeyHasNoAlias(key: string)
    requires |key| > 4
    ensures CountryAlias(key).None?
  {
  }

  /** The spellings of the United States `isUnitedStates` accepts, once
      trimmed and upper-cased. */
  predicate UnitedStatesName(normalized: string) {
    normalized == "USA" || normalized == "UNITED STATES" || normalized == "U.S.A."
  }

  /** `isUnitedStates`: the trimmed, upper-cased text is `USA`,
      `UNITED STATES` or `U.S.A.`. */
  function IsUnitedStates(value: Option<string>): bool {
    if value.None? || value.value == "" then false
    else UnitedStatesName(Upper(Trim(value.value)))
  }

  /** The empty-text guard only rejects what the spelling test rejects. */
  lemma IsUnitedStatesOfText(text: string)
    ensures IsUnitedStates(Some(text)) == UnitedStatesName(Upper(Trim(text)))
  {
    if text == "" {
      assert |Upper(Trim(text))| == 0;
    }
  }

  /** The test ignores letter case. */
  lemma IsUnitedStatesIgnoresCase(a: string, b: string)
    requires Upper(a) == Upper(b)
    ensures IsUnitedStates(Some(a)) == IsUnitedStates(Some(b))
  {
    TrimCaseCommutes(a);
    TrimCaseCommutes(b);
    CaseFolding(Trim(a));
    CaseFolding(Trim(b));
    IsUnitedStatesOfText(a);
    IsUnitedStatesOfText(b);
  }

  /** The test ignores surrounding white space. */
  lemma IsUnitedStatesIgnoresPadding(w1: string, v: string, w2: string)
    requires AllSpace(w1) && AllSpace(w2)
    ensures IsUnitedStates(Some(w1 + v + w2)) == IsUnitedStates(Some(v))
  {
    TrimPadded(w1, v, w2);
    IsUnitedStatesOfText(w1 + v + w2);
    IsUnitedStatesOfText(v);
  }

  /** A country that normalises to the United States is recognised as the
      United States, so such a player never reaches the international list. */
  lemma UnitedStatesRecognised(value: Option<string>)
    requires NormalizeCountryName(value) == Some("United States")
    ensures IsUnitedStates(value)
  {
    var text := value.value;
    var trimmed := Trim(text);
    NormalizeCountryNameBlank(value);
    IsUnitedStatesOfText(text);
    if CountryAlias(trimmed).Some? {
      AliasOfTrimmed(text);
      UsaAlias(trimmed);
      UpperOfUsa(trimmed);
    } else if CountryAlias(Upper(trimmed)).Some? {
      AliasOfUpper(text);
      UsaAlias(Upper(trimmed));
    } else {
      NoAliasKeepsName(text);
      UpperOfUnitedStates(trimmed);
    }
  }

  /** Only `USA` stands for the United States. */
  lemma UsaAlias(key: string)
    requires CountryAlias(key) == Some("United States")
    ensures key == "USA"
  {
  }

  lemma UpperOfUsa(s: string)
    requires s == "USA"
    ensures Upper(s) == "USA"
  {
    UpperOfCapitals(s);
  }

  lemma UpperOfUnitedStates(s: string)
    requires s == "United States"
    ensures Upper(s) == "UNITED STATES"
  {
  }

  /**
   * `findState`: nothing for missing, empty or blank text; otherwise the
   * entry under the upper-cased text in the postal index, else the entry
   * under the lower-cased text in the name index.
   */
  function FindState(table: seq<StateMeta>, value: Option<string>): Option<StateMeta> {
    if value.None? || value.value == "" then None
    else
      var trimmed := Trim(value.value);
      if trimmed == "" then None
      else
        var statesByPostal := IndexBy(table, PostalKey);
        if Upper(trimmed) in statesByPostal then Some(statesByPostal[Upper(trimmed)])
        else
          var statesByName := IndexBy(table, NameKey);
          if Lower(trimmed) in statesByName then Some(statesByName[Lower(trimmed)]) else None
  }

  /** The build script resolves states exactly as the application does. */
  lemma FindStateIsFindStateMeta(table: seq<StateMeta>, value: Option<string>)
    ensures FindState(table, value) == FindStateMetaIn(table, value)
  {
    if value.Some? && value.value != "" && Trim(value.value) != "" {
      LookupUsesIndexes(table, Trim(value.value));
    }
  }
}
