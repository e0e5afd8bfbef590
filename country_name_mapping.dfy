/**
 * Mapping of a birth-country name to the name of its shape in the world map.
 * A few names are displayed under another name; a few territories have no
 * shape at all (they still count in the tables, but are not coloured).
 */
module CountryNameMapping {
  import opened Wrappers

  /** The override table: a display name, or `None` for "no map shape". */
  const COUNTRY_NAME_OVERRIDES: map<string, Option<string>> := map[
    "Czech Republic" := Some("Czechia"),
    "Dominican Republic" := Some("Dominican Rep."),
    "Viet Nam" := Some("Vietnam"),
    "Curacao" := None,
    "American Samoa" := None,
    "U.S. Virgin Islands" := None,
    "Guam" := None,
    "Aruba" := None,
    "Singapore" := None,
    "At Sea" := None
  ]

  /** `resolveCountryFeatureName(country)`: an exact, case-sensitive key test
      against the override table; names outside it are returned unchanged. */
  function ResolveCountryFeatureName(country: string): (r: Option<string>)
    ensures country !in COUNTRY_NAME_OVERRIDES ==> r == Some(country)
    ensures r.None? ==> country in COUNTRY_NAME_OVERRIDES
    ensures r.Some? && r.value != country ==> country in COUNTRY_NAME_OVERRIDES
  {
    if country in COUNTRY_NAME_OVERRIDES then COUNTRY_NAME_OVERRIDES[country] else Some(country)
  }

  /** Display overrides and territories without a shape, and the exact-key test. */
  lemma KnownNames()
    ensures ResolveCountryFeatureName("Czech Republic") == Some("Czechia")
    ensures ResolveCountryFeatureName("Dominican Republic") == Some("Dominican Rep.")
    ensures ResolveCountryFeatureName("Viet Nam") == Some("Vietnam")
    ensures ResolveCountryFeatureName("Curacao") == None
    ensures ResolveCountryFeatureName("Guam") == None
    ensures ResolveCountryFeatureName("Singapore") == None
    ensures ResolveCountryFeatureName("At Sea") == None
    ensures ResolveCountryFeatureName("czech republic") == Some("czech republic")
    ensures ResolveCountryFeatureName("Japan") == Some("Japan")
  {
  }

  /** Exactly the listed territories have no map shape. */
  lemma NoShapeExactly(country: string)
    ensures ResolveCountryFeatureName(country).None? <==>
              country in {"Curacao", "American Samoa", "U.S. Virgin Islands", "Guam", "Aruba", "Singapore", "At Sea"}
  {
  }

  /** A resolved name resolves to itself: no display name is itself overridden. */
  lemma ResolveIdempotent(country: string)
    ensures ResolveCountryFeatureName(country).Some? ==>
              ResolveCountryFeatureName(ResolveCountryFeatureName(country).value) == ResolveCountryFeatureName(country)
  {
    var r := ResolveCountryFeatureName(country);
    if r.Some? && country in COUNTRY_NAME_OVERRIDES {
      assert r.value in {"Czechia", "Dominican Rep.", "Vietnam"};
      assert r.value !in COUNTRY_NAME_OVERRIDES;
    }
  }
}
