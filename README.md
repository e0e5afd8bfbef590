# WAR by birthplace — a Dafny model of the data core

The application maps baseball players' career WAR (wins above replacement)
onto their birthplaces. There are two views:

- a domestic view over U.S. states, which can also rank states by WAR per
  million residents;
- an international view over countries.

This project models the data core behind both views:

- **State resolution.** Free text (a postal code or a state name, in any
  letter case, with surrounding white space) is resolved to an entry of the
  state reference table through the `byPostal` and `byName` indexes.
- **Country names.** Birth-country names are mapped to the map's feature
  names.
- **CSV parsing.** Player and population CSV rows are parsed into records,
  with validation counters: row count, accepted, rejected, and players
  whose state does not resolve.
- **Domestic aggregation.** Players are filtered by year range, WAR floor
  and decade, and grouped by state FIPS code. Each group gets a total, a
  count and a WAR-sorted player list. WAR per million residents uses the
  population from the year nearest the target year. States are ordered by
  total WAR.
- **International aggregation.** Players are grouped by birth country, with
  totals and averages rounded to thousandths. Countries are ordered by
  total WAR, then by name.
- **Decade lists and extents.** The decade lists, the birth-year extent and
  the WAR extent.
- **The data store behind the React context**, modelled as the class
  `DataContext.DataStore`. It holds the players, population rows,
  validation summary and filters. Its methods are:
  - the two text loaders, which merge the validation summary;
  - `clearStoredData`;
  - the effect that fits the year range to the loaded players;
  - `getAggregates`, with its per-million ranking;
  - the decade list.
- **The offline dataset build.** It covers:
  - trimming every CSV cell;
  - `normalizeNumber`, the country aliases, `isUnitedStates` and `findState`;
  - placing master-file rows in the domestic or the international player
    map (`loadMasterRecords`, imperative over the class
    `BuildMaster.PlayerMap`);
  - adding the batting and pitching WAR of each row to its player
    (`accumulateWar`);
  - the two final player lists;
  - the population dataset pipeline.
- **The entry point.** Normalising the base URL, and choosing between the
  domestic and the international view from the location's hash and path.

## How the model is built

Pure logic is written as functions with lemmas about them. Code that
mutates state is written as methods, each proved against a specification
function. This covers:
- the store;
- the player maps of the build;
- the `forEach` loops that fill a `Map`;
- the scan of `findClosestPopulation`.

JavaScript values are modelled as follows:
- **Numbers** are `real`. NaN, and the `null` the code uses for "no number",
  are `None`.
- **`Math.round`, `toFixed(3)` and `Math.floor(y / 10) * 10`** are written
  out in `JsNumber`.
- **`Array.prototype.sort`** is a stable sort. Each comparator is proved to
  be a strict order, so the lemmas give sortedness and permutation. For a
  comparator whose ties are transitive, `Sorting.SortByStable` proves that
  tied elements keep their input order.
- **A `Map`'s key order** is the order of first insertion (`Grouping`).

The state reference table is a parameter of every operation that resolves
states. `StateMetaTable.STATES` holds the fifty states and the District of
Columbia, and `StateMetaTable.FindStateMeta` resolves against it.

### Quirks of the code the model keeps

- **Missing states.** `parsePlayersCsv` (src/utils/dataTransforms.ts
  lines 70-82) counts a player row whose state does not resolve in
  `missingState` and still keeps the record. `RowParsing.ParsePlayersCsv`
  keeps it too. Only `filterPlayers` leaves such players out of the
  aggregates.
- **Empty cells.** An empty WAR or year cell is read through `Number`,
  which gives 0, so the row is accepted (`RowParsing.EmptyWarCellIsZero`).
- **Domestic rounding.** Only the international totals and averages are
  rounded to three decimals. The domestic `totalWar` is the unrounded sum
  (`StateAggregation.AggregateSummary`).
- **Resolvable states.** Every domestic record the build script writes has
  a state of the table (`BuildMaster.CollectedOrigins`). A record of
  `parsePlayersCsv` need not have one, for the reason given under missing
  states.

## Model

| member | source | states |
|---|---|---|
| StateMetaTable.IndexBy | src/data/stateMeta.ts:11-12 | every table entry is found under its key, and every value of the index is a table entry filed under its own key |
| StateMetaTable.IndexByLookup | src/data/stateMeta.ts:11-12 | under a key, the index holds the last table entry with that key (a later entry replaces an earlier one), and nothing when no entry has it |
| StateMetaTable.FindStateMetaIn | src/data/stateMeta.ts:14-27 | whatever is resolved is an entry of the table |
| StateMetaTable.FindStateMetaSpec | src/data/stateMeta.ts:14-27 | missing, empty or blank text resolves to nothing; a postal code matching in any letter case wins; otherwise an entry is found exactly when some full name matches in any letter case, and it is such an entry |
| StateMetaTable.LookupTrimmedSpec | src/data/stateMeta.ts:22-26 | on trimmed text, a postal match is preferred to a name match, and a name match is returned only when no postal code matches |
| StateMetaTable.LookupUsesIndexes | src/data/stateMeta.ts:22-26 | the lookup is the `byPostal` lookup under the upper-cased text, then the `byName` lookup under the lower-cased text |
| StateMetaTable.FindStateMetaTrims | src/data/stateMeta.ts:18-21 | resolution looks only at the trimmed text |
| StateMetaTable.FindStateMeta | src/data/stateMeta.ts:9-27 | resolution over the reference table `STATES` yields only entries of `STATES` |
| StateMetaTable.FindStateMetaIgnoresPadding | src/data/stateMeta.ts:18-21 | white space around the text never changes the result |
| StateMetaTable.SameKeysResolveSame | src/data/stateMeta.ts:18-26 | two texts whose trimmed upper- and lower-case forms agree resolve to the same entry |
| StateMetaTable.FindStateMetaIgnoresCase | src/data/stateMeta.ts:22-26 | upper- or lower-casing the text never changes the result |
| CountryNameMapping.ResolveCountryFeatureName | src/utils/countryNameMapping.ts:14-19 | a name that is not a key of the overrides comes back unchanged; only keys of the overrides resolve to null or to a different name |
| CountryNameMapping.KnownNames | src/utils/countryNameMapping.ts:1-19 | the three display renamings, territories without a shape resolving to null, and the exact, case-sensitive key test |
| CountryNameMapping.NoShapeExactly | src/utils/countryNameMapping.ts:1-19 | a name resolves to null exactly when it is one of the seven territories without a map shape |
| CountryNameMapping.ResolveIdempotent | src/utils/countryNameMapping.ts:1-19 | resolving a resolved name gives it back unchanged |
| Records.SummarizeValidation | src/utils/dataTransforms.ts:253-261 | the summary pairs the two given summaries, each unchanged |
| RowParsing.Field | src/utils/dataTransforms.ts:59-63 | `a ?? b ?? …` is absent exactly when no synonym column is present; otherwise it is the cell of the first present column, even when that cell is empty |
| RowParsing.ParsePlayerRow | src/utils/dataTransforms.ts:57-83 | a row is rejected exactly when its trimmed id is empty or its birth year or WAR is NaN; an accepted record carries the id, the trimmed name (the id when the name is blank), the numbers, the raw state, and the decade containing the birth year |
| RowParsing.RowsAccountedFor | src/utils/dataTransforms.ts:57-93 | every row is counted as accepted or as rejected, never both |
| RowParsing.AcceptedRowKept | src/utils/dataTransforms.ts:75-82 | the record of every accepted row is in the output |
| RowParsing.KeptFromRow | src/utils/dataTransforms.ts:75-82 | every output record comes from an accepted row |
| RowParsing.MissingStateAppend | src/utils/dataTransforms.ts:70-73 | one more record raises `missingState` by one exactly when its birth state does not resolve |
| RowParsing.ParsePlayersCsv | src/utils/dataTransforms.ts:51-94 | the data are the accepted rows' records in row order; the summary counts rows, accepted and rejected rows, and accepted records whose state does not resolve; rows = accepted + rejected and missing ≤ accepted |
| RowParsing.EmptyWarCellIsZero | src/utils/dataTransforms.ts:63-68 | a present but empty WAR cell reads as 0 and does not fall through to a later column, so the row is accepted |
| RowParsing.NaNYearRejected | src/utils/dataTransforms.ts:62-68 | a birth year of `NaN` rejects the row |
| RowParsing.ParsePopulationRow | src/utils/dataTransforms.ts:101-121 | a row is rejected exactly when its trimmed state is blank, its year or population is NaN, or its state does not resolve; an accepted record carries the resolved entry and that entry's postal code |
| RowParsing.PopulationBeforeIsStrictOrder | src/utils/dataTransforms.ts:124-129 | the comparator (state code, then year) is a strict order |
| RowParsing.PopulationOrder | src/utils/dataTransforms.ts:124-129 | a list sorted by the comparator is ordered by state code and, within a state, by year |
| RowParsing.ParsePopulationCsv | src/utils/dataTransforms.ts:96-136 | the data are the accepted records stably sorted by state code, then year, all canonical; the summary counts rows, accepted and rejected rows, with rows = accepted + rejected |
| RowParsing.SortedPopulations | src/utils/dataTransforms.ts:124-129 | sorting keeps every record canonical and orders them by state, then year |
| PopulationLookup.RecordsOf | src/utils/dataTransforms.ts:142-146 | a state's list holds exactly the records of that state |
| PopulationLookup.YearBeforeIsStrictOrder | src/utils/dataTransforms.ts:147 | the year comparator is a strict order |
| PopulationLookup.GroupRecord | src/utils/dataTransforms.ts:142-146 | appending a record to its state's list (opened when missing) keeps the lists equal to each state's records so far |
| PopulationLookup.BuildPopulationLookup | src/utils/dataTransforms.ts:140-149 | the lookup has a key for exactly the states present, each list a year-sorted permutation of that state's records |
| PopulationLookup.SortGroups | src/utils/dataTransforms.ts:147 | sorting the lists keeps the keys |
| PopulationLookup.SortedGroups | src/utils/dataTransforms.ts:140-149 | sorting the complete groups gives the lookup |
| PopulationLookup.PopulationLookupOfSorted | src/utils/dataTransforms.ts:140-149 | every list in the lookup is sorted by year and holds exactly its state's records |
| PopulationLookup.OtherStatesIrrelevant | src/utils/dataTransforms.ts:142-146 | records of other states, before or after, never change a state's list |
| PopulationLookup.ClosestIndex | src/utils/dataTransforms.ts:156-164 | the scan settles on a record at the least distance from the target year, and on the earliest such record |
| PopulationLookup.FindClosestPopulation | src/utils/dataTransforms.ts:151-166 | null exactly when the state has no records; otherwise the population of a record whose year is nearest the target year |
| StateAggregation.FilterPlayers | src/utils/dataTransforms.ts:168-181 | every kept player is inside the year range, at or above the WAR floor, in the selected decade and born in a known state |
| StateAggregation.FilterPlayersMember | src/utils/dataTransforms.ts:168-181 | a player is kept exactly when it is an input player that passes all four tests |
| StateAggregation.FilterPlayersAppend | src/utils/dataTransforms.ts:168-181 | filtering keeps the players' relative order |
| StateAggregation.LeagueIgnored | src/utils/dataTransforms.ts:168-181 | the league setting never changes the result |
| StateAggregation.RaiseMinWar | src/utils/dataTransforms.ts:173-175 | raising the WAR floor only removes players: it is a second filtering of the filtered list |
| StateAggregation.TargetYear | src/utils/dataTransforms.ts:200-201 | the target year is the requested decade plus 5, else the whole year nearest the midpoint of the year range, a half rounded up |
| StateAggregation.GroupOf | src/utils/dataTransforms.ts:203-221 | a state's group holds only players whose birth state resolves to that FIPS code |
| StateAggregation.FipsOrder | src/utils/dataTransforms.ts:203-221 | the `Map`'s key order lists each FIPS code once |
| StateAggregation.WarPerMillion | src/utils/dataTransforms.ts:226-230 | a rate exists exactly when the population is known and positive, and then rate × population = total × 1 000 000 |
| StateAggregation.GroupSkip | src/utils/dataTransforms.ts:205-209 | a player whose state does not resolve leaves the aggregates as they were |
| StateAggregation.GroupOpen | src/utils/dataTransforms.ts:210-220 | a state's first player opens its aggregate with that player and appends its key to the key order |
| StateAggregation.GroupAdd | src/utils/dataTransforms.ts:210-220 | a further player of a state adds its WAR, one to the count, and itself to the list |
| StateAggregation.GroupByState | src/utils/dataTransforms.ts:203-221 | after the loop there is exactly one aggregate per state present, holding that state's players in input order with their WAR sum and count, and the keys are in order of first appearance |
| StateAggregation.FinishAggregate | src/utils/dataTransforms.ts:224-230 | an aggregate's players are sorted by WAR, and its rate comes from the population nearest the target year |
| StateAggregation.FinishAggregates | src/utils/dataTransforms.ts:223-231 | the second pass finishes every aggregate, in key order |
| StateAggregation.AggregatesOfPasses | src/utils/dataTransforms.ts:189-233 | the result is the finished aggregates in key order, sorted by total WAR |
| StateAggregation.AggregateByState | src/utils/dataTransforms.ts:183-234 | the method computes the aggregation described by the lemmas below |
| StateAggregation.WarDescendingIsStrictOrder | src/utils/dataTransforms.ts:224 | the player comparator (higher WAR first) is a strict order |
| StateAggregation.TotalDescendingIsStrictOrder | src/utils/dataTransforms.ts:233 | the aggregate comparator (higher total first) is a strict order |
| StateAggregation.AggregateOrigin | src/utils/dataTransforms.ts:203-231 | every aggregate in the result is the finished aggregate of a state that has filtered players |
| StateAggregation.AggregateSummary | src/utils/dataTransforms.ts:203-231 | an aggregate's players are a permutation of its state's filtered players, sorted by WAR with the highest first; its count is their number; its total is their unrounded WAR sum; its rate uses the nearest population |
| StateAggregation.AggregatePlayers | src/utils/dataTransforms.ts:189-221 | every player in an aggregate is an input player born in that state that passes the filters, with the requested decade taking the place of the selected one |
| StateAggregation.AggregateForEveryState | src/utils/dataTransforms.ts:203-221 | a state has an aggregate exactly when some filtered player was born there |
| StateAggregation.OneAggregatePerState | src/utils/dataTransforms.ts:203-233 | no state has two aggregates |
| StateAggregation.AggregatesByTotal | src/utils/dataTransforms.ts:233 | aggregates are ordered by total WAR, highest first |
| StateAggregation.CountsAddUp | src/utils/dataTransforms.ts:203-233 | the player counts add up to the number of filtered players |
| PlayerRanges.ListDecades | src/utils/dataTransforms.ts:247-251 | the result holds each birth decade present exactly once, in strictly ascending order |
| PlayerRanges.PlayerYearExtent | src/utils/dataTransforms.ts:236-245 | null without players; otherwise, when not null, the least and the greatest birth year, both of them attained and both non-zero |
| PlayerRanges.ZeroYearHidesExtent | src/utils/dataTransforms.ts:241-243 | for non-empty input the extent is null exactly when a bound is 0: some player was born in year 0 and no birth year lies on the other side of 0 |
| Ranges.SortedDistinct | src/utils/dataTransforms.ts:248-250 | `Array.from(new Set(…)).sort((a, b) => a - b)` gives each value exactly once, in strictly ascending order |
| Ranges.AscendingUnique | src/utils/dataTransforms.ts:248-250 | only one list is strictly ascending with exactly those values, so the decade list is determined by the decades present |
| InternationalData.ListInternationalDecades | src/utils/internationalData.ts:22-26 | the result holds each birth decade present exactly once, in strictly ascending order |
| InternationalData.FindWarExtent | src/utils/internationalData.ts:28-34 | `[0, 0]` without players; otherwise the least and the greatest career WAR, both attained |
| InternationalData.SurvivorsMember | src/utils/internationalData.ts:40-51 | a player survives exactly when its WAR reaches the minimum (0 when none is given) and, when a decade is given, it was born in that decade |
| InternationalData.CountryPlayers | src/utils/internationalData.ts:53-59 | a country's list holds only players born in that country |
| InternationalData.CountryOrder | src/utils/internationalData.ts:53-59 | the key order lists each country once, and every listed country has players |
| InternationalData.GroupByCountry | src/utils/internationalData.ts:53-59 | after the loop the map holds one list per country present, with that country's players in input order, and the keys are in order of first appearance |
| InternationalData.WarDescendingIsStrictOrder | src/utils/internationalData.ts:63 | the player comparator (higher WAR first) is a strict order |
| InternationalData.CountryBeforeIsStrictOrder | src/utils/internationalData.ts:74-79 | the country comparator (higher total, then name) is a strict order |
| InternationalData.CountryAggregateSummary | src/utils/internationalData.ts:62-73 | an entry's players are a WAR-sorted permutation of the list; the count is its length; the total is its WAR sum rounded to thousandths (within 0.0005 of the sum); the average is the unrounded sum over the count, rounded |
| InternationalData.AggregateByCountry | src/utils/internationalData.ts:36-80 | the method computes the aggregation described by the lemmas below |
| InternationalData.CountryOrigin | src/utils/internationalData.ts:53-73 | every aggregate is the entry of a country with surviving players |
| InternationalData.CountrySummary | src/utils/internationalData.ts:53-73 | each aggregate summarises exactly its country's surviving players: they are permuted and sorted by WAR, counted, and their total and average are rounded |
| InternationalData.CountryPlayersSurvive | src/utils/internationalData.ts:43-59 | every player in an aggregate is an input player born in that country that passes the filter |
| InternationalData.AggregateForEveryCountry | src/utils/internationalData.ts:43-61 | a country has an aggregate exactly when some player born there passes the filter |
| InternationalData.OneAggregatePerCountry | src/utils/internationalData.ts:53-61 | no country has two aggregates |
| InternationalData.AggregatesInOrder | src/utils/internationalData.ts:74-79 | aggregates are in strictly descending order of rounded total, with equal totals in ascending order of country name |
| InternationalData.CountryCountsAddUp | src/utils/internationalData.ts:53-73 | the player counts add up to the number of surviving players |
| DataContext.WithPlayers | src/context/DataContext.tsx:98-100 | the players' summary is replaced; the populations' summary is kept, or is all zeros when there was none |
| DataContext.WithPopulations | src/context/DataContext.tsx:110-112 | the populations' summary is replaced; the players' summary is kept, or is all zeros when there was none |
| DataContext.DataStore.constructor | src/context/DataContext.tsx:54-71 | no players, populations or summary, and the default filters (1850 to the current year, no WAR floor, every decade, every league) |
| DataContext.DataStore.LoadPlayersText | src/context/DataContext.tsx:94-104 | the players become the parsed records; their summary is merged into the validation; populations and filters are unchanged |
| DataContext.DataStore.LoadPopulationsText | src/context/DataContext.tsx:106-116 | the population rows become the parsed, sorted records; their summary is merged into the validation; players and filters are unchanged |
| DataContext.DataStore.ClearStoredData | src/context/DataContext.tsx:197-204 | players, populations and summary are cleared, and the filters are reset to the defaults |
| DataContext.DataStore.SyncYearBounds | src/context/DataContext.tsx:206-214 | without players the year range returns to its defaults; otherwise it spans exactly the players' birth years (both bounds attained); the other filters and all data are unchanged |
| DataContext.DataStore.GetAggregates | src/context/DataContext.tsx:177-193 | nothing without players; otherwise the state aggregation, or for the per-million metric only the aggregates with a rate, ranked by rate |
| DataContext.DataStore.Decades | src/context/DataContext.tsx:195 | each birth decade of the loaded players exactly once, in ascending order |
| DataContext.PerMillionDescendingIsStrictOrder | src/context/DataContext.tsx:188 | the rate comparator is a strict order |
| DataContext.PerMillionRanking | src/context/DataContext.tsx:185-189 | the per-million ranking holds exactly the aggregates that have a rate, one per state, highest rate first |
| DataContext.TotalWarRanking | src/context/DataContext.tsx:177-193 | nothing is shown before players are loaded; the total-WAR metric (or none) returns the state aggregation itself |
| Routing.NormalizeBase | src/main.tsx:10 | the base always ends in `/`: one slash is appended to a base (default `/`) unless it already ends in one |
| Routing.NormalizeBaseIdempotent | src/main.tsx:10 | normalising a normalised base changes nothing |
| Routing.StripHash | src/main.tsx:14 | exactly one leading `#` is removed, and only when present |
| Routing.RelativePath | src/main.tsx:18 | the path below the base when the path starts with the base, else the path without its first character |
| Routing.ResolveRouteSpec | src/main.tsx:12-23 | the international view is chosen exactly when the hash or else the path below the base selects it, and a selecting hash wins whatever the path |
| Routing.HashIgnoresCase | src/main.tsx:14-15 | the hash is read without regard to letter case |
| Routing.PathBelowBase | src/main.tsx:18-20 | a path below the base that starts with `international` in any letter case selects the international view |
| Routing.HashRoute | src/main.tsx:14-16 | a hash `#/international…` in any letter case selects the international view, whatever the path |
| Routing.RootIsDomestic | src/main.tsx:12-23 | the application's root with no hash is the domestic view |
| JsNumber.JsRound | scripts/build-datasets.mjs:225 | `Math.round` gives the integer in (x − ½, x + ½], halves rounded up |
| JsNumber.Round3 | scripts/build-datasets.mjs:185 | `Number(x.toFixed(3))` is a whole number of thousandths within 0.0005 of x, a tie going away from zero; these fix it uniquely |
| JsNumber.Round3Idempotent | src/utils/internationalData.ts:68-70 | rounding a rounded value to thousandths again changes nothing |
| JsNumber.Decade | src/utils/dataTransforms.ts:81 | the decade is a multiple of 10 and contains the year |
| JsNumber.BlankIsZero | src/utils/dataTransforms.ts:62-63 | `Number` reads empty or blank text as 0, not NaN |
| JsNumber.PaddingIgnored | src/utils/dataTransforms.ts:62-63 | white space around the text never changes what `Number` reads |
| JsNumber.DigitsConvert | src/utils/dataTransforms.ts:62-63 | a run of decimal digits reads as its value |
| JsNumber.WordsAreNaN | src/utils/dataTransforms.ts:62-65 | the words `NaN` and `null` read as NaN |
| BuildNormalize.ParseCsv | scripts/build-datasets.mjs:18-30 | one output row per input row, each with every cell trimmed |
| BuildNormalize.TrimCellsIdempotent | scripts/build-datasets.mjs:20-28 | trimming the cells of a trimmed row changes nothing |
| BuildNormalize.ParseCsvIdempotent | scripts/build-datasets.mjs:18-30 | applying the cell trimming twice gives the same rows as once |
| BuildNormalize.ParseCsvMember | scripts/build-datasets.mjs:18-30 | a row comes out of the reader exactly when it is some input row with every cell trimmed |
| BuildNormalize.ParseCsvAppend | scripts/build-datasets.mjs:172-178 | trimming the batting rows and the pitching rows one file at a time gives the trimmed rows of both files in order |
| BuildNormalize.NullWordsAreNaN | scripts/build-datasets.mjs:37-41 | the words `null` and `nan` in any case are rejected by `Number` anyway |
| BuildNormalize.NormalizeNumberIsNumber | scripts/build-datasets.mjs:32-42 | `normalizeNumber` is `Number` on the trimmed text, except that missing or blank text is null |
| BuildNormalize.BlankIsNull | scripts/build-datasets.mjs:33-39 | blank text is null although `Number` reads it as 0 |
| BuildNormalize.AliasKeyShape | scripts/build-datasets.mjs:48-54 | every alias key is in capitals |
| BuildNormalize.AliasNameShape | scripts/build-datasets.mjs:48-54 | every aliased name is longer than four characters and has no surrounding white space |
| BuildNormalize.LongKeyHasNoAlias | scripts/build-datasets.mjs:48-54 | no key longer than four characters has an alias |
| BuildNormalize.UsaAlias | scripts/build-datasets.mjs:48-54 | only `USA` stands for the United States |
| BuildNormalize.AliasIgnoresCase | scripts/build-datasets.mjs:56-66 | an abbreviation is recognised whatever its case and padding |
| BuildNormalize.NormalizeCountryNameBlank | scripts/build-datasets.mjs:56-66 | only missing or blank text has no country, and a normalised name is never blank |
| BuildNormalize.NormalizeCountryNameIdempotent | scripts/build-datasets.mjs:56-66 | normalising a normalised name changes nothing |
| BuildNormalize.NameIsFinal | scripts/build-datasets.mjs:56-66 | a name longer than any abbreviation, without padding, normalises to itself |
| BuildNormalize.IsUnitedStatesOfText | scripts/build-datasets.mjs:68-74 | the empty-text guard rejects only what the spelling test rejects |
| BuildNormalize.IsUnitedStatesIgnoresCase | scripts/build-datasets.mjs:68-74 | the United States test ignores letter case |
| BuildNormalize.IsUnitedStatesIgnoresPadding | scripts/build-datasets.mjs:68-74 | the United States test ignores surrounding white space |
| BuildNormalize.UnitedStatesRecognised | scripts/build-datasets.mjs:48-74 | a country that normalises to `United States` passes the United States test, so it never goes abroad |
| BuildNormalize.FindStateIsFindStateMeta | scripts/build-datasets.mjs:76-89 | the build script resolves states exactly as `findStateMeta` does |
| BuildMaster.TrimmedOrNull | scripts/build-datasets.mjs:141-142 | a present cell gives its trimmed text unless that is empty; absent or blank gives null |
| BuildMaster.FullName | scripts/build-datasets.mjs:114-116 | the trimmed "first last" join when it is not empty, else a non-empty `nameGiven`, else the id; so a player with an id always has a non-empty full name |
| BuildMaster.PlaceBorn | scripts/build-datasets.mjs:119-144 | a resolved state places the player at home under its postal code; otherwise the player goes abroad exactly when the country allows; a placed player has the row's id, full name, year and decade, and no WAR; a player abroad keeps the trimmed raw country and city, or null when blank |
| BuildMaster.AbroadCountry | scripts/build-datasets.mjs:117-140 | a player placed abroad has the normalised, non-blank country name, which is not a spelling of the United States, with the trimmed raw country and city, or null when blank |
| BuildMaster.PlacedPlayer | scripts/build-datasets.mjs:105-127 | a placed player carries the row's non-empty id, the row's full name and its birth year, the decade containing that year, and no WAR |
| BuildMaster.SkippedRows | scripts/build-datasets.mjs:105-112 | rows without an id or a numeric birth year are skipped |
| BuildMaster.ResolvedRowsAreDomestic | scripts/build-datasets.mjs:113-128 | a row whose state resolves is domestic, under that state's postal code |
| BuildMaster.UnresolvedRows | scripts/build-datasets.mjs:119-133 | a row whose state does not resolve is never domestic, and is international exactly when its country allows |
| BuildMaster.InternationalRows | scripts/build-datasets.mjs:113-144 | an international row has no resolvable state and a non-blank country other than the United States |
| BuildMaster.PlayerTable.Set | scripts/build-datasets.mjs:120-127 | `map.set` stores the player under the id and leaves the other entries unchanged; a new id goes last and an existing id keeps its place |
| BuildMaster.PlayerTable.Values | scripts/build-datasets.mjs:181 | `Array.from(map.values())` lists every stored player, one per id, in the order the ids were first set |
| BuildMaster.PlayerMap.constructor | scripts/build-datasets.mjs:102-103 | a new map is empty |
| BuildMaster.PlayerMap.Set | scripts/build-datasets.mjs:120-127 | the map's contents after `set` |
| BuildMaster.PlayerMap.Get | scripts/build-datasets.mjs:159-162 | `get` finds a player exactly when the id is present, and returns the stored player |
| BuildMaster.Collected | scripts/build-datasets.mjs:102-145 | the map built from the rows is well formed: its ids are its keys, each listed once |
| BuildMaster.CollectedSnoc | scripts/build-datasets.mjs:104-145 | one more row sets its player in its map, if it has one, and otherwise changes nothing |
| BuildMaster.LastPlaced | scripts/build-datasets.mjs:104-145 | the player of the last row placing an id in a map, or none when no row does |
| BuildMaster.CollectedLast | scripts/build-datasets.mjs:104-145 | a map holds an id exactly when some row placed it there, and holds the last such row's player |
| BuildMaster.DomesticRowState | scripts/build-datasets.mjs:118-129 | a row placed at home is filed under the postal code of a state of the table |
| BuildMaster.CollectedOrigins | scripts/build-datasets.mjs:119-144 | every domestic player has the postal code of a state of the table; every international one has a non-blank country other than the United States; none has WAR yet |
| BuildMaster.LoadMasterRecords | scripts/build-datasets.mjs:98-147 | two fresh, distinct maps holding the domestic and the international players placed from the rows once every cell has been trimmed |
| BuildMaster.PlaceRows | scripts/build-datasets.mjs:102-146 | the loop fills the two maps with what the rows place in them |
| BuildMaster.PlaceNext | scripts/build-datasets.mjs:104-145 | one row updates its own map only |
| BuildWar.WarRowId | scripts/build-datasets.mjs:151-154 | the id is `player_ID`, else `playerID`, an empty cell counting as none; no id means neither is present and non-empty |
| BuildWar.WarRow | scripts/build-datasets.mjs:151-158 | a row counts exactly when it has an id and a numeric WAR (`WAR`, else `war`) |
| BuildWar.WithWarKeeps | scripts/build-datasets.mjs:149-165 | adding WAR changes no id, no order and nothing of a player but its WAR |
| BuildWar.Credited | scripts/build-datasets.mjs:159-163 | one row adds WAR to at most one existing player and never adds or moves an id |
| BuildWar.WithWarSnoc | scripts/build-datasets.mjs:150-164 | one more row is one more step of crediting its WAR |
| BuildWar.WithWarAppend | scripts/build-datasets.mjs:173-179 | adding the batting WAR and then the pitching WAR is adding the WAR of both files at once |
| BuildWar.AccumulateWar | scripts/build-datasets.mjs:149-165 | each player's WAR grows by the total the rows credit to its id; nothing else changes |
| BuildWar.CreditRows | scripts/build-datasets.mjs:150-164 | the loop credits every row in turn |
| BuildWar.CreditRow | scripts/build-datasets.mjs:151-163 | one row adds its WAR to the player it names, if that player is in the map |
| BuildLists.RecordWarDescendingIsStrictOrder | scripts/build-datasets.mjs:187 | the list comparator (higher WAR first) is a strict order |
| Sorting.SortByStable | scripts/build-datasets.mjs:187 | `sort` is stable: for a comparator whose ties are transitive, the elements tied with any given one come out in their input order |
| BuildLists.Round3KeepsSignificance | scripts/build-datasets.mjs:182-186 | a WAR of at least 0.01 either way is still at least 0.01 either way after rounding to thousandths |
| BuildLists.DomesticListSpec | scripts/build-datasets.mjs:181-187 | the domestic list holds the record of every player with at least 0.01 WAR either way, and nothing else, once each, highest WAR first, every written WAR still at least 0.01 either way |
| BuildLists.InternationalListSpec | scripts/build-datasets.mjs:189-197 | the same for the international list, every record having a birth country |
| BuildLists.DomesticListStable | scripts/build-datasets.mjs:181-187 | records with the same written WAR stay in the order of the player map |
| BuildLists.InternationalListStable | scripts/build-datasets.mjs:189-197 | records with the same written WAR stay in the order of the player map |
| BuildLists.Careers | scripts/build-datasets.mjs:167-179 | each map after the trimmed master rows and the trimmed WAR rows is well formed |
| BuildLists.CareerOf | scripts/build-datasets.mjs:167-179 | a player's career WAR is all the WAR the trimmed WAR rows credit to its id; domestic players have the postal code of a state of the table, international ones a country other than the United States |
| BuildLists.BuildPlayerDatasets | scripts/build-datasets.mjs:167-200 | the two lists are those of the players' careers over the trimmed master rows and the trimmed batting and then pitching rows |
| BuildPopulations.Resolve | scripts/build-datasets.mjs:217-227 | a draft with numbers whose state resolves gives an entry under the state's postal code, its year, and its population rounded to the nearest integer; any other draft gives nothing |
| BuildPopulations.EntryBeforeIsStrictOrder | scripts/build-datasets.mjs:229-234 | the comparator (postal code, then year) is a strict order |
| BuildPopulations.PipelineMember | scripts/build-datasets.mjs:206-228 | the `filter`/`map`/`filter`/`map`/`filter(Boolean)` chain keeps exactly the results of the rows that pass every stage |
| BuildPopulations.PipelineOutcomes | scripts/build-datasets.mjs:206-228 | the `filter`/`map`/`filter`/`map`/`filter(Boolean)` chain yields, in row order, one result per row that passes every stage, the same as mapping each row to its outcome and dropping the nulls |
| BuildPopulations.ResolvedOutcomes | scripts/build-datasets.mjs:205-228 | before sorting, the pipeline yields each trimmed row's entry, in row order, one per row that has one |
| BuildPopulations.ResolvedMember | scripts/build-datasets.mjs:205-228 | before sorting, the pipeline yields exactly the entries resolved from rows that, with every cell trimmed, are `total` rows with a numeric year and population |
| BuildPopulations.PopulationDatasetSpec | scripts/build-datasets.mjs:205-234 | the dataset holds exactly the entries resolved from rows that, with every cell trimmed, are `total` rows with a numeric year and population, one entry per such row (the same multiset), ordered by postal code and, within a state, by year |

## Left out

- `stateMetaData.json` is not part of this model. `StateMetaTable.STATES`
  is the conventional table of the fifty states and the District of
  Columbia with their FIPS codes. The operations that resolve states take
  the table as a parameter rather than always using `STATES`.
- Numbers are exact reals, not IEEE doubles. Floating-point rounding in
  sums, divisions and `toFixed` is not modelled, and neither are overflow
  to Infinity or negative zero.
- JsNumber.ToNumber: reads only blank text and signed decimals with an
  optional point. Exponents, hexadecimal, `Infinity` and other forms `Number`
  accepts read as NaN, which is weaker than `Number`.
- Letter case is changed only for the ASCII letters. `trim` removes ASCII
  white space plus NBSP, the line and paragraph separators and the BOM.
  Other Unicode spaces are not removed.
- `localeCompare` is replaced by plain code-unit order (`Text.LexLess`).
- Sorting and the in-place updates of `aggregate.players`,
  `aggregate.warPerMillion` and the lookup's lists are modelled on values.
  The sort is stable, as the language guarantees.
- `accumulateWar` mutates player objects that are shared with the map. The
  model replaces the map's entry instead. Aliasing is not captured, which
  is harmless here because each master row creates its own object.
- The CSV reader (`csvParse`) is left out. Rows arrive already split into
  column maps. The build script's pipelines then trim every cell
  themselves (`BuildNormalize.ParseCsv`). The whole-text `trim` before
  parsing is not modelled.
- `d3.extent` is the least and greatest value of a non-empty list. Its
  skipping of NaN and undefined values is not modelled.
- The following I/O is left out:
  - reading files and zip entries (`readFile`, `unzip`);
  - writing the JSON datasets and `main` in the build script;
  - `fetch` of the sample data, `FileReader`, and the local-storage writes
    and reads (`initializeFromStorage`);
  - `loading` and `error` state, `loadSampleData`, `loadPlayersFile`,
    `loadPopulationFile`, `setFilters` and `useDataContext`.
- `new Date().getFullYear()` is the store's `currentYear` parameter.
- React rendering, `useMemo` caching and the route listeners of `Root` are
  left out. `window.location.hash` and `pathname`, and `BASE_URL`, are
  parameters.
- `getAggregates`' `options.decade` and `aggregateByState`'s
  `options.targetDecade` are `Option<int>`, with `None` standing for a
  missing or null option.
- The optional `meta` field of a population record is always present in
  the model, as `parsePopulationCsv` always sets it.
- `COUNTRY_ALIASES` is a function over the five abbreviations rather than
  a `Map` object.
