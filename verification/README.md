# War-Predector risk engine, in Dafny

This project models the computational core of War-Predector, a conflict-risk dashboard. The model covers:

- **The rule-based risk engine.** It takes six component scores and computes:
  - a weighted composite, clamped to [0, 100] and rounded to two places;
  - a tier: Low, Moderate, High or Critical;
  - a percentage attribution ("shapValues");
  - a templated explanation.

  Scenario simulation perturbs up to four components and rescores.
- **The server routes that aggregate stored risk records:**
  - the alert feed: the latest record per country, at or above a threshold, highest first;
  - per-tier statistics;
  - the heatmap;
  - the high-alert list, de-duplicated per country;
  - the what-if simulation;
  - the comparison endpoint's code-list parser.
- **The client helpers:** tier colours, flag emoji, badge classes and bar width.
- **The comparison page's selection list.**
- **The insights page:** how it reads a simulation delta and splits the alert feed.

## Modules

- `Wrappers`: `Option` and `Result`.
- `Seqs`: `filter` and a stable descending sort (an insertion sort, as the ES2019 `sort` is stable). It also defines subsequences.
- `JsText`: `trim`, `toUpperCase`, `toLowerCase`, `split` and `join`.
- `RiskEngine`: `computeRisk`, `generateExplanation` and `simulateScenario`.
  - Numbers are `real`s, and `toFixed(2)` rounding is written out as `Round2`.
  - A component is `Undefined`, `NaN` or a number, because only `undefined` takes the default 50 and every falsy value counts as 0.
- `RiskRecords`: the stored record and the country document. It also defines "the most recent record of a country" under the two sort keys the routes use: (year, month) and year alone.
- `AlertRoutes`: the alert and statistics pipelines, as functions over a snapshot of the records.
- `RiskRoutes`: the heatmap, high-alert and simulate handlers.
  - The heatmap sorts an array in place.
  - The high-alert handler de-duplicates with a `seen` set in a loop.
  - The simulate handler is a method that takes both random draws as parameters.
- `CompareRoutes`: the `countries` parser, the two-code minimum and the lookups.
- `ClientUtils`: `getRiskColor`, `getFlagEmoji`, `badgeClass` and the `riskBarStyle` width.
- `ComparePage`: a `Selection` class with a `selected` field, and `AddCountry` / `RemoveCountry` methods.
- `InsightsPage`: the delta message, colour and early-warning banner, and the Critical/High split.

Database reads become parameters: a sequence of country documents and a sequence of risk records. `Math.random()` becomes a `real` parameter.

## Model

| member | source | states |
|---|---|---|
| RiskEngine.FactorsAreTheKeys | server/utils/riskEngine.js:7-14 | The six factors are exactly the weight table's keys, each at its declaration position. |
| RiskEngine.WeightsSumToOne | server/utils/riskEngine.js:7-14 | The six weights add up to 1. |
| RiskEngine.WithDefault | server/utils/riskEngine.js:29-36 | An absent component becomes exactly 50. Any other value, including NaN or an out-of-range number, is kept as it is. The result is never absent. |
| RiskEngine.Inputs | server/utils/riskEngine.js:37-44 | There are six entries, one per factor in key order, and none is undefined. Each entry holds its field's value after the default: militaryRisk for militaryEscalation, economicRisk for economicStress, politicalRisk for politicalInstability, allianceRisk for borderTension, cyberRisk for cyberVulnerability and socialRisk for allianceIsolation. |
| RiskEngine.InputsHaveDistinctFactors | server/utils/riskEngine.js:37-44 | The input entries are strictly ordered by key position. |
| RiskEngine.RawTotalIsWeightedSum | server/utils/riskEngine.js:46 | The raw total is 0.25·m + 0.20·e + 0.20·p + 0.15·a + 0.10·c + 0.10·s over the defaulted components, with NaN counting as 0. |
| RiskEngine.Clamp | server/utils/riskEngine.js:47 | The composite lies in [0, 100]. It equals the raw total inside that range, 0 below it and 100 above it. |
| RiskEngine.Round2Error | server/utils/riskEngine.js:64 | Rounding to two places moves a value by at most 0.005. |
| RiskEngine.Round2KeepsRange | server/utils/riskEngine.js:64 | Rounding keeps a value inside any range with integer ends. |
| RiskEngine.Round2IsOdd | server/utils/riskEngine.js:64 | Rounding is symmetric about 0 (halves go away from zero). |
| RiskEngine.RiskScore | server/utils/riskEngine.js:64 | The reported score, the rounded composite, lies in [0, 100]. |
| RiskEngine.TierOfMatchesBands | server/utils/riskEngine.js:49-52 | The tier is t exactly when the score lies in t's band: [0,30) Low, [30,60) Moderate, [60,80) High, ≥80 Critical. |
| RiskEngine.TierOfIsMonotone | server/utils/riskEngine.js:49-52 | A higher score never gets a lower tier. |
| RiskEngine.ShareTotalScales | server/utils/riskEngine.js:55-59 | The unrounded shares of any entries add up to their raw total over the divisor, times 100. |
| RiskEngine.DivisorNonZero | server/utils/riskEngine.js:55 | The divisor is never 0. It is the raw total whenever that is not 0. |
| RiskEngine.SharesSumToHundred | server/utils/riskEngine.js:55-59 | With a non-zero raw total, the unrounded shares of the six inputs add up to exactly 100. |
| RiskEngine.ZeroTotalShares | server/utils/riskEngine.js:55-59 | With a raw total of 0 the divisor is 1. If no component is negative, every share is then 0. |
| RiskEngine.ShareBounds | server/utils/riskEngine.js:55-59 | With non-negative components and a positive total, every share lies in [0, 100]. |
| RiskEngine.Labels | server/utils/riskEngine.js:16-23 | The label list maps each picked entry to its factor label, one to one, in order. Entries with different factors get labels that still differ after lower-casing, so the joined sentence names each factor distinctly. |
| RiskEngine.TopFactorsAnyOrder | server/utils/riskEngine.js:74-75 | Whatever order the sort leaves the entries in, the pick has at most three entries, each an input entry above 55. When at most three components exceed 55, the pick holds exactly those. |
| RiskEngine.LowerLabelsDiffer | server/utils/riskEngine.js:16-23 | Two different factors have labels that differ after lower-casing. |
| RiskEngine.TopFactorsSelection | server/utils/riskEngine.js:74-75 | The explanation picks at most three entries, each above 55, ranked by value with ties in key order. Every component above 55 that is left out is outranked by all three picked entries. The pick is empty exactly when no component exceeds 55. |
| RiskEngine.ExplanationStableIff | server/utils/riskEngine.js:76-77 | The explanation is the "generally stable indicators" sentence exactly when no component exceeds 55. |
| RiskEngine.DrivenSentenceIsNotStable | server/utils/riskEngine.js:76-77 | For every tier name and every factor list, the "driven primarily by" sentence never equals the stable sentence. |
| RiskEngine.ConfidenceInterval | server/utils/riskEngine.js:68 | A draw in [0, 1) gives a confidence interval in [3, 8]. |
| RiskEngine.AssessmentBounds | server/utils/riskEngine.js:63-70 | Every assessment scores within [0, 100]. A draw in [0, 1) gives an interval within [3, 8]. |
| RiskEngine.Attribution | server/utils/riskEngine.js:56-59 | The loop gives one entry per input key, equal to the rounded share of that key, and no other entry. |
| RiskEngine.ComputeRisk | server/utils/riskEngine.js:29-71 | The score is the rounded composite and the tier comes from the unrounded composite. Attribution covers every factor. The explanation is for that tier; the interval comes from the draw; the model version is fixed. |
| RiskEngine.EmptyInputScoresFifty | server/utils/riskEngine.js:29-52 | The empty argument gives a composite and a score of exactly 50, tier Moderate. |
| RiskEngine.WorkedExample | server/utils/riskEngine.js:46-52 | Components 80, 70, 60, 50, 40, 30 give a composite of 60.5, tier High. |
| RiskEngine.SimulateScenario | server/utils/riskEngine.js:83-100 | The result is the assessment of the scores after the scenario table is applied. |
| RiskEngine.AdjustedLeavesOthers | server/utils/riskEngine.js:84-98 | An absent override leaves its component unchanged. Cyber and social risk never change. No overrides leave the scores as they are. |
| RiskEngine.GdpMagnitudeOnly | server/utils/riskEngine.js:86-88 | GDP changes of g and -g give the same scenario. |
| RiskEngine.EconomicNeverDecreases | server/utils/riskEngine.js:86-88 | A GDP override never lowers an economic score of at most 100, and caps it at 100. |
| RiskEngine.AdjustedCappedAbove | server/utils/riskEngine.js:86-97 | Every overridden numeric component is at most 100. |
| RiskEngine.NoLowerBound | server/utils/riskEngine.js:92-94 | Nothing floors a component at 0: a stability gain of 50 takes a political score of 10 to -40. |
| RiskEngine.OverrideOnAbsentComponent | server/utils/riskEngine.js:86-88 | An override on an absent component gives NaN. That component then counts as 0, not as the default 50. |
| RiskRecords.NewerIsStrictOrder | server/routes/risk.routes.js:12 | "More recent" is irreflexive, asymmetric and transitive, and "not more recent" is transitive. |
| RiskRecords.LatestOf | server/routes/risk.routes.js:12 | The result is nothing exactly when the country has no record. Otherwise it is a record of that country, and no record of that country is more recent. |
| RiskRecords.LatestPerCountry | server/routes/alert.routes.js:11-13 | There is one record per country and countries are distinct. The result covers exactly the countries that have records, and each record is a latest one. |
| RiskRecords.LatestPerCountryCount | server/routes/alert.routes.js:30-31 | There are as many latest records as distinct countries. |
| RiskRecords.LatestExample | server/routes/alert.routes.js:11-13 | Of records dated (2020,1), (2021,1) and (2020,12), the latest is (2021,1). |
| AlertRoutes.ThresholdDefault | server/routes/alert.routes.js:8 | An absent threshold is 60; a given one is used as it is. |
| AlertRoutes.AttachMembership | server/routes/alert.routes.js:16-17 | The join pairs a record with exactly the country documents that carry its id. |
| AlertRoutes.UnwindMembership | server/routes/alert.routes.js:16-17 | The unwound list holds exactly the pairs of a listed record with a document of its country. |
| AlertRoutes.UnwindSorted | server/routes/alert.routes.js:15-17 | Unwinding keeps the descending score order. |
| AlertRoutes.AlertFeedSound | server/routes/alert.routes.js:8-17 | Every alert scores at least the threshold. Its record is a latest record of its country by (year, month), joined to that country's document. |
| AlertRoutes.AlertFeedComplete | server/routes/alert.routes.js:11-17 | Every per-country latest record at or above the threshold appears with each document of its country. |
| AlertRoutes.AlertFeedSorted | server/routes/alert.routes.js:15 | The feed is in non-increasing score order. |
| AlertRoutes.AlertFeedOnePerCountry | server/routes/alert.routes.js:11-17 | With unique document ids, no country appears twice in the feed. |
| AlertRoutes.GroupOfShape | server/routes/alert.routes.js:32-36 | A tier's group has that tier, counts the tier's latest records (at least one), and averages their scores. |
| AlertRoutes.GroupByTierShape | server/routes/alert.routes.js:32-36 | Each group belongs to a listed tier, has a count of at least 1, and has as its average the mean score of its members. |
| AlertRoutes.GroupByTierComplete | server/routes/alert.routes.js:32-36 | Every tier that occurs among the latest records has a group. |
| AlertRoutes.StatsGroups | server/routes/alert.routes.js:28-36 | Each statistics group has a count of at least 1, counts its tier's latest records by year, and has their mean score as avgRisk. |
| AlertRoutes.GroupCountsAreTierCounts | server/routes/alert.routes.js:32-36 | The group counts add up to the per-tier member counts. |
| AlertRoutes.TiersPartition | server/routes/alert.routes.js:32-35 | The four tiers partition any list of records. |
| AlertRoutes.StatsCountsSumToTotal | server/routes/alert.routes.js:28-39 | The per-tier counts add up to totalMonitored, the number of distinct countries with records. |
| RiskRoutes.Rows | server/routes/risk.routes.js:10-23 | There is one row per country document, in document order, built from that country's latest record. |
| RiskRoutes.RowOfIsLatest | server/routes/risk.routes.js:12-22 | A row's score is null exactly when its country has no record, and then it ranks as 0 with a null tier. Otherwise the row carries the score and tier of a latest record by (year, month). |
| RiskRoutes.InsertAt | server/routes/risk.routes.js:24 | One insertion step extends the sorted prefix by one and permutes the array. The elements after the inserted position are untouched. |
| RiskRoutes.SortHeatmap | server/routes/risk.routes.js:24 | The array ends up sorted by descending score (null as 0) and is a permutation of its old contents. |
| RiskRoutes.Heatmap | server/routes/risk.routes.js:8-27 | The rows are a permutation of the per-country rows, one per document, in non-increasing score order. |
| RiskRoutes.HeatmapCoversCountries | server/routes/risk.routes.js:11-23 | A country's row is in the heatmap exactly when the country is a listed document. |
| RiskRoutes.Populate | server/routes/risk.routes.js:35 | The record is kept, with the first document carrying its id. The country is absent exactly when no document carries that id. |
| RiskRoutes.PopulateAll | server/routes/risk.routes.js:35 | Every record is populated, in order. |
| RiskRoutes.DedupSound | server/routes/risk.routes.js:39-45 | The de-duplicated list draws from its input, avoids already-seen keys and has pairwise distinct keys. |
| RiskRoutes.DedupSorted | server/routes/risk.routes.js:39-45 | De-duplication keeps the descending score order. |
| RiskRoutes.DedupKeepsBest | server/routes/risk.routes.js:39-45 | For every unseen key, the list keeps an entry scoring at least as high as any input with that key. |
| RiskRoutes.CandidatesShape | server/routes/risk.routes.js:32-36 | The query result is exactly the populated Critical and High records, sorted by descending score. |
| RiskRoutes.HighAlertListShape | server/routes/risk.routes.js:32-45 | The list holds only populated Critical and High records, with distinct keys, by descending score. Every Critical or High record's key is represented by an entry scoring at least as high, so it keeps the highest-scoring record, not the latest. |
| RiskRoutes.HighAlert | server/routes/risk.routes.js:30-49 | The loop over a `seen` set yields exactly the high-alert list. |
| RiskRoutes.HighAlertPerCountry | server/routes/risk.routes.js:39-45 | A populated entry is one of its own country's records, and no other populated entry has that country. |
| RiskRoutes.FindCountry | server/routes/risk.routes.js:57-59 | The result is a document whose iso3 or iso2 is the code. It is nothing exactly when no document has either code. |
| RiskRoutes.SimTargetCases | server/routes/risk.routes.js:54-63 | Each outcome happens exactly under its condition. A missing or empty iso gives 400 "iso is required". An unknown code, upper-cased, gives 404 "Country not found". A known country with no record gives 404 "No risk data for this country". Otherwise the result is a success: a latest record by year of the country matching the upper-cased code. |
| RiskRoutes.DeltaOfEqualScores | server/routes/risk.routes.js:76 | Equal scores give a delta of 0. |
| RiskRoutes.SameInputSameScore | server/routes/risk.routes.js:74-75 | Two assessments of the same scores agree on score and tier, whatever the random draws. |
| RiskRoutes.Respond | server/routes/risk.routes.js:74-78 | Baseline and scenario are the engine's assessments of the stored scores and of their adjustment. The delta is their rounded difference and the scenario is echoed. With no overrides, or an empty override object, the scores and tiers agree and the delta is 0. |
| RiskRoutes.Simulate | server/routes/risk.routes.js:52-80 | Each failed lookup gives its error response. Otherwise the result is the baseline and scenario assessments of the latest record's components, with the rounded delta. With no overrides, or an empty override object, the delta is 0. |
| JsText.LeadingWhiteSpace | server/routes/compare.routes.js:13 | It counts the white-space prefix exactly. |
| JsText.TrailingWhiteSpace | server/routes/compare.routes.js:13 | It counts the white-space suffix exactly. |
| JsText.Trim | server/routes/compare.routes.js:13 | The trimmed string is an infix surrounded only by white space, and it neither starts nor ends with white space. |
| JsText.TrimUntouched | server/routes/compare.routes.js:13 | A string without white space at its ends is its own trim. |
| JsText.ToUpperIsUpperCase | server/routes/compare.routes.js:13 | Upper-casing leaves no lower-case letter and is idempotent. |
| JsText.TrimUpperClean | client/js/pages/compare.js:21 | A trimmed, upper-cased string has no lower-case letter and no white space at its ends. It adds no character outside A-Z. |
| JsText.Split | server/routes/compare.routes.js:12 | Splitting gives at least one piece, and no piece contains the separator. |
| JsText.JoinSplit | server/routes/compare.routes.js:12 | Joining the pieces with the separator gives back the input. |
| Seqs.Filter | server/routes/compare.routes.js:14 | The result keeps exactly the input elements that satisfy the predicate, and is no longer than the input. |
| Seqs.FilterIsSubsequence | client/js/pages/insights.js:234-235 | Filtering keeps the input order. |
| Seqs.Insert | server/utils/riskEngine.js:74 | Insertion adds exactly one element. |
| Seqs.InsertSorted | server/utils/riskEngine.js:74 | Inserting into a descending list keeps it descending. |
| Seqs.SortDesc | server/utils/riskEngine.js:74 | Sorting gives a permutation of the input in descending key order. |
| Seqs.FilterPermutation | server/utils/riskEngine.js:74-75 | Filtering two permutations of each other gives permutations of each other, of equal length. |
| Seqs.SortDescMembership | server/routes/alert.routes.js:15 | Sorting neither adds nor loses elements. |
| ClientUtils.RiskColorTable | client/js/utils.js:5-14 | The four tiers get four distinct colours, none of them the default. Anything else gets `#7a9cc0`. |
| ClientUtils.FlagShape | client/js/utils.js:16-21 | A missing code, or one whose length is not 2, gives the globe. A two-character code gives two code points, each 0x1F1E6 plus the upper-cased character minus 65. |
| ClientUtils.FlagCaseInsensitive | client/js/utils.js:18-20 | The flag ignores letter case. |
| ClientUtils.FlagOfLetters | client/js/utils.js:18-20 | For letters, each code point lies in 0x1F1E6..0x1F1FF and gives back the upper-cased letter. |
| ClientUtils.BadgeClassShape | client/js/utils.js:23-26 | A missing or empty tier gives `badge`. Otherwise the class is `badge badge-` followed by the lower-cased tier, and it ignores case. |
| ClientUtils.BadgeOfTiers | client/js/utils.js:23-26 | The Critical and Low tiers give `badge badge-critical` and `badge badge-low`. |
| ClientUtils.BarWidth | client/js/utils.js:30 | The width never exceeds 100. It equals pct exactly when pct ≤ 100, and it is 100 exactly when pct ≥ 100. |
| ComparePage.InitialSelectionOk | client/js/pages/compare.js:6 | The initial selection [IND, CHN, PAK] is well formed. |
| ComparePage.AppendKeepsSelectionOk | client/js/pages/compare.js:22-23 | Appending an accepted, normalised code keeps the selection free of duplicates, at most 4 long, and made of well-formed codes. |
| ComparePage.AddedKeepsSelectionOk | client/js/pages/compare.js:21-23 | An add succeeds exactly when the normalised code is at least 2 long, not yet selected and the list has fewer than 4 entries. It then grows the list by one; otherwise the list is unchanged. The selection stays well formed. |
| ComparePage.WithoutKeepsNoDuplicates | client/js/pages/compare.js:31 | Removal keeps a duplicate-free list duplicate-free. |
| ComparePage.WithoutRemoves | client/js/pages/compare.js:30-31 | Removal drops exactly the given code, keeps the rest in order and keeps the selection well formed. |
| ComparePage.RemoveAbsent | client/js/pages/compare.js:31 | Removing an absent code changes nothing. |
| ComparePage.AddThenRemove | client/js/pages/compare.js:23-31 | Adding a new code and then removing it restores the selection. |
| ComparePage.Selection.constructor | client/js/pages/compare.js:6 | The selection starts as [IND, CHN, PAK] and is well formed. |
| ComparePage.Selection.AddCountry | client/js/pages/compare.js:19-28 | The new list is the old one with the trimmed, upper-cased input appended when the guard admits it, and unchanged otherwise. The selection stays well formed. |
| ComparePage.Selection.RemoveCountry | client/js/pages/compare.js:30-34 | The new list is the old one without the code, and stays well formed. |
| CompareRoutes.NormalizeAll | server/routes/compare.routes.js:13 | Each piece is trimmed and upper-cased, in order. |
| CompareRoutes.ParsedCodesClean | server/routes/compare.routes.js:11-14 | Every parsed code is non-empty, comma-free and upper-case, with no white space at its ends. The codes keep query order. |
| CompareRoutes.ParseExamples | server/routes/compare.routes.js:11-14 | A missing query parses to no codes. "in,,cn," parses to [IN, CN], so empty segments are dropped. |
| CompareRoutes.Lookup | server/routes/compare.routes.js:20-29 | There are never more entries than codes. |
| CompareRoutes.LookupFollowsKnownCodes | server/routes/compare.routes.js:20-29 | The i-th entry is the document found for the i-th known code, with its country's latest record by year, so order is kept. |
| CompareRoutes.LookupLength | server/routes/compare.routes.js:20-29 | There is exactly one entry per known code, so duplicates are kept. |
| CompareRoutes.LookupSound | server/routes/compare.routes.js:21-26 | Every entry is a listed document matching a requested code, with that country's latest record by year. |
| CompareRoutes.CompareOutcome | server/routes/compare.routes.js:11-29 | A 400 error is returned exactly when fewer than 2 codes parse, before any lookup. Otherwise every entry comes from a requested code. Its record is null exactly when the country has none, and is otherwise a latest record by year. |
| CompareRoutes.UnknownCodeDropped | server/routes/compare.routes.js:22-29 | An unknown code between two known ones is dropped, and the others keep their order. |
| CompareRoutes.DuplicatesKept | server/routes/compare.routes.js:20-29 | A code asked for twice yields two entries. |
| InsightsPage.DeltaMessageBands | client/js/pages/insights.js:123-127 | Each of the five messages is chosen exactly in its band: >15, (0,15], <-10, [-10,0) and 0. |
| InsightsPage.DeltaColorAndWarning | client/js/pages/insights.js:122-166 | Red exactly for a rise, green exactly for a fall, neutral for 0. The banner shows exactly with the escalation message, and the plus sign exactly with red. |
| InsightsPage.SplitCounts | client/js/pages/insights.js:234-235 | The four tier counts of an alert list add up to its length. |
| InsightsPage.AlertSplit | client/js/pages/insights.js:233-235 | The Critical and High lists are disjoint, order-keeping sub-lists of the alerts that hold exactly the alerts of their tier. Together they are no longer than the alerts. |
| InsightsPage.InsightsAlertsAboveSixty | client/js/pages/insights.js:229-235 | Every alert the page lists scores at least 60 and is its country's latest record. |

## Left out

- Floating point: arithmetic is exact over `real`, and `toFixed(2)` followed by `parseFloat` is exact rounding half away from zero. IEEE representation error, where `toFixed` differs from exact rounding, is not modelled.
- `Math.random()` is a parameter of the engine and of the simulate handler.
- Database access: `find`, `findOne`, `aggregate`, `populate`, `$lookup` and `distinct`. The routes read a snapshot given as sequences.
- Cache middleware, authentication, rate limiting, Express wiring and error handlers are not modelled.
- The DOM: rendering, event listeners, `load()`/`renderTags()` calls, and the `input.value = ''` side effect of `addCountry`.
- Where several records tie on the sort key, the database may return any one of them. The model picks the first such record in input order and proves only that it is a most recent one. The same holds for equal scores in `$sort` on overallConflictProb and in the high-alert `sort`: the model sorts stably.
- The order of the `$group` buckets in the statistics is unspecified in the source. The model lists them as Low, Moderate, High, Critical.
- JSON `null` as a component behaves like 0 in every engine operation, so it is written as the number 0.
- A non-numeric threshold string (`parseFloat` giving NaN) is not modelled. The threshold is absent or a number.
- A non-string `iso` in the simulate body (where `toUpperCase` would throw) and array-valued query parameters are not modelled.
- Case mapping covers ASCII letters only; a string's length counts UTF-16 units, one per character.
- The military and economic documents of the comparison response are not modelled. The entry holds the country and its latest risk record.
- The heatmap's display-only fields (region, strategicTier, lat, lng) are not modelled. A row holds the country document and the five score fields.
- `getRiskColor` looks the tier up in an object, so an inherited key such as `constructor` would return a non-colour. The model treats any string other than the four tiers as unknown.
- `riskBarStyle`'s gradient colour string is not modelled; only its width is.
- The insights page's other rendering (baseline and simulated cards, `toFixed(1)` display) and the dashboard's counts are not modelled.
- RiskEngine.TopFactorsSelection: the ranking is proved for the model's stable sort, which ranks a NaN component as 0. In the source, a NaN component (for example an override of a component the record lacks) makes the comparator `b - a` inconsistent, so the sort order is engine-defined. RiskEngine.TopFactorsAnyOrder states what holds for every order.
- RiskRoutes.SortHeatmap: the order among rows with equal keys is not stated, although the JavaScript `sort` is stable.
- The high-alert query's `.sort({overallConflictProb: -1})` is not stable in the database. For equal scores of one country the model keeps the first in input order, whereas the database may keep either.
- As in the source, the statistics, simulation and comparison choose the latest record by year alone. Records of the same year tie, whatever their month.
