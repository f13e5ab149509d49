# HomeVisit core in Dafny

HomeVisit tracks field visits to geographic sites. It also works out how much of each site is covered by remote-sensing imagery footprints ("overlays"). This project models the deterministic core of its TypeScript backend and Svelte frontend and proves properties of that model:

- **Coverage engine** (`geometry_bounds`, `geo_engine`, `intersection_calculator`, `overlay_filter`, `selection_state`, `project_link_generator`).
  - Bounding boxes and the box prefilter.
  - The incremental union with early exit, and the Full / Partial / No classification.
  - The greedy, resolution-ordered overlay selection, which keeps a remaining geometry and a remaining area.
  - The deep link that lists the selected overlays.
  - The turf and wellknown calls are the fields of a `GeoOps<G>` record of functions over an abstract geometry type `G`, with real-valued areas.
- **Status and history merge** (`statuses`, `merged_status_calculator`, `date_key_helper`, `history_merge_service`, `history_merge_legacy`).
  - The cover × visit table and the `YYYY-MM-DD` date keys.
  - Two generations of the merge of cover updates with visit records. The current one keeps, per day, the newest visit. The older one keeps the visit listed last.
- **Geometry text** (`wkt_text`, `geojson_to_wkt`, `geometry_merger`, `geometry_service`, `map_utils`).
  - WKT writers and readers, with round trips between them.
  - Map colours and bounds.
- **Site queries and filters** (`query_text`, `site_query_builder`, `filter_service`, `filter_service_legacy`, `enrichment_request_builder`, `filter_request_builder`, `sites`).
  - PostgREST query strings; these are read back to show each clause appears exactly when it should.
  - Runtime status filters, the enrichment request, and the frontend filter request.
- **Frontend history and export** (`history_filter`, `history_map_builder`, `history_store`, `csv_exporter`, `csv_summary_builder`, `status_display`, `image_mapper`).
  - The past-day card filter and the day-to-entry maps.
  - The history store (a class whose methods update its state) with its day navigation.
  - CSV export, read back by a small CSV reader.
  - The monthly status grid, status display, and the image URL mapping.

`wrappers`, `seqs`, `strings` and `sorting` are shared helpers:

- `Option` and `Outcome`. `Outcome` is a value or a thrown exception.
- A JavaScript `Map` filled by `set` calls (last wins) or by `has`/`set` (first wins).
- `Set` insertion order; `filter`, `join`, `split`, `trim` and `padStart`.
- A stable sort, standing for `Array.prototype.sort`.

Each source file's form is kept:

- Loops that update variables are methods with loop invariants, proved against a specification function. Examples: `computeUnion`, `selectBest`, `getBbox`, `jsonToCsv`, the map-filling `forEach`s, and the clause-pushing query builders.
- The history store is a class with fields and `modifies` clauses.
- Pure lookups and string builders are functions.

Host facilities are parameters:

- number-to-string (`fmt`), `parseFloat`, `encodeURIComponent`, `String(value)`, and dayjs/`Date` formatting and parsing;
- "today". Dates are integer day numbers wherever the source only compares or steps them.

Three details of the code are kept as written:

- The epsilon of 1e-9 is a fixed constant in both engine files, not a configurable setting.
- A missing `exclusive_id` makes the link builder return "" rather than fail.
- The union is seeded with the first candidate in input order. The selector sorts by resolution. `IntersectionCalculator.SeedIsFirstCandidate` and `OverlayFilter.FinestFirst` state the two orders.

## Model

| member | source | states |
|---|---|---|
| GeometryBounds.FlattenPolygon | apps/backend/src/utils/geometryBounds.ts:46-61 | the coordinates of a polygon, including one with no ring, flatten to all of its ring vertices, ring by ring and in order, each keeping its first two numbers |
| GeometryBounds.FlattenRingList | apps/backend/src/utils/geometryBounds.ts:49-57 | walking a list of rings visits every ring's positions depth-first, left to right |
| GeometryBounds.Flatten | apps/backend/src/utils/geometryBounds.ts:46-61 | a value that is not an array contributes no position, and no value yields more positions than it has nodes |
| GeometryBounds.GetBbox | apps/backend/src/utils/geometryBounds.ts:11-26 | the running min/max loop returns the box of the flattened coordinates: the sentinel folded with every position in order |
| GeometryBounds.BoundsOf | apps/backend/src/utils/geometryBounds.ts:13-23 | the fold leaves the sentinel box exactly when there is no coordinate; otherwise all four bounds are finite numbers |
| GeometryBounds.BoundsOfSpec | apps/backend/src/utils/geometryBounds.ts:13-23 | no coordinate gives the sentinel (+inf, +inf, -inf, -inf); otherwise the box is finite, holds every coordinate, and each of its four bounds is some coordinate's component |
| GeometryBounds.BboxIntersectSpec | apps/backend/src/utils/geometryBounds.ts:31-41 | the test is symmetric, and on finite boxes holds exactly when the x-intervals and the y-intervals overlap, edges and corners that only touch included |
| GeometryBounds.EmptyBoxIntersectsNothing | apps/backend/src/utils/geometryBounds.ts:11-41 | the sentinel box of a coordinate-free geometry intersects no computed box, in either argument position |
| GeometryBounds.BoundsSelfIntersect | apps/backend/src/utils/geometryBounds.ts:35-40 | the box of a non-empty coordinate list intersects itself |
| IntersectionCalculator.FilterCandidates | apps/backend/src/utils/intersectionCalculator.ts:49-63 | an overlay is a candidate iff its WKT parses and its box touches the site box; never more candidates than overlays |
| IntersectionCalculator.FilterCandidatesOrder | apps/backend/src/utils/intersectionCalculator.ts:54-62 | the candidates are a subsequence of the overlays, in input order |
| IntersectionCalculator.ParseOverlayFeatures | apps/backend/src/utils/intersectionCalculator.ts:65-76 | overlays whose WKT does not parse are dropped, so there are never more features than overlays |
| IntersectionCalculator.ParseCandidates | apps/backend/src/utils/intersectionCalculator.ts:65-76 | every candidate parses again, so the features line up one to one with the candidates (the "no feature" guard fires only with no candidate) |
| IntersectionCalculator.ComputeUnion | apps/backend/src/utils/intersectionCalculator.ts:78-107 | the loop returns the union state after the features it examined; it stops early only at a feature that brings coverage within 1e-9 of 100 %, and no earlier feature did |
| IntersectionCalculator.ReachedSticky | apps/backend/src/utils/intersectionCalculator.ts:91-101 | once full coverage is reached the union state never changes again |
| IntersectionCalculator.UnionUpToPrefix | apps/backend/src/utils/intersectionCalculator.ts:84-105 | the union state after k features depends on those k features only |
| IntersectionCalculator.LaterFeaturesIgnored | apps/backend/src/utils/intersectionCalculator.ts:91-101 | once the first k features reach full coverage, the features after them cannot change the result |
| IntersectionCalculator.FailingUnionsKeepSeed | apps/backend/src/utils/intersectionCalculator.ts:86-104 | a union that throws is caught and leaves the accumulator as it was, so with every union throwing the result is the seed feature |
| IntersectionCalculator.Classify | apps/backend/src/utils/intersectionCalculator.ts:117-118 | Full iff within 1e-9 of 100; Partial iff not Full and positive; No otherwise |
| IntersectionCalculator.CalculateCoverage | apps/backend/src/utils/intersectionCalculator.ts:109-122 | a null or throwing final intersection gives No; otherwise the intersection's percentage of the site area is classified |
| IntersectionCalculator.CalculateIntersectionPercent | apps/backend/src/utils/intersectionCalculator.ts:11-47 | the method follows every guard of the source and returns the step-by-step coverage status |
| IntersectionCalculator.CoverageStatusSpec | apps/backend/src/utils/intersectionCalculator.ts:15-42 | No for a missing or unparsable site, no overlay, zero site area or no candidate; any other status needs a non-null union and equals its final coverage class |
| IntersectionCalculator.SeedIsFirstCandidate | apps/backend/src/utils/intersectionCalculator.ts:84 | the union is seeded with the first candidate in input order, whatever the resolutions |
| IntersectionCalculator.SeedIsFirstHit | apps/backend/src/utils/intersectionCalculator.ts:84 | for any overlay list, the union is seeded with the parse of the first overlay, in input order, that parses and touches the site's box |
| OverlayFilter.ByResolutionTotal | apps/backend/src/utils/overlayFilter.ts:68 | ascending resolution, with a missing resolution as +inf, is a total preorder, so the stable sort is well defined |
| OverlayFilter.Hits | apps/backend/src/utils/overlayFilter.ts:52-67 | the mapped and filtered candidates, never more than the overlays |
| OverlayFilter.HitsSpec | apps/backend/src/utils/overlayFilter.ts:52-67 | a hit is exactly an input overlay whose WKT parses and whose box touches the site box, carrying that parse and its resolution (+inf when missing) |
| OverlayFilter.GetCandidates | apps/backend/src/utils/overlayFilter.ts:47-69 | the candidates are the hits, permuted and sorted by ascending resolution |
| OverlayFilter.GetCandidatesStable | apps/backend/src/utils/overlayFilter.ts:68 | candidates of equal resolution, including all those without one, keep their input order |
| OverlayFilter.UpdateRemaining | apps/backend/src/utils/overlayFilter.ts:117-129 | the remaining region is kept for a point footprint, a null difference or a throwing one; otherwise it becomes the difference |
| OverlayFilter.StepShape | apps/backend/src/utils/overlayFilter.ts:81-106 | one iteration either selects the candidate (appending it and taking the intersection's area off) or changes nothing |
| OverlayFilter.SelectUpToAccounts | apps/backend/src/utils/overlayFilter.ts:77-107 | the loop keeps its account: the selected overlays are candidates at strictly increasing indices, and the remaining area is the site area less the sum of what each selection took off |
| OverlayFilter.GainsAreAreas | apps/backend/src/utils/overlayFilter.ts:88-89 | with non-negative areas every gain is non-negative and the remaining area never exceeds the site area |
| OverlayFilter.DoneSticky | apps/backend/src/utils/overlayFilter.ts:91-97 | once the site is covered the selection never changes again |
| OverlayFilter.SelectUpToPrefix | apps/backend/src/utils/overlayFilter.ts:81-107 | the selection state after k candidates depends on those k candidates only |
| OverlayFilter.LaterCandidatesIgnored | apps/backend/src/utils/overlayFilter.ts:91-97 | once the first k candidates cover the site, the candidates after them cannot change the selection |
| OverlayFilter.SkippedCandidate | apps/backend/src/utils/overlayFilter.ts:85-86 | a candidate whose intersection with the remaining region is null or throws changes nothing |
| OverlayFilter.SelectBest | apps/backend/src/utils/overlayFilter.ts:71-115 | the loop returns the greedy selection over all candidates; when it returns early, the candidates examined so far already cover the site |
| OverlayFilter.FilterOverlaysByIntersection | apps/backend/src/utils/overlayFilter.ts:23-45 | the method follows every guard of the source and returns the step-by-step selection |
| OverlayFilter.PickedCandidates | apps/backend/src/utils/overlayFilter.ts:77-107 | the greedy pass returns candidates at strictly increasing sorted positions, each at most once, each an input overlay that parses and touches the site box |
| OverlayFilter.SelectionSpec | apps/backend/src/utils/overlayFilter.ts:27-44 | [] for a missing or unparsable site, no overlay, zero area or no candidate; otherwise a subsequence of the sorted candidates, each an input overlay that touches the site box |
| OverlayFilter.FinestFirst | apps/backend/src/utils/overlayFilter.ts:68 | with a coarse overlay listed before a finer one, the finer comes first among the candidates |
| SelectionState.AccountsWiden | apps/backend/src/utils/overlayFilter.ts:85-86 | skipping a candidate keeps the loop's account |
| SelectionState.AccountsExtend | apps/backend/src/utils/overlayFilter.ts:88-89 | selecting a candidate keeps the loop's account: its index is appended and its area taken off |
| ProjectLinkGenerator.WrapId | apps/backend/src/utils/projectLinkGenerator.ts:25 | a wrapped id is the id with three backslashes and a quote on each side, so it can be unwrapped again |
| ProjectLinkGenerator.CreateProjectLink | apps/backend/src/utils/projectLinkGenerator.ts:15-33 | no overlay: the placeholder becomes ""; an overlay without exclusive_id: ""; otherwise the first placeholder becomes the wrapped ids comma-joined; a template without placeholder comes back unchanged |
| ProjectLinkGenerator.FirstPlaceholderOnly | apps/backend/src/utils/projectLinkGenerator.ts:28 | only the first placeholder is replaced; the text before it and after it, later placeholders included, is kept |
| ProjectLinkGenerator.IdListPieces | apps/backend/src/utils/projectLinkGenerator.ts:24-26 | for ids without commas, the inserted text splits into one wrapped id per overlay, in order: n ids and n - 1 commas |
| ProjectLinkGenerator.IdListRoundTrip | apps/backend/src/utils/projectLinkGenerator.ts:24-26 | splitting the inserted text at commas and unwrapping each piece gives back the entity ids in overlay order |
| MergedStatusCalculator.GetMergedStatus | apps/backend/src/services/historyMerge/mergedStatusCalculator.ts:11-30 | each of the five merged statuses holds exactly for its (cover, visit) pairs: Not Cover iff cover No; Seen iff Full and Seen; Partial Seen iff Partial and Partial; Partial Cover iff Partial and Not Seen; Not Seen otherwise |
| DateKeyHelper.ToDateKey | apps/backend/src/services/historyMerge/dateKeyHelper.ts:6-26 | an exact YYYY-MM-DD string comes back unchanged; a string beginning with one gives its first 10 characters, itself a key; anything else goes through the UTC fallback |
| DateKeyHelper.ToDateKeyIdempotent | apps/backend/src/services/historyMerge/dateKeyHelper.ts:8-18 | on a string beginning with a date, taking the key twice is the same as taking it once |
| DateKeyHelper.FourDigits | apps/backend/src/services/historyMerge/dateKeyHelper.ts:22 | a year between 1000 and 9999 renders in four characters |
| DateKeyHelper.PaddedValue | apps/backend/src/services/historyMerge/dateKeyHelper.ts:23-24 | a month or day from 1 to 31, zero-padded, is two digits that spell that number |
| DateKeyHelper.FormatUtcRoundTrip | apps/backend/src/services/historyMerge/dateKeyHelper.ts:21-25 | for a valid date with a four-digit year the fallback is a date key that spells the year, the 1-based month and the day |
| HistoryMergeService.NewestFirstTotal | apps/backend/src/services/historyMerge/historyMergeService.ts:24-32 | newest recorded_date first, then highest history_id (missing as 0), is a total preorder |
| HistoryMergeService.OldestFirstTotal | apps/backend/src/services/historyMerge/historyMergeService.ts:60-62 | oldest date first is a total preorder |
| HistoryMergeService.SortedVisits | apps/backend/src/services/historyMerge/historyMergeService.ts:24-32 | the sorted copy is ordered newest first and is a permutation of the visits |
| HistoryMergeService.VisitPairs | apps/backend/src/services/historyMerge/historyMergeService.ts:34-40 | one (date key, status) pair per visit, in the given order |
| HistoryMergeService.EntryFor | apps/backend/src/services/historyMerge/historyMergeService.ts:42-57 | an entry keeps the update's date and cover status, reads the visit status of its date key ("Not Seen" when absent) and carries the table's merged status |
| HistoryMergeService.Entries | apps/backend/src/services/historyMerge/historyMergeService.ts:42-58 | one entry per cover update, in update order |
| HistoryMergeService.MergeHistory | apps/backend/src/services/historyMerge/historyMergeService.ts:16-63 | sorting a copy, filling the map first-wins and mapping then sorting the updates gives the specified merge |
| HistoryMergeService.MergeHistorySpec | apps/backend/src/services/historyMerge/historyMergeService.ts:16-63 | the merge has one entry per cover update and is ordered oldest date first |
| HistoryMergeService.BuildVisitMap | apps/backend/src/services/historyMerge/historyMergeService.ts:34-40 | the loop leaves each date key holding the status of the first visit with that key in the sorted order |
| HistoryMergeService.MergeHistoryShape | apps/backend/src/services/historyMerge/historyMergeService.ts:42-62 | one entry per cover update, sorted by ascending date, each carrying an update's date and cover status and the table's merged status; the entries are exactly one per cover update, as a multiset |
| HistoryMergeService.NewestVisitWins | apps/backend/src/services/historyMerge/historyMergeService.ts:24-40 | a day with visits gets the status of one of them that is at least as new, by recorded_date then history_id, as every other visit that day |
| HistoryMergeService.NoVisitIsNotSeen | apps/backend/src/services/historyMerge/historyMergeService.ts:44-46 | a day without any visit reads as "Not Seen" |
| HistoryMergeLegacy.SameTable | apps/backend/src/services/historyMergeService.ts:28-60 | the older private status table agrees with the calculator's on every (cover, visit) pair |
| HistoryMergeLegacy.VisitDates | apps/backend/src/services/historyMergeService.ts:79-80 | the recorded dates of the visits, in order |
| HistoryMergeLegacy.UpdateDates | apps/backend/src/services/historyMergeService.ts:87-88 | the dates of the cover updates, in order |
| HistoryMergeLegacy.LegacyPairs | apps/backend/src/services/historyMergeService.ts:79-82 | one (ISO date key, status) pair per visit, in input order |
| HistoryMergeLegacy.LegacyEntry | apps/backend/src/services/historyMergeService.ts:88-100 | an entry keeps the update's date and cover status, reads its day's visit status ("Not Seen" when absent), and its merged status follows the shared table |
| HistoryMergeLegacy.LegacyEntries | apps/backend/src/services/historyMergeService.ts:87-101 | one entry per cover update |
| HistoryMergeLegacy.LegacyMergeHistory | apps/backend/src/services/historyMergeService.ts:73-109 | filling the map, pushing one entry per update and sorting gives the specified merge, or throws when a date is invalid |
| HistoryMergeLegacy.LegacyMergeSpec | apps/backend/src/services/historyMergeService.ts:73-109 | the merge throws exactly when some visit or update date is invalid; otherwise it has one entry per update, ordered oldest date first |
| HistoryMergeLegacy.LegacyVisitMap | apps/backend/src/services/historyMergeService.ts:78-82 | the loop throws iff some visit date is invalid; otherwise each day holds the status of its last visit in input order |
| HistoryMergeLegacy.LegacyUpdateEntries | apps/backend/src/services/historyMergeService.ts:85-101 | the loop throws iff some update date is invalid; otherwise it pushes one entry per update, in order |
| HistoryMergeLegacy.LegacyMergeShape | apps/backend/src/services/historyMergeService.ts:85-106 | with valid dates: one entry per update, sorted by ascending date, each merged status consistent with its cover and visit statuses |
| HistoryMergeLegacy.LastVisitWins | apps/backend/src/services/historyMergeService.ts:79-82 | a day's status is that of the last visit on that day in input order |
| HistoryMergeLegacy.LegacyNoVisitIsNotSeen | apps/backend/src/services/historyMergeService.ts:89 | a day without any visit reads as "Not Seen" |
| HistoryMergeLegacy.LegacyKeepsLastListed | apps/backend/src/services/historyMergeService.ts:79-82 | with a newer Seen visit listed before an older Not Seen one on the same day, the older service reports Not Seen |
| HistoryMergeLegacy.NewKeepsNewest | apps/backend/src/services/historyMerge/historyMergeService.ts:24-40 | on the same two visits, the newer service reports Seen: the two dedup policies differ |
| HistoryMergeLegacy.SortTwoVisits | apps/backend/src/services/historyMerge/historyMergeService.ts:24-32 | a newer and an older visit stay in that order after the sort |
| WktText.PosTexts | apps/backend/src/utils/geojsonToWkt.ts:10-11 | one "x y" text per position, in ring order |
| WktText.RingBodyPieces | apps/backend/src/utils/geojsonToWkt.ts:10-12 | with plain number renderings, a ring body splits at its commas into one piece per position, each after the first preceded by the space of ", " |
| GeojsonToWkt.GeojsonPolygonToWkt | apps/backend/src/utils/geojsonToWkt.ts:4-15 | throws iff the input is null, not a Polygon, has no coordinates, or has no first ring; otherwise "POLYGON((" + the outer ring body + "))" |
| GeojsonToWkt.HolesDropped | apps/backend/src/utils/geojsonToWkt.ts:9 | only the outer ring is written: polygons with the same outer ring give the same text whatever their holes |
| GeojsonToWkt.TokensPerVertex | apps/backend/src/utils/geojsonToWkt.ts:10-12 | the body holds one "x y" token per vertex of the outer ring, in ring order |
| GeojsonToWkt.NormalizeGeometryToWkt | apps/backend/src/utils/geojsonToWkt.ts:20-32 | strings pass through unchanged, Polygon objects go to the polygon writer, everything else throws |
| GeojsonToWkt.NormalizeIdempotent | apps/backend/src/utils/geojsonToWkt.ts:20-32 | normalising what normalising produced gives it back |
| GeometryMerger.RingTexts | apps/backend/src/utils/geometryMerger.ts:46-51 | one text per ring |
| GeometryMerger.PolygonTexts | apps/backend/src/utils/geometryMerger.ts:43-52 | one text per polygon |
| GeometryMerger.GeometryToWkt | apps/backend/src/utils/geometryMerger.ts:40-65 | throws iff the type is neither MultiPolygon nor Polygon; a Polygon is "POLYGON" + its parenthesised rings; a MultiPolygon is "MULTIPOLYGON(" + its polygon texts joined by ", " + ")" |
| GeometryMerger.SingleRingAgrees | apps/backend/src/utils/geometryMerger.ts:55-62 | for a one-ring polygon this writer and the polygon writer of geojsonToWkt.ts produce the same text |
| GeometryMerger.Parsed | apps/backend/src/utils/geometryMerger.ts:15-22 | texts that do not parse are dropped |
| GeometryMerger.PolygonCoords | apps/backend/src/utils/geometryMerger.ts:26-28 | geometries that are not Polygons are dropped |
| GeometryMerger.MergeSpec | apps/backend/src/utils/geometryMerger.ts:7-38 | the merge is "" exactly when the list is absent or no polygon survives; otherwise it is the MULTIPOLYGON of the surviving polygons in input order |
| GeometryMerger.MergeGeometriesToMultiPolygon | apps/backend/src/utils/geometryMerger.ts:7-38 | an absent list gives ""; any other result is "" or a text that starts with "MULTIPOLYGON(" and ends with ")" |
| GeometryMerger.ParsedConcat | apps/backend/src/utils/geometryMerger.ts:15-22 | parsing distributes over concatenation |
| GeometryMerger.PolygonCoordsConcat | apps/backend/src/utils/geometryMerger.ts:26-28 | keeping the polygons distributes over concatenation |
| GeometryMerger.PolygonsOfConcat | apps/backend/src/utils/geometryMerger.ts:11-28 | the polygons of two lists are those of the first followed by those of the second: input order is kept |
| GeometryMerger.PolygonsOfOne | apps/backend/src/utils/geometryMerger.ts:11-28 | one text contributes its polygon with all its rings when it is not blank and reads as a Polygon, and nothing otherwise |
| GeometryMerger.SinglePolygon | apps/backend/src/utils/geometryMerger.ts:7-38 | a single Polygon text merges to "MULTIPOLYGON(" + its polygon text + ")", the same rings the Polygon branch writes |
| GeometryService.Nums | apps/backend/src/services/geometryService.ts:10 | numbers as JavaScript values, position by position |
| GeometryService.ToWkt | apps/backend/src/services/geometryService.ts:7-16 | null or undefined gives ""; any other result is "" or a text that starts with "POINT(" and ends with ")" |
| GeometryService.ToWktOfPolygon | apps/backend/src/services/geometryService.ts:7-16 | for polygon coordinates the text is "POINT(lon lat)" of the first vertex of the first ring, every other vertex ignored; with no first vertex, "" |
| GeometryService.RunEnd | apps/backend/src/services/geometryService.ts:20 | the end of a run of [\d.-] characters: the first position past it is not one |
| GeometryService.RunEndChars | apps/backend/src/services/geometryService.ts:20 | every character inside the run is one of [\d.-] |
| GeometryService.FromWkt | apps/backend/src/services/geometryService.ts:18-31 | a point is returned exactly when the pattern matches somewhere in the text, otherwise null; the point is `parseFloat` of the two groups of the leftmost match |
| GeometryService.FindPointComplete | apps/backend/src/services/geometryService.ts:20 | a match at or after a position is always found by the search from that position |
| GeometryService.FindPointLeftmost | apps/backend/src/services/geometryService.ts:20 | the search stops at the first position that matches, with the groups found there |
| GeometryService.FindPointAnyMatch | apps/backend/src/services/geometryService.ts:20-21 | `wkt.match` succeeds exactly when the pattern matches somewhere in the text |
| GeometryService.FindPointLeftmostAll | apps/backend/src/services/geometryService.ts:20-25 | the groups returned are those of the leftmost match |
| GeometryService.FindPointFound | apps/backend/src/services/geometryService.ts:20-21 | the leftmost-match search finds a match only where the pattern matches |
| GeometryService.PointAtGroups | apps/backend/src/services/geometryService.ts:20-26 | both captured groups are non-empty runs of [\d.-] |
| GeometryService.SpaceAfterWordNoMatch | apps/backend/src/services/geometryService.ts:20 | a space right after "POINT(" means no match there |
| GeometryService.DoubleSpaceNoMatch | apps/backend/src/services/geometryService.ts:20 | two spaces between the numbers mean no match there |
| GeometryService.RunEndFrom | apps/backend/src/services/geometryService.ts:20 | a run of [\d.-] followed by another character ends exactly there |
| GeometryService.PointTextMatches | apps/backend/src/services/geometryService.ts:20-22 | "POINT(a b)" with number texts a and b matches at the start with groups a and b |
| GeometryService.RoundTrip | apps/backend/src/services/geometryService.ts:7-31 | reading back what the writer wrote recovers the first vertex when both numbers render as runs of [\d.-] that parseFloat reads back |
| QueryText.QuotedAll | apps/backend/src/services/site/siteQueryBuilder.ts:21 | each status wrapped in double quotes, in order |
| QueryText.LookupConcat | apps/backend/src/services/site/siteQueryBuilder.ts:25 | a key is looked up in a joined parameter list first in the earlier parameters, then in the later ones |
| QueryText.LookupMiddle | apps/backend/src/services/site/siteQueryBuilder.ts:25 | a key absent from the parameters before and after a stretch is found in that stretch alone |
| QueryText.LookupHit | apps/backend/src/services/site/siteQueryBuilder.ts:13 | a `key=value` parameter is found under its key with its value |
| QueryText.LookupMiss | apps/backend/src/services/site/siteQueryBuilder.ts:13-21 | a parameter that starts differently from a key is not found under it |
| QueryText.JoinAppend | apps/backend/src/services/site/siteQueryBuilder.ts:25 | pushing one more parameter appends the separator and that parameter to the joined text |
| QueryText.JoinFree | apps/backend/src/services/site/siteQueryBuilder.ts:16-21 | a joined list holds a character only if a part or the separator does |
| QueryText.SitesQueryReadsBack | apps/backend/src/services/site/siteQueryBuilder.ts:25 | the stretch between the path and the select list splits on `&` into the parameters, in order, when none holds a `&` |
| QueryText.SitesQueryEnds | apps/backend/src/services/site/siteQueryBuilder.ts:25 | a query ends with "&select=" and its select list |
| QueryText.SitesQueryStarts | apps/backend/src/services/site/siteQueryBuilder.ts:25 | a query starts with "/sites?" and its first parameter |
| QueryText.SingleRowQueryShape | apps/backend/src/services/site/siteQueryBuilder.ts:32-40 | the by-name and by-id lookups start with their one filter and end with the select list and "&limit=1" |
| QueryText.SitesQueryOneParam | apps/backend/src/services/site/siteQueryBuilder.ts:25-29 | two queries sharing select list and first parameter are equal exactly when the longer has no other parameter |
| QueryText.QuotedListReadsBack | apps/backend/src/services/site/siteQueryBuilder.ts:21 | the quoted list splits on `,` into one piece per status, in order, each the status between double quotes, when no status holds a `,` |
| QueryText.SeenClauseFree | apps/backend/src/services/site/siteQueryBuilder.ts:20-22 | the status clause holds a `&` only if a status does |
| QueryText.GroupClauseFree | apps/backend/src/services/site/siteQueryBuilder.ts:13 | the group clause holds no `&` |
| SiteQueryBuilder.IdTexts | apps/backend/src/services/site/siteQueryBuilder.ts:16 | each user id as decimal text, in order |
| SiteQueryBuilder.UserClauseFree | apps/backend/src/services/site/siteQueryBuilder.ts:16 | the user clause holds no `&` |
| SiteQueryBuilder.UserClauseParam | apps/backend/src/services/site/siteQueryBuilder.ts:16 | the user clause is a `user_id=value` parameter |
| SiteQueryBuilder.BuildSiteQuery | apps/backend/src/services/site/siteQueryBuilder.ts:8-26 | pushing the group clause, then the user clause when ids are given, then the status clause when statuses are given, builds the specified query |
| SiteQueryBuilder.SiteFiltersGroup | apps/backend/src/services/site/siteQueryBuilder.ts:13 | the server always finds the group id under `group_id` |
| SiteQueryBuilder.SiteFiltersUser | apps/backend/src/services/site/siteQueryBuilder.ts:15-17 | the server finds the ids, comma-joined in order, under `user_id` exactly when some are given |
| SiteQueryBuilder.SiteFiltersSeen | apps/backend/src/services/site/siteQueryBuilder.ts:19-23 | the server finds the quoted statuses, comma-joined in order, under `seen_status` exactly when some are given |
| SiteQueryBuilder.SiteFiltersOrder | apps/backend/src/services/site/siteQueryBuilder.ts:13-23 | the clauses come in the fixed order group, user, status, each present only when asked for |
| SiteQueryBuilder.SiteFiltersFree | apps/backend/src/services/site/siteQueryBuilder.ts:13-23 | no clause holds a `&` when no status does |
| SiteQueryBuilder.SiteQueryReadsBack | apps/backend/src/services/site/siteQueryBuilder.ts:25 | the query starts with the path and group clause, ends with the select list, and the stretch between splits on `&` back into the clauses |
| SiteQueryBuilder.NoFiltersIsByGroup | apps/backend/src/services/site/siteQueryBuilder.ts:8-30 | the filtered query equals the by-group query exactly when neither a user nor a status filter is given |
| SiteQueryBuilder.SiteByGroupQuery | apps/backend/src/services/site/siteQueryBuilder.ts:28-30 | the query is `/sites?group_id=eq.<id>&select=<columns>`, with the user columns embedded |
| SiteQueryBuilder.SiteByNameQuery | apps/backend/src/services/site/siteQueryBuilder.ts:32-36 | the query filters on the URI-encoded name, selects the columns and asks for at most one row |
| SiteQueryBuilder.SiteByIdQuery | apps/backend/src/services/site/siteQueryBuilder.ts:38-40 | the query filters on the decimal id, selects the columns and asks for at most one row |
| FilterService.ApplyRuntimeFilters | apps/backend/src/services/filter/filterService.ts:11-21 | the filter never adds sites |
| FilterService.RuntimeFiltersExact | apps/backend/src/services/filter/filterService.ts:18-20 | with statuses requested, a site keeps all its copies exactly when its coverage status is listed, and loses them all otherwise |
| FilterService.RuntimeFiltersSubseq | apps/backend/src/services/filter/filterService.ts:15-20 | the result is the input with some sites removed, in input order |
| FilterService.RuntimeFiltersIdempotent | apps/backend/src/services/filter/filterService.ts:11-21 | filtering twice with the same request is filtering once |
| FilterService.BuildQueryParams | apps/backend/src/services/filter/filterService.ts:32-49 | pushing the group clause, then the username clause for a non-empty username, then the status clause for a non-empty list, gives the specified parameters |
| FilterService.BuildQuery | apps/backend/src/services/filter/filterService.ts:23-30 | the query is the path, the parameters joined by `&` and the select list |
| FilterService.QueryParamsGroup | apps/backend/src/services/filter/filterService.ts:37 | the server always finds the group id under `group_id` |
| FilterService.QueryParamsUsername | apps/backend/src/services/filter/filterService.ts:39-41 | the server finds the encoded username under `username` exactly when a non-empty username is given |
| FilterService.QueryParamsSeen | apps/backend/src/services/filter/filterService.ts:43-46 | the server finds the quoted statuses, comma-joined in order, under `seen_status` exactly when some are given |
| FilterService.QueryParamsFree | apps/backend/src/services/filter/filterService.ts:37-46 | no parameter holds a `&` when neither the encoded username nor a status does |
| FilterService.QueryEnds | apps/backend/src/services/filter/filterService.ts:29 | the query starts with the path and group clause and ends with the select list |
| FilterService.QueryReadsBack | apps/backend/src/services/filter/filterService.ts:29 | the stretch between the path and the select list splits on `&` back into the parameters |
| FilterServiceLegacy.ApplyRuntimeFilters | apps/backend/src/services/filterService.ts:8-21 | narrowing the list only when statuses are requested gives the current service's result, so every property proved there holds here |
| FilterServiceLegacy.BuildQuery | apps/backend/src/services/filterService.ts:23-42 | the older query builder produces exactly the current service's query |
| EnrichmentRequestBuilder.BuildEnrichmentRequest | apps/backend/src/services/enrichment/enrichmentRequestBuilder.ts:15-27 | the request has exactly the data key and the date key |
| EnrichmentRequestBuilder.RequestContents | apps/backend/src/services/enrichment/enrichmentRequestBuilder.ts:22-26 | the date key holds the date window; a distinct data key holds the geometries and site names as given; equal keys leave one entry, the date window |
| EnrichmentRequestBuilder.NamedItems | apps/backend/src/services/enrichment/enrichmentRequestBuilder.ts:35 | one (site name, item) pair per item, in order |
| EnrichmentRequestBuilder.CreateStatusMap | apps/backend/src/services/enrichment/enrichmentRequestBuilder.ts:32-36 | the keys are exactly the items' site names |
| EnrichmentRequestBuilder.StatusMapLastWins | apps/backend/src/services/enrichment/enrichmentRequestBuilder.ts:35 | for duplicate site names the last item is the one stored |
| EnrichmentRequestBuilder.StatusMapValues | apps/backend/src/services/enrichment/enrichmentRequestBuilder.ts:32-36 | every stored item is an input item filed under its own name, and there are no more entries than items |
| FilterRequestBuilder.BuildFilterRequest | apps/frontend/src/stores/visit/filterRequestBuilder.ts:12-50 | setting the users, adding statuses toggle by toggle to two insertion-ordered sets and copying the non-empty ones gives the specified request |
| FilterRequestBuilder.FilterRequestOf | apps/frontend/src/stores/visit/filterRequestBuilder.ts:12-50 | the usernames are sent, as chosen, exactly when some are chosen, and neither status array is ever sent empty |
| FilterRequestBuilder.RequestUsers | apps/frontend/src/stores/visit/filterRequestBuilder.ts:15-17 | the usernames are sent exactly when some are chosen, and as chosen |
| FilterRequestBuilder.RequestSeen | apps/frontend/src/stores/visit/filterRequestBuilder.ts:22-39 | "Seen" iff completed-full, "Not Seen" iff awaiting, "Partial" iff awaiting or completed-partial, and no other visit status |
| FilterRequestBuilder.RequestUpdated | apps/frontend/src/stores/visit/filterRequestBuilder.ts:22-31 | "No" iff collection, "Full" and "Partial" iff awaiting, and no other coverage status |
| FilterRequestBuilder.RequestArraysWellFormed | apps/frontend/src/stores/visit/filterRequestBuilder.ts:41-47 | neither status array repeats a value, and neither is sent empty |
| FilterRequestBuilder.EmptyRequest | apps/frontend/src/stores/visit/filterRequestBuilder.ts:12-50 | the request is {} exactly when no user is chosen and no toggle is on |
| FilterRequestBuilder.AwaitingComesFirst | apps/frontend/src/stores/visit/filterRequestBuilder.ts:22-27 | with awaiting on, the visit statuses begin "Not Seen", "Partial" and the coverage statuses begin "Full", "Partial", whatever else is on |
| FilterRequestBuilder.AwaitingWithPartial | apps/frontend/src/stores/visit/filterRequestBuilder.ts:22-42 | awaiting with completed-partial asks for ["Not Seen", "Partial"], each once |
| HistoryFilter.MatchesHistoryFilter | apps/frontend/src/components/historyFilter.ts:15-76 | the flag-raising method returns exactly whether the card passes the user filter and, with some toggle on, matches one of them on the day's statuses |
| HistoryFilter.Matches | apps/frontend/src/components/historyFilter.ts:27-75 | a matching card always passes the user filter, and with no toggle on the user filter alone decides |
| HistoryFilter.FilterCardsForHistory | apps/frontend/src/components/historyFilter.ts:81-98 | the filter never adds cards |
| HistoryFilter.TodayKeepsCards | apps/frontend/src/components/historyFilter.ts:86-92 | with no day selected, or today selected, the cards come back as they are |
| HistoryFilter.FilterCardsSubseq | apps/frontend/src/components/historyFilter.ts:95-97 | the result is the input with some cards removed, in input order |
| HistoryFilter.FilterCardsKept | apps/frontend/src/components/historyFilter.ts:95-97 | while a past day is viewed, a card is kept exactly when it matches the filters on that day |
| HistoryFilter.UnselectedUserExcluded | apps/frontend/src/components/historyFilter.ts:28-33 | while a past day is viewed with users chosen, a card of a user not chosen is never shown |
| HistoryFilter.NoFiltersKeepsAll | apps/frontend/src/components/historyFilter.ts:70-75 | with no toggle on and no user chosen, every card is shown |
| HistoryFilter.TogglesCombineWithOr | apps/frontend/src/components/historyFilter.ts:36-75 | with some toggle on, a card matches exactly when it matches one enabled toggle on its own |
| HistoryFilter.AwaitingMatches | apps/frontend/src/components/historyFilter.ts:39-45 | awaiting alone matches exactly the allowed cards covered fully or partly and seen not at all or partly |
| HistoryFilter.EntryTakesPrecedence | apps/frontend/src/components/historyFilter.ts:20-25 | a card with an entry for the day is judged as if its own statuses were the entry's |
| HistoryMapBuilder.Dated | apps/frontend/src/components/calendar/historyMapBuilder.ts:13-16 | each entry paired with its day, in input order |
| HistoryMapBuilder.HistoryMap | apps/frontend/src/components/calendar/historyMapBuilder.ts:9-18 | the keys are exactly the days of the entries |
| HistoryMapBuilder.BuildHistoryMap | apps/frontend/src/components/calendar/historyMapBuilder.ts:9-18 | setting each entry under its day in turn gives the specified map |
| HistoryMapBuilder.HistoryMapLastWins | apps/frontend/src/components/calendar/historyMapBuilder.ts:15 | for a repeated day the last entry in input order is the one stored |
| HistoryMapBuilder.HistoryMapValues | apps/frontend/src/components/calendar/historyMapBuilder.ts:13-16 | every stored entry is an input entry filed under its own day |
| HistoryMapBuilder.HistoryMapSize | apps/frontend/src/components/calendar/historyMapBuilder.ts:12-17 | the map has no more entries than the history, and is empty exactly when the history is |
| HistoryStore.EntryAt | apps/frontend/src/stores/history/historyStore.ts:53-61 | an entry is found exactly when the site and the day are both known, and it is the stored one |
| HistoryStore.HistoryStore.constructor | apps/frontend/src/stores/history/historyStore.ts:14-19 | the store starts empty, with today in view, not loading and without error |
| HistoryStore.HistoryStore.SetSiteHistory | apps/frontend/src/stores/history/historyStore.ts:31-48 | the site's map is replaced by the map built from its history; every other site and every other field is unchanged |
| HistoryStore.HistoryStore.GetSiteHistoryEntry | apps/frontend/src/stores/history/historyStore.ts:53-61 | null for an unknown site or day, otherwise the stored entry |
| HistoryStore.HistoryStore.SetSelectedDate | apps/frontend/src/stores/history/historyStore.ts:66-68 | only the selection changes |
| HistoryStore.HistoryStore.GetSelectedDate | apps/frontend/src/stores/history/historyStore.ts:73-79 | today when nothing is selected, otherwise the selected day |
| HistoryStore.HistoryStore.GoToPreviousDay | apps/frontend/src/stores/history/historyStore.ts:84-90 | the day before the one in view becomes selected; nothing else changes |
| HistoryStore.HistoryStore.GoToNextDay | apps/frontend/src/stores/history/historyStore.ts:95-105 | nothing happens from today on; before today the day in view moves one on and stays at most today |
| HistoryStore.HistoryStore.GoToYesterday | apps/frontend/src/stores/history/historyStore.ts:110-113 | yesterday is selected, after which going forward is possible |
| HistoryStore.HistoryStore.GoToToday | apps/frontend/src/stores/history/historyStore.ts:118-120 | the selection is dropped, today is in view and going forward is impossible |
| HistoryStore.HistoryStore.CanGoForward | apps/frontend/src/stores/history/historyStore.ts:125-129 | true exactly when the day in view is before today |
| HistoryStore.HistoryStore.SetLoading | apps/frontend/src/stores/history/historyStore.ts:134-136 | only the loading flag changes |
| HistoryStore.HistoryStore.SetError | apps/frontend/src/stores/history/historyStore.ts:141-143 | only the error changes |
| HistoryStore.HistoryStore.Clear | apps/frontend/src/stores/history/historyStore.ts:148-150 | the store is back in its initial state |
| HistoryStore.NextDayMoves | apps/frontend/src/stores/history/historyStore.ts:95-129 | going forward is possible exactly when the next-day step changes the selection, and then the day in view advances by one to at most today |
| HistoryStore.NextDayNeverPastToday | apps/frontend/src/stores/history/historyStore.ts:98-104 | the next-day step never selects a day after today |
| HistoryStore.PreviousThenNext | apps/frontend/src/stores/history/historyStore.ts:84-105 | from any day up to today, a step back then a step forward returns to the same day in view |
| HistoryStore.NextDaysStopAtToday | apps/frontend/src/stores/history/historyStore.ts:95-105 | n steps forward advance the day in view by n but stop at today |
| CsvExporter.DoubleQuotes | apps/frontend/src/utils/csvExporter.ts:16 | doubling quotes never shortens the text |
| CsvExporter.EscapeCsvField | apps/frontend/src/utils/csvExporter.ts:9-17 | a missing value, and only that, becomes the empty text; any value is wrapped in double quotes |
| CsvExporter.DoubleQuotesCount | apps/frontend/src/utils/csvExporter.ts:16 | escaping adds one character per quote and leaves twice as many quotes |
| CsvExporter.CollapseDoubled | apps/frontend/src/utils/csvExporter.ts:16 | collapsing doubled quotes undoes the escaping |
| CsvExporter.EscapeRoundTrip | apps/frontend/src/utils/csvExporter.ts:9-17 | stripping the outer quotes of an escaped field and collapsing its quotes gives the value back |
| CsvExporter.QuotedAll | apps/frontend/src/utils/csvExporter.ts:36 | each cell escaped, one for one, in order |
| CsvExporter.LinesOf | apps/frontend/src/utils/csvExporter.ts:33-47 | one quoted comma-joined line per row, in order |
| CsvExporter.ParseCellQuoted | apps/frontend/src/utils/csvExporter.ts:16 | the reader takes back an escaped field up to its closing quote, leaving what follows |
| CsvExporter.ParseRowLine | apps/frontend/src/utils/csvExporter.ts:36-44 | the reader takes back the cells of one written line, stopping at the newline |
| CsvExporter.ParseDocLines | apps/frontend/src/utils/csvExporter.ts:47 | the reader takes back every row of newline-joined written lines |
| CsvExporter.KeysOf | apps/frontend/src/utils/csvExporter.ts:30 | a record's keys, in order |
| CsvExporter.Headers | apps/frontend/src/utils/csvExporter.ts:30 | the header row repeats no key |
| CsvExporter.AllKeysHas | apps/frontend/src/utils/csvExporter.ts:30 | a key occurs in the flattened key list exactly when some record has it |
| CsvExporter.Get | apps/frontend/src/utils/csvExporter.ts:41 | no value exactly when the record lacks the key; otherwise a value stored under it |
| CsvExporter.RowCells | apps/frontend/src/utils/csvExporter.ts:40-43 | one cell per header, in header order, each the text of that key's value |
| CsvExporter.DataRows | apps/frontend/src/utils/csvExporter.ts:39-45 | one row per record, in record order |
| CsvExporter.CsvTextEmpty | apps/frontend/src/utils/csvExporter.ts:25-27 | the text is empty exactly when there are no records |
| CsvExporter.CsvText | apps/frontend/src/utils/csvExporter.ts:24-48 | the text is empty exactly when there are no records |
| CsvExporter.CsvLines | apps/frontend/src/utils/csvExporter.ts:33-45 | the lines are the header line followed by the record lines |
| CsvExporter.BuildLines | apps/frontend/src/utils/csvExporter.ts:33-45 | the loop pushes the header line and then each record's line, giving exactly the specified lines |
| CsvExporter.JsonToCsv | apps/frontend/src/utils/csvExporter.ts:24-48 | the method's text is the specified CSV text, empty for no records |
| CsvExporter.HeadersExactlyOnce | apps/frontend/src/utils/csvExporter.ts:30 | the headers have no repeats and are exactly the keys some record has |
| CsvExporter.CsvReadsBack | apps/frontend/src/utils/csvExporter.ts:24-48 | reading the CSV text back gives the header row and every record's cells unchanged, commas, quotes and newlines included |
| CsvExporter.MissingKeyIsEmpty | apps/frontend/src/utils/csvExporter.ts:41-42 | a record lacking a header gets an empty quoted cell |
| CsvSummaryBuilder.DateRange | apps/frontend/src/utils/csvSummaryBuilder.ts:14-24 | 31 consecutive days ending today |
| CsvSummaryBuilder.GenerateDateRange | apps/frontend/src/utils/csvSummaryBuilder.ts:14-24 | the loop pushing today minus 30 down to 0 days gives exactly the 31-day range |
| CsvSummaryBuilder.TranslateMerged | apps/frontend/src/utils/csvSummaryBuilder.ts:38-48 | two merged statuses get the same Hebrew text exactly when they are equal or are "Not Seen" and "Partial Cover" |
| CsvSummaryBuilder.TranslateMergedStatus | apps/frontend/src/utils/csvSummaryBuilder.ts:38-48 | a text comes back unchanged exactly when it is none of the five merged statuses |
| CsvSummaryBuilder.TranslateUnknown | apps/frontend/src/utils/csvSummaryBuilder.ts:47 | a text that is no merged status is kept as it is |
| CsvSummaryBuilder.StatusText | apps/frontend/src/utils/csvSummaryBuilder.ts:76-78 | an entry's text is never empty, and is "no information" when its merged status is missing |
| CsvSummaryBuilder.DatedTexts | apps/frontend/src/utils/csvSummaryBuilder.ts:73-80 | each entry's normalised day with its text, in order |
| CsvSummaryBuilder.BuildHistoryByDate | apps/frontend/src/utils/csvSummaryBuilder.ts:70-81 | the loop setting each entry under its day gives the last-wins map of the entries |
| CsvSummaryBuilder.ObjSetGet | apps/frontend/src/utils/csvSummaryBuilder.ts:87 | after setting a column, it reads the new value and every other column reads as before |
| CsvSummaryBuilder.ObjSetKeys | apps/frontend/src/utils/csvSummaryBuilder.ts:87 | setting a column keeps the column order, appending the key when it is new |
| CsvSummaryBuilder.Localized | apps/frontend/src/utils/csvSummaryBuilder.ts:85 | each day formatted, in order |
| CsvSummaryBuilder.FillDays | apps/frontend/src/utils/csvSummaryBuilder.ts:84-88 | the loop over the days gives the row with one column set per day in order |
| CsvSummaryBuilder.BuildRow | apps/frontend/src/utils/csvSummaryBuilder.ts:63-91 | a site's row is the site column filled with the day columns of its history, or of no history |
| CsvSummaryBuilder.BuildCsvSummaryData | apps/frontend/src/utils/csvSummaryBuilder.ts:56-94 | one row per site, in site order, each the site's row over the last 31 days |
| CsvSummaryBuilder.RowFillKeys | apps/frontend/src/utils/csvSummaryBuilder.ts:84-88 | the columns are the initial ones followed by the formatted days, each once, in first-set order |
| CsvSummaryBuilder.RowFillGet | apps/frontend/src/utils/csvSummaryBuilder.ts:84-88 | with distinct formatted days, each day's column holds its cell and any other column keeps its value |
| CsvSummaryBuilder.SummaryRowShape | apps/frontend/src/utils/csvSummaryBuilder.ts:63-91 | a row has the site column then the 31 day columns in day order, holding the site's name and each day's text or "no information" |
| CsvSummaryBuilder.SiteRowKeys | apps/frontend/src/utils/csvSummaryBuilder.ts:64-88 | a row started from the site column has that column then one per formatted day |
| CsvSummaryBuilder.SiteRowCells | apps/frontend/src/utils/csvSummaryBuilder.ts:64-88 | the site column keeps its value and each day column holds the day's cell |
| CsvSummaryBuilder.NoHistoryNoInfo | apps/frontend/src/utils/csvSummaryBuilder.ts:69-86 | a site without history shows "no information" on every day |
| CsvSummaryBuilder.LastEntryOfDayWins | apps/frontend/src/utils/csvSummaryBuilder.ts:73-79 | the last entry of a day decides that day's text |
| CsvSummaryBuilder.OutsideDaysIgnored | apps/frontend/src/utils/csvSummaryBuilder.ts:84-88 | entries for days outside the grid make no difference to the row |
| StatusDisplay.GetSeenStatusDisplay | apps/frontend/src/utils/statusDisplay.ts:44-46 | a keyed status ("Not Seen", "Partial", "Seen", "Not Done") gets its own display, and any other status "Not Seen"'s |
| StatusDisplay.GetUpdatedStatusDisplay | apps/frontend/src/utils/statusDisplay.ts:52-84 | always one of the four keyed displays or the no-collection display |
| StatusDisplay.SeenStatusDisplays | apps/frontend/src/utils/statusDisplay.ts:12-33 | each of the three visit statuses shows its own display |
| StatusDisplay.MergedStatusOverrides | apps/frontend/src/utils/statusDisplay.ts:59-75 | a present merged status decides alone, whatever the coverage and visit statuses |
| StatusDisplay.MergedStatusDisplays | apps/frontend/src/utils/statusDisplay.ts:60-70 | "Not Cover" and only it shows no collection, "Seen" done, "Partial Seen" partly done, and "Not Seen" and "Partial Cover" awaiting |
| StatusDisplay.UnknownMergedStatus | apps/frontend/src/utils/statusDisplay.ts:71-73 | any other non-empty merged status shows awaiting a visit |
| StatusDisplay.CurrentStatusDisplay | apps/frontend/src/utils/statusDisplay.ts:78-83 | without a merged status, coverage "No" shows no collection and any other coverage defers to the visit status |
| StatusDisplay.DisplayPathsAgree | apps/frontend/src/utils/statusDisplay.ts:52-84 | for valid statuses, showing the merged status agrees with showing the pair except for full coverage partly seen and partial coverage seen |
| ImageMapper.FindMatch | apps/frontend/src/utils/imageMapper.ts:46 | the leftmost position where `asset/` and an id character occur, or none exactly when there is no such position |
| ImageMapper.IdRun | apps/frontend/src/utils/imageMapper.ts:46 | the greedy run of id characters: a slice of the URL, all id characters, ended by the URL's end or a non-id character |
| ImageMapper.AssetId | apps/frontend/src/utils/imageMapper.ts:46-48 | a captured id is never empty |
| ImageMapper.LocalPath | apps/frontend/src/utils/imageMapper.ts:44-52 | the result is the URL itself or one of the table's paths |
| ImageMapper.GetLocalImagePath | apps/frontend/src/utils/imageMapper.ts:44-52 | the result is the URL itself or one of the bundled paths |
| ImageMapper.GetImageUrl | apps/frontend/src/utils/imageMapper.ts:58-66 | the URL untouched when local images are not wanted, the local path otherwise |
| ImageMapper.ImagePathsNonEmpty | apps/frontend/src/utils/imageMapper.ts:6-37 | no bundled path is empty, so the `||` fallback never fires for a known id |
| ImageMapper.NoAssetUnchanged | apps/frontend/src/utils/imageMapper.ts:51 | a URL the pattern does not match comes back as it is |
| ImageMapper.LocalPathKnown | apps/frontend/src/utils/imageMapper.ts:46-49 | the id after the first match selects its path from any table mapping it to a non-empty path |
| ImageMapper.KnownAssetMapped | apps/frontend/src/utils/imageMapper.ts:46-49 | the id after the first match selects its bundled path |
| ImageMapper.UnknownAssetUnchanged | apps/frontend/src/utils/imageMapper.ts:49 | an id that is not bundled leaves the URL as it is |
| MapUtils.CollapseSingleSpaced | apps/frontend/src/utils/mapUtils.ts:12 | the whitespace collapse leaves single-spaced text unchanged |
| MapUtils.SkipSpaces | apps/frontend/src/utils/mapUtils.ts:15 | `\s*` stops at the end or at the first non-whitespace character |
| MapUtils.SkippedAreSpaces | apps/frontend/src/utils/mapUtils.ts:15 | everything `\s*` skips is whitespace |
| MapUtils.FirstClosing | apps/frontend/src/utils/mapUtils.ts:15 | the lazy group ends where the closing `))` matches |
| MapUtils.FindPolygon | apps/frontend/src/utils/mapUtils.ts:14-16 | a match yields a group that lies within the text |
| MapUtils.SplitWs | apps/frontend/src/utils/mapUtils.ts:24 | splitting on whitespace always yields at least one part |
| MapUtils.SplitWsNoSpace | apps/frontend/src/utils/mapUtils.ts:24 | text without whitespace is a single part |
| MapUtils.SplitWsPair | apps/frontend/src/utils/mapUtils.ts:24 | two words separated by one space split into exactly those two words |
| MapUtils.ParseCoords | apps/frontend/src/utils/mapUtils.ts:23-36 | one position per comma-separated token |
| MapUtils.ParseCoordsAt | apps/frontend/src/utils/mapUtils.ts:23-36 | the i-th position is read from the i-th token |
| MapUtils.ParseCoord | apps/frontend/src/utils/mapUtils.ts:23-35 | a position other than [0, 0] is always read from the first two whitespace-separated parts of the token, both of which parse as numbers |
| MapUtils.WktToGeoJson | apps/frontend/src/utils/mapUtils.ts:6-46 | a parsed polygon always has at least one position |
| MapUtils.NoPolygonThrows | apps/frontend/src/utils/mapUtils.ts:14-20 | with no `POLYGON((...))` in any letter case, the reader throws |
| MapUtils.BadTokenIsOrigin | apps/frontend/src/utils/mapUtils.ts:24-34 | a token with fewer than two parts, or a part that is not a number, becomes [0, 0] instead of failing |
| MapUtils.PosTextSingleSpaced | apps/frontend/src/utils/mapUtils.ts:12 | a written position is single-spaced, trimmed and free of `)` |
| MapUtils.BodyShape | apps/frontend/src/utils/mapUtils.ts:12-16 | a written ring body is single-spaced, trimmed and free of `)` |
| MapUtils.WrappedSingleSpaced | apps/frontend/src/utils/mapUtils.ts:12 | a single-spaced body wrapped in `POLYGON((` and `))` stays single-spaced |
| MapUtils.WrappedNormalized | apps/frontend/src/utils/mapUtils.ts:12 | trimming and collapsing whitespace leave such a wrapped text unchanged |
| MapUtils.OpeningFound | apps/frontend/src/utils/mapUtils.ts:15 | the opening of the pattern matches at the start and the group begins after `POLYGON((` |
| MapUtils.ClosingAtEnd | apps/frontend/src/utils/mapUtils.ts:15 | the closing of the pattern matches right after the body |
| MapUtils.NoClosingInside | apps/frontend/src/utils/mapUtils.ts:15 | inside a body without `)` the closing cannot match and no line terminator stops the group |
| MapUtils.ClosingFound | apps/frontend/src/utils/mapUtils.ts:15 | the lazy group ends exactly at the end of the body |
| MapUtils.WrappedReads | apps/frontend/src/utils/mapUtils.ts:12-36 | the reader finds the whole body and maps its comma-separated tokens to positions |
| MapUtils.TokenReadsBack | apps/frontend/src/utils/mapUtils.ts:23-35 | one written position, with or without the space after a comma, reads back as itself |
| MapUtils.RingToken | apps/frontend/src/utils/mapUtils.ts:23 | a written ring splits on commas into one token per position, each that position's text |
| MapUtils.TokensReadBack | apps/frontend/src/utils/mapUtils.ts:23-36 | the tokens of a written ring read back as the ring |
| MapUtils.RoundTrip | apps/frontend/src/utils/mapUtils.ts:6-46 | reading back the WKT written for a Polygon gives its outer ring unchanged |
| MapUtils.EmptyRingReadsAsOrigin | apps/frontend/src/utils/mapUtils.ts:23-28 | an empty outer ring is written as `POLYGON(())` and read back as the single position [0, 0] |
| MapUtils.GetPolygonColour | apps/frontend/src/utils/mapUtils.ts:53-109 | a listed status gets its colour, any other status Full's |
| MapUtils.ColourSpec | apps/frontend/src/utils/mapUtils.ts:60-108 | opacity 0.3 and stroke equal to fill always; red exactly for "No" and "Not Cover", green exactly for "Seen", amber exactly for "Partial Seen" |
| MapUtils.CalculateBounds | apps/frontend/src/utils/mapUtils.ts:115-131 | an empty list throws, and only it; otherwise the running min/max gives the box of all coordinates |
| MapUtils.FiniteBoundsSpec | apps/frontend/src/utils/mapUtils.ts:115-131 | the box holds every coordinate and each of its four bounds is attained by some coordinate |
| MapUtils.ReadCard | apps/frontend/src/utils/mapUtils.ts:143-150 | a card adds its outer ring when its geometry reads, and nothing exactly when it does not |
| MapUtils.CollectCoords | apps/frontend/src/utils/mapUtils.ts:140-151 | the loop pushes every card's coordinates in card order |
| MapUtils.GetConvexHullBounds | apps/frontend/src/utils/mapUtils.ts:137-158 | null exactly when no coordinate was collected, otherwise the box of all collected coordinates |
| MapUtils.CardCoordsEmpty | apps/frontend/src/utils/mapUtils.ts:143-150 | a card contributes nothing exactly when its geometry does not read |
| MapUtils.HullNullIffNoneParse | apps/frontend/src/utils/mapUtils.ts:142-155 | the hull is null exactly when no card's geometry reads |

## Left out

- Polygon geometry itself:
  - turf's `union`, `intersect`, `difference` and `area`, and `wellknown.parse`, are uninterpreted fields of `GeoOps`. Nothing is proved about the shapes they compute.
  - Areas are reals. `feature`, `featureCollection` and `area` are assumed not to throw. Only parse, union, intersect and difference failures are modelled.
- Floating point:
  - Coordinates, areas, percentages and resolutions are reals, with no NaN or rounding.
  - The 1e-9 comparisons are exact comparisons on reals.
  - Sorting by `a.resolution - b.resolution` when two candidates both lack a resolution gives `Infinity - Infinity = NaN`. The model treats that as a tie in a stable sort.
- Host libraries are parameters with no properties beyond those a lemma requires: dayjs and `Date` (formatting, parsing, "today"), `toLocaleDateString`, `parseFloat`, number-to-string, `encodeURIComponent` and `JSON.parse`.
  - Date strings are compared as the days they denote, so their text order is taken to be day order.
- JavaScript string `replace` patterns such as `$&` and `$'` in a replacement: ids are taken to contain no `$`.
- `Object.keys` listing integer-like keys first: records are ordered key lists in insertion order.
- `historyStore.updateHistoryStatus`: it is asynchronous and refetches over the network after a delay.
- The `subscribe` plumbing of the Svelte store.
- Logging everywhere.
- `downloadCsv`, `generateCsvFilename` and `formatDate` (statusDisplay.ts): they depend on the DOM, the clock or the locale.
- `getEnrichmentServiceConfig`: configuration loading.
- The copy made before sorting in the current history merge: sequences are immutable, so the caller's list cannot be reordered.
- Type-only files (`VisitCard.ts`, the `packages/common` types, `HistoryStoreState.ts`) only give the shapes of the datatypes. The fields the core never reads are dropped.
- The services, controllers, schedulers and caches around the core: HTTP, database, timers, the Express plumbing and the other Svelte stores. They are not part of this model.
- HistoryStore.PreviousThenNext: proved only from a day up to today. From a day after today the next-day step does nothing, so stepping back and forward does not return.
- CsvExporter.CsvReadsBack: proved when there is at least one record and one header. With records but no keys at all, the lines are empty and a quoted-field reader cannot tell them apart.
- CsvSummaryBuilder.SummaryRowShape: proved when the 31 formatted days are distinct and none is "site", which holds for `DD/MM/YYYY` but is not proved about the abstract `localize`.
- GeometryService.RoundTrip: proved when both numbers render as runs of digits, '.' and '-' that `parseFloat` reads back. Exponents and other renderings fall outside the `[\d.-]+` pattern.
- GeometryService.ToWktOfPolygon: stated for coordinates whose positions have two numbers or more. A shorter position writes `undefined` for the missing number, which the general `ToWkt` models but this lemma does not state.
- MapUtils.RoundTrip: proved when numbers render without whitespace, commas or parentheses and `parseFloat` reads each rendering back.
- HistoryMergeService.MergeHistoryShape: states the ascending date order only for dates that have a timestamp. The source's comparators read an invalid date as NaN, which compares as equal to everything, so its final order is then up to the sort; the model's `timeOf` gives every date a timestamp.
- HistoryMergeService.NewestVisitWins: holds only when every visit date has a timestamp. With an invalid date, NaN makes the newest-first comparator answer "equal", the `history_id` tie-break is never reached, and which visit a day keeps is up to the sort.
- HistoryMergeService.MergeHistorySpec: its ascending date order assumes every date has a timestamp, for the same NaN reason.
- GeometryBounds.Flatten: a position with fewer than two numbers, or a non-number second entry, is dropped. The source pushes it, and the box then becomes NaN, or the entry is coerced when it is a numeric string.
- CsvSummaryBuilder.TranslateMergedStatus: statuses that are names of `Object.prototype` properties ("toString", "constructor", "valueOf", "__proto__" and the like) are not modelled. The source's object-literal lookup returns the inherited property for them.
- CsvSummaryBuilder.TranslateUnknown: likewise assumes the text is not the name of an `Object.prototype` property, for which the lookup returns the inherited property instead of the text.
- StatusDisplay.GetSeenStatusDisplay: a status that names an `Object.prototype` property is not modelled; the source's `STATUS_MAP` lookup returns the inherited property instead of the awaiting display.
- StatusDisplay.GetUpdatedStatusDisplay: when it falls back to the visit status, a visit status that names an `Object.prototype` property is not modelled; the `STATUS_MAP` lookup behind that fallback returns the inherited property instead of the awaiting display.
- MapUtils.GetPolygonColour: a status that names an `Object.prototype` property is not modelled; the source's `colorMap` lookup returns the inherited property instead of Full's colour.
- MapUtils.ColourSpec: states the colours only for statuses that do not name an `Object.prototype` property, for the same reason.
- CsvExporter.Get: a key that names an `Object.prototype` property ("toString", "constructor", "valueOf", "__proto__" and the like) is not modelled. Such a key can become a header when one record owns it, and for a record that lacks it the source's `obj[header]` returns the inherited property instead of `undefined`.
- CsvExporter.RowCells: for the same keys, the source writes the text of the inherited property (such as "[object Object]") where the model writes an empty cell.
- CsvExporter.MissingKeyIsEmpty: holds for headers that do not name an `Object.prototype` property, for the same reason.
