# Exoplanet analysis records — a Dafny model

ExoVision's backend stores the results of exoplanet transit analyses. A client posts an
analysis request. It holds five physical inputs, a probability, five model metrics, a
classification and a confidence level, with an optional chart-data JSON document.

The service copies the request into a JPA entity and encodes the chart data as text.
The database assigns the id, and the `@PrePersist` callback stamps the creation time.
Records are read back as responses, with the chart data parsed again. They can be listed
one page at a time, filtered by classification, confidence level or minimum probability,
and deleted one at a time, as a list, or all at once.

The model has these parts:

- `Wrappers`: `Option`, `Result` and `Outcome`.
- `ChartData`: an abstract JSON value and codec. The Jackson round-trip law is the predicate
  `RoundTrips(codec)`. It appears as a precondition only where a property depends on it.
- `Fields`: the thirteen data fields shared by request, entity and response. Every field is
  an `Option`, because every Java field is a nullable boxed type.
- `Request`: the request DTO and its Bean Validation constraints. There is a validity
  predicate and the per-field error messages.
- `Entity`: the mutable entity class with its `onCreate` callback, and the `Row` value the
  table holds.
- `Query`: the finders' `WHERE` criteria, `ORDER BY` on one property, and a stable
  insertion sort.
- `Paging`: `PageRequest.of` with the lookup of the sort property, Spring's `Page` with `totalPages`,
  `hasNext`, `isFirst` and `isLast`, page slicing, and `Page.map`.
- `Repository`: the table as a value (`Table`), and the store as a class (`AnalysisStore`)
  whose methods change the table in place. It also holds the pure derived finders and the
  count.
- `Service`: the service class over a store and a codec.
- `Scenarios`: the outcomes the repository's own tests assert, proved for the model.

Decisions that shape the model:

- Numbers are `real`, because the code only compares them.
- Ids are `int`, assigned by an identity counter that starts at 1 and is never reset.
- `LocalDateTime.now()` is the parameter `now`.
- The table is scanned in ascending id order. Sorting is stable, so equal keys keep that
  order, and `NULL` sorts lowest.
- Each service call is one atomic step.

Facts about the program that the model keeps:

- Validation runs in the controller (`@Valid`), not in the service, so
  `Service.AnalysisService.Save` accepts any request. `Request.Valid` and
  `Request.FieldErrors` state what the controller checks.
- Classification and confidence level need only be present. Any string is accepted,
  the empty one included.
- The store's `deleteById` returns nothing and ignores a missing id. The service's
  `deleteById` checks existence first and fails with not-found when the id is missing,
  so `Service.AnalysisService.DeleteById` returns an `Outcome`.
- The service's own finders filter on one field at a time. The store also offers
  `findByClassificationAndConfidenceLevel`, `findByDateRange`,
  `findHighConfidenceExoplanets` and `countByClassification`, and all of them are
  modelled.

## Model

| member | source | states |
|---|---|---|
| ChartData.EncodeChartData | src/main/java/org/hkt/backend/service/ExoplanetAnalysisService.java:32-40 | absent chart data is stored as a null column; present chart data is stored as its encoding; an encoding failure yields a failure, not a value |
| ChartData.DecodeChartData | src/main/java/org/hkt/backend/service/ExoplanetAnalysisService.java:138-145 | a null column reads as absent; stored text reads as whatever the codec parses, and absent when it does not parse; decoding never fails |
| ChartData.ChartDataRoundTrip | src/main/java/org/hkt/backend/service/ExoplanetAnalysisService.java:32-40 | under the codec's round-trip law, decoding what the save path stored gives back the request's chart data, absent or present |
| ChartData.CorruptChartDataReadsAbsent | src/main/java/org/hkt/backend/service/ExoplanetAnalysisService.java:140-144 | stored text the codec rejects reads as absent chart data |
| Request.Valid | src/main/java/org/hkt/backend/dto/ExoplanetAnalysisRequest.java:20-78 | the eight `@NotNull` fields are present, probability lies in [0, 100] and each present metric in [0, 1]; its meaning is pinned by the lemmas below |
| Request.Violation | src/main/java/org/hkt/backend/dto/ExoplanetAnalysisRequest.java:20-78 | the message of the annotation a field breaks, or none; a null probability reports only "Probability is required" |
| Request.FieldNamed | src/main/java/org/hkt/backend/controller/ExoplanetAnalysisController.java:181-186 | a field found under a name has exactly that property name |
| Request.FieldNamedInverse | src/main/java/org/hkt/backend/controller/ExoplanetAnalysisController.java:181-186 | every field is found again under its own property name, so the error map's keys name one field each |
| Request.FieldErrors | src/main/java/org/hkt/backend/dto/ExoplanetAnalysisRequest.java:20-78 | the error map, keyed by property name as the controller's map is, has a key exactly for each field whose constraint fails, each value is that annotation's message, and every key names a failing field |
| Request.ValidIffNoViolation | src/main/java/org/hkt/backend/dto/ExoplanetAnalysisRequest.java:20-78 | the validity predicate holds exactly when no field reports a violation (both directions) |
| Request.ValidIffNoFieldErrors | src/main/java/org/hkt/backend/dto/ExoplanetAnalysisRequest.java:20-78 | a request is valid exactly when validation reports no failing field |
| Request.MissingRequiredIsInvalid | src/main/java/org/hkt/backend/dto/ExoplanetAnalysisRequest.java:21-41 | any of the eight `@NotNull` fields being null makes the request invalid, and that field is reported |
| Request.ProbabilityBoundsInclusive | src/main/java/org/hkt/backend/dto/ExoplanetAnalysisRequest.java:40-44 | with everything else valid, a probability is accepted exactly when it lies in [0, 100], both ends included; above 100 it is reported with "Probability must be between 0 and 100" |
| Request.MetricBoundsInclusive | src/main/java/org/hkt/backend/dto/ExoplanetAnalysisRequest.java:46-69 | each of accuracy, F1 score, precision, recall and false-positive rate is accepted exactly when it lies in [0, 1], both ends included |
| Request.OptionalFieldsNeverInvalidate | src/main/java/org/hkt/backend/dto/ExoplanetAnalysisRequest.java:46-81 | removing every metric and the chart data keeps a valid request valid |
| Request.LabelsCheckedOnlyForPresence | src/main/java/org/hkt/backend/dto/ExoplanetAnalysisRequest.java:71-78 | any classification and confidence-level strings, including empty ones, keep a valid request valid |
| Request.PhysicalFieldsUnconstrained | src/main/java/org/hkt/backend/dto/ExoplanetAnalysisRequest.java:20-38 | any present values of the five physical inputs keep a valid request valid |
| Entity.ExoplanetAnalysis.constructor | src/main/java/org/hkt/backend/entity/ExoplanetAnalysis.java:13-66 | a built entity carries the given data fields and chart-data text, with id and creation time still null |
| Entity.ExoplanetAnalysis.OnCreate | src/main/java/org/hkt/backend/entity/ExoplanetAnalysis.java:68-71 | the callback sets the creation time and changes no other field |
| Entity.ExoplanetAnalysis.AsRow | src/main/java/org/hkt/backend/entity/ExoplanetAnalysis.java:19-66 | a persisted entity reads back as a row with its id, data fields, verbatim chart-data text and creation time |
| Query.Matches | src/main/java/org/hkt/backend/repository/ExoplanetAnalysisRepository.java:17-46 | the `WHERE` clause of each finder: equality on the labels, `>=` on probability and accuracy (a null never qualifies), and `BETWEEN` inclusive at both ends on the creation time |
| Query.Filter | src/main/java/org/hkt/backend/repository/ExoplanetAnalysisRepository.java:17-46 | a row is in the result exactly when it is in the input and meets the criterion; the result is no longer than the input and keeps increasing ids increasing |
| Query.TextLeTotal | src/main/java/org/hkt/backend/repository/ExoplanetAnalysisRepository.java:15 | lexicographic order on strings is total |
| Query.TextLeTransitive | src/main/java/org/hkt/backend/repository/ExoplanetAnalysisRepository.java:15 | lexicographic order on strings is transitive |
| Query.KeyLeTotal | src/main/java/org/hkt/backend/repository/ExoplanetAnalysisRepository.java:15 | the `ORDER BY` comparison of column values, with nulls first, is total |
| Query.KeyLeTransitive | src/main/java/org/hkt/backend/repository/ExoplanetAnalysisRepository.java:15 | the `ORDER BY` comparison of column values is transitive |
| Query.PrecedesTotal | src/main/java/org/hkt/backend/repository/ExoplanetAnalysisRepository.java:15 | for one property and direction, of any two rows one may come first |
| Query.PrecedesTransitive | src/main/java/org/hkt/backend/repository/ExoplanetAnalysisRepository.java:15 | for one property and direction, the order on rows is transitive |
| Query.Insert | src/main/java/org/hkt/backend/repository/ExoplanetAnalysisRepository.java:15 | inserting a row into a sorted sequence keeps it sorted and adds exactly that row |
| Query.SortRows | src/main/java/org/hkt/backend/repository/ExoplanetAnalysisRepository.java:15 | the sorted result is ordered by the property and direction, and is a permutation of the input |
| Query.Ordered | src/main/java/org/hkt/backend/repository/ExoplanetAnalysisRepository.java:15 | ordering keeps the same rows with the same multiplicities, and sorts them when a sort is requested |
| Paging.Decapitalize | src/main/java/org/hkt/backend/controller/ExoplanetAnalysisController.java:74-75 | a sort name is read with its first letter lower-cased unless its first two letters are capitals; the rest of the name is kept |
| Paging.PropertyNamed | src/main/java/org/hkt/backend/controller/ExoplanetAnalysisController.java:68-75 | a found property has exactly the requested name; when none is found, no property has that name |
| Paging.PageRequestOf | src/main/java/org/hkt/backend/controller/ExoplanetAnalysisController.java:74-75 | a page request with a resolved sort is obtained exactly when the index is non-negative, the size is at least one and the sort name, first letter lower-cased, names a property; it carries those values; otherwise the matching error is given |
| Paging.PropertyNamedInverse | src/main/java/org/hkt/backend/controller/ExoplanetAnalysisController.java:74-75 | every entity property is found again under its own name |
| Paging.NameStartsSmall | src/main/java/org/hkt/backend/entity/ExoplanetAnalysis.java:19-66 | every entity property name starts with a small letter that is not followed by a capital |
| Paging.DecapitalizeUndoesCapitalize | src/main/java/org/hkt/backend/controller/ExoplanetAnalysisController.java:74-75 | such a name reads as itself, with or without a capitalised first letter |
| Paging.SortNameFirstLetterCase | src/main/java/org/hkt/backend/controller/ExoplanetAnalysisController.java:74-75 | every property can be named as declared or with a capitalised first letter, and both give the same sort |
| Paging.PageOf | src/main/java/org/hkt/backend/repository/ExoplanetAnalysisRepository.java:15 | page p of size s holds the results at positions [p·s, min((p+1)·s, n)), with the index, size and total count n |
| Paging.MapPage | src/main/java/org/hkt/backend/service/ExoplanetAnalysisService.java:83 | mapping a page transforms each element in place and keeps its length, index, size, total, page count and next-page flag |
| Paging.Page.TotalPages | src/main/java/org/hkt/backend/service/ExoplanetAnalysisService.java:77-84 | the page count, the ceiling of total / size (see `Paging.TotalPagesIsCeiling`) |
| Paging.Page.HasNext | src/main/java/org/hkt/backend/service/ExoplanetAnalysisService.java:77-84 | a next page exists exactly when the following index is below the page count |
| Paging.Page.IsFirst | src/main/java/org/hkt/backend/service/ExoplanetAnalysisService.java:77-84 | the page is the first exactly when its index is 0 |
| Paging.Page.IsLast | src/main/java/org/hkt/backend/service/ExoplanetAnalysisService.java:77-84 | the page is the last exactly when no next page exists |
| Paging.TotalPagesIsCeiling | src/main/java/org/hkt/backend/repository/ExoplanetAnalysisRepository.java:15 | the page count is the ceiling of total / size, and is zero exactly when there are no results |
| Paging.PageNonEmptyIff | src/main/java/org/hkt/backend/repository/ExoplanetAnalysisRepository.java:15 | a page has content exactly when its index is below the page count |
| Paging.PagesUpToIsPrefix | src/main/java/org/hkt/backend/repository/ExoplanetAnalysisRepository.java:15 | the contents of pages 0 to k-1, laid end to end, are the first min(k·size, n) results |
| Paging.PagesPartitionResults | src/main/java/org/hkt/backend/repository/ExoplanetAnalysisRepository.java:15 | walking all pages yields every result exactly once, in order |
| Paging.FifteenResultsTwoPages | src/test/java/org/hkt/backend/repository/ExoplanetAnalysisRepositoryTest.java:122-145 | fifteen results at size 10: ten on page 0, two pages, page 0 first with a next page, and five on the last page |
| Paging.ThreeResultsOnePage | src/test/java/org/hkt/backend/controller/ExoplanetAnalysisControllerE2ETest.java:120-142 | three results at size 10 fit on the single page 0, with no next page |
| Repository.RowsInExact | src/main/java/org/hkt/backend/repository/ExoplanetAnalysisRepository.java:15 | a scan of an id range holds exactly the stored rows in that range, in increasing id order |
| Repository.ListingExact | src/main/java/org/hkt/backend/repository/ExoplanetAnalysisRepository.java:15 | a full table scan holds every stored row once and nothing else |
| Repository.IdsOf | src/main/java/org/hkt/backend/repository/ExoplanetAnalysisRepository.java:15 | an id is in the set exactly when some row of the sequence has it |
| Repository.DistinctIdsCount | src/main/java/org/hkt/backend/repository/ExoplanetAnalysisRepository.java:15 | a sequence with strictly increasing ids has as many rows as distinct ids |
| Repository.FilterCountsMatches | src/main/java/org/hkt/backend/repository/ExoplanetAnalysisRepository.java:17-46 | the number of rows a scan selects is the number of stored rows meeting the criterion |
| Repository.Matching | src/main/java/org/hkt/backend/repository/ExoplanetAnalysisRepository.java:15-39 | a query's full result holds exactly the stored rows meeting the criterion, each once, in the requested order |
| Repository.Select | src/main/java/org/hkt/backend/repository/ExoplanetAnalysisRepository.java:15-39 | a page of a query: total equals the number of matches, content is the requested slice of the ordered matches, and each item is stored and matches |
| Repository.CountEverything | src/main/java/org/hkt/backend/repository/ExoplanetAnalysisRepository.java:15 | every row meets the empty criterion, so findAll's total is the row count |
| Repository.FindAll | src/main/java/org/hkt/backend/repository/ExoplanetAnalysisRepository.java:15 | the total is the number of stored rows; every item is stored; the page has the sliced length and the requested order; the page is exactly the requested slice of the query's ordered result (`Repository.Select`) |
| Repository.FindByClassification | src/main/java/org/hkt/backend/repository/ExoplanetAnalysisRepository.java:18 | total equals the number of rows with that classification; every item is stored and has it; the requested order holds; the page is exactly the requested slice of the query's ordered result (`Repository.Select`) |
| Repository.FindByConfidenceLevel | src/main/java/org/hkt/backend/repository/ExoplanetAnalysisRepository.java:21 | total equals the number of rows with that confidence level; every item is stored and has it; the page is exactly the requested slice of the query's ordered result (`Repository.Select`) |
| Repository.FindByClassificationAndConfidenceLevel | src/main/java/org/hkt/backend/repository/ExoplanetAnalysisRepository.java:35-39 | every item has both labels, and the total counts the rows with both; the page is exactly the requested slice of the query's ordered result (`Repository.Select`) |
| Repository.FindByProbabilityGreaterThanEqual | src/main/java/org/hkt/backend/repository/ExoplanetAnalysisRepository.java:24 | every item has a probability at or above the threshold (a null never qualifies); the total counts those rows; the requested order holds; the page is exactly the requested slice of the query's ordered result (`Repository.Select`) |
| Repository.FindByDateRange | src/main/java/org/hkt/backend/repository/ExoplanetAnalysisRepository.java:26-32 | every item was created between the two instants, both ends included; an inverted range yields nothing; the page is exactly the requested slice of the query's ordered result (`Repository.Select`) |
| Repository.EmptyDateRange | src/main/java/org/hkt/backend/repository/ExoplanetAnalysisRepository.java:27 | when the end instant precedes the start, no row falls in the range |
| Repository.FindHighConfidenceExoplanets | src/main/java/org/hkt/backend/repository/ExoplanetAnalysisRepository.java:41-46 | a row is returned exactly when it is stored with probability and accuracy at or above the thresholds; rows with a null in either column are excluded |
| Repository.CountByClassification | src/main/java/org/hkt/backend/repository/ExoplanetAnalysisRepository.java:51-52 | the count equals the number of stored rows with that classification |
| Repository.RemainingCount | src/main/java/org/hkt/backend/repository/ExoplanetAnalysisRepository.java:48-49 | removing a set of ids leaves as many rows as were stored minus those of them that were stored |
| Repository.FilterEverything | src/main/java/org/hkt/backend/repository/ExoplanetAnalysisRepository.java:15 | the empty criterion keeps every row |
| Repository.AnalysisStore.constructor | src/main/java/org/hkt/backend/entity/ExoplanetAnalysis.java:19-21 | a new store is empty, and its identity counter starts at 1 |
| Repository.AnalysisStore.Save | src/main/java/org/hkt/backend/entity/ExoplanetAnalysis.java:19-71 | saving a new entity assigns an id no row had, stamps the creation time, keeps the data fields, updates the entity in place, adds exactly that one row and changes no other row |
| Repository.AnalysisStore.ExistsById | src/main/java/org/hkt/backend/repository/ExoplanetAnalysisRepository.java:15 | true exactly when a row has that id |
| Repository.AnalysisStore.FindById | src/main/java/org/hkt/backend/repository/ExoplanetAnalysisRepository.java:15 | the stored row under that id, or none exactly when there is no such row |
| Repository.AnalysisStore.Count | src/main/java/org/hkt/backend/repository/ExoplanetAnalysisRepository.java:15 | the number of rows, which is also the length of a full scan |
| Repository.AnalysisStore.DeleteById | src/main/java/org/hkt/backend/repository/ExoplanetAnalysisRepository.java:15 | removes the row with that id if there is one; no other row changes |
| Repository.AnalysisStore.DeleteAllById | src/main/java/org/hkt/backend/repository/ExoplanetAnalysisRepository.java:15 | deleting id by id removes exactly the listed ids, ignores unknown ones, and leaves every unlisted row unchanged |
| Repository.AnalysisStore.DeleteByIdIn | src/main/java/org/hkt/backend/repository/ExoplanetAnalysisRepository.java:48-49 | removes exactly the listed ids; no remaining row changes |
| Repository.AnalysisStore.DeleteAll | src/main/java/org/hkt/backend/repository/ExoplanetAnalysisRepository.java:15 | the table is left empty, and the identity counter is kept |
| Service.IntToString | src/main/java/org/hkt/backend/service/ExoplanetAnalysisService.java:71 | the decimal form of an id, with a minus sign when negative, as string concatenation prints a `Long` |
| Service.ServiceError.Message | src/main/java/org/hkt/backend/service/ExoplanetAnalysisService.java:38-92 | "Failed to process chart data" for an encoding failure, and "Exoplanet analysis not found with id: " followed by the id for a missing record |
| Service.NatToStringDenotes | src/main/java/org/hkt/backend/service/ExoplanetAnalysisService.java:71 | an id is printed as a non-empty string of decimal digits that denotes it |
| Service.SignShown | src/main/java/org/hkt/backend/service/ExoplanetAnalysisService.java:71 | a printed id starts with a minus sign exactly when it is negative |
| Service.NatToStringInjective | src/main/java/org/hkt/backend/service/ExoplanetAnalysisService.java:71 | two non-negative ids that print the same are equal |
| Service.IntToStringInjective | src/main/java/org/hkt/backend/service/ExoplanetAnalysisService.java:71 | two ids that print the same are equal |
| Service.NotFoundMessageNamesId | src/main/java/org/hkt/backend/service/ExoplanetAnalysisService.java:71-92 | the not-found message ends in "not found with id: " followed by the id, and names exactly one id |
| Service.MapToResponse | src/main/java/org/hkt/backend/service/ExoplanetAnalysisService.java:137-165 | id, every data field and the creation time are copied verbatim; the chart data is the decoded column, and absent when the column is null |
| Service.CorruptChartDataKeepsRecord | src/main/java/org/hkt/backend/service/ExoplanetAnalysisService.java:139-163 | unparseable chart data gives a response with absent chart data and every other field intact |
| Service.MappedRowsStored | src/main/java/org/hkt/backend/service/ExoplanetAnalysisService.java:116-135 | each response of a page mapped from stored rows keeps its row's fields and is the mapped stored row under its id |
| Service.AnalysisService.constructor | src/main/java/org/hkt/backend/service/ExoplanetAnalysisService.java:19-26 | the service uses the given store and codec |
| Service.AnalysisService.Save | src/main/java/org/hkt/backend/service/ExoplanetAnalysisService.java:29-63 | the save fails exactly when chart data is present and cannot be encoded, leaving the store unchanged; otherwise exactly one row is added under a fresh id, holding the request's fields and encoded chart data with creation time `now`; the response carries that id and is what findById then returns; under the codec law its chart data equals the request's |
| Service.AnalysisService.FindById | src/main/java/org/hkt/backend/service/ExoplanetAnalysisService.java:65-75 | fails with not-found for that id exactly when no row has it; otherwise gives the mapped stored row |
| Service.AnalysisService.FindAll | src/main/java/org/hkt/backend/service/ExoplanetAnalysisService.java:77-84 | the store's page mapped element by element, with length, order, index, size and page count kept; the total is the row count |
| Service.AnalysisService.FindByClassification | src/main/java/org/hkt/backend/service/ExoplanetAnalysisService.java:116-121 | the store's filtered page mapped element by element; every response has the classification; the total counts the matches |
| Service.AnalysisService.FindByConfidenceLevel | src/main/java/org/hkt/backend/service/ExoplanetAnalysisService.java:123-128 | the store's filtered page mapped element by element; every response has the confidence level; the total counts the matches |
| Service.AnalysisService.FindByProbability | src/main/java/org/hkt/backend/service/ExoplanetAnalysisService.java:130-135 | the store's filtered page mapped element by element; every response's probability is at least the minimum; the total counts the matches |
| Service.AnalysisService.DeleteById | src/main/java/org/hkt/backend/service/ExoplanetAnalysisService.java:86-97 | passes exactly when the id was stored and then removes only that row; otherwise fails with not-found and the store is unchanged; afterwards findById reports not-found |
| Service.AnalysisService.DeleteByIds | src/main/java/org/hkt/backend/service/ExoplanetAnalysisService.java:99-105 | removes exactly the listed ids, ignores unknown ones, keeps every unlisted row unchanged, and leaves the stored count minus the listed ids that were stored |
| Service.AnalysisService.DeleteAll | src/main/java/org/hkt/backend/service/ExoplanetAnalysisService.java:107-114 | the store is left empty, with count 0, the identity counter is kept, and every findById reports not-found |
| Scenarios.ProbabilityFinderScenario | src/test/java/org/hkt/backend/repository/ExoplanetAnalysisRepositoryTest.java:99-118 | with probabilities 95.8, 75.5 and 25.3, threshold 70 and highest first, the page holds the two qualifying rows, the higher one first, on a single page |
| Scenarios.QualifyingRowsHighestFirst | src/test/java/org/hkt/backend/repository/ExoplanetAnalysisRepositoryTest.java:112-117 | the full ordered result of that query is the 95.8 row followed by the 75.5 row |
| Scenarios.TwoQualify | src/test/java/org/hkt/backend/repository/ExoplanetAnalysisRepositoryTest.java:71-75 | when two of three stored rows meet a criterion, the match count is 2 |
| Scenarios.TwoInOrder | src/test/java/org/hkt/backend/repository/ExoplanetAnalysisRepositoryTest.java:117 | a sorted pair in which only one row can come first lists that row first |
| Scenarios.ClassificationFinderScenario | src/test/java/org/hkt/backend/repository/ExoplanetAnalysisRepositoryTest.java:58-77 | two of three rows "Confirmed Exoplanet": the page holds both of them and not the third, and the total is 2 |
| Scenarios.BatchDeleteScenario | src/test/java/org/hkt/backend/controller/ExoplanetAnalysisControllerE2ETest.java:255-272 | three records saved through the service, then the first two deleted by id: both are reported not found, the third is found with its saved fields, and the count is 1 |
| Scenarios.FirstSaveScenario | src/test/java/org/hkt/backend/service/ExoplanetAnalysisServiceTest.java:48-67 | the first save into an empty store gets id 1 and is found again; id 2 is not found; the save fails only when the chart data cannot be encoded |

## Left out

- The controller: HTTP routing, status codes, the `@Valid` trigger, and turning errors into responses. Validation is modelled as `Request.Valid` and `Request.FieldErrors` on their own.
- The Jackson JSON grammar and the `ObjectMapper` itself. The codec is a pair of abstract functions, and its round-trip law is a stated assumption (`ChartData.RoundTrips`).
- JPA and H2 query execution, transactions, first-level cache flushing, and the snake/camel naming conversion. Each service call is one atomic step.
- `LocalDateTime.now()`: the creation time is the parameter `now`.
- IEEE-754 `Double` behaviour (NaN, rounding): numbers are `real`.
- `Long` width: ids are unbounded integers, so the identity counter never wraps.
- Logging, including the `count()` call in `deleteAll`. That call only feeds a log line and has no effect on the result.
- `Repository.AnalysisStore.Save`: requires a new entity (no id). This matches every caller in the service. JPA's merge path for an entity that already has an id is not modelled.
- `saveAll`, `setId` and the other Lombok setters: only tests use them.
- `Query.TextLe`: strings are compared character by character. The database's collation is not modelled.
- `Query.SortRows`: rows with equal sort keys keep their scan (id) order. The database leaves that order unspecified, so the model fixes one legal choice.
- `Paging.PageRequestOf`: the sort name is resolved when the page request is built. Spring resolves it when the query runs, so an unknown name fails the listing call before any row is returned instead of failing inside `PageRequest.of`. Nested property paths (`a.b`) and non-ASCII capital letters are not modelled.
- Null elements and null arguments: the model's `deleteByIds` takes a list of integers and its finders take a string or a number, so two null cases are not covered. A null id inside the `deleteByIds` list makes the store's `deleteById` throw, which fails and rolls back the whole call. A null label in a derived finder becomes an `IS NULL` test. The controller never passes a null label or threshold: labels come from the path and `minProbability` is a required parameter.
- `Sort.Direction.fromString`: the direction arrives already parsed. Parsing and rejecting a direction string is left to the controller.
- The response DTO's JSON shape and the Swagger configuration.
