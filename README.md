# MetricQueryService, modelled in Dafny

This project models the decision logic of MeterSphere's `MetricQueryService`. That is the
backend service that fetches performance metrics of the monitored instances of a load-test report
from a Prometheus range-query API and turns them into `MetricData` records for charting.

It has three parts:

- **Request expansion** (`getRequest` and the `monitorParams` loop of `queryMetric`). Every
  monitored `ip:port` instance becomes one `MetricDataRequest` per metric-catalogue entry. The
  requests are appended to a list owned by the caller (class `RequestList`).
- **Aggregation** (`queryMetricData`, `queryPrometheusMetric`). The end time is clamped to
  "now". Each request's PromQL template is formatted with its instance. The call fails with
  `MSException("promQL is null")` at the first empty query. Otherwise the backend is queried, and
  the normalised lists are concatenated in request order.
- **Result normalisation** (`handleResult`). A non-`success` or null response gives nothing.
  With more than one series, a label map (label name to the set of its distinct values) is built.
  A label whose value count equals the number of series is picked as the unique-label key. One
  record is emitted per series that has points.

The central proved fact is `UniqueLabel.DistinctCountIffSeparates`. A label takes N distinct
values over N series exactly when every series carries it and all N values differ. So a chosen
unique label really tells the records apart (`ResultNormalizer.UniqueLabelsDistinct`).

Modelling choices:

- **The backend.** It is a function parameter from `BackendCall` (query, start, end, step) to
  `Option<Response>`; `None` is a null body.
- **The clock.** It is a parameter `now`.
- **`DateUtils.getTimeString`.** It is a partial function `formatTime: int -> Option<string>`.
- **The `SimpleDateFormat` parse.** It is a partial function `parseTime: string -> Option<int>`.
- **The unique-label key.** The key `findFirst` returns depends on `HashMap` order. The model
  therefore returns it as a ghost out-parameter, constrained only to be a qualifying key
  (`IsUniqueLabelChoice`).
- **Backend calls.** The calls made are returned as a ghost log. This makes "no backend call"
  and the clamped end time visible.
- **Operations that change state.** They are methods with loops: `BuildLabelMap`,
  `ConvertPoints`, `EmitRecords` (the second `forEach` of `handleResult`), `GetRequest`,
  `QueryMetricData` and `QueryMetric`. Each is proved against a specification function
  (`LabelMapFor`, `FormattedTimes`, `Records`, `RequestsFor`, `Expansion`, `Aggregate` and
  `Outcome`), and the lemmas state what those mean.

Three details of the code that the model keeps:

- A value is still appended when its timestamp conversion fails. Only `timestamps.add` is inside
  the `try`, so `timestamps` can be shorter than `values` (`RecordShape`).
- Only an empty query is rejected, not a blank one.
- On a parse failure of the report's times, the request keeps whatever `MetricRequest`
  starts with (the input `initial`).

## Model

| member | source | states |
|---|---|---|
| `MetricTypes.FormatEmpty` | backend/src/main/java/io/metersphere/performance/service/MetricQueryService.java:62-63 | a formatted query is empty exactly when the template has no text and the hole (if any) gets an empty instance |
| `UniqueLabel.LabelNamesSpec` | backend/src/main/java/io/metersphere/performance/service/MetricQueryService.java:97-100 | a label name is in the label map exactly when some series carries it |
| `UniqueLabel.LabelValuesSpec` | backend/src/main/java/io/metersphere/performance/service/MetricQueryService.java:98-99 | a value is in a label's set exactly when some series carries the label with that value |
| `UniqueLabel.LabelValuesBound` | backend/src/main/java/io/metersphere/performance/service/MetricQueryService.java:98-99 | each series adds at most one value per label, so a label has at most N values over N series |
| `UniqueLabel.LabelValuesGrowth` | backend/src/main/java/io/metersphere/performance/service/MetricQueryService.java:98-99 | the last series adds one value to a label's set exactly when it carries the label with a value not seen before, and nothing otherwise |
| `UniqueLabel.FullCountForcesSeparation` | backend/src/main/java/io/metersphere/performance/service/MetricQueryService.java:104 | N distinct values over N series force every series to carry the label, with pairwise different values |
| `UniqueLabel.SeparationGivesFullCount` | backend/src/main/java/io/metersphere/performance/service/MetricQueryService.java:104 | a label every series carries with pairwise different values has exactly N values |
| `UniqueLabel.DistinctCountIffSeparates` | backend/src/main/java/io/metersphere/performance/service/MetricQueryService.java:91-104 | both directions: count equals the number of series if and only if the label separates the series |
| `UniqueLabel.QualifiesIffSeparates` | backend/src/main/java/io/metersphere/performance/service/MetricQueryService.java:91-104 | a label passes the `findFirst` filter if and only if there is more than one series and the label separates them |
| `UniqueLabel.LabelMapStep` | backend/src/main/java/io/metersphere/performance/service/MetricQueryService.java:97-100 | one series' pass over its labels turns the label map of the series before it into the label map including it |
| `UniqueLabel.BuildLabelMap` | backend/src/main/java/io/metersphere/performance/service/MetricQueryService.java:85-102 | the nested loops leave the label map empty for at most one series, and otherwise equal to every label's set of distinct values |
| `UniqueLabel.ChooseUniqueLabelKey` | backend/src/main/java/io/metersphere/performance/service/MetricQueryService.java:104 | the key returned has a set of exactly N values; none is returned only when no label has N values |
| `ResultNormalizer.FormattedTimesLength` | backend/src/main/java/io/metersphere/performance/service/MetricQueryService.java:114-123 | at most one timestamp per point; one per point exactly when no conversion fails, and then in point order |
| `ResultNormalizer.EmittedIndicesSpec` | backend/src/main/java/io/metersphere/performance/service/MetricQueryService.java:125-131 | the emitted series are exactly those with points, in increasing backend order |
| `ResultNormalizer.RecordsFollowSeries` | backend/src/main/java/io/metersphere/performance/service/MetricQueryService.java:106-133 | record j is built from the j-th series that has points, so records keep the backend's order |
| `ResultNormalizer.RecordShape` | backend/src/main/java/io/metersphere/performance/service/MetricQueryService.java:107-129 | a record carries the given name and instance and one value per point in order; it has no more timestamps than values, and as many exactly when no conversion fails |
| `ResultNormalizer.NormalizeTags` | backend/src/main/java/io/metersphere/performance/service/MetricQueryService.java:125-131 | every returned record has the given series name and instance and a non-empty value list |
| `ResultNormalizer.UniqueLabelsDistinct` | backend/src/main/java/io/metersphere/performance/service/MetricQueryService.java:104-130 | with a chosen key, each record's `uniqueLabel` is its own series' value of the key, and those values are pairwise distinct |
| `ResultNormalizer.NoUniqueLabel` | backend/src/main/java/io/metersphere/performance/service/MetricQueryService.java:91-130 | with at most one series, or no separating label, no key is chosen and no record has a `uniqueLabel` |
| `ResultNormalizer.SeparatingLabelIsChosen` | backend/src/main/java/io/metersphere/performance/service/MetricQueryService.java:104 | with more than one series and a separating label, some separating key is always chosen |
| `ResultNormalizer.TwoSeriesKey` | backend/src/main/java/io/metersphere/performance/service/MetricQueryService.java:91-104 | two series that both carry a label with different values (e.g. `instance`) and agree on every other label they share: that label is the only possible key |
| `ResultNormalizer.TwoSeriesRecords` | backend/src/main/java/io/metersphere/performance/service/MetricQueryService.java:106-133 | with that key, two records in order, each carrying the series name and instance, its own series' label value, and its own series' point values in order |
| `ResultNormalizer.ConvertPoints` | backend/src/main/java/io/metersphere/performance/service/MetricQueryService.java:114-123 | the points loop yields the successfully converted timestamps and every point's value, in order |
| `ResultNormalizer.SeriesRecord` | backend/src/main/java/io/metersphere/performance/service/MetricQueryService.java:107-132 | a series with points gives exactly one record (its name, instance, converted timestamps, values and key value); a series without points gives none |
| `ResultNormalizer.EmitRecords` | backend/src/main/java/io/metersphere/performance/service/MetricQueryService.java:106-133 | the second `forEach` emits the records of the series with points, in series order |
| `ResultNormalizer.HandleResult` | backend/src/main/java/io/metersphere/performance/service/MetricQueryService.java:82-139 | a null or non-`success` response gives the empty list; otherwise the records of the series with points, tagged with a qualifying key's values |
| `RequestExpansion.RequestList.constructor` | backend/src/main/java/io/metersphere/performance/service/MetricQueryService.java:151 | the request list starts empty |
| `RequestExpansion.RequestsForEntries` | backend/src/main/java/io/metersphere/performance/service/MetricQueryService.java:178-185 | one request per catalogue entry, carrying that entry's template and name and the instance, in catalogue order |
| `RequestExpansion.GetRequest` | backend/src/main/java/io/metersphere/performance/service/MetricQueryService.java:175-186 | getRequest appends the instance's requests and leaves the earlier list entries unchanged |
| `RequestExpansion.ExpansionStep` | backend/src/main/java/io/metersphere/performance/service/MetricQueryService.java:152-156 | one more monitor appends exactly its own requests after those of the monitors before it |
| `RequestExpansion.ExpansionAppend` | backend/src/main/java/io/metersphere/performance/service/MetricQueryService.java:152-156 | expanding two monitor lists in turn gives the two expansions in turn |
| `RequestExpansion.ExpansionLength` | backend/src/main/java/io/metersphere/performance/service/MetricQueryService.java:152-156 | there are (monitors × catalogue entries) requests |
| `RequestExpansion.ExpansionBlocks` | backend/src/main/java/io/metersphere/performance/service/MetricQueryService.java:152-156 | the requests form consecutive blocks, one per monitor in order, each being that monitor's requests |
| `RequestExpansion.ExpandedInstancesHaveColon` | backend/src/main/java/io/metersphere/performance/service/MetricQueryService.java:154 | every expanded instance is `ip:port` and so contains ':' |
| `MetricQueryService.ClampEnd` | backend/src/main/java/io/metersphere/performance/service/MetricQueryService.java:53-58 | the effective end is at most now and at most the requested end, equal to one of them, and equal to the requested end when that is not in the future |
| `MetricQueryService.ClampEndAsWritten` | backend/src/main/java/io/metersphere/performance/service/MetricQueryService.java:54-58 | with two clock readings the end is at most the later reading, and it equals `ClampEnd` when both readings agree |
| `MetricQueryService.ClampEndAsWrittenExceedsRequest` | backend/src/main/java/io/metersphere/performance/service/MetricQueryService.java:54-55 | when the clock passes the requested end between the two readings, the end sent is later than the end requested |
| `MetricQueryService.QueryPrometheusMetric` | backend/src/main/java/io/metersphere/performance/service/MetricQueryService.java:74-80 | one backend call with the given window; a null or non-`success` response gives the empty list; every record carries the given name and instance and at least one value; the list is handleResult's under a qualifying key |
| `MetricQueryService.QueryMetricData` | backend/src/main/java/io/metersphere/performance/service/MetricQueryService.java:48-71 | no query list gives an empty result and no call; it fails, always with `promQL is null`, exactly when some request formats to the empty query. Calls are made in order with the clamped end up to the first empty query, and on success the result is the concatenation of the normalised lists |
| `MetricQueryService.FailsIffEmptyQuery` | backend/src/main/java/io/metersphere/performance/service/MetricQueryService.java:60-68 | queryMetricData fails if and only if some request's formatted query is empty |
| `MetricQueryService.CallsUseClampedWindow` | backend/src/main/java/io/metersphere/performance/service/MetricQueryService.java:50-66 | with the clock read once as `now`, every backend call has the unadjusted start, the step, and an end neither after `now` nor past the requested end |
| `MetricQueryService.KeysForSpec` | backend/src/main/java/io/metersphere/performance/service/MetricQueryService.java:60-68 | the recorded keys are, request by request, keys handleResult may choose for that request's response (both directions) |
| `MetricQueryService.AggregateStep` | backend/src/main/java/io/metersphere/performance/service/MetricQueryService.java:60-68 | one more request appends exactly its own normalised list after the aggregate so far |
| `MetricQueryService.AggregateAppend` | backend/src/main/java/io/metersphere/performance/service/MetricQueryService.java:60-68 | aggregating two request lists in turn gives the two aggregates in turn, so request order is kept |
| `MetricQueryService.AggregateProvenance` | backend/src/main/java/io/metersphere/performance/service/MetricQueryService.java:60-68 | every aggregated record carries the series name and instance of some request |
| `MetricQueryService.QueryMetric` | backend/src/main/java/io/metersphere/performance/service/MetricQueryService.java:141-173 | absent `monitorParams` gives the empty result and no call; it fails, always with `promQL is null`, exactly when some expanded request formats to the empty query; otherwise queryMetricData runs on the expanded requests, with the report window only when both ends parse |
| `MetricQueryService.EmptyMonitorListIssuesNoCalls` | backend/src/main/java/io/metersphere/performance/service/MetricQueryService.java:148-172 | an empty monitor list gives the empty result and no backend call |
| `MetricQueryService.NonEmptyCatalogueNeverFails` | backend/src/main/java/io/metersphere/performance/service/MetricQueryService.java:152-172 | with no empty hole-free template in the catalogue, queryMetric never fails and makes one call per (monitor, entry) pair |
| `MetricQueryService.ExpansionTemplatesFromCatalogue` | backend/src/main/java/io/metersphere/performance/service/MetricQueryService.java:180-181 | every expanded request's template is one of the catalogue's templates |

## Left out

- The HTTP GET through `RestTemplate` and the hard-coded Prometheus host. The backend is a function parameter. A transport failure is not modelled.
- The `DecimalFormat("#.###")` rendering of start and end as fractional seconds. The backend call receives the millisecond values; the conversion is floating point and depends on locale.
- The report and test lookups through the mappers, and `reportService.getReportTimeInfo`. These are foreign collaborators; their results (the monitor list and the two time strings) are inputs.
- fastjson parsing of `advancedConfiguration` and of the response. Typed datatypes replace it: an absent `metric` object is an empty map. A null label value, and a `getDouble` failure on a malformed point, are library behaviour and not modelled.
- Floating point. Sample values are `real` and are only copied. Timestamps are whole seconds, and `(long)(timestamp * 1000)` is modelled as `seconds * 1000` without `long` overflow.
- `DateUtils.getTimeString` and `SimpleDateFormat.parse`. They are the partial-function parameters `formatTime` and `parseTime`.
- The iteration order of `HashMap` in `findFirst`. The model allows any qualifying key. So normalising the same response twice gives the same records only for the same key choice.
- `MetricQuery.getMetricQueryMap` is not part of this model. The catalogue is a given sequence of (series name, template) pairs in key-set order.
- Templates other than "one `%s`" or "no specifier" are not modelled: more than one `%s`, other format specifiers, or a null template. For these `String.format` throws or rewrites the text.
- `MetricRequest` is not part of this model. Its initial field values are the input `initial`, and `queryMetric` never sets the step.
- `Monitor` is not part of this model. Its port is taken in its rendered text form.
- Logging, `printStackTrace`, and the Spring annotations and transaction.
- `MetricQueryService.ClampEnd`: reads the clock once, which is stronger than the code's two readings. See Findings; the code as written is `ClampEndAsWritten`.
- `MetricQueryService.QueryMetricData`: clamps the end with one clock reading (`ClampEnd`), and so do `QueryMetric` and `CallsUseClampedWindow`, which build on it. So `c.end <= req.endTime` holds of every call in the model. It does not hold of the code when the clock passes the requested end between its two reads (see Findings and `ClampEndAsWritten`).
- `MetricQueryService.CallsUseClampedWindow`: states `c.end <= req.endTime` for the single clock reading `now`. The code reads the clock twice and can send an end past the requested one (see Findings).

## Findings

| source | as written | input that shows it | evidently intended | confidence | as-written member | corrected member |
|---|---|---|---|---|---|---|
| backend/src/main/java/io/metersphere/performance/service/MetricQueryService.java:54-55 | `System.currentTimeMillis()` is read once for the test and again for the value | requested end 1001; the clock reads 1000 at the test and 1002 at the assignment; the end sent is 1002, later than requested | end = min(requested end, one clock reading) | not executed; needs the clock to tick between the two calls | `MetricQueryService.ClampEndAsWritten` (with `ClampEndAsWrittenExceedsRequest`) | `MetricQueryService.ClampEnd` |
