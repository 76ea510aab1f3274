/**
  The values MetricQueryService works on: the Prometheus range-query response
  (typed instead of fastjson objects), the metric catalogue and the requests
  built from it, and the MetricData records it returns.
 */
module MetricTypes {
  import opened Wrappers

  /** One `[timestamp, value]` pair of a series' `values` array. The timestamp
      is kept as whole seconds and the value as an opaque number. */
  datatype Point = Point(seconds: int, value: real)

  /** One element of `data.result`: its `metric` label set (an absent or empty
      `metric` object is the empty map) and its `values` array. */
  datatype Series = Series(metric: map<string, string>, values: seq<Point>)

  /** A range-query response: its `status` and its `data.result` array. */
  datatype Response = Response(status: string, result: seq<Series>)

  /** One normalised series (MetricData): `uniqueLabel` is None when it was never set. */
  datatype MetricData = MetricData(
    seriesName: string,
    instance: string,
    uniqueLabel: Option<string>,
    timestamps: seq<string>,
    values: seq<real>)

  /** A PromQL template as `String.format` sees it: either one `%s` hole
      between a prefix and a suffix, or no hole at all. */
  datatype Template = Hole(prefix: string, suffix: string) | Plain(text: string)

  /** `String.format(template, instance)` for the two template shapes: the hole
      is replaced by the instance; a template without a hole comes back unchanged. */
  function Format(t: Template, instance: string): string
  {
    match t
    case Hole(prefix, suffix) => prefix + instance + suffix
    case Plain(text) => text
  }

  /** A formatted query is empty exactly when nothing went into it. */
  lemma FormatEmpty(t: Template, instance: string)
    ensures Format(t, instance) == "" <==>
      (t.Hole? && t.prefix == "" && t.suffix == "" && instance == "") || t == Plain("")
  {
    if t.Hole? {
      assert |Format(t, instance)| == |t.prefix| + |instance| + |t.suffix|;
    }
  }

  /** One entry of the metric catalogue: a series name and its PromQL template. */
  datatype CatalogueEntry = CatalogueEntry(seriesName: string, template: Template)

  /** MetricDataRequest: the unformatted template, the series name and the instance. */
  datatype MetricDataRequest = MetricDataRequest(promQL: Template, seriesName: string, instance: string)

  /** MetricRequest: the query list (None when it was never set) and the time window. */
  datatype MetricRequest = MetricRequest(
    queries: Option<seq<MetricDataRequest>>,
    startTime: int,
    endTime: int,
    step: int)

  /** One entry of `monitorParams`; the port is taken in its rendered text form. */
  datatype Monitor = Monitor(ip: string, port: string)

  /** The exception `MSException.throwException` raises. */
  datatype MetricError = MSException(message: string)

  /** The arguments of one range query sent to the backend. */
  datatype BackendCall = BackendCall(promQL: string, start: int, end: int, step: int)
}
