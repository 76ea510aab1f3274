/**
  MetricQueryService: the end-time clamp, one range query per request
  (queryPrometheusMetric), the aggregation over all requests
  (queryMetricData) and the report-level driver (queryMetric).
  The backend is a function from the query's arguments to a response
  (None for a null body); the clock reading `now` is a parameter.
  Line numbers in the comments below refer to
  backend/src/main/java/io/metersphere/performance/service/MetricQueryService.java.
 */
module MetricQueryService {
  import opened Wrappers
  import opened MetricTypes
  import opened UniqueLabel
  import opened ResultNormalizer
  import opened RequestExpansion
  import opened Sequences

  /** The end time sent to the backend: the requested end, or `now` when the
      requested end lies in the future; the smaller of the two. */
  function ClampEnd(endTime: int, now: int): (r: int)
    ensures r <= now && r <= endTime
    ensures r == endTime || r == now
    ensures endTime <= now ==> r == endTime
  {
    if endTime > now then now else endTime
  }

  /** Lines 54-58 as written: the clock is read once for the comparison
      (`nowAtTest`) and a second time for the value (`nowAtAssign`). */
  function ClampEndAsWritten(endTime: int, nowAtTest: int, nowAtAssign: int): (r: int)
    requires nowAtTest <= nowAtAssign
    ensures r <= nowAtAssign
    ensures nowAtTest == nowAtAssign ==> r == ClampEnd(endTime, nowAtTest)
  {
    if endTime > nowAtTest then nowAtAssign else endTime
  }

  /** When the clock moves past the requested end between the two readings,
      the end time sent is later than the one requested. */
  lemma ClampEndAsWrittenExceedsRequest(endTime: int, nowAtTest: int, nowAtAssign: int)
    requires nowAtTest < endTime < nowAtAssign
    ensures ClampEndAsWritten(endTime, nowAtTest, nowAtAssign) > endTime
  {
  }

  /** The backend call made for request `q`. */
  function CallOf(q: MetricDataRequest, startTime: int, endTime: int, step: int): BackendCall
  {
    BackendCall(Format(q.promQL, q.instance), startTime, endTime, step)
  }

  /** The backend calls made for `qs`, in order. */
  function Calls(qs: seq<MetricDataRequest>, startTime: int, endTime: int, step: int): seq<BackendCall>
  {
    seq(|qs|, i requires 0 <= i < |qs| => CallOf(qs[i], startTime, endTime, step))
  }

  /** What handleResult returns for each request, in request order, `keys[i]`
      being the unique-label key chosen for request `i`. */
  function Parts(qs: seq<MetricDataRequest>, startTime: int, endTime: int, step: int,
                 backend: BackendCall -> Option<Response>, formatTime: int -> Option<string>,
                 keys: seq<Option<string>>): (parts: seq<seq<MetricData>>)
    requires |keys| == |qs|
    ensures |parts| == |qs|
  {
    seq(|qs|, i requires 0 <= i < |qs| =>
      Normalize(qs[i].seriesName, qs[i].instance, backend(CallOf(qs[i], startTime, endTime, step)), keys[i], formatTime))
  }

  /** The concatenation, in request order, of what handleResult returns for
      each request. */
  function Aggregate(qs: seq<MetricDataRequest>, startTime: int, endTime: int, step: int,
                     backend: BackendCall -> Option<Response>, formatTime: int -> Option<string>,
                     keys: seq<Option<string>>): seq<MetricData>
    requires |keys| == |qs|
  {
    Concat(Parts(qs, startTime, endTime, step, backend, formatTime, keys))
  }

  /** `keys` holds, per request, a key handleResult may choose for its response.
      It is defined one request at a time, like the loop that records the keys,
      so that the loop proof unfolds one step only; KeysForSpec shows it is the
      request-by-request statement. */
  ghost predicate KeysFor(qs: seq<MetricDataRequest>, startTime: int, endTime: int, step: int,
                          backend: BackendCall -> Option<Response>, keys: seq<Option<string>>)
    decreases |qs|
  {
    && |keys| == |qs|
    && (qs != [] ==>
         && KeysFor(qs[..|qs| - 1], startTime, endTime, step, backend, keys[..|keys| - 1])
         && KeyFor(backend(CallOf(qs[|qs| - 1], startTime, endTime, step)), keys[|keys| - 1]))
  }

  /** KeysFor says, request by request, that the key is one handleResult may
      choose for that request's response. */
  lemma {:induction false} KeysForSpec(qs: seq<MetricDataRequest>, startTime: int, endTime: int, step: int,
                                       backend: BackendCall -> Option<Response>, keys: seq<Option<string>>)
    requires |keys| == |qs|
    ensures KeysFor(qs, startTime, endTime, step, backend, keys) <==>
      forall i :: 0 <= i < |qs| ==> KeyFor(backend(CallOf(qs[i], startTime, endTime, step)), keys[i])
    decreases |qs|
  {
    if qs != [] {
      var n := |qs|;
      var p, pk := qs[..n - 1], keys[..n - 1];
      KeysForSpec(p, startTime, endTime, step, backend, pk);
      if KeysFor(qs, startTime, endTime, step, backend, keys) {
        forall i | 0 <= i < n
          ensures KeyFor(backend(CallOf(qs[i], startTime, endTime, step)), keys[i])
        {
          if i < n - 1 {
            assert p[i] == qs[i] && pk[i] == keys[i];
          }
        }
      }
      if forall i :: 0 <= i < n ==> KeyFor(backend(CallOf(qs[i], startTime, endTime, step)), keys[i]) {
        forall i | 0 <= i < n - 1
          ensures KeyFor(backend(CallOf(p[i], startTime, endTime, step)), pk[i])
        {
          assert p[i] == qs[i] && pk[i] == keys[i];
        }
      }
    }
  }

  /** One more request with a key its response allows keeps KeysFor. */
  lemma KeysForStep(qs: seq<MetricDataRequest>, i: int, startTime: int, endTime: int, step: int,
                    backend: BackendCall -> Option<Response>, keys: seq<Option<string>>, key: Option<string>)
    requires 0 <= i < |qs|
    requires KeysFor(qs[..i], startTime, endTime, step, backend, keys)
    requires KeyFor(backend(CallOf(qs[i], startTime, endTime, step)), key)
    ensures KeysFor(qs[..i + 1], startTime, endTime, step, backend, keys + [key])
  {
    assert qs[..i + 1][..i] == qs[..i] && (keys + [key])[..|keys|] == keys;
  }

  /** Some request of `qs` formats to the empty query. */
  predicate HasEmptyQuery(qs: seq<MetricDataRequest>)
  {
    exists i :: 0 <= i < |qs| && Format(qs[i].promQL, qs[i].instance) == ""
  }

  /** When a call was made for every request and no call has an empty query,
      no request formats to the empty query. */
  lemma NoEmptyQueryCalled(qs: seq<MetricDataRequest>, startTime: int, endTime: int, step: int,
                           calls: seq<BackendCall>)
    requires calls == Calls(qs, startTime, endTime, step)
    requires forall c :: c in calls ==> c.promQL != ""
    ensures !HasEmptyQuery(qs)
  {
    forall i | 0 <= i < |qs|
      ensures Format(qs[i].promQL, qs[i].instance) != ""
    {
      assert calls[i] in calls;
    }
  }

  /** What the loop of queryMetricData does with the request list `qs` and
      the window (`startTime`, `endTime`, `step`):
      - it calls the backend for the requests in order, as long as their
        formatted query is not empty;
      - it fails with MSException("promQL is null") at the first request whose
        formatted query is empty;
      - when there is none, it returns the concatenation of the normalised
        responses in request order. */
  ghost predicate RunOutcome(qs: seq<MetricDataRequest>, startTime: int, endTime: int, step: int,
                             backend: BackendCall -> Option<Response>, formatTime: int -> Option<string>,
                             res: Result<seq<MetricData>, MetricError>,
                             calls: seq<BackendCall>, keys: seq<Option<string>>)
  {
    && |calls| <= |qs|
    && calls == Calls(qs[..|calls|], startTime, endTime, step)
    && (forall c :: c in calls ==> c.promQL != "")
    && match res
       case Failure(e) =>
         |calls| < |qs| && Format(qs[|calls|].promQL, qs[|calls|].instance) == ""
         && e == MSException("promQL is null")
       case Success(list) =>
         |calls| == |qs| && KeysFor(qs, startTime, endTime, step, backend, keys)
         && list == Aggregate(qs, startTime, endTime, step, backend, formatTime, keys)
  }

  /** What queryMetricData does with `req`: with no query list, it returns the
      empty list and calls nothing; otherwise it runs the requests with the
      unadjusted start, the clamped end and the step. */
  ghost predicate Outcome(req: MetricRequest, now: int, backend: BackendCall -> Option<Response>,
                          formatTime: int -> Option<string>, res: Result<seq<MetricData>, MetricError>,
                          calls: seq<BackendCall>, keys: seq<Option<string>>)
  {
    match req.queries
    case None => res == Success([]) && calls == []
    case Some(qs) =>
      RunOutcome(qs, req.startTime, ClampEnd(req.endTime, now), req.step, backend, formatTime, res, calls, keys)
  }

  /** queryMetricData fails exactly when some request's formatted query is empty. */
  lemma FailsIffEmptyQuery(req: MetricRequest, now: int, backend: BackendCall -> Option<Response>,
                           formatTime: int -> Option<string>, res: Result<seq<MetricData>, MetricError>,
                           calls: seq<BackendCall>, keys: seq<Option<string>>)
    requires Outcome(req, now, backend, formatTime, res, calls, keys)
    requires req.queries.Some?
    ensures res.Failure? <==>
      exists i :: 0 <= i < |req.queries.value| && Format(req.queries.value[i].promQL, req.queries.value[i].instance) == ""
  {
    var qs := req.queries.value;
    var endTime := ClampEnd(req.endTime, now);
    forall i | 0 <= i < |calls|
      ensures Format(qs[i].promQL, qs[i].instance) != ""
    {
      assert calls[i] == CallOf(qs[..|calls|][i], req.startTime, endTime, req.step);
      assert calls[i] in calls;
    }
    if res.Failure? {
      assert Format(qs[|calls|].promQL, qs[|calls|].instance) == "";
    }
  }

  /** Every backend call has the requested start and step, and an end that is
      neither in the future nor later than the requested end. */
  lemma CallsUseClampedWindow(req: MetricRequest, now: int, backend: BackendCall -> Option<Response>,
                              formatTime: int -> Option<string>, res: Result<seq<MetricData>, MetricError>,
                              calls: seq<BackendCall>, keys: seq<Option<string>>)
    requires Outcome(req, now, backend, formatTime, res, calls, keys)
    ensures forall c :: c in calls ==>
      c.start == req.startTime && c.step == req.step && c.end <= now && c.end <= req.endTime &&
      (req.endTime <= now ==> c.end == req.endTime)
  {
  }

  /** One more request adds its backend call at the end. */
  lemma CallsStep(qs: seq<MetricDataRequest>, i: int, startTime: int, endTime: int, step: int)
    requires 0 <= i < |qs|
    ensures Calls(qs[..i + 1], startTime, endTime, step)
      == Calls(qs[..i], startTime, endTime, step) + [CallOf(qs[i], startTime, endTime, step)]
  {
    var lhs := Calls(qs[..i + 1], startTime, endTime, step);
    var rhs := Calls(qs[..i], startTime, endTime, step) + [CallOf(qs[i], startTime, endTime, step)];
    assert |lhs| == |rhs|;
    forall j | 0 <= j < |lhs|
      ensures lhs[j] == rhs[j]
    {
      if j < i {
        assert qs[..i + 1][j] == qs[..i][j];
      }
    }
  }

  /** The parts of one request list followed by another are the two lists of
      parts one after the other. */
  lemma PartsAppend(qs1: seq<MetricDataRequest>, qs2: seq<MetricDataRequest>,
                    startTime: int, endTime: int, step: int,
                    backend: BackendCall -> Option<Response>, formatTime: int -> Option<string>,
                    keys1: seq<Option<string>>, keys2: seq<Option<string>>)
    requires |keys1| == |qs1| && |keys2| == |qs2|
    ensures Parts(qs1 + qs2, startTime, endTime, step, backend, formatTime, keys1 + keys2)
      == Parts(qs1, startTime, endTime, step, backend, formatTime, keys1)
         + Parts(qs2, startTime, endTime, step, backend, formatTime, keys2)
  {
    var lhs := Parts(qs1 + qs2, startTime, endTime, step, backend, formatTime, keys1 + keys2);
    var rhs := Parts(qs1, startTime, endTime, step, backend, formatTime, keys1)
      + Parts(qs2, startTime, endTime, step, backend, formatTime, keys2);
    forall i | 0 <= i < |lhs|
      ensures lhs[i] == rhs[i]
    {
      if i < |qs1| {
        assert (qs1 + qs2)[i] == qs1[i] && (keys1 + keys2)[i] == keys1[i];
      } else {
        assert (qs1 + qs2)[i] == qs2[i - |qs1|] && (keys1 + keys2)[i] == keys2[i - |qs1|];
      }
    }
  }

  /** One more request adds its normalised response at the end. */
  lemma AggregateStep(qs: seq<MetricDataRequest>, i: int, startTime: int, endTime: int, step: int,
                      backend: BackendCall -> Option<Response>, formatTime: int -> Option<string>,
                      keys: seq<Option<string>>, key: Option<string>)
    requires 0 <= i < |qs| && |keys| == i
    ensures Aggregate(qs[..i + 1], startTime, endTime, step, backend, formatTime, keys + [key])
      == Aggregate(qs[..i], startTime, endTime, step, backend, formatTime, keys)
         + Normalize(qs[i].seriesName, qs[i].instance, backend(CallOf(qs[i], startTime, endTime, step)), key, formatTime)
  {
    var ps := Parts(qs[..i + 1], startTime, endTime, step, backend, formatTime, keys + [key]);
    assert qs[..i + 1][..i] == qs[..i];
    assert ps[..i] == Parts(qs[..i], startTime, endTime, step, backend, formatTime, keys);
  }

  /** Aggregating two request lists one after the other gives the two
      aggregates one after the other: the result keeps request order. */
  lemma AggregateAppend(qs1: seq<MetricDataRequest>, qs2: seq<MetricDataRequest>,
                        startTime: int, endTime: int, step: int,
                        backend: BackendCall -> Option<Response>,
                        formatTime: int -> Option<string>,
                        keys1: seq<Option<string>>, keys2: seq<Option<string>>)
    requires |keys1| == |qs1| && |keys2| == |qs2|
    ensures Aggregate(qs1 + qs2, startTime, endTime, step, backend, formatTime, keys1 + keys2)
      == Aggregate(qs1, startTime, endTime, step, backend, formatTime, keys1)
         + Aggregate(qs2, startTime, endTime, step, backend, formatTime, keys2)
  {
    PartsAppend(qs1, qs2, startTime, endTime, step, backend, formatTime, keys1, keys2);
    ConcatAppend(Parts(qs1, startTime, endTime, step, backend, formatTime, keys1),
                 Parts(qs2, startTime, endTime, step, backend, formatTime, keys2));
  }

  /** Every aggregated record comes from some request: it carries that
      request's series name and instance. */
  lemma AggregateProvenance(qs: seq<MetricDataRequest>, startTime: int, endTime: int, step: int,
                            backend: BackendCall -> Option<Response>,
                            formatTime: int -> Option<string>, keys: seq<Option<string>>)
    requires |keys| == |qs|
    ensures forall d :: d in Aggregate(qs, startTime, endTime, step, backend, formatTime, keys) ==>
      exists i :: 0 <= i < |qs| && d.seriesName == qs[i].seriesName && d.instance == qs[i].instance
  {
    var parts := Parts(qs, startTime, endTime, step, backend, formatTime, keys);
    forall d: MetricData | d in Concat(parts)
      ensures exists i :: 0 <= i < |qs| && d.seriesName == qs[i].seriesName && d.instance == qs[i].instance
    {
      ConcatMember(parts, d);
      var i :| 0 <= i < |qs| && d in parts[i];
      NormalizeTags(qs[i].seriesName, qs[i].instance, backend(CallOf(qs[i], startTime, endTime, step)), keys[i], formatTime);
    }
  }

  /** queryPrometheusMetric (lines 74-80): one backend call, then handleResult. */
  method QueryPrometheusMetric(promQL: string, seriesName: string, startTime: int, endTime: int, step: int,
                               instance: string, backend: BackendCall -> Option<Response>,
                               formatTime: int -> Option<string>)
    returns (list: seq<MetricData>, ghost key: Option<string>)
    ensures !IsSuccess(backend(BackendCall(promQL, startTime, endTime, step))) ==> list == []
    ensures forall d :: d in list ==> d.seriesName == seriesName && d.instance == instance && |d.values| > 0
    ensures KeyFor(backend(BackendCall(promQL, startTime, endTime, step)), key)
    ensures list == Normalize(seriesName, instance, backend(BackendCall(promQL, startTime, endTime, step)), key, formatTime)
  {
    var response := backend(BackendCall(promQL, startTime, endTime, step));
    list, key := HandleResult(seriesName, response, instance, formatTime);
    NormalizeTags(seriesName, instance, response, key, formatTime);
  }

  /** queryMetricData (lines 48-71). The backend calls made and the keys
      chosen are returned as ghosts. */
  method QueryMetricData(metricRequest: MetricRequest, now: int, backend: BackendCall -> Option<Response>,
                         formatTime: int -> Option<string>)
    returns (res: Result<seq<MetricData>, MetricError>, ghost calls: seq<BackendCall>, ghost keys: seq<Option<string>>)
    ensures metricRequest.queries.None? ==> res == Success([])
    ensures res.Failure? <==> metricRequest.queries.Some? && HasEmptyQuery(metricRequest.queries.value)
    ensures res.Failure? ==> res.error == MSException("promQL is null")
    ensures Outcome(metricRequest, now, backend, formatTime, res, calls, keys)
  {
    var metricDataList := [];
    calls, keys := [], [];
    var endTime := metricRequest.endTime;
    var startTime := metricRequest.startTime;
    var step := metricRequest.step;
    var reliableEndTime := ClampEnd(endTime, now);
    if metricRequest.queries.None? {
      return Success(metricDataList), calls, keys;
    }
    var queries := metricRequest.queries.value;
    var i := 0;
    while i < |queries|
      invariant 0 <= i <= |queries|
      invariant |keys| == i
      invariant calls == Calls(queries[..i], startTime, reliableEndTime, step)
      invariant forall c :: c in calls ==> c.promQL != ""
      invariant KeysFor(queries[..i], startTime, reliableEndTime, step, backend, keys)
      invariant metricDataList == Aggregate(queries[..i], startTime, reliableEndTime, step, backend, formatTime, keys)
    {
      var query := queries[i];
      var promQL := Format(query.promQL, query.instance);
      if promQL == "" {
        assert query == queries[i];
        return Failure(MSException("promQL is null")), calls, keys;
      }
      ghost var call := BackendCall(promQL, startTime, reliableEndTime, step);
      var list;
      ghost var key;
      list, key := QueryPrometheusMetric(promQL, query.seriesName, startTime, reliableEndTime, step,
                                         query.instance, backend, formatTime);
      CallsStep(queries, i, startTime, reliableEndTime, step);
      AggregateStep(queries, i, startTime, reliableEndTime, step, backend, formatTime, keys, key);
      KeysForStep(queries, i, startTime, reliableEndTime, step, backend, keys, key);
      calls := calls + [call];
      keys := keys + [key];
      metricDataList := metricDataList + list;
      i := i + 1;
    }
    assert queries[..|queries|] == queries;
    NoEmptyQueryCalled(queries, startTime, reliableEndTime, step, calls);
    res := Success(metricDataList);
  }

  /** The request queryMetric hands to queryMetricData (lines 159-170): the
      expanded query list, and the report's window only when both of its ends
      parse; otherwise the times `initial` (a fresh MetricRequest) carries. */
  function BuiltRequest(initial: MetricRequest, queries: seq<MetricDataRequest>, startText: string,
                        endText: string, parseTime: string -> Option<int>): MetricRequest
  {
    var req := initial.(queries := Some(queries));
    match (parseTime(startText), parseTime(endText))
    case (Some(startTime), Some(endTime)) => req.(startTime := startTime, endTime := endTime)
    case _ => req
  }

  /** queryMetric (lines 141-173) once the report, its test and its time
      strings have been looked up: no monitor list gives the empty result and
      no backend call; otherwise every monitor's requests are expanded in
      order and handed to queryMetricData. */
  method QueryMetric(monitorParams: Option<seq<Monitor>>, catalogue: seq<CatalogueEntry>,
                     initial: MetricRequest, startText: string, endText: string,
                     parseTime: string -> Option<int>, now: int,
                     backend: BackendCall -> Option<Response>, formatTime: int -> Option<string>)
    returns (res: Result<seq<MetricData>, MetricError>, ghost calls: seq<BackendCall>, ghost keys: seq<Option<string>>)
    ensures monitorParams.None? ==> res == Success([])
    ensures res.Failure? <==> monitorParams.Some? && HasEmptyQuery(Expansion(catalogue, monitorParams.value))
    ensures res.Failure? ==> res.error == MSException("promQL is null")
    ensures monitorParams.None? ==> calls == []
    ensures monitorParams.Some? ==>
      Outcome(BuiltRequest(initial, Expansion(catalogue, monitorParams.value), startText, endText, parseTime),
              now, backend, formatTime, res, calls, keys)
  {
    if monitorParams.None? {
      return Success([]), [], [];
    }
    var monitors := monitorParams.value;
    var list := new RequestList();
    for i := 0 to |monitors|
      invariant list.items == Expansion(catalogue, monitors[..i])
    {
      ExpansionStep(catalogue, monitors, i);
      var instance := monitors[i].ip + ":" + monitors[i].port;
      GetRequest(catalogue, instance, list);
    }
    assert monitors[..|monitors|] == monitors;
    var metricRequest := initial.(queries := Some(list.items));
    match (parseTime(startText), parseTime(endText)) {
      case (Some(startTime), Some(endTime)) =>
        metricRequest := metricRequest.(startTime := startTime, endTime := endTime);
      case _ =>
    }
    res, calls, keys := QueryMetricData(metricRequest, now, backend, formatTime);
  }

  /** A catalogue without an empty hole-free template never makes queryMetric
      fail: every expanded instance is non-empty, so a template with a hole
      never formats to the empty string. */
  lemma NonEmptyCatalogueNeverFails(monitors: seq<Monitor>, catalogue: seq<CatalogueEntry>,
                                    initial: MetricRequest, startText: string, endText: string,
                                    parseTime: string -> Option<int>, now: int,
                                    backend: BackendCall -> Option<Response>, formatTime: int -> Option<string>,
                                    res: Result<seq<MetricData>, MetricError>,
                                    calls: seq<BackendCall>, keys: seq<Option<string>>)
    requires forall j :: 0 <= j < |catalogue| ==> catalogue[j].template != Plain("")
    requires Outcome(BuiltRequest(initial, Expansion(catalogue, monitors), startText, endText, parseTime),
                     now, backend, formatTime, res, calls, keys)
    ensures res.Success?
    ensures |calls| == |monitors| * |catalogue|
  {
    var req := BuiltRequest(initial, Expansion(catalogue, monitors), startText, endText, parseTime);
    var qs := Expansion(catalogue, monitors);
    assert req.queries == Some(qs);
    ExpandedInstancesHaveColon(catalogue, monitors);
    ExpansionLength(catalogue, monitors);
    forall i | 0 <= i < |qs|
      ensures Format(qs[i].promQL, qs[i].instance) != ""
    {
      FormatEmpty(qs[i].promQL, qs[i].instance);
      assert qs[i] in qs;
      assert qs[i].promQL != Plain("") by {
        ExpansionTemplatesFromCatalogue(catalogue, monitors, qs[i]);
      }
    }
    FailsIffEmptyQuery(req, now, backend, formatTime, res, calls, keys);
  }

  /** An empty monitor list gives the empty result and no backend call. */
  lemma EmptyMonitorListIssuesNoCalls(catalogue: seq<CatalogueEntry>, initial: MetricRequest,
                                      startText: string, endText: string,
                                      parseTime: string -> Option<int>, now: int,
                                      backend: BackendCall -> Option<Response>, formatTime: int -> Option<string>,
                                      res: Result<seq<MetricData>, MetricError>,
                                      calls: seq<BackendCall>, keys: seq<Option<string>>)
    requires Outcome(BuiltRequest(initial, Expansion(catalogue, []), startText, endText, parseTime),
                     now, backend, formatTime, res, calls, keys)
    ensures res == Success([]) && calls == []
  {
    assert BuiltRequest(initial, Expansion(catalogue, []), startText, endText, parseTime).queries == Some([]);
  }

  /** Every expanded request's template is one of the catalogue's. */
  lemma ExpansionTemplatesFromCatalogue(catalogue: seq<CatalogueEntry>, monitors: seq<Monitor>,
                                       q: MetricDataRequest)
    requires q in Expansion(catalogue, monitors)
    ensures exists j :: 0 <= j < |catalogue| && q.promQL == catalogue[j].template
  {
    var blocks := Blocks(catalogue, monitors);
    ConcatMember(blocks, q);
    var i :| 0 <= i < |blocks| && q in blocks[i];
    RequestsForEntries(catalogue, InstanceOf(monitors[i]));
    var j :| 0 <= j < |blocks[i]| && blocks[i][j] == q;
    assert q.promQL == catalogue[j].template;
  }
}
