/**
  handleResult: turns one range-query response into MetricData records, one
  per series that has points, tagged with the series name, the instance and,
  when a unique-label key was found, that label's value.
  Line numbers in the comments below refer to
  backend/src/main/java/io/metersphere/performance/service/MetricQueryService.java.
 */
module ResultNormalizer {
  import opened Wrappers
  import opened MetricTypes
  import opened UniqueLabel

  /** The timestamps of `points` whose conversion succeeds, in order; a point
      whose conversion fails contributes no timestamp. */
  function FormattedTimes(points: seq<Point>, formatTime: int -> Option<string>): seq<string>
    decreases |points|
  {
    if points == [] then []
    else
      var p := points[|points| - 1];
      FormattedTimes(points[..|points| - 1], formatTime)
        + (match formatTime(p.seconds * 1000) case Some(t) => [t] case None => [])
  }

  /** No timestamp conversion of `points` fails. */
  predicate AllTimesConvert(points: seq<Point>, formatTime: int -> Option<string>)
  {
    forall j :: 0 <= j < |points| ==> formatTime(points[j].seconds * 1000).Some?
  }

  /** There is at most one timestamp per point, and exactly one per point
      precisely when no conversion fails; then the j-th timestamp is the j-th
      point's. */
  lemma {:induction false} FormattedTimesLength(points: seq<Point>, formatTime: int -> Option<string>)
    ensures |FormattedTimes(points, formatTime)| <= |points|
    ensures |FormattedTimes(points, formatTime)| == |points| <==> AllTimesConvert(points, formatTime)
    ensures AllTimesConvert(points, formatTime) ==>
      forall j :: 0 <= j < |points| ==>
        FormattedTimes(points, formatTime)[j] == formatTime(points[j].seconds * 1000).value
    decreases |points|
  {
    if points != [] {
      var n := |points|;
      var prefix := points[..n - 1];
      FormattedTimesLength(prefix, formatTime);
      if AllTimesConvert(points, formatTime) {
        assert AllTimesConvert(prefix, formatTime) by {
          forall j | 0 <= j < n - 1
            ensures formatTime(prefix[j].seconds * 1000).Some?
          {
            assert prefix[j] == points[j];
          }
        }
        forall j | 0 <= j < n
          ensures FormattedTimes(points, formatTime)[j] == formatTime(points[j].seconds * 1000).value
        {
          if j < n - 1 {
            assert prefix[j] == points[j];
          }
        }
      }
      if |FormattedTimes(points, formatTime)| == n {
        assert formatTime(points[n - 1].seconds * 1000).Some?;
        assert |FormattedTimes(prefix, formatTime)| == n - 1;
        forall j | 0 <= j < n
          ensures formatTime(points[j].seconds * 1000).Some?
        {
          if j < n - 1 {
            assert prefix[j] == points[j];
          }
        }
      }
    }
  }

  /** The label value line 130 attaches: the series' value for the chosen key,
      or nothing when no key was chosen or the series does not carry it. */
  function LabelOf(s: Series, key: Option<string>): Option<string>
  {
    match key
    case Some(k) => if k in s.metric then Some(s.metric[k]) else None
    case None => None
  }

  /** The record built for one series. */
  function Record(seriesName: string, instance: string, s: Series, key: Option<string>,
                  formatTime: int -> Option<string>): MetricData
  {
    MetricData(seriesName, instance, LabelOf(s, key), FormattedTimes(s.values, formatTime),
               seq(|s.values|, j requires 0 <= j < |s.values| => s.values[j].value))
  }

  /** The records of `rs` in order, skipping series without points. */
  function Records(seriesName: string, instance: string, rs: seq<Series>, key: Option<string>,
                   formatTime: int -> Option<string>): seq<MetricData>
    decreases |rs|
  {
    if rs == [] then []
    else
      var s := rs[|rs| - 1];
      Records(seriesName, instance, rs[..|rs| - 1], key, formatTime)
        + (if |s.values| > 0 then [Record(seriesName, instance, s, key, formatTime)] else [])
  }

  /** Whether handleResult looks at the response at all. */
  predicate IsSuccess(response: Option<Response>)
  {
    response.Some? && response.value.status == "success"
  }

  /** What handleResult returns for `response` once `key` has been chosen. */
  function Normalize(seriesName: string, instance: string, response: Option<Response>,
                     key: Option<string>, formatTime: int -> Option<string>): seq<MetricData>
  {
    if IsSuccess(response) then Records(seriesName, instance, response.value.result, key, formatTime)
    else []
  }

  /** `key` is a choice handleResult may make for `response`. */
  ghost predicate KeyFor(response: Option<Response>, key: Option<string>)
  {
    IsSuccess(response) ==> IsUniqueLabelChoice(response.value.result, key)
  }

  /** The indices of the series of `rs` that have points, in increasing order. */
  function EmittedIndices(rs: seq<Series>): seq<int>
    decreases |rs|
  {
    if rs == [] then []
    else EmittedIndices(rs[..|rs| - 1]) + (if |rs[|rs| - 1].values| > 0 then [|rs| - 1] else [])
  }

  /** The emitted indices are exactly the series with points, strictly increasing. */
  lemma {:induction false} EmittedIndicesSpec(rs: seq<Series>)
    ensures forall j :: 0 <= j < |EmittedIndices(rs)| ==>
      0 <= EmittedIndices(rs)[j] < |rs| && |rs[EmittedIndices(rs)[j]].values| > 0
    ensures forall j1, j2 :: 0 <= j1 < j2 < |EmittedIndices(rs)| ==>
      EmittedIndices(rs)[j1] < EmittedIndices(rs)[j2]
    ensures forall i :: 0 <= i < |rs| && |rs[i].values| > 0 ==> i in EmittedIndices(rs)
    decreases |rs|
  {
    if rs != [] {
      var n := |rs|;
      var p := rs[..n - 1];
      EmittedIndicesSpec(p);
      var e := EmittedIndices(rs);
      var ep := EmittedIndices(p);
      assert e == ep + (if |rs[n - 1].values| > 0 then [n - 1] else []);
      forall j | 0 <= j < |e|
        ensures 0 <= e[j] < n && |rs[e[j]].values| > 0
      {
        if j < |ep| {
          assert e[j] == ep[j];
          assert rs[ep[j]] == p[ep[j]];
        }
      }
      forall j1, j2 | 0 <= j1 < j2 < |e|
        ensures e[j1] < e[j2]
      {
        assert e[j1] == ep[j1];
        if j2 < |ep| {
          assert e[j2] == ep[j2];
        }
      }
      forall i | 0 <= i < n && |rs[i].values| > 0
        ensures i in e
      {
        if i < n - 1 {
          assert p[i] == rs[i];
          assert i in ep;
        }
      }
    }
  }

  /** The j-th record is the record of the j-th series that has points. */
  lemma {:induction false} RecordsFollowSeries(seriesName: string, instance: string, rs: seq<Series>,
                                               key: Option<string>, formatTime: int -> Option<string>)
    ensures |Records(seriesName, instance, rs, key, formatTime)| == |EmittedIndices(rs)|
    ensures forall j :: 0 <= j < |EmittedIndices(rs)| ==>
      0 <= EmittedIndices(rs)[j] < |rs| &&
      Records(seriesName, instance, rs, key, formatTime)[j]
        == Record(seriesName, instance, rs[EmittedIndices(rs)[j]], key, formatTime)
    decreases |rs|
  {
    EmittedIndicesSpec(rs);
    if rs != [] {
      var n := |rs|;
      var p := rs[..n - 1];
      RecordsFollowSeries(seriesName, instance, p, key, formatTime);
      EmittedIndicesSpec(p);
      var e := EmittedIndices(rs);
      var ep := EmittedIndices(p);
      forall j | 0 <= j < |e|
        ensures Records(seriesName, instance, rs, key, formatTime)[j]
          == Record(seriesName, instance, rs[e[j]], key, formatTime)
      {
        if j < |ep| {
          assert rs[ep[j]] == p[ep[j]];
        }
      }
    }
  }

  /** Every record carries the given series name and instance, one value per
      point of its series in order, and at most one timestamp per value (one
      per value exactly when no timestamp conversion failed). */
  lemma RecordShape(seriesName: string, instance: string, s: Series, key: Option<string>,
                    formatTime: int -> Option<string>)
    ensures var d := Record(seriesName, instance, s, key, formatTime);
      && d.seriesName == seriesName && d.instance == instance
      && |d.values| == |s.values|
      && (forall j :: 0 <= j < |s.values| ==> d.values[j] == s.values[j].value)
      && |d.timestamps| <= |d.values|
      && (|d.timestamps| == |d.values| <==> AllTimesConvert(s.values, formatTime))
  {
    FormattedTimesLength(s.values, formatTime);
  }

  /** Every record handleResult returns carries the given series name and
      instance, and has at least one value. */
  lemma NormalizeTags(seriesName: string, instance: string, response: Option<Response>,
                      key: Option<string>, formatTime: int -> Option<string>)
    ensures forall d :: d in Normalize(seriesName, instance, response, key, formatTime) ==>
      d.seriesName == seriesName && d.instance == instance && |d.values| > 0
  {
    if IsSuccess(response) {
      var rs := response.value.result;
      RecordsFollowSeries(seriesName, instance, rs, key, formatTime);
      EmittedIndicesSpec(rs);
    }
  }

  /** With a chosen unique-label key, every record carries its own series'
      value of that key, and no two records carry the same value. */
  lemma UniqueLabelsDistinct(seriesName: string, instance: string, rs: seq<Series>, k: string,
                             formatTime: int -> Option<string>)
    requires IsUniqueLabelChoice(rs, Some(k))
    ensures var out := Records(seriesName, instance, rs, Some(k), formatTime);
      && |out| == |EmittedIndices(rs)|
      && (forall j :: 0 <= j < |out| ==>
            0 <= EmittedIndices(rs)[j] < |rs| && k in rs[EmittedIndices(rs)[j]].metric &&
            out[j].uniqueLabel == Some(rs[EmittedIndices(rs)[j]].metric[k]))
      && (forall j1, j2 :: 0 <= j1 < j2 < |out| ==> out[j1].uniqueLabel != out[j2].uniqueLabel)
  {
    QualifiesIffSeparates(rs, k);
    RecordsFollowSeries(seriesName, instance, rs, Some(k), formatTime);
    EmittedIndicesSpec(rs);
  }

  /** No record carries a unique label when there is at most one series or no
      label separates the series. */
  lemma NoUniqueLabel(seriesName: string, instance: string, rs: seq<Series>, key: Option<string>,
                      formatTime: int -> Option<string>)
    requires IsUniqueLabelChoice(rs, key)
    requires |rs| <= 1 || forall k :: !Separates(rs, k)
    ensures key == None
    ensures forall d :: d in Records(seriesName, instance, rs, key, formatTime) ==> d.uniqueLabel == None
  {
    if key.Some? {
      QualifiesIffSeparates(rs, key.value);
    }
    RecordsFollowSeries(seriesName, instance, rs, key, formatTime);
  }

  /** With more than one series and a separating label, some key is chosen. */
  lemma SeparatingLabelIsChosen(rs: seq<Series>, k: string, key: Option<string>)
    requires IsUniqueLabelChoice(rs, key)
    requires |rs| > 1 && Separates(rs, k)
    ensures key.Some? && Separates(rs, key.value)
  {
    QualifiesIffSeparates(rs, k);
    if key.Some? {
      QualifiesIffSeparates(rs, key.value);
    }
  }

  /** Two series told apart by exactly one label (say `instance` =
      "10.0.0.1" and "10.0.0.2"), agreeing on every other label they share:
      that label is the only key handleResult may choose. */
  lemma TwoSeriesKey(labelName: string, m1: map<string, string>, m2: map<string, string>,
                     ps1: seq<Point>, ps2: seq<Point>, key: Option<string>)
    requires labelName in m1 && labelName in m2 && m1[labelName] != m2[labelName]
    requires forall k :: k in m1 && k in m2 && k != labelName ==> m1[k] == m2[k]
    requires IsUniqueLabelChoice([Series(m1, ps1), Series(m2, ps2)], key)
    ensures key == Some(labelName)
  {
    var rs := [Series(m1, ps1), Series(m2, ps2)];
    TwoSeriesSeparate(rs, labelName);
    SeparatingLabelIsChosen(rs, labelName, key);
    assert rs[0].metric[key.value] != rs[1].metric[key.value];
  }

  /** Two series that both carry `labelName`, with different values. */
  lemma TwoSeriesSeparate(rs: seq<Series>, labelName: string)
    requires |rs| == 2 && labelName in rs[0].metric && labelName in rs[1].metric
    requires rs[0].metric[labelName] != rs[1].metric[labelName]
    ensures Separates(rs, labelName)
  {
  }

  /** With that label chosen, the two series give two records in order, each
      carrying the series name and instance, its own series' value of the
      label and its own series' point values in order. */
  lemma TwoSeriesRecords(labelName: string, v1: string, v2: string, ps1: seq<Point>, ps2: seq<Point>,
                         formatTime: int -> Option<string>)
    requires |ps1| > 0 && |ps2| > 0
    ensures var out := Records("cpu", "10.0.0.9:9100",
                               [Series(map[labelName := v1], ps1), Series(map[labelName := v2], ps2)],
                               Some(labelName), formatTime);
      && |out| == 2
      && (forall i :: 0 <= i < 2 ==> out[i].seriesName == "cpu" && out[i].instance == "10.0.0.9:9100")
      && out[0].uniqueLabel == Some(v1) && |out[0].values| == |ps1|
      && (forall j :: 0 <= j < |ps1| ==> out[0].values[j] == ps1[j].value)
      && out[1].uniqueLabel == Some(v2) && |out[1].values| == |ps2|
      && (forall j :: 0 <= j < |ps2| ==> out[1].values[j] == ps2[j].value)
  {
    var s1, s2 := Series(map[labelName := v1], ps1), Series(map[labelName := v2], ps2);
    var rs := [s1, s2];
    var r1 := Record("cpu", "10.0.0.9:9100", s1, Some(labelName), formatTime);
    var r2 := Record("cpu", "10.0.0.9:9100", s2, Some(labelName), formatTime);
    assert rs[..1] == [s1] && [s1][..0] == [];
    assert Records("cpu", "10.0.0.9:9100", [s1], Some(labelName), formatTime) == [r1];
    assert Records("cpu", "10.0.0.9:9100", rs, Some(labelName), formatTime) == [r1, r2];
  }

  /** What ChooseUniqueLabelKey picks from the label map of `rs` is a choice
      `findFirst` may make. */
  lemma ChosenKeyIsUniqueLabelChoice(rs: seq<Series>, labelMap: map<string, set<string>>, key: Option<string>)
    requires labelMap == LabelMapFor(rs)
    requires key.Some? ==> key.value in labelMap && |labelMap[key.value]| == |rs|
    requires key.None? ==> forall k :: k in labelMap ==> |labelMap[k]| != |rs|
    ensures IsUniqueLabelChoice(rs, key)
  {
  }

  /** The points loop of lines 114-123: a timestamp is appended only when its
      conversion succeeds, the value always. */
  method ConvertPoints(points: seq<Point>, formatTime: int -> Option<string>)
    returns (timestamps: seq<string>, values: seq<real>)
    ensures timestamps == FormattedTimes(points, formatTime)
    ensures |values| == |points|
    ensures forall j :: 0 <= j < |points| ==> values[j] == points[j].value
  {
    timestamps, values := [], [];
    var i := 0;
    while i < |points|
      invariant 0 <= i <= |points|
      invariant timestamps == FormattedTimes(points[..i], formatTime)
      invariant |values| == i
      invariant forall j :: 0 <= j < i ==> values[j] == points[j].value
    {
      assert points[..i + 1][..i] == points[..i];
      match formatTime(points[i].seconds * 1000) {
        case Some(t) => timestamps := timestamps + [t];
        case None =>
      }
      values := values + [points[i].value];
      i := i + 1;
    }
    assert points[..|points|] == points;
  }

  /** The body of the second `forEach` (lines 107-132): the record of one
      series, or nothing when it has no points. */
  method SeriesRecord(seriesName: string, instance: string, s: Series, uniqueLabelKey: Option<string>,
                      formatTime: int -> Option<string>)
    returns (emitted: seq<MetricData>)
    ensures emitted == if |s.values| > 0 then [Record(seriesName, instance, s, uniqueLabelKey, formatTime)] else []
  {
    var timestamps, values := ConvertPoints(s.values, formatTime);
    emitted := [];
    if |values| > 0 {
      var uniqueLabel := None;
      if uniqueLabelKey.Some? && uniqueLabelKey.value in s.metric {
        uniqueLabel := Some(s.metric[uniqueLabelKey.value]);
      }
      assert values == Record(seriesName, instance, s, uniqueLabelKey, formatTime).values;
      emitted := [MetricData(seriesName, instance, uniqueLabel, timestamps, values)];
    }
  }

  /** The second `forEach` of handleResult (lines 106-133): one record per
      series that has points, in series order. */
  method EmitRecords(seriesName: string, instance: string, result: seq<Series>, uniqueLabelKey: Option<string>,
                     formatTime: int -> Option<string>)
    returns (list: seq<MetricData>)
    ensures list == Records(seriesName, instance, result, uniqueLabelKey, formatTime)
  {
    list := [];
    var i := 0;
    while i < |result|
      invariant 0 <= i <= |result|
      invariant list == Records(seriesName, instance, result[..i], uniqueLabelKey, formatTime)
    {
      assert result[..i + 1][..i] == result[..i] && result[..i + 1][i] == result[i];
      var emitted := SeriesRecord(seriesName, instance, result[i], uniqueLabelKey, formatTime);
      list := list + emitted;
      i := i + 1;
    }
    assert result[..|result|] == result;
  }

  /** handleResult (lines 82-139). The key `findFirst` picks is returned as a
      ghost so that the result can be stated. */
  method HandleResult(seriesName: string, response: Option<Response>, instance: string,
                      formatTime: int -> Option<string>)
    returns (list: seq<MetricData>, ghost key: Option<string>)
    ensures !IsSuccess(response) ==> list == []
    ensures KeyFor(response, key)
    ensures list == Normalize(seriesName, instance, response, key, formatTime)
  {
    list := [];
    key := None;
    if IsSuccess(response) {
      var result := response.value.result;
      var labelMap := BuildLabelMap(result);
      var uniqueLabelKey := ChooseUniqueLabelKey(labelMap, |result|);
      key := uniqueLabelKey;
      ChosenKeyIsUniqueLabelChoice(result, labelMap, key);
      list := EmitRecords(seriesName, instance, result, uniqueLabelKey, formatTime);
    }
  }
}
