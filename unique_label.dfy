/**
  Unique-label detection in handleResult: the label map from each label name
  to the set of distinct values it takes across the series, and the choice of
  a label whose distinct-value count equals the number of series.
  Line numbers in the comments below refer to
  backend/src/main/java/io/metersphere/performance/service/MetricQueryService.java.
 */
module UniqueLabel {
  import opened Wrappers
  import opened MetricTypes

  /** Every label name carried by some series of `rs`. */
  function LabelNames(rs: seq<Series>): set<string>
    decreases |rs|
  {
    if rs == [] then {} else LabelNames(rs[..|rs| - 1]) + rs[|rs| - 1].metric.Keys
  }

  /** The distinct values label `k` takes across `rs`; a series without `k` adds nothing. */
  function LabelValues(rs: seq<Series>, k: string): set<string>
    decreases |rs|
  {
    if rs == [] then {}
    else
      var last := rs[|rs| - 1];
      LabelValues(rs[..|rs| - 1], k) + (if k in last.metric then {last.metric[k]} else {})
  }

  /** The label map accumulated over all of `rs`. */
  function LabelMapOf(rs: seq<Series>): map<string, set<string>>
  {
    map k | k in LabelNames(rs) :: LabelValues(rs, k)
  }

  /** The label map handleResult holds when it picks the key: it is only filled
      when there is more than one series. */
  function LabelMapFor(rs: seq<Series>): map<string, set<string>>
  {
    if |rs| > 1 then LabelMapOf(rs) else map[]
  }

  /** Label `k` is a candidate unique-label key of `rs`. */
  predicate Qualifies(rs: seq<Series>, k: string)
  {
    var labelMap := LabelMapFor(rs);
    k in labelMap && |labelMap[k]| == |rs|
  }

  /** `key` is a choice `findFirst` may make: some qualifying label, in whatever
      order the HashMap yields them, or none when no label qualifies. */
  ghost predicate IsUniqueLabelChoice(rs: seq<Series>, key: Option<string>)
  {
    match key
    case Some(k) => Qualifies(rs, k)
    case None => forall k :: !Qualifies(rs, k)
  }

  /** Every series carries label `k` and no two series share its value. */
  predicate Separates(rs: seq<Series>, k: string)
  {
    && (forall i :: 0 <= i < |rs| ==> k in rs[i].metric)
    && (forall i, j :: 0 <= i < j < |rs| ==> rs[i].metric[k] != rs[j].metric[k])
  }

  lemma {:induction false} LabelNamesSpec(rs: seq<Series>, k: string)
    ensures k in LabelNames(rs) <==> exists i :: 0 <= i < |rs| && k in rs[i].metric
    decreases |rs|
  {
    if rs != [] {
      var p := rs[..|rs| - 1];
      LabelNamesSpec(p, k);
      if k in LabelNames(p) {
        var i :| 0 <= i < |p| && k in p[i].metric;
        assert rs[i] == p[i];
      }
      if i :| 0 <= i < |rs| && k in rs[i].metric {
        if i < |rs| - 1 {
          assert p[i] == rs[i];
        }
      }
    }
  }

  lemma {:induction false} LabelValuesSpec(rs: seq<Series>, k: string, v: string)
    ensures v in LabelValues(rs, k) <==>
      exists i :: 0 <= i < |rs| && k in rs[i].metric && rs[i].metric[k] == v
    decreases |rs|
  {
    if rs != [] {
      var p := rs[..|rs| - 1];
      LabelValuesSpec(p, k, v);
      if v in LabelValues(p, k) {
        var i :| 0 <= i < |p| && k in p[i].metric && p[i].metric[k] == v;
        assert rs[i] == p[i];
      }
      if i :| 0 <= i < |rs| && k in rs[i].metric && rs[i].metric[k] == v {
        if i < |rs| - 1 {
          assert p[i] == rs[i];
        }
      }
    }
  }

  /** A label nobody carries has no values. */
  lemma {:induction false} UnknownLabelHasNoValues(rs: seq<Series>, k: string)
    requires k !in LabelNames(rs)
    ensures LabelValues(rs, k) == {}
    decreases |rs|
  {
    if rs != [] {
      UnknownLabelHasNoValues(rs[..|rs| - 1], k);
    }
  }

  /** Each series adds at most one value per label. */
  lemma {:induction false} LabelValuesBound(rs: seq<Series>, k: string)
    ensures |LabelValues(rs, k)| <= |rs|
    decreases |rs|
  {
    if rs != [] {
      var p := rs[..|rs| - 1];
      LabelValuesBound(p, k);
      var last := rs[|rs| - 1];
      if k in last.metric {
        assert |LabelValues(p, k) + {last.metric[k]}| <= |LabelValues(p, k)| + 1;
      }
    }
  }

  /** The last series adds one value to `k`'s set exactly when it carries `k`
      with a value not seen before. */
  lemma LabelValuesGrowth(rs: seq<Series>, k: string)
    requires rs != []
    ensures var last := rs[|rs| - 1];
      |LabelValues(rs, k)| == |LabelValues(rs[..|rs| - 1], k)|
        + (if k in last.metric && last.metric[k] !in LabelValues(rs[..|rs| - 1], k) then 1 else 0)
  {
    var last := rs[|rs| - 1];
    var vp := LabelValues(rs[..|rs| - 1], k);
    if k in last.metric && last.metric[k] !in vp {
      assert |vp + {last.metric[k]}| == |vp| + 1;
    } else {
      assert LabelValues(rs, k) == vp;
    }
  }

  /** When the series before the last are separated by `k` and the last one
      carries `k` with a value none of them has, `k` separates all of them. */
  lemma SeparatesSnoc(rs: seq<Series>, k: string)
    requires rs != [] && Separates(rs[..|rs| - 1], k)
    requires k in rs[|rs| - 1].metric && rs[|rs| - 1].metric[k] !in LabelValues(rs[..|rs| - 1], k)
    ensures Separates(rs, k)
  {
    var p, v := rs[..|rs| - 1], rs[|rs| - 1].metric[k];
    forall i | 0 <= i < |p|
      ensures k in rs[i].metric && rs[i].metric[k] != v
    {
      assert rs[i] == p[i];
      LabelValuesSpec(p, k, p[i].metric[k]);
    }
    forall i, j | 0 <= i < j < |rs|
      ensures rs[i].metric[k] != rs[j].metric[k]
    {
      if j < |p| {
        assert rs[i] == p[i] && rs[j] == p[j];
      }
    }
  }

  /** A label with as many distinct values as there are series is carried by
      every series, with pairwise different values. */
  lemma {:induction false} FullCountForcesSeparation(rs: seq<Series>, k: string)
    requires |LabelValues(rs, k)| == |rs|
    ensures Separates(rs, k)
    decreases |rs|
  {
    if rs != [] {
      var n := |rs|;
      var p := rs[..n - 1];
      var last := rs[n - 1];
      LabelValuesBound(p, k);
      LabelValuesGrowth(rs, k);
      FullCountForcesSeparation(p, k);
      SeparatesSnoc(rs, k);
    }
  }

  /** A label carried by every series with pairwise different values takes as
      many distinct values as there are series. */
  lemma {:induction false} SeparationGivesFullCount(rs: seq<Series>, k: string)
    requires Separates(rs, k)
    ensures |LabelValues(rs, k)| == |rs|
    decreases |rs|
  {
    if rs != [] {
      var n := |rs|;
      var p := rs[..n - 1];
      var last := rs[n - 1];
      assert Separates(p, k) by {
        forall i | 0 <= i < n - 1
          ensures k in p[i].metric
        {
          assert p[i] == rs[i];
        }
        forall i, j | 0 <= i < j < n - 1
          ensures p[i].metric[k] != p[j].metric[k]
        {
          assert p[i] == rs[i] && p[j] == rs[j];
        }
      }
      SeparationGivesFullCount(p, k);
      var v := last.metric[k];
      assert v !in LabelValues(p, k) by {
        LabelValuesSpec(p, k, v);
        forall i | 0 <= i < |p|
          ensures p[i].metric[k] != v
        {
          assert p[i] == rs[i];
        }
      }
    }
  }

  /** The combinatorial core: a label takes as many distinct values as there
      are series exactly when every series carries it and all the values differ. */
  lemma DistinctCountIffSeparates(rs: seq<Series>, k: string)
    ensures |LabelValues(rs, k)| == |rs| <==> Separates(rs, k)
  {
    if |LabelValues(rs, k)| == |rs| {
      FullCountForcesSeparation(rs, k);
    }
    if Separates(rs, k) {
      SeparationGivesFullCount(rs, k);
    }
  }

  /** A chosen key separates the series; with more than one series, every
      separating label qualifies. */
  lemma QualifiesIffSeparates(rs: seq<Series>, k: string)
    ensures Qualifies(rs, k) <==> |rs| > 1 && Separates(rs, k)
  {
    DistinctCountIffSeparates(rs, k);
    if |rs| > 1 && Separates(rs, k) {
      LabelNamesSpec(rs, k);
    }
  }

  /** Adding every label of series `i` to the label map of the series before
      it gives the label map of the series up to and including `i`. */
  lemma LabelMapStep(rs: seq<Series>, i: int, labelMap: map<string, set<string>>)
    requires 0 <= i < |rs|
    requires labelMap.Keys == LabelNames(rs[..i]) + rs[i].metric.Keys
    requires forall k :: k in labelMap ==>
      labelMap[k] == LabelValues(rs[..i], k) + (if k in rs[i].metric then {rs[i].metric[k]} else {})
    ensures labelMap == LabelMapOf(rs[..i + 1])
  {
    var next := rs[..i + 1];
    assert next[..i] == rs[..i] && next[i] == rs[i];
    assert labelMap.Keys == LabelNames(next);
    forall k | k in labelMap
      ensures labelMap[k] == LabelValues(next, k)
    {
    }
  }

  /** The label map of lines 91-102: filled only when there is more than one
      series, each series adding its value to the set of each of its labels. */
  method BuildLabelMap(result: seq<Series>) returns (labelMap: map<string, set<string>>)
    ensures labelMap == LabelMapFor(result)
  {
    labelMap := map[];
    if |result| > 1 {
      var i := 0;
      while i < |result|
        invariant 0 <= i <= |result|
        invariant labelMap == LabelMapOf(result[..i])
      {
        var metric := result[i].metric;
        var todo := metric.Keys;
        while todo != {}
          invariant todo <= metric.Keys
          invariant labelMap.Keys == LabelNames(result[..i]) + (metric.Keys - todo)
          invariant forall k :: k in labelMap ==>
            labelMap[k] == LabelValues(result[..i], k) + (if k in metric && k !in todo then {metric[k]} else {})
          decreases todo
        {
          var k :| k in todo;
          if k !in labelMap {
            UnknownLabelHasNoValues(result[..i], k);
          }
          var seen := if k in labelMap then labelMap[k] else {};
          labelMap := labelMap[k := seen + {metric[k]}];
          todo := todo - {k};
        }
        LabelMapStep(result, i, labelMap);
        i := i + 1;
      }
      assert result[..|result|] == result;
    }
  }

  /** The `findFirst` of line 104: some label whose set has `n` values, or
      none when there is no such label. */
  method ChooseUniqueLabelKey(labelMap: map<string, set<string>>, n: nat) returns (key: Option<string>)
    ensures key.Some? ==> key.value in labelMap && |labelMap[key.value]| == n
    ensures key.None? ==> forall k :: k in labelMap ==> |labelMap[k]| != n
  {
    var candidates := set k | k in labelMap && |labelMap[k]| == n;
    if candidates == {} {
      forall k | k in labelMap
        ensures |labelMap[k]| != n
      {
        assert k !in candidates;
      }
      key := None;
    } else {
      var k :| k in candidates;
      key := Some(k);
    }
  }
}
