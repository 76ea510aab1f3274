/**
  Request expansion: every monitored `ip:port` instance becomes one
  MetricDataRequest per metric-catalogue entry, appended to a list the caller owns.
  Line numbers in the comments below refer to
  backend/src/main/java/io/metersphere/performance/service/MetricQueryService.java.
 */
module RequestExpansion {
  import opened MetricTypes
  import opened Sequences

  /** The caller-owned list getRequest appends to. */
  class RequestList {
    var items: seq<MetricDataRequest>

    constructor ()
      ensures items == []
    {
      items := [];
    }
  }

  /** The instance string queryMetric builds from a monitor entry (line 154). */
  function InstanceOf(m: Monitor): string
  {
    m.ip + ":" + m.port
  }

  /** The requests of one instance, one per catalogue entry, in catalogue order. */
  function RequestsFor(catalogue: seq<CatalogueEntry>, instance: string): seq<MetricDataRequest>
    decreases |catalogue|
  {
    if catalogue == [] then []
    else
      var e := catalogue[|catalogue| - 1];
      RequestsFor(catalogue[..|catalogue| - 1], instance)
        + [MetricDataRequest(e.template, e.seriesName, instance)]
  }

  /** Entry j of an instance's requests carries catalogue entry j's template
      and name and the instance. */
  lemma {:induction false} RequestsForEntries(catalogue: seq<CatalogueEntry>, instance: string)
    ensures |RequestsFor(catalogue, instance)| == |catalogue|
    ensures forall j :: 0 <= j < |catalogue| ==>
      RequestsFor(catalogue, instance)[j]
        == MetricDataRequest(catalogue[j].template, catalogue[j].seriesName, instance)
    decreases |catalogue|
  {
    if catalogue != [] {
      var p := catalogue[..|catalogue| - 1];
      RequestsForEntries(p, instance);
      forall j | 0 <= j < |p|
        ensures RequestsFor(catalogue, instance)[j]
          == MetricDataRequest(catalogue[j].template, catalogue[j].seriesName, instance)
      {
        assert p[j] == catalogue[j];
      }
    }
  }

  /** Each monitor's requests, in monitor order. */
  function Blocks(catalogue: seq<CatalogueEntry>, monitors: seq<Monitor>): (blocks: seq<seq<MetricDataRequest>>)
    ensures |blocks| == |monitors|
  {
    seq(|monitors|, i requires 0 <= i < |monitors| => RequestsFor(catalogue, InstanceOf(monitors[i])))
  }

  /** The requests of all monitors, one block per monitor, in monitor order. */
  function Expansion(catalogue: seq<CatalogueEntry>, monitors: seq<Monitor>): seq<MetricDataRequest>
  {
    Concat(Blocks(catalogue, monitors))
  }

  /** One more monitor appends its requests. */
  lemma ExpansionStep(catalogue: seq<CatalogueEntry>, monitors: seq<Monitor>, i: int)
    requires 0 <= i < |monitors|
    ensures Expansion(catalogue, monitors[..i + 1])
      == Expansion(catalogue, monitors[..i]) + RequestsFor(catalogue, InstanceOf(monitors[i]))
  {
    var blocks := Blocks(catalogue, monitors[..i + 1]);
    assert monitors[..i + 1][..i] == monitors[..i];
    assert blocks == Blocks(catalogue, monitors[..i]) + [RequestsFor(catalogue, InstanceOf(monitors[i]))];
    ConcatSnoc(Blocks(catalogue, monitors[..i]), RequestsFor(catalogue, InstanceOf(monitors[i])));
  }

  /** Expanding two monitor lists one after the other gives the two expansions
      one after the other. */
  lemma ExpansionAppend(catalogue: seq<CatalogueEntry>, ms1: seq<Monitor>, ms2: seq<Monitor>)
    ensures Expansion(catalogue, ms1 + ms2) == Expansion(catalogue, ms1) + Expansion(catalogue, ms2)
  {
    var b1, b2 := Blocks(catalogue, ms1), Blocks(catalogue, ms2);
    forall i | 0 <= i < |ms1 + ms2|
      ensures Blocks(catalogue, ms1 + ms2)[i] == (b1 + b2)[i]
    {
      if i < |ms1| {
        assert (ms1 + ms2)[i] == ms1[i];
      } else {
        assert (ms1 + ms2)[i] == ms2[i - |ms1|];
      }
    }
    assert Blocks(catalogue, ms1 + ms2) == b1 + b2;
    ConcatAppend(b1, b2);
  }

  /** There are as many requests as monitors times catalogue entries. */
  lemma ExpansionLength(catalogue: seq<CatalogueEntry>, monitors: seq<Monitor>)
    ensures |Expansion(catalogue, monitors)| == |monitors| * |catalogue|
  {
    var blocks := Blocks(catalogue, monitors);
    forall i | 0 <= i < |blocks|
      ensures |blocks[i]| == |catalogue|
    {
      RequestsForEntries(catalogue, InstanceOf(monitors[i]));
    }
    ConcatUniformLength(blocks, |catalogue|);
  }

  /** The expansion consists of consecutive blocks, one per monitor in order:
      block `i` is monitor `i`'s requests, preceded by the blocks of the monitors
      before it and followed by those of the monitors after it. */
  lemma ExpansionBlocks(catalogue: seq<CatalogueEntry>, monitors: seq<Monitor>, i: int)
    requires 0 <= i < |monitors|
    ensures Expansion(catalogue, monitors)
      == Expansion(catalogue, monitors[..i])
         + RequestsFor(catalogue, InstanceOf(monitors[i]))
         + Expansion(catalogue, monitors[i + 1..])
  {
    assert monitors == (monitors[..i] + [monitors[i]]) + monitors[i + 1..];
    ExpansionAppend(catalogue, monitors[..i] + [monitors[i]], monitors[i + 1..]);
    ExpansionAppend(catalogue, monitors[..i], [monitors[i]]);
    ExpansionStep(catalogue, [monitors[i]], 0);
    assert [monitors[i]][..1] == [monitors[i]] && [monitors[i]][..0] == [];
  }

  /** Every expanded request's instance contains the ':'
      between ip and port, so it is never empty. */
  lemma ExpandedInstancesHaveColon(catalogue: seq<CatalogueEntry>, monitors: seq<Monitor>)
    ensures forall q :: q in Expansion(catalogue, monitors) ==> ':' in q.instance
  {
    var blocks := Blocks(catalogue, monitors);
    forall q: MetricDataRequest | q in Concat(blocks)
      ensures ':' in q.instance
    {
      ConcatMember(blocks, q);
      var i :| 0 <= i < |blocks| && q in blocks[i];
      var m := monitors[i];
      RequestsForEntries(catalogue, InstanceOf(m));
      assert InstanceOf(m)[|m.ip|] == ':';
    }
  }

  /** getRequest (lines 175-186): appends one request per catalogue entry to
      `list`, leaving the earlier entries as they were. */
  method GetRequest(catalogue: seq<CatalogueEntry>, instance: string, list: RequestList)
    modifies list
    ensures list.items == old(list.items) + RequestsFor(catalogue, instance)
  {
    var i := 0;
    while i < |catalogue|
      invariant 0 <= i <= |catalogue|
      invariant list.items == old(list.items) + RequestsFor(catalogue[..i], instance)
    {
      assert catalogue[..i + 1][..i] == catalogue[..i];
      var entry := catalogue[i];
      list.items := list.items + [MetricDataRequest(entry.template, entry.seriesName, instance)];
      i := i + 1;
    }
    assert catalogue[..|catalogue|] == catalogue;
  }
}
