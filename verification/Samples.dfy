/** The samples of a meter tick, collected in the order of a walk and sorted by
    connector. */
module Samples {
  import opened Station
  import opened Access
  import opened Walks

  /** What a MeterValues message reports. */
  datatype Sample = Sample(connectorID: int, meter: int, transactionID: int)

  function SampleOf(connectors: map<int, Connector>, c: int): Sample
    requires c in connectors
  {
    Sample(c, connectors[c].meter, connectors[c].transactionID)
  }

  /** One sample for each connector, in increasing order of identifier. */
  ghost function InOrder(core: Core, n: nat): seq<Sample>
    requires core.connectors.Keys == Ids(n)
  {
    seq(n, i requires 0 <= i < n => SampleOf(core.connectors, i + 1))
  }

  /** Each sample reports the register and the transaction of its connector. */
  lemma InOrderFields(core: Core, n: nat, k: nat)
    requires core.connectors.Keys == Ids(n) && k < n
    ensures |InOrder(core, n)| == n && k + 1 in core.connectors
    ensures InOrder(core, n)[k].connectorID == k + 1
    ensures InOrder(core, n)[k].meter == core.connectors[k + 1].meter
    ensures InOrder(core, n)[k].transactionID == core.connectors[k + 1].transactionID
  {
    assert k + 1 in core.connectors;
    assert InOrder(core, n)[k] == SampleOf(core.connectors, k + 1);
  }

  ghost predicate Increasing(samples: seq<Sample>) {
    forall i, j :: 0 <= i < j < |samples| ==> samples[i].connectorID < samples[j].connectorID
  }

  method SortById(samples: seq<Sample>) returns (sorted: seq<Sample>)
    requires forall i, j :: 0 <= i < j < |samples| ==> samples[i].connectorID != samples[j].connectorID
    ensures Increasing(sorted)
    ensures forall x :: x in sorted <==> x in samples
  {
    sorted := [];
    for i := 0 to |samples|
      invariant Increasing(sorted)
      invariant forall x :: x in sorted <==> x in samples[..i]
    {
      var x := samples[i];
      var j := 0;
      while j < |sorted| && sorted[j].connectorID < x.connectorID
        invariant 0 <= j <= |sorted|
        invariant forall k :: 0 <= k < j ==> sorted[k].connectorID < x.connectorID
      {
        j := j + 1;
      }
      assert samples[..i + 1] == samples[..i] + [x];
      forall k | 0 <= k < |sorted|
        ensures sorted[k].connectorID != x.connectorID
      {
        var y := sorted[k];
        assert y in samples[..i];
      }
      sorted := sorted[..j] + [x] + sorted[j..];
    }
    assert samples[..|samples|] == samples;
  }

  ghost predicate ListsUpTo(ids: seq<int>, n: nat) {
    && (forall i, j :: 0 <= i < j < |ids| ==> ids[i] < ids[j])
    && (forall i :: 0 <= i < |ids| ==> 1 <= ids[i] <= n)
    && (forall c :: 1 <= c <= n ==> c in ids)
  }

  /** The first is 1, and each next one is the next number. */
  lemma {:induction false} CountingAt(ids: seq<int>, n: nat, i: nat)
    requires ListsUpTo(ids, n) && i < |ids|
    ensures ids[i] == i + 1
  {
    var c := i + 1;
    assert 1 <= ids[i] <= n;
    if i > 0 {
      CountingAt(ids, n, i - 1);
      assert ids[i - 1] < ids[i];
    }
    assert c in ids;
    var j :| 0 <= j < |ids| && ids[j] == c;
  }

  lemma CountingUp(ids: seq<int>, n: nat)
    requires ListsUpTo(ids, n)
    ensures |ids| == n && forall i :: 0 <= i < n ==> ids[i] == i + 1
  {
    forall i | 0 <= i < |ids|
      ensures ids[i] == i + 1
    {
      CountingAt(ids, n, i);
    }
    if n > 0 {
      assert n in ids;
      var j :| 0 <= j < |ids| && ids[j] == n;
    }
    if |ids| > 0 {
      assert ids[|ids| - 1] <= n;
    }
  }

  lemma DistinctSamples(connectors: map<int, Connector>, order: seq<int>, samples: seq<Sample>)
    requires IsOrder(order, connectors.Keys) && |samples| == |order|
    requires forall k :: 0 <= k < |order| ==> order[k] in connectors && samples[k] == SampleOf(connectors, order[k])
    ensures forall i, j :: 0 <= i < j < |samples| ==> samples[i].connectorID != samples[j].connectorID
  {}

  /** Sorting the samples of a walk gives one sample per connector, in order. */
  lemma SortedSamples(
      connectors: map<int, Connector>, n: nat, order: seq<int>, samples: seq<Sample>, sorted: seq<Sample>)
    requires connectors.Keys == Ids(n) && IsOrder(order, Ids(n))
    requires |samples| == |order|
    requires forall k :: 0 <= k < |order| ==> order[k] in connectors && samples[k] == SampleOf(connectors, order[k])
    requires Increasing(sorted) && forall x :: x in sorted <==> x in samples
    ensures sorted == seq(n, i requires 0 <= i < n => SampleOf(connectors, i + 1))
  {
    var ids := seq(|sorted|, i requires 0 <= i < |sorted| => sorted[i].connectorID);
    forall k | 0 <= k < |sorted|
      ensures 1 <= sorted[k].connectorID <= n && sorted[k] == SampleOf(connectors, sorted[k].connectorID)
    {
      var x := sorted[k];
      assert x in samples;
      var j :| 0 <= j < |samples| && samples[j] == x;
    }
    forall c | 1 <= c <= n
      ensures c in ids
    {
      var j := IndexIn(order, Ids(n), c);
      var x := samples[j];
      assert x in sorted;
      var k :| 0 <= k < |sorted| && sorted[k] == x;
      assert ids[k] == c;
    }
    forall i | 0 <= i < |ids|
      ensures 1 <= ids[i] <= n
    {
      assert ids[i] == sorted[i].connectorID;
    }
    CountingUp(ids, n);
    forall i | 0 <= i < n
      ensures sorted[i] == SampleOf(connectors, i + 1)
    {
      assert ids[i] == sorted[i].connectorID;
    }
  }
}
