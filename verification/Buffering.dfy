/** The buffer that gathers spans into traces (apps/observability/src/ingest/buffer.ts). */
module Buffering {
  datatype Span = Span(traceId: string, spanId: string, startMs: real, endMs: real, failed: bool)

  type Spans = seq<Span>

  datatype Bucket = Bucket(traceId: string, spans: Spans, lastSpanAt: real)

  // ----- The buffer: buckets in the order their traces were first seen

  function Position(buckets: seq<Bucket>, id: string): (i: nat)
    ensures i <= |buckets|
    ensures forall j :: 0 <= j < i ==> buckets[j].traceId != id
    ensures i < |buckets| ==> buckets[i].traceId == id
  {
    if buckets == [] || buckets[0].traceId == id then 0 else 1 + Position(buckets[1..], id)
  }

  function Added(buckets: seq<Bucket>, span: Span, now: real): seq<Bucket> {
    var i := Position(buckets, span.traceId);
    if i == |buckets| then buckets + [Bucket(span.traceId, [span], now)]
    else buckets[i := Bucket(span.traceId, buckets[i].spans + [span], now)]
  }

  predicate Idle(b: Bucket, now: real, maxIdleMs: real) {
    now - b.lastSpanAt >= maxIdleMs
  }

  function Ready(buckets: seq<Bucket>, now: real, maxIdleMs: real): seq<Bucket> {
    if buckets == [] then []
    else
      var b := buckets[|buckets| - 1];
      Ready(buckets[..|buckets| - 1], now, maxIdleMs) + if Idle(b, now, maxIdleMs) then [b] else []
  }

  function Waiting(buckets: seq<Bucket>, now: real, maxIdleMs: real): seq<Bucket> {
    if buckets == [] then []
    else
      var b := buckets[|buckets| - 1];
      Waiting(buckets[..|buckets| - 1], now, maxIdleMs) + if Idle(b, now, maxIdleMs) then [] else [b]
  }

  // One bucket a trace, holding that trace's spans and at least one of them.
  ghost predicate Sorted(buckets: seq<Bucket>) {
    && (forall i, j :: 0 <= i < j < |buckets| ==> buckets[i].traceId != buckets[j].traceId)
    && (forall b :: b in buckets ==> OneTrace(b.spans) && b.spans[0].traceId == b.traceId)
  }

  ghost predicate OneTrace(spans: Spans) {
    spans != [] && forall s :: s in spans ==> s.traceId == spans[0].traceId
  }

  class TraceBuffer {
    var buckets: seq<Bucket>

    constructor ()
      ensures buckets == [] && Sorted(buckets)
    {
      buckets := [];
    }

    method Add(span: Span, now: real)
      requires Sorted(buckets)
      modifies this
      ensures buckets == Added(old(buckets), span, now)
      ensures Sorted(buckets)
      ensures forall x :: BucketCount(buckets, x) == BucketCount(old(buckets), x) + (if x == span then 1 else 0)
    {
      forall x { BucketCountAdded(buckets, span, now, x); }
      AddKeepsSorted(buckets, span, now);
      var i := Position(buckets, span.traceId);
      if i == |buckets| {
        buckets := buckets + [Bucket(span.traceId, [], now)];
      }
      var b := buckets[i];
      b := b.(spans := b.spans + [span]);
      assert i == |old(buckets)| ==> b.spans == [] + [span] == [span];
      b := b.(lastSpanAt := now);
      buckets := buckets[i := b];
      assert i == |old(buckets)| ==> buckets == old(buckets) + [b];
    }

    method DrainIdle(now: real, maxIdleMs: real) returns (ready: seq<Bucket>)
      requires Sorted(buckets)
      modifies this
      ensures ready == Ready(old(buckets), now, maxIdleMs) && buckets == Waiting(old(buckets), now, maxIdleMs)
      ensures forall b :: b in old(buckets) ==> (b in ready <==> now - b.lastSpanAt >= maxIdleMs)
      ensures forall b :: b in old(buckets) ==> (b in buckets <==> now - b.lastSpanAt < maxIdleMs)
      ensures Sorted(buckets)
      ensures forall x :: BucketCount(ready, x) + BucketCount(buckets, x) == BucketCount(old(buckets), x)
    {
      var all := buckets;
      ready := [];
      buckets := [];
      for i := 0 to |all|
        invariant ready == Ready(all[..i], now, maxIdleMs) && buckets == Waiting(all[..i], now, maxIdleMs)
      {
        assert all[..i + 1][..i] == all[..i];
        if Idle(all[i], now, maxIdleMs) {
          ready := ready + [all[i]];
        } else {
          buckets := buckets + [all[i]];
        }
      }
      assert all[..|all|] == all;
      DrainSplits(all, now, maxIdleMs);
      forall x { DrainConserves(all, now, maxIdleMs, x); }
      DrainKeepsSorted(all, now, maxIdleMs);
    }

    method DrainAll() returns (all: seq<Bucket>)
      modifies this
      ensures all == old(buckets) && buckets == []
    {
      all := buckets;
      buckets := [];
    }
  }

  function Copies(spans: Spans, x: Span): nat {
    multiset(spans)[x]
  }

  // How often span x occurs in the buckets.
  function BucketCount(buckets: seq<Bucket>, x: Span): nat {
    if buckets == [] then 0
    else BucketCount(buckets[..|buckets| - 1], x) + Copies(buckets[|buckets| - 1].spans, x)
  }

  lemma {:induction false} BucketCountUpdate(buckets: seq<Bucket>, i: nat, b: Bucket, x: Span)
    requires i < |buckets|
    ensures BucketCount(buckets[i := b], x)
        == BucketCount(buckets, x) - Copies(buckets[i].spans, x) + Copies(b.spans, x)
    decreases |buckets|
  {
    var init := buckets[..|buckets| - 1];
    if i < |init| {
      assert buckets[i := b][..|init|] == init[i := b];
      BucketCountUpdate(init, i, b, x);
    } else {
      assert buckets[i := b][..|init|] == init;
    }
  }

  lemma BucketCountSnoc(buckets: seq<Bucket>, b: Bucket, x: Span)
    ensures BucketCount(buckets + [b], x) == BucketCount(buckets, x) + Copies(b.spans, x)
  {
    assert (buckets + [b])[..|buckets|] == buckets;
  }

  lemma BucketCountAdded(buckets: seq<Bucket>, span: Span, now: real, x: Span)
    ensures BucketCount(Added(buckets, span, now), x) == BucketCount(buckets, x) + (if x == span then 1 else 0)
  {
    var i := Position(buckets, span.traceId);
    if i == |buckets| {
      BucketCountSnoc(buckets, Bucket(span.traceId, [span], now), x);
    } else {
      BucketCountUpdate(buckets, i, Bucket(span.traceId, buckets[i].spans + [span], now), x);
    }
  }

  lemma AddKeepsSorted(buckets: seq<Bucket>, span: Span, now: real)
    requires Sorted(buckets)
    ensures Sorted(Added(buckets, span, now))
  {
    var i := Position(buckets, span.traceId);
    var after := Added(buckets, span, now);
    forall b | b in after ensures OneTrace(b.spans) && b.spans[0].traceId == b.traceId {
      if i < |buckets| && b == after[i] {
        assert buckets[i] in buckets;
      } else if b !in buckets {
        assert b == Bucket(span.traceId, [span], now);
      }
    }
  }

  /** A span joins its trace's bucket, which has been idle since `now`, and leaves the others; a new trace's bucket is
      the last. */
  lemma AddJoins(buckets: seq<Bucket>, span: Span, now: real, after: seq<Bucket>)
    requires Sorted(buckets) && after == Added(buckets, span, now)
    ensures |buckets| <= |after|
    ensures forall i | 0 <= i < |buckets| ::
              after[i] == if buckets[i].traceId == span.traceId
                          then Bucket(span.traceId, buckets[i].spans + [span], now) else buckets[i]
    ensures (exists i :: 0 <= i < |buckets| && buckets[i].traceId == span.traceId) ==> |after| == |buckets|
    ensures (forall i | 0 <= i < |buckets| :: buckets[i].traceId != span.traceId) ==>
              after == buckets + [Bucket(span.traceId, [span], now)]
  {
  }

  lemma {:induction false} DrainSplits(buckets: seq<Bucket>, now: real, maxIdleMs: real)
    ensures forall b :: b in Ready(buckets, now, maxIdleMs) <==> b in buckets && now - b.lastSpanAt >= maxIdleMs
    ensures forall b :: b in Waiting(buckets, now, maxIdleMs) <==> b in buckets && now - b.lastSpanAt < maxIdleMs
    decreases |buckets|
  {
    if buckets != [] {
      DrainSplits(buckets[..|buckets| - 1], now, maxIdleMs);
      assert buckets == buckets[..|buckets| - 1] + [buckets[|buckets| - 1]];
    }
  }

  lemma {:induction false} DrainConserves(buckets: seq<Bucket>, now: real, maxIdleMs: real, x: Span)
    ensures BucketCount(Ready(buckets, now, maxIdleMs), x) + BucketCount(Waiting(buckets, now, maxIdleMs), x)
         == BucketCount(buckets, x)
    decreases |buckets|
  {
    if buckets != [] {
      var init, b := buckets[..|buckets| - 1], buckets[|buckets| - 1];
      var ready, waiting := Ready(init, now, maxIdleMs), Waiting(init, now, maxIdleMs);
      DrainConserves(init, now, maxIdleMs, x);
      if Idle(b, now, maxIdleMs) {
        assert Ready(buckets, now, maxIdleMs) == ready + [b] && Waiting(buckets, now, maxIdleMs) == waiting;
        BucketCountSnoc(ready, b, x);
      } else {
        assert Ready(buckets, now, maxIdleMs) == ready && Waiting(buckets, now, maxIdleMs) == waiting + [b];
        BucketCountSnoc(waiting, b, x);
      }
    }
  }

  lemma {:induction false} DrainKeepsSorted(buckets: seq<Bucket>, now: real, maxIdleMs: real)
    requires Sorted(buckets)
    ensures Sorted(Waiting(buckets, now, maxIdleMs))
    decreases |buckets|
  {
    if buckets != [] {
      var init, b := buckets[..|buckets| - 1], buckets[|buckets| - 1];
      assert forall c :: c in init ==> c in buckets;
      DrainKeepsSorted(init, now, maxIdleMs);
      DrainSplits(init, now, maxIdleMs);
      var kept := Waiting(init, now, maxIdleMs);
      forall i | 0 <= i < |kept| ensures kept[i].traceId != b.traceId {
        assert kept[i] in init;
      }
    }
  }
}
