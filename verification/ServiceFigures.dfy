/** What the figures of the service map count, span by span (apps/observability/src/storage/services.ts). */
module ServiceFigures {
  import opened Wrappers
  import opened ServiceMap

  // ---- the spans of one trace ----

  ghost function Chosen(spans: seq<Span>, f: Span -> bool): set<nat> {
    set i: nat | i < |spans| && f(spans[i])
  }

  ghost function Time(spans: seq<Span>, f: Span -> bool): real {
    if spans == [] then 0.0
    else Time(spans[..|spans| - 1], f) + if f(spans[|spans| - 1]) then spans[|spans| - 1].durationMs else 0.0
  }

  ghost predicate Adds(t: Stats, spans: seq<Span>, f: Span -> bool, g: Span -> bool) {
    t.count == |Chosen(spans, f)| && t.errors == |Chosen(spans, g)| && t.total == Time(spans, f)
  }

  lemma ChosenSnoc(spans: seq<Span>, s: Span, f: Span -> bool)
    ensures |Chosen(spans + [s], f)| == |Chosen(spans, f)| + if f(s) then 1 else 0
    ensures Time(spans + [s], f) == Time(spans, f) + if f(s) then s.durationMs else 0.0
  {
    var all := spans + [s];
    assert all[..|spans|] == spans;
    assert forall i: nat | i < |spans| :: all[i] == spans[i];
    assert Chosen(all, f) == Chosen(spans, f) + if f(s) then {|spans|} else {};
  }

  lemma {:induction false} ServiceAdds(spans: seq<Span>, name: string, f: Span -> bool, g: Span -> bool)
    requires forall s :: f(s) <==> s.serviceName == name
    requires forall s :: g(s) <==> s.serviceName == name && s.failed
    ensures Adds(ServiceTally(spans, name), spans, f, g)
    decreases |spans|
  {
    if spans == [] {
      assert Chosen(spans, f) == {} == Chosen(spans, g);
    } else {
      var init, s := spans[..|spans| - 1], spans[|spans| - 1];
      ServiceAdds(init, name, f, g);
      ChosenSnoc(init, s, f);
      ChosenSnoc(init, s, g);
      assert spans == init + [s];
    }
  }

  lemma {:induction false} ChildAdds(spans: seq<Span>, byId: map<string, Span>, p: Pair, f: Span -> bool,
                                     g: Span -> bool)
    requires forall s :: f(s) <==> CallsAcross(s, byId, p)
    requires forall s :: g(s) <==> CallsAcross(s, byId, p) && s.failed
    ensures Adds(ChildTally(spans, byId, p), spans, f, g)
    decreases |spans|
  {
    if spans == [] {
      assert Chosen(spans, f) == {} == Chosen(spans, g);
    } else {
      var init, s := spans[..|spans| - 1], spans[|spans| - 1];
      ChildAdds(init, byId, p, f, g);
      ChosenSnoc(init, s, f);
      ChosenSnoc(init, s, g);
      assert spans == init + [s];
    }
  }

  // ---- sums over a history ----

  ghost function CountOver(h: seq<Trace>, f: (Trace, Span) -> bool): nat {
    if h == [] then 0
    else var t := h[|h| - 1]; CountOver(h[..|h| - 1], f) + |Chosen(t.spans, s => f(t, s))|
  }

  ghost function TimeOver(h: seq<Trace>, f: (Trace, Span) -> bool): real {
    if h == [] then 0.0 else var t := h[|h| - 1]; TimeOver(h[..|h| - 1], f) + Time(t.spans, s => f(t, s))
  }

  // The child spans of an edge, and the failing ones.
  ghost function Children(p: Pair): (Trace, Span) -> bool {
    (t: Trace, s: Span) => CallsAcross(s, ById(t.spans), p)
  }

  ghost function FailedChildren(p: Pair): (Trace, Span) -> bool {
    (t: Trace, s: Span) => CallsAcross(s, ById(t.spans), p) && s.failed
  }

  ghost function FailedOf(name: string): (Trace, Span) -> bool {
    (t: Trace, s: Span) => s.serviceName == name && s.failed
  }

  lemma {:induction false} ChildrenAdd(h: seq<Trace>, p: Pair)
    ensures var t := ChildTallies(h, p);
            && t.count == CountOver(h, Children(p)) && t.errors == CountOver(h, FailedChildren(p))
            && t.total == TimeOver(h, Children(p))
    decreases |h|
  {
    if h != [] {
      var t := h[|h| - 1];
      ChildrenAdd(h[..|h| - 1], p);
      ChildAdds(t.spans, ById(t.spans), p, s => Children(p)(t, s), s => FailedChildren(p)(t, s));
    }
  }

  /** With plain service names an edge's document counts the spans of service p.to whose parent is in service p.from, in
      all the traces, and those of them that failed; its mean is that of their durations. */
  lemma EdgeFigures(store: ServiceMapStore, p: Pair)
    requires store.Valid() && forall i | 0 <= i < |store.history| :: PlainNames(store.history[i].spans)
    ensures p in store.edges <==> CountOver(store.history, Children(p)) > 0
    ensures p in store.edges ==>
              var doc, n := store.edges[p], CountOver(store.history, Children(p));
              && doc.callCount == n && doc.errorCount == CountOver(store.history, FailedChildren(p))
              && doc.avgLatencyMs == TimeOver(store.history, Children(p)) / n as real
  {
    EdgesByService(store, p);
    ChildrenAdd(store.history, p);
  }

  // ---- the figures of a service ----

  ghost predicate Touches(t: Trace, name: string) {
    exists i :: 0 <= i < |t.spans| && t.spans[i].serviceName == name
  }

  ghost function Own(name: string): Span -> bool {
    (s: Span) => s.serviceName == name
  }

  // The mean duration of the service's spans in a trace.
  ghost function MeanOf(t: Trace, name: string): real {
    if Chosen(t.spans, Own(name)) == {} then 0.0
    else Time(t.spans, Own(name)) / |Chosen(t.spans, Own(name))| as real
  }

  ghost function MeansOver(h: seq<Trace>, name: string): real {
    if h == [] then 0.0 else MeansOver(h[..|h| - 1], name) + MeanOf(h[|h| - 1], name)
  }

  ghost function Touching(h: seq<Trace>, name: string): set<nat> {
    set i: nat | i < |h| && Touches(h[i], name)
  }

  lemma OneTrace(t: Trace, name: string)
    ensures var s := ServiceTally(t.spans, name);
            && (Touches(t, name) <==> s.count > 0)
            && (s.count > 0 ==> Mean(s) == MeanOf(t, name)) && (s.count == 0 ==> MeanOf(t, name) == 0.0)
            && s.errors == |Chosen(t.spans, s => FailedOf(name)(t, s))|
  {
    var failed := (s: Span) => FailedOf(name)(t, s);
    assert forall s :: FailedOf(name)(t, s) <==> s.serviceName == name && s.failed;
    ServiceAdds(t.spans, name, Own(name), failed);
    if Touches(t, name) {
      var i :| 0 <= i < |t.spans| && t.spans[i].serviceName == name;
      assert i in Chosen(t.spans, Own(name));
    } else {
      assert Chosen(t.spans, Own(name)) == {};
    }
  }

  lemma TouchingSnoc(h: seq<Trace>, t: Trace, name: string)
    ensures |Touching(h + [t], name)| == |Touching(h, name)| + if Touches(t, name) then 1 else 0
  {
    var all := h + [t];
    assert forall i: nat | i < |h| :: all[i] == h[i];
    assert Touching(all, name) == Touching(h, name) + if Touches(t, name) then {|h|} else {};
  }

  lemma {:induction false} TracesAdd(h: seq<Trace>, name: string)
    ensures var t := TraceTally(h, name);
            && t.count == |Touching(h, name)| && t.errors == CountOver(h, FailedOf(name))
            && t.total == MeansOver(h, name)
    decreases |h|
  {
    if h == [] {
      assert Touching(h, name) == {};
    } else {
      var init, t := h[..|h| - 1], h[|h| - 1];
      TracesAdd(init, name);
      OneTrace(t, name);
      TouchingSnoc(init, t, name);
      assert h == init + [t];
    }
  }

  // Trace i is the first, or the last, to touch the service.
  ghost predicate FirstTouch(h: seq<Trace>, name: string, i: nat) {
    i < |h| && Touches(h[i], name) && forall k | 0 <= k < i :: !Touches(h[k], name)
  }

  ghost predicate LastTouch(h: seq<Trace>, name: string, i: nat) {
    i < |h| && Touches(h[i], name) && forall k | i < k < |h| :: !Touches(h[k], name)
  }

  lemma {:induction false} FirstSeenIs(h: seq<Trace>, name: string, i: nat)
    requires FirstTouch(h, name, i)
    ensures FirstSeen(h, name) == h[i].startMs
    decreases |h|
  {
    var init := h[..|h| - 1];
    TracesAdd(init, name);
    OneTrace(h[|h| - 1], name);
    if i < |init| {
      assert FirstTouch(init, name, i) && i in Touching(init, name);
      FirstSeenIs(init, name, i);
    } else {
      assert Touching(init, name) == {};
    }
  }

  lemma {:induction false} LastSeenIs(h: seq<Trace>, name: string, i: nat)
    requires LastTouch(h, name, i)
    ensures LastSeen(h, name) == h[i].endMs
    decreases |h|
  {
    OneTrace(h[|h| - 1], name);
    if i < |h| - 1 {
      LastSeenIs(h[..|h| - 1], name, i);
    }
  }

  /** A service's document counts the traces that touch it and its failed spans; its mean is that of the means of those
      traces; it has been seen since the start of the first of them, and last at the end of the last. */
  lemma ServiceFigures(store: ServiceMapStore, name: string)
    requires store.Valid()
    ensures name in store.services <==> Touching(store.history, name) != {}
    ensures name in store.services ==>
              var doc, h := store.services[name], store.history;
              && doc.traceCount == |Touching(h, name)| && doc.errorCount == CountOver(h, FailedOf(name))
              && doc.avgDurationMs == MeansOver(h, name) / |Touching(h, name)| as real
              && (forall i: nat | FirstTouch(h, name, i) :: doc.firstSeen == h[i].startMs)
              && (forall i: nat | LastTouch(h, name, i) :: doc.lastSeen == h[i].endMs)
  {
    var h := store.history;
    TracesAdd(h, name);
    assert ServiceReflects(store.services, h, name);
    forall i: nat | FirstTouch(h, name, i) ensures FirstSeen(h, name) == h[i].startMs {
      FirstSeenIs(h, name, i);
    }
    forall i: nat | LastTouch(h, name, i) ensures LastSeen(h, name) == h[i].endMs {
      LastSeenIs(h, name, i);
    }
  }

  // ---- when an edge was last seen ----

  // Times are kept from zero on.
  ghost predicate Latest(seen: real, calls: seq<Call>, key: string) {
    && 0.0 <= seen && (forall i | 0 <= i < |calls| && calls[i].key == key :: calls[i].endMs <= seen)
    && (seen == 0.0 || exists i :: 0 <= i < |calls| && calls[i].key == key && calls[i].endMs == seen)
  }

  lemma {:induction false} TallyIsLatest(calls: seq<Call>, key: string)
    ensures Latest(KeyTally(calls, key).lastSeen, calls, key)
    decreases |calls|
  {
    if calls != [] {
      var init := calls[..|calls| - 1];
      TallyIsLatest(init, key);
      assert forall i | 0 <= i < |init| :: init[i] == calls[i];
    }
  }

  ghost predicate Made(spans: seq<Span>, byId: map<string, Span>, c: Call) {
    exists s :: s in spans && CallOf(s, byId) == Some(c)
  }

  lemma {:induction false} CallsAre(spans: seq<Span>, byId: map<string, Span>)
    ensures forall c | c in Calls(spans, byId) :: Made(spans, byId, c)
    ensures forall s | s in spans && CallOf(s, byId).Some? :: CallOf(s, byId).value in Calls(spans, byId)
    decreases |spans|
  {
    if spans != [] {
      var init, last := spans[..|spans| - 1], spans[|spans| - 1];
      CallsAre(init, byId);
      assert spans == init + [last];
      forall c | c in Calls(spans, byId) ensures Made(spans, byId, c) {
        if c in Calls(init, byId) { assert Made(init, byId, c); } else { assert CallOf(last, byId) == Some(c); }
      }
    }
  }

  ghost predicate HasChild(t: Trace, p: Pair) {
    exists s :: s in t.spans && CallsAcross(s, ById(t.spans), p)
  }

  // The latest end of an edge's child spans in a trace, or zero.
  ghost predicate LatestEnd(seen: real, t: Trace, p: Pair) {
    && 0.0 <= seen && (forall s | s in t.spans && CallsAcross(s, ById(t.spans), p) :: s.endMs <= seen)
    && (seen == 0.0 || exists s :: s in t.spans && CallsAcross(s, ById(t.spans), p) && s.endMs == seen)
  }

  lemma CallIsAcross(t: Trace, s: Span, p: Pair)
    requires PlainNames(t.spans) && s in t.spans
    ensures CallsAcross(s, ById(t.spans), p) <==>
              CallOf(s, ById(t.spans)).Some? && Recorded(CallOf(s, ById(t.spans)).value.key) == Some(p)
    ensures CallsAcross(s, ById(t.spans), p) ==> CallOf(s, ById(t.spans)).value.key == Key(p.from, p.to)
  {
    forall id | id in ById(t.spans)
      ensures ById(t.spans)[id].serviceName != "" && ArrowFree(ById(t.spans)[id].serviceName)
    {
      ByIdIsLast(t.spans, id);
    }
    CallOfPlain(s, ById(t.spans), p);
  }

  lemma KeysOfPlain(t: Trace, p: Pair)
    requires PlainNames(t.spans)
    ensures KeysFor(CallsOf(t), p) == if HasChild(t, p) then {Key(p.from, p.to)} else {}
  {
    var calls, byId := CallsOf(t), ById(t.spans);
    CallsAre(t.spans, byId);
    forall i | 0 <= i < |calls| && Recorded(calls[i].key) == Some(p)
      ensures HasChild(t, p) && calls[i].key == Key(p.from, p.to)
    {
      assert Made(t.spans, byId, calls[i]);
      var s :| s in t.spans && CallOf(s, byId) == Some(calls[i]);
      CallIsAcross(t, s, p);
    }
    if HasChild(t, p) {
      var s :| s in t.spans && CallsAcross(s, byId, p);
      CallIsAcross(t, s, p);
      var i :| 0 <= i < |calls| && calls[i] == CallOf(s, byId).value;
      assert calls[i].key in KeysFor(calls, p);
    }
  }

  // A call made under the edge's key is one of the edge's child spans, and the other way round.
  lemma CallToChild(t: Trace, p: Pair, c: Call) returns (s: Span)
    requires PlainNames(t.spans) && HasChild(t, p) && c in CallsOf(t) && c.key == Key(p.from, p.to)
    ensures s in t.spans && CallsAcross(s, ById(t.spans), p) && s.endMs == c.endMs
  {
    CallsAre(t.spans, ById(t.spans));
    KeysOfPlain(t, p);
    assert Made(t.spans, ById(t.spans), c) && c.key in KeysFor(CallsOf(t), p);
    s :| s in t.spans && CallOf(s, ById(t.spans)) == Some(c);
    CallIsAcross(t, s, p);
  }

  lemma ChildToCall(t: Trace, p: Pair, s: Span) returns (i: nat)
    requires PlainNames(t.spans) && s in t.spans && CallsAcross(s, ById(t.spans), p)
    ensures i < |CallsOf(t)| && CallsOf(t)[i].key == Key(p.from, p.to) && CallsOf(t)[i].endMs == s.endMs
  {
    CallsAre(t.spans, ById(t.spans));
    CallIsAcross(t, s, p);
    i :| 0 <= i < |CallsOf(t)| && CallsOf(t)[i] == CallOf(s, ById(t.spans)).value;
  }

  lemma LatestIsEnd(t: Trace, p: Pair, seen: real)
    requires PlainNames(t.spans) && HasChild(t, p) && SeenIn(CallsOf(t), KeysFor(CallsOf(t), p), seen)
    ensures LatestEnd(seen, t, p)
  {
    var calls, key := CallsOf(t), Key(p.from, p.to);
    KeysOfPlain(t, p);
    TallyIsLatest(calls, key);
    forall s | s in t.spans && CallsAcross(s, ById(t.spans), p) ensures s.endMs <= seen {
      var i := ChildToCall(t, p, s);
    }
    if seen != 0.0 {
      var i :| 0 <= i < |calls| && calls[i].key == key && calls[i].endMs == seen;
      var s := CallToChild(t, p, calls[i]);
    }
  }

  /** With plain service names an edge was last seen at the latest end of its child spans in the last trace that has
      any. */
  lemma {:induction false} EdgeLastSeen(h: seq<Trace>, p: Pair, seen: real, i: nat)
    requires LastCalled(h, p, seen) && forall k | 0 <= k < |h| :: PlainNames(h[k].spans)
    requires i < |h| && HasChild(h[i], p) && forall k | i < k < |h| :: !HasChild(h[k], p)
    ensures LatestEnd(seen, h[i], p)
    decreases |h|
  {
    KeysOfPlain(h[|h| - 1], p);
    if i == |h| - 1 {
      LatestIsEnd(h[i], p, seen);
    } else {
      EdgeLastSeen(h[..|h| - 1], p, seen, i);
    }
  }

  lemma EdgeSeen(store: ServiceMapStore, p: Pair, i: nat)
    requires store.Valid() && p in store.edges
    requires forall k | 0 <= k < |store.history| :: PlainNames(store.history[k].spans)
    requires i < |store.history| && HasChild(store.history[i], p)
    requires forall k | i < k < |store.history| :: !HasChild(store.history[k], p)
    ensures LatestEnd(store.edges[p].lastSeen, store.history[i], p)
  {
    assert EdgeReflects(store.edges, store.history, p);
    EdgeLastSeen(store.history, p, store.edges[p].lastSeen, i);
  }
}
