/** The service map (apps/observability/src/storage/services.ts). */
module ServiceMap {
  import opened Wrappers

  // Per-service and per-edge averages are kept up to date by weighting, one
  // trace at a time, and compared with the tallies of the whole history.
  // Durations are reals and traces are materialised one after the other.

  datatype Span = Span(spanId: string, parentSpanId: Option<string>, serviceName: string,
                       durationMs: real, endMs: real, failed: bool)

  datatype Trace = Trace(startMs: real, endMs: real, spans: seq<Span>)

  datatype Stats = Stats(count: nat, total: real, errors: nat)

  function Nothing(): Stats {
    Stats(0, 0.0, 0)
  }

  function Add(a: Stats, b: Stats): Stats {
    Stats(a.count + b.count, a.total + b.total, a.errors + b.errors)
  }

  function One(durationMs: real, failed: bool): Stats {
    Stats(1, durationMs, if failed then 1 else 0)
  }

  function Over(total: real, count: nat): real
    requires count > 0
  {
    total / count as real
  }

  function Mean(s: Stats): real
    requires s.count > 0
  {
    Over(s.total, s.count)
  }

  function Max(a: real, b: real): real {
    if a >= b then a else b
  }

  // ----- Edge keys

  predicate ArrowAt(s: string, i: nat) {
    i + 1 < |s| && s[i] == '-' && s[i + 1] == '>'
  }

  ghost predicate ArrowFree(s: string) {
    forall i: nat :: !ArrowAt(s, i)
  }

  function ArrowIndex(s: string, start: nat := 0): (i: int)
    requires start <= |s|
    ensures i == -1 || start <= i < |s|
    ensures i >= 0 ==> ArrowAt(s, i)
    ensures forall j: nat :: start <= j && (i < 0 || j < i) ==> !ArrowAt(s, j)
    decreases |s| - start
  {
    if start == |s| then -1
    else if ArrowAt(s, start) then start
    else ArrowIndex(s, start + 1)
  }

  datatype Pair = Pair(from: string, to: string)

  function Key(from: string, to: string): string {
    from + "->" + to
  }

  // The first two pieces of the key split at its arrows, if neither is empty.
  function Recorded(key: string): Option<Pair> {
    var i := ArrowIndex(key);
    if i < 0 then None
    else
      var rest := key[i + 2..];
      var j := ArrowIndex(rest);
      var to := if j < 0 then rest else rest[..j];
      if i == 0 || to == "" then None else Some(Pair(key[..i], to))
  }

  // A call is recorded under its own two services exactly when neither name
  // is empty or holds an arrow.
  lemma RecordedIff(from: string, to: string)
    ensures Recorded(Key(from, to)) == Some(Pair(from, to))
       <==> from != "" && to != "" && ArrowFree(from) && ArrowFree(to)
  {
    var key := Key(from, to);
    var i := ArrowIndex(key);
    assert ArrowAt(key, |from|);
    assert key[|from| + 2..] == to;
    if ArrowFree(from) {
      forall j: nat | j < |from| ensures !ArrowAt(key, j) {
        assert !ArrowAt(from, j);
        assert key[j] == from[j];
        if j + 1 < |from| { assert key[j + 1] == from[j + 1]; }
      }
      assert i == |from|;
      assert key[..i] == from;
      if ArrowFree(to) { assert ArrowIndex(to) == -1; }
    }
    if Recorded(key) == Some(Pair(from, to)) {
      assert i == |key[..i]| == |from|;
      forall j: nat ensures !ArrowAt(from, j) {
        if j + 1 < |from| {
          assert !ArrowAt(key, j);
          assert key[j] == from[j] && key[j + 1] == from[j + 1];
        }
      }
      assert ArrowIndex(to) == -1;
    }
  }

  // With an arrow in a name, calls between different services share one key.
  lemma ArrowsConflate()
    ensures Key("a->b", "c") == Key("a", "b->c")
    ensures Recorded(Key("a->b", "c")) == Some(Pair("a", "b"))
  {
    var key := Key("a->b", "c");
    assert key == "a->b->c";
    assert !ArrowAt(key, 0) && ArrowAt(key, 1);
    assert ArrowIndex(key) == 1;
    var rest := key[3..];
    assert rest == "b->c";
    assert !ArrowAt(rest, 0) && ArrowAt(rest, 1);
    assert ArrowIndex(rest) == 1;
    assert key[..1] == "a" && rest[..1] == "b";
  }

  // ----- One trace

  // What one trace adds up to for a service.
  function ServiceTally(spans: seq<Span>, name: string): Stats {
    if spans == [] then Nothing()
    else
      var before, s := ServiceTally(spans[..|spans| - 1], name), spans[|spans| - 1];
      if s.serviceName == name then Add(before, One(s.durationMs, s.failed)) else before
  }

  // Span ids need not be unique: the last span with an id is found under it.
  function ById(spans: seq<Span>): map<string, Span> {
    if spans == [] then map[]
    else ById(spans[..|spans| - 1])[spans[|spans| - 1].spanId := spans[|spans| - 1]]
  }

  lemma {:induction false} ByIdIsLast(spans: seq<Span>, id: string)
    ensures id in ById(spans) <==> exists i :: 0 <= i < |spans| && spans[i].spanId == id
    ensures id in ById(spans) ==>
      exists i :: 0 <= i < |spans| && spans[i] == ById(spans)[id] && spans[i].spanId == id
        && forall j :: i < j < |spans| ==> spans[j].spanId != id
    decreases |spans|
  {
    if spans != [] {
      var init := spans[..|spans| - 1];
      ByIdIsLast(init, id);
      assert spans == init + [spans[|spans| - 1]];
      if id in ById(init) && spans[|spans| - 1].spanId != id {
        var i :| 0 <= i < |init| && init[i] == ById(init)[id] && init[i].spanId == id
          && forall j :: i < j < |init| ==> init[j].spanId != id;
        assert spans[i] == ById(spans)[id];
      }
    }
  }

  // A span whose parent is in the trace and in another service.
  datatype Call = Call(key: string, durationMs: real, endMs: real, failed: bool)

  function CallOf(s: Span, byId: map<string, Span>): Option<Call> {
    if s.parentSpanId.None? || s.parentSpanId.value == "" || s.parentSpanId.value !in byId then None
    else
      var parent := byId[s.parentSpanId.value];
      if parent.serviceName == s.serviceName then None
      else Some(Call(Key(parent.serviceName, s.serviceName), s.durationMs, s.endMs, s.failed))
  }

  function Calls(spans: seq<Span>, byId: map<string, Span>): seq<Call> {
    if spans == [] then []
    else
      var c := CallOf(spans[|spans| - 1], byId);
      Calls(spans[..|spans| - 1], byId) + if c.Some? then [c.value] else []
  }

  function CallsOf(t: Trace): seq<Call> {
    Calls(t.spans, ById(t.spans))
  }

  datatype EdgeStats = EdgeStats(stats: Stats, lastSeen: real)

  function KeyTally(calls: seq<Call>, key: string): EdgeStats {
    if calls == [] then EdgeStats(Nothing(), 0.0)
    else
      var before, c := KeyTally(calls[..|calls| - 1], key), calls[|calls| - 1];
      if c.key != key then before
      else EdgeStats(Add(before.stats, One(c.durationMs, c.failed)), Max(before.lastSeen, c.endMs))
  }

  function KeysTally(calls: seq<Call>, keys: set<string>): Stats {
    if calls == [] then Nothing()
    else
      var before, c := KeysTally(calls[..|calls| - 1], keys), calls[|calls| - 1];
      if c.key in keys then Add(before, One(c.durationMs, c.failed)) else before
  }

  function KeysOf(calls: seq<Call>): set<string> {
    set i | 0 <= i < |calls| :: calls[i].key
  }

  // The keys of the calls that are recorded under a pair.
  function KeysFor(calls: seq<Call>, p: Pair): set<string> {
    set i | 0 <= i < |calls| && Recorded(calls[i].key) == Some(p) :: calls[i].key
  }

  function PairTally(calls: seq<Call>, p: Pair): Stats {
    KeysTally(calls, KeysFor(calls, p))
  }

  lemma {:induction false} KeysTallyGrows(calls: seq<Call>, keys: set<string>, key: string)
    requires key !in keys
    ensures KeysTally(calls, keys + {key}) == Add(KeysTally(calls, keys), KeyTally(calls, key).stats)
    decreases |calls|
  {
    if calls != [] {
      KeysTallyGrows(calls[..|calls| - 1], keys, key);
    }
  }

  lemma {:induction false} KeysTallyNone(calls: seq<Call>)
    ensures KeysTally(calls, {}) == Nothing()
    decreases |calls|
  {
    if calls != [] {
      KeysTallyNone(calls[..|calls| - 1]);
    }
  }

  // ----- The history

  // Traces that touched the service, with the mean of each.
  function TraceTally(h: seq<Trace>, name: string): Stats {
    if h == [] then Nothing()
    else
      var before, s := TraceTally(h[..|h| - 1], name), ServiceTally(h[|h| - 1].spans, name);
      if s.count == 0 then before else Add(before, Stats(1, Mean(s), s.errors))
  }

  function FirstSeen(h: seq<Trace>, name: string): real {
    if h == [] then 0.0
    else if TraceTally(h[..|h| - 1], name).count > 0 then FirstSeen(h[..|h| - 1], name)
    else h[|h| - 1].startMs
  }

  function LastSeen(h: seq<Trace>, name: string): real {
    if h == [] then 0.0
    else if ServiceTally(h[|h| - 1].spans, name).count > 0 then h[|h| - 1].endMs
    else LastSeen(h[..|h| - 1], name)
  }

  function CallTally(h: seq<Trace>, p: Pair): Stats {
    if h == [] then Nothing()
    else
      var calls := CallsOf(h[|h| - 1]);
      Add(CallTally(h[..|h| - 1], p), PairTally(calls, p))
  }

  // When one of the keys was last seen in the calls.
  ghost predicate SeenIn(calls: seq<Call>, keys: set<string>, seen: real) {
    exists key :: key in keys && seen == KeyTally(calls, key).lastSeen
  }

  ghost predicate LastCalled(h: seq<Trace>, p: Pair, seen: real) {
    h != [] &&
    var calls := CallsOf(h[|h| - 1]);
    if KeysFor(calls, p) != {} then SeenIn(calls, KeysFor(calls, p), seen) else LastCalled(h[..|h| - 1], p, seen)
  }

  // ----- The calls of an edge by the services of child and parent

  // The span is a child in service p.to of a parent in service p.from.
  predicate CallsAcross(s: Span, byId: map<string, Span>, p: Pair) {
    && s.parentSpanId.Some? && s.parentSpanId.value != "" && s.parentSpanId.value in byId
    && byId[s.parentSpanId.value].serviceName == p.from != p.to == s.serviceName
  }

  function ChildTally(spans: seq<Span>, byId: map<string, Span>, p: Pair): Stats {
    if spans == [] then Nothing()
    else
      var before, s := ChildTally(spans[..|spans| - 1], byId, p), spans[|spans| - 1];
      if CallsAcross(s, byId, p) then Add(before, One(s.durationMs, s.failed)) else before
  }

  function ChildTallies(h: seq<Trace>, p: Pair): Stats {
    if h == [] then Nothing()
    else Add(ChildTallies(h[..|h| - 1], p), ChildTally(h[|h| - 1].spans, ById(h[|h| - 1].spans), p))
  }

  // No service name is empty or holds an arrow.
  ghost predicate PlainNames(spans: seq<Span>) {
    forall i | 0 <= i < |spans| :: spans[i].serviceName != "" && ArrowFree(spans[i].serviceName)
  }

  function RecordedTally(calls: seq<Call>, p: Pair): Stats {
    if calls == [] then Nothing()
    else
      var before, c := RecordedTally(calls[..|calls| - 1], p), calls[|calls| - 1];
      if Recorded(c.key) == Some(p) then Add(before, One(c.durationMs, c.failed)) else before
  }

  lemma {:induction false} TallyOfRecorded(calls: seq<Call>, n: nat, p: Pair)
    requires n <= |calls|
    ensures KeysTally(calls[..n], KeysFor(calls, p)) == RecordedTally(calls[..n], p)
  {
    if n > 0 {
      TallyOfRecorded(calls, n - 1, p);
      assert calls[..n][..n - 1] == calls[..n - 1];
      assert calls[n - 1].key in KeysFor(calls, p) <==> Recorded(calls[n - 1].key) == Some(p);
    }
  }

  lemma CallOfPlain(s: Span, byId: map<string, Span>, p: Pair)
    requires s.serviceName != "" && ArrowFree(s.serviceName)
    requires forall id | id in byId :: byId[id].serviceName != "" && ArrowFree(byId[id].serviceName)
    ensures CallsAcross(s, byId, p) <==> CallOf(s, byId).Some? && Recorded(CallOf(s, byId).value.key) == Some(p)
  {
    if CallOf(s, byId).Some? {
      RecordedIff(byId[s.parentSpanId.value].serviceName, s.serviceName);
    }
  }

  lemma {:induction false} ChildrenAreRecorded(spans: seq<Span>, byId: map<string, Span>, p: Pair)
    requires PlainNames(spans)
    requires forall id | id in byId :: byId[id].serviceName != "" && ArrowFree(byId[id].serviceName)
    ensures RecordedTally(Calls(spans, byId), p) == ChildTally(spans, byId, p)
    decreases |spans|
  {
    if spans != [] {
      var init, s := spans[..|spans| - 1], spans[|spans| - 1];
      ChildrenAreRecorded(init, byId, p);
      CallOfPlain(s, byId, p);
      var before, c := Calls(init, byId), CallOf(s, byId);
      if c.Some? {
        assert (before + [c.value])[..|before|] == before;
      } else {
        assert before + [] == before;
      }
    }
  }

  /** In a trace with plain names an edge gets exactly the spans of its one service with a parent in its other. */
  lemma EdgeGetsItsChildren(t: Trace, p: Pair)
    requires PlainNames(t.spans)
    ensures PairTally(CallsOf(t), p) == ChildTally(t.spans, ById(t.spans), p)
  {
    var calls, byId := CallsOf(t), ById(t.spans);
    assert calls[..|calls|] == calls;
    TallyOfRecorded(calls, |calls|, p);
    forall id | id in byId ensures byId[id].serviceName != "" && ArrowFree(byId[id].serviceName) {
      ByIdIsLast(t.spans, id);
    }
    ChildrenAreRecorded(t.spans, byId, p);
  }

  lemma {:induction false} HistoryOfChildren(h: seq<Trace>, p: Pair)
    requires forall i | 0 <= i < |h| :: PlainNames(h[i].spans)
    ensures CallTally(h, p) == ChildTallies(h, p)
    decreases |h|
  {
    if h != [] {
      HistoryOfChildren(h[..|h| - 1], p);
      EdgeGetsItsChildren(h[|h| - 1], p);
    }
  }

  // ----- Stored documents

  datatype ServiceDoc = ServiceDoc(firstSeen: real, lastSeen: real, traceCount: nat, errorCount: nat,
                                   avgDurationMs: real)

  datatype EdgeDoc = EdgeDoc(callCount: nat, errorCount: nat, avgLatencyMs: real, lastSeen: real)

  ghost predicate ServiceHolds(docs: map<string, ServiceDoc>, name: string, t: Stats) {
    if t.count == 0 then name !in docs
    else name in docs && docs[name].traceCount == t.count && docs[name].errorCount == t.errors
         && docs[name].avgDurationMs == Mean(t)
  }

  ghost predicate ServiceReflects(docs: map<string, ServiceDoc>, h: seq<Trace>, name: string) {
    && ServiceHolds(docs, name, TraceTally(h, name))
    && (name in docs ==> docs[name].firstSeen == FirstSeen(h, name) && docs[name].lastSeen == LastSeen(h, name))
  }

  ghost predicate EdgeHolds(docs: map<Pair, EdgeDoc>, p: Pair, t: Stats) {
    if t.count == 0 then p !in docs
    else p in docs && docs[p].callCount == t.count && docs[p].errorCount == t.errors && docs[p].avgLatencyMs == Mean(t)
  }

  ghost predicate EdgeReflects(docs: map<Pair, EdgeDoc>, h: seq<Trace>, p: Pair) {
    EdgeHolds(docs, p, CallTally(h, p)) && (p in docs ==> LastCalled(h, p, docs[p].lastSeen))
  }

  // The pipeline update: the stored average weighted by the count it stood
  // for, plus what was added, over the new count.
  function Weighted(avg: real, stood: nat, added: real, count: nat): real
    requires count > 0
  {
    Over(avg * stood as real + added, count)
  }

  lemma OverTimes(total: real, count: nat)
    requires count > 0
    ensures Over(total, count) * count as real == total
  {
  }

  // That is the average of everything; a new document starts from zero.
  lemma RollingMean(before: Stats, more: Stats, avg: real)
    requires more.count > 0
    requires if before.count > 0 then avg == Mean(before) else avg == before.total == 0.0
    ensures Weighted(avg, before.count, more.total, before.count + more.count) == Mean(Add(before, more))
  {
    if before.count > 0 {
      OverTimes(before.total, before.count);
    } else {
      assert avg * before.count as real == 0.0;
    }
    assert avg * before.count as real + more.total == Add(before, more).total;
  }

  // While a trace is being added the documents of the names in `left` are
  // still as before; the others reflect the trace too.
  ghost predicate ServicesAt(docs: map<string, ServiceDoc>, h: seq<Trace>, trace: Trace, left: set<string>) {
    forall name ::
      if name in left then ServiceReflects(docs, h, name) else ServiceReflects(docs, h + [trace], name)
  }

  lemma ServicesStart(docs: map<string, ServiceDoc>, h: seq<Trace>, trace: Trace, left: set<string>)
    requires forall name :: ServiceReflects(docs, h, name)
    requires forall name :: name in left <==> ServiceTally(trace.spans, name).count > 0
    ensures ServicesAt(docs, h, trace, left)
  {
    forall name | name !in left ensures ServiceReflects(docs, h + [trace], name) {
      assert ServiceReflects(docs, h, name);
      ServiceAdded(h, trace, name);
    }
  }

  lemma ServicesStep(was: map<string, ServiceDoc>, docs: map<string, ServiceDoc>, h: seq<Trace>, trace: Trace,
                     left: set<string>, name: string)
    requires ServicesAt(was, h, trace, left) && name in left
    requires name in docs && docs == was[name := docs[name]]
    requires ServiceTally(trace.spans, name).count > 0
    requires var s := ServiceTally(trace.spans, name);
      ServiceHolds(docs, name, Add(TraceTally(h, name), Stats(1, Mean(s), s.errors)))
    requires docs[name].lastSeen == trace.endMs
    requires docs[name].firstSeen == if name in was then was[name].firstSeen else trace.startMs
    ensures ServicesAt(docs, h, trace, left - {name})
  {
    assert ServiceReflects(was, h, name);
    ServiceAdded(h, trace, name);
    forall n | n != name
      ensures if n in left then ServiceReflects(docs, h, n) else ServiceReflects(docs, h + [trace], n)
    {
      assert n in left ==> ServiceReflects(was, h, n);
      assert n !in left ==> ServiceReflects(was, h + [trace], n);
    }
  }

  ghost predicate EdgeWritten(docs: map<Pair, EdgeDoc>, h: seq<Trace>, calls: seq<Call>, p: Pair, done: set<string>) {
    && EdgeHolds(docs, p, Add(CallTally(h, p), KeysTally(calls, done)))
    && (p in docs ==> if done != {} then SeenIn(calls, done, docs[p].lastSeen) else LastCalled(h, p, docs[p].lastSeen))
  }

  // What a trace adds to the history of a service.
  lemma ServiceAdded(h: seq<Trace>, trace: Trace, name: string)
    ensures var t, s := TraceTally(h, name), ServiceTally(trace.spans, name);
      if s.count == 0 then
        && TraceTally(h + [trace], name) == t
        && LastSeen(h + [trace], name) == LastSeen(h, name)
        && (t.count > 0 ==> FirstSeen(h + [trace], name) == FirstSeen(h, name))
      else
        && TraceTally(h + [trace], name) == Add(t, Stats(1, Mean(s), s.errors))
        && LastSeen(h + [trace], name) == trace.endMs
        && FirstSeen(h + [trace], name) == (if t.count > 0 then FirstSeen(h, name) else trace.startMs)
  {
    assert (h + [trace])[..|h|] == h;
  }

  lemma {:induction false} EmptyTally(h: seq<Trace>, name: string)
    ensures TraceTally(h, name).count == 0 ==> TraceTally(h, name) == Nothing()
    decreases |h|
  {
    if h != [] {
      EmptyTally(h[..|h| - 1], name);
    }
  }

  lemma {:induction false} KeysTallyEmpty(calls: seq<Call>, keys: set<string>)
    ensures KeysTally(calls, keys).count == 0 ==> KeysTally(calls, keys) == Nothing()
    decreases |calls|
  {
    if calls != [] {
      KeysTallyEmpty(calls[..|calls| - 1], keys);
    }
  }

  lemma {:induction false} CallTallyEmpty(h: seq<Trace>, p: Pair)
    ensures CallTally(h, p).count == 0 ==> CallTally(h, p) == Nothing()
    decreases |h|
  {
    if h != [] {
      CallTallyEmpty(h[..|h| - 1], p);
      KeysTallyEmpty(CallsOf(h[|h| - 1]), KeysFor(CallsOf(h[|h| - 1]), p));
    }
  }

  lemma KeyTallyStep(calls: seq<Call>, c: Call)
    ensures KeysOf(calls + [c]) == KeysOf(calls) + {c.key}
    ensures forall k | k != c.key :: KeyTally(calls + [c], k) == KeyTally(calls, k)
    ensures var was := KeyTally(calls, c.key);
      KeyTally(calls + [c], c.key) == EdgeStats(Add(was.stats, One(c.durationMs, c.failed)), Max(was.lastSeen, c.endMs))
  {
    assert (calls + [c])[..|calls|] == calls;
    forall i | 0 <= i < |calls| ensures calls[i].key in KeysOf(calls + [c]) {
      assert (calls + [c])[i] == calls[i];
    }
    assert (calls + [c])[|calls|] == c;
  }

  ghost predicate Grouped(edgeAgg: map<string, EdgeStats>, calls: seq<Call>) {
    && edgeAgg.Keys == KeysOf(calls)
    && forall k :: if k in edgeAgg then edgeAgg[k] == KeyTally(calls, k) && edgeAgg[k].stats.count > 0
                   else KeyTally(calls, k) == EdgeStats(Nothing(), 0.0)
  }

  lemma GroupedStep(edgeAgg: map<string, EdgeStats>, calls: seq<Call>, c: Call)
    requires Grouped(edgeAgg, calls)
    ensures var cur := if c.key in edgeAgg then edgeAgg[c.key] else EdgeStats(Nothing(), 0.0);
      Grouped(edgeAgg[c.key := EdgeStats(Add(cur.stats, One(c.durationMs, c.failed)), Max(cur.lastSeen, c.endMs))],
              calls + [c])
  {
    KeyTallyStep(calls, c);
  }

  lemma EdgeWrittenStep(was: map<Pair, EdgeDoc>, docs: map<Pair, EdgeDoc>, h: seq<Trace>, calls: seq<Call>, p: Pair,
                        done: set<string>, key: string)
    requires key in KeysFor(calls, p) && key !in done
    requires var before := Add(CallTally(h, p), KeysTally(calls, done * KeysFor(calls, p)));
      EdgeHolds(docs, p, Add(before, KeyTally(calls, key).stats))
    requires p in docs && docs[p].lastSeen == KeyTally(calls, key).lastSeen
    ensures EdgeWritten(docs, h, calls, p, (done + {key}) * KeysFor(calls, p))
  {
    var wrote := done * KeysFor(calls, p);
    assert (done + {key}) * KeysFor(calls, p) == wrote + {key};
    KeysTallyGrows(calls, wrote, key);
    assert key in wrote + {key};
  }

  ghost predicate EdgesAt(docs: map<Pair, EdgeDoc>, h: seq<Trace>, calls: seq<Call>, done: set<string>) {
    forall p :: EdgeWritten(docs, h, calls, p, done * KeysFor(calls, p))
  }

  lemma EdgesStart(docs: map<Pair, EdgeDoc>, h: seq<Trace>, calls: seq<Call>)
    requires forall p :: EdgeReflects(docs, h, p)
    ensures EdgesAt(docs, h, calls, {})
  {
    KeysTallyNone(calls);
    forall p ensures EdgeWritten(docs, h, calls, p, {} * KeysFor(calls, p)) {
      assert EdgeReflects(docs, h, p);
      assert {} * KeysFor(calls, p) == {};
    }
  }

  lemma EdgesStep(was: map<Pair, EdgeDoc>, docs: map<Pair, EdgeDoc>, h: seq<Trace>, calls: seq<Call>,
                  done: set<string>, key: string)
    requires EdgesAt(was, h, calls, done)
    requires forall q | Recorded(key) != Some(q) :: q in was <==> q in docs
    requires forall q | Recorded(key) != Some(q) && q in was :: was[q] == docs[q]
    requires Recorded(key).Some? ==>
      var p := Recorded(key).value; EdgeWritten(docs, h, calls, p, (done + {key}) * KeysFor(calls, p))
    ensures EdgesAt(docs, h, calls, done + {key})
  {
    forall q | Recorded(key) != Some(q) ensures EdgeWritten(docs, h, calls, q, (done + {key}) * KeysFor(calls, q)) {
      assert EdgeWritten(was, h, calls, q, done * KeysFor(calls, q));
      assert (done + {key}) * KeysFor(calls, q) == done * KeysFor(calls, q);
    }
  }

  lemma EdgesEnd(docs: map<Pair, EdgeDoc>, h: seq<Trace>, trace: Trace)
    requires EdgesAt(docs, h, CallsOf(trace), KeysOf(CallsOf(trace)))
    ensures forall p :: EdgeReflects(docs, h + [trace], p)
  {
    var calls := CallsOf(trace);
    assert (h + [trace])[..|h|] == h;
    forall p ensures EdgeReflects(docs, h + [trace], p) {
      assert EdgeWritten(docs, h, calls, p, KeysOf(calls) * KeysFor(calls, p));
      assert KeysOf(calls) * KeysFor(calls, p) == KeysFor(calls, p);
    }
  }

  class ServiceMapStore {
    var services: map<string, ServiceDoc>
    var edges: map<Pair, EdgeDoc>
    ghost var history: seq<Trace>

    ghost predicate Valid()
      reads this
    {
      && (forall name :: ServiceReflects(services, history, name))
      && (forall p :: EdgeReflects(edges, history, p))
    }

    constructor ()
      ensures Valid() && history == []
    {
      services, edges, history := map[], map[], [];
    }

    // The two writes to a service document.
    method UpsertService(name: string, stats: Stats, trace: Trace, ghost before: Stats)
      requires ServiceHolds(services, name, before) && (before.count == 0 ==> before == Nothing())
      requires stats.count > 0
      modifies this`services
      ensures ServiceHolds(services, name, Add(before, Stats(1, Mean(stats), stats.errors)))
      ensures name in services && services == old(services)[name := services[name]]
      ensures services[name].lastSeen == trace.endMs
      ensures services[name].firstSeen == if name in old(services) then old(services)[name].firstSeen else trace.startMs
    {
      var doc := if name in services then services[name] else ServiceDoc(trace.startMs, trace.endMs, 0, 0, 0.0);
      doc := doc.(lastSeen := trace.endMs, traceCount := doc.traceCount + 1,
                  errorCount := doc.errorCount + stats.errors);
      services := services[name := doc];
      var mean := Over(stats.total, stats.count);
      RollingMean(before, Stats(1, mean, stats.errors), doc.avgDurationMs);
      services := services[name := doc.(avgDurationMs :=
        if doc.traceCount > 0 then Weighted(doc.avgDurationMs, doc.traceCount - 1, mean, doc.traceCount) else mean)];
    }

    // The two writes to an edge document.
    method UpsertEdge(p: Pair, stats: EdgeStats, ghost before: Stats)
      requires EdgeHolds(edges, p, before) && (before.count == 0 ==> before.total == 0.0 && before.errors == 0)
      requires stats.stats.count > 0
      modifies this`edges
      ensures EdgeHolds(edges, p, Add(before, stats.stats))
      ensures p in edges && edges[p].lastSeen == stats.lastSeen && edges == old(edges)[p := edges[p]]
    {
      var doc := if p in edges then edges[p] else EdgeDoc(0, 0, 0.0, stats.lastSeen);
      doc := doc.(lastSeen := stats.lastSeen, callCount := doc.callCount + stats.stats.count,
                  errorCount := doc.errorCount + stats.stats.errors);
      edges := edges[p := doc];
      RollingMean(before, stats.stats, doc.avgLatencyMs);
      var alone := stats.stats.total / Max(1.0, stats.stats.count as real);
      edges := edges[p := doc.(avgLatencyMs :=
        if doc.callCount > 0
        then Weighted(doc.avgLatencyMs, doc.callCount - stats.stats.count, stats.stats.total, doc.callCount)
        else alone)];
    }

    method MaterializeServices(trace: Trace)
      requires Valid()
      modifies this`services
      ensures forall name :: ServiceReflects(services, history + [trace], name)
    {
      var byService := GroupByService(trace.spans);
      var left := byService.Keys;
      ServicesStart(services, history, trace, left);
      while left != {}
        invariant left <= byService.Keys
        invariant ServicesAt(services, history, trace, left)
        decreases left
      {
        var name :| name in left;
        ghost var was := services;
        assert ServiceReflects(was, history, name);
        EmptyTally(history, name);
        UpsertService(name, byService[name], trace, TraceTally(history, name));
        ServicesStep(was, services, history, trace, left, name);
        left := left - {name};
      }
    }

    // The writes for one key of the grouped calls; `done` are the keys already written.
    method WriteEdge(trace: Trace, key: string, stats: EdgeStats, ghost done: set<string>)
      requires key in KeysOf(CallsOf(trace)) && key !in done
      requires stats == KeyTally(CallsOf(trace), key) && stats.stats.count > 0
      requires EdgesAt(edges, history, CallsOf(trace), done)
      modifies this`edges
      ensures EdgesAt(edges, history, CallsOf(trace), done + {key})
    {
      ghost var calls := CallsOf(trace);
      var recorded := Recorded(key);
      ghost var was := edges;
      if recorded.Some? {
        ghost var p := recorded.value;
        ghost var wrote := done * KeysFor(calls, p);
        assert EdgeWritten(was, history, calls, p, wrote);
        CallTallyEmpty(history, p);
        KeysTallyEmpty(calls, wrote);
        UpsertEdge(recorded.value, stats, Add(CallTally(history, p), KeysTally(calls, wrote)));
        EdgeWrittenStep(was, edges, history, calls, p, done, key);
      }
      EdgesStep(was, edges, history, calls, done, key);
    }

    method MaterializeEdges(trace: Trace)
      requires forall p :: EdgeReflects(edges, history, p)
      modifies this`edges
      ensures forall p :: EdgeReflects(edges, history + [trace], p)
    {
      var spanById := IndexById(trace.spans);
      var edgeAgg := GroupByEdge(trace.spans, spanById);
      ghost var done := {};
      var left := edgeAgg.Keys;
      EdgesStart(edges, history, CallsOf(trace));
      while left != {}
        invariant left !! done && left + done == edgeAgg.Keys
        invariant EdgesAt(edges, history, CallsOf(trace), done)
        decreases left
      {
        var key :| key in left;
        left := left - {key};
        WriteEdge(trace, key, edgeAgg[key], done);
        done := done + {key};
      }
      assert done == KeysOf(CallsOf(trace));
      EdgesEnd(edges, history, trace);
    }

    /** After any sequence of traces every stored document agrees with the whole of it. */
    method Materialize(trace: Trace)
      requires Valid()
      modifies this
      ensures history == old(history) + [trace]
      ensures Valid()
    {
      MaterializeServices(trace);
      MaterializeEdges(trace);
      history := history + [trace];
    }
  }

  /** With plain service names an edge document stands for exactly the spans of service p.to whose parent is in service
      p.from, in all the traces: their number, their failures and the mean of their durations. */
  lemma EdgesByService(store: ServiceMapStore, p: Pair)
    requires store.Valid() && forall i | 0 <= i < |store.history| :: PlainNames(store.history[i].spans)
    ensures var t := ChildTallies(store.history, p);
            if t.count == 0 then p !in store.edges
            else
              && p in store.edges
              && store.edges[p].callCount == t.count && store.edges[p].errorCount == t.errors
              && store.edges[p].avgLatencyMs == t.total / t.count as real
  {
    HistoryOfChildren(store.history, p);
    assert EdgeReflects(store.edges, store.history, p);
  }

  method GroupByService(spans: seq<Span>) returns (byService: map<string, Stats>)
    ensures forall n :: n in byService <==> ServiceTally(spans, n).count > 0
    ensures forall n :: n in byService ==> byService[n] == ServiceTally(spans, n)
  {
    byService := map[];
    for i := 0 to |spans|
      invariant forall n :: if n in byService then byService[n].count > 0 && byService[n] == ServiceTally(spans[..i], n)
                            else ServiceTally(spans[..i], n) == Nothing()
    {
      var s := spans[i];
      assert spans[..i + 1][..i] == spans[..i];
      var cur := if s.serviceName in byService then byService[s.serviceName] else Nothing();
      byService := byService[s.serviceName := Add(cur, One(s.durationMs, s.failed))];
    }
    assert spans[..|spans|] == spans;
  }

  method IndexById(spans: seq<Span>) returns (spanById: map<string, Span>)
    ensures spanById == ById(spans)
  {
    spanById := map[];
    for i := 0 to |spans|
      invariant spanById == ById(spans[..i])
    {
      assert spans[..i + 1][..i] == spans[..i];
      spanById := spanById[spans[i].spanId := spans[i]];
    }
    assert spans[..|spans|] == spans;
  }

  method GroupByEdge(spans: seq<Span>, spanById: map<string, Span>) returns (edgeAgg: map<string, EdgeStats>)
    ensures Grouped(edgeAgg, Calls(spans, spanById))
  {
    edgeAgg := map[];
    for i := 0 to |spans|
      invariant Grouped(edgeAgg, Calls(spans[..i], spanById))
    {
      var s := spans[i];
      ghost var before := Calls(spans[..i], spanById);
      assert spans[..i + 1][..i] == spans[..i];
      assert before + [] == before;
      if s.parentSpanId.None? || s.parentSpanId.value == "" { continue; }
      if s.parentSpanId.value !in spanById { continue; }
      var parent := spanById[s.parentSpanId.value];
      if parent.serviceName == s.serviceName { continue; }
      var key := Key(parent.serviceName, s.serviceName);
      var cur := if key in edgeAgg then edgeAgg[key] else EdgeStats(Nothing(), 0.0);
      GroupedStep(edgeAgg, before, Call(key, s.durationMs, s.endMs, s.failed));
      edgeAgg := edgeAgg[key := EdgeStats(Add(cur.stats, One(s.durationMs, s.failed)), Max(cur.lastSeen, s.endMs))];
    }
    assert spans[..|spans|] == spans;
  }
}
