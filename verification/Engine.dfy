/** The bounded graph interpreter that runs a workflow document, and the step records it leaves. */
module Engine {
  // The code is apps/workflow-builder/src: execution/engine.ts, repo/runs.ts. Node runners are arbitrary: `oracle(k)`
  // is what the k-th node executed returned or threw.

  import opened Wrappers
  import opened Document

  const MAX_STEPS := 200

  datatype Outcome = Returns(output: Value, next: Option<Branch>) | Throws(error: string)

  datatype Status = Running | Succeeded | Failed

  datatype RunStep = RunStep(nodeId: Option<Id>, status: Status, output: Option<Value>, error: Option<string>)

  datatype Result = Success(output: Option<Value>) | Failure(error: string, output: Option<Value>)

  // The order in which the entries of the two records are enumerated: any order will do.
  datatype Listing = Listing(nodes: seq<Id>, edges: seq<Id>)

  ghost predicate Lists(doc: Doc, l: Listing) {
    && (forall k :: k in l.nodes <==> k in doc.nodes) && (forall k :: k in l.edges <==> k in doc.edges)
    && (forall a, b | 0 <= a < b < |l.nodes| :: l.nodes[a] != l.nodes[b])
    && (forall a, b | 0 <= a < b < |l.edges| :: l.edges[a] != l.edges[b])
  }

  // ---- choosing nodes and edges ----

  function FirstStart(doc: Doc, ids: seq<Id>): Option<Node> {
    if ids == [] then None
    else if ids[0] in doc.nodes && doc.nodes[ids[0]].kind == Some(Start) then Some(doc.nodes[ids[0]])
    else FirstStart(doc, ids[1..])
  }

  function FirstWithoutInbound(doc: Doc, inbound: set<Id>, ids: seq<Id>): Option<Node> {
    if ids == [] then None
    else if ids[0] in doc.nodes && (doc.nodes[ids[0]].id.None? || doc.nodes[ids[0]].id.value !in inbound)
    then Some(doc.nodes[ids[0]])
    else FirstWithoutInbound(doc, inbound, ids[1..])
  }

  function Inbound(doc: Doc): set<Id> {
    set k | k in doc.edges :: doc.edges[k].to
  }

  function FindStart(doc: Doc, l: Listing): Option<Node> {
    var start := FirstStart(doc, l.nodes);
    if start.Some? then start else FirstWithoutInbound(doc, Inbound(doc), l.nodes)
  }

  // findStart fills its set of inbound ids in a loop over the edges.
  method FillInbound(doc: Doc, l: Listing) returns (inbound: set<Id>)
    requires Lists(doc, l)
    ensures inbound == Inbound(doc)
  {
    inbound := {};
    for i := 0 to |l.edges|
      invariant inbound == set a | 0 <= a < i :: doc.edges[l.edges[a]].to
    {
      inbound := inbound + {doc.edges[l.edges[i]].to};
    }
    forall k | k in doc.edges ensures doc.edges[k].to in inbound {
      var a :| 0 <= a < |l.edges| && l.edges[a] == k;
    }
  }

  function NextEdges(doc: Doc, ids: seq<Id>, from: Option<Id>): seq<Edge> {
    if ids == [] then []
    else
      var rest := NextEdges(doc, ids[1..], from);
      if ids[0] in doc.edges && Some(doc.edges[ids[0]].from) == from then [doc.edges[ids[0]]] + rest else rest
  }

  function FindEdge(edges: seq<Edge>, matches: Edge -> bool): Option<Edge> {
    if edges == [] then None else if matches(edges[0]) then Some(edges[0]) else FindEdge(edges[1..], matches)
  }

  function PickEdge(edges: seq<Edge>, branch: Branch): Option<Edge> {
    var exact := FindEdge(edges, (e: Edge) => e.branch == Some(branch));
    if exact.Some? then exact else FindEdge(edges, (e: Edge) => e.branch == None || e.branch == Some(Default))
  }

  function Taken(o: Outcome): Branch {
    if o.Returns? && o.next.Some? then o.next.value else Default
  }

  // ---- step records ----

  function Patched(step: RunStep, status: Status, output: Option<Value>, error: Option<string>): RunStep {
    step.(status := status, output := if output.Some? then output else step.output,
          error := if error.Some? then error else step.error)
  }

  // The positional update: the first step with that node id.
  function Patch(steps: seq<RunStep>, nodeId: Option<Id>, status: Status, output: Option<Value>,
                 error: Option<string>): seq<RunStep> {
    if steps == [] then []
    else if steps[0].nodeId == nodeId then [Patched(steps[0], status, output, error)] + steps[1..]
    else [steps[0]] + Patch(steps[1..], nodeId, status, output, error)
  }

  lemma {:induction false} PatchFirst(steps: seq<RunStep>, nodeId: Option<Id>, status: Status, output: Option<Value>,
                                      error: Option<string>, i: nat)
    requires i <= |steps| && (forall a | 0 <= a < i :: steps[a].nodeId != nodeId)
    requires i < |steps| ==> steps[i].nodeId == nodeId
    ensures Patch(steps, nodeId, status, output, error)
         == if i < |steps| then steps[i := Patched(steps[i], status, output, error)] else steps
    decreases i
  {
    if i > 0 {
      PatchFirst(steps[1..], nodeId, status, output, error, i - 1);
    }
  }

  class RunRecord {
    var steps: seq<RunStep>

    method PushStep(step: RunStep)
      modifies this
      ensures steps == old(steps) + [step]
    {
      steps := steps + [step];
    }

    method PatchStep(nodeId: Option<Id>, status: Status, output: Option<Value>, error: Option<string>)
      modifies this
      ensures steps == Patch(old(steps), nodeId, status, output, error)
    {
      var i := 0;
      while i < |steps| && steps[i].nodeId != nodeId
        invariant 0 <= i <= |steps| && steps == old(steps)
        invariant forall a | 0 <= a < i :: steps[a].nodeId != nodeId
      {
        i := i + 1;
      }
      PatchFirst(steps, nodeId, status, output, error, i);
      if i < |steps| {
        var s := steps[i].(status := status);
        if output.Some? {
          s := s.(output := output);
        }
        if error.Some? {
          s := s.(error := error);
        }
        steps := steps[i := s];
      }
    }
  }

  // ---- the interpreter as a function ----

  datatype Final = Final(result: Result, steps: seq<RunStep>)

  function Stop(k: nat, last: Option<Value>, steps: seq<RunStep>): Final {
    Final(if k >= MAX_STEPS then Failure("step budget exhausted (200)", last) else Success(last), steps)
  }

  function Go(doc: Doc, l: Listing, oracle: nat -> Outcome, cur: Option<Node>, k: nat, last: Option<Value>,
              steps: seq<RunStep>): Final
    decreases MAX_STEPS - k
  {
    if cur.None? || k >= MAX_STEPS then Stop(k, last, steps)
    else if cur.value.kind.None? then
      Final(Failure("unknown node kind", None),
            steps + [RunStep(cur.value.id, Failed, None, Some("unknown node kind"))])
    else
      var pushed := steps + [RunStep(cur.value.id, Running, None, None)];
      match oracle(k)
      case Throws(error) => Final(Failure(error, last), Patch(pushed, cur.value.id, Failed, None, Some(error)))
      case Returns(output, _) =>
        var patched := Patch(pushed, cur.value.id, Succeeded, Some(output), None);
        var picked := PickEdge(NextEdges(doc, l.edges, cur.value.id), Taken(oracle(k)));
        if picked.None? then Stop(k + 1, Some(output), patched)
        else Go(doc, l, oracle, Lookup(doc.nodes, picked.value.to), k + 1, Some(output), patched)
  }

  function Run(doc: Doc, l: Listing, oracle: nat -> Outcome, input: Option<Value>, steps: seq<RunStep>): Final {
    var start := FindStart(doc, l);
    if start.None? then Final(Failure("no start node", None), steps) else Go(doc, l, oracle, start, 0, input, steps)
  }

  method ExecuteWorkflow(doc: Doc, l: Listing, oracle: nat -> Outcome, input: Option<Value>, run: RunRecord)
    returns (result: Result)
    modifies run
    ensures Final(result, run.steps) == Run(doc, l, oracle, input, old(run.steps))
  {
    var cursor := FindStart(doc, l);
    if cursor.None? {
      return Failure("no start node", None);
    }
    var stepsExecuted, lastOutput := 0, input;
    ghost var goal := Go(doc, l, oracle, cursor, 0, input, run.steps);
    while cursor.Some? && stepsExecuted < MAX_STEPS
      invariant stepsExecuted <= MAX_STEPS
      invariant Go(doc, l, oracle, cursor, stepsExecuted, lastOutput, run.steps) == goal
      decreases MAX_STEPS - stepsExecuted
    {
      var node := cursor.value;
      if node.kind.None? {
        run.PushStep(RunStep(node.id, Failed, None, Some("unknown node kind")));
        return Failure("unknown node kind", None);
      }
      run.PushStep(RunStep(node.id, Running, None, None));
      match oracle(stepsExecuted) {
        case Throws(error) =>
          run.PatchStep(node.id, Failed, None, Some(error));
          return Failure(error, lastOutput);
        case Returns(output, next) =>
          run.PatchStep(node.id, Succeeded, Some(output), None);
          var branch := if next.Some? then next.value else Default;
          lastOutput := Some(output);
          var picked := PickEdge(NextEdges(doc, l.edges, node.id), branch);
          stepsExecuted := stepsExecuted + 1;
          if picked.None? {
            break;
          }
          cursor := Lookup(doc.nodes, picked.value.to);
      }
    }
    if stepsExecuted >= MAX_STEPS {
      return Failure("step budget exhausted (200)", lastOutput);
    }
    return Success(lastOutput);
  }

  // ---- runs on well-formed documents ----

  // The node a walk moves to from `id` when its k-th node came back with oracle(k).
  ghost function Next(doc: Doc, l: Listing, oracle: nat -> Outcome, id: Id, k: nat): Option<Id> {
    var picked := PickEdge(NextEdges(doc, l.edges, Some(id)), Taken(oracle(k)));
    if picked.Some? then Some(picked.value.to) else None
  }

  lemma {:induction false} NextEdgesAreEdges(doc: Doc, ids: seq<Id>, from: Option<Id>)
    ensures forall e | e in NextEdges(doc, ids, from) :: Some(e.from) == from && exists k ::
        k in doc.edges && doc.edges[k] == e
    decreases |ids|
  {
    if ids != [] {
      NextEdgesAreEdges(doc, ids[1..], from);
    }
  }

  lemma {:induction false} FindEdgeFinds(edges: seq<Edge>, matches: Edge -> bool)
    ensures FindEdge(edges, matches).Some? ==>
        FindEdge(edges, matches).value in edges && matches(FindEdge(edges, matches).value)
    ensures FindEdge(edges, matches).None? ==> forall e | e in edges :: !matches(e)
    decreases |edges|
  {
    if edges != [] {
      FindEdgeFinds(edges[1..], matches);
    }
  }

  // An edge of the document leads from `id` to wherever the walk moves next.
  lemma NextFollowsEdge(doc: Doc, l: Listing, oracle: nat -> Outcome, id: Id, k: nat)
    ensures Next(doc, l, oracle, id, k).Some? ==>
              exists e :: e in doc.edges && doc.edges[e].from == id
                  && doc.edges[e].to == Next(doc, l, oracle, id, k).value
  {
    var edges := NextEdges(doc, l.edges, Some(id));
    NextEdgesAreEdges(doc, l.edges, Some(id));
    FindEdgeFinds(edges, (e: Edge) => e.branch == Some(Taken(oracle(k))));
    FindEdgeFinds(edges, (e: Edge) => e.branch == None || e.branch == Some(Default));
  }

  lemma NextIsNode(doc: Doc, l: Listing, oracle: nat -> Outcome, id: Id, k: nat)
    requires WellFormed(doc) && Next(doc, l, oracle, id, k).Some?
    ensures Next(doc, l, oracle, id, k).value in doc.nodes
    ensures Lookup(doc.nodes, Next(doc, l, oracle, id, k).value) == Some(doc.nodes[Next(doc, l, oracle, id, k).value])
  {
    NextFollowsEdge(doc, l, oracle, id, k);
  }

  lemma {:induction false} FirstStartIsNode(doc: Doc, ids: seq<Id>)
    requires WellFormed(doc)
    ensures var n := FirstStart(doc, ids); n.Some? ==>
        n.value.id.Some? && n.value.id.value in doc.nodes && doc.nodes[n.value.id.value] == n.value
    decreases |ids|
  {
    if ids != [] {
      FirstStartIsNode(doc, ids[1..]);
    }
  }

  lemma {:induction false} FirstWithoutInboundIsNode(doc: Doc, inbound: set<Id>, ids: seq<Id>)
    requires WellFormed(doc)
    ensures var n := FirstWithoutInbound(doc, inbound, ids);
            n.Some? ==> n.value.id.Some? && n.value.id.value in doc.nodes && doc.nodes[n.value.id.value] == n.value
    decreases |ids|
  {
    if ids != [] {
      FirstWithoutInboundIsNode(doc, inbound, ids[1..]);
    }
  }

  lemma StartIsNode(doc: Doc, l: Listing)
    requires WellFormed(doc)
    ensures var n := FindStart(doc, l);
            n.Some? ==> n.value.id.Some? && n.value.id.value in doc.nodes && doc.nodes[n.value.id.value] == n.value
  {
    FirstStartIsNode(doc, l.nodes);
    FirstWithoutInboundIsNode(doc, Inbound(doc), l.nodes);
  }

  /** A complete walk through the document: every node on it returns, its outcome picks the edge to the following one,
      and the last picks none. The first node of the path is the k-th executed. */
  ghost predicate Completes(doc: Doc, l: Listing, oracle: nat -> Outcome, k: nat, path: seq<Id>)
    decreases |path|
  {
    && path != [] && oracle(k).Returns?
    && (if |path| == 1 then Next(doc, l, oracle, path[0], k) == None
        else Next(doc, l, oracle, path[0], k) == Some(path[1]) && Completes(doc, l, oracle, k + 1, path[1..]))
  }

  ghost predicate Finishes(doc: Doc, l: Listing, oracle: nat -> Outcome, id: Id, k: nat, path: seq<Id>) {
    path != [] && path[0] == id && Completes(doc, l, oracle, k, path) && k + |path| < MAX_STEPS
  }

  ghost predicate CanFinish(doc: Doc, l: Listing, oracle: nat -> Outcome, id: Id, k: nat) {
    exists path :: Finishes(doc, l, oracle, id, k, path)
  }

  lemma FinishesNext(doc: Doc, l: Listing, oracle: nat -> Outcome, id: Id, to: Id, k: nat)
    requires oracle(k).Returns? && Next(doc, l, oracle, id, k) == Some(to)
    ensures CanFinish(doc, l, oracle, id, k) <==> CanFinish(doc, l, oracle, to, k + 1)
  {
    if CanFinish(doc, l, oracle, id, k) {
      var path :| Finishes(doc, l, oracle, id, k, path);
      assert Finishes(doc, l, oracle, to, k + 1, path[1..]);
    }
    if CanFinish(doc, l, oracle, to, k + 1) {
      var path :| Finishes(doc, l, oracle, to, k + 1, path);
      assert ([id] + path)[1..] == path;
      assert Finishes(doc, l, oracle, id, k, [id] + path);
    }
  }

  lemma FinishesHere(doc: Doc, l: Listing, oracle: nat -> Outcome, id: Id, k: nat)
    requires oracle(k).Throws? || Next(doc, l, oracle, id, k) == None
    ensures CanFinish(doc, l, oracle, id, k) <==> (oracle(k).Returns? && k + 1 < MAX_STEPS)
  {
    if oracle(k).Returns? && k + 1 < MAX_STEPS {
      assert Finishes(doc, l, oracle, id, k, [id]);
    }
  }

  // The records once node id has been pushed, run and patched.
  ghost function Recorded(steps: seq<RunStep>, id: Id, o: Outcome): seq<RunStep> {
    var pushed := steps + [RunStep(Some(id), Running, None, None)];
    if o.Throws? then Patch(pushed, Some(id), Failed, None, Some(o.error))
    else Patch(pushed, Some(id), Succeeded, Some(o.output), None)
  }

  // One round of the interpreter on a well-formed document.
  lemma GoRound(doc: Doc, l: Listing, oracle: nat -> Outcome, id: Id, k: nat, last: Option<Value>, steps: seq<RunStep>)
    requires WellFormed(doc) && id in doc.nodes && k < MAX_STEPS
    ensures var f := Go(doc, l, oracle, Some(doc.nodes[id]), k, last, steps);
            var after := Recorded(steps, id, oracle(k));
            var next := Next(doc, l, oracle, id, k);
            if oracle(k).Throws? then f == Final(Failure(oracle(k).error, last), after)
            else if next.None? then f == Stop(k + 1, Some(oracle(k).output), after)
            else next.value in doc.nodes
                 && f == Go(doc, l, oracle, Some(doc.nodes[next.value]), k + 1, Some(oracle(k).output), after)
  {
    if oracle(k).Returns? && Next(doc, l, oracle, id, k).Some? {
      NextIsNode(doc, l, oracle, id, k);
    }
  }

  lemma {:induction false} GoSucceedsIff(doc: Doc, l: Listing, oracle: nat -> Outcome, id: Id, k: nat,
                                         last: Option<Value>, steps: seq<RunStep>)
    requires WellFormed(doc) && id in doc.nodes && k <= MAX_STEPS
    ensures Go(doc, l, oracle, Some(doc.nodes[id]), k, last, steps).result.Success?
        <==> CanFinish(doc, l, oracle, id, k)
    decreases MAX_STEPS - k
  {
    if k < MAX_STEPS {
      GoRound(doc, l, oracle, id, k, last, steps);
      var next := Next(doc, l, oracle, id, k);
      if oracle(k).Returns? && next.Some? {
        GoSucceedsIff(doc, l, oracle, next.value, k + 1, Some(oracle(k).output), Recorded(steps, id, oracle(k)));
        FinishesNext(doc, l, oracle, id, next.value, k);
      } else {
        FinishesHere(doc, l, oracle, id, k);
      }
    }
  }

  /** On a well-formed document a run succeeds exactly when the walk its outcomes trace from the start node completes,
      every node on it returning, in fewer than 200 nodes. */
  lemma SucceedsIff(doc: Doc, l: Listing, oracle: nat -> Outcome, input: Option<Value>, steps: seq<RunStep>)
    requires WellFormed(doc)
    ensures Run(doc, l, oracle, input, steps).result.Success?
       <==> (FindStart(doc, l).Some? && FindStart(doc, l).value.id.Some?
             && exists path :: Finishes(doc, l, oracle, FindStart(doc, l).value.id.value, 0, path))
  {
    StartIsNode(doc, l);
    var start := FindStart(doc, l);
    if start.Some? {
      GoSucceedsIff(doc, l, oracle, start.value.id.value, 0, input, steps);
    }
  }

  // ---- step records and revisited nodes ----

  ghost predicate FirstSeen(steps: seq<RunStep>, i: nat)
    requires i < |steps|
  {
    forall a | 0 <= a < i :: steps[a].nodeId != steps[i].nodeId
  }

  // Settled exactly where the step is the first of its node.
  ghost predicate Tracked(steps: seq<RunStep>) {
    forall i | 0 <= i < |steps| :: steps[i].status.Running? <==> !FirstSeen(steps, i)
  }

  lemma FirstSeenSame(xs: seq<RunStep>, ys: seq<RunStep>, a: nat)
    requires a < |xs| && a < |ys| && forall b | 0 <= b <= a :: xs[b].nodeId == ys[b].nodeId
    ensures FirstSeen(xs, a) <==> FirstSeen(ys, a)
  {
  }

  // Pushing a running step and patching by its node id settles the first step of that node.
  lemma RecordTracks(steps: seq<RunStep>, id: Id, o: Outcome)
    requires Tracked(steps)
    ensures Tracked(Recorded(steps, id, o))
  {
    var pushed := steps + [RunStep(Some(id), Running, None, None)];
    assert pushed[|steps|].nodeId == Some(id);
    var i := FirstOf(pushed, Some(id));
    if o.Throws? {
      PatchFirst(pushed, Some(id), Failed, None, Some(o.error), i);
    } else {
      PatchFirst(pushed, Some(id), Succeeded, Some(o.output), None, i);
    }
    var after := Recorded(steps, id, o);
    assert forall a | 0 <= a < |after| :: after[a].nodeId == pushed[a].nodeId && (a != i ==> after[a] == pushed[a]);
    forall a | 0 <= a < |after| ensures after[a].status.Running? <==> !FirstSeen(after, a) {
      if a < |steps| {
        FirstSeenSame(after, steps, a);
      }
    }
  }

  // A node not seen before gets a step of its own.
  lemma RecordAppends(steps: seq<RunStep>, id: Id, o: Outcome)
    requires forall i | 0 <= i < |steps| :: steps[i].nodeId != Some(id)
    ensures var after := Recorded(steps, id, o);
            |after| == |steps| + 1 && after[..|steps|] == steps && after[|steps|].nodeId == Some(id)
            && after[|steps|].status == if o.Throws? then Failed else Succeeded
  {
    var pushed := steps + [RunStep(Some(id), Running, None, None)];
    if o.Throws? {
      PatchFirst(pushed, Some(id), Failed, None, Some(o.error), |steps|);
    } else {
      PatchFirst(pushed, Some(id), Succeeded, Some(o.output), None, |steps|);
    }
  }

  lemma {:induction false} FirstOf(steps: seq<RunStep>, id: Option<Id>) returns (i: nat)
    requires exists a :: 0 <= a < |steps| && steps[a].nodeId == id
    ensures i < |steps| && steps[i].nodeId == id && forall a | 0 <= a < i :: steps[a].nodeId != id
    decreases |steps|
  {
    if steps[0].nodeId == id {
      i := 0;
    } else {
      assert exists a :: 0 <= a < |steps[1..]| && steps[1..][a].nodeId == id by {
        var a :| 0 <= a < |steps| && steps[a].nodeId == id;
        assert steps[1..][a - 1].nodeId == id;
      }
      i := FirstOf(steps[1..], id);
      i := i + 1;
    }
  }

  lemma {:induction false} GoTracks(doc: Doc, l: Listing, oracle: nat -> Outcome, id: Id, k: nat, last: Option<Value>,
                                    steps: seq<RunStep>)
    requires WellFormed(doc) && id in doc.nodes && k <= MAX_STEPS && Tracked(steps)
    ensures Tracked(Go(doc, l, oracle, Some(doc.nodes[id]), k, last, steps).steps)
    decreases MAX_STEPS - k
  {
    if k < MAX_STEPS {
      GoRound(doc, l, oracle, id, k, last, steps);
      RecordTracks(steps, id, oracle(k));
      var next := Next(doc, l, oracle, id, k);
      if oracle(k).Returns? && next.Some? {
        GoTracks(doc, l, oracle, next.value, k + 1, Some(oracle(k).output), Recorded(steps, id, oracle(k)));
      }
    }
  }

  ghost predicate NoRepeats(steps: seq<RunStep>) {
    forall a, b | 0 <= a < b < |steps| :: steps[a].nodeId != steps[b].nodeId
  }

  ghost predicate Settled(steps: seq<RunStep>) {
    forall i | 0 <= i < |steps| :: !steps[i].status.Running?
  }

  /** A run that starts with no steps leaves a step running for ever exactly when it visits some node twice: the
      positional update always finds the node's first step. */
  lemma AllSettledIff(doc: Doc, l: Listing, oracle: nat -> Outcome, input: Option<Value>)
    requires WellFormed(doc)
    ensures var steps := Run(doc, l, oracle, input, []).steps;
            Settled(steps) <==> NoRepeats(steps)
  {
    StartIsNode(doc, l);
    var start := FindStart(doc, l);
    if start.Some? {
      GoTracks(doc, l, oracle, start.value.id.value, 0, input, []);
    }
    var steps := Run(doc, l, oracle, input, []).steps;
    assert Tracked(steps);
    if NoRepeats(steps) {
      assert forall i | 0 <= i < |steps| :: FirstSeen(steps, i);
    } else {
      var a, b :| 0 <= a < b < |steps| && steps[a].nodeId == steps[b].nodeId;
      assert !FirstSeen(steps, b);
    }
  }

  // ---- when no behaviour of the nodes leaves a step running ----

  ghost predicate PicksBy(doc: Doc, l: Listing, from: Id, branch: Branch, to: Id) {
    var picked := PickEdge(NextEdges(doc, l.edges, Some(from)), branch);
    picked.Some? && picked.value.to == to
  }

  // Some outcome of node `from` makes a run go on to node `to`.
  ghost predicate Picks(doc: Doc, l: Listing, from: Id, to: Id) {
    exists branch :: PicksBy(doc, l, from, branch, to)
  }

  // A walk from the start node along edges some branch outcome picks.
  ghost predicate Route(doc: Doc, l: Listing, path: seq<Id>) {
    && path != [] && FindStart(doc, l).Some? && FindStart(doc, l).value.id == Some(path[0])
    && forall i, j | 0 <= i && j == i + 1 && j < |path| :: Picks(doc, l, path[i], path[j])
  }

  ghost predicate Distinct(path: seq<Id>) {
    forall a, b | 0 <= a < b < |path| :: path[a] != path[b]
  }

  // The steps are of these nodes, in this order.
  ghost predicate Visits(steps: seq<RunStep>, path: seq<Id>) {
    |steps| <= |path| && forall i | 0 <= i < |steps| :: steps[i].nodeId == Some(path[i])
  }

  lemma RecordVisits(steps: seq<RunStep>, path: seq<Id>, k: nat, o: Outcome, after: seq<RunStep>)
    requires Visits(steps, path) && |steps| == k < |path| && after == Recorded(steps, path[k], o)
    ensures Visits(after, path) && |after| == k + 1
  {
    var id := Some(path[k]);
    var pushed := steps + [RunStep(id, Running, None, None)];
    assert pushed[k].nodeId == id;
    var i := FirstOf(pushed, id);
    if o.Throws? {
      PatchFirst(pushed, id, Failed, None, Some(o.error), i);
    } else {
      PatchFirst(pushed, id, Succeeded, Some(o.output), None, i);
    }
    assert forall a | 0 <= a < |after| :: after[a].nodeId == pushed[a].nodeId;
  }

  lemma RouteGrows(doc: Doc, l: Listing, path: seq<Id>, to: Id)
    requires Route(doc, l, path) && Picks(doc, l, path[|path| - 1], to)
    ensures Route(doc, l, path + [to])
  {
  }

  lemma RoutePart(doc: Doc, l: Listing, path: seq<Id>, n: nat, part: seq<Id>)
    requires Route(doc, l, path) && 0 < n <= |path| && part == path[..n]
    ensures Route(doc, l, part)
  {
    forall i, j | 0 <= i && j == i + 1 && j < |part| ensures Picks(doc, l, part[i], part[j]) {
      assert Picks(doc, l, path[i], path[j]);
    }
  }

  // One round on a route: what it records and where it goes on.
  lemma RouteRound(doc: Doc, l: Listing, oracle: nat -> Outcome, path: seq<Id>, k: nat, last: Option<Value>,
                   steps: seq<RunStep>, f: Final) returns (after: seq<RunStep>, next: Option<Id>)
    requires WellFormed(doc) && k < MAX_STEPS && |path| > k && path[k] in doc.nodes
    requires Visits(steps, path) && |steps| == k
    requires f == Go(doc, l, oracle, Some(doc.nodes[path[k]]), k, last, steps)
    ensures Visits(after, path) && |after| == k + 1
    ensures next == if oracle(k).Throws? then None else Next(doc, l, oracle, path[k], k)
    ensures next.None? ==> f.steps == after
    ensures next.Some? ==>
              next.value in doc.nodes && Picks(doc, l, path[k], next.value)
              && f == Go(doc, l, oracle, Some(doc.nodes[next.value]), k + 1, Some(oracle(k).output), after)
  {
    after, next := Recorded(steps, path[k], oracle(k)), None;
    GoRound(doc, l, oracle, path[k], k, last, steps);
    RecordVisits(steps, path, k, oracle(k), after);
    if oracle(k).Returns? {
      next := Next(doc, l, oracle, path[k], k);
      assert next.Some? ==> PicksBy(doc, l, path[k], Taken(oracle(k)), next.value);
    }
  }

  // Every run goes along a route of at most 200 nodes.
  lemma {:induction false} GoTraces(doc: Doc, l: Listing, oracle: nat -> Outcome, path: seq<Id>, k: nat,
                                    last: Option<Value>, steps: seq<RunStep>, f: Final) returns (whole: seq<Id>)
    requires WellFormed(doc) && k <= MAX_STEPS && |path| == k + 1 && path[k] in doc.nodes && Route(doc, l, path)
    requires Visits(steps, path) && |steps| == k
    requires f == Go(doc, l, oracle, Some(doc.nodes[path[k]]), k, last, steps)
    ensures Route(doc, l, whole) && Visits(f.steps, whole) && |f.steps| <= MAX_STEPS
    decreases MAX_STEPS - k
  {
    whole := path;
    if k < MAX_STEPS {
      var after, next := RouteRound(doc, l, oracle, path, k, last, steps, f);
      if next.Some? {
        RouteGrows(doc, l, path, next.value);
        whole := GoTraces(doc, l, oracle, path + [next.value], k + 1, Some(oracle(k).output), after, f);
      }
    }
  }

  ghost function BranchTo(doc: Doc, l: Listing, from: Id, to: Id): Branch {
    if Picks(doc, l, from, to) then var branch :| PicksBy(doc, l, from, branch, to); branch else Default
  }

  ghost predicate LeadsAt(doc: Doc, l: Listing, oracle: nat -> Outcome, path: seq<Id>, k: nat)
    requires k < |path|
  {
    if k + 1 < |path| then oracle(k).Returns? && Next(doc, l, oracle, path[k], k) == Some(path[k + 1])
    else oracle(k).Throws?
  }

  // Outcomes that lead along the path and stop the run at its end.
  ghost predicate LeadsAlong(doc: Doc, l: Listing, oracle: nat -> Outcome, path: seq<Id>) {
    forall k: nat | k < |path| :: LeadsAt(doc, l, oracle, path, k)
  }

  lemma {:induction false} GoFollows(doc: Doc, l: Listing, oracle: nat -> Outcome, path: seq<Id>, k: nat,
                                     last: Option<Value>, steps: seq<RunStep>, f: Final)
    requires WellFormed(doc) && k < |path| <= MAX_STEPS && path[k] in doc.nodes && LeadsAlong(doc, l, oracle, path)
    requires Visits(steps, path) && |steps| == k
    requires f == Go(doc, l, oracle, Some(doc.nodes[path[k]]), k, last, steps)
    ensures Visits(f.steps, path) && |f.steps| == |path|
    decreases |path| - k
  {
    assert LeadsAt(doc, l, oracle, path, k);
    var after, next := RouteRound(doc, l, oracle, path, k, last, steps, f);
    if k + 1 < |path| {
      GoFollows(doc, l, oracle, path, k + 1, Some(oracle(k).output), after, f);
    }
  }

  lemma RouteLeads(doc: Doc, l: Listing, path: seq<Id>) returns (oracle: nat -> Outcome)
    requires Route(doc, l, path)
    ensures LeadsAlong(doc, l, oracle, path)
  {
    oracle := (k: nat) => if k + 1 < |path| then Returns("", Some(BranchTo(doc, l, path[k], path[k + 1])))
                          else Throws("");
    forall k: nat | k < |path| ensures LeadsAt(doc, l, oracle, path, k) {
      if k + 1 < |path| {
        assert Picks(doc, l, path[k], path[k + 1]);
        assert PicksBy(doc, l, path[k], Taken(oracle(k)), path[k + 1]);
      }
    }
  }

  lemma RunTraces(doc: Doc, l: Listing, oracle: nat -> Outcome, input: Option<Value>, steps: seq<RunStep>)
    requires WellFormed(doc) && steps == Run(doc, l, oracle, input, []).steps
    requires forall path | Route(doc, l, path) && |path| <= MAX_STEPS :: Distinct(path)
    ensures Settled(steps)
  {
    StartIsNode(doc, l);
    var start := FindStart(doc, l);
    if start.Some? && steps != [] {
      var whole := GoTraces(doc, l, oracle, [start.value.id.value], 0, input, [], Run(doc, l, oracle, input, []));
      var part := whole[..|steps|];
      RoutePart(doc, l, whole, |steps|, part);
      assert Distinct(part);
      forall a, b | 0 <= a < b < |steps| ensures steps[a].nodeId != steps[b].nodeId {
        assert part[a] != part[b];
      }
    }
    AllSettledIff(doc, l, oracle, input);
  }

  lemma RouteIsRun(doc: Doc, l: Listing, path: seq<Id>) returns (oracle: nat -> Outcome)
    requires WellFormed(doc) && Route(doc, l, path) && |path| <= MAX_STEPS && !Distinct(path)
    ensures !Settled(Run(doc, l, oracle, None, []).steps)
  {
    StartIsNode(doc, l);
    oracle := RouteLeads(doc, l, path);
    var f := Run(doc, l, oracle, None, []);
    GoFollows(doc, l, oracle, path, 0, None, [], f);
    var a, b :| 0 <= a < b < |path| && path[a] == path[b];
    assert f.steps[a].nodeId == f.steps[b].nodeId;
    AllSettledIff(doc, l, oracle, None);
  }

  /** On a well-formed document no behaviour of the nodes leaves a step running for ever if and only if no walk of at
      most 200 nodes from the start node, along edges some branch outcome picks, returns to a node. */
  lemma AlwaysSettlesIff(doc: Doc, l: Listing)
    requires WellFormed(doc)
    ensures (forall oracle: nat -> Outcome, input :: Settled(Run(doc, l, oracle, input, []).steps))
       <==> (forall path | Route(doc, l, path) && |path| <= MAX_STEPS :: Distinct(path))
  {
    if forall path | Route(doc, l, path) && |path| <= MAX_STEPS :: Distinct(path) {
      forall oracle: nat -> Outcome, input ensures Settled(Run(doc, l, oracle, input, []).steps) {
        RunTraces(doc, l, oracle, input, Run(doc, l, oracle, input, []).steps);
      }
    } else {
      var path :| Route(doc, l, path) && |path| <= MAX_STEPS && !Distinct(path);
      var oracle := RouteIsRun(doc, l, path);
    }
  }

  lemma RouteInNodes(doc: Doc, l: Listing, path: seq<Id>, i: nat)
    requires WellFormed(doc) && Route(doc, l, path) && i < |path|
    ensures path[i] in doc.nodes
  {
    StartIsNode(doc, l);
    if i > 0 {
      assert Picks(doc, l, path[i - 1], path[i]);
      var branch :| PicksBy(doc, l, path[i - 1], branch, path[i]);
      NextIsNode(doc, l, k => Returns("", Some(branch)), path[i - 1], 0);
    }
  }

  lemma {:induction false} IdsFit(path: seq<Id>, ids: set<Id>)
    requires Distinct(path) && forall i | 0 <= i < |path| :: path[i] in ids
    ensures |path| <= |ids|
    decreases |path|
  {
    if path != [] {
      IdsFit(path[..|path| - 1], ids - {path[|path| - 1]});
    }
  }

  /** With fewer than 200 nodes the length of the walk is no matter. */
  lemma SmallAlwaysSettlesIff(doc: Doc, l: Listing)
    requires WellFormed(doc) && |doc.nodes| < MAX_STEPS
    ensures (forall oracle: nat -> Outcome, input :: Settled(Run(doc, l, oracle, input, []).steps))
       <==> (forall path | Route(doc, l, path) :: Distinct(path))
  {
    AlwaysSettlesIff(doc, l);
    if forall path | Route(doc, l, path) && |path| <= MAX_STEPS :: Distinct(path) {
      forall path | Route(doc, l, path) ensures Distinct(path) {
        if |path| > MAX_STEPS {
          var part := path[..MAX_STEPS];
          RoutePart(doc, l, path, MAX_STEPS, part);
          forall i | 0 <= i < |part| ensures part[i] in doc.nodes {
            RouteInNodes(doc, l, part, i);
          }
          IdsFit(part, doc.nodes.Keys);
        }
      }
    }
  }

  // ---- acyclic documents ----

  ghost predicate Leads(doc: Doc, from: Id, to: Id) {
    exists e :: e in doc.edges && doc.edges[e].from == from && doc.edges[e].to == to
  }

  ghost predicate Walk(doc: Doc, path: seq<Id>) {
    forall i, j | 0 <= i && j == i + 1 && j < |path| :: Leads(doc, path[i], path[j])
  }

  ghost predicate Closes(path: seq<Id>) {
    |path| >= 2 && path[0] == path[|path| - 1]
  }

  // No walk along edges ends where it starts.
  ghost predicate Acyclic(doc: Doc) {
    forall path | Walk(doc, path) :: !Closes(path)
  }

  // The steps are of these nodes of the document, in this order.
  ghost predicate StepsAlong(doc: Doc, path: seq<Id>, steps: seq<RunStep>) {
    && |steps| <= |path|
    && forall i | 0 <= i < |steps| :: steps[i].nodeId == Some(path[i]) && path[i] in doc.nodes
  }

  ghost predicate AllSucceeded(steps: seq<RunStep>) {
    forall i | 0 <= i < |steps| :: steps[i].status == Succeeded
  }

  // Every step succeeded, or the last one's node threw and the run failed with what it threw.
  ghost predicate EndsByThrow(oracle: nat -> Outcome, f: Final) {
    && f.steps != [] && AllSucceeded(f.steps[..|f.steps| - 1])
    && var last := |f.steps| - 1;
       && f.steps[last].status == Failed && oracle(last).Throws?
       && f.result.Failure? && f.result.error == oracle(last).error
  }

  lemma WalkGrows(doc: Doc, path: seq<Id>, to: Id)
    requires Walk(doc, path) && path != [] && Leads(doc, path[|path| - 1], to)
    ensures Walk(doc, path + [to])
  {
  }

  // On the way: the k nodes before the last of the path have run and succeeded.
  ghost predicate OnWalk(doc: Doc, path: seq<Id>, k: nat, steps: seq<RunStep>) {
    && |path| == k + 1 && |steps| == k && path[k] in doc.nodes
    && Walk(doc, path) && StepsAlong(doc, path, steps) && AllSucceeded(steps)
  }

  // The records after one more node.
  ghost predicate StepAdded(doc: Doc, path: seq<Id>, k: nat, steps: seq<RunStep>, o: Outcome, after: seq<RunStep>) {
    && |path| == |after| == k + 1 && |steps| == k && path[k] in doc.nodes && after[..k] == steps
    && after[k].nodeId == Some(path[k]) && after[k].status == if o.Throws? then Failed else Succeeded
  }

  lemma StepRecorded(doc: Doc, path: seq<Id>, k: nat, steps: seq<RunStep>, o: Outcome, after: seq<RunStep>)
    requires Acyclic(doc) && OnWalk(doc, path, k, steps) && after == Recorded(steps, path[k], o)
    ensures StepAdded(doc, path, k, steps, o, after)
  {
    WalkIsFresh(doc, path, steps);
    RecordAppends(steps, path[k], o);
  }

  lemma StepTaken(doc: Doc, path: seq<Id>, k: nat, steps: seq<RunStep>, o: Outcome, after: seq<RunStep>, to: Id)
    requires OnWalk(doc, path, k, steps) && StepAdded(doc, path, k, steps, o, after)
    requires o.Returns? && Leads(doc, path[k], to) && to in doc.nodes
    ensures OnWalk(doc, path + [to], k + 1, after)
  {
    WalkGrows(doc, path, to);
    assert forall i | 0 <= i < k :: after[i] == after[..k][i];
  }

  ghost predicate EndsWell(doc: Doc, oracle: nat -> Outcome, path: seq<Id>, f: Final) {
    && Walk(doc, path) && StepsAlong(doc, path, f.steps)
    && (AllSucceeded(f.steps) || EndsByThrow(oracle, f))
    && (AllSucceeded(f.steps) ==> (f.result.Success? <==> |f.steps| < MAX_STEPS))
  }

  lemma StopsHere(doc: Doc, oracle: nat -> Outcome, path: seq<Id>, k: nat, steps: seq<RunStep>, after: seq<RunStep>,
                  last: Option<Value>, f: Final)
    requires OnWalk(doc, path, k, steps) && StepAdded(doc, path, k, steps, oracle(k), after)
    requires f == if oracle(k).Throws? then Final(Failure(oracle(k).error, last), after) else Stop(k + 1, last, after)
    ensures EndsWell(doc, oracle, path, f)
  {
    assert forall i | 0 <= i < k :: after[i] == after[..k][i];
  }

  // One round, the records it leaves and where the walk goes on.
  lemma WalkRound(doc: Doc, l: Listing, oracle: nat -> Outcome, path: seq<Id>, k: nat, last: Option<Value>,
                  steps: seq<RunStep>, f: Final) returns (after: seq<RunStep>, next: Option<Id>)
    requires WellFormed(doc) && Acyclic(doc) && k < MAX_STEPS && OnWalk(doc, path, k, steps)
    requires f == Go(doc, l, oracle, Some(doc.nodes[path[k]]), k, last, steps)
    ensures StepAdded(doc, path, k, steps, oracle(k), after)
    ensures if oracle(k).Throws? then f == Final(Failure(oracle(k).error, last), after)
            else if next.None? then f == Stop(k + 1, Some(oracle(k).output), after)
            else next.value in doc.nodes && Leads(doc, path[k], next.value)
                 && f == Go(doc, l, oracle, Some(doc.nodes[next.value]), k + 1, Some(oracle(k).output), after)
  {
    after, next := Recorded(steps, path[k], oracle(k)), Next(doc, l, oracle, path[k], k);
    GoRound(doc, l, oracle, path[k], k, last, steps);
    StepRecorded(doc, path, k, steps, oracle(k), after);
    NextFollowsEdge(doc, l, oracle, path[k], k);
  }

  lemma {:induction false} GoWalks(doc: Doc, l: Listing, oracle: nat -> Outcome, path: seq<Id>, k: nat,
                                   last: Option<Value>, steps: seq<RunStep>, f: Final) returns (whole: seq<Id>)
    requires WellFormed(doc) && Acyclic(doc) && k <= MAX_STEPS && OnWalk(doc, path, k, steps)
    requires f == Go(doc, l, oracle, Some(doc.nodes[path[k]]), k, last, steps)
    ensures EndsWell(doc, oracle, whole, f)
    decreases MAX_STEPS - k
  {
    whole := path;
    if k < MAX_STEPS {
      var after, next := WalkRound(doc, l, oracle, path, k, last, steps, f);
      if oracle(k).Throws? {
        StopsHere(doc, oracle, path, k, steps, after, last, f);
      } else if next.None? {
        StopsHere(doc, oracle, path, k, steps, after, Some(oracle(k).output), f);
      } else {
        StepTaken(doc, path, k, steps, oracle(k), after, next.value);
        whole := GoWalks(doc, l, oracle, path + [next.value], k + 1, Some(oracle(k).output), after, f);
      }
    }
  }

  lemma PartOfWalk(doc: Doc, path: seq<Id>, a: nat, b: nat, part: seq<Id>)
    requires Walk(doc, path) && a < b <= |path| && part == path[a..b]
    ensures Walk(doc, part)
  {
    forall i, j | 0 <= i && j == i + 1 && j < |part| ensures Leads(doc, part[i], part[j]) {
      assert Leads(doc, path[a + i], path[a + j]);
    }
  }

  lemma WalkIsDistinct(doc: Doc, path: seq<Id>, a: nat, b: nat)
    requires Acyclic(doc) && Walk(doc, path) && a < b < |path|
    ensures path[a] != path[b]
  {
    var part := path[a..b + 1];
    PartOfWalk(doc, path, a, b + 1, part);
    assert !Closes(part);
  }

  lemma WalkIsFresh(doc: Doc, path: seq<Id>, steps: seq<RunStep>)
    requires Acyclic(doc) && Walk(doc, path) && |path| == |steps| + 1 && StepsAlong(doc, path, steps)
    ensures forall i | 0 <= i < |steps| :: steps[i].nodeId != Some(path[|steps|])
  {
    forall i | 0 <= i < |steps| ensures steps[i].nodeId != Some(path[|steps|]) {
      WalkIsDistinct(doc, path, i, |steps|);
    }
  }

  lemma StepsFit(doc: Doc, path: seq<Id>, steps: seq<RunStep>)
    requires Acyclic(doc) && Walk(doc, path) && StepsAlong(doc, path, steps)
    ensures NoRepeats(steps) && |steps| <= |doc.nodes|
  {
    forall a, b | 0 <= a < b < |steps| ensures steps[a].nodeId != steps[b].nodeId {
      WalkIsDistinct(doc, path, a, b);
    }
    DistinctFit(steps, doc.nodes.Keys);
  }

  lemma {:induction false} DistinctFit(steps: seq<RunStep>, ids: set<Id>)
    requires NoRepeats(steps)
    requires forall i | 0 <= i < |steps| :: steps[i].nodeId.Some? && steps[i].nodeId.value in ids
    ensures |steps| <= |ids|
    decreases |steps|
  {
    if steps != [] {
      var last := steps[|steps| - 1].nodeId.value;
      DistinctFit(steps[..|steps| - 1], ids - {last});
    }
  }

  /** On an acyclic well-formed document a run that starts with no steps visits each node at most once. Every step
      succeeded, or the last one's node threw and the run failed with what it threw; with fewer than 200 nodes and a
      start node there is no other way to fail, the budget included. */
  lemma AcyclicRun(doc: Doc, l: Listing, oracle: nat -> Outcome, input: Option<Value>)
    requires WellFormed(doc) && Acyclic(doc)
    ensures var f := Run(doc, l, oracle, input, []);
            && NoRepeats(f.steps) && |f.steps| <= |doc.nodes|
            && (AllSucceeded(f.steps) || EndsByThrow(oracle, f))
            && (|doc.nodes| < MAX_STEPS && FindStart(doc, l).Some? ==> (f.result.Success? <==> AllSucceeded(f.steps)))
  {
    StartIsNode(doc, l);
    var start := FindStart(doc, l);
    if start.Some? {
      var f := Run(doc, l, oracle, input, []);
      var path := GoWalks(doc, l, oracle, [start.value.id.value], 0, input, [], f);
      StepsFit(doc, path, f.steps);
    }
  }
}
