/** What a run of a workflow is, said without the interpreter (apps/workflow-builder/src: execution/engine.ts). */
module Execution {
  import opened Wrappers
  import opened Document
  import opened Engine

  // ---- which edge an outcome takes ----

  // The i-th listed edge leaves the node.
  ghost predicate Leaves(doc: Doc, ids: seq<Id>, from: Option<Id>, i: nat) {
    i < |ids| && ids[i] in doc.edges && Some(doc.edges[ids[i]].from) == from
  }

  ghost predicate Labelled(doc: Doc, ids: seq<Id>, from: Option<Id>, branch: Branch, i: nat) {
    Leaves(doc, ids, from, i) && doc.edges[ids[i]].branch == Some(branch)
  }

  ghost predicate Unlabelled(doc: Doc, ids: seq<Id>, from: Option<Id>, i: nat) {
    Leaves(doc, ids, from, i) && (doc.edges[ids[i]].branch == None || doc.edges[ids[i]].branch == Some(Default))
  }

  ghost predicate FirstLabelled(doc: Doc, ids: seq<Id>, from: Option<Id>, branch: Branch, i: nat) {
    Labelled(doc, ids, from, branch, i) && forall k: nat | k < i :: !Labelled(doc, ids, from, branch, k)
  }

  ghost predicate FirstUnlabelled(doc: Doc, ids: seq<Id>, from: Option<Id>, i: nat) {
    Unlabelled(doc, ids, from, i) && forall k: nat | k < i :: !Unlabelled(doc, ids, from, k)
  }

  // The first listed edge with the branch's label leads to `to`; or none has it, and the first without a label does.
  ghost predicate Chosen(doc: Doc, ids: seq<Id>, from: Option<Id>, branch: Branch, to: Id) {
    || (exists i: nat :: FirstLabelled(doc, ids, from, branch, i) && doc.edges[ids[i]].to == to)
    || ((forall i: nat :: !Labelled(doc, ids, from, branch, i))
        && exists i: nat :: FirstUnlabelled(doc, ids, from, i) && doc.edges[ids[i]].to == to)
  }

  lemma {:induction false} FoundFirst(doc: Doc, ids: seq<Id>, from: Option<Id>, matches: Edge -> bool) returns (i: nat)
    ensures i <= |ids|
    ensures forall k: nat | k < i :: !(Leaves(doc, ids, from, k) && matches(doc.edges[ids[k]]))
    ensures i < |ids| ==> Leaves(doc, ids, from, i) && matches(doc.edges[ids[i]])
    ensures FindEdge(NextEdges(doc, ids, from), matches) == if i < |ids| then Some(doc.edges[ids[i]]) else None
    decreases |ids|
  {
    if ids == [] {
      i := 0;
    } else if Leaves(doc, ids, from, 0) && matches(doc.edges[ids[0]]) {
      i := 0;
    } else {
      i := FoundFirst(doc, ids[1..], from, matches);
      forall k: nat | k < i + 1 ensures !(Leaves(doc, ids, from, k) && matches(doc.edges[ids[k]])) {
        if k > 0 { assert !(Leaves(doc, ids[1..], from, k - 1) && matches(doc.edges[ids[1..][k - 1]])); }
      }
      assert Leaves(doc, ids, from, 0) ==> NextEdges(doc, ids, from)[1..] == NextEdges(doc, ids[1..], from);
      i := i + 1;
    }
  }

  /** The edge an outcome takes is the first one labelled with its branch, else the first without a label; there is none
      exactly when no edge is either. */
  lemma ChosenIff(doc: Doc, ids: seq<Id>, from: Option<Id>, branch: Branch, to: Id)
    ensures var picked := PickEdge(NextEdges(doc, ids, from), branch);
            && (picked.Some? && picked.value.to == to <==> Chosen(doc, ids, from, branch, to))
            && (picked.None? <==> forall i: nat ::
                  !Labelled(doc, ids, from, branch, i) && !Unlabelled(doc, ids, from, i))
  {
    var i := FoundFirst(doc, ids, from, (e: Edge) => e.branch == Some(branch));
    var k := FoundFirst(doc, ids, from, (e: Edge) => e.branch == None || e.branch == Some(Default));
    if i < |ids| {
      assert FirstLabelled(doc, ids, from, branch, i);
      assert forall n: nat :: FirstLabelled(doc, ids, from, branch, n) ==> n == i;
    } else {
      assert forall n: nat :: !Labelled(doc, ids, from, branch, n);
      if k < |ids| {
        assert FirstUnlabelled(doc, ids, from, k);
        assert forall n: nat :: FirstUnlabelled(doc, ids, from, n) ==> n == k;
      }
    }
  }

  // ---- where a run starts ----

  ghost predicate IsStart(doc: Doc, ids: seq<Id>, i: nat) {
    i < |ids| && ids[i] in doc.nodes && doc.nodes[ids[i]].kind == Some(Start)
  }

  // No edge leads to the node's own id.
  ghost predicate IsRoot(doc: Doc, ids: seq<Id>, i: nat) {
    && i < |ids| && ids[i] in doc.nodes
    && forall e | e in doc.edges :: Some(doc.edges[e].to) != doc.nodes[ids[i]].id
  }

  ghost predicate IsFirstStart(doc: Doc, ids: seq<Id>, i: nat) {
    IsStart(doc, ids, i) && forall k: nat | k < i :: !IsStart(doc, ids, k)
  }

  ghost predicate IsFirstRoot(doc: Doc, ids: seq<Id>, i: nat) {
    IsRoot(doc, ids, i) && forall k: nat | k < i :: !IsRoot(doc, ids, k)
  }

  // The first listed node of kind start; or there is none, and the first no edge leads to.
  ghost predicate Begins(doc: Doc, ids: seq<Id>, n: Node) {
    || (exists i: nat :: IsFirstStart(doc, ids, i) && doc.nodes[ids[i]] == n)
    || ((forall i: nat :: !IsStart(doc, ids, i)) && exists i: nat :: IsFirstRoot(doc, ids, i) && doc.nodes[ids[i]] == n)
  }

  lemma {:induction false} StartFound(doc: Doc, ids: seq<Id>) returns (i: nat)
    ensures i <= |ids| && forall k: nat | k < i :: !IsStart(doc, ids, k)
    ensures i < |ids| ==> IsStart(doc, ids, i)
    ensures FirstStart(doc, ids) == if i < |ids| then Some(doc.nodes[ids[i]]) else None
    decreases |ids|
  {
    if ids == [] || IsStart(doc, ids, 0) {
      i := 0;
    } else {
      i := StartFound(doc, ids[1..]);
      forall k: nat | k < i + 1 ensures !IsStart(doc, ids, k) {
        if k > 0 { assert !IsStart(doc, ids[1..], k - 1); }
      }
      i := i + 1;
    }
  }

  lemma {:induction false} RootFound(doc: Doc, ids: seq<Id>) returns (i: nat)
    ensures i <= |ids| && forall k: nat | k < i :: !IsRoot(doc, ids, k)
    ensures i < |ids| ==> IsRoot(doc, ids, i)
    ensures FirstWithoutInbound(doc, Inbound(doc), ids) == if i < |ids| then Some(doc.nodes[ids[i]]) else None
    decreases |ids|
  {
    if ids == [] || IsRoot(doc, ids, 0) {
      i := 0;
    } else {
      i := RootFound(doc, ids[1..]);
      forall k: nat | k < i + 1 ensures !IsRoot(doc, ids, k) {
        if k > 0 { assert !IsRoot(doc, ids[1..], k - 1); }
      }
      i := i + 1;
    }
  }

  /** A run begins at the first node of kind start, else at the first node no edge leads to. */
  lemma BeginsIff(doc: Doc, l: Listing, n: Node)
    ensures FindStart(doc, l) == Some(n) <==> Begins(doc, l.nodes, n)
    ensures FindStart(doc, l) == None <==> forall i: nat :: !IsStart(doc, l.nodes, i) && !IsRoot(doc, l.nodes, i)
  {
    var i := StartFound(doc, l.nodes);
    var k := RootFound(doc, l.nodes);
    if i < |l.nodes| {
      assert IsFirstStart(doc, l.nodes, i);
      assert forall m: nat :: IsFirstStart(doc, l.nodes, m) ==> m == i;
    } else {
      assert forall m: nat :: !IsStart(doc, l.nodes, m);
      if k < |l.nodes| {
        assert IsFirstRoot(doc, l.nodes, k);
        assert forall m: nat :: IsFirstRoot(doc, l.nodes, m) ==> m == k;
      }
    }
  }

  // ---- a whole run ----

  // Looking the id up gives this node: a stored one, or an inherited property, which has none of a node's fields.
  ghost predicate Found(doc: Doc, id: Id, n: Node) {
    if id in doc.nodes then n == doc.nodes[id] else id in INHERITED && n == Node(None, None, None, None, None)
  }

  ghost predicate FoundAt(doc: Doc, l: Listing, from: Node, o: Outcome, n: Node) {
    o.Returns? && exists to ::
      Chosen(doc, l.edges, from.id, if o.next.Some? then o.next.value else Default, to) && Found(doc, to, n)
  }

  ghost predicate GoesOn(doc: Doc, l: Listing, oracle: nat -> Outcome, path: seq<Node>, k: nat)
    requires k + 1 < |path|
  {
    path[k].kind.Some? && FoundAt(doc, l, path[k], oracle(k), path[k + 1])
  }

  // The nodes a run goes through: the k-th has a known kind and returns, and its outcome leads to the next.
  ghost predicate Trace(doc: Doc, l: Listing, oracle: nat -> Outcome, path: seq<Node>) {
    && 0 < |path| <= 200 && Begins(doc, l.nodes, path[0])
    && forall k: nat | k + 1 < |path| :: GoesOn(doc, l, oracle, path, k)
  }

  // How a run that has gone through these nodes ends.
  ghost predicate Ends(doc: Doc, l: Listing, oracle: nat -> Outcome, input: Option<Value>, path: seq<Node>,
                       result: Result)
    requires path != []
  {
    var k := |path| - 1;
    var before := if k == 0 then input else if oracle(k - 1).Returns? then Some(oracle(k - 1).output) else None;
    if path[k].kind == None then result == Failure("unknown node kind", None)
    else if oracle(k).Throws? then result == Failure(oracle(k).error, before)
    else if |path| == 200 then result == Failure("step budget exhausted (200)", Some(oracle(k).output))
    else result == Success(Some(oracle(k).output)) && forall n :: !FoundAt(doc, l, path[k], oracle(k), n)
  }

  // The last of the first n nodes with this id, -1 if there is none.
  ghost function LastOf(path: seq<Node>, id: Option<Id>, n: nat): (k: int)
    requires n <= |path|
    ensures -1 <= k < n && (k >= 0 ==> path[k].id == id) && forall m | k < m < n :: path[m].id != id
  {
    if n == 0 then -1 else if path[n - 1].id == id then n - 1 else LastOf(path, id, n - 1)
  }

  // The i-th step, all nodes having been run: a node's first step tells of its last visit, its other steps of nothing.
  ghost predicate Tells(oracle: nat -> Outcome, path: seq<Node>, steps: seq<RunStep>, i: nat)
    requires i < |path| == |steps|
  {
    var id := path[i].id;
    if LastOf(path, id, i) >= 0 then steps[i] == RunStep(id, Running, None, None)
    else
      var k := LastOf(path, id, |path|);
      var p := LastOf(path, id, k);
      if oracle(k).Returns? then steps[i] == RunStep(id, Succeeded, Some(oracle(k).output), None)
      else
        var earlier := if p >= 0 && oracle(p).Returns? then Some(oracle(p).output) else None;
        steps[i] == RunStep(id, Failed, earlier, Some(oracle(k).error))
  }

  ghost predicate AllTell(oracle: nat -> Outcome, path: seq<Node>, steps: seq<RunStep>) {
    |steps| == |path| && forall i: nat | i < |path| :: Tells(oracle, path, steps, i)
  }

  // One step for each node, in order; a node of no known kind gets a failed one.
  ghost predicate StepsOf(oracle: nat -> Outcome, path: seq<Node>, steps: seq<RunStep>) {
    if path != [] && path[|path| - 1].kind == None
    then
      && |steps| == |path| && AllTell(oracle, path[..|path| - 1], steps[..|path| - 1])
      && steps[|path| - 1] == RunStep(path[|path| - 1].id, Failed, None, Some("unknown node kind"))
    else AllTell(oracle, path, steps)
  }

  lemma {:induction false} LastOfPrefix(path: seq<Node>, more: seq<Node>, id: Option<Id>, n: nat)
    requires n <= |path| && path <= more
    ensures LastOf(more, id, n) == LastOf(path, id, n)
  {
    if n > 0 {
      LastOfPrefix(path, more, id, n - 1);
    }
  }

  // The update of a step by an outcome.
  ghost function Told(step: RunStep, o: Outcome): RunStep {
    if o.Throws? then step.(status := Failed, error := Some(o.error))
    else step.(status := Succeeded, output := Some(o.output))
  }

  // Pushing a running step for the next node and patching by its id updates the first step with that id.
  lemma PushedFirst(path: seq<Node>, steps: seq<RunStep>, n: Node, o: Outcome, after: seq<RunStep>) returns (f: nat)
    requires |steps| == |path| && forall i: nat | i < |path| :: steps[i].nodeId == path[i].id
    requires after == Patch(steps + [RunStep(n.id, Running, None, None)], n.id,
                            if o.Throws? then Failed else Succeeded, if o.Throws? then None else Some(o.output),
                            if o.Throws? then Some(o.error) else None)
    ensures f <= |path| && (f < |path| ==> path[f].id == n.id) && forall k: nat | k < f :: path[k].id != n.id
    ensures var pushed := steps + [RunStep(n.id, Running, None, None)]; after == pushed[f := Told(pushed[f], o)]
  {
    var pushed := steps + [RunStep(n.id, Running, None, None)];
    assert pushed[|path|].nodeId == n.id;
    f := FirstOf(pushed, n.id);
    PatchFirst(pushed, n.id, if o.Throws? then Failed else Succeeded, if o.Throws? then None else Some(o.output),
               if o.Throws? then Some(o.error) else None, f);
    forall k: nat | k < f ensures path[k].id != n.id {
      assert pushed[k].nodeId == path[k].id;
    }
  }

  lemma OthersTell(oracle: nat -> Outcome, path: seq<Node>, steps: seq<RunStep>, n: Node, after: seq<RunStep>, i: nat)
    requires |after| == |steps| + 1 && |steps| == |path| && i < |path| && Tells(oracle, path, steps, i)
    requires path[i].id != n.id && after[i] == steps[i]
    ensures Tells(oracle, path + [n], after, i)
  {
    var more, id := path + [n], path[i].id;
    LastOfPrefix(path, more, id, i);
    LastOfPrefix(path, more, id, |path|);
    var k := LastOf(path, id, |path|);
    assert k >= i;
    LastOfPrefix(path, more, id, k);
    assert LastOf(more, id, |more|) == k;
  }

  lemma FirstTells(oracle: nat -> Outcome, path: seq<Node>, steps: seq<RunStep>, n: Node, after: seq<RunStep>, f: nat)
    requires AllTell(oracle, path, steps) && (forall k: nat | k < |path| :: oracle(k).Returns?) && f <= |path|
    requires (f < |path| ==> path[f].id == n.id) && forall k: nat | k < f :: path[k].id != n.id
    requires |after| == |path| + 1
    requires after[f] == Told(if f < |path| then steps[f] else RunStep(n.id, Running, None, None), oracle(|path|))
    ensures Tells(oracle, path + [n], after, f)
  {
    var more := path + [n];
    LastOfPrefix(path, more, n.id, f);
    LastOfPrefix(path, more, n.id, |path|);
    assert LastOf(path, n.id, f) == -1;
    assert LastOf(more, n.id, |more|) == |path|;
    if f < |path| {
      assert Tells(oracle, path, steps, f);
      assert LastOf(path, n.id, |path|) >= f;
    }
  }

  lemma LaterTells(oracle: nat -> Outcome, path: seq<Node>, steps: seq<RunStep>, n: Node, after: seq<RunStep>, f: nat,
                   i: nat)
    requires AllTell(oracle, path, steps) && f < i <= |path| && path[f].id == n.id && (path + [n])[i].id == n.id
    requires |after| == |path| + 1 && after[i] == if i < |path| then steps[i] else RunStep(n.id, Running, None, None)
    ensures Tells(oracle, path + [n], after, i)
  {
    LastOfPrefix(path, path + [n], n.id, i);
    assert LastOf(path, n.id, i) >= f;
    if i < |path| { assert Tells(oracle, path, steps, i); }
  }

  lemma PushedTells(oracle: nat -> Outcome, path: seq<Node>, steps: seq<RunStep>, n: Node, o: Outcome,
                    after: seq<RunStep>)
    requires AllTell(oracle, path, steps) && (forall i: nat | i < |path| :: oracle(i).Returns?) && o == oracle(|path|)
    requires after == Patch(steps + [RunStep(n.id, Running, None, None)], n.id,
                            if o.Throws? then Failed else Succeeded, if o.Throws? then None else Some(o.output),
                            if o.Throws? then Some(o.error) else None)
    ensures AllTell(oracle, path + [n], after)
  {
    forall i: nat | i < |path| ensures steps[i].nodeId == path[i].id {
      assert Tells(oracle, path, steps, i);
    }
    var f := PushedFirst(path, steps, n, o, after);
    forall i: nat | i <= |path| ensures Tells(oracle, path + [n], after, i) {
      if i == f {
        FirstTells(oracle, path, steps, n, after, f);
      } else if i < |path| && path[i].id != n.id {
        assert Tells(oracle, path, steps, i);
        OthersTell(oracle, path, steps, n, after, i);
      } else {
        LaterTells(oracle, path, steps, n, after, f, i);
      }
    }
  }

  // What a run has done before its k-th node.
  ghost predicate OnTrace(doc: Doc, l: Listing, oracle: nat -> Outcome, input: Option<Value>, path: seq<Node>, n: Node,
                          last: Option<Value>, steps: seq<RunStep>) {
    && Trace(doc, l, oracle, path + [n]) && AllTell(oracle, path, steps)
    && (forall i: nat | i < |path| :: oracle(i).Returns?)
    && (if path == [] then last == input
        else oracle(|path| - 1).Returns? && last == Some(oracle(|path| - 1).output))
  }

  ghost predicate RanAs(doc: Doc, l: Listing, oracle: nat -> Outcome, input: Option<Value>, path: seq<Node>, f: Final) {
    Trace(doc, l, oracle, path) && Ends(doc, l, oracle, input, path, f.result) && StepsOf(oracle, path, f.steps)
  }

  lemma TraceGrows(doc: Doc, l: Listing, oracle: nat -> Outcome, path: seq<Node>, n: Node)
    requires Trace(doc, l, oracle, path) && |path| < 200
    requires path[|path| - 1].kind.Some? && FoundAt(doc, l, path[|path| - 1], oracle(|path| - 1), n)
    ensures Trace(doc, l, oracle, path + [n])
  {
    var more := path + [n];
    forall k: nat | k + 1 < |more| ensures GoesOn(doc, l, oracle, more, k) {
      if k + 1 < |path| { assert GoesOn(doc, l, oracle, path, k); }
    }
  }

  // Where the interpreter goes from a node is where its outcome leads.
  lemma MovesAsChosen(doc: Doc, l: Listing, from: Node, o: Outcome, n: Node)
    requires o.Returns?
    ensures var picked := PickEdge(NextEdges(doc, l.edges, from.id), Taken(o));
            FoundAt(doc, l, from, o, n) <==> picked.Some? && Lookup(doc.nodes, picked.value.to) == Some(n)
  {
    var branch := if o.next.Some? then o.next.value else Default;
    var picked := PickEdge(NextEdges(doc, l.edges, from.id), branch);
    if picked.Some? {
      ChosenIff(doc, l.edges, from.id, branch, picked.value.to);
      assert Lookup(doc.nodes, picked.value.to) == Some(n) <==> Found(doc, picked.value.to, n);
    }
    forall to | Chosen(doc, l.edges, from.id, branch, to) ensures picked.Some? && picked.value.to == to {
      ChosenIff(doc, l.edges, from.id, branch, to);
    }
  }

  // Where the outcome leads, as the interpreter finds it.
  lemma MovesTo(doc: Doc, l: Listing, from: Node, o: Outcome) returns (next: Option<Node>)
    requires o.Returns?
    ensures var picked := PickEdge(NextEdges(doc, l.edges, from.id), Taken(o));
            next == if picked.Some? then Lookup(doc.nodes, picked.value.to) else None
    ensures forall m :: FoundAt(doc, l, from, o, m) <==> next == Some(m)
  {
    var picked := PickEdge(NextEdges(doc, l.edges, from.id), Taken(o));
    next := if picked.Some? then Lookup(doc.nodes, picked.value.to) else None;
    forall m ensures FoundAt(doc, l, from, o, m) <==> next == Some(m) {
      MovesAsChosen(doc, l, from, o, m);
    }
  }

  // One node that returns: the steps it leaves and where the interpreter goes on.
  lemma OneNode(doc: Doc, l: Listing, oracle: nat -> Outcome, path: seq<Node>, n: Node, last: Option<Value>,
                steps: seq<RunStep>, f: Final) returns (after: seq<RunStep>, next: Option<Node>)
    requires n.kind.Some? && |path| < 200 && (forall i: nat | i <= |path| :: oracle(i).Returns?)
    requires AllTell(oracle, path, steps) && f == Go(doc, l, oracle, Some(n), |path|, last, steps)
    ensures AllTell(oracle, path + [n], after)
    ensures forall m :: FoundAt(doc, l, n, oracle(|path|), m) <==> next == Some(m)
    ensures var k, output := |path|, Some(oracle(|path|).output);
            f == if next.Some? && k + 1 < 200 then Go(doc, l, oracle, next, k + 1, output, after)
                 else if k + 1 == 200 then Final(Failure("step budget exhausted (200)", output), after)
                 else Final(Success(output), after)
  {
    var k := |path|;
    after := Patch(steps + [RunStep(n.id, Running, None, None)], n.id, Succeeded, Some(oracle(k).output), None);
    PushedTells(oracle, path, steps, n, oracle(k), after);
    next := MovesTo(doc, l, n, oracle(k));
  }

  // One that has no known kind or throws ends the run.
  lemma NodeStops(doc: Doc, l: Listing, oracle: nat -> Outcome, input: Option<Value>, path: seq<Node>, n: Node,
                  last: Option<Value>, steps: seq<RunStep>, f: Final)
    requires OnTrace(doc, l, oracle, input, path, n, last, steps) && (n.kind.None? || oracle(|path|).Throws?)
    requires f == Go(doc, l, oracle, Some(n), |path|, last, steps)
    ensures RanAs(doc, l, oracle, input, path + [n], f)
  {
    if n.kind.Some? {
      PushedTells(oracle, path, steps, n, oracle(|path|), f.steps);
    } else {
      assert (path + [n])[..|path|] == path && f.steps[..|path|] == steps;
    }
  }

  lemma {:induction false} GoIsTrace(doc: Doc, l: Listing, oracle: nat -> Outcome, input: Option<Value>,
                                     path: seq<Node>, n: Node, last: Option<Value>, steps: seq<RunStep>, f: Final)
    returns (whole: seq<Node>)
    requires OnTrace(doc, l, oracle, input, path, n, last, steps)
    requires f == Go(doc, l, oracle, Some(n), |path|, last, steps)
    ensures RanAs(doc, l, oracle, input, whole, f)
    decreases 200 - |path|
  {
    whole := path + [n];
    if n.kind.None? || oracle(|path|).Throws? {
      NodeStops(doc, l, oracle, input, path, n, last, steps, f);
    } else {
      var after, next := OneNode(doc, l, oracle, path, n, last, steps, f);
      if next.Some? && |path| + 1 < 200 {
        TraceGrows(doc, l, oracle, whole, next.value);
        whole := GoIsTrace(doc, l, oracle, input, whole, next.value, Some(oracle(|path|).output), after, f);
      }
    }
  }

  /** Every run that has a start node goes along a trace, ends as that trace says and leaves one step for each of its
      nodes; without a start node it fails and leaves none. */
  lemma RunIsTrace(doc: Doc, l: Listing, oracle: nat -> Outcome, input: Option<Value>)
    ensures var f := Run(doc, l, oracle, input, []);
            if exists n :: Begins(doc, l.nodes, n) then exists path :: RanAs(doc, l, oracle, input, path, f)
            else f == Final(Failure("no start node", None), [])
  {
    var start := FindStart(doc, l);
    if start.Some? {
      BeginsIff(doc, l, start.value);
      var path := GoIsTrace(doc, l, oracle, input, [], start.value, input, [], Run(doc, l, oracle, input, []));
    } else {
      forall n ensures !Begins(doc, l.nodes, n) {
        BeginsIff(doc, l, n);
      }
    }
  }
}
