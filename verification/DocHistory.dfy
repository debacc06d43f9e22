/** What a workflow document holds, read off the operations that built it (apps/workflow-builder/src/ops/apply.ts). */
module DocHistory {
  import opened Wrappers
  import opened Document

  // ---- the last operation of a kind ----

  ghost predicate StandsAt(ops: seq<Op>, hit: Op -> bool, reset: Op -> bool, i: nat) {
    i < |ops| && hit(ops[i]) && forall k | i < k < |ops| :: !reset(ops[k])
  }

  // Some operation is a hit, and none after it a reset.
  ghost predicate Stands(ops: seq<Op>, hit: Op -> bool, reset: Op -> bool) {
    exists i: nat :: StandsAt(ops, hit, reset, i)
  }

  lemma StandsSnoc(ops: seq<Op>, op: Op, hit: Op -> bool, reset: Op -> bool)
    ensures Stands(ops + [op], hit, reset) <==> hit(op) || (!reset(op) && Stands(ops, hit, reset))
  {
    var more := ops + [op];
    if hit(op) {
      assert StandsAt(more, hit, reset, |ops|);
    } else if i: nat :| StandsAt(ops, hit, reset, i) && !reset(op) {
      assert StandsAt(more, hit, reset, i);
    }
    if i: nat :| StandsAt(more, hit, reset, i) && !hit(op) {
      assert more[|ops|] == op;
      forall k | i < k < |ops| ensures !reset(ops[k]) {
        assert more[k] == ops[k];
      }
      assert StandsAt(ops, hit, reset, i);
    }
  }

  lemma StandsWider(ops: seq<Op>, hit: Op -> bool, reset: Op -> bool, wider: Op -> bool, fewer: Op -> bool)
    requires Stands(ops, hit, reset)
    requires forall op :: (hit(op) ==> wider(op)) && (fewer(op) ==> reset(op))
    ensures Stands(ops, wider, fewer)
  {
    var i: nat :| StandsAt(ops, hit, reset, i);
    assert StandsAt(ops, wider, fewer, i);
  }

  // ---- operations on one node ----

  predicate IsAdd(op: Op, id: Id) {
    op.NodeAdd? && op.id == id
  }

  predicate IsMove(op: Op, id: Id) {
    op.NodeMove? && op.id == id
  }

  predicate IsProp(op: Op, id: Id) {
    op.NodeProp? && op.id == id
  }

  // Adding the node; or, where the guard finds an inherited name, moving it or setting a property.
  function Creating(id: Id): Op -> bool {
    op => IsAdd(op, id) || ((IsMove(op, id) || IsProp(op, id)) && id in INHERITED)
  }

  function Deleting(id: Id): Op -> bool {
    op => op == NodeDelete(id)
  }

  function Placing(id: Id, x: real, y: real): Op -> bool {
    op => (IsAdd(op, id) || IsMove(op, id)) && op.x == x && op.y == y
  }

  function Replacing(id: Id): Op -> bool {
    op => IsAdd(op, id) || IsMove(op, id) || op == NodeDelete(id)
  }

  function Adding(id: Id, kind: Kind): Op -> bool {
    op => IsAdd(op, id) && op.kind == kind
  }

  function Readding(id: Id): Op -> bool {
    op => IsAdd(op, id) || op == NodeDelete(id)
  }

  function Giving(id: Id, key: string, value: Value): Op -> bool {
    op => || (IsProp(op, id) && op.key == key && op.value == value)
          || (IsAdd(op, id) && key in op.props && op.props[key] == value)
  }

  function Regiving(id: Id, key: string): Op -> bool {
    op => (IsProp(op, id) && op.key == key) || IsAdd(op, id) || op == NodeDelete(id)
  }

  // ---- nodes ----

  lemma FoldSnoc(ops: seq<Op>, op: Op)
    ensures Fold(EMPTY_DOC, ops + [op]) == ApplyOp(Fold(EMPTY_DOC, ops), op)
  {
    assert (ops + [op])[..|ops|] == ops;
  }

  /** A node is there exactly when it was created after it was last deleted. */
  lemma {:induction false} PresentIff(ops: seq<Op>, id: Id)
    ensures id in Fold(EMPTY_DOC, ops).nodes <==> Stands(ops, Creating(id), Deleting(id))
    decreases |ops|
  {
    if ops != [] {
      var init, op := ops[..|ops| - 1], ops[|ops| - 1];
      assert ops == init + [op];
      PresentIff(init, id);
      FoldSnoc(init, op);
      StandsSnoc(init, op, Creating(id), Deleting(id));
    }
  }

  // An inherited name that something has been done to since its last deletion is there.
  lemma InheritedPresent(ops: seq<Op>, id: Id, hit: Op -> bool, reset: Op -> bool)
    requires id in INHERITED && Stands(ops, hit, reset)
    requires forall op :: (hit(op) ==> Creating(id)(op)) && (Deleting(id)(op) ==> reset(op))
    ensures id in Fold(EMPTY_DOC, ops).nodes
  {
    StandsWider(ops, hit, reset, Creating(id), Deleting(id));
    PresentIff(ops, id);
  }

  ghost predicate At(doc: Doc, id: Id, x: real, y: real) {
    id in doc.nodes && doc.nodes[id].x == Some(x) && doc.nodes[id].y == Some(y)
  }

  ghost predicate OfKind(doc: Doc, id: Id, kind: Kind) {
    id in doc.nodes && doc.nodes[id].kind == Some(kind)
  }

  ghost predicate Holds(doc: Doc, id: Id, key: string, value: Value) {
    && id in doc.nodes && doc.nodes[id].props.Some?
    && key in doc.nodes[id].props.value && doc.nodes[id].props.value[key] == value
  }

  lemma PositionStep(doc: Doc, op: Op, id: Id, x: real, y: real)
    requires id in ApplyOp(doc, op).nodes
    ensures At(ApplyOp(doc, op), id, x, y) <==>
              Placing(id, x, y)(op) || (!Replacing(id)(op) && At(doc, id, x, y))
  {
  }

  lemma KindStep(doc: Doc, op: Op, id: Id, kind: Kind)
    requires id in ApplyOp(doc, op).nodes
    ensures OfKind(ApplyOp(doc, op), id, kind) <==>
              Adding(id, kind)(op) || (!Readding(id)(op) && OfKind(doc, id, kind))
  {
  }

  lemma PropertyStep(doc: Doc, op: Op, id: Id, key: string, value: Value)
    requires id in ApplyOp(doc, op).nodes
    ensures Holds(ApplyOp(doc, op), id, key, value) <==>
              Giving(id, key, value)(op) || (!Regiving(id, key)(op) && Holds(doc, id, key, value))
  {
  }

  // What has been done to a node that is not there does not outlast its creation.
  lemma Forgotten(ops: seq<Op>, op: Op, id: Id, hit: Op -> bool, reset: Op -> bool)
    requires id !in Fold(EMPTY_DOC, ops).nodes && id in Fold(EMPTY_DOC, ops + [op]).nodes
    requires forall o :: (hit(o) && id in INHERITED ==> Creating(id)(o)) && (Readding(id)(o) ==> reset(o))
    ensures reset(op) || !Stands(ops, hit, reset)
  {
    FoldSnoc(ops, op);
    if !reset(op) && Stands(ops, hit, reset) {
      assert !Readding(id)(op);
      InheritedPresent(ops, id, hit, reset);
    }
  }

  /** A node's position is that of the last add or move since its last deletion. */
  lemma {:induction false} PositionIff(ops: seq<Op>, id: Id, x: real, y: real)
    requires id in Fold(EMPTY_DOC, ops).nodes
    ensures At(Fold(EMPTY_DOC, ops), id, x, y) <==> Stands(ops, Placing(id, x, y), Replacing(id))
    decreases |ops|
  {
    var init, op := ops[..|ops| - 1], ops[|ops| - 1];
    assert ops == init + [op];
    FoldSnoc(init, op);
    StandsSnoc(init, op, Placing(id, x, y), Replacing(id));
    PositionStep(Fold(EMPTY_DOC, init), op, id, x, y);
    if id in Fold(EMPTY_DOC, init).nodes {
      PositionIff(init, id, x, y);
    } else {
      Forgotten(init, op, id, Placing(id, x, y), Replacing(id));
    }
  }

  /** Its kind is that of the last add since its last deletion. */
  lemma {:induction false} KindIff(ops: seq<Op>, id: Id, kind: Kind)
    requires id in Fold(EMPTY_DOC, ops).nodes
    ensures OfKind(Fold(EMPTY_DOC, ops), id, kind) <==> Stands(ops, Adding(id, kind), Readding(id))
    decreases |ops|
  {
    var init, op := ops[..|ops| - 1], ops[|ops| - 1];
    assert ops == init + [op];
    FoldSnoc(init, op);
    StandsSnoc(init, op, Adding(id, kind), Readding(id));
    KindStep(Fold(EMPTY_DOC, init), op, id, kind);
    if id in Fold(EMPTY_DOC, init).nodes {
      KindIff(init, id, kind);
    } else {
      Forgotten(init, op, id, Adding(id, kind), Readding(id));
    }
  }

  /** A property has the value of the last operation on it since the last add, else the one the add gave it. */
  lemma {:induction false} PropertyIff(ops: seq<Op>, id: Id, key: string, value: Value)
    requires id in Fold(EMPTY_DOC, ops).nodes
    ensures Holds(Fold(EMPTY_DOC, ops), id, key, value) <==> Stands(ops, Giving(id, key, value), Regiving(id, key))
    decreases |ops|
  {
    var init, op := ops[..|ops| - 1], ops[|ops| - 1];
    assert ops == init + [op];
    FoldSnoc(init, op);
    StandsSnoc(init, op, Giving(id, key, value), Regiving(id, key));
    PropertyStep(Fold(EMPTY_DOC, init), op, id, key, value);
    if id in Fold(EMPTY_DOC, init).nodes {
      PropertyIff(init, id, key, value);
    } else {
      Forgotten(init, op, id, Giving(id, key, value), Regiving(id, key));
    }
  }

  // ---- edges ----

  ghost predicate FoundIn(ops: seq<Op>, id: Id) {
    Stands(ops, Creating(id), Deleting(id)) || id in INHERITED
  }

  // The i-th operation adds the edge, and both its ends are found at that moment.
  ghost predicate Accepted(ops: seq<Op>, i: nat, e: Edge) {
    i < |ops| && ops[i] == EdgeAdd(e) && FoundIn(ops[..i], e.from) && FoundIn(ops[..i], e.to)
  }

  // The k-th operation deletes the edge or an end of it, or puts another edge in its place. The name __proto__ does not
  // survive the copying of the edges when any node is deleted.
  ghost predicate Removed(ops: seq<Op>, k: nat, e: Edge) {
    && k < |ops|
    && (|| ops[k] == EdgeDelete(e.id) || ops[k] == NodeDelete(e.from) || ops[k] == NodeDelete(e.to)
        || (ops[k].EdgeAdd? && ops[k].edge.id == e.id && Accepted(ops, k, ops[k].edge))
        || (e.id == "__proto__" && ops[k].NodeDelete? && FoundIn(ops[..k], ops[k].id)))
  }

  ghost predicate StaysFrom(ops: seq<Op>, e: Edge, i: nat) {
    Accepted(ops, i, e) && forall k | i < k < |ops| :: !Removed(ops, k, e)
  }

  lemma PrefixSame(ops: seq<Op>, op: Op, k: nat, e: Edge)
    requires k < |ops|
    ensures Accepted(ops + [op], k, e) <==> Accepted(ops, k, e)
    ensures Removed(ops + [op], k, e) <==> Removed(ops, k, e)
  {
    assert (ops + [op])[..k] == ops[..k] && (ops + [op])[k] == ops[k];
  }

  ghost predicate Stays(ops: seq<Op>, e: Edge) {
    exists i: nat :: StaysFrom(ops, e, i)
  }

  lemma StaysSnoc(ops: seq<Op>, op: Op, e: Edge)
    ensures var more := ops + [op];
            Stays(more, e) <==> Accepted(more, |ops|, e) || (!Removed(more, |ops|, e) && Stays(ops, e))
  {
    var more := ops + [op];
    forall k: nat | k < |ops|
      ensures (Accepted(more, k, e) <==> Accepted(ops, k, e)) && (Removed(more, k, e) <==> Removed(ops, k, e))
    {
      PrefixSame(ops, op, k, e);
    }
    if Accepted(more, |ops|, e) {
      assert StaysFrom(more, e, |ops|);
    } else if i: nat :| StaysFrom(ops, e, i) && !Removed(more, |ops|, e) {
      assert StaysFrom(more, e, i);
    }
    if i: nat :| StaysFrom(more, e, i) && !Accepted(more, |ops|, e) {
      assert StaysFrom(ops, e, i);
    }
  }

  lemma FoundIff(ops: seq<Op>, id: Id)
    ensures FoundIn(ops, id) <==> Lookup(Fold(EMPTY_DOC, ops).nodes, id) != None
  {
    PresentIff(ops, id);
  }

  // Edges are stored under their own ids, and their ends are found.
  ghost predicate Kept(doc: Doc) {
    forall k | k in doc.edges ::
      doc.edges[k].id == k && Lookup(doc.nodes, doc.edges[k].from) != None && Lookup(doc.nodes, doc.edges[k].to) != None
  }

  lemma {:induction false} AlwaysKept(ops: seq<Op>)
    ensures Kept(Fold(EMPTY_DOC, ops))
    decreases |ops|
  {
    if ops != [] {
      var init := ops[..|ops| - 1];
      AlwaysKept(init);
      KeptStep(Fold(EMPTY_DOC, init), ops[|ops| - 1]);
    }
  }

  lemma KeptStep(doc: Doc, op: Op)
    requires Kept(doc)
    ensures Kept(ApplyOp(doc, op))
  {
  }

  ghost predicate Stored(doc: Doc, e: Edge) {
    e.id in doc.edges && doc.edges[e.id] == e
  }

  /** An edge is there exactly when it was accepted after it was last deleted or replaced and after either end was last
      deleted. */
  lemma {:induction false} EdgeIff(ops: seq<Op>, e: Edge)
    ensures Stored(Fold(EMPTY_DOC, ops), e) <==> Stays(ops, e)
    decreases |ops|
  {
    if ops != [] {
      var init, op := ops[..|ops| - 1], ops[|ops| - 1];
      assert ops == init + [op];
      EdgeIff(init, e);
      StaysSnoc(init, op, e);
      EdgeStep(init, op, ops, e);
    }
  }

  lemma EdgeStep(init: seq<Op>, op: Op, ops: seq<Op>, e: Edge)
    requires ops == init + [op]
    ensures Stored(Fold(EMPTY_DOC, ops), e) <==>
              Accepted(ops, |init|, e) || (!Removed(ops, |init|, e) && Stored(Fold(EMPTY_DOC, init), e))
  {
    var doc := Fold(EMPTY_DOC, init);
    assert ops[..|init|] == init;
    FoldSnoc(init, op);
    AlwaysKept(init);
    if op.EdgeAdd? {
      FoundIff(init, op.edge.from);
      FoundIff(init, op.edge.to);
    } else if op.NodeDelete? {
      FoundIff(init, op.id);
    }
  }

  /** An edge's key is its own id. */
  lemma EdgesKeyed(ops: seq<Op>)
    ensures forall k | k in Fold(EMPTY_DOC, ops).edges :: Stored(Fold(EMPTY_DOC, ops), Fold(EMPTY_DOC, ops).edges[k])
  {
    AlwaysKept(ops);
  }
}
