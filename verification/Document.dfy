/** Workflow documents and the operations that build them (apps/workflow-builder/src/ops/apply.ts). */
module Document {
  import opened Wrappers

  type Id = string

  type Value = string   // a JSON value, kept as its text

  datatype Kind = Http | Transform | Branching | Log | Start

  datatype Branch = Default | True | False

  // Every field of a node is optional: a node spread from something that is not one lacks them.
  datatype Node = Node(id: Option<Id>, kind: Option<Kind>, x: Option<real>, y: Option<real>,
                       props: Option<map<string, Value>>)

  datatype Edge = Edge(id: Id, from: Id, to: Id, branch: Option<Branch>)

  datatype Doc = Doc(nodes: map<Id, Node>, edges: map<Id, Edge>)

  // Operations as they leave the validator.
  datatype Op =
    | NodeAdd(id: Id, kind: Kind, x: real, y: real, props: map<string, Value>)
    | NodeMove(id: Id, x: real, y: real)
    | NodeDelete(id: Id)
    | NodeProp(id: Id, key: string, value: Value)
    | EdgeAdd(edge: Edge)
    | EdgeDelete(id: Id)

  const EMPTY_DOC := Doc(map[], map[])

  // Inherited values carry none of a node's fields.
  const BARE := Node(None, None, None, None, None)

  function Lookup(nodes: map<Id, Node>, id: Id): Option<Node> {
    if id in nodes then Some(nodes[id]) else if id in INHERITED then Some(BARE) else None
  }

  // Assigning to the key __proto__ of a plain object sets its prototype and creates no entry.
  predicate Assignable(id: Id) {
    id != "__proto__"
  }

  function EdgesWithout(edges: map<Id, Edge>, id: Id): map<Id, Edge> {
    map k | k in edges && edges[k].from != id && edges[k].to != id && Assignable(k) :: edges[k]
  }

  function ApplyOp(doc: Doc, op: Op): Doc {
    match op
    case NodeAdd(id, kind, x, y, props) =>
      doc.(nodes := doc.nodes[id := Node(Some(id), Some(kind), Some(x), Some(y), Some(props))])
    case NodeMove(id, x, y) =>
      var n := Lookup(doc.nodes, id);
      if n == None then doc else doc.(nodes := doc.nodes[id := n.value.(x := Some(x), y := Some(y))])
    case NodeDelete(id) =>
      if Lookup(doc.nodes, id) == None then doc
      else Doc(doc.nodes - {id}, EdgesWithout(doc.edges, id))
    case NodeProp(id, key, value) =>
      var n := Lookup(doc.nodes, id);
      if n == None then doc
      else
        var props := if n.value.props.Some? then n.value.props.value else map[];
        doc.(nodes := doc.nodes[id := n.value.(props := Some(props[key := value]))])
    case EdgeAdd(edge) =>
      if Lookup(doc.nodes, edge.from) == None || Lookup(doc.nodes, edge.to) == None then doc
      else doc.(edges := doc.edges[edge.id := edge])
    case EdgeDelete(id) => doc.(edges := doc.edges - {id})
  }

  function Fold(base: Doc, ops: seq<Op>): Doc {
    if ops == [] then base else ApplyOp(Fold(base, ops[..|ops| - 1]), ops[|ops| - 1])
  }

  method Materialize(base: Doc, ops: seq<Op>) returns (doc: Doc)
    ensures doc == Fold(base, ops)
  {
    doc := base;
    for i := 0 to |ops|
      invariant doc == Fold(base, ops[..i])
    {
      assert ops[..i + 1][..i] == ops[..i];
      doc := ApplyOp(doc, ops[i]);
    }
    assert ops[..|ops|] == ops;
  }

  // The loop of node.delete over the edge entries, in any enumeration of them.
  method KeepEdges(edges: map<Id, Edge>, id: Id) returns (kept: map<Id, Edge>)
    ensures kept == EdgesWithout(edges, id)
  {
    kept := map[];
    var left := edges.Keys;
    while left != {}
      invariant left <= edges.Keys
      invariant kept == map k | k in EdgesWithout(edges, id) && k !in left :: edges[k]
      decreases left
    {
      var k :| k in left;
      left := left - {k};
      if edges[k].from != id && edges[k].to != id && Assignable(k) {
        kept := kept[k := edges[k]];
      }
    }
  }

  lemma {:induction false} FoldConcat(base: Doc, xs: seq<Op>, ys: seq<Op>)
    ensures Fold(base, xs + ys) == Fold(Fold(base, xs), ys)
    decreases |ys|
  {
    if ys == [] {
      assert xs + ys == xs;
    } else {
      assert (xs + ys)[..|xs + ys| - 1] == xs + ys[..|ys| - 1];
      FoldConcat(base, xs, ys[..|ys| - 1]);
    }
  }

  // ---- well-formed documents ----

  ghost predicate KeyedNodes(doc: Doc) {
    forall k | k in doc.nodes :: doc.nodes[k].id == Some(k) && doc.nodes[k].kind.Some?
  }

  ghost predicate NoDangling(doc: Doc) {
    forall k | k in doc.edges :: doc.edges[k].from in doc.nodes && doc.edges[k].to in doc.nodes
  }

  ghost predicate WellFormed(doc: Doc) {
    KeyedNodes(doc) && NoDangling(doc) && forall k | k in doc.edges :: doc.edges[k].id == k
  }

  // The operation passes its guard only because the guard finds an inherited name.
  predicate FooledBy(doc: Doc, op: Op) {
    match op
    case NodeMove(id, _, _) => id !in doc.nodes && id in INHERITED
    case NodeProp(id, _, _) => id !in doc.nodes && id in INHERITED
    case EdgeAdd(edge) =>
      && Lookup(doc.nodes, edge.from) != None && Lookup(doc.nodes, edge.to) != None
      && (edge.from !in doc.nodes || edge.to !in doc.nodes)
    case _ => false
  }

  /** An operation keeps a document well formed exactly when its guard is not fooled by an inherited name. */
  lemma KeepsFormIff(doc: Doc, op: Op)
    requires WellFormed(doc)
    ensures WellFormed(ApplyOp(doc, op)) <==> !FooledBy(doc, op)
  {
    if FooledBy(doc, op) {
      var after := ApplyOp(doc, op);
      match op
      case NodeMove(id, _, _) => assert id in after.nodes && after.nodes[id].id == None;
      case NodeProp(id, _, _) => assert id in after.nodes && after.nodes[id].id == None;
      case EdgeAdd(edge) => assert edge.id in after.edges;
      case _ =>
    }
  }

  // Every document on the way from the empty one is well formed.
  ghost predicate FormedThroughout(ops: seq<Op>) {
    WellFormed(Fold(EMPTY_DOC, ops)) && (ops == [] || FormedThroughout(ops[..|ops| - 1]))
  }

  ghost predicate NeverFooled(ops: seq<Op>) {
    ops == [] || (NeverFooled(ops[..|ops| - 1]) && !FooledBy(Fold(EMPTY_DOC, ops[..|ops| - 1]), ops[|ops| - 1]))
  }

  /** Over whole op sequences: all documents along the way are well formed exactly when no guard was ever fooled. */
  lemma {:induction false} FormedThroughoutIff(ops: seq<Op>)
    ensures FormedThroughout(ops) <==> NeverFooled(ops)
    decreases |ops|
  {
    if ops != [] {
      var init := ops[..|ops| - 1];
      FormedThroughoutIff(init);
      if FormedThroughout(init) {
        KeepsFormIff(Fold(EMPTY_DOC, init), ops[|ops| - 1]);
      }
    }
  }

  // The ids whose presence an operation tests.
  function Tested(op: Op): set<Id> {
    match op
    case NodeMove(id, _, _) => {id}
    case NodeProp(id, _, _) => {id}
    case EdgeAdd(edge) => {edge.from, edge.to}
    case _ => {}
  }

  /** Operations that name no inherited property never leave an edge dangling. */
  lemma {:induction false} OrdinaryOpsKeepForm(ops: seq<Op>)
    requires forall op | op in ops :: Tested(op) !! INHERITED
    ensures WellFormed(Fold(EMPTY_DOC, ops))
    decreases |ops|
  {
    if ops != [] {
      var init := ops[..|ops| - 1];
      OrdinaryOpsKeepForm(init);
      assert Tested(ops[|ops| - 1]) !! INHERITED;
      KeepsFormIff(Fold(EMPTY_DOC, init), ops[|ops| - 1]);
    }
  }

  /** On the empty document, an edge between two inherited names is accepted and dangles. */
  lemma InheritedNamesDangle()
    ensures var op := EdgeAdd(Edge("e", "constructor", "toString", None));
            FooledBy(EMPTY_DOC, op) && !NoDangling(ApplyOp(EMPTY_DOC, op))
  {
    assert "constructor" in INHERITED && "toString" in INHERITED;
    assert "e" in ApplyOp(EMPTY_DOC, EdgeAdd(Edge("e", "constructor", "toString", None))).edges;
  }
}
