/** Breadth-first algorithms over the engine (crates/graph/src/traversal.rs):
    the closure along one relation type and the undirected shortest path. */
module Traversal {
  import opened Collections
  import opened Errors
  import opened GraphState
  import opened Indexes
  import opened Consistency
  import opened Engine
  import opened Reach

  // ---------- the queue of a search ----------

  ghost function QueueOf(b: Search): seq<(nat, nat)>
    requires Numbered(b)
  {
    seq(|b.order| - b.taken, i requires 0 <= i < |b.order| - b.taken => (b.order[b.taken + i], b.depth[b.order[b.taken + i]]))
  }

  lemma FoundQueued(b: Search, y: nat)
    requires Numbered(b) && Levelled(b) && b.taken < |b.order| && y !in b.depth
    ensures Numbered(Found(b, y))
    ensures QueueOf(Found(b, y)) == QueueOf(b) + [(y, b.depth[b.order[b.taken]] + 1)]
  {
    FoundListed(b, y);
    FoundKeeps(b, y);
    hide Levelled;
  }

  lemma TakenQueued(b: Search)
    requires Numbered(b) && b.taken < |b.order|
    ensures Numbered(b.(taken := b.taken + 1)) && QueueOf(b.(taken := b.taken + 1)) == QueueOf(b)[1..]
    ensures QueueOf(b)[0] == (b.order[b.taken], b.depth[b.order[b.taken]])
  {
  }

  /** The variables of the loop between two nodes. */
  ghost predicate Ready(a: Arrow, source: nat, bound: nat, b: Search, visited: set<nat>, queue: seq<(nat, nat)>, out: seq<nat>) {
    Searching(a, source, bound, b) && visited == b.depth.Keys && queue == QueueOf(b) && [source] + out == b.order
  }

  /** The real variables say what the search says, `node` being popped. */
  ghost predicate Mirrors(b: Search, source: nat, node: nat, depth: nat, visited: set<nat>, queue: seq<(nat, nat)>, out: seq<nat>) {
    && Numbered(b) && b.taken < |b.order| && b.order[b.taken] == node && b.depth[node] == depth
    && visited == b.depth.Keys && queue == QueueOf(b)[1..] && [source] + out == b.order
  }

  /** The variables while `node`, popped at `depth`, is expanded. */
  ghost predicate Expanding(a: Arrow, source: nat, bound: nat, b: Search, node: nat, depth: nat, visited: set<nat>,
                            queue: seq<(nat, nat)>, out: seq<nat>) {
    Searching(a, source, bound, b) && Mirrors(b, source, node, depth, visited, queue, out)
  }

  lemma Popped(a: Arrow, source: nat, bound: nat, b: Search, visited: set<nat>, queue: seq<(nat, nat)>, out: seq<nat>)
    requires Ready(a, source, bound, b, visited, queue, out) && queue != []
    ensures Expanding(a, source, bound, b, queue[0].0, queue[0].1, visited, queue[1..], out) && queue[0].1 <= bound
  {
    assert b.order[b.taken] in b.depth;
  }

  lemma MirrorsFound(b: Search, source: nat, node: nat, depth: nat, visited: set<nat>, queue: seq<(nat, nat)>, out: seq<nat>, y: nat)
    requires Mirrors(b, source, node, depth, visited, queue, out) && Levelled(b) && y !in visited
    ensures Mirrors(Found(b, y), source, node, depth, visited + {y}, queue + [(y, depth + 1)], out + [y])
  {
    assert QueueOf(b) != [] && node in b.depth && node != y;
    hide Levelled, QueueOf, Numbered;
    FoundQueued(b, y);
    TailSnoc(QueueOf(b), (y, depth + 1));
    ConcatAssoc([source], out, [y]);
  }

  lemma Discovered(a: Arrow, source: nat, bound: nat, b: Search, node: nat, depth: nat, visited: set<nat>,
                   queue: seq<(nat, nat)>, out: seq<nat>, y: nat)
    requires Expanding(a, source, bound, b, node, depth, visited, queue, out) && depth < bound && Hop(a, node, y) && y !in visited
    ensures Expanding(a, source, bound, Found(b, y), node, depth, visited + {y}, queue + [(y, depth + 1)], out + [y])
  {
    FoundOk(a, source, bound, b, y);
    MirrorsFound(b, source, node, depth, visited, queue, out, y);
  }

  lemma TailSnoc<T>(s: seq<T>, x: T)
    requires s != []
    ensures (s + [x])[1..] == s[1..] + [x]
  {
  }

  lemma Expanded(a: Arrow, source: nat, bound: nat, b: Search, node: nat, depth: nat, visited: set<nat>,
                 queue: seq<(nat, nat)>, out: seq<nat>)
    requires Expanding(a, source, bound, b, node, depth, visited, queue, out)
    requires depth < bound ==> forall y :: Hop(a, node, y) ==> y in visited
    ensures Ready(a, source, bound, b.(taken := b.taken + 1), visited, queue, out)
  {
    TakenOk(a, source, bound, b);
    TakenQueued(b);
  }

  // ---------- closure ----------

  /** Only listed nodes were added, among them the first `i`. */
  ghost predicate Added(nodes: seq<nat>, i: nat, seen: set<nat>, queued: seq<(nat, nat)>, visited: set<nat>, queue: seq<(nat, nat)>)
    requires i <= |nodes|
  {
    && seen <= visited && (visited == seen ==> queue == queued)
    && (forall y :: y in visited ==> y in seen || y in nodes) && (forall y :: y in nodes[..i] ==> y in visited)
  }

  lemma AddedOne(nodes: seq<nat>, i: nat, seen: set<nat>, queued: seq<(nat, nat)>, visited: set<nat>, queue: seq<(nat, nat)>,
                 after: set<nat>, longer: seq<(nat, nat)>)
    requires i < |nodes| && Added(nodes, i, seen, queued, visited, queue)
    requires after == visited + {nodes[i]} && (nodes[i] in visited ==> longer == queue)
    ensures Added(nodes, i + 1, seen, queued, after, longer)
  {
    assert nodes[..i + 1] == nodes[..i] + [nodes[i]];
  }

  lemma NoneAdded(nodes: seq<nat>, seen: set<nat>, queued: seq<(nat, nat)>)
    ensures Added(nodes, 0, seen, queued, seen, queued)
  {
  }

  lemma AllAdded(nodes: seq<nat>, seen: set<nat>, queued: seq<(nat, nat)>, visited: set<nat>, queue: seq<(nat, nat)>)
    requires Added(nodes, |nodes|, seen, queued, visited, queue)
    ensures seen <= visited && (visited == seen ==> queue == queued) && forall y :: y in visited ==> y in seen || y in nodes
    ensures forall y :: y in nodes ==> y in visited
  {
    assert nodes[..|nodes|] == nodes;
  }

  /** Push the nodes not yet visited, in turn. */
  method VisitAll(nodes: seq<nat>, node: nat, depth: nat, seen: set<nat>, queued: seq<(nat, nat)>, found: seq<nat>,
                  ghost a: Arrow, ghost source: nat, ghost bound: nat, ghost start: Search)
    returns (visited: set<nat>, queue: seq<(nat, nat)>, out: seq<nat>, ghost b: Search)
    requires Expanding(a, source, bound, start, node, depth, seen, queued, found) && depth < bound
    requires forall y :: y in nodes ==> Hop(a, node, y)
    ensures Expanding(a, source, bound, b, node, depth, visited, queue, out)
    ensures seen <= visited && (visited == seen ==> queue == queued) && forall y :: y in visited ==> y in seen || y in nodes
    ensures forall y :: y in nodes ==> y in visited
  {
    hide Expanding, Added, Hop;
    visited, queue, out, b := seen, queued, found, start;
    NoneAdded(nodes, seen, queued);
    for i := 0 to |nodes|
      invariant Expanding(a, source, bound, b, node, depth, visited, queue, out)
      invariant Added(nodes, i, seen, queued, visited, queue)
    {
      assert nodes[i] in nodes;
      ghost var before, shorter := visited, queue;
      visited, queue, out, b := VisitOne(nodes[i], node, depth, visited, queue, out, a, source, bound, b);
      AddedOne(nodes, i, seen, queued, before, shorter, visited, queue);
    }
    AllAdded(nodes, seen, queued, visited, queue);
  }

  method VisitOne(y: nat, node: nat, depth: nat, seen: set<nat>, queued: seq<(nat, nat)>, found: seq<nat>,
                  ghost a: Arrow, ghost source: nat, ghost bound: nat, ghost start: Search)
    returns (visited: set<nat>, queue: seq<(nat, nat)>, out: seq<nat>, ghost b: Search)
    requires Expanding(a, source, bound, start, node, depth, seen, queued, found) && depth < bound && Hop(a, node, y)
    ensures Expanding(a, source, bound, b, node, depth, visited, queue, out)
    ensures visited == seen + {y} && (y in seen ==> queue == queued)
  {
    visited, queue, out, b := seen, queued, found, start;
    if y !in visited {
      Discovered(a, source, bound, b, node, depth, visited, queue, out, y);
      visited := visited + {y};
      out := out + [y];
      queue := queue + [(y, depth + 1)];
      b := Found(b, y);
    }
  }

  function Targets(rels: seq<Relation>): seq<nat> { seq(|rels|, i requires 0 <= i < |rels| => rels[i].target) }
  function Sources(rels: seq<Relation>): seq<nat> { seq(|rels|, i requires 0 <= i < |rels| => rels[i].source) }

  lemma OneType(st: State, outgoing: bool, node: nat, t: string)
    ensures AllTypedEdges(st, outgoing, node, [t]) == TypedEdges(st, outgoing, node, t)
  {
    assert [t][..0] == [];
    assert AllTypedEdges(st, outgoing, node, [t][..0]) == [];
  }

  lemma EndsMembers(rels: seq<Relation>, y: nat)
    ensures y in Targets(rels) <==> exists r :: r in rels && r.target == y
    ensures y in Sources(rels) <==> exists r :: r in rels && r.source == y
  {
    if r :| r in rels && r.target == y {
      var i :| 0 <= i < |rels| && rels[i] == r;
      assert Targets(rels)[i] == y;
    }
    if r :| r in rels && r.source == y {
      var i :| 0 <= i < |rels| && rels[i] == r;
      assert Sources(rels)[i] == y;
    }
    if y in Targets(rels) {
      var i :| 0 <= i < |rels| && Targets(rels)[i] == y;
      assert rels[i] in rels;
    }
    if y in Sources(rels) {
      var i :| 0 <= i < |rels| && Sources(rels)[i] == y;
      assert rels[i] in rels;
    }
  }

  lemma TypedSteps(st: State, rtype: string, node: nat)
    requires WellFormed(st)
    ensures var nodes := Targets(TypedEdges(st, true, node, rtype)) + Sources(TypedEdges(st, false, node, rtype));
      forall y :: y in nodes <==> TypedStep(st, rtype, node, y)
  {
    hide TypedEdges, WellFormed;
    var out, inn := TypedEdges(st, true, node, rtype), TypedEdges(st, false, node, rtype);
    forall y ensures y in Targets(out) + Sources(inn) <==> TypedStep(st, rtype, node, y) {
      EndsMembers(out, y);
      EndsMembers(inn, y);
      StepsFrom(st, rtype, node, y);
    }
  }

  lemma StepsFrom(st: State, rtype: string, node: nat, y: nat)
    requires WellFormed(st)
    ensures TypedStep(st, rtype, node, y) <==>
      || (exists r :: r in TypedEdges(st, true, node, rtype) && r.target == y)
      || (exists r :: r in TypedEdges(st, false, node, rtype) && r.source == y)
  {
    hide TypedEdges, WellFormed;
    if r :| r in TypedEdges(st, true, node, rtype) && r.target == y {
      TypedEdgesExactly(st, true, node, rtype, r);
      var id :| AppearsAs(st, true, node, rtype, id, r);
      assert Joins(st.relations[id], node, y);
    }
    if r :| r in TypedEdges(st, false, node, rtype) && r.source == y {
      TypedEdgesExactly(st, false, node, rtype, r);
      var id :| AppearsAs(st, false, node, rtype, id, r);
      assert Joins(st.relations[id], node, y);
    }
    if TypedStep(st, rtype, node, y) {
      var id :| id in st.relations && Joins(st.relations[id], node, y)
        && (st.relations[id].rtype == rtype || IsInverse(st.schema, rtype, st.relations[id].rtype));
      var e := st.relations[id];
      var r := if e.rtype == rtype then e else Relation(e.id, rtype, e.target, e.source, e.weight, e.properties);
      var outgoing := r.source == node && r.target == y;
      assert AppearsAs(st, outgoing, node, rtype, id, r);
      TypedEdgesExactly(st, outgoing, node, rtype, r);
    }
  }

  /** The nodes within the bound, without the seed, once each, nearest first. */
  ghost predicate IsClosure(a: Arrow, seed: nat, bound: nat, out: seq<nat>) {
    && NoDup(out) && seed !in out
    && (forall y :: y in out ==> exists n: nat :: n <= bound && IsDistance(a, {seed}, y, n))
    && (forall y, n: nat :: n <= bound && At(a, {seed}, y, n) ==> y == seed || y in out)
    && (forall i, j, m: nat, n: nat :: 0 <= i < j < |out| && IsDistance(a, {seed}, out[i], m) && IsDistance(a, {seed}, out[j], n) ==> m <= n)
  }

  lemma ClosureDone(a: Arrow, seed: nat, bound: nat, b: Search, out: seq<nat>)
    requires Searching(a, seed, bound, b) && b.taken == |b.order| && [seed] + out == b.order
    ensures IsClosure(a, seed, bound, out)
  {
    assert out == b.order[1..];
    forall y | y in out ensures exists n: nat :: n <= bound && IsDistance(a, {seed}, y, n) {
      assert y in b.order;
      assert IsDistance(a, {seed}, y, b.depth[y]) && b.depth[y] <= bound;
    }
    forall y, n: nat | n <= bound && At(a, {seed}, y, n) ensures y == seed || y in out {
      SearchComplete(a, seed, bound, b, y, n);
      assert y in b.order;
    }
    forall i, j, m: nat, n: nat | 0 <= i < j < |out| && IsDistance(a, {seed}, out[i], m) && IsDistance(a, {seed}, out[j], n)
      ensures m <= n
    {
      assert out[i] == b.order[i + 1] && out[j] == b.order[j + 1];
      DistanceUnique(a, {seed}, out[i], m, b.depth[out[i]]);
      DistanceUnique(a, {seed}, out[j], n, b.depth[out[j]]);
    }
  }

  lemma ClosureEnds(a: Arrow, seed: nat, bound: nat, b: Search, visited: set<nat>, out: seq<nat>)
    requires Ready(a, seed, bound, b, visited, [], out)
    ensures IsClosure(a, seed, bound, out)
  {
    assert QueueOf(b) == [];
    ClosureDone(a, seed, bound, b, out);
  }

  lemma StartReady(a: Arrow, seed: nat, bound: nat)
    ensures Ready(a, seed, bound, Begin(seed), {seed}, [(seed, 0)], [])
  {
    BeginOk(a, seed, bound);
  }

  /** Only live concepts are ever visited. */
  lemma StepsLive(st: State, rtype: string, x: nat, y: nat)
    requires WellFormed(st) && TypedStep(st, rtype, x, y)
    ensures y in st.concepts
  {
  }

  /** The nodes that count as one hop away. */
  method TypedHops(g: OntologyGraph, node: nat, rtype: string) returns (nodes: seq<nat>)
    requires g.Valid()
    ensures forall y :: y in nodes <==> Hop(OfType(g.st, rtype), node, y)
    ensures forall y :: y in nodes ==> y in g.st.concepts
  {
    var outs := g.TypedNeighbours(true, node, [rtype]);
    var ins := g.TypedNeighbours(false, node, [rtype]);
    OneType(g.st, true, node, rtype);
    OneType(g.st, false, node, rtype);
    TypedSteps(g.st, rtype, node);
    nodes := Targets(outs) + Sources(ins);
    forall y | TypedStep(g.st, rtype, node, y) ensures y in g.st.concepts { StepsLive(g.st, rtype, node, y); }
  }

  method Closure(g: OntologyGraph, seed: nat, rtype: string, maxDepth: nat) returns (r: Result<seq<nat>>)
    requires g.Valid()
    ensures seed !in g.st.concepts ==> r == Err(UnknownConcept(seed))
    ensures seed in g.st.concepts ==> r.Ok? && IsClosure(OfType(g.st, rtype), seed, maxDepth, r.value)
  {
    if seed !in g.st.concepts { return Err(UnknownConcept(seed)); }
    ghost var a := OfType(g.st, rtype);
    ghost var b := Begin(seed);
    var visited: set<nat>, queue: seq<(nat, nat)>, out: seq<nat> := {seed}, [(seed, 0)], [];
    StartReady(a, seed, maxDepth);
    hide Ready, Expanding, Begin, IsClosure, Hop, Consistent;
    while queue != []
      invariant Ready(a, seed, maxDepth, b, visited, queue, out) && visited <= g.st.concepts.Keys
      decreases |g.st.concepts.Keys - visited|, |queue|
    {
      ghost var before := visited;
      Popped(a, seed, maxDepth, b, visited, queue, out);
      var node, depth := queue[0].0, queue[0].1;
      queue := queue[1..];
      if depth < maxDepth {
        var nodes := TypedHops(g, node, rtype);
        visited, queue, out, b := VisitAll(nodes, node, depth, visited, queue, out, a, seed, maxDepth, b);
        LessLeft(g.st.concepts.Keys, before, visited);
      }
      Expanded(a, seed, maxDepth, b, node, depth, visited, queue, out);
      b := b.(taken := b.taken + 1);
    }
    ClosureEnds(a, seed, maxDepth, b, visited, out);
    return Ok(out);
  }

  /** More visited means less to visit. */
  lemma LessLeft<T>(all: set<T>, before: set<T>, after: set<T>)
    requires before <= after <= all
    ensures before != after ==> |all - after| < |all - before|
  {
    assert all - before == (all - after) + (after - before);
    assert before != after ==> after - before != {};
  }

  // ---------- shortest path ----------

  datatype PathStep = PathStep(relation: Relation, concept: Concept)

  datatype Path = Path(source: nat, target: nat, start: Concept, steps: seq<PathStep>)

  /** The steps go, edge by live edge, from one concept to another. */
  ghost predicate Walks(st: State, from: nat, steps: seq<PathStep>, to: nat)
    decreases steps
  {
    if steps == [] then from == to else
    var r, c := steps[0].relation, steps[0].concept;
    && r.id in st.relations && st.relations[r.id] == r && c.id in st.concepts && st.concepts[c.id] == c
    && Joins(r, from, c.id) && Walks(st, c.id, steps[1..], to)
  }

  /** Every visited node but the source was entered by an edge from a node one
      level up. */
  ghost predicate Entered(st: State, b: Search, v: nat, parent: map<nat, (nat, nat)>)
    requires v in b.depth
  {
    && v in parent && parent[v].0 in b.depth && b.depth[v] == b.depth[parent[v].0] + 1
    && parent[v].1 in st.relations && Joins(st.relations[parent[v].1], parent[v].0, v)
  }

  ghost predicate ParentsOk(st: State, source: nat, b: Search, parent: map<nat, (nat, nat)>) {
    forall v :: v in b.depth && v != source ==> Entered(st, b, v, parent)
  }

  lemma ParentFound(st: State, source: nat, b: Search, parent: map<nat, (nat, nat)>, y: nat, rid: nat)
    requires Numbered(b) && b.taken < |b.order| && y !in b.depth && ParentsOk(st, source, b, parent)
    requires rid in st.relations && Joins(st.relations[rid], b.order[b.taken], y)
    ensures ParentsOk(st, source, Found(b, y), parent[y := (b.order[b.taken], rid)])
  {
    var next, after := Found(b, y), parent[y := (b.order[b.taken], rid)];
    assert b.order[b.taken] in b.depth;
    forall v | v in next.depth && v != source ensures Entered(st, next, v, after) {
      if v != y { assert Entered(st, b, v, parent); }
    }
  }

  type Neighbour = (nat, nat)

  ghost predicate AreNeighbours(st: State, node: nat, pairs: seq<Neighbour>) {
    forall i :: 0 <= i < |pairs| ==> pairs[i].1 in st.relations && Joins(st.relations[pairs[i].1], node, pairs[i].0)
  }

  predicate Has(pairs: seq<Neighbour>, y: nat) { exists i :: 0 <= i < |pairs| && pairs[i].0 == y }

  /** The far ends of the edges on an adjacency list. */
  function FarEnds(relations: map<nat, Relation>, ids: seq<nat>, outgoing: bool): seq<Neighbour>
    requires forall id :: id in ids ==> id in relations
  {
    seq(|ids|, i requires 0 <= i < |ids| => (EndOf(relations[ids[i]], !outgoing), ids[i]))
  }

  /** One adjacency list gives the far ends of the edges it holds. */
  lemma OneSide(st: State, node: nat, outgoing: bool)
    requires WellFormed(st)
    ensures forall id :: id in Select(st.relations, st.order, Sel(outgoing, node, None)) ==> id in st.relations
    ensures var pairs := FarEnds(st.relations, Select(st.relations, st.order, Sel(outgoing, node, None)), outgoing);
      && AreNeighbours(st, node, pairs)
      && (forall id :: id in st.relations && EndOf(st.relations[id], outgoing) == node ==> Has(pairs, EndOf(st.relations[id], !outgoing)))
  {
    SelectMembers(st.relations, st.order, Sel(outgoing, node, None));
    var ids := Select(st.relations, st.order, Sel(outgoing, node, None));
    var pairs := FarEnds(st.relations, ids, outgoing);
    forall i | 0 <= i < |pairs| ensures pairs[i].1 in st.relations && Joins(st.relations[pairs[i].1], node, pairs[i].0) {
      assert ids[i] in ids;
    }
    forall id | id in st.relations && EndOf(st.relations[id], outgoing) == node ensures Has(pairs, EndOf(st.relations[id], !outgoing)) {
      assert id in ids;
      var i :| 0 <= i < |ids| && ids[i] == id;
      assert pairs[i].0 == EndOf(st.relations[id], !outgoing);
    }
  }

  lemma HasConcat(a: seq<Neighbour>, b: seq<Neighbour>, y: nat)
    ensures Has(a + b, y) <==> Has(a, y) || Has(b, y)
  {
    if i :| 0 <= i < |a| && a[i].0 == y { assert (a + b)[i].0 == y; }
    if i :| 0 <= i < |b| && b[i].0 == y { assert (a + b)[|a| + i].0 == y; }
  }

  lemma BothSides(st: State, node: nat, leaving: seq<Neighbour>, entering: seq<Neighbour>)
    requires forall id :: id in st.relations && st.relations[id].source == node ==> Has(leaving, st.relations[id].target)
    requires forall id :: id in st.relations && st.relations[id].target == node ==> Has(entering, st.relations[id].source)
    ensures forall y :: Hop(AnyEdge(st), node, y) ==> Has(leaving + entering, y)
  {
    forall y | Hop(AnyEdge(st), node, y) ensures Has(leaving + entering, y) { HasConcat(leaving, entering, y); }
  }

  lemma NeighboursLive(st: State, node: nat, pairs: seq<Neighbour>)
    requires WellFormed(st) && AreNeighbours(st, node, pairs)
    ensures forall y :: Has(pairs, y) ==> y in st.concepts && Hop(AnyEdge(st), node, y)
  {
  }

  /** `for_each_neighbor` in both directions. */
  method Neighbours(g: OntologyGraph, node: nat) returns (pairs: seq<Neighbour>)
    requires g.Valid()
    ensures AreNeighbours(g.st, node, pairs) && forall y :: Hop(AnyEdge(g.st), node, y) ==> Has(pairs, y)
  {
    OneSide(g.st, node, true);
    OneSide(g.st, node, false);
    var leaving := FarEnds(g.st.relations, Get(g.ix.outAdj, node), true);
    var entering := FarEnds(g.st.relations, Get(g.ix.inAdj, node), false);
    BothSides(g.st, node, leaving, entering);
    pairs := leaving + entering;
  }

  /** The search as the path finder sees it: its variables and the parents. */
  ghost predicate Tracking(st: State, source: nat, bound: nat, b: Search, node: nat, depth: nat, visited: set<nat>,
                           queue: seq<(nat, nat)>, parent: map<nat, (nat, nat)>) {
    && b.order != [] && Expanding(AnyEdge(st), source, bound, b, node, depth, visited, queue, b.order[1..])
    && ParentsOk(st, source, b, parent)
  }

  lemma Tracked(st: State, source: nat, bound: nat, b: Search, node: nat, depth: nat, visited: set<nat>,
                queue: seq<(nat, nat)>, parent: map<nat, (nat, nat)>, y: nat, rid: nat)
    requires Tracking(st, source, bound, b, node, depth, visited, queue, parent) && depth < bound && y !in visited
    requires rid in st.relations && Joins(st.relations[rid], node, y)
    ensures Tracking(st, source, bound, Found(b, y), node, depth, visited + {y}, queue + [(y, depth + 1)], parent[y := (node, rid)])
  {
    Discovered(AnyEdge(st), source, bound, b, node, depth, visited, queue, b.order[1..], y);
    ParentFound(st, source, b, parent, y, rid);
    assert b.order[1..] + [y] == Found(b, y).order[1..];
  }

  /** One neighbour: skipped, met as the target, or queued. */
  method VisitNeighbour(pair: Neighbour, target: nat, node: nat, depth: nat, seen: set<nat>, queued: seq<(nat, nat)>,
                        prior: map<nat, (nat, nat)>, ghost st: State, ghost source: nat, ghost bound: nat, ghost start: Search)
    returns (visited: set<nat>, queue: seq<(nat, nat)>, parent: map<nat, (nat, nat)>, hit: bool, ghost b: Search)
    requires Tracking(st, source, bound, start, node, depth, seen, queued, prior) && depth < bound && target !in seen
    requires pair.1 in st.relations && Joins(st.relations[pair.1], node, pair.0)
    ensures Searching(AnyEdge(st), source, bound, b) && ParentsOk(st, source, b, parent)
    ensures visited == seen + {pair.0} && visited == b.depth.Keys && (hit <==> target in visited)
    ensures !hit ==> Tracking(st, source, bound, b, node, depth, visited, queue, parent)
    ensures pair.0 in seen ==> queue == queued
  {
    visited, queue, parent, hit, b := seen, queued, prior, false, start;
    var y := pair.0;
    if y in visited { return; }
    Tracked(st, source, bound, b, node, depth, visited, queue, parent, y, pair.1);
    visited := visited + {y};
    parent := parent[y := (node, pair.1)];
    b := Found(b, y);
    if y == target { return visited, queue, parent, true, b; }
    queue := queue + [(y, depth + 1)];
  }

  predicate Heads(pairs: seq<Neighbour>, i: nat, visited: set<nat>)
    requires i <= |pairs|
  {
    forall k :: 0 <= k < i ==> pairs[k].0 in visited
  }

  predicate OnlyHeads(pairs: seq<Neighbour>, seen: set<nat>, visited: set<nat>) {
    seen <= visited && forall y :: y in visited ==> y in seen || Has(pairs, y)
  }

  lemma HeadsMore(pairs: seq<Neighbour>, i: nat, seen: set<nat>, visited: set<nat>)
    requires i < |pairs| && Heads(pairs, i, visited) && OnlyHeads(pairs, seen, visited)
    ensures Heads(pairs, i + 1, visited + {pairs[i].0}) && OnlyHeads(pairs, seen, visited + {pairs[i].0})
  {
    assert Has(pairs, pairs[i].0);
  }

  /** Visit the neighbours in turn, until the target is met. */
  method VisitNeighbours(pairs: seq<Neighbour>, target: nat, node: nat, depth: nat, seen: set<nat>, queued: seq<(nat, nat)>,
                         prior: map<nat, (nat, nat)>, ghost st: State, ghost source: nat, ghost bound: nat, ghost start: Search)
    returns (visited: set<nat>, queue: seq<(nat, nat)>, parent: map<nat, (nat, nat)>, hit: bool, ghost b: Search)
    requires AreNeighbours(st, node, pairs) && depth < bound && target !in seen
    requires Tracking(st, source, bound, start, node, depth, seen, queued, prior)
    ensures Searching(AnyEdge(st), source, bound, b) && ParentsOk(st, source, b, parent) && (hit <==> target in b.depth)
    ensures !hit ==> Tracking(st, source, bound, b, node, depth, visited, queue, parent) && Heads(pairs, |pairs|, visited)
    ensures OnlyHeads(pairs, seen, visited) && (!hit && visited == seen ==> queue == queued)
  {
    hide Searching, ParentsOk;
    visited, queue, parent, hit, b := seen, queued, prior, false, start;
    var i := 0;
    while i < |pairs|
      invariant i <= |pairs| && Tracking(st, source, bound, b, node, depth, visited, queue, parent) && target !in visited && !hit
      invariant Heads(pairs, i, visited) && OnlyHeads(pairs, seen, visited) && (visited == seen ==> queue == queued)
    {
      HeadsMore(pairs, i, seen, visited);
      visited, queue, parent, hit, b := VisitNeighbour(pairs[i], target, node, depth, visited, queue, parent, st, source, bound, b);
      if hit { return; }
      i := i + 1;
    }
  }

  lemma WalkNowhere(st: State, v: nat)
    ensures Walks(st, v, [], v)
  {
  }

  /** One more step at the front of a walk. */
  lemma WalkBack(st: State, source: nat, b: Search, parent: map<nat, (nat, nat)>, cur: nat, steps: seq<PathStep>, target: nat)
    requires WellFormed(st) && ParentsOk(st, source, b, parent) && cur in b.depth && cur != source && Walks(st, cur, steps, target)
    ensures cur in parent && parent[cur].0 in b.depth && b.depth[cur] == b.depth[parent[cur].0] + 1
    ensures parent[cur].1 in st.relations && cur in st.concepts
    ensures Walks(st, parent[cur].0, [PathStep(st.relations[parent[cur].1], st.concepts[cur])] + steps, target)
  {
    assert Entered(st, b, cur, parent);
    var step := PathStep(st.relations[parent[cur].1], st.concepts[cur]);
    assert ([step] + steps)[1..] == steps;
  }

  /** Follow the parents back from the target. */
  method Reconstruct(g: OntologyGraph, source: nat, target: nat, parent: map<nat, (nat, nat)>, ghost bound: nat, ghost b: Search)
    returns (steps: seq<PathStep>)
    requires g.Valid() && Searching(AnyEdge(g.st), source, bound, b) && ParentsOk(g.st, source, b, parent) && target in b.depth
    ensures Walks(g.st, source, steps, target) && |steps| == b.depth[target]
  {
    assert WellFormed(g.st);
    hide Searching, Consistent, WellFormed, ParentsOk, Walks;
    steps := [];
    var cur := target;
    WalkNowhere(g.st, target);
    while cur != source
      invariant cur in b.depth && Walks(g.st, cur, steps, target) && |steps| + b.depth[cur] == b.depth[target]
      decreases b.depth[cur]
    {
      WalkBack(g.st, source, b, parent, cur, steps, target);
      var prev, rid := parent[cur].0, parent[cur].1;
      steps := [PathStep(g.st.relations[rid], g.st.concepts[cur])] + steps;
      cur := prev;
    }
    SourceDepth(AnyEdge(g.st), source, bound, b);
  }

  lemma SourceDepth(a: Arrow, source: nat, bound: nat, b: Search)
    requires Searching(a, source, bound, b)
    ensures source in b.depth && b.depth[source] == 0
  {
    assert b.order[0] in b.depth;
    assert At(a, {source}, source, 0);
  }

  /** The target is further than the bound, or not reachable. */
  ghost predicate Beyond(st: State, source: nat, target: nat, bound: nat) {
    forall n: nat :: n <= bound ==> !At(AnyEdge(st), {source}, target, n)
  }

  ghost predicate PathOk(st: State, source: nat, target: nat, p: Path) {
    && p.source == source && p.target == target && source in st.concepts && p.start == st.concepts[source]
    && Walks(st, source, p.steps, target) && IsDistance(AnyEdge(st), {source}, target, |p.steps|)
  }

  lemma WithinBound(st: State, source: nat, target: nat, bound: nat, b: Search)
    requires Searching(AnyEdge(st), source, bound, b) && target in b.depth
    ensures IsDistance(AnyEdge(st), {source}, target, b.depth[target]) && !Beyond(st, source, target, bound)
  {
    assert At(AnyEdge(st), {source}, target, b.depth[target]);
  }

  lemma NotReached(st: State, source: nat, target: nat, bound: nat, b: Search)
    requires Searching(AnyEdge(st), source, bound, b) && b.taken == |b.order| && target !in b.depth
    ensures Beyond(st, source, target, bound)
  {
    forall n: nat | n <= bound ensures !At(AnyEdge(st), {source}, target, n) {
      if At(AnyEdge(st), {source}, target, n) {
        SearchComplete(AnyEdge(st), source, bound, b, target, n);
        assert false;
      }
    }
  }

  /** A valid walk of exactly the hop distance, or `None` exactly when the
      target is further than the bound. */
  method ShortestPath(g: OntologyGraph, source: nat, target: nat, maxDepth: nat) returns (r: Result<Option<Path>>)
    requires g.Valid()
    ensures source !in g.st.concepts ==> r == Err(UnknownConcept(source))
    ensures source in g.st.concepts && target !in g.st.concepts ==> r == Err(UnknownConcept(target))
    ensures source in g.st.concepts && target in g.st.concepts ==> r.Ok?
    ensures r.Ok? ==> (r.value.None? <==> Beyond(g.st, source, target, maxDepth))
    ensures r.Ok? && r.value.Some? ==> PathOk(g.st, source, target, r.value.value)
  {
    if source !in g.st.concepts { return Err(UnknownConcept(source)); }
    if target !in g.st.concepts { return Err(UnknownConcept(target)); }
    if source == target {
      assert At(AnyEdge(g.st), {source}, target, 0);
      return Ok(Some(Path(source, target, g.st.concepts[source], [])));
    }
    var hit, parent;
    ghost var b;
    hit, parent, b := SearchTarget(g, source, target, maxDepth);
    if !hit { return Ok(None); }
    WithinBound(g.st, source, target, maxDepth, b);
    var steps := Reconstruct(g, source, target, parent, maxDepth, b);
    return Ok(Some(Path(source, target, g.st.concepts[source], steps)));
  }

  /** The variables between two nodes, the target not yet met. */
  ghost predicate Hunting(st: State, source: nat, target: nat, bound: nat, b: Search, visited: set<nat>, queue: seq<(nat, nat)>,
                          parent: map<nat, (nat, nat)>) {
    && b.order != [] && Ready(AnyEdge(st), source, bound, b, visited, queue, b.order[1..]) && ParentsOk(st, source, b, parent)
    && target !in visited && visited <= st.concepts.Keys
  }

  /** The search loop. */
  method SearchTarget(g: OntologyGraph, source: nat, target: nat, maxDepth: nat)
    returns (hit: bool, parent: map<nat, (nat, nat)>, ghost b: Search)
    requires g.Valid() && source in g.st.concepts && source != target
    ensures Searching(AnyEdge(g.st), source, maxDepth, b) && ParentsOk(g.st, source, b, parent) && (hit <==> target in b.depth)
    ensures !hit ==> Beyond(g.st, source, target, maxDepth)
  {
    parent, b, hit := map[], Begin(source), false;
    BeginOk(AnyEdge(g.st), source, maxDepth);
    var visited: set<nat>, queue: seq<(nat, nat)> := {source}, [(source, 0)];
    while queue != []
      invariant Hunting(g.st, source, target, maxDepth, b, visited, queue, parent) && !hit
      decreases |g.st.concepts.Keys - visited|, |queue|
    {
      ghost var before := visited;
      hit, visited, queue, parent, b := TakeNode(g, source, target, maxDepth, visited, queue, parent, b);
      if hit { return; }
      LessLeft(g.st.concepts.Keys, before, visited);
    }
    NotReached(g.st, source, target, maxDepth, b);
  }

  method TakeNode(g: OntologyGraph, source: nat, target: nat, maxDepth: nat, seen: set<nat>, queued: seq<(nat, nat)>,
                  prior: map<nat, (nat, nat)>, ghost start: Search)
    returns (hit: bool, visited: set<nat>, queue: seq<(nat, nat)>, parent: map<nat, (nat, nat)>, ghost b: Search)
    requires g.Valid() && queued != [] && Hunting(g.st, source, target, maxDepth, start, seen, queued, prior)
    ensures Searching(AnyEdge(g.st), source, maxDepth, b) && ParentsOk(g.st, source, b, parent) && (hit <==> target in b.depth)
    ensures !hit ==> Hunting(g.st, source, target, maxDepth, b, visited, queue, parent)
    ensures !hit ==> seen <= visited <= g.st.concepts.Keys && (visited == seen ==> queue == queued[1..])
  {
    visited, parent, hit, b := seen, prior, false, start;
    Popped(AnyEdge(g.st), source, maxDepth, b, visited, queued, b.order[1..]);
    var node, depth := queued[0].0, queued[0].1;
    queue := queued[1..];
    if depth < maxDepth {
      var pairs := Neighbours(g, node);
      NeighboursLive(g.st, node, pairs);
      visited, queue, parent, hit, b :=
        VisitNeighbours(pairs, target, node, depth, visited, queue, parent, g.st, source, maxDepth, b);
      if hit { return; }
      forall y | Hop(AnyEdge(g.st), node, y) ensures y in visited {
        var k :| 0 <= k < |pairs| && pairs[k].0 == y;
      }
    }
    Expanded(AnyEdge(g.st), source, maxDepth, b, node, depth, visited, queue, b.order[1..]);
    b := b.(taken := b.taken + 1);
  }
}
