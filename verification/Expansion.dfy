/** The capped expansion around a set of seeds (crates/graph/src/traversal.rs). */
module Expansion {
  import opened Collections
  import opened OntologySchema
  import opened GraphState
  import opened Indexes
  import opened Consistency
  import opened Engine
  import opened Reach
  import opened Fairness
  import opened Growth
  import opened Levels
  import Listing

  datatype Spec = Spec(
    maxDepth: nat, relationTypes: seq<string>, excluded: seq<string>, conceptTypes: seq<string>,
    direction: Direction, caps: Caps, subsume: bool)

  datatype Subgraph = Subgraph(seeds: seq<nat>, concepts: seq<Concept>, relations: seq<Relation>, depthOf: map<nat, nat>)

  // ---------- the filters ----------

  ghost predicate UnderAny(schema: Schema, types: seq<string>, t: string) {
    exists i :: 0 <= i < |types| && t in Descendants(schema, types[i])
  }

  /** The accepted concept types; subtypes count when subsumed. */
  ghost predicate FilterOk(schema: Schema, spec: Spec, filter: Option<set<string>>) {
    if spec.conceptTypes == [] then filter.None? else
    filter.Some? && forall t :: t in filter.value <==> if spec.subsume then UnderAny(schema, spec.conceptTypes, t) else t in spec.conceptTypes
  }

  method ConceptFilter(g: OntologyGraph, spec: Spec) returns (filter: Option<set<string>>)
    requires g.Valid()
    ensures FilterOk(g.st.schema, spec, filter)
  {
    if spec.conceptTypes == [] { return None; }
    if !spec.subsume { return Some(Elems(spec.conceptTypes)); }
    var accepted: set<string> := {};
    for i := 0 to |spec.conceptTypes|
      invariant forall t :: t in accepted <==> UnderAny(g.st.schema, spec.conceptTypes[..i], t)
    {
      var names := Listing.DescendantNames(g, spec.conceptTypes[i]);
      UnderMore(g.st.schema, spec.conceptTypes, i);
      accepted := accepted + Elems(names);
    }
    assert spec.conceptTypes[..|spec.conceptTypes|] == spec.conceptTypes;
    return Some(accepted);
  }

  lemma UnderMore(schema: Schema, types: seq<string>, i: nat)
    requires i < |types|
    ensures forall t :: UnderAny(schema, types[..i + 1], t) <==> UnderAny(schema, types[..i], t) || t in Descendants(schema, types[i])
  {
    var a, b := types[..i], types[..i + 1];
    forall t ensures UnderAny(schema, b, t) <==> UnderAny(schema, a, t) || t in Descendants(schema, types[i]) {
      if k :| 0 <= k < |a| && t in Descendants(schema, a[k]) { assert b[k] == a[k]; }
      if t in Descendants(schema, types[i]) { assert b[i] == types[i]; }
      if k :| 0 <= k < |b| && t in Descendants(schema, b[k]) { assert k < i ==> a[k] == b[k]; }
    }
  }

  // ---------- gathering ----------

  ghost predicate AdjacentId(st: State, node: nat, direction: Direction, types: seq<string>, id: nat) {
    id in st.relations && Touches(direction, st.relations[id], node) && (types == [] || st.relations[id].rtype in types)
  }

  lemma {:induction false} TypedSidesMembers(st: State, node: nat, outgoing: bool, types: seq<string>)
    ensures forall id :: id in TypedSides(st, node, outgoing, types) <==>
      id in st.order && id in st.relations && EndOf(st.relations[id], outgoing) == node && st.relations[id].rtype in types
  {
    if types != [] {
      var l := |types| - 1;
      assert types == types[..l] + [types[l]];
      TypedSidesMembers(st, node, outgoing, types[..l]);
      SelectMembers(st.relations, st.order, Sel(outgoing, node, Some(types[l])));
    }
  }

  /** One side of `adjacent_edge_ids`. */
  method SideIds(g: OntologyGraph, node: nat, outgoing: bool, types: seq<string>) returns (ids: seq<nat>)
    requires g.Valid()
    ensures ids == Side(g.st, node, outgoing, types)
    ensures forall id :: id in ids <==> AdjacentId(g.st, node, if outgoing then Outgoing else Incoming, types, id)
  {
    TypedSidesMembers(g.st, node, outgoing, types);
    if types == [] {
      SelectMembers(g.st.relations, g.st.order, Sel(outgoing, node, None));
      return Get(if outgoing then g.ix.outAdj else g.ix.inAdj, node);
    }
    ids := [];
    for i := 0 to |types|
      invariant ids == TypedSides(g.st, node, outgoing, types[..i])
    {
      TypedIsSelect(g.st, g.ix, g.bulk, node, types[i]);
      assert types[..i + 1][..i] == types[..i];
      ids := ids + GetTyped(if outgoing then g.ix.outTyped else g.ix.inTyped, node, types[i]);
    }
    assert types[..|types|] == types;
  }

  method AdjacentIds(g: OntologyGraph, node: nat, direction: Direction, types: seq<string>) returns (ids: seq<nat>)
    requires g.Valid()
    ensures ids == Adjacency(g.st, node, direction, types)
    ensures forall id :: id in ids <==> AdjacentId(g.st, node, direction, types, id)
  {
    ids := [];
    if direction != Incoming { ids := SideIds(g, node, true, types); }
    if direction != Outgoing {
      var inn := SideIds(g, node, false, types);
      ids := ids + inn;
    }
  }

  method IndexOf(names: seq<string>, name: string) returns (i: nat)
    ensures i <= |names| && (i < |names| ==> names[i] == name) && name !in names[..i]
  {
    i := 0;
    while i < |names| && names[i] != name
      invariant i <= |names| && name !in names[..i]
    {
      i := i + 1;
    }
  }

  /** The candidate says what its edge is. */
  predicate Describes(a: Arrow, types: seq<string>, c: Candidate)
    requires a.Wanted?
  {
    && Sound(a, c) && c.ty < |types| && a.st.relations[c.rid].rtype == types[c.ty] && a.st.relations[c.rid].weight == c.weight
  }

  ghost predicate AllSound(a: Arrow, frontier: seq<nat>, types: seq<string>, edges: seq<Candidate>)
    requires a.Wanted?
  {
    forall c :: c in edges ==> Describes(a, types, c) && c.node in frontier
  }

  ghost predicate HasCandidate(edges: seq<Candidate>, node: nat, id: nat) {
    exists c :: c in edges && c.node == node && c.rid == id
  }

  ghost predicate AllGathered(a: Arrow, capped: bool, visited: set<nat>, nodes: seq<nat>, edges: seq<Candidate>)
    requires a.Wanted?
  {
    forall node, id :: node in nodes && Gathers(a, capped, visited, node, id) ==> HasCandidate(edges, node, id)
  }

  /** Every type name so far is that of some candidate, in order of appearance. */
  ghost predicate Naming(a: Arrow, edges: seq<Candidate>, types: seq<string>)
    requires a.Wanted?
  {
    && (forall i :: 0 <= i < |edges| ==> edges[i].ty < |types| && TypeOf(a, edges[i]) == Some(types[edges[i].ty]))
    && (forall t: nat :: t < |types| ==> Appeared(edges, |edges|, t))
    && (forall j: nat, t: nat :: j < |edges| && t < edges[j].ty ==> Appeared(edges, j, t))
  }

  lemma NamingIsNumbered(a: Arrow, edges: seq<Candidate>, types: seq<string>)
    requires a.Wanted? && Naming(a, edges, types) && NoDup(types)
    ensures ByAppearance(a, edges)
  {
  }

  lemma NamedOne(a: Arrow, edges: seq<Candidate>, types: seq<string>, c: Candidate, more: seq<string>)
    requires a.Wanted? && Naming(a, edges, types) && c.ty < |more| && TypeOf(a, c) == Some(more[c.ty])
    requires more == types || (|more| == |types| + 1 && types <= more && c.ty == |types|)
    ensures Naming(a, edges + [c], more)
  {
    var after := edges + [c];
    forall j: nat, t: nat | j < |edges| && Appeared(edges, j, t) ensures Appeared(after, j, t) {
      var i :| 0 <= i < j && edges[i].ty == t;
      assert after[i].ty == t;
    }
    forall t: nat | t < |types| ensures Appeared(after, |edges|, t) && Appeared(after, |after|, t) {
      assert Appeared(edges, |edges|, t);
      var i :| 0 <= i < |edges| && edges[i].ty == t;
      assert after[i].ty == t;
    }
    forall t: nat | t < |more| ensures Appeared(after, |after|, t) {
      if t >= |types| { assert after[|edges|].ty == t; }
    }
  }

  /** The candidates so far, and what was to be gathered. */
  ghost predicate GatheredSo(a: Arrow, edges: seq<Candidate>, types: seq<string>, pairs: seq<(nat, nat)>)
    requires a.Wanted?
  {
    Naming(a, edges, types) && NoDup(types) && PairsOf(edges) == pairs && forall c :: c in edges ==> Describes(a, types, c) && Tells(a, c)
  }

  lemma GatheredOne(a: Arrow, edges: seq<Candidate>, types: seq<string>, pairs: seq<(nat, nat)>, c: Candidate, more: seq<string>)
    requires a.Wanted? && GatheredSo(a, edges, types, pairs) && Describes(a, more, c) && Tells(a, c) && NoDup(more)
    requires more == types || (|more| == |types| + 1 && types <= more && c.ty == |types|)
    ensures GatheredSo(a, edges + [c], more, pairs + [(c.node, c.rid)])
  {
    hide Naming;
    NamedOne(a, edges, types, c, more);
    assert PairsOf(edges + [c]) == PairsOf(edges) + [(c.node, c.rid)];
  }

  /** The test of the loop on an adjacent edge. */
  lemma GathersTested(a: Arrow, capped: bool, visited: set<nat>, node: nat, id: nat)
    requires a.Wanted? && AdjacentId(a.st, node, a.direction, a.types, id)
    ensures id in a.st.relations
    ensures var r := a.st.relations[id];
      && Across(r, node) == OtherEnd(r, node)
      && (Gathers(a, capped, visited, node, id) <==> WantsRelation(a.types, a.excluded, r.rtype) && !(capped && OtherEnd(r, node) !in visited))
      && (WantsRelation(a.types, a.excluded, r.rtype) ==> Touches(a.direction, r, node))
  {
  }

  /** The candidates of one frontier node, behind those gathered before. */
  method GatherNode(g: OntologyGraph, a: Arrow, capped: bool, visited: set<nat>, node: nat, prior: seq<Candidate>, known: seq<string>,
                    ghost pairs: seq<(nat, nat)>) returns (edges: seq<Candidate>, types: seq<string>)
    requires g.Valid() && a.Wanted? && a.st == g.st && GatheredSo(a, prior, known, pairs)
    ensures GatheredSo(a, edges, types, pairs + PairsAt(a, capped, visited, node, Adjacency(g.st, node, a.direction, a.types)))
  {
    hide Naming, Gathers, WantsRelation, Touches, OtherEnd, Adjacency, Across, AdjacentId;
    var ids := AdjacentIds(g, node, a.direction, a.types);
    edges, types := prior, known;
    assert PairsAt(a, capped, visited, node, ids[..0]) == [];
    assert pairs + [] == pairs;
    for i := 0 to |ids|
      invariant GatheredSo(a, edges, types, pairs + PairsAt(a, capped, visited, node, ids[..i]))
    {
      assert ids[i] in ids;
      assert ids[..i + 1][..i] == ids[..i];
      GathersTested(a, capped, visited, node, ids[i]);
      var r := a.st.relations[ids[i]];
      var neighbor := OtherEnd(r, node);
      if WantsRelation(a.types, a.excluded, r.rtype) && !(capped && neighbor !in visited) {
        var ty := IndexOf(types, r.rtype);
        ghost var before := types;
        if ty == |types| {
          assert types[..ty] == types;
          types := types + [r.rtype];
        }
        var c := Candidate(r.weight, node, ids[i], neighbor, ty);
        ghost var so := PairsAt(a, capped, visited, node, ids[..i]);
        GatheredOne(a, edges, before, pairs + so, c, types);
        assert pairs + so + [(node, ids[i])] == pairs + (so + [(node, ids[i])]);
        edges := edges + [c];
      }
    }
    assert ids[..|ids|] == ids;
  }

  /** The candidates of the whole frontier. */
  method Gather(g: OntologyGraph, a: Arrow, capped: bool, visited: set<nat>, frontier: seq<nat>) returns (edges: seq<Candidate>, types: seq<string>)
    requires g.Valid() && a.Wanted? && a.st == g.st
    ensures Gathering(a, capped, visited, frontier, edges)
    ensures AllSound(a, frontier, types, edges) && AllGathered(a, capped, visited, frontier, edges)
  {
    hide GatheredSo;
    edges, types := [], [];
    NothingGathered(a);
    for i := 0 to |frontier|
      invariant GatheredSo(a, edges, types, PairsOver(a, capped, visited, frontier[..i]))
    {
      assert frontier[..i + 1][..i] == frontier[..i];
      edges, types := GatherNode(g, a, capped, visited, frontier[i], edges, types, PairsOver(a, capped, visited, frontier[..i]));
    }
    assert frontier[..|frontier|] == frontier;
    GatheringDone(a, capped, visited, frontier, edges, types);
  }

  lemma NothingGathered(a: Arrow)
    requires a.Wanted?
    ensures GatheredSo(a, [], [], [])
  {
  }

  lemma {:induction false} PairsAtMembers(a: Arrow, capped: bool, visited: set<nat>, node: nat, ids: seq<nat>, p: (nat, nat))
    requires a.Wanted?
    ensures p in PairsAt(a, capped, visited, node, ids) <==> p.0 == node && p.1 in ids && Gathers(a, capped, visited, node, p.1)
  {
    if ids != [] {
      var l := |ids| - 1;
      assert ids == ids[..l] + [ids[l]];
      PairsAtMembers(a, capped, visited, node, ids[..l], p);
    }
  }

  lemma AdjacencyMembers(st: State, node: nat, direction: Direction, types: seq<string>, id: nat)
    requires WellFormed(st)
    ensures id in Adjacency(st, node, direction, types) <==> AdjacentId(st, node, direction, types, id)
  {
    TypedSidesMembers(st, node, true, types);
    TypedSidesMembers(st, node, false, types);
    SelectMembers(st.relations, st.order, Sel(true, node, None));
    SelectMembers(st.relations, st.order, Sel(false, node, None));
  }

  lemma {:induction false} PairsOverMembers(a: Arrow, capped: bool, visited: set<nat>, nodes: seq<nat>, p: (nat, nat))
    requires a.Wanted? && WellFormed(a.st)
    ensures p in PairsOver(a, capped, visited, nodes) <==> p.0 in nodes && Gathers(a, capped, visited, p.0, p.1)
  {
    if nodes != [] {
      var l := |nodes| - 1;
      assert nodes == nodes[..l] + [nodes[l]];
      PairsOverMembers(a, capped, visited, nodes[..l], p);
      PairsAtMembers(a, capped, visited, nodes[l], Adjacency(a.st, nodes[l], a.direction, a.types), p);
      AdjacencyMembers(a.st, nodes[l], a.direction, a.types, p.1);
    }
  }

  lemma GatheringDone(a: Arrow, capped: bool, visited: set<nat>, frontier: seq<nat>, edges: seq<Candidate>, types: seq<string>)
    requires a.Wanted? && WellFormed(a.st) && GatheredSo(a, edges, types, PairsOver(a, capped, visited, frontier))
    ensures Gathering(a, capped, visited, frontier, edges)
    ensures AllSound(a, frontier, types, edges) && AllGathered(a, capped, visited, frontier, edges)
  {
    hide Naming, PairsOver, Gathers;
    NamingIsNumbered(a, edges, types);
    forall c | c in edges ensures c.node in frontier {
      var k :| 0 <= k < |edges| && edges[k] == c;
      assert PairsOf(edges)[k] == (c.node, c.rid);
      PairsOverMembers(a, capped, visited, frontier, (c.node, c.rid));
    }
    forall node: nat, id: nat | node in frontier && Gathers(a, capped, visited, node, id) ensures HasCandidate(edges, node, id) {
      PairsOverMembers(a, capped, visited, frontier, (node, id));
      var k :| 0 <= k < |edges| && PairsOf(edges)[k] == (node, id);
      assert edges[k] in edges;
    }
  }

  // ---------- admission ----------

  /** A candidate that the filters let through ends up kept and emitted. */
  predicate Done(a: Arrow, g: Grown, c: Candidate)
    requires a.Wanted?
  {
    c.neighbor in a.st.concepts && WantsConcept(a.ctypes, a.st.concepts[c.neighbor].ctype) ==> c.neighbor in g.depthOf && c.rid in g.emitted
  }

  /** Midway through a level, as long as no cap was reached. */
  ghost predicate Widening(a: Arrow, seeds: set<nat>, g: Grown, level: nat, edges: seq<Candidate>, i: nat)
    requires a.Wanted? && i <= |edges|
  {
    && Ball(a, seeds, g, level, level + 1) && EmittedBelow(a, g, level)
    && forall k :: 0 <= k < i ==> Done(a, g, edges[k])
  }

  predicate IsFrontier(g: Grown, nodes: seq<nat>, level: nat) {
    && (forall v :: v in nodes ==> v in g.depthOf && g.depthOf[v] == level)
    && (forall v :: v in g.depthOf && g.depthOf[v] == level ==> v in nodes)
  }

  predicate UpTo(g: Grown, top: nat) { forall v :: v in g.depthOf ==> g.depthOf[v] <= top }

  /** Kept concepts keep their depth; new ones lie at `depth`. */
  predicate Extends(start: Grown, g: Grown, depth: nat) {
    && (forall v :: v in start.depthOf ==> v in g.depthOf && g.depthOf[v] == start.depthOf[v])
    && (forall v :: v in g.depthOf && v !in start.depthOf ==> g.depthOf[v] == depth)
  }

  lemma AdmittedDone(a: Arrow, caps: Caps, g: Grown, c: Candidate, depth: nat, d: Candidate)
    requires a.Wanted? && NodesOk(a, g) && Sound(a, c)
    ensures Done(a, g, d) ==> Done(a, Admitted(a, caps, g, c, depth), d)
    ensures Uncapped(caps, Admitted(a, caps, g, c, depth)) ==> Uncapped(caps, g) && Done(a, Admitted(a, caps, g, c, depth), c)
  {
    AdmittedNodes(a, caps, g, c, depth);
  }

  lemma AdmittedBelow(a: Arrow, caps: Caps, g: Grown, c: Candidate, level: nat)
    requires a.Wanted? && NodesOk(a, g) && EmittedBelow(a, g, level)
    ensures EmittedBelow(a, Admitted(a, caps, g, c, level + 1), level)
  {
    AdmittedNodes(a, caps, g, c, level + 1);
    var next := Admitted(a, caps, g, c, level + 1);
    forall u, id, v | u in next.depthOf && next.depthOf[u] < level && id in a.st.relations && Takes(a, a.st.relations[id], u, v)
      ensures id in next.emitted
    {
      assert u in g.depthOf;
    }
  }

  lemma AdmittedWidens(a: Arrow, seeds: set<nat>, caps: Caps, g: Grown, level: nat, edges: seq<Candidate>, i: nat)
    requires a.Wanted? && NodesOk(a, g) && i < |edges| && Widening(a, seeds, g, level, edges, i) && Sound(a, edges[i])
    requires edges[i].node in g.depthOf && g.depthOf[edges[i].node] == level
    requires Uncapped(caps, Admitted(a, caps, g, edges[i], level + 1))
    ensures Widening(a, seeds, Admitted(a, caps, g, edges[i], level + 1), level, edges, i + 1)
  {
    AdmittedBall(a, seeds, caps, g, edges[i], level);
    AdmittedBelow(a, caps, g, edges[i], level);
    forall k | 0 <= k < i + 1 ensures Done(a, Admitted(a, caps, g, edges[i], level + 1), edges[k]) {
      AdmittedDone(a, caps, g, edges[i], level + 1, edges[k]);
    }
  }

  function Queued(before: Grown, after: Grown, v: nat, next: seq<nat>): seq<nat> {
    if v in after.visited && v !in before.visited then next + [v] else next
  }

  lemma AdmittedFrontier(a: Arrow, caps: Caps, g: Grown, c: Candidate, level: nat, nodes: seq<nat>)
    requires a.Wanted? && NodesOk(a, g) && IsFrontier(g, nodes, level + 1) && UpTo(g, level + 1)
    ensures var next := Admitted(a, caps, g, c, level + 1);
      && IsFrontier(next, Queued(g, next, c.neighbor, nodes), level + 1)
      && UpTo(next, level + 1)
  {
    AdmittedNodes(a, caps, g, c, level + 1);
  }

  /** The admission loop after `i` candidates. */
  ghost predicate Admitting(a: Arrow, seeds: set<nat>, caps: Caps, start: Grown, g: Grown, next: seq<nat>, level: nat,
                            edges: seq<Candidate>, i: nat)
    requires i <= |edges|
  {
    && Grows(a, seeds, caps, g) && IsFrontier(g, next, level + 1) && UpTo(g, level + 1) && Extends(start, g, level + 1)
    && (Uncapped(caps, g) ==> Uncapped(caps, start) && Widening(a, seeds, g, level, edges, i))
  }

  lemma AdmittingOne(a: Arrow, seeds: set<nat>, caps: Caps, start: Grown, g: Grown, next: seq<nat>, level: nat, edges: seq<Candidate>, i: nat)
    requires i < |edges| && Admitting(a, seeds, caps, start, g, next, level, edges, i) && !EdgesCapped(caps, |g.emitted|)
    requires Sound(a, edges[i]) && edges[i].node in start.depthOf && start.depthOf[edges[i].node] == level
    ensures var after := Admitted(a, caps, g, edges[i], level + 1);
      Admitting(a, seeds, caps, start, after, Queued(g, after, edges[i].neighbor, next), level, edges, i + 1)
  {
    hide Widening, Sound, IsFrontier, Extends, UpTo, Admitted, NodesOk, EdgesOk, AllHang, WithinCaps, EdgesCapped, Uncapped, Queued;
    DepthHeld(start, g, level + 1, edges[i].node);
    AdmittedGrows(a, seeds, caps, g, edges[i], level + 1);
    AdmittedNodes(a, caps, g, edges[i], level + 1);
    AdmittedFrontier(a, caps, g, edges[i], level, next);
    AdmittedDone(a, caps, g, edges[i], level + 1, edges[i]);
    AdmittedExtends(a, caps, start, g, edges[i], level + 1);
    if Uncapped(caps, Admitted(a, caps, g, edges[i], level + 1)) { AdmittedWidens(a, seeds, caps, g, level, edges, i); }
  }

  lemma DepthHeld(start: Grown, g: Grown, depth: nat, v: nat)
    requires Extends(start, g, depth) && v in start.depthOf
    ensures v in g.depthOf && g.depthOf[v] == start.depthOf[v]
  {
  }

  lemma AdmittedExtends(a: Arrow, caps: Caps, start: Grown, g: Grown, c: Candidate, depth: nat)
    requires a.Wanted? && NodesOk(a, g) && Extends(start, g, depth)
    ensures Extends(start, Admitted(a, caps, g, c, depth), depth)
  {
    AdmittedNodes(a, caps, g, c, depth);
  }

  /** The admission loop of one level: at the edge cap it stops. */
  method AdmitAll(a: Arrow, caps: Caps, start: Grown, edges: seq<Candidate>, level: nat, ghost seeds: set<nat>, ghost frontier: seq<nat>)
    returns (g: Grown, next: seq<nat>, ghost taken: nat, ghost states: seq<Grown>)
    requires Admitting(a, seeds, caps, start, start, [], level, edges, 0)
    requires forall c :: c in edges ==> Sound(a, c) && c.node in start.depthOf && start.depthOf[c.node] == level
    ensures taken <= |edges| && Admitting(a, seeds, caps, start, g, next, level, edges, taken)
    ensures taken < |edges| ==> !Uncapped(caps, g)
    ensures a.Wanted? && Admission(a, caps, level + 1, edges, states) && states[0] == start && states[|states| - 1] == g
    ensures |start.kept| <= |g.kept| && next == g.kept[|start.kept|..]
  {
    hide Admitting, Steps, Admitted, Sound;
    g, next, taken, states := start, [], 0, [start];
    AdmittingWanted(a, seeds, caps, start, level, edges);
    for i := 0 to |edges|
      invariant taken == i && Admitting(a, seeds, caps, start, g, next, level, edges, i)
      invariant |states| == i + 1 && states[0] == start && states[i] == g
      invariant forall k :: 0 <= k < i ==> !Full(caps, states[k]) && Steps(a, caps, states[k], edges[k], level + 1, states[k + 1])
      invariant |start.kept| <= |g.kept| && next == g.kept[|start.kept|..]
    {
      if EdgesCapped(caps, |g.emitted|) { return; }
      assert edges[i] in edges;
      AdmittingOne(a, seeds, caps, start, g, next, level, edges, i);
      AdmittedSteps(a, caps, g, edges[i], level + 1);
      AdmittedKept(a, caps, g, edges[i], level + 1, |start.kept|);
      var after := Admitted(a, caps, g, edges[i], level + 1);
      next := Queued(g, after, edges[i].neighbor, next);
      g := after;
      taken := i + 1;
      states := states + [after];
    }
  }

  lemma AdmittingWanted(a: Arrow, seeds: set<nat>, caps: Caps, start: Grown, level: nat, edges: seq<Candidate>)
    requires Admitting(a, seeds, caps, start, start, [], level, edges, 0)
    ensures a.Wanted?
  {
  }

  // ---------- the expansion ----------

  function Live(st: State, seeds: seq<nat>): set<nat> { set s | s in seeds && s in st.concepts }

  function Copies(st: State, ids: seq<nat>): seq<Concept>
    requires forall v :: v in ids ==> v in st.concepts
  {
    seq(|ids|, i requires 0 <= i < |ids| => st.concepts[ids[i]])
  }

  function CopiedEdges(st: State, ids: seq<nat>): seq<Relation>
    requires forall id :: id in ids ==> id in st.relations
  {
    seq(|ids|, i requires 0 <= i < |ids| => st.relations[ids[i]])
  }

  /** After the seeds in `done`: those that exist are kept at depth 0. */
  ghost predicate Starting(a: Arrow, g: Grown, frontier: seq<nat>, done: seq<nat>)
    requires a.Wanted?
  {
    && NodesOk(a, g) && g.emitted == [] && IsFrontier(g, frontier, 0) && UpTo(g, 0)
    && g.depthOf.Keys == Live(a.st, done) && g.visited == Elems(done)
    && frontier == g.kept == FirstLive(a.st, done)
  }

  lemma SeedSeen(a: Arrow, g: Grown, frontier: seq<nat>, done: seq<nat>, seed: nat)
    requires a.Wanted? && Starting(a, g, frontier, done) && seed in g.visited
    ensures Starting(a, g, frontier, done + [seed])
  {
    hide IsFrontier, UpTo;
    ElemsSnoc(done, seed);
    assert (done + [seed])[..|done|] == done;
    assert seed in a.st.concepts ==> seed in g.kept by { assert seed in a.st.concepts ==> seed in g.depthOf.Keys; }
    assert Live(a.st, done + [seed]) == Live(a.st, done) by {
      forall x ensures x in Live(a.st, done + [seed]) <==> x in Live(a.st, done) { assert x == seed ==> x in Elems(done); }
    }
  }

  lemma SeedDead(a: Arrow, g: Grown, frontier: seq<nat>, done: seq<nat>, seed: nat)
    requires a.Wanted? && Starting(a, g, frontier, done) && seed !in a.st.concepts
    ensures Starting(a, g.(visited := g.visited + {seed}), frontier, done + [seed])
  {
    ElemsSnoc(done, seed);
    assert Live(a.st, done + [seed]) == Live(a.st, done);
  }

  lemma SeedKept(a: Arrow, g: Grown, frontier: seq<nat>, done: seq<nat>, seed: nat)
    requires a.Wanted? && Starting(a, g, frontier, done) && seed in a.st.concepts && seed !in g.visited
    ensures Starting(a, WithNode(g, seed, 0), frontier + [seed], done + [seed])
  {
    ElemsSnoc(done, seed);
    ElemsSnoc(g.kept, seed);
    assert seed !in g.kept by { assert seed !in g.depthOf.Keys; }
    assert Live(a.st, done + [seed]) == Live(a.st, done) + {seed};
  }

  lemma NoSeeds(a: Arrow)
    requires a.Wanted?
    ensures Starting(a, Grown({}, [], map[], []), [], [])
  {
  }

  lemma SeedsGrow(a: Arrow, g: Grown, frontier: seq<nat>, seeds: seq<nat>, caps: Caps)
    requires a.Wanted? && Starting(a, g, frontier, seeds)
    ensures Grows(a, Live(a.st, seeds), caps, g) && IsFrontier(g, frontier, 0) && UpTo(g, 0)
    ensures g.depthOf.Keys == Live(a.st, seeds) && frontier == g.kept && Begins(a.st, seeds, g)
  {
    KeptCount(g.kept, Live(a.st, seeds));
    forall v ensures v in g.kept <==> v in g.depthOf { assert v in Elems(g.kept) <==> v in g.depthOf.Keys; }
  }

  /** The seeds that exist, each once. */
  method StartFrom(st: State, seeds: seq<nat>, ghost a: Arrow, caps: Caps) returns (g: Grown, frontier: seq<nat>)
    requires a.Wanted? && a.st == st
    ensures Grows(a, Live(st, seeds), caps, g) && IsFrontier(g, frontier, 0) && UpTo(g, 0)
    ensures g.depthOf.Keys == Live(st, seeds) && frontier == g.kept && Begins(st, seeds, g)
  {
    g, frontier := Grown({}, [], map[], []), [];
    NoSeeds(a);
    assert seeds[..0] == [];
    hide Starting, Grows;
    for i := 0 to |seeds|
      invariant Starting(a, g, frontier, seeds[..i])
    {
      assert seeds[..i + 1] == seeds[..i] + [seeds[i]];
      if seeds[i] in g.visited {
        SeedSeen(a, g, frontier, seeds[..i], seeds[i]);
      } else if seeds[i] in st.concepts {
        SeedKept(a, g, frontier, seeds[..i], seeds[i]);
        g := WithNode(g, seeds[i], 0);
        frontier := frontier + [seeds[i]];
      } else {
        SeedDead(a, g, frontier, seeds[..i], seeds[i]);
        g := g.(visited := g.visited + {seeds[i]});
      }
    }
    assert seeds[..|seeds|] == seeds;
    SeedsGrow(a, g, frontier, seeds, caps);
  }

  lemma {:induction false} KeptCount(s: seq<nat>, t: set<nat>)
    requires NoDup(s) && Elems(s) == t
    ensures |s| == |t|
  {
    if s != [] {
      var l := |s| - 1;
      assert s == s[..l] + [s[l]] && s[l] !in s[..l];
      KeptCount(s[..l], t - {s[l]});
    } else {
      assert t == {};
    }
  }

  /** What holds between two levels. */
  ghost predicate AtLevel(a: Arrow, seeds: set<nat>, caps: Caps, g: Grown, frontier: seq<nat>, level: nat) {
    && Grows(a, seeds, caps, g) && IsFrontier(g, frontier, level) && UpTo(g, level)
    && (Uncapped(caps, g) ==> Ball(a, seeds, g, level, level) && EmittedBelow(a, g, level))
  }

  lemma StartBall(a: Arrow, seeds: set<nat>, g: Grown)
    requires a.Wanted? && g.depthOf.Keys == seeds && UpTo(g, 0)
    ensures Ball(a, seeds, g, 0, 0) && EmittedBelow(a, g, 0)
  {
    forall v | v in g.depthOf ensures IsDistance(a, seeds, v, g.depthOf[v]) { assert At(a, seeds, v, 0); }
  }

  /** Without a cap, going through the candidates finishes the frontier. */
  lemma FrontierFinished(a: Arrow, seeds: set<nat>, start: Grown, g: Grown, level: nat, frontier: seq<nat>, edges: seq<Candidate>)
    requires a.Wanted? && IsFrontier(start, frontier, level) && AllGathered(a, false, start.visited, frontier, edges)
    requires forall c :: c in edges ==> Sound(a, c) && Done(a, g, c)
    requires Extends(start, g, level + 1)
    ensures FrontierDone(a, g, level)
  {
    forall u, id, v | u in g.depthOf && g.depthOf[u] == level && id in a.st.relations && Takes(a, a.st.relations[id], u, v)
      ensures v in g.depthOf && id in g.emitted
    {
      assert u in start.depthOf && start.depthOf[u] == level;
      assert Gathers(a, false, start.visited, u, id);
      var c :| c in edges && c.node == u && c.rid == id;
      assert Done(a, g, c);
    }
  }

  lemma AdmissionStarts(a: Arrow, seeds: set<nat>, caps: Caps, start: Grown, frontier: seq<nat>, level: nat, edges: seq<Candidate>)
    requires AtLevel(a, seeds, caps, start, frontier, level)
    ensures Admitting(a, seeds, caps, start, start, [], level, edges, 0)
  {
  }

  lemma AdmissionEnds(a: Arrow, seeds: set<nat>, caps: Caps, start: Grown, frontier: seq<nat>, level: nat, gathered: seq<Candidate>,
                      edges: seq<Candidate>, g: Grown, next: seq<nat>, taken: nat)
    requires AtLevel(a, seeds, caps, start, frontier, level) && (forall c :: c in gathered <==> c in edges)
    requires taken <= |edges| && Admitting(a, seeds, caps, start, g, next, level, edges, taken)
    requires forall c :: c in edges ==> Sound(a, c)
    requires AllGathered(a, |start.kept| >= caps.maxNodes, start.visited, frontier, gathered)
    requires taken < |edges| ==> !Uncapped(caps, g)
    ensures AtLevel(a, seeds, caps, g, next, level + 1)
  {
    if Uncapped(caps, g) {
      forall c | c in edges ensures Done(a, g, c) {
        var k :| 0 <= k < |edges| && edges[k] == c;
        assert Done(a, g, edges[k]);
      }
      GatheredReordered(a, start.visited, frontier, gathered, edges);
      FrontierFinished(a, seeds, start, g, level, frontier, edges);
      LevelDone(a, seeds, g, level);
    }
  }

  lemma CandidatesFit(a: Arrow, seeds: set<nat>, caps: Caps, start: Grown, frontier: seq<nat>, level: nat, types: seq<string>, gathered: seq<Candidate>)
    requires a.Wanted? && AtLevel(a, seeds, caps, start, frontier, level) && AllSound(a, frontier, types, gathered)
    ensures forall c :: c in gathered ==> c.ty < |types| && Sound(a, c) && c.node in start.depthOf && start.depthOf[c.node] == level
  {
  }

  /** One level: gather, reorder, admit. */
  method ExpandLevel(g: OntologyGraph, a: Arrow, caps: Caps, start: Grown, frontier: seq<nat>, level: nat, ghost seeds: set<nat>)
    returns (grown: Grown, next: seq<nat>, ghost l: Level)
    requires g.Valid() && a.Wanted? && a.st == g.st && AtLevel(a, seeds, caps, start, frontier, level)
    requires frontier != [] && !EdgesCapped(caps, |start.emitted|)
    ensures AtLevel(a, seeds, caps, grown, next, level + 1)
    ensures LevelOk(a, caps, level, l) && l.frontier == frontier && l.states[0] == start && Last(l) == grown
    ensures |start.kept| <= |grown.kept| && next == grown.kept[|start.kept|..]
  {
    hide Gathering, Fair, Admission, AtLevel, Admitting, AllSound, AllGathered, AreBuckets, Rounds, Descending, Sound, Describes;
    var gathered, types := Gather(g, a, |start.kept| >= caps.maxNodes, start.visited, frontier);
    var edges;
    ghost var buckets, taken, states;
    CandidatesFit(a, seeds, caps, start, frontier, level, types, gathered);
    edges, buckets := Reorder(gathered, |types|);
    RoundsAreFair(gathered, buckets, edges);
    SameMembers(gathered, edges);
    AdmissionStarts(a, seeds, caps, start, frontier, level, edges);
    grown, next, taken, states := AdmitAll(a, caps, start, edges, level, seeds, frontier);
    AdmissionEnds(a, seeds, caps, start, frontier, level, gathered, edges, grown, next, taken);
    l := Level(frontier, gathered, edges, states);
  }

  lemma SameMembers(a: seq<Candidate>, b: seq<Candidate>)
    requires multiset(a) == multiset(b)
    ensures forall c :: c in a <==> c in b
  {
    forall c ensures c in a <==> c in b { assert c in multiset(a) <==> c in multiset(b); }
  }

  lemma GatheredReordered(a: Arrow, visited: set<nat>, frontier: seq<nat>, before: seq<Candidate>, edges: seq<Candidate>)
    requires a.Wanted? && AllGathered(a, false, visited, frontier, before) && forall c :: c in before ==> c in edges
    ensures AllGathered(a, false, visited, frontier, edges)
  {
    forall node, id | node in frontier && Gathers(a, false, visited, node, id) ensures HasCandidate(edges, node, id) {
      var c :| c in before && c.node == node && c.rid == id;
      assert c in edges;
    }
  }

  /** What an expansion is, for the kept concepts and emitted edges of `g`. */
  ghost predicate Expanded(a: Arrow, seeds: set<nat>, spec: Spec, g: Grown) {
    && Grows(a, seeds, spec.caps, g) && UpTo(g, spec.maxDepth)
    && (Uncapped(spec.caps, g) ==> Ball(a, seeds, g, spec.maxDepth, spec.maxDepth) && EmittedBelow(a, g, spec.maxDepth))
  }

  ghost predicate AsCopied(st: State, g: Grown, sub: Subgraph) {
    && (forall v :: v in g.kept ==> v in st.concepts) && (forall id :: id in g.emitted ==> id in st.relations)
    && sub.concepts == Copies(st, g.kept) && sub.relations == CopiedEdges(st, g.emitted) && sub.depthOf == g.depthOf
  }

  /** `expand`: level by level, the strongest edges first and the types taking
      turns. No emitted edge dangles, nothing repeats, the caps hold, every kept
      concept hangs on a chain of emitted edges of its depth; and when no cap is
      reached the result is exactly the ball of radius `maxDepth` over the
      wanted edges and concepts, with true distances. Under a cap it is what
      admitting the candidates of each level in fair order leaves. */
  method Expand(g: OntologyGraph, seeds: seq<nat>, spec: Spec)
    returns (sub: Subgraph, ghost a: Arrow, ghost grown: Grown, ghost start: Grown, ghost levels: seq<Level>)
    requires g.Valid()
    ensures a.Wanted? && a.st == g.st && a.direction == spec.direction && a.types == spec.relationTypes && a.excluded == spec.excluded
    ensures FilterOk(g.st.schema, spec, a.ctypes)
    ensures Expanded(a, Live(g.st, seeds), spec, grown) && AsCopied(g.st, grown, sub) && sub.seeds == seeds
    ensures Traced(a, seeds, spec.caps, spec.maxDepth, start, levels, grown)
  {
    var filter := ConceptFilter(g, spec);
    var arrow := Wanted(g.st, spec.direction, spec.relationTypes, spec.excluded, filter);
    a := arrow;
    var state;
    state, start, levels := ExpandLevels(g, seeds, spec, arrow);
    grown := state;
    CopiesOk(a, state);
    sub := Subgraph(seeds, Copies(g.st, state.kept), CopiedEdges(g.st, state.emitted), state.depthOf);
  }

  method ExpandLevels(g: OntologyGraph, seeds: seq<nat>, spec: Spec, a: Arrow)
    returns (state: Grown, ghost start: Grown, ghost levels: seq<Level>)
    requires g.Valid() && a.Wanted? && a.st == g.st
    ensures Expanded(a, Live(g.st, seeds), spec, state)
    ensures Traced(a, seeds, spec.caps, spec.maxDepth, start, levels, state)
  {
    hide Grows, IsFrontier, UpTo, Ball, EmittedBelow, Expanded, LevelOk, Begins, Follows;
    ghost var live := Live(g.st, seeds);
    var frontier;
    state, frontier := StartFrom(g.st, seeds, a, spec.caps);
    StartBall(a, live, state);
    start, levels := state, [];
    FollowsNothing(a, spec.caps, start);
    var depth := 0;
    while depth < spec.maxDepth && frontier != [] && !EdgesCapped(spec.caps, |state.emitted|)
      invariant depth <= spec.maxDepth && AtLevel(a, live, spec.caps, state, frontier, depth)
      invariant |levels| == depth && Follows(a, spec.caps, start, levels, state) && frontier == NextFrontier(start, levels)
    {
      ghost var before := state;
      ghost var l;
      state, frontier, l := ExpandLevel(g, a, spec.caps, state, frontier, depth, live);
      FollowsOn(a, spec.caps, start, levels, before, l);
      levels := levels + [l];
      depth := depth + 1;
    }
    LevelsEnd(a, live, spec, state, frontier, depth);
  }

  lemma FollowsNothing(a: Arrow, caps: Caps, start: Grown)
    requires a.Wanted?
    ensures Follows(a, caps, start, [], start)
  {
  }

  lemma CopiesOk(a: Arrow, g: Grown)
    requires a.Wanted? && NodesOk(a, g) && EdgesOk(a, g)
    ensures (forall v :: v in g.kept ==> v in a.st.concepts) && (forall id :: id in g.emitted ==> id in a.st.relations)
  {
    forall v | v in g.kept ensures v in a.st.concepts { assert v in Elems(g.kept); }
  }

  /** However the loop ended, no concept within the bound is missing unless a
      cap was reached. */
  lemma LevelsEnd(a: Arrow, seeds: set<nat>, spec: Spec, g: Grown, frontier: seq<nat>, depth: nat)
    requires depth <= spec.maxDepth && AtLevel(a, seeds, spec.caps, g, frontier, depth)
    requires depth == spec.maxDepth || frontier == [] || EdgesCapped(spec.caps, |g.emitted|)
    ensures Expanded(a, seeds, spec, g)
  {
    if Uncapped(spec.caps, g) && depth < spec.maxDepth {
      forall u | u in g.depthOf ensures g.depthOf[u] < depth { assert g.depthOf[u] == depth ==> u in frontier; }
      EmptyFrontier(a, seeds, g, depth, spec.maxDepth);
    }
  }
}
