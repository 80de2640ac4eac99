/** The state of an expansion and what admitting one candidate keeps: every
    emitted edge joins two kept concepts, every kept concept hangs on a chain of
    emitted edges, the caps hold, and while no cap is reached the kept concepts
    are exactly a ball with its true distances. */
module Growth {
  import opened Collections
  import opened GraphState
  import opened Reach
  import opened Fairness

  datatype Caps = Caps(maxNodes: nat, maxEdges: nat)

  /** `visited` also holds the seeds that do not exist. */
  datatype Grown = Grown(visited: set<nat>, kept: seq<nat>, depthOf: map<nat, nat>, emitted: seq<nat>)

  predicate EdgesCapped(caps: Caps, n: nat) { caps.maxEdges > 0 && n >= caps.maxEdges }

  /** No cap has been reached. */
  predicate Uncapped(caps: Caps, g: Grown) { |g.kept| < caps.maxNodes && !EdgesCapped(caps, |g.emitted|) }

  /** What gathering guarantees of a candidate. */
  predicate Sound(a: Arrow, c: Candidate)
    requires a.Wanted?
  {
    && c.rid in a.st.relations && Touches(a.direction, a.st.relations[c.rid], c.node)
    && WantsRelation(a.types, a.excluded, a.st.relations[c.rid].rtype) && c.neighbor == OtherEnd(a.st.relations[c.rid], c.node)
  }

  /** Whether the loop body lets the candidate through. */
  predicate Lets(a: Arrow, caps: Caps, g: Grown, c: Candidate)
    requires a.Wanted?
  {
    && (c.neighbor in g.visited || |g.kept| < caps.maxNodes)
    && c.neighbor in a.st.concepts && WantsConcept(a.ctypes, a.st.concepts[c.neighbor].ctype)
  }

  function WithNode(g: Grown, v: nat, depth: nat): Grown {
    g.(visited := g.visited + {v}, kept := g.kept + [v], depthOf := g.depthOf[v := depth])
  }

  function WithEdge(g: Grown, rid: nat): Grown {
    if rid in g.emitted then g else g.(emitted := g.emitted + [rid])
  }

  /** The body of the admission loop, below the edge cap. */
  function Admitted(a: Arrow, caps: Caps, g: Grown, c: Candidate, depth: nat): Grown
    requires a.Wanted?
  {
    if !Lets(a, caps, g, c) then g else
    WithEdge(if c.neighbor in g.visited then g else WithNode(g, c.neighbor, depth), c.rid)
  }

  // ---------- what always holds ----------

  predicate NodesOk(a: Arrow, g: Grown)
    requires a.Wanted?
  {
    && NoDup(g.kept) && Elems(g.kept) == g.depthOf.Keys && g.depthOf.Keys == g.visited * a.st.concepts.Keys
  }

  /** A wanted edge between two kept concepts. */
  predicate EdgeKept(a: Arrow, g: Grown, r: Relation)
    requires a.Wanted?
  {
    r.source in g.depthOf && r.target in g.depthOf && WantsRelation(a.types, a.excluded, r.rtype)
  }

  predicate EdgesOk(a: Arrow, g: Grown)
    requires a.Wanted?
  {
    && NoDup(g.emitted)
    && forall id :: id in g.emitted ==> id in a.st.relations && EdgeKept(a, g, a.st.relations[id])
  }

  /** An emitted edge that was taken from `u` to `v`. */
  predicate Link(a: Arrow, g: Grown, id: nat, u: nat, v: nat)
    requires a.Wanted?
  {
    id in g.emitted && id in a.st.relations && Takes(a, a.st.relations[id], u, v)
  }

  /** `v` is a seed, or an emitted edge was taken to it from one level up. */
  ghost predicate Hangs(a: Arrow, seeds: set<nat>, g: Grown, v: nat)
    requires a.Wanted? && v in g.depthOf
  {
    if g.depthOf[v] == 0 then v in seeds else
    exists u, id :: u in g.depthOf && g.depthOf[u] + 1 == g.depthOf[v] && Link(a, g, id, u, v)
  }

  ghost predicate AllHang(a: Arrow, seeds: set<nat>, g: Grown)
    requires a.Wanted?
  {
    forall v :: v in g.depthOf ==> Hangs(a, seeds, g, v)
  }

  predicate WithinCaps(seeds: set<nat>, caps: Caps, g: Grown) {
    && (|g.kept| <= |seeds| || |g.kept| <= caps.maxNodes) && (caps.maxEdges > 0 ==> |g.emitted| <= caps.maxEdges)
  }

  ghost predicate Grows(a: Arrow, seeds: set<nat>, caps: Caps, g: Grown) {
    a.Wanted? && NodesOk(a, g) && EdgesOk(a, g) && AllHang(a, seeds, g) && WithinCaps(seeds, caps, g)
  }

  lemma AdmittedNodes(a: Arrow, caps: Caps, g: Grown, c: Candidate, depth: nat)
    requires a.Wanted? && NodesOk(a, g)
    ensures NodesOk(a, Admitted(a, caps, g, c, depth))
    ensures Lets(a, caps, g, c) ==> c.neighbor in Admitted(a, caps, g, c, depth).depthOf
    ensures forall v :: v in g.depthOf ==> v in Admitted(a, caps, g, c, depth).depthOf && Admitted(a, caps, g, c, depth).depthOf[v] == g.depthOf[v]
  {
    if Lets(a, caps, g, c) && c.neighbor !in g.visited {
      assert c.neighbor !in g.kept by { assert c.neighbor !in g.depthOf.Keys; }
      ElemsSnoc(g.kept, c.neighbor);
    }
  }

  lemma AdmittedEdges(a: Arrow, caps: Caps, g: Grown, c: Candidate, depth: nat)
    requires a.Wanted? && NodesOk(a, g) && EdgesOk(a, g) && Sound(a, c) && c.node in g.depthOf
    ensures EdgesOk(a, Admitted(a, caps, g, c, depth))
  {
    AdmittedNodes(a, caps, g, c, depth);
  }

  lemma AdmittedHangs(a: Arrow, seeds: set<nat>, caps: Caps, g: Grown, c: Candidate, depth: nat)
    requires a.Wanted? && NodesOk(a, g) && AllHang(a, seeds, g) && Sound(a, c)
    requires c.node in g.depthOf && g.depthOf[c.node] + 1 == depth
    ensures AllHang(a, seeds, Admitted(a, caps, g, c, depth))
  {
    AdmittedNodes(a, caps, g, c, depth);
    var next := Admitted(a, caps, g, c, depth);
    forall v | v in next.depthOf ensures Hangs(a, seeds, next, v) {
      if v in g.depthOf {
        assert Hangs(a, seeds, g, v);
        if g.depthOf[v] != 0 {
          var u, id :| u in g.depthOf && g.depthOf[u] + 1 == g.depthOf[v] && Link(a, g, id, u, v);
          assert Link(a, next, id, u, v);
        }
      } else {
        assert v == c.neighbor && Link(a, next, c.rid, c.node, v);
      }
    }
  }

  /** One admission keeps everything. */
  lemma AdmittedGrows(a: Arrow, seeds: set<nat>, caps: Caps, g: Grown, c: Candidate, depth: nat)
    requires Grows(a, seeds, caps, g) && Sound(a, c) && c.node in g.depthOf && g.depthOf[c.node] + 1 == depth
    requires !EdgesCapped(caps, |g.emitted|)
    ensures Grows(a, seeds, caps, Admitted(a, caps, g, c, depth))
  {
    AdmittedNodes(a, caps, g, c, depth);
    AdmittedEdges(a, caps, g, c, depth);
    AdmittedHangs(a, seeds, caps, g, c, depth);
  }

  // ---------- chains ----------

  /** A chain of emitted edges from a seed, one per level, ending at `v`. */
  ghost predicate Chain(a: Arrow, seeds: set<nat>, g: Grown, path: seq<nat>, ids: seq<nat>, v: nat)
    requires a.Wanted?
  {
    && |path| == |ids| + 1 && path[0] in seeds && path[|ids|] == v
    && forall i :: 0 <= i < |ids| ==> Link(a, g, ids[i], path[i], path[i + 1])
  }

  lemma ChainSnoc(a: Arrow, seeds: set<nat>, g: Grown, path: seq<nat>, ids: seq<nat>, u: nat, id: nat, v: nat)
    requires a.Wanted? && Chain(a, seeds, g, path, ids, u) && Link(a, g, id, u, v)
    ensures Chain(a, seeds, g, path + [v], ids + [id], v)
  {
    var p, e := path + [v], ids + [id];
    forall i | 0 <= i < |e| ensures Link(a, g, e[i], p[i], p[i + 1]) {
      if i < |ids| { assert Link(a, g, ids[i], path[i], path[i + 1]); }
    }
  }

  /** Every kept concept is linked to a seed by a chain of exactly its depth. */
  lemma {:induction false} ChainExists(a: Arrow, seeds: set<nat>, g: Grown, v: nat) returns (path: seq<nat>, ids: seq<nat>)
    requires a.Wanted? && AllHang(a, seeds, g) && v in g.depthOf
    ensures Chain(a, seeds, g, path, ids, v) && |ids| == g.depthOf[v]
    decreases g.depthOf[v]
  {
    assert Hangs(a, seeds, g, v);
    if g.depthOf[v] == 0 {
      path, ids := [v], [];
    } else {
      var u, id :| u in g.depthOf && g.depthOf[u] + 1 == g.depthOf[v] && Link(a, g, id, u, v);
      var p, e := ChainExists(a, seeds, g, u);
      path, ids := p + [v], e + [id];
      ChainSnoc(a, seeds, g, p, e, u, id, v);
    }
  }

  // ---------- exactness ----------

  /** Everything within `level` hops is kept, everything kept is within `top`
      hops, and the depths are the distances. */
  ghost predicate Ball(a: Arrow, seeds: set<nat>, g: Grown, level: nat, top: nat) {
    && (forall v :: v in g.depthOf ==> IsDistance(a, seeds, v, g.depthOf[v]) && g.depthOf[v] <= top)
    && (forall v, n: nat :: n <= level && At(a, seeds, v, n) ==> v in g.depthOf)
  }

  /** Every edge taken from a kept concept below `level` is emitted. */
  ghost predicate EmittedBelow(a: Arrow, g: Grown, level: nat)
    requires a.Wanted?
  {
    forall u, id, v :: u in g.depthOf && g.depthOf[u] < level && id in a.st.relations && Takes(a, a.st.relations[id], u, v) ==> id in g.emitted
  }

  /** A concept first met from distance `depth` lies one hop further. */
  lemma NewDistance(a: Arrow, seeds: set<nat>, g: Grown, id: nat, u: nat, v: nat, depth: nat)
    requires a.Wanted? && Ball(a, seeds, g, depth, depth + 1) && u in g.depthOf && g.depthOf[u] == depth && v !in g.depthOf
    requires id in a.st.relations && Takes(a, a.st.relations[id], u, v)
    ensures IsDistance(a, seeds, v, depth + 1)
  {
    assert At(a, seeds, u, depth) && Hop(a, u, v);
    assert At(a, seeds, v, depth + 1);
  }

  lemma AdmittedBall(a: Arrow, seeds: set<nat>, caps: Caps, g: Grown, c: Candidate, depth: nat)
    requires a.Wanted? && NodesOk(a, g) && Ball(a, seeds, g, depth, depth + 1) && Sound(a, c)
    requires c.node in g.depthOf && g.depthOf[c.node] == depth
    ensures Ball(a, seeds, Admitted(a, caps, g, c, depth + 1), depth, depth + 1)
  {
    AdmittedNodes(a, caps, g, c, depth + 1);
    if Lets(a, caps, g, c) && c.neighbor !in g.visited {
      assert c.neighbor !in g.depthOf.Keys;
      NewDistance(a, seeds, g, c.rid, c.node, c.neighbor, depth);
    }
  }

  /** Every edge taken from the frontier leads to a kept concept and is emitted. */
  ghost predicate FrontierDone(a: Arrow, g: Grown, level: nat)
    requires a.Wanted?
  {
    forall u, id, v {:trigger Takes(a, a.st.relations[id], u, v)} :: u in g.depthOf && g.depthOf[u] == level && id in a.st.relations && Takes(a, a.st.relations[id], u, v)
      ==> v in g.depthOf && id in g.emitted
  }

  lemma Widened(a: Arrow, seeds: set<nat>, g: Grown, level: nat, v: nat)
    requires a.Wanted? && Ball(a, seeds, g, level, level + 1) && FrontierDone(a, g, level) && At(a, seeds, v, level + 1)
    ensures v in g.depthOf
  {
    var u :| At(a, seeds, u, level) && Hop(a, u, v);
    assert u in g.depthOf;
    var d := g.depthOf[u];
    assert IsDistance(a, seeds, u, d);
    assert d <= level;
    if d < level {
      assert At(a, seeds, v, d + 1);
    } else {
      var id :| id in a.st.relations && Takes(a, a.st.relations[id], u, v);
    }
  }

  /** A finished level widens the ball by one. */
  lemma LevelDone(a: Arrow, seeds: set<nat>, g: Grown, level: nat)
    requires a.Wanted? && Ball(a, seeds, g, level, level + 1) && EmittedBelow(a, g, level) && FrontierDone(a, g, level)
    ensures Ball(a, seeds, g, level + 1, level + 1) && EmittedBelow(a, g, level + 1)
  {
    forall v | At(a, seeds, v, level + 1) ensures v in g.depthOf { Widened(a, seeds, g, level, v); }
    forall u, id, v | u in g.depthOf && g.depthOf[u] < level + 1 && id in a.st.relations && Takes(a, a.st.relations[id], u, v)
      ensures id in g.emitted
    {
      if g.depthOf[u] == level { assert id in g.emitted; }
    }
  }

  /** With an empty frontier there is nothing further out. */
  lemma {:induction false} NothingFurther(a: Arrow, seeds: set<nat>, g: Grown, level: nat, v: nat, n: nat)
    requires a.Wanted? && Ball(a, seeds, g, level, level) && At(a, seeds, v, n)
    requires forall u :: u in g.depthOf ==> g.depthOf[u] < level
    ensures v in g.depthOf
    decreases n
  {
    if n > level {
      var u :| At(a, seeds, u, n - 1) && Hop(a, u, v);
      NothingFurther(a, seeds, g, level, u, n - 1);
      assert At(a, seeds, u, g.depthOf[u]);
      assert At(a, seeds, v, g.depthOf[u] + 1);
    }
  }

  lemma EmptyFrontier(a: Arrow, seeds: set<nat>, g: Grown, level: nat, bound: nat)
    requires a.Wanted? && Ball(a, seeds, g, level, level) && EmittedBelow(a, g, level) && level <= bound
    requires forall u :: u in g.depthOf ==> g.depthOf[u] < level
    ensures Ball(a, seeds, g, bound, bound) && EmittedBelow(a, g, bound)
  {
    forall v, n: nat | n <= bound && At(a, seeds, v, n) ensures v in g.depthOf { NothingFurther(a, seeds, g, level, v, n); }
  }
}
