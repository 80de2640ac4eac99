/** Hop distances over the three neighbourhoods that the traversals follow, and
    the invariant of a breadth-first search over any of them. */
module Reach {
  import opened Collections
  import opened GraphState

  datatype Direction = Outgoing | Incoming | Both

  /** Which hops count: along any edge either way; along the real and virtual
      edges of one type either way; or along the edges that an expansion wants,
      towards the concepts it wants. */
  datatype Arrow =
    | AnyEdge(st: State)
    | OfType(st: State, rtype: string)
    | Wanted(st: State, direction: Direction, types: seq<string>, excluded: seq<string>, ctypes: Option<set<string>>)

  function OtherEnd(r: Relation, node: nat): nat { if r.source == node then r.target else r.source }

  predicate Touches(direction: Direction, r: Relation, node: nat) {
    (direction != Incoming && r.source == node) || (direction != Outgoing && r.target == node)
  }

  predicate WantsRelation(types: seq<string>, excluded: seq<string>, rtype: string) {
    (types == [] || rtype in types) && rtype !in excluded
  }

  predicate WantsConcept(ctypes: Option<set<string>>, ctype: string) { ctypes.Some? ==> ctype in ctypes.value }

  predicate Joins(r: Relation, x: nat, y: nat) { (r.source == x && r.target == y) || (r.source == y && r.target == x) }

  /** A live edge joins the two, of the type or of its declared inverse. */
  ghost predicate TypedStep(st: State, rtype: string, x: nat, y: nat) {
    exists id :: id in st.relations && Joins(st.relations[id], x, y)
      && (st.relations[id].rtype == rtype || IsInverse(st.schema, rtype, st.relations[id].rtype))
  }

  /** An edge that the expansion takes from `x` to `y`. */
  predicate Takes(a: Arrow, r: Relation, x: nat, y: nat)
    requires a.Wanted?
  {
    && Touches(a.direction, r, x) && OtherEnd(r, x) == y && WantsRelation(a.types, a.excluded, r.rtype)
    && y in a.st.concepts && WantsConcept(a.ctypes, a.st.concepts[y].ctype)
  }

  ghost predicate Hop(a: Arrow, x: nat, y: nat) {
    match a
    case AnyEdge(st) => exists id :: id in st.relations && Joins(st.relations[id], x, y)
    case OfType(st, rtype) => TypedStep(st, rtype, x, y)
    case Wanted(st, _, _, _, _) => exists id :: id in st.relations && Takes(a, st.relations[id], x, y)
  }

  /** `y` can be reached from one of the sources in exactly `n` hops. */
  ghost predicate At(a: Arrow, sources: set<nat>, y: nat, n: nat)
    decreases n
  {
    if n == 0 then y in sources else exists x :: At(a, sources, x, n - 1) && Hop(a, x, y)
  }

  /** `n` is the hop distance of `y`. */
  ghost predicate IsDistance(a: Arrow, sources: set<nat>, y: nat, n: nat) {
    At(a, sources, y, n) && forall m: nat :: m < n ==> !At(a, sources, y, m)
  }

  /** Distances are unique. */
  lemma DistanceUnique(a: Arrow, sources: set<nat>, y: nat, m: nat, n: nat)
    requires IsDistance(a, sources, y, m) && IsDistance(a, sources, y, n)
    ensures m == n
  {
  }

  // ---------- breadth-first search ----------

  /** A search in progress: the visited nodes in order of discovery, their
      depths, and how many of them were taken from the queue. */
  datatype Search = Search(order: seq<nat>, depth: map<nat, nat>, taken: nat)

  ghost predicate Numbered(b: Search) {
    NoDup(b.order) && b.taken <= |b.order| && forall v :: v in b.order <==> v in b.depth
  }

  /** Discovery order is depth order, and the queue spans two levels at most. */
  ghost predicate Levelled(b: Search)
    requires Numbered(b)
  {
    && (forall i, j :: 0 <= i < j < |b.order| ==> b.depth[b.order[i]] <= b.depth[b.order[j]])
    && (b.taken < |b.order| ==> b.depth[b.order[|b.order| - 1]] <= b.depth[b.order[b.taken]] + 1)
  }

  /** Every depth is the distance. */
  ghost predicate Exact(a: Arrow, source: nat, bound: nat, b: Search) {
    forall v :: v in b.depth ==> IsDistance(a, {source}, v, b.depth[v]) && b.depth[v] <= bound
  }

  ghost predicate ClosedAt(a: Arrow, b: Search, x: nat) { forall y :: Hop(a, x, y) ==> y in b.depth }

  /** Taken nodes below the bound have only visited neighbours. */
  ghost predicate Closed(a: Arrow, bound: nat, b: Search)
    requires Numbered(b)
  {
    forall i :: 0 <= i < b.taken && b.depth[b.order[i]] < bound ==> ClosedAt(a, b, b.order[i])
  }

  ghost predicate Searching(a: Arrow, source: nat, bound: nat, b: Search) {
    && Numbered(b) && Levelled(b) && Exact(a, source, bound, b) && Closed(a, bound, b)
    && b.order != [] && b.order[0] == source
  }

  function Begin(source: nat): Search { Search([source], map[source := 0], 0) }

  lemma BeginOk(a: Arrow, source: nat, bound: nat)
    ensures Searching(a, source, bound, Begin(source))
  {
    assert At(a, {source}, source, 0);
  }

  lemma LaterIsDeeper(b: Search, i: nat)
    requires Numbered(b) && Levelled(b) && b.taken <= i < |b.order|
    ensures b.depth[b.order[b.taken]] <= b.depth[b.order[i]]
  {
  }

  /** Whatever is closer than the next node to take, or as close, is visited. */
  lemma {:induction false} Covered(a: Arrow, source: nat, bound: nat, b: Search, limit: nat, y: nat, n: nat)
    requires Searching(a, source, bound, b) && At(a, {source}, y, n) && n <= limit <= bound
    requires b.taken < |b.order| ==> limit <= b.depth[b.order[b.taken]]
    ensures y in b.depth && b.depth[y] <= n
    decreases n
  {
    hide Hop, Levelled, Exact, Closed, ClosedAt, Numbered;
    if n == 0 {
      SourceVisited(a, source, bound, b);
    } else {
      var x :| At(a, {source}, x, n - 1) && Hop(a, x, y);
      Covered(a, source, bound, b, limit, x, n - 1);
      NextVisited(a, bound, b, limit, x, y, n);
    }
    AtMostDistance(a, source, bound, b, y, n);
  }

  lemma SourceVisited(a: Arrow, source: nat, bound: nat, b: Search)
    requires Searching(a, source, bound, b)
    ensures source in b.depth
  {
    assert b.order[0] in b.order;
  }

  lemma NextVisited(a: Arrow, bound: nat, b: Search, limit: nat, x: nat, y: nat, n: nat)
    requires Numbered(b) && Levelled(b) && Closed(a, bound, b) && Hop(a, x, y)
    requires x in b.depth && b.depth[x] < n <= limit <= bound
    requires b.taken < |b.order| ==> limit <= b.depth[b.order[b.taken]]
    ensures y in b.depth
  {
    hide Hop;
    var i :| 0 <= i < |b.order| && b.order[i] == x;
    if b.taken <= i {
      LaterIsDeeper(b, i);
      assert false;
    }
    assert ClosedAt(a, b, b.order[i]);
  }

  lemma AtMostDistance(a: Arrow, source: nat, bound: nat, b: Search, y: nat, n: nat)
    requires Exact(a, source, bound, b) && y in b.depth && At(a, {source}, y, n)
    ensures b.depth[y] <= n
  {
    assert IsDistance(a, {source}, y, b.depth[y]);
  }

  ghost function Found(b: Search, y: nat): Search
    requires Numbered(b) && b.taken < |b.order|
  {
    b.(order := b.order + [y], depth := b.depth[y := b.depth[b.order[b.taken]] + 1])
  }

  lemma FoundDistance(a: Arrow, source: nat, bound: nat, b: Search, y: nat)
    requires Searching(a, source, bound, b) && b.taken < |b.order| && b.depth[b.order[b.taken]] < bound
    requires Hop(a, b.order[b.taken], y) && y !in b.depth
    ensures IsDistance(a, {source}, y, b.depth[b.order[b.taken]] + 1)
  {
    hide Hop, Levelled, Closed, ClosedAt;
    var x := b.order[b.taken];
    var n := b.depth[x] + 1;
    assert x in b.depth && At(a, {source}, x, n - 1);
    forall m: nat | m < n ensures !At(a, {source}, y, m) {
      if At(a, {source}, y, m) {
        Covered(a, source, bound, b, n - 1, y, m);
        assert false;
      }
    }
  }

  lemma FoundKeeps(b: Search, y: nat)
    requires Numbered(b) && b.taken < |b.order| && y !in b.depth
    ensures var next := Found(b, y);
      forall i :: 0 <= i < |b.order| ==> next.order[i] == b.order[i] && b.order[i] in b.depth && next.depth[b.order[i]] == b.depth[b.order[i]]
  {
  }

  lemma FoundListed(b: Search, y: nat)
    requires Numbered(b) && Levelled(b) && b.taken < |b.order| && y !in b.depth
    ensures Numbered(Found(b, y)) && Levelled(Found(b, y))
  {
    var next := Found(b, y);
    assert y !in b.order;
    forall i | 0 <= i < |b.order| ensures next.order[i] == b.order[i] && b.order[i] in b.depth && b.order[i] != y { }
    var top := b.depth[b.order[b.taken]] + 1;
    forall i | 0 <= i < |b.order| ensures b.depth[b.order[i]] <= top {
      if i < |b.order| - 1 { assert b.depth[b.order[i]] <= b.depth[b.order[|b.order| - 1]]; }
    }
  }

  lemma FoundClosed(a: Arrow, bound: nat, b: Search, y: nat)
    requires Numbered(b) && Closed(a, bound, b) && b.taken < |b.order| && y !in b.depth && Numbered(Found(b, y))
    ensures Closed(a, bound, Found(b, y))
  {
    var next := Found(b, y);
    forall i | 0 <= i < next.taken && next.depth[next.order[i]] < bound ensures ClosedAt(a, next, next.order[i]) {
      assert next.order[i] == b.order[i] && b.order[i] in b.depth;
      assert ClosedAt(a, b, b.order[i]);
    }
  }

  /** A neighbour of the node being taken joins at its true distance. */
  lemma FoundOk(a: Arrow, source: nat, bound: nat, b: Search, y: nat)
    requires Searching(a, source, bound, b) && b.taken < |b.order| && b.depth[b.order[b.taken]] < bound
    requires Hop(a, b.order[b.taken], y) && y !in b.depth
    ensures Searching(a, source, bound, Found(b, y))
  {
    hide IsDistance, Closed, Levelled;
    FoundDistance(a, source, bound, b, y);
    FoundListed(b, y);
    FoundClosed(a, bound, b, y);
  }

  lemma TakenLevelled(b: Search)
    requires Numbered(b) && Levelled(b) && b.taken < |b.order|
    ensures Numbered(b.(taken := b.taken + 1)) && Levelled(b.(taken := b.taken + 1))
  {
    if b.taken + 1 < |b.order| { assert b.depth[b.order[b.taken]] <= b.depth[b.order[b.taken + 1]]; }
  }

  lemma TakenExact(a: Arrow, source: nat, bound: nat, b: Search)
    requires Exact(a, source, bound, b)
    ensures Exact(a, source, bound, b.(taken := b.taken + 1))
  {
  }

  lemma TakenCloses(a: Arrow, b: Search, v: nat)
    requires ClosedAt(a, b, v)
    ensures ClosedAt(a, b.(taken := b.taken + 1), v)
  {
  }

  /** The node is done once its neighbours are visited, or it lies at the bound. */
  lemma TakenOk(a: Arrow, source: nat, bound: nat, b: Search)
    requires Searching(a, source, bound, b) && b.taken < |b.order|
    requires b.depth[b.order[b.taken]] < bound ==> ClosedAt(a, b, b.order[b.taken])
    ensures Searching(a, source, bound, b.(taken := b.taken + 1))
  {
    hide Levelled, Exact, ClosedAt;
    TakenLevelled(b);
    TakenExact(a, source, bound, b);
    var next := b.(taken := b.taken + 1);
    forall i | 0 <= i < next.taken && next.depth[next.order[i]] < bound ensures ClosedAt(a, next, next.order[i]) {
      TakenCloses(a, b, b.order[i]);
    }
  }

  /** With the queue empty, the visited nodes are exactly those within the
      bound, at their distances. */
  lemma SearchComplete(a: Arrow, source: nat, bound: nat, b: Search, y: nat, n: nat)
    requires Searching(a, source, bound, b) && b.taken == |b.order| && n <= bound && At(a, {source}, y, n)
    ensures y in b.depth && b.depth[y] <= n
  {
    Covered(a, source, bound, b, bound, y, n);
  }
}
