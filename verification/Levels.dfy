/** What one level of an expansion does (crates/graph/src/traversal.rs): which
    edges are candidates, in which order they are considered, and what is let in
    until the edge cap. */
module Levels {
  import opened Collections
  import opened GraphState
  import opened Reach
  import opened Fairness
  import opened Growth

  // ---------- the candidates ----------

  function TypedSides(st: State, node: nat, outgoing: bool, types: seq<string>): seq<nat> {
    if types == [] then [] else
    var l := |types| - 1;
    TypedSides(st, node, outgoing, types[..l]) + Select(st.relations, st.order, Sel(outgoing, node, Some(types[l])))
  }

  /** The edges on one side of a node, oldest first; type by type when types are asked for. */
  function Side(st: State, node: nat, outgoing: bool, types: seq<string>): seq<nat> {
    if types == [] then Select(st.relations, st.order, Sel(outgoing, node, None)) else TypedSides(st, node, outgoing, types)
  }

  /** `adjacent_edge_ids`. */
  function Adjacency(st: State, node: nat, direction: Direction, types: seq<string>): seq<nat> {
    match direction
    case Outgoing => Side(st, node, true, types)
    case Incoming => Side(st, node, false, types)
    case Both => Side(st, node, true, types) + Side(st, node, false, types)
  }

  /** The node at the other end. */
  function Across(r: Relation, node: nat): nat { if r.source == node then r.target else r.source }

  /** An edge of `node` that is a candidate: of a wanted type, and once the node
      cap is reached leading to a concept met before. */
  predicate Gathers(a: Arrow, capped: bool, visited: set<nat>, node: nat, id: nat)
    requires a.Wanted?
  {
    && id in a.st.relations
    && var r := a.st.relations[id];
       && (match a.direction case Outgoing => r.source == node case Incoming => r.target == node case Both => r.source == node || r.target == node)
       && (a.types == [] || r.rtype in a.types) && r.rtype !in a.excluded
       && (capped ==> Across(r, node) in visited)
  }

  function PairsAt(a: Arrow, capped: bool, visited: set<nat>, node: nat, ids: seq<nat>): seq<(nat, nat)>
    requires a.Wanted?
  {
    if ids == [] then [] else
    var l := |ids| - 1;
    var rest := PairsAt(a, capped, visited, node, ids[..l]);
    if Gathers(a, capped, visited, node, ids[l]) then rest + [(node, ids[l])] else rest
  }

  /** The candidates of the frontier, node by node, in adjacency order. */
  function PairsOver(a: Arrow, capped: bool, visited: set<nat>, nodes: seq<nat>): seq<(nat, nat)>
    requires a.Wanted?
  {
    if nodes == [] then [] else
    var l := |nodes| - 1;
    PairsOver(a, capped, visited, nodes[..l]) + PairsAt(a, capped, visited, nodes[l], Adjacency(a.st, nodes[l], a.direction, a.types))
  }

  function PairsOf(cs: seq<Candidate>): seq<(nat, nat)> { seq(|cs|, i requires 0 <= i < |cs| => (cs[i].node, cs[i].rid)) }

  /** The candidate says what its edge is. */
  predicate Tells(a: Arrow, c: Candidate)
    requires a.Wanted?
  {
    && c.rid in a.st.relations
    && var r := a.st.relations[c.rid]; c.weight == r.weight && c.neighbor == Across(r, c.node)
  }

  function TypeOf(a: Arrow, c: Candidate): Option<string>
    requires a.Wanted?
  {
    if c.rid in a.st.relations then Some(a.st.relations[c.rid].rtype) else None
  }

  /** A candidate of that number comes before position `j`. */
  predicate Appeared(cs: seq<Candidate>, j: nat, t: nat)
    requires j <= |cs|
  {
    exists i :: 0 <= i < j && cs[i].ty == t
  }

  /** Relation types are numbered as they appear. */
  ghost predicate ByAppearance(a: Arrow, cs: seq<Candidate>)
    requires a.Wanted?
  {
    && (forall i, j :: 0 <= i < |cs| && 0 <= j < |cs| ==> (cs[i].ty == cs[j].ty <==> TypeOf(a, cs[i]) == TypeOf(a, cs[j])))
    && (forall j: nat, t: nat :: j < |cs| && t < cs[j].ty ==> Appeared(cs, j, t))
  }

  ghost predicate Gathering(a: Arrow, capped: bool, visited: set<nat>, frontier: seq<nat>, cs: seq<Candidate>)
    requires a.Wanted?
  {
    PairsOf(cs) == PairsOver(a, capped, visited, frontier) && (forall c :: c in cs ==> Tells(a, c)) && ByAppearance(a, cs)
  }

  // ---------- the order ----------

  /** How many of its type come before it. */
  function Rank(s: seq<Candidate>, i: nat): nat
    requires i < |s|
  {
    |OfKind(s[..i], s[i].ty)|
  }

  /** The candidates reordered: within a type the strongest come first, and equal
      ones as they were gathered; the types take turns, in the order in which
      they appeared. */
  ghost predicate Fair(gathered: seq<Candidate>, considered: seq<Candidate>) {
    && multiset(considered) == multiset(gathered)
    && (forall t: nat :: Descending(OfKind(considered, t)))
    && (forall t: nat, w: int :: OfWeight(OfKind(considered, t), w) == OfWeight(OfKind(gathered, t), w))
    && (forall i, j :: 0 <= i < j < |considered| ==> InTurn(considered, i, j))
  }

  predicate InTurn(s: seq<Candidate>, i: nat, j: nat)
    requires i < |s| && j < |s|
  {
    Rank(s, i) < Rank(s, j) || (Rank(s, i) == Rank(s, j) && s[i].ty < s[j].ty)
  }

  lemma {:induction false} OfKindConcat(a: seq<Candidate>, b: seq<Candidate>, t: nat)
    ensures OfKind(a + b, t) == OfKind(a, t) + OfKind(b, t)
  {
    if b == [] {
      assert a + b == a;
    } else {
      var l := |b| - 1;
      assert (a + b)[..|a + b| - 1] == a + b[..l];
      OfKindConcat(a, b[..l], t);
    }
  }

  /** Buckets hold one type each. */
  predicate Pure(buckets: seq<seq<Candidate>>) {
    forall t, k :: 0 <= t < |buckets| && 0 <= k < |buckets[t]| ==> buckets[t][k].ty == t
  }

  lemma {:induction false} RoundTypes(buckets: seq<seq<Candidate>>, k: nat)
    requires Pure(buckets)
    ensures forall i, j :: 0 <= i < j < |Round(buckets, k)| ==> Round(buckets, k)[i].ty < Round(buckets, k)[j].ty
    ensures forall i :: 0 <= i < |Round(buckets, k)| ==>
      Round(buckets, k)[i].ty < |buckets| && k < |buckets[Round(buckets, k)[i].ty]|
  {
    if buckets != [] { RoundTypes(buckets[..|buckets| - 1], k); }
  }

  lemma {:induction false} RoundOfKind(buckets: seq<seq<Candidate>>, k: nat, t: nat)
    requires Pure(buckets)
    ensures OfKind(Round(buckets, k), t) == if t < |buckets| && k < |buckets[t]| then [buckets[t][k]] else []
  {
    if buckets != [] {
      var l := |buckets| - 1;
      RoundOfKind(buckets[..l], k, t);
      if k < |buckets[l]| {
        OfKindConcat(Round(buckets[..l], k), [buckets[l][k]], t);
        assert [buckets[l][k]][..0] == [];
        assert OfKind([buckets[l][k]], t) == if t == l then [buckets[l][k]] else [];
      }
    }
  }

  lemma {:induction false} RoundsOfKind(buckets: seq<seq<Candidate>>, k: nat, t: nat)
    requires Pure(buckets)
    ensures OfKind(Rounds(buckets, k), t) == if t < |buckets| then buckets[t][..Cut(|buckets[t]|, k)] else []
  {
    hide Round;
    if k > 0 {
      RoundsOfKind(buckets, k - 1, t);
      RoundOfKind(buckets, k - 1, t);
      OfKindConcat(Rounds(buckets, k - 1), Round(buckets, k - 1), t);
      if t < |buckets| { OneFurther(buckets[t], k - 1); }
    }
  }

  lemma OneFurther(bucket: seq<Candidate>, k: nat)
    ensures bucket[..Cut(|bucket|, k + 1)] == bucket[..Cut(|bucket|, k)] + (if k < |bucket| then [bucket[k]] else [])
  {
  }

  /** The rank of a position is the round it was taken in. */
  lemma {:induction false} RankIsRound(buckets: seq<seq<Candidate>>, k: nat, i: nat)
    requires Pure(buckets) && i < |Rounds(buckets, k)|
    ensures Rank(Rounds(buckets, k), i) == RankAt(buckets, k, i)
  {
    var before, last := Rounds(buckets, k - 1), Round(buckets, k - 1);
    if i < |before| {
      RankIsRound(buckets, k - 1, i);
      assert Rounds(buckets, k)[..i] == before[..i];
    } else {
      var p := i - |before|;
      var t := last[p].ty;
      assert Rounds(buckets, k)[..i] == before + last[..p];
      RoundTypes(buckets, k - 1);
      RoundsOfKind(buckets, k - 1, t);
      OfKindConcat(before, last[..p], t);
      NoneOfKind(last[..p], t);
    }
  }

  lemma {:induction false} NoneOfKind(s: seq<Candidate>, t: nat)
    requires forall i :: 0 <= i < |s| ==> s[i].ty != t
    ensures OfKind(s, t) == []
  {
    if s != [] { NoneOfKind(s[..|s| - 1], t); }
  }

  lemma {:induction false} RoundsInTurn(buckets: seq<seq<Candidate>>, k: nat, i: nat, j: nat)
    requires Pure(buckets) && i < j < |Rounds(buckets, k)|
    ensures InTurn(Rounds(buckets, k), i, j)
  {
    RankIsRound(buckets, k, i);
    RankIsRound(buckets, k, j);
    RanksAscend(buckets, k, i, j);
    if RankAt(buckets, k, i) == RankAt(buckets, k, j) { SameRound(buckets, k, i, j); }
  }

  lemma {:induction false} SameRound(buckets: seq<seq<Candidate>>, k: nat, i: nat, j: nat)
    requires Pure(buckets) && i < j < |Rounds(buckets, k)| && RankAt(buckets, k, i) == RankAt(buckets, k, j)
    ensures Rounds(buckets, k)[i].ty < Rounds(buckets, k)[j].ty
  {
    var before := Rounds(buckets, k - 1);
    if j < |before| {
      SameRound(buckets, k - 1, i, j);
    } else if i < |before| {
      RankBound(buckets, k - 1, i);
    } else {
      RoundTypes(buckets, k - 1);
    }
  }

  lemma {:induction false} OfKindPure(s: seq<Candidate>, t: nat)
    ensures forall k :: 0 <= k < |OfKind(s, t)| ==> OfKind(s, t)[k].ty == t
  {
    if s != [] { OfKindPure(s[..|s| - 1], t); }
  }

  /** Selecting by type and by weight commute. */
  lemma {:induction false} TypeThenWeight(s: seq<Candidate>, t: nat, w: int)
    ensures OfWeight(OfKind(s, t), w) == OfKind(OfWeight(s, w), t)
  {
    if s != [] {
      var l := |s| - 1;
      TypeThenWeight(s[..l], t, w);
      OfWeightSnoc(OfKind(s[..l], t), s[l], w);
      OfKindConcat(OfWeight(s[..l], w), [s[l]], t);
      assert [s[l]][..0] == [];
      assert OfKind([s[l]], t) == if s[l].ty == t then [s[l]] else [];
    }
  }

  lemma {:induction false} TypesBeyond(s: seq<Candidate>, n: nat, t: nat)
    requires (forall c :: c in s ==> c.ty < n) && t >= n
    ensures OfKind(s, t) == []
  {
    forall i | 0 <= i < |s| ensures s[i].ty != t { assert s[i] in s; }
    NoneOfKind(s, t);
  }

  /** Rounds over the sorted buckets are a fair order. */
  lemma RoundsAreFair(gathered: seq<Candidate>, buckets: seq<seq<Candidate>>, out: seq<Candidate>)
    requires forall c :: c in gathered ==> c.ty < |buckets|
    requires AreBuckets(buckets, Strongest(gathered)) && out == Rounds(buckets, Longest(buckets)) && multiset(out) == multiset(gathered)
    ensures Fair(gathered, out)
  {
    hide Descending, Strongest, Rounds, InTurn, Longest;
    var n := Longest(buckets);
    forall t | 0 <= t < |buckets| ensures forall k :: 0 <= k < |buckets[t]| ==> buckets[t][k].ty == t { OfKindPure(Strongest(gathered), t); }
    assert Pure(buckets);
    AllTaken(buckets, n);
    StrongestOk(gathered);
    forall c | c in Strongest(gathered) ensures c.ty < |buckets| { assert c in multiset(Strongest(gathered)); }
    forall t: nat ensures OfKind(out, t) == OfKind(Strongest(gathered), t) {
      RoundsOfKind(buckets, n, t);
      if t < |buckets| {
        assert |buckets[t]| <= n;
        assert buckets[t][..|buckets[t]|] == buckets[t];
      } else {
        TypesBeyond(Strongest(gathered), |buckets|, t);
      }
    }
    forall t: nat ensures Descending(OfKind(out, t)) { OfKindDescending(Strongest(gathered), t); }
    forall t: nat, w: int ensures OfWeight(OfKind(out, t), w) == OfWeight(OfKind(gathered, t), w) {
      TypeThenWeight(Strongest(gathered), t, w);
      TypeThenWeight(gathered, t, w);
      StrongestStable(gathered, w);
    }
    forall i, j | 0 <= i < j < |out| ensures InTurn(out, i, j) { RoundsInTurn(buckets, n, i, j); }
  }

  /** So no type gets its next candidate in before every other type has had as
      many, or has run out. */
  lemma NoCrowding(gathered: seq<Candidate>, considered: seq<Candidate>, i: nat, u: nat)
    requires Fair(gathered, considered) && i < |considered|
    ensures |OfKind(considered[..i], u)| >= Rank(considered, i) || |OfKind(considered[..i], u)| == |OfKind(considered, u)|
  {
    var had := |OfKind(considered[..i], u)|;
    assert considered == considered[..i] + considered[i..];
    OfKindConcat(considered[..i], considered[i..], u);
    if had < |OfKind(considered, u)| && considered[i].ty != u {
      var j := NextOfKind(considered, i, u);
      assert InTurn(considered, i, j);
    }
  }

  lemma {:induction false} NextOfKind(s: seq<Candidate>, i: nat, u: nat) returns (j: nat)
    requires i < |s| && |OfKind(s[..i], u)| < |OfKind(s, u)| && s[i].ty != u
    ensures i < j < |s| && s[j].ty == u && Rank(s, j) == |OfKind(s[..i], u)|
    decreases |s|
  {
    var l := |s| - 1;
    assert s[..l][..i] == s[..i];
    if i < l && |OfKind(s[..i], u)| < |OfKind(s[..l], u)| {
      j := NextOfKind(s[..l], i, u);
      assert s[..l][..j] == s[..j];
    } else {
      j := l;
      if i < l {
        assert s[..l] == s[..i] + s[i..l];
        OfKindConcat(s[..i], s[i..l], u);
      }
    }
  }

  // ---------- admission ----------

  /** One candidate considered: passed over if the concept across is new while the
      node cap is reached, is gone, or is of no wanted type; otherwise the
      concept is kept, unless met before, and the edge emitted, unless it is. */
  predicate Steps(a: Arrow, caps: Caps, g: Grown, c: Candidate, depth: nat, h: Grown)
    requires a.Wanted?
  {
    var known := c.neighbor in g.visited;
    if (!known && |g.kept| >= caps.maxNodes) || c.neighbor !in a.st.concepts
       || (a.ctypes.Some? && a.st.concepts[c.neighbor].ctype !in a.ctypes.value)
    then h == g
    else
      && h.visited == g.visited + {c.neighbor}
      && h.kept == (if known then g.kept else g.kept + [c.neighbor])
      && h.depthOf == (if known then g.depthOf else g.depthOf[c.neighbor := depth])
      && h.emitted == (if c.rid in g.emitted then g.emitted else g.emitted + [c.rid])
  }

  /** The edge cap is reached. */
  predicate Full(caps: Caps, g: Grown) { caps.maxEdges != 0 && |g.emitted| >= caps.maxEdges }

  /** The states of a level, from the first candidate until the edge cap or the
      last one. */
  ghost predicate Admission(a: Arrow, caps: Caps, depth: nat, considered: seq<Candidate>, states: seq<Grown>)
    requires a.Wanted?
  {
    && 0 < |states| <= |considered| + 1
    && (forall k :: 0 <= k < |states| - 1 ==> !Full(caps, states[k]) && Steps(a, caps, states[k], considered[k], depth, states[k + 1]))
    && (|states| == |considered| + 1 || Full(caps, states[|states| - 1]))
  }

  lemma AdmittedSteps(a: Arrow, caps: Caps, g: Grown, c: Candidate, depth: nat)
    requires a.Wanted?
    ensures Steps(a, caps, g, c, depth, Admitted(a, caps, g, c, depth))
    ensures EdgesCapped(caps, |g.emitted|) <==> Full(caps, g)
  {
    assert c.neighbor in g.visited ==> g.visited + {c.neighbor} == g.visited;
  }

  lemma AdmittedKept(a: Arrow, caps: Caps, g: Grown, c: Candidate, depth: nat, start: nat)
    requires a.Wanted? && start <= |g.kept|
    ensures var h := Admitted(a, caps, g, c, depth);
      && start <= |h.kept| && h.kept[..start] == g.kept[..start]
      && h.kept[start..] == if c.neighbor in h.visited && c.neighbor !in g.visited then g.kept[start..] + [c.neighbor] else g.kept[start..]
  {
  }

  // ---------- whole expansions ----------

  /** The frontier, what was gathered there and in which order it was considered,
      and the states in between. */
  datatype Level = Level(frontier: seq<nat>, gathered: seq<Candidate>, considered: seq<Candidate>, states: seq<Grown>)

  ghost predicate LevelOk(a: Arrow, caps: Caps, depth: nat, l: Level)
    requires a.Wanted?
  {
    && Admission(a, caps, depth + 1, l.considered, l.states) && Fair(l.gathered, l.considered)
    && Gathering(a, |l.states[0].kept| >= caps.maxNodes, l.states[0].visited, l.frontier, l.gathered)
    && l.frontier != [] && !Full(caps, l.states[0])
  }

  function Last(l: Level): Grown
    requires l.states != []
  {
    l.states[|l.states| - 1]
  }

  /** The live seeds, each where it comes first. */
  function FirstLive(st: State, seeds: seq<nat>): seq<nat> {
    if seeds == [] then [] else
    var l := |seeds| - 1;
    var rest := FirstLive(st, seeds[..l]);
    if seeds[l] in st.concepts && seeds[l] !in rest then rest + [seeds[l]] else rest
  }

  /** The live seeds are kept at depth 0, and all seeds count as met. */
  predicate Begins(st: State, seeds: seq<nat>, g: Grown) {
    && g.kept == FirstLive(st, seeds) && g.emitted == [] && g.visited == Elems(seeds)
    && g.depthOf == map v | v in g.kept :: 0
  }

  /** Level after level, each over what the one before newly kept, until the depth
      is reached, nothing is new, or the edge cap. */
  ghost predicate Traced(a: Arrow, seeds: seq<nat>, caps: Caps, maxDepth: nat, start: Grown, levels: seq<Level>, grown: Grown)
    requires a.Wanted?
  {
    && Begins(a.st, seeds, start) && Follows(a, caps, start, levels, grown) && |levels| <= maxDepth
    && (|levels| == maxDepth || Full(caps, grown) || NextFrontier(start, levels) == [])
  }

  ghost predicate Follows(a: Arrow, caps: Caps, start: Grown, levels: seq<Level>, grown: Grown)
    requires a.Wanted?
  {
    if levels == [] then grown == start else
    var n := |levels| - 1;
    && LevelOk(a, caps, n, levels[n]) && grown == Last(levels[n]) && |levels[n].states[0].kept| <= |grown.kept|
    && Follows(a, caps, start, levels[..n], levels[n].states[0]) && levels[n].frontier == NextFrontier(start, levels[..n])
  }

  /** What the last level has newly kept; before the first, the seeds. */
  function NextFrontier(start: Grown, levels: seq<Level>): seq<nat> {
    if levels == [] then start.kept else
    var l := levels[|levels| - 1];
    if l.states != [] && |l.states[0].kept| <= |Last(l).kept| then Last(l).kept[|l.states[0].kept|..] else []
  }

  lemma FollowsOn(a: Arrow, caps: Caps, start: Grown, levels: seq<Level>, grown: Grown, l: Level)
    requires a.Wanted? && Follows(a, caps, start, levels, grown) && LevelOk(a, caps, |levels|, l)
    requires l.states[0] == grown && |grown.kept| <= |Last(l).kept| && l.frontier == NextFrontier(start, levels)
    ensures Follows(a, caps, start, levels + [l], Last(l)) && NextFrontier(start, levels + [l]) == Last(l).kept[|grown.kept|..]
  {
    assert l.states != [];
    assert (levels + [l])[..|levels|] == levels;
  }
}
