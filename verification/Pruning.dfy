/** What a prune deletes: the concepts and links of the declared types that
    the source did not emit (crates/io/src/ingest.rs). */
module Pruning {
  import opened Collections
  import opened Text
  import opened OntologySchema
  import opened GraphState
  import opened IngestState
  import opened UpsertLaws
  import opened Engine

  const PRUNE_GUARD_MIN_SHEETS := 20

  // ---------- concepts ----------

  function OfType(st: State, t: string): set<nat> { set id | id in st.concepts && st.concepts[id].ctype == t }

  /** The live concepts of a type that were not staged. */
  function StaleOf(st: State, t: string, seen: set<nat>): set<nat> { OfType(st, t) - seen }

  /** The share guard of one type, from the counts. */
  predicate TooMany(stale: nat, total: nat, maxFraction: real) {
    total >= PRUNE_GUARD_MIN_SHEETS && stale as real > maxFraction * total as real
  }

  predicate Guarded(st: State, t: string, seen: set<nat>, maxFraction: real) {
    TooMany(|StaleOf(st, t, seen)|, |OfType(st, t)|, maxFraction)
  }

  /** A type of twenty concepts or more, of which more than the share is stale. */
  lemma GuardedExactly(st: State, t: string, seen: set<nat>, maxFraction: real, all: set<nat>, stale: set<nat>)
    requires forall id :: id in all <==> id in st.concepts && st.concepts[id].ctype == t
    requires forall id :: id in stale <==> id in st.concepts && st.concepts[id].ctype == t && id !in seen
    ensures Guarded(st, t, seen, maxFraction) <==> |all| >= 20 && |stale| as real > maxFraction * |all| as real
  {
    assert OfType(st, t) == all && StaleOf(st, t, seen) == stale;
  }

  function StaleConcepts(st: State, types: set<string>, seen: set<nat>): set<nat> {
    set id | id in st.concepts && st.concepts[id].ctype in types && id !in seen
  }

  lemma {:induction false} NoDupCount(s: seq<nat>)
    requires NoDup(s)
    ensures |Elems(s)| == |s|
  {
    if s != [] {
      var l := |s| - 1;
      NoDupCount(s[..l]);
      assert s == s[..l] + [s[l]] && s[l] !in s[..l];
      assert Elems(s) == Elems(s[..l]) + {s[l]};
    } else {
      assert Elems(s) == {};
    }
  }

  /** One type: what is stale and how many there are. */
  method StaleOfType(graph: OntologyGraph, t: string, seen: set<nat>, maxFraction: real)
    returns (stale: seq<nat>, total: nat, refused: bool)
    requires graph.Valid()
    ensures forall id :: id in stale ==> id in graph.st.concepts
    ensures !graph.bulk ==> NoDup(stale) && Elems(stale) == StaleOf(graph.st, t, seen)
    ensures !graph.bulk ==> |stale| == |StaleOf(graph.st, t, seen)| && total == |OfType(graph.st, t)|
    ensures !graph.bulk ==> refused == Guarded(graph.st, t, seen, maxFraction)
  {
    var all := graph.IdsOfType(t);
    total := |all|;
    stale := Minus(all, seen);
    refused := TooMany(|stale|, total, maxFraction);
    MinusMembers(all, seen);
    if !graph.bulk {
      MinusNoDup(all, seen);
      assert Elems(all) == OfType(graph.st, t);
      assert Elems(stale) == StaleOf(graph.st, t, seen);
      NoDupCount(all);
      NoDupCount(stale);
    }
  }

  /** All declared types, in name order; refused at the first type over its
      share. */
  method CollectStaleConcepts(graph: OntologyGraph, types: set<string>, seen: set<nat>, maxFraction: real)
    returns (r: Ingested<seq<nat>>)
    requires graph.Valid()
    ensures r.Done? ==> forall id :: id in r.value ==> id in graph.st.concepts
    ensures r.Failed? ==> r.error.PruneRefused?
    ensures !graph.bulk ==> (r.Done? <==> forall t :: t in types ==> !Guarded(graph.st, t, seen, maxFraction))
    ensures !graph.bulk && r.Done? ==> NoDup(r.value) && Elems(r.value) == StaleConcepts(graph.st, types, seen)
  {
    var names := TypeNames(types);
    var found: seq<nat> := [];
    for i := 0 to |names|
      invariant forall id :: id in found ==> id in graph.st.concepts
      invariant !graph.bulk ==> Gathered(graph.st, names[..i], seen, maxFraction, found)
    {
      var stale, total, refused := StaleOfType(graph, names[i], seen, maxFraction);
      if refused { return Failed(PruneRefused(names[i], |stale|, total)); }
      if !graph.bulk { GatheredNext(graph.st, names, i, seen, maxFraction, found, stale); }
      found := found + stale;
    }
    assert names[..|names|] == names;
    return Done(found);
  }

  method TypeNames(types: set<string>) returns (names: seq<string>)
    ensures NoDup(names) && Elems(names) == types && forall t :: t in types <==> t in names
  {
    StringOrder();
    names := InOrder(StringLt, types);
    SortedNoDup(StringLt, names);
  }

  lemma GatheredNext(st: State, names: seq<string>, i: nat, seen: set<nat>, maxFraction: real, found: seq<nat>, stale: seq<nat>)
    requires i < |names| && NoDup(names) && Gathered(st, names[..i], seen, maxFraction, found) && !Guarded(st, names[i], seen, maxFraction)
    requires NoDup(stale) && Elems(stale) == StaleOf(st, names[i], seen)
    ensures Gathered(st, names[..i + 1], seen, maxFraction, found + stale)
  {
    assert names[..i + 1] == names[..i] + [names[i]];
    assert names[i] !in names[..i];
    GatheredMore(st, names[..i], names[i], seen, maxFraction, found, stale);
  }

  /** The stale concepts of some types, none of which is over its share. */
  predicate Gathered(st: State, names: seq<string>, seen: set<nat>, maxFraction: real, found: seq<nat>) {
    && NoDup(found) && Elems(found) == StaleConcepts(st, Elems(names), seen)
    && forall t :: t in names ==> !Guarded(st, t, seen, maxFraction)
  }

  lemma StaleUnion(st: State, types: set<string>, t: string, seen: set<nat>)
    ensures StaleConcepts(st, types + {t}, seen) == StaleConcepts(st, types, seen) + StaleOf(st, t, seen)
    ensures t !in types ==> StaleConcepts(st, types, seen) !! StaleOf(st, t, seen)
  {
  }

  lemma GatheredMore(st: State, names: seq<string>, t: string, seen: set<nat>, maxFraction: real, found: seq<nat>, stale: seq<nat>)
    requires Gathered(st, names, seen, maxFraction, found) && t !in names && !Guarded(st, t, seen, maxFraction)
    requires NoDup(stale) && Elems(stale) == StaleOf(st, t, seen)
    ensures Gathered(st, names + [t], seen, maxFraction, found + stale)
  {
    StaleUnion(st, Elems(names), t, seen);
    JoinNoDup(found, stale);
    ElemsSnoc(names, t);
  }

  // ---------- links ----------

  /** The source said this link, either way round when symmetric. */
  predicate Emitted(schema: Schema, edges: set<(nat, nat, string)>, r: Relation) {
    || (r.source, r.target, r.rtype) in edges
    || (IsSymmetric(schema, r.rtype) && (r.target, r.source, r.rtype) in edges)
  }

  /** None of the types is declared the inverse of another. */
  predicate NoInverses(schema: Schema, types: set<string>) {
    forall t :: t in types ==> InverseName(schema, t).None?
  }

  lemma ChosenMembers(st: State, sel: Sel)
    requires WellFormed(st)
    ensures forall id :: id in st.relations && Matches(st.relations[id], sel) ==> st.relations[id] in Chosen(st, sel)
    ensures forall r :: r in Chosen(st, sel) ==> r.id in st.relations && st.relations[r.id] == r && Matches(r, sel)
  {
    SelectMembers(st.relations, st.order, sel);
    var ids := Select(st.relations, st.order, sel);
    forall id | id in st.relations && Matches(st.relations[id], sel) ensures st.relations[id] in Chosen(st, sel) {
      assert id in ids;
      var i :| 0 <= i < |ids| && ids[i] == id;
      assert Chosen(st, sel)[i] == st.relations[id];
    }
  }

  lemma {:induction false} TypedMembers(st: State, node: nat, types: seq<string>)
    requires WellFormed(st)
    ensures forall id :: id in st.relations && st.relations[id].source == node && st.relations[id].rtype in types
              ==> st.relations[id] in AllTypedEdges(st, true, node, types)
    ensures forall r :: r in AllTypedEdges(st, true, node, types) ==> r.id in st.relations && r.source == node && r.rtype in types
    ensures forall r :: r in AllTypedEdges(st, true, node, types) && NoInverses(st.schema, Elems(types)) ==> st.relations[r.id] == r
  {
    if types != [] {
      var l := |types| - 1;
      assert types == types[..l] + [types[l]];
      TypedMembers(st, node, types[..l]);
      OneTypeMembers(st, node, types[l]);
      var before, last := AllTypedEdges(st, true, node, types[..l]), TypedEdges(st, true, node, types[l]);
      assert AllTypedEdges(st, true, node, types) == before + last;
      assert forall r :: r in before + last <==> r in before || r in last;
    }
  }

  lemma OneTypeMembers(st: State, node: nat, t: string)
    requires WellFormed(st)
    ensures forall id :: id in st.relations && st.relations[id].source == node && st.relations[id].rtype == t
              ==> st.relations[id] in TypedEdges(st, true, node, t)
    ensures forall r :: r in TypedEdges(st, true, node, t) ==> r.id in st.relations && r.source == node && r.rtype == t
    ensures InverseName(st.schema, t).None? ==> forall r :: r in TypedEdges(st, true, node, t) ==> st.relations[r.id] == r
  {
    ChosenMembers(st, Sel(true, node, Some(t)));
    var inverse := InverseName(st.schema, t);
    if inverse.Some? {
      ChosenMembers(st, Sel(false, node, Some(inverse.value)));
      var back := Chosen(st, Sel(false, node, Some(inverse.value)));
      forall r | r in AsVirtual(back, t) ensures r.id in st.relations && r.source == node && r.rtype == t {
        var i :| 0 <= i < |back| && AsVirtual(back, t)[i] == r;
        assert back[i] in back;
      }
    }
  }

  type StaleLink = (nat, string)

  predicate Listed(stale: seq<StaleLink>, id: nat) { exists i :: 0 <= i < |stale| && stale[i].0 == id }

  predicate DistinctLive(st: State, stale: seq<StaleLink>) {
    && (forall i :: 0 <= i < |stale| ==> stale[i].0 in st.relations)
    && (forall i, j :: 0 <= i < j < |stale| ==> stale[i].0 != stale[j].0)
  }

  /** A link the prune may take: of a declared type, at a staged concept, and
      not emitted. */
  predicate Takeable(st: State, types: set<string>, seen: set<nat>, edges: set<(nat, nat, string)>, r: Relation) {
    && r.rtype in types && !Emitted(st.schema, edges, r)
    && (r.source in seen || (IsSymmetric(st.schema, r.rtype) && r.target in seen))
  }

  predicate OnlyTakeable(st: State, types: set<string>, seen: set<nat>, edges: set<(nat, nat, string)>, stale: seq<StaleLink>) {
    forall i :: 0 <= i < |stale| && stale[i].0 in st.relations ==> Takeable(st, types, seen, edges, st.relations[stale[i].0])
  }

  /** Nothing that may not be taken was added. */
  predicate StaysSound(st: State, types: set<string>, seen: set<nat>, edges: set<(nat, nat, string)>, before: seq<StaleLink>, stale: seq<StaleLink>) {
    OnlyTakeable(st, types, seen, edges, before) ==> OnlyTakeable(st, types, seen, edges, stale)
  }

  /** Every link of these types leaving these concepts was emitted or is listed. */
  predicate AllListed(st: State, nodes: set<nat>, types: set<string>, edges: set<(nat, nat, string)>, stale: seq<StaleLink>) {
    forall id :: id in st.relations && st.relations[id].source in nodes && st.relations[id].rtype in types ==>
      Emitted(st.schema, edges, st.relations[id]) || Listed(stale, id)
  }

  function Put(stale: seq<StaleLink>, id: nat, t: string): seq<StaleLink> {
    if Listed(stale, id) then stale else stale + [(id, t)]
  }

  lemma PutKeeps(st: State, types: set<string>, seen: set<nat>, edges: set<(nat, nat, string)>, stale: seq<StaleLink>, id: nat, t: string)
    requires DistinctLive(st, stale) && id in st.relations
    ensures DistinctLive(st, Put(stale, id, t)) && Listed(Put(stale, id, t), id)
    ensures forall x :: Listed(stale, x) ==> Listed(Put(stale, id, t), x)
    ensures Takeable(st, types, seen, edges, st.relations[id]) ==> StaysSound(st, types, seen, edges, stale, Put(stale, id, t))
  {
    var after := Put(stale, id, t);
    forall x | Listed(stale, x) ensures Listed(after, x) {
      var i :| 0 <= i < |stale| && stale[i].0 == x;
      assert after[i].0 == x;
    }
    if !Listed(stale, id) { assert after[|stale|].0 == id; }
  }

  /** The links of one staged concept. */
  method StaleLinksOf(graph: OntologyGraph, node: nat, names: seq<string>, edges: set<(nat, nat, string)>, seen: set<nat>, before: seq<StaleLink>)
    returns (stale: seq<StaleLink>)
    requires graph.Valid() && node in seen && DistinctLive(graph.st, before)
    ensures DistinctLive(graph.st, stale) && forall x :: Listed(before, x) ==> Listed(stale, x)
    ensures AllListed(graph.st, {node}, Elems(names), edges, stale)
    ensures NoInverses(graph.st.schema, Elems(names)) ==> StaysSound(graph.st, Elems(names), seen, edges, before, stale)
  {
    var out := graph.TypedNeighbours(true, node, names);
    TypedMembers(graph.st, node, names);
    stale := TakeAll(graph, out, names, edges, seen, before);
    NodeListed(graph.st, node, names, edges, out, stale);
  }

  /** Every link of a list that was not emitted. */
  method TakeAll(graph: OntologyGraph, out: seq<Relation>, names: seq<string>, edges: set<(nat, nat, string)>, seen: set<nat>, before: seq<StaleLink>)
    returns (stale: seq<StaleLink>)
    requires graph.Valid() && DistinctLive(graph.st, before)
    requires forall r :: r in out ==> r.id in graph.st.relations && r.source in seen && r.rtype in names
    requires NoInverses(graph.st.schema, Elems(names)) ==> forall r :: r in out ==> graph.st.relations[r.id] == r
    ensures DistinctLive(graph.st, stale) && EachListed(graph.st.schema, edges, out, stale)
    ensures forall x :: Listed(before, x) ==> Listed(stale, x)
    ensures NoInverses(graph.st.schema, Elems(names)) ==> StaysSound(graph.st, Elems(names), seen, edges, before, stale)
  {
    hide DistinctLive, Emitted;
    stale := before;
    for i := 0 to |out|
      invariant DistinctLive(graph.st, stale) && forall x :: Listed(before, x) ==> Listed(stale, x)
      invariant forall k :: 0 <= k < i ==> Emitted(graph.st.schema, edges, out[k]) || Listed(stale, out[k].id)
      invariant NoInverses(graph.st.schema, Elems(names)) ==> StaysSound(graph.st, Elems(names), seen, edges, before, stale)
    {
      assert out[i] in out;
      if !Emitted(graph.st.schema, edges, out[i]) {
        stale := TakeLink(graph, out[i], names, edges, seen, stale);
      }
    }
  }

  predicate EachListed(schema: Schema, edges: set<(nat, nat, string)>, out: seq<Relation>, stale: seq<StaleLink>) {
    forall k :: 0 <= k < |out| ==> Emitted(schema, edges, out[k]) || Listed(stale, out[k].id)
  }

  lemma NodeListed(st: State, node: nat, names: seq<string>, edges: set<(nat, nat, string)>, out: seq<Relation>, stale: seq<StaleLink>)
    requires WellFormed(st) && out == AllTypedEdges(st, true, node, names) && EachListed(st.schema, edges, out, stale)
    ensures AllListed(st, {node}, Elems(names), edges, stale)
  {
    TypedMembers(st, node, names);
    forall id | id in st.relations && st.relations[id].source == node && st.relations[id].rtype in names
      ensures Emitted(st.schema, edges, st.relations[id]) || Listed(stale, id)
    {
      assert st.relations[id] in out;
      var k :| 0 <= k < |out| && out[k] == st.relations[id];
      assert out[k].id == id;
    }
  }

  /** One link that was not emitted, and its materialised inverse. */
  method TakeLink(graph: OntologyGraph, r: Relation, names: seq<string>, edges: set<(nat, nat, string)>, seen: set<nat>, before: seq<StaleLink>)
    returns (stale: seq<StaleLink>)
    requires graph.Valid() && DistinctLive(graph.st, before) && r.id in graph.st.relations
    requires r.source in seen && r.rtype in names && !Emitted(graph.st.schema, edges, r)
    requires NoInverses(graph.st.schema, Elems(names)) ==> graph.st.relations[r.id] == r
    ensures DistinctLive(graph.st, stale) && Listed(stale, r.id) && forall x :: Listed(before, x) ==> Listed(stale, x)
    ensures NoInverses(graph.st.schema, Elems(names)) ==> StaysSound(graph.st, Elems(names), seen, edges, before, stale)
  {
    PutKeeps(graph.st, Elems(names), seen, edges, before, r.id, r.rtype);
    stale := Put(before, r.id, r.rtype);
    if IsSymmetric(graph.st.schema, r.rtype) {
      var inverse := graph.RelationBetween(r.target, r.source, r.rtype);
      if inverse.Some? {
        SomeBetween(graph.st, (r.rtype, r.target, r.source));
        PutKeeps(graph.st, Elems(names), seen, edges, stale, inverse.value, r.rtype);
        stale := Put(stale, inverse.value, r.rtype);
      }
    }
  }

  /** Every staged concept, in whatever order the set yields them. */
  method CollectStaleLinks(graph: OntologyGraph, types: set<string>, edges: set<(nat, nat, string)>, seen: set<nat>)
    returns (stale: seq<StaleLink>)
    requires graph.Valid()
    ensures DistinctLive(graph.st, stale)
    ensures AllListed(graph.st, seen, types, edges, stale)
    ensures NoInverses(graph.st.schema, types) ==> OnlyTakeable(graph.st, types, seen, edges, stale)
  {
    var names := TypeNames(types);
    stale := [];
    var rest := seen;
    while rest != {}
      invariant rest <= seen && DistinctLive(graph.st, stale)
      invariant AllListed(graph.st, seen - rest, types, edges, stale)
      invariant NoInverses(graph.st.schema, types) ==> OnlyTakeable(graph.st, types, seen, edges, stale)
      decreases rest
    {
      var node :| node in rest;
      rest := rest - {node};
      stale := StaleLinksOf(graph, node, names, edges, seen, stale);
    }
  }

  function LinkIds(stale: seq<StaleLink>): set<nat> { set i | 0 <= i < |stale| :: stale[i].0 }

  /** Remove the listed links. */
  method RemoveLinks(graph: OntologyGraph, stale: seq<StaleLink>)
    requires graph.Valid() && DistinctLive(graph.st, stale)
    modifies graph`st, graph`ix
    ensures graph.Valid()
    ensures graph.st == old(graph.st).(relations := old(graph.st).relations - LinkIds(stale), order := Minus(old(graph.st).order, LinkIds(stale)))
  {
    ghost var st := graph.st;
    MinusNothing(st.order, {});
    assert LinkIds(stale[..0]) == {} && st.relations - {} == st.relations;
    for i := 0 to |stale|
      invariant graph.Valid()
      invariant graph.st == st.(relations := st.relations - LinkIds(stale[..i]), order := Minus(st.order, LinkIds(stale[..i])))
    {
      LinkIdsSnoc(st, stale, i);
      var removed := graph.RemoveRelation(stale[i].0);
      assert removed.Ok?;
    }
    assert stale[..|stale|] == stale;
  }

  lemma LinkIdsSnoc(st: State, stale: seq<StaleLink>, i: nat)
    requires i < |stale| && DistinctLive(st, stale)
    ensures LinkIds(stale[..i + 1]) == LinkIds(stale[..i]) + {stale[i].0} && stale[i].0 !in LinkIds(stale[..i])
    ensures st.relations - LinkIds(stale[..i]) - {stale[i].0} == st.relations - LinkIds(stale[..i + 1])
    ensures Minus(Minus(st.order, LinkIds(stale[..i])), {stale[i].0}) == Minus(st.order, LinkIds(stale[..i + 1]))
    ensures stale[i].0 in st.relations - LinkIds(stale[..i])
  {
    var a, b := LinkIds(stale[..i]), LinkIds(stale[..i + 1]);
    forall x ensures x in b <==> x in a || x == stale[i].0 {
      if x in b {
        var k :| 0 <= k < i + 1 && stale[..i + 1][k].0 == x;
        if k < i { assert stale[..i][k].0 == x; }
      }
      if x in a {
        var k :| 0 <= k < i && stale[..i][k].0 == x;
        assert stale[..i + 1][k].0 == x;
      }
      if x == stale[i].0 { assert stale[..i + 1][i].0 == x; }
    }
    MinusTwice(st.order, a, {stale[i].0});
  }
}
