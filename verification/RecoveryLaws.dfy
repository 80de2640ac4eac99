/** When a record that names a relation by its id does the same to a graph
    loaded from the journal as it did to the graph it was journaled for. */
module RecoveryLaws {
  import opened Collections
  import opened OntologySchema
  import opened GraphState
  import opened StateLaws
  import opened BatchLaws
  import opened IngestState
  import opened UpsertLaws
  import opened AbsorbLaws
  import opened OperationLaws
  import opened Recovery

  /** A new graph and the journal that names its schema. */
  lemma FreshJournal(schema: Schema)
    requires WellKeyed(schema) && Acyclic(schema) && NamespacesOk(schema)
    ensures RestoredById(Empty(schema), [OntologyLog(schema)]) && Recovers(Empty(schema), [OntologyLog(schema)])
  {
    var log := [OntologyLog(schema)];
    assert log[1..] == [] && log[..0] == [];
    assert AcceptsSchema(Empty(EMPTY_SCHEMA), schema);
    assert ReloadOne(Empty(EMPTY_SCHEMA), log[0]) == Some(Empty(schema));
    assert Reload(Empty(schema), []) == Some(Empty(schema));
    assert LastSchema(log) == Some(schema);
  }

  // ---------- tombstones ----------

  lemma {:induction false} EdgesLess(relations: map<nat, Relation>, order: seq<nat>, id: nat)
    requires NoDup(order) && id in relations && forall x :: x in order ==> x in relations
    ensures forall x :: x in Minus(order, {id}) ==> x in relations - {id}
    ensures multiset(EdgeLog(relations, order)) == multiset(EdgeLog(relations - {id}, Minus(order, {id}))) +
      if id in order then multiset{EdgeOf(relations[id])} else multiset{}
  {
    MinusMembers(order, {id});
    if order != [] {
      var l := |order| - 1;
      assert order == order[..l] + [order[l]];
      assert order[l] !in order[..l];
      EdgesLess(relations, order[..l], id);
      assert EdgeLog(relations, order) == EdgeLog(relations, order[..l]) + [EdgeOf(relations[order[l]])];
      if order[l] != id {
        assert EdgeLog(relations - {id}, Minus(order, {id})) ==
          EdgeLog(relations - {id}, Minus(order[..l], {id})) + [EdgeOf(relations[order[l]])];
      }
    }
  }

  lemma RelationRemoved(st: State, id: nat)
    requires WellFormed(st)
    ensures var next := GraphState.RemoveRelation(st, id).0;
      && WellFormed(next)
      && multiset(Edges(st)) == multiset(Edges(next)) + if id in st.relations then multiset{EdgeOf(st.relations[id])} else multiset{}
  {
    UnlinkedOne(st, id);
    if id in st.relations { EdgesLess(st.relations, st.order, id); }
  }

  /** A tombstone takes the same edge from both graphs exactly when both have
      the same edge under the id. */
  lemma TombstoneExactly(r: State, st: State, id: nat)
    requires Twin(r, st) && id in st.relations
    ensures var n, next := GraphState.RemoveRelation(r, id).0, GraphState.RemoveRelation(st, id).0;
      && WellOrdered(n) && WellOrdered(next)
      && (multiset(Edges(n)) == multiset(Edges(next)) <==> id in r.relations && EdgeOf(r.relations[id]) == EdgeOf(st.relations[id]))
  {
    hide Edges;
    RelationRemoved(r, id);
    RelationRemoved(st, id);
    var a, b := multiset(Edges(GraphState.RemoveRelation(r, id).0)), multiset(Edges(GraphState.RemoveRelation(st, id).0));
    var e := EdgeOf(st.relations[id]);
    assert multiset(Edges(st)) == b + multiset{e};
    if id in r.relations {
      var d := EdgeOf(r.relations[id]);
      assert a + multiset{d} == b + multiset{e};
      SameRest(a, b, d, e);
    } else {
      assert |a| == |b| + 1;
    }
  }

  lemma SameRest(a: multiset<Edge>, b: multiset<Edge>, d: Edge, e: Edge)
    requires a + multiset{d} == b + multiset{e}
    ensures a == b <==> d == e
  {
    assert (a + multiset{d})[d] == (b + multiset{e})[d];
    assert a == a + multiset{d} - multiset{d} && b == b + multiset{e} - multiset{e};
  }

  // ---------- updates ----------

  /** Under two schemas an update does the same exactly when the schemas agree
      on whether the edge has another side, or the edge that one of them takes
      for the other side says the same already. */
  lemma UpdateExactly(r: State, st: State, u: Relation)
    requires Twin(r, st) && r.order == st.order && u.id in st.relations && EndsOf(st.relations[u.id]) == EndsOf(u)
    ensures ReloadOne(r, UpdateRelationLog(u)).Some?
    ensures ReloadOne(r, UpdateRelationLog(u)).value.relations == ApplyRelationUpdate(st, u).0.relations <==>
      || IsSymmetric(r.schema, u.rtype) == IsSymmetric(st.schema, u.rtype) || u.source == u.target
      || forall e :: Oldest(st, u.rtype, u.target, u.source, e) ==> Says(st.relations[e], u.weight, u.properties)
  {
    hide WellFormed, ApplyRelationUpdate;
    TwinIds(r, st);
    var v := r.relations[u.id].(weight := u.weight, properties := u.properties);
    UpdateReloads(r, u);
    var n, next := ApplyRelationUpdate(r, v).0.relations, ApplyRelationUpdate(st, u).0.relations;
    assert WellFormed(r) && WellFormed(st);
    ReweightedExactly(r, v, u.id);
    ReweightedExactly(st, u, u.id);
    forall e | e in st.relations
      ensures n[e] == (if e == u.id || OtherSide(r, u.id, e) then Reset(st.relations[e], u.weight, u.properties) else st.relations[e])
      ensures next[e] == (if e == u.id || OtherSide(st, u.id, e) then Reset(st.relations[e], u.weight, u.properties) else st.relations[e])
    {
      ReweightedExactly(r, v, e);
      ReweightedExactly(st, u, e);
    }
    SidesDiffer(r, st, u, n, next);
  }

  lemma SidesDiffer(r: State, st: State, u: Relation, n: map<nat, Relation>, next: map<nat, Relation>)
    requires r.relations == st.relations && r.order == st.order && u.id in st.relations && EndsOf(st.relations[u.id]) == EndsOf(u)
    requires n.Keys == st.relations.Keys && next.Keys == st.relations.Keys
    requires forall e :: e in st.relations ==>
      n[e] == (if e == u.id || OtherSide(r, u.id, e) then Reset(st.relations[e], u.weight, u.properties) else st.relations[e])
    requires forall e :: e in st.relations ==>
      next[e] == (if e == u.id || OtherSide(st, u.id, e) then Reset(st.relations[e], u.weight, u.properties) else st.relations[e])
    ensures n == next <==>
      || IsSymmetric(r.schema, u.rtype) == IsSymmetric(st.schema, u.rtype) || u.source == u.target
      || forall e :: Oldest(st, u.rtype, u.target, u.source, e) ==> Says(st.relations[e], u.weight, u.properties)
  {
    var agree := IsSymmetric(r.schema, u.rtype) == IsSymmetric(st.schema, u.rtype);
    forall e | e in st.relations
      ensures OtherSide(r, u.id, e) <==> IsSymmetric(r.schema, u.rtype) && u.source != u.target && Oldest(st, u.rtype, u.target, u.source, e)
      ensures OtherSide(st, u.id, e) <==> IsSymmetric(st.schema, u.rtype) && u.source != u.target && Oldest(st, u.rtype, u.target, u.source, e)
    {
      assert Oldest(r, u.rtype, u.target, u.source, e) <==> Oldest(st, u.rtype, u.target, u.source, e);
    }
    forall e | e in st.relations && !agree && u.source != u.target
      ensures n[e] == next[e] <==> (Oldest(st, u.rtype, u.target, u.source, e) ==> Says(st.relations[e], u.weight, u.properties))
    {
    }
    if n == next && !agree && u.source != u.target {
      forall e | Oldest(st, u.rtype, u.target, u.source, e) ensures Says(st.relations[e], u.weight, u.properties) {
        assert e in st.relations && n[e] == next[e];
      }
    }
    if !(n == next) { var e :| e in st.relations && n[e] != next[e]; }
  }

  lemma EdgesReset(st: State, id: nat, weight: int, properties: Props)
    requires WellFormed(st) && id in st.relations
    ensures WellFormed(WithWeight(st, id, weight, properties))
    ensures multiset(Edges(WithWeight(st, id, weight, properties))) + multiset{EdgeOf(st.relations[id])} ==
      multiset(Edges(st)) + multiset{EdgeOf(Reset(st.relations[id], weight, properties))}
  {
    ReweightedWellFormed(st, id, weight, properties);
    var i :| 0 <= i < |st.order| && st.order[i] == id;
    ResetAt(st, id, weight, properties, i);
    Replaced(Edges(st), i, EdgeOf(Reset(st.relations[id], weight, properties)));
  }

  lemma ResetAt(st: State, id: nat, weight: int, properties: Props, i: nat)
    requires WellFormed(st) && i < |st.order| && st.order[i] == id && id in st.relations
    ensures WellOrdered(WithWeight(st, id, weight, properties)) && Edges(st)[i] == EdgeOf(st.relations[id])
    ensures Edges(WithWeight(st, id, weight, properties)) == Edges(st)[i := EdgeOf(Reset(st.relations[id], weight, properties))]
  {
    var l, r := Edges(WithWeight(st, id, weight, properties)), Edges(st)[i := EdgeOf(Reset(st.relations[id], weight, properties))];
    forall k | 0 <= k < |st.order| ensures l[k] == r[k] { assert st.order[k] == id ==> k == i; }
  }

  lemma Replaced(s: seq<Edge>, i: nat, e: Edge)
    requires i < |s|
    ensures multiset(s[i := e]) + multiset{s[i]} == multiset(s) + multiset{e}
  {
  }

  lemma PlainUpdate(st: State, v: Relation)
    requires WellFormed(st) && v.id in st.relations && !IsSymmetric(st.schema, st.relations[v.id].rtype)
    ensures ApplyRelationUpdate(st, v).0 == WithWeight(st, v.id, v.weight, v.properties)
  {
  }

  lemma AddsEdges(r: State, rel: Relation)
    requires WellFormed(r) && ReloadOne(r, RelationLog(rel)).Some?
    ensures var n := ReloadOne(r, RelationLog(rel)).value; WellFormed(n) && |Edges(n)| > |Edges(r)|
  {
    AddedLog(r, rel);
  }

  lemma SameSize(r: State, st: State, v: Relation)
    requires Twin(r, st) && v.id in st.relations
    ensures WellFormed(WithWeight(st, v.id, v.weight, v.properties))
    ensures |Edges(WithWeight(st, v.id, v.weight, v.properties))| == |Edges(r)|
  {
    EdgesReset(st, v.id, v.weight, v.properties);
  }

  /** Whatever the ids are: an update of an edge with one side does the same to
      both graphs exactly when both have the same edge under the id, or two
      that say so already. */
  lemma MisledUpdate(r: State, st: State, u: Relation)
    requires Twin(r, st) && u.id in st.relations && !IsSymmetric(st.schema, st.relations[u.id].rtype)
    requires u.id in r.relations ==> !IsSymmetric(r.schema, r.relations[u.id].rtype)
    ensures var n, next := ReloadOne(r, UpdateRelationLog(u)), ApplyRelationUpdate(st, u).0;
      && WellOrdered(next) && (n.Some? ==> WellOrdered(n.value))
      && (n.Some? && multiset(Edges(n.value)) == multiset(Edges(next)) <==>
           && u.id in r.relations
           && (EdgeOf(r.relations[u.id]) == EdgeOf(st.relations[u.id])
               || (Says(r.relations[u.id], u.weight, u.properties) && Says(st.relations[u.id], u.weight, u.properties))))
  {
    hide WellFormed, ApplyRelationUpdate, Edges, AddRelation;
    PlainUpdate(st, u);
    EdgesReset(st, u.id, u.weight, u.properties);
    assert WellFormed(r) && WellFormed(st);
    var next := ApplyRelationUpdate(st, u).0;
    assert WellOrdered(next) by { assert WellFormed(next); WellFormedOrdered(next); }
    if u.id in r.relations {
      var v := r.relations[u.id].(weight := u.weight, properties := u.properties);
      UpdateReloads(r, u);
      PlainUpdate(r, v);
      EdgesReset(r, u.id, u.weight, u.properties);
      var n := ApplyRelationUpdate(r, v).0;
      WellFormedOrdered(n);
      Swapped(multiset(Edges(n)), multiset(Edges(next)), multiset(Edges(st)), EdgeOf(r.relations[u.id]),
              EdgeOf(Reset(r.relations[u.id], u.weight, u.properties)), EdgeOf(st.relations[u.id]),
              EdgeOf(Reset(st.relations[u.id], u.weight, u.properties)));
    } else {
      assert ReloadOne(r, UpdateRelationLog(u)) == ReloadOne(r, RelationLog(u));
      SameSize(r, st, u);
      if ReloadOne(r, RelationLog(u)).Some? {
        AddsEdges(r, u);
        WellFormedOrdered(ReloadOne(r, RelationLog(u)).value);
        assert |multiset(Edges(ReloadOne(r, RelationLog(u)).value))| > |multiset(Edges(next))|;
      }
    }
  }

  lemma WellFormedOrdered(st: State)
    requires WellFormed(st)
    ensures WellOrdered(st)
  {
  }

  /** `n` and `next` are `all` with one edge replaced; `d1` is `d`, and `e1` is
      `e`, with the same weight and properties put in. */
  lemma Swapped(n: multiset<Edge>, next: multiset<Edge>, all: multiset<Edge>, d: Edge, d1: Edge, e: Edge, e1: Edge)
    requires n + multiset{d} == all + multiset{d1} && next + multiset{e} == all + multiset{e1}
    requires d1 == d.(weight := d1.weight, properties := d1.properties) && e1 == e.(weight := d1.weight, properties := d1.properties)
    ensures n == next <==> d == e || (d == d1 && e == e1)
  {
    assert n + multiset{d} + multiset{e1} == next + multiset{e} + multiset{d1};
    if n == next {
      assert (n + multiset{d} + multiset{e1})[d] == (next + multiset{e} + multiset{d1})[d];
      assert (n + multiset{d} + multiset{e1})[e] == (next + multiset{e} + multiset{d1})[e];
    } else {
      forall x | d == e || (d == d1 && e == e1) ensures n[x] == next[x] {
        assert (n + multiset{d} + multiset{e1})[x] == (next + multiset{e} + multiset{d1})[x];
      }
    }
  }
}
