/** When the indexes agree with the primary state, and why each mutation
    keeps them in agreement. */
module Consistency {
  import opened Collections
  import opened Text
  import opened OntologySchema
  import opened GraphState
  import opened Indexes
  import opened StateLaws

  datatype Index = Index(
    names: map<NameKey, nat>, outAdj: Adj, inAdj: Adj, outTyped: TypedAdj, inTyped: TypedAdj,
    sorted: set<ConceptKey>, byType: map<string, set<BucketKey>>, grams: map<string, set<nat>>, relSorted: set<nat>)

  const NO_INDEX := Index(map[], map[], map[], map[], map[], {}, map[], map[], {})

  ghost predicate AdjacencyOk(relations: map<nat, Relation>, order: seq<nat>, ix: Index, but: set<nat>) {
    && AdjOkBut(relations, order, ix.outAdj, true, but) && AdjOkBut(relations, order, ix.inAdj, false, but)
    && TypedOkBut(relations, order, ix.outTyped, true, but) && TypedOkBut(relations, order, ix.inTyped, false, but)
  }

  /** The indexes that a bulk load suspends. */
  ghost predicate DerivedOk(st: State, ix: Index) {
    ListingsOk(st.concepts, ix.sorted, ix.byType, ix.grams) && ix.relSorted == st.relations.Keys
  }

  ghost predicate Consistent(st: State, ix: Index, bulk: bool) {
    && WellFormed(st) && NameIndexOk(st.concepts, ix.names)
    && AdjacencyOk(st.relations, st.order, ix, {}) && (!bulk ==> DerivedOk(st, ix))
  }

  lemma EmptyConsistent(schema: Schema, bulk: bool)
    requires WellKeyed(schema)
    ensures Consistent(Empty(schema), NO_INDEX, bulk)
  {
  }

  lemma InstallConsistent(st: State, ix: Index, bulk: bool, c: Concept, sorted: set<ConceptKey>,
                          byType: map<string, set<BucketKey>>, grams: map<string, set<nat>>)
    requires Consistent(st, ix, bulk) && c.id > 0 && FreeFor(st, KeyOf(c), c.id)
    requires !bulk ==> ListingsOk(st.concepts[c.id := c], sorted, byType, grams)
    ensures var ix1 := ix.(names := Rebound(ix.names, st.concepts, c), sorted := sorted, byType := byType, grams := grams);
      && Consistent(Installed(st, c), ix1, bulk)
      && (c.id in st.concepts ==> Consistent(Replaced(st, c), ix1, bulk))
  {
    InstalledWellFormed(st, c);
    LookupIsFind(st, ix.names, KeyOf(c));
    NameIndexPut(st.concepts, ix.names, c);
  }

  /** A change that keeps type and name touches no index at all. */
  lemma SameNameConsistent(st: State, ix: Index, bulk: bool, c: Concept)
    requires Consistent(st, ix, bulk)
    requires c.id in st.concepts && st.concepts[c.id].ctype == c.ctype && st.concepts[c.id].name == c.name
    ensures Consistent(Replaced(st, c), ix, bulk)
  {
    hide AdjacencyOk, FreeFor;
    OwnKeyFree(st, c.id);
    InstalledWellFormed(st, c);
    NameIndexPut(st.concepts, ix.names, c);
    assert Rebound(ix.names, st.concepts, c) == ix.names;
    if !bulk {
      SortedAddOk(st.concepts, ix.sorted, c);
      assert ix.sorted + {SortKey(c, c.id)} == ix.sorted;
      var next := st.concepts[c.id := c];
      assert ByTypeOk(next, ix.byType) by {
        forall t, n, id ensures (n, id) in Bucket(ix.byType, t) <==> id in next && next[id].ctype == t && next[id].name == n {
          assert (n, id) in Bucket(ix.byType, t) <==> id in st.concepts && st.concepts[id].ctype == t && st.concepts[id].name == n;
        }
      }
    }
  }

  /** `relation` pushed to the four adjacency indexes. */
  function LinkIndex(ix: Index, r: Relation, relSorted: set<nat>): Index {
    ix.(outAdj := Push(ix.outAdj, r.source, r.id), inAdj := Push(ix.inAdj, r.target, r.id),
        outTyped := PushTyped(ix.outTyped, r.source, r.rtype, r.id), inTyped := PushTyped(ix.inTyped, r.target, r.rtype, r.id),
        relSorted := relSorted)
  }

  lemma LinkConsistent(st: State, ix: Index, bulk: bool, r: Relation, relSorted: set<nat>)
    requires Consistent(st, ix, bulk) && r.id > 0 && r.id !in st.relations && r.source in st.concepts && r.target in st.concepts
    requires !bulk ==> relSorted == ix.relSorted + {r.id}
    ensures Consistent(Linked(st, r), LinkIndex(ix, r, relSorted), bulk)
  {
    LinkedWellFormed(st, r);
    AdjPush(st.relations, st.order, ix.outAdj, true, r);
    AdjPush(st.relations, st.order, ix.inAdj, false, r);
    TypedPush(st.relations, st.order, ix.outTyped, true, r);
    TypedPush(st.relations, st.order, ix.inTyped, false, r);
  }

  /** Edge `rid` scrubbed from the four lists of node `k`. */
  function ScrubIndex(ix: Index, rid: nat, rtype: string, outNode: nat, inNode: nat): Index {
    ix.(outAdj := Retain(ix.outAdj, outNode, rid), inAdj := Retain(ix.inAdj, inNode, rid),
        outTyped := RetainTyped(ix.outTyped, outNode, rtype, rid), inTyped := RetainTyped(ix.inTyped, inNode, rtype, rid))
  }

  lemma ScrubAdjacency(relations: map<nat, Relation>, order: seq<nat>, ix: Index, rid: nat, outNode: nat, inNode: nat, but: set<nat>)
    requires AdjacencyOk(relations, order, ix, but) && rid in relations
    requires relations[rid].source == outNode || relations[rid].source in but
    requires relations[rid].target == inNode || relations[rid].target in but
    ensures AdjacencyOk(relations - {rid}, Minus(order, {rid}), ScrubIndex(ix, rid, relations[rid].rtype, outNode, inNode), but)
  {
    AdjRetain(relations, order, ix.outAdj, true, rid, outNode, but);
    AdjRetain(relations, order, ix.inAdj, false, rid, inNode, but);
    TypedRetain(relations, order, ix.outTyped, true, rid, outNode, but);
    TypedRetain(relations, order, ix.inTyped, false, rid, inNode, but);
  }

  lemma UnlinkConsistent(st: State, ix: Index, bulk: bool, rid: nat, relSorted: set<nat>)
    requires Consistent(st, ix, bulk) && rid in st.relations
    requires !bulk ==> relSorted == ix.relSorted - {rid}
    ensures Consistent(GraphState.RemoveRelation(st, rid).0,
      ScrubIndex(ix, rid, st.relations[rid].rtype, st.relations[rid].source, st.relations[rid].target).(relSorted := relSorted), bulk)
  {
    UnlinkedWellFormed(st, {rid});
    ScrubAdjacency(st.relations, st.order, ix, rid, st.relations[rid].source, st.relations[rid].target, {});
  }

  lemma ReweightConsistent(st: State, ix: Index, bulk: bool, id: nat, weight: int, properties: Props)
    requires Consistent(st, ix, bulk) && id in st.relations
    ensures Consistent(WithWeight(st, id, weight, properties), ix, bulk)
  {
    ReweightedWellFormed(st, id, weight, properties);
    AdjReweighted(st.relations, st.order, ix.outAdj, ix.outTyped, true, id, weight, properties);
    AdjReweighted(st.relations, st.order, ix.inAdj, ix.inTyped, false, id, weight, properties);
  }

  // ---------- the cascade of a removal ----------

  /** The concept's own lists dropped. */
  function DropLists(ix: Index, id: nat): Index {
    ix.(outAdj := ix.outAdj - {id}, inAdj := ix.inAdj - {id}, outTyped := ix.outTyped - {id}, inTyped := ix.inTyped - {id})
  }

  ghost predicate NoLists(ix: Index, id: nat) {
    id !in ix.outAdj && id !in ix.inAdj && id !in ix.outTyped && id !in ix.inTyped
  }

  /** Midway through the cascade: the edges in `gone` are out, the lists of
      `id` are dropped and every other list is exact. */
  ghost predicate Cascading(st: State, id: nat, gone: set<nat>, ix: Index) {
    AdjacencyOk(st.relations - gone, Minus(st.order, gone), ix, {id}) && NoLists(ix, id)
  }

  lemma CascadeStarts(st: State, ix: Index, bulk: bool, id: nat)
    requires Consistent(st, ix, bulk)
    ensures Cascading(st, id, {}, DropLists(ix, id))
  {
    MinusNothing(st.order, {});
    assert st.relations - {} == st.relations;
    DropListsOk(st.relations, st.order, ix, id);
  }

  lemma DropListsOk(relations: map<nat, Relation>, order: seq<nat>, ix: Index, id: nat)
    requires AdjacencyOk(relations, order, ix, {})
    ensures AdjacencyOk(relations, order, DropLists(ix, id), {id})
  {
    DropAdj(relations, order, ix.outAdj, true, id);
    DropAdj(relations, order, ix.inAdj, false, id);
    DropTyped(relations, order, ix.outTyped, true, id);
    DropTyped(relations, order, ix.inTyped, false, id);
  }

  lemma CascadeStep(st: State, id: nat, gone: set<nat>, ix: Index, rid: nat, other: nat)
    requires Cascading(st, id, gone, ix) && rid in st.relations && rid !in gone
    requires st.relations[rid].source == other || st.relations[rid].source == id
    requires st.relations[rid].target == other || st.relations[rid].target == id
    ensures Cascading(st, id, gone + {rid}, ScrubIndex(ix, rid, st.relations[rid].rtype, other, other))
  {
    var left, order := st.relations - gone, Minus(st.order, gone);
    ScrubAdjacency(left, order, ix, rid, other, other, {id});
    MinusTwice(st.order, gone, {rid});
    assert left - {rid} == st.relations - (gone + {rid});
  }

  lemma CascadeEnds(st: State, ix0: Index, bulk: bool, id: nat, ix: Index)
    requires Consistent(st, ix0, bulk) && id in st.concepts
    requires Cascading(st, id, IncidentSet(st.relations, id), ix)
    requires ix.names == ix0.names - {KeyOf(st.concepts[id])}
    requires !bulk ==> ListingsOk(st.concepts - {id}, ix.sorted, ix.byType, ix.grams)
    requires !bulk ==> ix.relSorted == ix0.relSorted - IncidentSet(st.relations, id)
    ensures Consistent(GraphState.RemoveConcept(st, id).0, ix, bulk)
  {
    var next := GraphState.RemoveConcept(st, id).0;
    RemovedWellFormed(st, id);
    NameIndexDrop(st.concepts, ix0.names, id);
    AdjClose(next.relations, next.order, ix.outAdj, ix.outTyped, true, id);
    AdjClose(next.relations, next.order, ix.inAdj, ix.inTyped, false, id);
  }

  lemma IncidentByAdjacency(st: State, ix: Index, bulk: bool, id: nat)
    requires Consistent(st, ix, bulk)
    ensures Elems(Get(ix.outAdj, id) + Get(ix.inAdj, id)) == IncidentSet(st.relations, id)
  {
    SelectMembers(st.relations, st.order, Sel(true, id, None));
    SelectMembers(st.relations, st.order, Sel(false, id, None));
  }

  lemma TypedIsSelect(st: State, ix: Index, bulk: bool, n: nat, t: string)
    requires Consistent(st, ix, bulk)
    ensures GetTyped(ix.outTyped, n, t) == Select(st.relations, st.order, Sel(true, n, Some(t)))
    ensures GetTyped(ix.inTyped, n, t) == Select(st.relations, st.order, Sel(false, n, Some(t)))
  {
  }

  /** The typed lists answer the cardinality question. */
  lemma DegreeByAdjacency(st: State, ix: Index, bulk: bool, n: nat, t: string)
    requires Consistent(st, ix, bulk)
    ensures HasOut(st, n, t) <==> GetTyped(ix.outTyped, n, t) != []
    ensures HasIn(st, n, t) <==> GetTyped(ix.inTyped, n, t) != []
  {
    TypedIsSelect(st, ix, bulk, n, t);
    var o, i := GetTyped(ix.outTyped, n, t), GetTyped(ix.inTyped, n, t);
    SelectMembers(st.relations, st.order, Sel(true, n, Some(t)));
    SelectMembers(st.relations, st.order, Sel(false, n, Some(t)));
    if o != [] { assert o[0] in o; }
    if i != [] { assert i[0] in i; }
  }

  lemma BetweenByAdjacency(st: State, ix: Index, bulk: bool, source: nat, target: nat, rtype: string)
    requires Consistent(st, ix, bulk)
    ensures Between(st, source, target, rtype) == FirstTo(st.relations, GetTyped(ix.outTyped, source, rtype), target)
  {
    TypedIsSelect(st, ix, bulk, source, rtype);
  }

  /** The ids of bucket entries, without those that are gone. */
  function LiveIds(concepts: map<nat, Concept>, keys: seq<BucketKey>): seq<nat> {
    if keys == [] then [] else
    var l := |keys| - 1;
    if keys[l].1 in concepts then LiveIds(concepts, keys[..l]) + [keys[l].1] else LiveIds(concepts, keys[..l])
  }

  lemma {:induction false} LiveIdsMembers(concepts: map<nat, Concept>, keys: seq<BucketKey>)
    ensures forall id :: id in LiveIds(concepts, keys) <==> id in concepts && exists k :: 0 <= k < |keys| && keys[k].1 == id
  {
    if keys != [] {
      var l := |keys| - 1;
      LiveIdsMembers(concepts, keys[..l]);
      forall id | id in concepts && exists k :: 0 <= k < |keys| && keys[k].1 == id ensures id in LiveIds(concepts, keys) {
        var k :| 0 <= k < |keys| && keys[k].1 == id;
        if k < l { assert keys[..l][k].1 == id; }
      }
    }
  }

  lemma {:induction false} LiveIdsNoDup(concepts: map<nat, Concept>, keys: seq<BucketKey>)
    requires forall i, j :: 0 <= i < j < |keys| ==> keys[i].1 != keys[j].1
    ensures NoDup(LiveIds(concepts, keys))
  {
    if keys != [] {
      var l := |keys| - 1;
      LiveIdsNoDup(concepts, keys[..l]);
      LiveIdsMembers(concepts, keys[..l]);
    }
  }

  lemma TypeBucketExact(st: State, ix: Index, t: string, keys: seq<BucketKey>)
    requires Consistent(st, ix, false) && NoDup(keys)
    requires forall k :: k in keys <==> k in Bucket(ix.byType, t)
    ensures NoDup(LiveIds(st.concepts, keys))
    ensures forall id :: id in LiveIds(st.concepts, keys) <==> id in st.concepts && st.concepts[id].ctype == t
  {
    LiveIdsMembers(st.concepts, keys);
    forall k | 0 <= k < |keys| ensures keys[k].1 in st.concepts && keys[k].0 == st.concepts[keys[k].1].name && st.concepts[keys[k].1].ctype == t {
      assert keys[k] in keys && keys[k] == (keys[k].0, keys[k].1);
      assert (keys[k].0, keys[k].1) in Bucket(ix.byType, t);
    }
    forall i, j | 0 <= i < j < |keys| ensures keys[i].1 != keys[j].1 {
      assert keys[i] != keys[j];
    }
    LiveIdsNoDup(st.concepts, keys);
    forall id | id in st.concepts && st.concepts[id].ctype == t ensures id in LiveIds(st.concepts, keys) {
      assert (st.concepts[id].name, id) in Bucket(ix.byType, t);
      var k :| 0 <= k < |keys| && keys[k] == (st.concepts[id].name, id);
    }
  }

  /** Equal up to empty buckets and absent lists. */
  ghost predicate SameAnswers(a: Index, b: Index) {
    && a.names == b.names && a.sorted == b.sorted && a.grams == b.grams && a.relSorted == b.relSorted
    && (forall t :: Bucket(a.byType, t) == Bucket(b.byType, t))
    && (forall n :: Get(a.outAdj, n) == Get(b.outAdj, n) && Get(a.inAdj, n) == Get(b.inAdj, n))
    && (forall n, t :: GetTyped(a.outTyped, n, t) == GetTyped(b.outTyped, n, t) && GetTyped(a.inTyped, n, t) == GetTyped(b.inTyped, n, t))
  }

  lemma BucketAnswers(st: State, ix: Index, t: string)
    requires Consistent(st, ix, false)
    ensures Bucket(ix.byType, t) != {} <==> exists id :: id in st.concepts && st.concepts[id].ctype == t
  {
    if k :| k in Bucket(ix.byType, t) { assert k == (k.0, k.1); }
    if id :| id in st.concepts && st.concepts[id].ctype == t { assert (st.concepts[id].name, id) in Bucket(ix.byType, t); }
  }

  /** Outside bulk mode the primary state determines every index. */
  lemma IndexDetermined(st: State, a: Index, b: Index)
    requires Consistent(st, a, false) && Consistent(st, b, false)
    ensures SameAnswers(a, b)
  {
    SortedDetermined(st.concepts, a.sorted, b.sorted);
    BucketsDetermined(st.concepts, a.byType, b.byType);
    GramsDetermined(st.concepts, a.grams, b.grams);
    assert a.names == b.names by {
      forall k ensures k in a.names <==> k in b.names { LookupIsFind(st, a.names, k); LookupIsFind(st, b.names, k); }
      forall k | k in a.names ensures a.names[k] == b.names[k] { LookupIsFind(st, a.names, k); LookupIsFind(st, b.names, k); }
    }
    forall n, t
      ensures GetTyped(a.outTyped, n, t) == GetTyped(b.outTyped, n, t) && GetTyped(a.inTyped, n, t) == GetTyped(b.inTyped, n, t)
    {
      TypedIsSelect(st, a, false, n, t);
      TypedIsSelect(st, b, false, n, t);
    }
  }

  lemma SortedDetermined(concepts: map<nat, Concept>, a: set<ConceptKey>, b: set<ConceptKey>)
    requires SortedOk(concepts, a) && SortedOk(concepts, b)
    ensures a == b
  {
    forall k ensures k in a <==> k in b { assert k == (k.0, k.1, k.2); }
  }

  lemma BucketsDetermined(concepts: map<nat, Concept>, a: map<string, set<BucketKey>>, b: map<string, set<BucketKey>>)
    requires ByTypeOk(concepts, a) && ByTypeOk(concepts, b)
    ensures forall t :: Bucket(a, t) == Bucket(b, t)
  {
    forall t ensures Bucket(a, t) == Bucket(b, t) {
      forall k ensures k in Bucket(a, t) <==> k in Bucket(b, t) {
        assert k == (k.0, k.1);
        assert (k.0, k.1) in Bucket(a, t) <==> k.1 in concepts && concepts[k.1].ctype == t && concepts[k.1].name == k.0;
      }
    }
  }

  lemma GramsDetermined(concepts: map<nat, Concept>, a: map<string, set<nat>>, b: map<string, set<nat>>)
    requires TrigramsOk(concepts, a) && TrigramsOk(concepts, b)
    ensures a == b
  {
    forall g ensures GramBucket(a, g) == GramBucket(b, g) {
      forall id ensures id in GramBucket(a, g) <==> id in GramBucket(b, g) {
        assert id in GramBucket(a, g) <==> id in concepts && g in Trigrams(concepts[id].name);
      }
    }
    forall g ensures g in a <==> g in b { assert GramBucket(a, g) == GramBucket(b, g); }
    forall g | g in a ensures a[g] == b[g] { assert GramBucket(a, g) == GramBucket(b, g); }
  }

  /** `prepare_relation` moves only the watermark. */
  lemma PreparedRelationConsistent(st: State, ix: Index, bulk: bool, rel: Relation)
    requires Consistent(st, ix, bulk)
    ensures Consistent(PrepareRelation(st, rel).0, ix, bulk)
  {
    PreparedFresh(st, rel);
    hide PrepareRelation, AdjacencyOk, ListingsOk, NameIndexOk;
  }
}
