/** The redundant structures of the graph and what it means for each to equal
    a recomputation from the primary maps; every elementary index update keeps
    that equality. */
module Indexes {
  import opened Collections
  import opened Text
  import opened GraphState

  // ---------- name index ----------

  ghost predicate NameIndexOk(concepts: map<nat, Concept>, idx: map<NameKey, nat>) {
    && (forall id :: id in concepts ==> KeyOf(concepts[id]) in idx && idx[KeyOf(concepts[id])] == id)
    && (forall k :: k in idx ==> idx[k] in concepts && KeyOf(concepts[idx[k]]) == k)
  }

  function Lookup(idx: map<NameKey, nat>, key: NameKey): Option<nat> {
    if key in idx then Some(idx[key]) else None
  }

  lemma LookupIsFind(st: State, idx: map<NameKey, nat>, key: NameKey)
    requires NameIndexOk(st.concepts, idx)
    ensures Lookup(idx, key) == Find(st, key)
  {
    if key in idx { assert NamedBy(st.concepts, key, idx[key]); }
  }

  /** Bind the key of `c`, after releasing the key of the version it replaces. */
  function Rebound(idx: map<NameKey, nat>, concepts: map<nat, Concept>, c: Concept): map<NameKey, nat> {
    (if c.id in concepts && KeyOf(concepts[c.id]) != KeyOf(c) then idx - {KeyOf(concepts[c.id])} else idx)[KeyOf(c) := c.id]
  }

  lemma NameIndexPut(concepts: map<nat, Concept>, idx: map<NameKey, nat>, c: Concept)
    requires NameIndexOk(concepts, idx)
    requires KeyOf(c) in idx ==> idx[KeyOf(c)] == c.id
    ensures NameIndexOk(concepts[c.id := c], Rebound(idx, concepts, c))
  {
  }

  lemma NameIndexDrop(concepts: map<nat, Concept>, idx: map<NameKey, nat>, id: nat)
    requires NameIndexOk(concepts, idx) && id in concepts
    ensures NameIndexOk(concepts - {id}, idx - {KeyOf(concepts[id])})
  {
  }

  // ---------- ordered and bucketed listings ----------

  type ConceptKey = (string, string, nat)
  type BucketKey = (string, nat)

  predicate BucketLt(a: BucketKey, b: BucketKey) { StringLt(a.0, b.0) || (a.0 == b.0 && a.1 < b.1) }

  predicate ConceptKeyLt(a: ConceptKey, b: ConceptKey) {
    StringLt(a.0, b.0) || (a.0 == b.0 && BucketLt((a.1, a.2), (b.1, b.2)))
  }

  /** Listings go by type, then by name, then by id. */
  lemma KeysCompare(a: ConceptKey, b: ConceptKey)
    ensures ConceptKeyLt(a, b) <==>
      if a.0 != b.0 then StringLt(a.0, b.0) else if a.1 != b.1 then StringLt(a.1, b.1) else a.2 < b.2
    ensures BucketLt((a.1, a.2), (b.1, b.2)) <==> if a.1 != b.1 then StringLt(a.1, b.1) else a.2 < b.2
  {
    StringOrder();
  }

  lemma BucketOrder()
    ensures StrictOrder(BucketLt)
  {
    StringOrder();
  }

  lemma ConceptKeyOrder()
    ensures StrictOrder(ConceptKeyLt)
  {
    StringOrder();
    BucketOrder();
    forall x: ConceptKey, y: ConceptKey | x != y ensures ConceptKeyLt(x, y) || ConceptKeyLt(y, x) {
      if x.0 == y.0 { assert (x.1, x.2) != (y.1, y.2); }
    }
  }

  function SortKey(c: Concept, id: nat): ConceptKey { (c.ctype, c.name, id) }

  ghost predicate SortedOk(concepts: map<nat, Concept>, sorted: set<ConceptKey>) {
    forall t, n, id :: (t, n, id) in sorted <==> id in concepts && concepts[id].ctype == t && concepts[id].name == n
  }

  function Bucket(byType: map<string, set<BucketKey>>, t: string): set<BucketKey> {
    if t in byType then byType[t] else {}
  }

  ghost predicate ByTypeOk(concepts: map<nat, Concept>, byType: map<string, set<BucketKey>>) {
    forall t, n, id :: (n, id) in Bucket(byType, t) <==> id in concepts && concepts[id].ctype == t && concepts[id].name == n
  }

  /** Removal from a bucket that may not exist. */
  function BucketDrop(byType: map<string, set<BucketKey>>, t: string, k: BucketKey): map<string, set<BucketKey>> {
    if t in byType then byType[t := byType[t] - {k}] else byType
  }

  function BucketAdd(byType: map<string, set<BucketKey>>, t: string, k: BucketKey): map<string, set<BucketKey>> {
    byType[t := Bucket(byType, t) + {k}]
  }

  lemma SortedDropOk(concepts: map<nat, Concept>, sorted: set<ConceptKey>, id: nat)
    requires SortedOk(concepts, sorted) && id in concepts
    ensures SortedOk(concepts - {id}, sorted - {SortKey(concepts[id], id)})
  {
  }

  lemma SortedAddOk(concepts: map<nat, Concept>, sorted: set<ConceptKey>, c: Concept)
    requires SortedOk(concepts, sorted)
    requires c.id in concepts ==> SortKey(concepts[c.id], c.id) == SortKey(c, c.id)
    ensures SortedOk(concepts[c.id := c], sorted + {SortKey(c, c.id)})
  {
  }

  lemma BucketDropAt(byType: map<string, set<BucketKey>>, t: string, k: BucketKey, u: string)
    ensures Bucket(BucketDrop(byType, t, k), u) == if u == t then Bucket(byType, t) - {k} else Bucket(byType, u)
  {
  }

  lemma BucketAddAt(byType: map<string, set<BucketKey>>, t: string, k: BucketKey, u: string)
    ensures Bucket(BucketAdd(byType, t, k), u) == if u == t then Bucket(byType, t) + {k} else Bucket(byType, u)
  {
  }

  lemma ByTypeDropOk(concepts: map<nat, Concept>, byType: map<string, set<BucketKey>>, id: nat)
    requires ByTypeOk(concepts, byType) && id in concepts
    ensures ByTypeOk(concepts - {id}, BucketDrop(byType, concepts[id].ctype, (concepts[id].name, id)))
  {
    var c := concepts[id];
    var r := BucketDrop(byType, c.ctype, (c.name, id));
    var left := concepts - {id};
    forall t, n, i ensures (n, i) in Bucket(r, t) <==> i in left && left[i].ctype == t && left[i].name == n {
      BucketDropAt(byType, c.ctype, (c.name, id), t);
      assert (n, i) in Bucket(byType, t) <==> i in concepts && concepts[i].ctype == t && concepts[i].name == n;
    }
  }

  lemma ByTypeAddOk(concepts: map<nat, Concept>, byType: map<string, set<BucketKey>>, c: Concept)
    requires ByTypeOk(concepts, byType)
    requires c.id in concepts ==> SortKey(concepts[c.id], c.id) == SortKey(c, c.id)
    ensures ByTypeOk(concepts[c.id := c], BucketAdd(byType, c.ctype, (c.name, c.id)))
  {
    var r := BucketAdd(byType, c.ctype, (c.name, c.id));
    var next := concepts[c.id := c];
    forall t, n, i ensures (n, i) in Bucket(r, t) <==> i in next && next[i].ctype == t && next[i].name == n {
      BucketAddAt(byType, c.ctype, (c.name, c.id), t);
      assert (n, i) in Bucket(byType, t) <==> i in concepts && concepts[i].ctype == t && concepts[i].name == n;
    }
  }

  function GramBucket(grams: map<string, set<nat>>, g: string): set<nat> {
    if g in grams then grams[g] else {}
  }

  ghost predicate TrigramsOk(concepts: map<nat, Concept>, grams: map<string, set<nat>>) {
    && (forall g :: g in grams ==> grams[g] != {})
    && (forall g, id :: id in GramBucket(grams, g) <==> id in concepts && g in Trigrams(concepts[id].name))
  }

  /** `deindex_name_trigrams`, bucket by bucket. */
  method DropGrams(grams: map<string, set<nat>>, name: string, id: nat) returns (r: map<string, set<nat>>)
    requires forall g :: g in grams ==> grams[g] != {}
    ensures forall g :: g in r ==> r[g] != {}
    ensures forall g :: GramBucket(r, g) == if g in Trigrams(name) then GramBucket(grams, g) - {id} else GramBucket(grams, g)
  {
    r := grams;
    var rest := Trigrams(name);
    while rest != {}
      invariant rest <= Trigrams(name)
      invariant forall g :: g in r ==> r[g] != {}
      invariant forall g :: g in Trigrams(name) && g !in rest ==> GramBucket(r, g) == GramBucket(grams, g) - {id}
      invariant forall g :: g !in Trigrams(name) || g in rest ==> GramBucket(r, g) == GramBucket(grams, g)
      decreases rest
    {
      var g :| g in rest;
      rest := rest - {g};
      if g in r {
        var bucket := r[g] - {id};
        r := if bucket == {} then r - {g} else r[g := bucket];
      }
    }
  }

  /** `index_name_trigrams`. */
  method AddGrams(grams: map<string, set<nat>>, name: string, id: nat) returns (r: map<string, set<nat>>)
    requires forall g :: g in grams ==> grams[g] != {}
    ensures forall g :: g in r ==> r[g] != {}
    ensures forall g :: GramBucket(r, g) == if g in Trigrams(name) then GramBucket(grams, g) + {id} else GramBucket(grams, g)
  {
    r := grams;
    var rest := Trigrams(name);
    while rest != {}
      invariant rest <= Trigrams(name)
      invariant forall g :: g in r ==> r[g] != {}
      invariant forall g :: g in Trigrams(name) && g !in rest ==> GramBucket(r, g) == GramBucket(grams, g) + {id}
      invariant forall g :: g !in Trigrams(name) || g in rest ==> GramBucket(r, g) == GramBucket(grams, g)
      decreases rest
    {
      var g :| g in rest;
      rest := rest - {g};
      r := r[g := GramBucket(r, g) + {id}];
    }
  }

  ghost predicate ListingsOk(concepts: map<nat, Concept>, sorted: set<ConceptKey>, byType: map<string, set<BucketKey>>,
                             grams: map<string, set<nat>>) {
    SortedOk(concepts, sorted) && ByTypeOk(concepts, byType) && TrigramsOk(concepts, grams)
  }

  /** Drop the listing entries of one concept. */
  method Unlist(concepts: map<nat, Concept>, sorted: set<ConceptKey>, byType: map<string, set<BucketKey>>,
                grams: map<string, set<nat>>, id: nat)
    returns (s: set<ConceptKey>, b: map<string, set<BucketKey>>, g: map<string, set<nat>>)
    requires ListingsOk(concepts, sorted, byType, grams) && id in concepts
    ensures ListingsOk(concepts - {id}, s, b, g)
  {
    var c := concepts[id];
    SortedDropOk(concepts, sorted, id);
    ByTypeDropOk(concepts, byType, id);
    s := sorted - {SortKey(c, id)};
    b := BucketDrop(byType, c.ctype, (c.name, id));
    g := DropGrams(grams, c.name, id);
  }

  /** Replace the listing entries of the previous version, if its sort key
      differs, by those of `c`. */
  method Relist(concepts: map<nat, Concept>, sorted: set<ConceptKey>, byType: map<string, set<BucketKey>>,
                grams: map<string, set<nat>>, c: Concept)
    returns (s: set<ConceptKey>, b: map<string, set<BucketKey>>, g: map<string, set<nat>>)
    requires ListingsOk(concepts, sorted, byType, grams)
    ensures ListingsOk(concepts[c.id := c], s, b, g)
  {
    s, b, g := sorted, byType, grams;
    ghost var others := concepts;
    if c.id in concepts && SortKey(concepts[c.id], c.id) != SortKey(c, c.id) {
      s, b, g := Unlist(concepts, sorted, byType, grams, c.id);
      others := concepts - {c.id};
      assert others[c.id := c] == concepts[c.id := c];
    }
    SortedAddOk(others, s, c);
    ByTypeAddOk(others, b, c);
    s := s + {SortKey(c, c.id)};
    b := BucketAdd(b, c.ctype, (c.name, c.id));
    g := AddGrams(g, c.name, c.id);
  }

  /** The single pass of `end_bulk` over the concepts. */
  method BuildListings(concepts: map<nat, Concept>)
    returns (s: set<ConceptKey>, b: map<string, set<BucketKey>>, g: map<string, set<nat>>)
    requires forall id :: id in concepts ==> concepts[id].id == id
    ensures ListingsOk(concepts, s, b, g)
  {
    s, b, g := {}, map[], map[];
    ghost var done: map<nat, Concept> := map[];
    var rest := concepts.Keys;
    while rest != {}
      invariant rest <= concepts.Keys && done.Keys == concepts.Keys - rest
      invariant forall id :: id in done ==> done[id] == concepts[id]
      invariant ListingsOk(done, s, b, g)
      decreases rest
    {
      var id :| id in rest;
      rest := rest - {id};
      var c := concepts[id];
      SortedAddOk(done, s, c);
      ByTypeAddOk(done, b, c);
      s := s + {SortKey(c, id)};
      b := BucketAdd(b, c.ctype, (c.name, id));
      g := AddGrams(g, c.name, id);
      done := done[id := c];
    }
    assert done == concepts;
  }

  // ---------- adjacency ----------

  type Adj = map<nat, seq<nat>>
  type TypedAdj = map<nat, map<string, seq<nat>>>

  function Get(a: Adj, n: nat): seq<nat> { if n in a then a[n] else [] }

  function GetTyped(a: TypedAdj, n: nat, t: string): seq<nat> {
    if n in a && t in a[n] then a[n][t] else []
  }

  /** Each list is the recomputation, in insertion order, except at `but`. */
  ghost predicate AdjOkBut(relations: map<nat, Relation>, order: seq<nat>, a: Adj, outgoing: bool, but: set<nat>) {
    forall n :: n !in but ==> Get(a, n) == Select(relations, order, Sel(outgoing, n, None))
  }

  ghost predicate TypedOkBut(relations: map<nat, Relation>, order: seq<nat>, a: TypedAdj, outgoing: bool, but: set<nat>) {
    forall n, t :: n !in but ==> GetTyped(a, n, t) == Select(relations, order, Sel(outgoing, n, Some(t)))
  }

  function Push(a: Adj, n: nat, id: nat): Adj { a[n := Get(a, n) + [id]] }

  function PushTyped(a: TypedAdj, n: nat, t: string, id: nat): TypedAdj {
    a[n := (if n in a then a[n] else map[])[t := GetTyped(a, n, t) + [id]]]
  }

  function Retain(a: Adj, n: nat, id: nat): Adj {
    if n in a then a[n := Minus(a[n], {id})] else a
  }

  function RetainTyped(a: TypedAdj, n: nat, t: string, id: nat): TypedAdj {
    if n in a && t in a[n] then a[n := a[n][t := Minus(a[n][t], {id})]] else a
  }

  lemma {:induction false} SelectIgnores(relations: map<nat, Relation>, order: seq<nat>, sel: Sel, r: Relation)
    requires r.id !in order
    ensures Select(relations[r.id := r], order, sel) == Select(relations, order, sel)
  {
    if order != [] { SelectIgnores(relations, order[..|order| - 1], sel, r); }
  }

  lemma SelectInsert(relations: map<nat, Relation>, order: seq<nat>, sel: Sel, r: Relation)
    requires r.id !in order
    ensures Select(relations[r.id := r], order + [r.id], sel) ==
      if Matches(r, sel) then Select(relations, order, sel) + [r.id] else Select(relations, order, sel)
  {
    assert (order + [r.id])[..|order|] == order;
    SelectIgnores(relations, order, sel, r);
  }

  /** Removing edges commutes with selecting. */
  lemma {:induction false} SelectMinus(relations: map<nat, Relation>, order: seq<nat>, gone: set<nat>, sel: Sel)
    ensures Select(relations - gone, Minus(order, gone), sel) == Minus(Select(relations, order, sel), gone)
  {
    if order != [] {
      var l := |order| - 1;
      SelectMinus(relations, order[..l], gone, sel);
      var kept := Minus(order[..l], gone);
      MinusAppend(Select(relations, order[..l], sel), order[l], gone);
      if order[l] !in gone {
        assert (kept + [order[l]])[..|kept|] == kept;
      }
    }
  }

  lemma AdjPush(relations: map<nat, Relation>, order: seq<nat>, a: Adj, outgoing: bool, r: Relation)
    requires AdjOkBut(relations, order, a, outgoing, {}) && r.id !in order
    ensures AdjOkBut(relations[r.id := r], order + [r.id], Push(a, if outgoing then r.source else r.target, r.id), outgoing, {})
  {
    forall n ensures Get(Push(a, if outgoing then r.source else r.target, r.id), n) ==
        Select(relations[r.id := r], order + [r.id], Sel(outgoing, n, None)) {
      SelectInsert(relations, order, Sel(outgoing, n, None), r);
    }
  }

  lemma TypedPush(relations: map<nat, Relation>, order: seq<nat>, a: TypedAdj, outgoing: bool, r: Relation)
    requires TypedOkBut(relations, order, a, outgoing, {}) && r.id !in order
    ensures TypedOkBut(relations[r.id := r], order + [r.id],
      PushTyped(a, if outgoing then r.source else r.target, r.rtype, r.id), outgoing, {})
  {
    var k := if outgoing then r.source else r.target;
    forall n, t ensures GetTyped(PushTyped(a, k, r.rtype, r.id), n, t) ==
        Select(relations[r.id := r], order + [r.id], Sel(outgoing, n, Some(t))) {
      PushTypedAt(a, k, r.rtype, r.id, n, t);
      SelectInsert(relations, order, Sel(outgoing, n, Some(t)), r);
    }
  }

  lemma PushTypedAt(a: TypedAdj, n: nat, t: string, id: nat, m: nat, u: string)
    ensures GetTyped(PushTyped(a, n, t, id), m, u) == if m == n && u == t then GetTyped(a, n, t) + [id] else GetTyped(a, m, u)
  {
  }

  lemma RetainTypedAt(a: TypedAdj, n: nat, t: string, id: nat, m: nat, u: string)
    ensures GetTyped(RetainTyped(a, n, t, id), m, u) ==
      if m == n && u == t then Minus(GetTyped(a, n, t), {id}) else GetTyped(a, m, u)
  {
  }

  function EndOf(r: Relation, outgoing: bool): nat { if outgoing then r.source else r.target }

  /** Retaining at node `k` keeps the adjacency when the removed edge hangs
      there, or at a node that is excepted. */
  lemma AdjRetain(relations: map<nat, Relation>, order: seq<nat>, a: Adj, outgoing: bool, id: nat, k: nat, but: set<nat>)
    requires AdjOkBut(relations, order, a, outgoing, but) && id in relations
    requires EndOf(relations[id], outgoing) == k || EndOf(relations[id], outgoing) in but
    ensures AdjOkBut(relations - {id}, Minus(order, {id}), Retain(a, k, id), outgoing, but)
  {
    forall n | n !in but ensures Get(Retain(a, k, id), n) == Select(relations - {id}, Minus(order, {id}), Sel(outgoing, n, None)) {
      SelectMinus(relations, order, {id}, Sel(outgoing, n, None));
      if n != k {
        SelectMembers(relations, order, Sel(outgoing, n, None));
        MinusNothing(Select(relations, order, Sel(outgoing, n, None)), {id});
      }
    }
  }

  lemma TypedRetain(relations: map<nat, Relation>, order: seq<nat>, a: TypedAdj, outgoing: bool, id: nat, k: nat, but: set<nat>)
    requires TypedOkBut(relations, order, a, outgoing, but) && id in relations
    requires EndOf(relations[id], outgoing) == k || EndOf(relations[id], outgoing) in but
    ensures TypedOkBut(relations - {id}, Minus(order, {id}), RetainTyped(a, k, relations[id].rtype, id), outgoing, but)
  {
    var u := relations[id].rtype;
    forall n, t | n !in but
      ensures GetTyped(RetainTyped(a, k, u, id), n, t) == Select(relations - {id}, Minus(order, {id}), Sel(outgoing, n, Some(t)))
    {
      RetainTypedAt(a, k, u, id, n, t);
      SelectMinus(relations, order, {id}, Sel(outgoing, n, Some(t)));
      if n != k || t != u {
        SelectMembers(relations, order, Sel(outgoing, n, Some(t)));
        MinusNothing(Select(relations, order, Sel(outgoing, n, Some(t))), {id});
      }
    }
  }

  lemma DropAdj(relations: map<nat, Relation>, order: seq<nat>, a: Adj, outgoing: bool, id: nat)
    requires AdjOkBut(relations, order, a, outgoing, {})
    ensures AdjOkBut(relations, order, a - {id}, outgoing, {id})
  {
    forall n | n != id ensures Get(a - {id}, n) == Get(a, n) { }
  }

  lemma DropTyped(relations: map<nat, Relation>, order: seq<nat>, a: TypedAdj, outgoing: bool, id: nat)
    requires TypedOkBut(relations, order, a, outgoing, {})
    ensures TypedOkBut(relations, order, a - {id}, outgoing, {id})
  {
    forall n, t | n != id ensures GetTyped(a - {id}, n, t) == GetTyped(a, n, t) { }
  }

  /** A node without edges needs no list. */
  lemma AdjClose(relations: map<nat, Relation>, order: seq<nat>, a: Adj, b: TypedAdj, outgoing: bool, id: nat)
    requires AdjOkBut(relations, order, a, outgoing, {id}) && TypedOkBut(relations, order, b, outgoing, {id})
    requires id !in a && id !in b && forall r :: r in relations ==> !Incident(relations[r], id)
    ensures AdjOkBut(relations, order, a, outgoing, {}) && TypedOkBut(relations, order, b, outgoing, {})
  {
    SelectNothing(relations, order, Sel(outgoing, id, None));
    forall t { SelectNothing(relations, order, Sel(outgoing, id, Some(t))); }
  }

  lemma SelectNothing(relations: map<nat, Relation>, order: seq<nat>, sel: Sel)
    requires forall r :: r in relations ==> !Matches(relations[r], sel)
    ensures Select(relations, order, sel) == []
  {
    SelectMembers(relations, order, sel);
    if Select(relations, order, sel) != [] { var x := SomeMember(Select(relations, order, sel)); }
  }

  lemma SomeMember(s: seq<nat>) returns (x: nat)
    requires s != []
    ensures x in s
  {
    x := s[0];
  }

  /** Rewriting weights and properties moves no edge. */
  lemma {:induction false} SelectReweighted(relations: map<nat, Relation>, order: seq<nat>, sel: Sel, id: nat, weight: int, properties: Props)
    requires id in relations
    ensures Select(Reweighted(relations, id, weight, properties), order, sel) == Select(relations, order, sel)
  {
    if order != [] { SelectReweighted(relations, order[..|order| - 1], sel, id, weight, properties); }
  }

  lemma AdjReweighted(relations: map<nat, Relation>, order: seq<nat>, a: Adj, b: TypedAdj, outgoing: bool, id: nat, weight: int, properties: Props)
    requires AdjOkBut(relations, order, a, outgoing, {}) && TypedOkBut(relations, order, b, outgoing, {}) && id in relations
    ensures AdjOkBut(Reweighted(relations, id, weight, properties), order, a, outgoing, {})
    ensures TypedOkBut(Reweighted(relations, id, weight, properties), order, b, outgoing, {})
  {
    forall n { SelectReweighted(relations, order, Sel(outgoing, n, None), id, weight, properties); }
    forall n, t { SelectReweighted(relations, order, Sel(outgoing, n, Some(t)), id, weight, properties); }
  }
}
