/** What the operations on the primary state do, field by field: what is there
    afterwards, and that nothing else moved (crates/graph/src/graph.rs). */
module OperationLaws {
  import opened Collections
  import opened Text
  import opened OntologySchema
  import opened GraphState
  import opened StateLaws
  import opened BatchLaws
  import opened UpsertLaws
  import opened AbsorbLaws

  // ---------- concepts ----------

  /** Another concept than `but` has this type and, case aside, this name. */
  predicate NameTaken(st: State, ctype: string, name: string, but: nat) {
    exists i :: i in st.concepts && i != but && st.concepts[i].ctype == ctype && Lower(st.concepts[i].name) == Lower(name)
  }

  /** The type is declared, knows every property, misses none that it requires,
      and no concept of a disjoint type has the name. */
  predicate ContentsAllowed(st: State, c: Concept) {
    && c.ctype in st.schema.conceptTypes
    && var ct := st.schema.conceptTypes[c.ctype];
       && (ct.properties.Some? ==> forall k :: k in c.properties ==> k in ct.properties.value)
       && (forall k :: k in ct.required ==> k in c.properties)
       && (forall i :: i in st.concepts && st.concepts[i].ctype in ct.disjointWith ==> Lower(st.concepts[i].name) != Lower(c.name))
  }

  lemma AllowedExactly(st: State, c: Concept)
    requires WellFormed(st)
    ensures SchemaAllows(st, c).Ok? <==> ContentsAllowed(st, c)
  {
    if c.ctype in st.schema.conceptTypes {
      var ct := st.schema.conceptTypes[c.ctype];
      forall i | i in st.concepts && st.concepts[i].ctype in ct.disjointWith && Lower(st.concepts[i].name) == Lower(c.name)
        ensures Find(st, (st.concepts[i].ctype, Lower(c.name))).Some?
      {
        FindUnique(st, KeyOf(st.concepts[i]), i);
      }
      if o :| o in ct.disjointWith && Find(st, (o, Lower(c.name))).Some? {
        var i := Find(st, (o, Lower(c.name))).value;
        assert NamedBy(st.concepts, (o, Lower(c.name)), i);
      }
    }
  }

  lemma TakenExactly(st: State, c: Concept, but: nat)
    requires WellFormed(st)
    ensures NameTaken(st, c.ctype, c.name, but) <==> Find(st, KeyOf(c)).Some? && Find(st, KeyOf(c)).value != but
  {
    if i :| i in st.concepts && i != but && st.concepts[i].ctype == c.ctype && Lower(st.concepts[i].name) == Lower(c.name) {
      FindUnique(st, KeyOf(c), i);
    }
    if Find(st, KeyOf(c)).Some? { assert NamedBy(st.concepts, KeyOf(c), Find(st, KeyOf(c)).value); }
  }

  /** Only the concept `id` is different, and it is `c` now. */
  ghost predicate OnlyConcept(a: State, b: State, id: nat, c: Concept) {
    && b.relations == a.relations && b.order == a.order && b.schema == a.schema
    && id in b.concepts && b.concepts[id] == c
    && (forall i :: i in b.concepts <==> i in a.concepts || i == id)
    && (forall i :: i in a.concepts && i != id ==> b.concepts[i] == a.concepts[i])
  }

  /** An upsert is refused exactly for its contents, its name, a change of type
      or an id out of range; accepted, the record is there under its id, or a new
      one. */
  lemma UpsertedExactly(st: State, c: Concept)
    requires WellFormed(st)
    ensures var (next, r) := UpsertConcept(st, c);
      && (r.Ok? <==>
           && ContentsAllowed(st, c) && !NameTaken(st, c.ctype, c.name, c.id)
           && (c.id in st.concepts ==> st.concepts[c.id].ctype == c.ctype)
           && (if c.id == 0 then st.nextConcept else c.id) <= 4294967295)
      && (r.Ok? ==>
           && (if c.id == 0 then r.value !in st.concepts else r.value == c.id)
           && OnlyConcept(st, next, r.value, Concept(r.value, c.ctype, c.name, c.description, c.properties)))
      && (r.Err? ==> next.(nextConcept := st.nextConcept) == st)
  {
    hide SchemaAllows;
    AllowedExactly(st, c);
    TakenExactly(st, c, c.id);
  }

  /** What an update leaves of a concept: each field is the patch's if the patch
      has it, and the concept's otherwise. */
  function Revised(c: Concept, p: ConceptPatch): Concept {
    match p
    case ConceptPatch(name, description, properties) =>
      Concept(c.id, c.ctype,
              match name case Some(n) => n case None => c.name,
              match description case Some(d) => d case None => c.description,
              match properties case Some(m) => m case None => c.properties)
  }

  /** An update is refused exactly for an unknown concept, a name given that is
      taken, or contents the schema does not allow. */
  lemma UpdatedExactly(st: State, id: nat, p: ConceptPatch)
    requires WellFormed(st)
    ensures var (next, r) := UpdateConcept(st, id, p);
      && (r.Ok? <==>
           && id in st.concepts && ContentsAllowed(st, Revised(st.concepts[id], p))
           && (p.name.Some? ==> !NameTaken(st, st.concepts[id].ctype, p.name.value, id)))
      && (r.Ok? ==> OnlyConcept(st, next, id, Revised(st.concepts[id], p)) && next.nextConcept == st.nextConcept)
      && (r.Err? ==> next == st)
  {
    hide SchemaAllows;
    if id in st.concepts {
      var c := Revised(st.concepts[id], p);
      assert c == Patched(st.concepts[id], p) && c.id == id;
      AllowedExactly(st, c);
      TakenExactly(st, c, id);
    }
  }

  /** A removal takes the concept and every edge at it, and nothing else; the
      edges left keep their order. */
  lemma RemovedExactly(st: State, id: nat)
    requires WellFormed(st)
    ensures var (next, r) := RemoveConcept(st, id);
      && (r.Ok? <==> id in st.concepts) && next.schema == st.schema
      && (forall i :: i in next.concepts <==> i in st.concepts && i != id)
      && (forall i :: i in next.concepts ==> next.concepts[i] == st.concepts[i])
      && (forall e :: e in next.relations <==> e in st.relations && st.relations[e].source != id && st.relations[e].target != id)
      && (forall e :: e in next.relations ==> next.relations[e] == st.relations[e])
      && (r.Ok? ==> forall e :: e in r.value <==> e in st.relations && (st.relations[e].source == id || st.relations[e].target == id))
  {
    if id in st.concepts {
      assert StrictOrder(NatLt);
      AscendingMembers(NatLt, IncidentSet(st.relations, id));
    } else {
      forall e | e in st.relations ensures st.relations[e].source != id && st.relations[e].target != id { }
    }
  }

  // ---------- relations ----------

  /** The state with one more edge, and with it the same edge from the other end. */
  predicate OneEdgeMore(a: State, b: State, rel: Relation, id: nat) {
    && id > 0 && id !in a.relations && b.order == a.order + [id] && b.concepts == a.concepts && b.schema == a.schema
    && b.relations == a.relations[id := Relation(id, rel.rtype, rel.source, rel.target, rel.weight, rel.properties)]
  }

  /** An accepted edge is there under its id, or a new one if that is zero or
      taken; then, when its type is symmetric and its ends differ, one edge the
      other way round that says the same; and nothing else. */
  lemma RelatedExactly(st: State, rel: Relation)
    requires WellFormed(st)
    ensures var (next, r) := AddRelation(st, rel);
      && (r.Ok? <==> Permitted(st, rel)) && (r.Err? ==> next == st)
      && (r.Ok? && rel.id != 0 && rel.id !in st.relations ==> r.value == rel.id)
      && (r.Ok? && !(st.schema.relationTypes[rel.rtype].symmetric && rel.source != rel.target) ==> OneEdgeMore(st, next, rel, r.value))
      && (r.Ok? && st.schema.relationTypes[rel.rtype].symmetric && rel.source != rel.target ==>
           exists mid: State, twin :: OneEdgeMore(st, mid, rel, r.value) && twin != r.value
             && OneEdgeMore(mid, next, Relation(0, rel.rtype, rel.target, rel.source, rel.weight, rel.properties), twin))
  {
    hide Refusal, Permitted;
    RefusedExactly(st, rel);
    var (st1, p) := PrepareRelation(st, rel);
    if p.Ok? {
      assert Permitted(st, rel);
      PreparedEdge(st, rel);
      var mid := Linked(st1, p.value);
      assert OneEdgeMore(st, mid, rel, p.value.id);
      if st.schema.relationTypes[rel.rtype].symmetric && rel.source != rel.target {
        assert OneEdgeMore(mid, ApplyRelation(st1, p.value).0, Relation(0, rel.rtype, rel.target, rel.source, rel.weight, rel.properties), mid.nextRelation);
      }
    }
  }

  lemma PreparedEdge(st: State, rel: Relation)
    requires WellFormed(st) && PrepareRelation(st, rel).1.Ok?
    ensures var (next, p) := PrepareRelation(st, rel);
      && rel.rtype in st.schema.relationTypes && p.value == rel.(id := p.value.id) && next == st.(nextRelation := next.nextRelation)
      && p.value.id > 0 && p.value.id !in st.relations && p.value.id < next.nextRelation && st.nextRelation <= next.nextRelation
  {
  }

  predicate RunsAs(r: Relation, rtype: string, source: nat, target: nat) {
    r.rtype == rtype && r.source == source && r.target == target
  }

  /** The edge `e` runs so, and none that was inserted before it does. */
  predicate Oldest(st: State, rtype: string, source: nat, target: nat, e: nat) {
    && e in st.relations && RunsAs(st.relations[e], rtype, source, target)
    && forall k, l :: 0 <= k < l < |st.order| && st.order[l] == e && st.order[k] in st.relations ==>
         !RunsAs(st.relations[st.order[k]], rtype, source, target)
  }

  lemma {:induction false} FirstWithEarliest(relations: map<nat, Relation>, order: seq<nat>, ends: EdgeEnds) returns (l: nat)
    requires FirstWith(relations, order, ends).Some?
    ensures l < |order| && order[l] == FirstWith(relations, order, ends).value
    ensures forall k :: 0 <= k < l && order[k] in relations ==> !RunsAs(relations[order[k]], ends.0, ends.1, ends.2)
  {
    l := |order| - 1;
    if FirstWith(relations, order[..l], ends).Some? {
      l := FirstWithEarliest(relations, order[..l], ends);
    } else {
      forall k | 0 <= k < l && order[k] in relations ensures !RunsAs(relations[order[k]], ends.0, ends.1, ends.2) {
        NoneWith(relations, order[..l], ends, k);
      }
    }
  }

  lemma {:induction false} NoneWith(relations: map<nat, Relation>, order: seq<nat>, ends: EdgeEnds, k: nat)
    requires FirstWith(relations, order, ends).None? && k < |order| && order[k] in relations
    ensures !RunsAs(relations[order[k]], ends.0, ends.1, ends.2)
  {
    if k < |order| - 1 { NoneWith(relations, order[..|order| - 1], ends, k); }
  }

  lemma OnlyOldest(st: State, rtype: string, source: nat, target: nat, e: nat, l: nat)
    requires WellFormed(st) && l < |st.order| && st.order[l] in st.relations
    requires RunsAs(st.relations[st.order[l]], rtype, source, target)
    requires forall k :: 0 <= k < l && st.order[k] in st.relations ==> !RunsAs(st.relations[st.order[k]], rtype, source, target)
    ensures Oldest(st, rtype, source, target, e) <==> e == st.order[l]
  {
    hide RunsAs;
    if e in st.relations && e != st.order[l] {
      var k :| 0 <= k < |st.order| && st.order[k] == e;
      assert !Oldest(st, rtype, source, target, e) by {
        if k < l { assert !RunsAs(st.relations[st.order[k]], rtype, source, target); } else { assert l < k; }
      }
    }
  }

  lemma NoneRuns(st: State, rtype: string, source: nat, target: nat, x: nat)
    requires WellFormed(st) && FirstWith(st.relations, st.order, (rtype, source, target)).None? && x in st.relations
    ensures !RunsAs(st.relations[x], rtype, source, target)
  {
    var k :| 0 <= k < |st.order| && st.order[k] == x;
    NoneWith(st.relations, st.order, (rtype, source, target), k);
  }

  /** `relation_between` answers with the oldest edge that runs so, and with
      nothing exactly when there is none. */
  lemma BetweenExactly(st: State, source: nat, target: nat, rtype: string, e: nat)
    requires WellFormed(st)
    ensures Between(st, source, target, rtype) == Some(e) <==> Oldest(st, rtype, source, target, e)
    ensures Between(st, source, target, rtype).None? <==>
      forall x :: x in st.relations ==> !RunsAs(st.relations[x], rtype, source, target)
  {
    hide RunsAs, Oldest, FirstWith;
    var ends := (rtype, source, target);
    BetweenIsFirst(st.relations, st.order, ends);
    FoundRuns(st.relations, st.order, ends);
    if FirstWith(st.relations, st.order, ends).Some? {
      var l := FirstWithEarliest(st.relations, st.order, ends);
      OnlyOldest(st, rtype, source, target, e, l);
    } else {
      forall x | x in st.relations ensures !RunsAs(st.relations[x], rtype, source, target) { NoneRuns(st, rtype, source, target, x); }
      assert Oldest(st, rtype, source, target, e) ==> e in st.relations && RunsAs(st.relations[e], rtype, source, target) by {
        OldestRuns(st, rtype, source, target, e);
      }
    }
  }

  lemma OldestRuns(st: State, rtype: string, source: nat, target: nat, e: nat)
    ensures Oldest(st, rtype, source, target, e) ==> e in st.relations && RunsAs(st.relations[e], rtype, source, target)
  {
  }

  lemma {:induction false} FoundRuns(relations: map<nat, Relation>, order: seq<nat>, ends: EdgeEnds)
    ensures FirstWith(relations, order, ends).Some? ==>
      var e := FirstWith(relations, order, ends).value; e in relations && RunsAs(relations[e], ends.0, ends.1, ends.2)
  {
    if order != [] { FoundRuns(relations, order[..|order| - 1], ends); }
  }

  /** Edge `e` is the other side of the symmetric edge `id`. */
  predicate OtherSide(st: State, id: nat, e: nat)
    requires id in st.relations
  {
    var r := st.relations[id];
    && r.rtype in st.schema.relationTypes && st.schema.relationTypes[r.rtype].symmetric && r.source != r.target
    && Oldest(st, r.rtype, r.target, r.source, e)
  }

  lemma MirrorExactly(st: State, u: Relation, e: nat)
    requires WellFormed(st) && u.id in st.relations
    ensures var st1 := WithWeight(st, u.id, u.weight, u.properties);
      MirrorOf(st1, st1.relations[u.id]) == Some(e) <==> OtherSide(st, u.id, e)
  {
    var was := st.relations[u.id];
    var st1 := WithWeight(st, u.id, u.weight, u.properties);
    var ends := (was.rtype, was.target, was.source);
    BetweenIsFirst(st.relations, st.order, ends);
    BetweenIsFirst(st1.relations, st1.order, ends);
    FirstSame(st.relations, st1.relations, st.order, ends);
    BetweenExactly(st, was.target, was.source, was.rtype, e);
  }

  /** An update gives its weight and properties to the edge it names and to the
      other side of that edge; nothing else moves. */
  lemma ReweightedExactly(st: State, u: Relation, e: nat)
    requires WellFormed(st) && e in st.relations
    ensures var (next, r) := ApplyRelationUpdate(st, u);
      && (r.Ok? <==> u.id in st.relations)
      && next == st.(relations := next.relations) && next.relations.Keys == st.relations.Keys
      && next.relations[e] ==
           (if u.id in st.relations && (e == u.id || OtherSide(st, u.id, e))
            then st.relations[e].(weight := u.weight, properties := u.properties) else st.relations[e])
  {
    hide OtherSide, WellFormed, MirrorOf;
    if u.id in st.relations {
      MirrorExactly(st, u, e);
      var st1 := WithWeight(st, u.id, u.weight, u.properties);
      var mirror := MirrorOf(st1, st1.relations[u.id]);
      if mirror.Some? { MirrorIsThere(st1, st1.relations[u.id]); }
    }
  }

  lemma MirrorIsThere(st: State, rel: Relation)
    requires MirrorOf(st, rel).Some?
    ensures MirrorOf(st, rel).value in st.relations
  {
  }

  /** An update by patch: what the patch leaves out stays as the named edge has
      it, for the other side of that edge too. */
  lemma RepatchedExactly(st: State, id: nat, p: RelationPatch, e: nat)
    requires WellFormed(st) && e in st.relations
    ensures var (next, r) := UpdateRelation(st, id, p);
      && (r.Ok? <==> id in st.relations) && next == st.(relations := next.relations) && next.relations.Keys == st.relations.Keys
      && next.relations[e] ==
           (if id in st.relations && (e == id || OtherSide(st, id, e))
            then st.relations[e].(weight := match p.weight case Some(w) => w case None => st.relations[id].weight,
                                  properties := match p.properties case Some(m) => m case None => st.relations[id].properties)
            else st.relations[e])
  {
    hide OtherSide, ApplyRelationUpdate;
    if id in st.relations { ReweightedExactly(st, PreviewRelationUpdate(st, id, p).value, e); }
  }

  /** An edge inserted as it is: refused exactly for the id zero, an id that is
      taken, or a missing end; no inverse comes with it. */
  lemma InsertedExactly(st: State, rel: Relation)
    requires WellFormed(st)
    ensures var (next, r) := InsertExact(st, rel);
      && (r.Ok? <==> rel.id != 0 && rel.id !in st.relations && rel.source in st.concepts && rel.target in st.concepts)
      && (r.Ok? ==> OneEdgeMore(st, next, rel, rel.id) && next.nextRelation > rel.id)
      && (r.Err? ==> next == st)
  {
  }

  lemma UnrelatedExactly(st: State, id: nat)
    requires WellFormed(st)
    ensures var (next, r) := RemoveRelation(st, id);
      && (r.Ok? <==> id in st.relations) && next == st.(relations := next.relations, order := next.order)
      && (forall e :: e in next.relations <==> e in st.relations && e != id)
      && (forall e :: e in next.relations ==> next.relations[e] == st.relations[e])
      && (forall e :: e in next.order <==> e in next.relations)
  {
    if id in st.relations { MinusMembers(st.order, {id}); }
  }

  // ---------- the schema ----------

  /** What has instances neither moves to another domain nor changes its ends
      nor disappears. */
  predicate InstancesKept(st: State, candidate: Schema) {
    && (forall id :: id in st.concepts && st.concepts[id].ctype in st.schema.conceptTypes ==>
          st.concepts[id].ctype in candidate.conceptTypes)
    && (forall id :: id in st.relations && st.relations[id].rtype in st.schema.relationTypes ==>
          var t := st.relations[id].rtype;
          && t in candidate.relationTypes && candidate.relationTypes[t].domain == st.schema.relationTypes[t].domain
          && candidate.relationTypes[t].range == st.schema.relationTypes[t].range)
  }

  ghost predicate DomainsKept(st: State, candidate: Schema) {
    forall id :: id in st.concepts && st.concepts[id].ctype in st.schema.conceptTypes ==>
      NsOf(candidate, st.concepts[id].ctype) == NsOf(st.schema, st.concepts[id].ctype)
  }

  /** A schema is accepted exactly when it is sound itself and keeps what has
      instances; what has none may change at will. */
  lemma AcceptedExactly(st: State, candidate: Schema)
    ensures AcceptsSchema(st, candidate) <==>
      Acyclic(candidate) && NamespacesOk(candidate) && InstancesKept(st, candidate) && DomainsKept(st, candidate)
  {
    if AcceptsSchema(st, candidate) {
      forall id | id in st.concepts && st.concepts[id].ctype in st.schema.conceptTypes
        ensures st.concepts[id].ctype in candidate.conceptTypes
        ensures NsOf(candidate, st.concepts[id].ctype) == NsOf(st.schema, st.concepts[id].ctype)
      {
        assert TypeKept(st, candidate, st.concepts[id].ctype);
      }
      forall id | id in st.relations && st.relations[id].rtype in st.schema.relationTypes
        ensures var t := st.relations[id].rtype;
          && t in candidate.relationTypes && candidate.relationTypes[t].domain == st.schema.relationTypes[t].domain
          && candidate.relationTypes[t].range == st.schema.relationTypes[t].range
      {
        assert RelationTypeKept(st, candidate, st.relations[id].rtype);
      }
    }
  }
}
