/** The indexed engine (crates/graph/src/graph.rs): every public mutation does
    to the primary state exactly what `GraphState` says, while all indexes are
    kept equal to their recomputation. In bulk mode the derived indexes are
    left alone and `EndBulk` rebuilds them. */
module Engine {
  import opened Collections
  import opened Text
  import opened Errors
  import opened OntologySchema
  import opened GraphState
  import opened Indexes
  import opened StateLaws
  import opened Consistency

  class OntologyGraph {
    /** Schema, primary maps and id counters. */
    var st: State
    /** Name index, adjacency, ordered and bucketed listings, trigrams. */
    var ix: Index
    var bulk: bool

    ghost predicate Valid()
      reads this
    {
      Consistent(st, ix, bulk)
    }

    constructor (initial: Schema)
      requires WellKeyed(initial)
      ensures Valid() && st == Empty(initial) && !bulk
    {
      st, ix, bulk := Empty(initial), NO_INDEX, false;
      new;
      EmptyConsistent(initial, false);
    }

    // ---------- concepts ----------

    method FindByName(ctype: string, name: string) returns (r: Option<nat>)
      requires Valid()
      ensures r == Find(st, (ctype, Lower(name)))
    {
      LookupIsFind(st, ix.names, (ctype, Lower(name)));
      r := Lookup(ix.names, (ctype, Lower(name)));
    }

    method ValidateConceptSchema(c: Concept) returns (r: Result<()>)
      requires Valid()
      ensures r == SchemaAllows(st, c)
    {
      if c.ctype !in st.schema.conceptTypes { return Err(UnknownConceptType(c.ctype)); }
      var ct := st.schema.conceptTypes[c.ctype];
      if ct.properties.Some? && exists k :: k in c.properties && k !in ct.properties.value {
        return Err(InvalidProperty(c.ctype));
      }
      if exists k :: k in ct.required && k !in c.properties { return Err(MissingRequiredProperty(c.ctype)); }
      var lname := Lower(c.name);
      forall o { LookupIsFind(st, ix.names, (o, lname)); }
      if exists o :: o in ct.disjointWith && (o, lname) in ix.names { return Err(DisjointTypeViolation(c.ctype)); }
      return Ok(());
    }

    method PrepareConcept(c: Concept) returns (r: Result<Concept>)
      requires Valid()
      modifies this`st
      ensures Valid()
      ensures (st, r) == GraphState.PrepareConcept(old(st), c)
    {
      var allowed := ValidateConceptSchema(c);
      if allowed.Err? { return Err(allowed.error); }
      var key := KeyOf(c);
      LookupIsFind(st, ix.names, key);
      if key in ix.names && (c.id == 0 || ix.names[key] != c.id) { return Err(DuplicateConcept(c.name, c.ctype)); }
      if c.id == 0 {
        var id := st.nextConcept;
        st := st.(nextConcept := id + 1);
        if id > MAX_CONCEPT_ID { return Err(ConceptIdOutOfRange(id)); }
        return Ok(c.(id := id));
      }
      if c.id in st.concepts && st.concepts[c.id].ctype != c.ctype {
        return Err(ImmutableConceptType(st.concepts[c.id].ctype, c.ctype));
      }
      if c.id > MAX_CONCEPT_ID { return Err(ConceptIdOutOfRange(c.id)); }
      st := st.(nextConcept := Raised(st.nextConcept, c.id));
      return Ok(c);
    }

    method ApplyPreparedConcept(c: Concept) returns (r: Result<nat>)
      requires Valid()
      modifies this`st, this`ix
      ensures Valid()
      ensures (st, r) == ApplyConcept(old(st), c)
    {
      if c.id == 0 { return Err(NotPrepared); }
      var key := KeyOf(c);
      LookupIsFind(st, ix.names, key);
      if key in ix.names && ix.names[key] != c.id { return Err(DuplicateConcept(c.name, c.ctype)); }
      if c.id in st.concepts && st.concepts[c.id].ctype != c.ctype {
        return Err(ImmutableConceptType(st.concepts[c.id].ctype, c.ctype));
      }
      var sorted, byType, grams := ix.sorted, ix.byType, ix.grams;
      if !bulk { sorted, byType, grams := Relist(st.concepts, sorted, byType, grams, c); }
      InstallConsistent(st, ix, bulk, c, sorted, byType, grams);
      ix := ix.(names := Rebound(ix.names, st.concepts, c), sorted := sorted, byType := byType, grams := grams);
      st := st.(concepts := st.concepts[c.id := c], nextConcept := Raised(st.nextConcept, c.id));
      return Ok(c.id);
    }

    method UpsertConcept(c: Concept) returns (r: Result<nat>)
      requires Valid()
      modifies this`st, this`ix
      ensures Valid()
      ensures (st, r) == GraphState.UpsertConcept(old(st), c)
    {
      var p := PrepareConcept(c);
      if p.Err? { return Err(p.error); }
      r := ApplyPreparedConcept(p.value);
    }

    method PreviewConceptUpdate(id: nat, patch: ConceptPatch) returns (r: Result<Concept>)
      requires Valid()
      ensures r == PreviewUpdate(st, id, patch)
    {
      if id !in st.concepts { return Err(UnknownConcept(id)); }
      var c := Patched(st.concepts[id], patch);
      var key := KeyOf(c);
      LookupIsFind(st, ix.names, key);
      if patch.name.Some? && key in ix.names && ix.names[key] != id { return Err(DuplicateConcept(c.name, c.ctype)); }
      var allowed := ValidateConceptSchema(c);
      if allowed.Err? { return Err(allowed.error); }
      return Ok(c);
    }

    method ApplyConceptUpdate(c: Concept) returns (r: Result<Concept>)
      requires Valid()
      modifies this`st, this`ix
      ensures Valid()
      ensures (st, r) == ApplyUpdate(old(st), c)
    {
      if c.id !in st.concepts { return Err(UnknownConcept(c.id)); }
      var prev := st.concepts[c.id];
      if prev.ctype != c.ctype { return Err(ImmutableConceptType(prev.ctype, c.ctype)); }
      var key := KeyOf(c);
      LookupIsFind(st, ix.names, key);
      OwnKeyFree(st, c.id);
      if prev.name != c.name {
        if KeyOf(prev) != key && key in ix.names && ix.names[key] != c.id {
          return Err(DuplicateConcept(c.name, c.ctype));
        }
        var sorted, byType, grams := ix.sorted, ix.byType, ix.grams;
        if !bulk { sorted, byType, grams := Relist(st.concepts, sorted, byType, grams, c); }
        InstallConsistent(st, ix, bulk, c, sorted, byType, grams);
        ix := ix.(names := Rebound(ix.names, st.concepts, c), sorted := sorted, byType := byType, grams := grams);
      } else {
        SameNameConsistent(st, ix, bulk, c);
      }
      st := st.(concepts := st.concepts[c.id := c]);
      return Ok(c);
    }

    method UpdateConcept(id: nat, patch: ConceptPatch) returns (r: Result<Concept>)
      requires Valid()
      modifies this`st, this`ix
      ensures Valid()
      ensures (st, r) == GraphState.UpdateConcept(old(st), id, patch)
    {
      var p := PreviewConceptUpdate(id, patch);
      if p.Err? { return Err(p.error); }
      r := ApplyConceptUpdate(p.value);
    }

    // ---------- removal ----------

    /** The ids around a concept: the cascade its removal would perform. */
    method IncidentRelationIds(id: nat) returns (r: Result<seq<nat>>)
      requires Valid()
      ensures r == if id in st.concepts then Ok(IncidentIds(st, id)) else Err(UnknownConcept(id))
    {
      if id !in st.concepts { return Err(UnknownConcept(id)); }
      IncidentByAdjacency(st, ix, bulk, id);
      NatOrder();
      var sorted := InOrder(NatLt, Elems(Get(ix.outAdj, id) + Get(ix.inAdj, id)));
      return Ok(sorted);
    }

    method RemoveConcept(id: nat) returns (r: Result<seq<nat>>)
      requires Valid()
      modifies this`st, this`ix
      ensures Valid()
      ensures (st, r) == GraphState.RemoveConcept(old(st), id)
    {
      var cascade := IncidentRelationIds(id);
      if cascade.Err? { return Err(cascade.error); }
      var removed := cascade.value;
      IncidentIdsExact(st, id);
      var c := st.concepts[id];
      var dropped := DropLists(ix, id).(names := ix.names - {KeyOf(c)});
      if !bulk {
        var sorted, byType, grams := Unlist(st.concepts, ix.sorted, ix.byType, ix.grams, id);
        dropped := dropped.(sorted := sorted, byType := byType, grams := grams);
      }
      CascadeStarts(st, ix, bulk, id);
      var relations, order, after := Cascade(st, id, removed, dropped, bulk);
      CascadeEnds(st, ix, bulk, id, after);
      st := st.(concepts := st.concepts - {id}, relations := relations, order := order);
      ix := after;
      return Ok(removed);
    }

    // ---------- relations ----------

    /** Cardinality, answered by the typed adjacency. */
    method LimitsRefuse(rel: Relation, rt: RelationType) returns (r: Option<GraphError>)
      requires Valid()
      ensures r == if rt.LimitsOut() && HasOut(st, rel.source, rel.rtype) then Some(CardinalityViolation(rel.rtype, rel.source))
        else if rt.LimitsIn() && HasIn(st, rel.target, rel.rtype) then Some(CardinalityViolation(rel.rtype, rel.target)) else None
    {
      DegreeByAdjacency(st, ix, bulk, rel.source, rel.rtype);
      DegreeByAdjacency(st, ix, bulk, rel.target, rel.rtype);
      if rt.LimitsOut() && GetTyped(ix.outTyped, rel.source, rel.rtype) != [] {
        return Some(CardinalityViolation(rel.rtype, rel.source));
      }
      if rt.LimitsIn() && GetTyped(ix.inTyped, rel.target, rel.rtype) != [] {
        return Some(CardinalityViolation(rel.rtype, rel.target));
      }
      return None;
    }

    method CheckRelation(rel: Relation) returns (r: Option<GraphError>)
      requires Valid()
      ensures r == Refusal(st, rel)
    {
      if rel.source !in st.concepts { return Some(UnknownConcept(rel.source)); }
      if rel.target !in st.concepts { return Some(UnknownConcept(rel.target)); }
      var edge := ValidateEdge(st.schema, rel.rtype, st.concepts[rel.source].ctype, st.concepts[rel.target].ctype);
      if edge.Err? { return Some(edge.error); }
      if rel.source > MAX_CONCEPT_ID { return Some(ConceptIdOutOfRange(rel.source)); }
      if rel.target > MAX_CONCEPT_ID { return Some(ConceptIdOutOfRange(rel.target)); }
      r := LimitsRefuse(rel, st.schema.relationTypes[rel.rtype]);
    }

    method PrepareRelation(rel: Relation) returns (r: Result<Relation>)
      requires Valid()
      modifies this`st
      ensures Valid()
      ensures (st, r) == GraphState.PrepareRelation(old(st), rel)
    {
      hide Consistent, WellFormed;
      PreparedRelationConsistent(st, ix, bulk, rel);
      var refusal := CheckRelation(rel);
      if refusal.Some? { return Err(refusal.value); }
      if rel.id == 0 || rel.id in st.relations {
        r := Ok(rel.(id := st.nextRelation));
        st := st.(nextRelation := st.nextRelation + 1);
      } else {
        r := Ok(rel);
        st := st.(nextRelation := Raised(st.nextRelation, rel.id));
      }
    }

    /** Push one edge to the primary map and the adjacency lists. */
    method Link(rel: Relation)
      requires Valid() && rel.id > 0 && rel.id !in st.relations && rel.source in st.concepts && rel.target in st.concepts
      modifies this`st, this`ix
      ensures Valid() && st == Linked(old(st), rel)
    {
      hide Consistent, LinkIndex;
      var relSorted := if bulk then ix.relSorted else ix.relSorted + {rel.id};
      LinkConsistent(st, ix, bulk, rel, relSorted);
      ix := LinkIndex(ix, rel, relSorted);
      st := Linked(st, rel);
    }

    /** The id must be fresh and the endpoints live, as `PrepareRelation` left them. */
    method ApplyPreparedRelation(rel: Relation) returns (r: Result<nat>)
      requires Valid() && rel.id !in st.relations && rel.source in st.concepts && rel.target in st.concepts
      modifies this`st, this`ix
      ensures Valid()
      ensures (st, r) == ApplyRelation(old(st), rel)
    {
      if rel.id == 0 { return Err(NotPrepared); }
      if rel.rtype !in st.schema.relationTypes { return Err(UnknownRelationType(rel.rtype)); }
      var symmetric := st.schema.relationTypes[rel.rtype].symmetric;
      Link(rel);
      if symmetric && rel.source != rel.target {
        Link(Inverse(rel, st.nextRelation));
      }
      return Ok(rel.id);
    }

    method AddRelation(rel: Relation) returns (r: Result<nat>)
      requires Valid()
      modifies this`st, this`ix
      ensures Valid()
      ensures (st, r) == GraphState.AddRelation(old(st), rel)
    {
      PreparedFresh(st, rel);
      var p := PrepareRelation(rel);
      if p.Err? { return Err(p.error); }
      r := ApplyPreparedRelation(p.value);
    }

    method InsertRelationExact(rel: Relation) returns (r: Result<nat>)
      requires Valid()
      modifies this`st, this`ix
      ensures Valid()
      ensures (st, r) == InsertExact(old(st), rel)
    {
      if rel.id == 0 { return Err(NotPrepared); }
      if rel.source !in st.concepts { return Err(UnknownConcept(rel.source)); }
      if rel.target !in st.concepts { return Err(UnknownConcept(rel.target)); }
      if rel.id in st.relations { return Err(RelationExists(rel.id)); }
      Link(rel);
      return Ok(rel.id);
    }

    method RemoveRelation(id: nat) returns (r: Result<()>)
      requires Valid()
      modifies this`st, this`ix
      ensures Valid()
      ensures (st, r) == GraphState.RemoveRelation(old(st), id)
    {
      if id !in st.relations { return Err(UnknownRelation(id)); }
      var rel := st.relations[id];
      var relSorted := if bulk then ix.relSorted else ix.relSorted - {id};
      UnlinkConsistent(st, ix, bulk, id, relSorted);
      ix := ScrubIndex(ix, id, rel.rtype, rel.source, rel.target).(relSorted := relSorted);
      st := st.(relations := st.relations - {id}, order := Minus(st.order, {id}));
      return Ok(());
    }

    method RelationBetween(source: nat, target: nat, rtype: string) returns (r: Option<nat>)
      requires Valid()
      ensures r == Between(st, source, target, rtype)
    {
      BetweenByAdjacency(st, ix, bulk, source, target, rtype);
      r := FirstTo(st.relations, GetTyped(ix.outTyped, source, rtype), target);
    }

    method FindMirror(rel: Relation) returns (r: Option<nat>)
      requires Valid()
      ensures r == MirrorOf(st, rel)
    {
      var symmetric := rel.rtype in st.schema.relationTypes && st.schema.relationTypes[rel.rtype].symmetric;
      if !symmetric || rel.source == rel.target { return None; }
      r := RelationBetween(rel.target, rel.source, rel.rtype);
      if r.Some? && r.value == rel.id { r := None; }
    }

    method SetWeight(id: nat, weight: int, properties: Props)
      requires Valid() && id in st.relations
      modifies this`st
      ensures Valid() && st == WithWeight(old(st), id, weight, properties)
    {
      hide Consistent;
      ReweightConsistent(st, ix, bulk, id, weight, properties);
      st := WithWeight(st, id, weight, properties);
    }

    method ApplyRelationUpdate(updated: Relation) returns (r: Result<Relation>)
      requires Valid()
      modifies this`st
      ensures Valid()
      ensures (st, r) == GraphState.ApplyRelationUpdate(old(st), updated)
    {
      if updated.id !in st.relations { return Err(UnknownRelation(updated.id)); }
      SetWeight(updated.id, updated.weight, updated.properties);
      var snapshot := st.relations[updated.id];
      var mirror := FindMirror(snapshot);
      if mirror.Some? { SetWeight(mirror.value, snapshot.weight, snapshot.properties); }
      return Ok(snapshot);
    }

    method UpdateRelation(id: nat, patch: RelationPatch) returns (r: Result<Relation>)
      requires Valid()
      modifies this`st
      ensures Valid()
      ensures (st, r) == GraphState.UpdateRelation(old(st), id, patch)
    {
      var p := PreviewRelationUpdate(st, id, patch);
      if p.Err? { return Err(p.error); }
      r := ApplyRelationUpdate(p.value);
    }

    /** `outgoing_typed` and `incoming_typed`, virtual edges included. */
    method TypedNeighbours(outgoing: bool, node: nat, types: seq<string>) returns (r: seq<Relation>)
      requires Valid()
      ensures r == AllTypedEdges(st, outgoing, node, types)
      ensures forall v :: v in r <==> exists id, t :: t in types && AppearsAs(st, outgoing, node, t, id, v)
    {
      r := [];
      for i := 0 to |types|
        invariant r == AllTypedEdges(st, outgoing, node, types[..i])
      {
        var t := types[i];
        assert types[..i + 1][..i] == types[..i];
        assert types[..i + 1][i] == t;
        TypedIsSelect(st, ix, bulk, node, t);
        SelectMembers(st.relations, st.order, Sel(outgoing, node, Some(t)));
        var edges := Fetch(st.relations, GetTyped(if outgoing then ix.outTyped else ix.inTyped, node, t));
        var inverse := InverseName(st.schema, t);
        if inverse.Some? {
          TypedIsSelect(st, ix, bulk, node, inverse.value);
          SelectMembers(st.relations, st.order, Sel(!outgoing, node, Some(inverse.value)));
          var back := Fetch(st.relations, GetTyped(if outgoing then ix.inTyped else ix.outTyped, node, inverse.value));
          edges := edges + AsVirtual(back, t);
        }
        r := r + edges;
      }
      assert types[..|types|] == types;
      forall v ensures v in r <==> exists id, t :: t in types && AppearsAs(st, outgoing, node, t, id, v) {
        AllTypedEdgesExactly(st, outgoing, node, types, v);
      }
    }

    /** The ids of one type's bucket in listing order; entries that a bulk load
        left stale are skipped. */
    method IdsOfType(t: string) returns (r: seq<nat>)
      requires Valid()
      ensures forall id :: id in r ==> id in st.concepts
      ensures !bulk ==> NoDup(r) && forall id :: id in r <==> id in st.concepts && st.concepts[id].ctype == t
    {
      BucketOrder();
      var keys := InOrder(BucketLt, Bucket(ix.byType, t));
      r := KeepLive(st.concepts, keys);
      if !bulk {
        SortedNoDup(BucketLt, keys);
        TypeBucketExact(st, ix, t, keys);
      }
    }

    // ---------- schema ----------

    /** Served by the bucket in normal mode, by a scan during a bulk load,
        when the bucket is stale. */
    method HasInstances(t: string) returns (r: bool)
      requires Valid()
      ensures r <==> exists id :: id in st.concepts && st.concepts[id].ctype == t
    {
      if bulk {
        r := exists id :: id in st.concepts && st.concepts[id].ctype == t;
      } else {
        r := Bucket(ix.byType, t) != {};
        BucketAnswers(st, ix, t);
      }
    }

    method CheckOntology(candidate: Schema) returns (r: Result<()>)
      requires Valid()
      ensures r.Ok? <==> AcceptsSchema(st, candidate)
    {
      r := ValidateHierarchy(candidate);
      if r.Err? { return; }
      r := ValidateNamespaces(candidate);
      if r.Err? { return; }
      var rest := st.schema.conceptTypes.Keys;
      while rest != {}
        invariant rest <= st.schema.conceptTypes.Keys
        invariant forall t :: t in st.schema.conceptTypes && t !in rest ==> TypeKept(st, candidate, t)
        decreases rest
      {
        var t :| t in rest;
        rest := rest - {t};
        var used := HasInstances(t);
        if used {
          if t !in candidate.conceptTypes { return Err(TypeInUse(t)); }
          var from := NsOfType(st.schema, t);
          var to := NsOfType(candidate, t);
          if from != to { return Err(NamespaceChangeWithInstances(t)); }
        }
      }
      var types := st.schema.relationTypes.Keys;
      while types != {}
        invariant types <= st.schema.relationTypes.Keys
        invariant forall t :: t in st.schema.relationTypes && t !in types ==> RelationTypeKept(st, candidate, t)
        decreases types
      {
        var t :| t in types;
        types := types - {t};
        var rt := st.schema.relationTypes[t];
        var changed := t !in candidate.relationTypes || candidate.relationTypes[t].domain != rt.domain
          || candidate.relationTypes[t].range != rt.range;
        if changed && exists id :: id in st.relations && st.relations[id].rtype == t {
          return Err(if t in candidate.relationTypes then RelationTypeChangeWithInstances(t) else TypeInUse(t));
        }
      }
      return Ok(());
    }

    method ExtendOntology(candidate: Schema) returns (r: Result<()>)
      requires Valid() && WellKeyed(candidate)
      modifies this`st
      ensures Valid() && st == GraphState.ExtendOntology(old(st), candidate)
      ensures r.Ok? <==> AcceptsSchema(old(st), candidate)
    {
      r := CheckOntology(candidate);
      if r.Ok? { st := st.(schema := candidate); }
    }

    method ClearInstances()
      requires Valid()
      modifies this`st, this`ix
      ensures Valid() && st == Empty(old(st).schema)
    {
      EmptyConsistent(st.schema, bulk);
      st, ix := Empty(st.schema), NO_INDEX;
    }

    // ---------- bulk load ----------

    /** Only the guard that switched the mode on owns the rebuild. */
    method BeginBulk() returns (owner: bool)
      requires Valid()
      modifies this`bulk
      ensures Valid() && bulk && owner == !old(bulk)
    {
      owner := !bulk;
      bulk := true;
    }

    method EndBulk()
      requires Valid()
      modifies this`ix, this`bulk
      ensures Valid() && !bulk
    {
      if !bulk { return; }
      var sorted, byType, grams := BuildListings(st.concepts);
      ix := ix.(sorted := sorted, byType := byType, grams := grams, relSorted := st.relations.Keys);
      bulk := false;
    }

    // ---------- runs ----------

    method Perform(op: Op)
      requires Valid()
      modifies this`st, this`ix
      ensures Valid() && st == Step(old(st), op)
    {
      match op
      case UpsertOp(c) => var _ := UpsertConcept(c);
      case UpdateOp(id, p) => var _ := UpdateConcept(id, p);
      case RemoveConceptOp(id) => var _ := RemoveConcept(id);
      case AddRelationOp(r) => var _ := AddRelation(r);
      case InsertExactOp(r) => var _ := InsertRelationExact(r);
      case UpdateRelationOp(id, p) => var _ := UpdateRelation(id, p);
      case RemoveRelationOp(id) => var _ := RemoveRelation(id);
      case ExtendOp(s) =>
        // A schema is built by the methods of `Ontology`, which key every type by its name.
        if WellKeyedSchema(s) { var _ := ExtendOntology(s); }
      case ClearOp => ClearInstances();
    }

    method PerformAll(ops: seq<Op>)
      requires Valid()
      modifies this`st, this`ix
      ensures Valid() && st == Run(old(st), ops)
    {
      for i := 0 to |ops|
        invariant Valid() && st == Run(old(st), ops[..i])
      {
        assert ops[..i + 1][..i] == ops[..i];
        Perform(ops[i]);
      }
      assert ops[..|ops|] == ops;
    }
  }

  method KeepLive(concepts: map<nat, Concept>, keys: seq<BucketKey>) returns (r: seq<nat>)
    ensures r == LiveIds(concepts, keys) && forall id :: id in r ==> id in concepts
  {
    r := [];
    for i := 0 to |keys|
      invariant r == LiveIds(concepts, keys[..i])
    {
      assert keys[..i + 1][..i] == keys[..i];
      if keys[i].1 in concepts { r := r + [keys[i].1]; }
    }
    assert keys[..|keys|] == keys;
    LiveIdsMembers(concepts, keys);
  }

  predicate WellKeyedSchema(s: Schema)
    ensures WellKeyedSchema(s) <==> WellKeyed(s)
  {
    && (forall k :: k in s.conceptTypes ==> s.conceptTypes[k].name == k)
    && (forall k :: k in s.relationTypes ==> s.relationTypes[k].name == k)
  }

  /** Any run of mutations inside a bulk load, then its end, leaves the engine
      with the same primary state and the same answer to every index lookup as
      the same run in normal mode. */
  method BulkEqualsNormal(bulkLoaded: OntologyGraph, normal: OntologyGraph, ops: seq<Op>)
    requires bulkLoaded != normal && bulkLoaded.Valid() && normal.Valid()
    requires bulkLoaded.st == normal.st && !bulkLoaded.bulk && !normal.bulk
    modifies bulkLoaded, normal
    ensures bulkLoaded.Valid() && normal.Valid() && !bulkLoaded.bulk && !normal.bulk
    ensures bulkLoaded.st == normal.st == Run(old(normal.st), ops)
    ensures SameAnswers(bulkLoaded.ix, normal.ix)
  {
    var owner := bulkLoaded.BeginBulk();
    bulkLoaded.PerformAll(ops);
    bulkLoaded.EndBulk();
    normal.PerformAll(ops);
    IndexDetermined(normal.st, bulkLoaded.ix, normal.ix);
  }

  /** The loop of `remove_concept` over the incident edges. */
  method Cascade(st: State, id: nat, removed: seq<nat>, start: Index, bulk: bool)
    returns (relations: map<nat, Relation>, order: seq<nat>, ix: Index)
    requires Cascading(st, id, {}, start) && NoDup(removed)
    requires forall x :: x in removed ==> x in st.relations && Incident(st.relations[x], id)
    ensures relations == st.relations - Elems(removed) && order == Minus(st.order, Elems(removed))
    ensures Cascading(st, id, Elems(removed), ix)
    ensures ix.names == start.names && ix.sorted == start.sorted && ix.byType == start.byType && ix.grams == start.grams
    ensures ix.relSorted == if bulk then start.relSorted else start.relSorted - Elems(removed)
  {
    relations, order, ix := st.relations, st.order, start;
    MinusNothing(order, {});
    assert Elems(removed[..0]) == {};
    for i := 0 to |removed|
      invariant relations == st.relations - Elems(removed[..i]) && order == Minus(st.order, Elems(removed[..i]))
      invariant Cascading(st, id, Elems(removed[..i]), ix)
      invariant ix.names == start.names && ix.sorted == start.sorted && ix.byType == start.byType && ix.grams == start.grams
      invariant ix.relSorted == if bulk then start.relSorted else start.relSorted - Elems(removed[..i])
    {
      var rid := removed[i];
      ghost var gone := Elems(removed[..i]);
      assert removed[..i + 1] == removed[..i] + [rid];
      assert Elems(removed[..i + 1]) == gone + {rid};
      assert rid !in gone;
      var rel := relations[rid];
      var other := if rel.source == id then rel.target else rel.source;
      CascadeStep(st, id, gone, ix, rid, other);
      MinusTwice(st.order, gone, {rid});
      relations, order := relations - {rid}, Minus(order, {rid});
      ix := ScrubIndex(ix, rid, rel.rtype, other, other);
      if !bulk { ix := ix.(relSorted := ix.relSorted - {rid}); }
    }
    assert removed[..|removed|] == removed;
  }
}
