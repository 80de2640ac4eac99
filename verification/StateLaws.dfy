/** Laws of the primary state: every mutation keeps it well formed. */
module StateLaws {
  import opened Collections
  import opened OntologySchema
  import opened GraphState

  lemma FindUnique(st: State, key: NameKey, id: nat)
    requires NamesUnique(st.concepts) && NamedBy(st.concepts, key, id)
    ensures Find(st, key) == Some(id)
  {
  }

  /** Nobody but `id` is found under `key`. */
  ghost predicate FreeFor(st: State, key: NameKey, id: nat) {
    Find(st, key).None? || Find(st, key).value == id
  }

  lemma ReplaceKeepsNames(st: State, c: Concept)
    requires NamesUnique(st.concepts) && FreeFor(st, KeyOf(c), c.id)
    ensures NamesUnique(st.concepts[c.id := c])
  {
    var next := st.concepts[c.id := c];
    forall i, j | i in next && j in next && KeyOf(next[i]) == KeyOf(next[j]) ensures i == j {
      if i == c.id && j != c.id { FindUnique(st, KeyOf(c), j); }
      if j == c.id && i != c.id { FindUnique(st, KeyOf(c), i); }
    }
  }

  lemma InstalledWellFormed(st: State, c: Concept)
    requires WellFormed(st) && c.id > 0 && FreeFor(st, KeyOf(c), c.id)
    ensures WellFormed(Installed(st, c))
    ensures c.id in st.concepts ==> WellFormed(Replaced(st, c))
  {
    ReplaceKeepsNames(st, c);
  }

  /** The key of a live concept is free for it. */
  lemma OwnKeyFree(st: State, id: nat)
    requires WellFormed(st) && id in st.concepts
    ensures FreeFor(st, KeyOf(st.concepts[id]), id)
  {
    FindUnique(st, KeyOf(st.concepts[id]), id);
  }

  lemma LinkedWellFormed(st: State, rel: Relation)
    requires WellFormed(st) && rel.id > 0 && rel.id !in st.relations
    requires rel.source in st.concepts && rel.target in st.concepts
    ensures WellFormed(Linked(st, rel))
  {
  }

  lemma UnlinkedWellFormed(st: State, gone: set<nat>)
    requires WellFormed(st)
    ensures WellFormed(st.(relations := st.relations - gone, order := Minus(st.order, gone)))
  {
    MinusNoDup(st.order, gone);
    MinusMembers(st.order, gone);
  }

  lemma RemovedWellFormed(st: State, id: nat)
    requires WellFormed(st)
    ensures WellFormed(GraphState.RemoveConcept(st, id).0)
  {
    if id in st.concepts {
      UnlinkedWellFormed(st, IncidentSet(st.relations, id));
      var next := GraphState.RemoveConcept(st, id).0;
      forall r | r in next.relations ensures next.relations[r].source in next.concepts && next.relations[r].target in next.concepts {
        assert !Incident(st.relations[r], id);
      }
    }
  }

  lemma ReweightedWellFormed(st: State, id: nat, weight: int, properties: Props)
    requires WellFormed(st) && id in st.relations
    ensures WellFormed(WithWeight(st, id, weight, properties))
  {
  }

  lemma NatOrder()
    ensures StrictOrder(NatLt)
  {
  }

  lemma IncidentIdsExact(st: State, id: nat)
    ensures NoDup(IncidentIds(st, id)) && Elems(IncidentIds(st, id)) == IncidentSet(st.relations, id)
    ensures forall x :: x in IncidentIds(st, id) <==> x in st.relations && Incident(st.relations[x], id)
  {
    NatOrder();
    AscendingMembers(NatLt, IncidentSet(st.relations, id));
    AscendingSorted(NatLt, IncidentSet(st.relations, id));
    SortedNoDup(NatLt, IncidentIds(st, id));
  }

  // ---------- runs ----------

  datatype Op =
    | UpsertOp(concept: Concept)
    | UpdateOp(id: nat, patch: ConceptPatch)
    | RemoveConceptOp(id: nat)
    | AddRelationOp(relation: Relation)
    | InsertExactOp(relation: Relation)
    | UpdateRelationOp(id: nat, relationPatch: RelationPatch)
    | RemoveRelationOp(id: nat)
    | ExtendOp(candidate: Schema)
    | ClearOp

  /** One public mutation. A refused one changes at most an id counter. */
  ghost function Step(st: State, op: Op): State {
    match op
    case UpsertOp(c) => GraphState.UpsertConcept(st, c).0
    case UpdateOp(id, p) => GraphState.UpdateConcept(st, id, p).0
    case RemoveConceptOp(id) => GraphState.RemoveConcept(st, id).0
    case AddRelationOp(r) => GraphState.AddRelation(st, r).0
    case InsertExactOp(r) => InsertExact(st, r).0
    case UpdateRelationOp(id, p) => GraphState.UpdateRelation(st, id, p).0
    case RemoveRelationOp(id) => GraphState.RemoveRelation(st, id).0
    case ExtendOp(s) => if WellKeyed(s) then ExtendOntology(st, s) else st
    case ClearOp => Empty(st.schema)
  }

  ghost function Run(st: State, ops: seq<Op>): State {
    if ops == [] then st else Step(Run(st, ops[..|ops| - 1]), ops[|ops| - 1])
  }

  /** What `prepare` hands to `apply`: a fresh non-zero id and live endpoints. */
  lemma NewWatermark(st: State, next: State)
    requires WellFormed(st) && next == st.(nextRelation := next.nextRelation) && next.nextRelation >= st.nextRelation
    ensures WellFormed(next)
  {
  }

  lemma PreparedShape(st: State, rel: Relation)
    requires WellFormed(st)
    ensures var (st1, r) := PrepareRelation(st, rel);
      && st1 == st.(nextRelation := st1.nextRelation) && st1.nextRelation >= st.nextRelation
      && (r.Ok? ==>
          && 0 < r.value.id < st1.nextRelation && r.value.id !in st.relations
          && rel.source in st.concepts && rel.target in st.concepts
          && r.value == rel.(id := r.value.id) && rel.rtype in st.schema.relationTypes)
  {
    hide NamesUnique, OrderOk, ConceptsOk, WellKeyed, EdgeAllowed, HasOut, HasIn;
  }

  lemma PreparedFresh(st: State, rel: Relation)
    requires WellFormed(st)
    ensures WellFormed(PrepareRelation(st, rel).0)
    ensures var (st1, r) := PrepareRelation(st, rel);
      && st1.relations == st.relations && st1.concepts == st.concepts && st1.schema == st.schema && st1.order == st.order
      && (r.Ok? ==>
          && 0 < r.value.id < st1.nextRelation && r.value.id !in st1.relations
          && r.value.source in st1.concepts && r.value.target in st1.concepts
          && r.value == rel.(id := r.value.id) && rel.rtype in st1.schema.relationTypes)
  {
    PreparedShape(st, rel);
    hide PrepareRelation, Refusal;
    NewWatermark(st, PrepareRelation(st, rel).0);
  }

  lemma AddedWellFormed(st: State, rel: Relation)
    requires WellFormed(st)
    ensures WellFormed(GraphState.AddRelation(st, rel).0)
  {
    var (st1, r) := PrepareRelation(st, rel);
    PreparedFresh(st, rel);
    if r.Ok? { AppliedWellFormed(st1, r.value); }
  }

  lemma AppliedWellFormed(st: State, rel: Relation)
    requires WellFormed(st) && rel.id !in st.relations && rel.source in st.concepts && rel.target in st.concepts
    ensures WellFormed(ApplyRelation(st, rel).0)
  {
    if rel.id > 0 {
      LinkedWellFormed(st, rel);
      var st1 := Linked(st, rel);
      LinkedWellFormed(st1, Inverse(rel, st1.nextRelation));
    }
  }

  lemma RelationUpdateWellFormed(st: State, updated: Relation)
    requires WellFormed(st)
    ensures WellFormed(ApplyRelationUpdate(st, updated).0)
  {
    if updated.id in st.relations {
      ReweightedWellFormed(st, updated.id, updated.weight, updated.properties);
      var st1 := WithWeight(st, updated.id, updated.weight, updated.properties);
      var mirror := MirrorOf(st1, st1.relations[updated.id]);
      if mirror.Some? { ReweightedWellFormed(st1, mirror.value, updated.weight, updated.properties); }
    }
  }

  lemma UpsertWellFormed(st: State, c: Concept)
    requires WellFormed(st)
    ensures WellFormed(GraphState.UpsertConcept(st, c).0)
  {
    var (st1, r) := PrepareConcept(st, c);
    if r.Ok? && ApplyConcept(st1, r.value).1.Ok? { InstalledWellFormed(st1, r.value); }
  }

  lemma UpdateWellFormed(st: State, id: nat, p: ConceptPatch)
    requires WellFormed(st)
    ensures WellFormed(GraphState.UpdateConcept(st, id, p).0)
  {
    var r := PreviewUpdate(st, id, p);
    if r.Ok? && ApplyUpdate(st, r.value).1.Ok? {
      OwnKeyFree(st, id);
      InstalledWellFormed(st, r.value);
    }
  }

  /** Every reachable state has injective names and no dangling edge. */
  lemma StepWellFormed(st: State, op: Op)
    requires WellFormed(st)
    ensures WellFormed(Step(st, op))
  {
    match op
    case UpsertOp(c) => UpsertWellFormed(st, c);
    case UpdateOp(id, p) => UpdateWellFormed(st, id, p);
    case RemoveConceptOp(id) => RemovedWellFormed(st, id);
    case AddRelationOp(r) => AddedWellFormed(st, r);
    case InsertExactOp(r) => if InsertExact(st, r).1.Ok? { LinkedWellFormed(st, r); }
    case UpdateRelationOp(id, p) =>
      var r := PreviewRelationUpdate(st, id, p);
      if r.Ok? { RelationUpdateWellFormed(st, r.value); }
    case RemoveRelationOp(id) => UnlinkedWellFormed(st, {id});
    case ExtendOp(_) =>
    case ClearOp =>
  }

  // ---------- schema safety ----------

  ghost predicate TypesDeclared(st: State) {
    forall id :: id in st.concepts ==> st.concepts[id].ctype in st.schema.conceptTypes
  }

  /** What a step owes to a concept live before and after it. */
  ghost predicate ConceptStable(a: State, b: State, id: nat)
    requires id in a.concepts && id in b.concepts
  {
    var t := a.concepts[id].ctype;
    b.concepts[id].ctype == t && t in b.schema.conceptTypes && NsOf(b.schema, t) == NsOf(a.schema, t)
  }

  /** What a step owes to a relation, of a declared type, live before and after it. */
  ghost predicate RelationStable(a: State, b: State, id: nat)
    requires id in a.relations && id in b.relations
  {
    var t := a.relations[id].rtype;
    && b.relations[id].rtype == t
    && (t in a.schema.relationTypes ==>
          && t in b.schema.relationTypes
          && b.schema.relationTypes[t].domain == a.schema.relationTypes[t].domain
          && b.schema.relationTypes[t].range == a.schema.relationTypes[t].range)
  }

  lemma ExtendTypesDeclared(st: State, s: Schema)
    requires TypesDeclared(st)
    ensures TypesDeclared(Step(st, ExtendOp(s)))
  {
    if WellKeyed(s) && AcceptsSchema(st, s) {
      forall id | id in st.concepts ensures st.concepts[id].ctype in s.conceptTypes {
        assert TypeKept(st, s, st.concepts[id].ctype);
      }
    }
  }

  lemma UpsertTypesDeclared(st: State, c: Concept)
    requires WellFormed(st) && TypesDeclared(st)
    ensures TypesDeclared(Step(st, UpsertOp(c)))
  {
    hide WellFormed, NamesUnique;
  }

  lemma UpdateTypesDeclared(st: State, id: nat, p: ConceptPatch)
    requires TypesDeclared(st)
    ensures TypesDeclared(Step(st, UpdateOp(id, p)))
  {
  }

  lemma StepTypesDeclared(st: State, op: Op)
    requires WellFormed(st) && TypesDeclared(st)
    ensures TypesDeclared(Step(st, op))
  {
    hide WellFormed, SchemaAllows;
    match op
    case ExtendOp(s) => ExtendTypesDeclared(st, s);
    case UpsertOp(c) => UpsertTypesDeclared(st, c);
    case UpdateOp(id, p) => UpdateTypesDeclared(st, id, p);
    case AddRelationOp(r) => PreparedFresh(st, r);
    case _ =>
  }

  lemma ExtendStable(st: State, s: Schema)
    requires TypesDeclared(st) && AcceptsSchema(st, s)
    ensures forall id :: id in st.concepts ==> ConceptStable(st, st.(schema := s), id)
    ensures forall id :: id in st.relations ==> RelationStable(st, st.(schema := s), id)
  {
    forall id | id in st.concepts ensures ConceptStable(st, st.(schema := s), id) {
      assert TypeKept(st, s, st.concepts[id].ctype);
    }
    forall id | id in st.relations ensures RelationStable(st, st.(schema := s), id) {
      if st.relations[id].rtype in st.schema.relationTypes { assert RelationTypeKept(st, s, st.relations[id].rtype); }
    }
  }

  /** Types of instances are immutable and only `ExtendOp` moves the schema. */
  ghost predicate TypesFixed(a: State, b: State) {
    && b.schema == a.schema
    && (forall id :: id in a.concepts && id in b.concepts ==> b.concepts[id].ctype == a.concepts[id].ctype)
    && (forall id :: id in a.relations && id in b.relations ==> b.relations[id].rtype == a.relations[id].rtype)
  }

  lemma AddRelationTypesFixed(st: State, rel: Relation)
    requires WellFormed(st)
    ensures TypesFixed(st, GraphState.AddRelation(st, rel).0)
  {
    var (st1, r) := PrepareRelation(st, rel);
    PreparedFresh(st, rel);
    if r.Ok? {
      var linked := Linked(st1, r.value);
      assert TypesFixed(st, linked);
      assert linked.nextRelation !in st.relations;
    }
  }

  lemma UpdateRelationTypesFixed(st: State, id: nat, p: RelationPatch)
    ensures TypesFixed(st, GraphState.UpdateRelation(st, id, p).0)
  {
  }

  /** `prepare_concept` moves nothing but the id counter. */
  lemma PreparedConceptFrame(st: State, c: Concept)
    ensures var (st1, r) := PrepareConcept(st, c);
      && st1 == st.(nextConcept := st1.nextConcept) && st1.nextConcept >= st.nextConcept
      && (r.Ok? ==> r.value == c.(id := r.value.id))
  {
  }

  lemma ApplyTypesFixed(st: State, c: Concept)
    ensures TypesFixed(st, ApplyConcept(st, c).0) && TypesFixed(st, ApplyUpdate(st, c).0)
  {
  }

  lemma UpsertTypesFixed(st: State, c: Concept)
    ensures TypesFixed(st, GraphState.UpsertConcept(st, c).0)
  {
    PreparedConceptFrame(st, c);
    var (st1, r) := PrepareConcept(st, c);
    if r.Ok? { ApplyTypesFixed(st1, r.value); }
  }

  lemma UpdateTypesFixed(st: State, id: nat, p: ConceptPatch)
    ensures TypesFixed(st, GraphState.UpdateConcept(st, id, p).0)
  {
    var r := PreviewUpdate(st, id, p);
    if r.Ok? { ApplyTypesFixed(st, r.value); }
  }

  lemma RemovalTypesFixed(st: State, id: nat)
    ensures TypesFixed(st, GraphState.RemoveConcept(st, id).0) && TypesFixed(st, GraphState.RemoveRelation(st, id).0)
  {
  }

  lemma InstanceStepFixed(st: State, op: Op)
    requires WellFormed(st) && !op.ExtendOp?
    ensures TypesFixed(st, Step(st, op))
  {
    hide WellFormed;
    match op
    case AddRelationOp(r) => AddRelationTypesFixed(st, r);
    case UpdateRelationOp(id, p) => UpdateRelationTypesFixed(st, id, p);
    case UpsertOp(c) => UpsertTypesFixed(st, c);
    case UpdateOp(id, p) => UpdateTypesFixed(st, id, p);
    case RemoveConceptOp(id) => RemovalTypesFixed(st, id);
    case InsertExactOp(_) =>
    case RemoveRelationOp(id) => RemovalTypesFixed(st, id);
    case ClearOp =>
  }

  lemma FixedStable(a: State, b: State)
    requires TypesDeclared(a) && TypesFixed(a, b)
    ensures forall id :: id in a.concepts && id in b.concepts ==> ConceptStable(a, b, id)
    ensures forall id :: id in a.relations && id in b.relations ==> RelationStable(a, b, id)
  {
  }

  lemma StepStable(st: State, op: Op)
    requires WellFormed(st) && TypesDeclared(st)
    ensures forall id :: id in st.concepts && id in Step(st, op).concepts ==> ConceptStable(st, Step(st, op), id)
    ensures forall id :: id in st.relations && id in Step(st, op).relations ==> RelationStable(st, Step(st, op), id)
  {
    if op.ExtendOp? {
      if WellKeyed(op.candidate) && AcceptsSchema(st, op.candidate) { ExtendStable(st, op.candidate); }
    } else {
      InstanceStepFixed(st, op);
      FixedStable(st, Step(st, op));
    }
  }

  ghost predicate ConceptLivesThrough(st: State, ops: seq<Op>, id: nat) {
    forall k :: 0 <= k <= |ops| ==> id in Run(st, ops[..k]).concepts
  }

  ghost predicate RelationLivesThrough(st: State, ops: seq<Op>, id: nat) {
    forall k :: 0 <= k <= |ops| ==> id in Run(st, ops[..k]).relations
  }

  lemma {:induction false} RunWellFormed(st: State, ops: seq<Op>)
    requires WellFormed(st)
    ensures WellFormed(Run(st, ops))
    ensures TypesDeclared(st) ==> TypesDeclared(Run(st, ops))
  {
    if ops != [] {
      var l := |ops| - 1;
      RunWellFormed(st, ops[..l]);
      StepWellFormed(Run(st, ops[..l]), ops[l]);
      if TypesDeclared(st) { StepTypesDeclared(Run(st, ops[..l]), ops[l]); }
    }
  }

  /** Over any interleaving of mutations and schema changes, a concept that
      stays live keeps its type, its type stays declared, and its storage
      domain never moves. */
  lemma {:induction false} ConceptSchemaSafety(st: State, ops: seq<Op>, id: nat)
    requires WellFormed(st) && TypesDeclared(st) && ConceptLivesThrough(st, ops, id)
    ensures id in st.concepts && id in Run(st, ops).concepts && ConceptStable(st, Run(st, ops), id)
  {
    assert ops[..0] == [] && ops[..|ops|] == ops;
    if ops != [] {
      var l := |ops| - 1;
      forall k | 0 <= k <= l ensures id in Run(st, ops[..l][..k]).concepts { assert ops[..l][..k] == ops[..k]; }
      ConceptSchemaSafety(st, ops[..l], id);
      RunWellFormed(st, ops[..l]);
      StepStable(Run(st, ops[..l]), ops[l]);
    }
  }

  /** A relation that stays live keeps its type, and that type keeps its
      domain and range. */
  lemma {:induction false} RelationSchemaSafety(st: State, ops: seq<Op>, id: nat)
    requires WellFormed(st) && TypesDeclared(st) && RelationLivesThrough(st, ops, id)
    ensures id in st.relations && id in Run(st, ops).relations && RelationStable(st, Run(st, ops), id)
  {
    assert ops[..0] == [] && ops[..|ops|] == ops;
    if ops != [] {
      var l := |ops| - 1;
      forall k | 0 <= k <= l ensures id in Run(st, ops[..l][..k]).relations { assert ops[..l][..k] == ops[..k]; }
      RelationSchemaSafety(st, ops[..l], id);
      RunWellFormed(st, ops[..l]);
      StepStable(Run(st, ops[..l]), ops[l]);
    }
  }
}
