/** Each move of the ingester keeps the session invariant. */
module SessionLaws {
  import opened Collections
  import opened Text
  import opened OntologySchema
  import opened GraphState
  import opened StateLaws
  import opened BatchLaws
  import opened IngestState

  /** Only counters, weights or properties moved. */
  ghost predicate SameShape(a: State, b: State) {
    && b.schema == a.schema && b.concepts == a.concepts && b.relations.Keys == a.relations.Keys
    && (forall id :: id in a.relations ==> EndsOf(b.relations[id]) == EndsOf(a.relations[id]))
  }

  lemma SameShapeSchema(a: State, b: State, log: seq<LogRecord>, s: Session)
    requires SchemaSound(a) && SchemaSync(a, log, s) && SameShape(a, b)
    ensures SchemaSound(b) && SchemaSync(b, log, s)
  {
    forall id | id in b.relations ensures id in a.relations && b.relations[id].rtype == a.relations[id].rtype {
      assert EndsOf(b.relations[id]) == EndsOf(a.relations[id]);
    }
  }

  lemma DueStays(a: State, b: State, pending: seq<Relation>)
    requires RelationsDue(a, pending) && SameShape(a, b)
    ensures RelationsDue(b, pending)
  {
    forall i | 0 <= i < |pending| ensures DueAt(b, pending, i) {
      assert DueAt(a, pending, i);
      SameDegrees(a, b, pending[i]);
    }
  }

  lemma SameDegrees(a: State, b: State, rel: Relation)
    requires SameShape(a, b)
    ensures Refusal(b, rel) == Refusal(a, rel)
  {
    forall r ensures r in a.relations <==> r in b.relations { assert r in a.relations.Keys <==> r in b.relations.Keys; }
    forall r | r in a.relations ensures EndsOf(b.relations[r]) == EndsOf(a.relations[r]) { }
  }

  lemma SameShapePending(a: State, b: State, s: Session)
    requires ConceptsPending(a, s.pending) && BelowWatermark(a, s.pending) && RelationsPending(a, s.pendingRelations)
    requires UpdatesPending(a, s.pendingUpdates) && SameShape(a, b)
    requires b.nextConcept >= a.nextConcept && b.nextRelation >= a.nextRelation
    ensures ConceptsPending(b, s.pending) && BelowWatermark(b, s.pending) && RelationsPending(b, s.pendingRelations)
    ensures UpdatesPending(b, s.pendingUpdates)
  {
    WatermarkKeepsPending(a, b, s.pending);
    RelationsStayPending(a, b, s.pendingRelations);
    UpdatesStayPending(a, b, s.pendingUpdates);
  }

  lemma UpdatesStayPending(a: State, b: State, updates: seq<Relation>)
    requires UpdatesPending(a, updates) && SameShape(a, b)
    ensures UpdatesPending(b, updates)
  {
    forall i | 0 <= i < |updates|
      ensures updates[i].id in b.relations && EndsOf(b.relations[updates[i].id]) == EndsOf(updates[i])
    {
      assert updates[i].id in a.relations;
    }
  }

  lemma RelationsStayPending(a: State, b: State, pending: seq<Relation>)
    requires RelationsPending(a, pending) && SameShape(a, b) && b.nextRelation >= a.nextRelation
    ensures RelationsPending(b, pending)
  {
    forall i | 0 <= i < |pending| ensures Flushable(b, pending[i]) { assert Flushable(a, pending[i]); }
  }

  lemma SameShapeOk(a: State, b: State, log: seq<LogRecord>, s: Session)
    requires SessionOk(a, log, s) && SameShape(a, b) && WellFormed(b)
    requires b.nextConcept >= a.nextConcept && b.nextRelation >= a.nextRelation
    ensures SessionOk(b, log, s)
  {
    SameShapeSchema(a, b, log, s);
    SameShapePending(a, b, s);
    DueStays(a, b, s.pendingRelations);
  }

  // ---------- concepts ----------

  /** `prepare_concept` moves only the watermark. */
  lemma PreparedOk(st: State, log: seq<LogRecord>, s: Session, c: Concept)
    requires SessionOk(st, log, s)
    ensures SessionOk(PrepareConcept(st, c).0, log, s)
  {
    PreparedConceptFrame(st, c);
    SameShapeOk(st, PrepareConcept(st, c).0, log, s);
  }

  lemma ConceptsSnoc(st: State, batch: seq<Concept>, c: Concept)
    requires ConceptsPending(st, batch) && Admissible(st, c)
    requires forall i :: 0 <= i < |batch| ==> Compatible(st.schema, batch[i], c)
    ensures ConceptsPending(st, batch + [c])
  {
  }

  lemma NamesSnoc(batch: seq<Concept>, names: map<NameKey, nat>, c: Concept)
    requires NamesPending(batch, names) && KeyOf(c) !in names
    ensures NamesPending(batch + [c], names[KeyOf(c) := c.id])
  {
    var more, after := batch + [c], names[KeyOf(c) := c.id];
    forall i | 0 <= i < |more| ensures KeyOf(more[i]) in after && after[KeyOf(more[i])] == more[i].id {
      if i < |batch| { assert more[i] == batch[i] && KeyOf(batch[i]) in names; }
    }
    forall k | k in after ensures exists i :: 0 <= i < |more| && KeyOf(more[i]) == k {
      if k == KeyOf(c) {
        assert KeyOf(more[|batch|]) == k;
      } else {
        var i :| 0 <= i < |batch| && KeyOf(batch[i]) == k;
        assert KeyOf(more[i]) == k;
      }
    }
  }

  /** The pending-conflict checks make a concept compatible with the batch. */
  lemma NoConflictCompatible(schema: Schema, batch: seq<Concept>, names: map<NameKey, nat>, c: Concept)
    requires NamesPending(batch, names) && KeyOf(c) !in names
    requires forall i :: 0 <= i < |batch| ==> batch[i].id != c.id
    requires forall o :: o in DisjointTypes(schema, c.ctype) ==> (o, Lower(c.name)) !in names
    ensures forall i :: 0 <= i < |batch| ==> Compatible(schema, batch[i], c)
  {
    forall i | 0 <= i < |batch| ensures Compatible(schema, batch[i], c) { assert KeyOf(batch[i]) in names; }
  }

  function Staged(s: Session, c: Concept): Session {
    s.(pending := s.pending + [c], pendingNames := s.pendingNames[KeyOf(c) := c.id])
  }

  /** A staged concept joins the batch. */
  lemma StagedOk(st: State, log: seq<LogRecord>, s: Session, c: Concept)
    requires SessionOk(st, log, s) && PrepareConcept(st, c).1.Ok? && s.pendingRelations == []
    requires forall i :: 0 <= i < |s.pending| ==> s.pending[i].id != c.id
    requires KeyOf(c) !in s.pendingNames
    requires forall o :: o in DisjointTypes(st.schema, c.ctype) ==> (o, Lower(c.name)) !in s.pendingNames
    ensures SessionOk(PrepareConcept(st, c).0, log, Staged(s, PrepareConcept(st, c).1.value))
  {
    var (st1, r) := PrepareConcept(st, c);
    PreparedOk(st, log, s, c);
    PreparedJoins(st, s.pending, c);
    assert KeyOf(r.value) == KeyOf(c);
    NoConflictCompatible(st1.schema, s.pending, s.pendingNames, r.value);
    ConceptsSnoc(st1, s.pending, r.value);
    NamesSnoc(s.pending, s.pendingNames, r.value);
    StagedSync(st1, log, s, r.value);
  }

  lemma PreparedJoins(st: State, batch: seq<Concept>, c: Concept)
    requires WellFormed(st) && PrepareConcept(st, c).1.Ok? && BelowWatermark(st, batch)
    requires forall i :: 0 <= i < |batch| ==> batch[i].id != c.id
    ensures var (st1, r) := PrepareConcept(st, c);
      && Admissible(st1, r.value) && BelowWatermark(st1, batch + [r.value]) && r.value == c.(id := r.value.id)
      && st1.schema == st.schema && forall i :: 0 <= i < |batch| ==> batch[i].id != r.value.id
  {
    PreparedAdmissible(st, c);
  }

  lemma StagedSync(st: State, log: seq<LogRecord>, s: Session, c: Concept)
    requires SchemaSync(st, log, s)
    ensures SchemaSync(st, log, Staged(s, c))
  {
  }

  /** One concept of a flushed batch applied. */
  lemma AppliedOk(st: State, log: seq<LogRecord>, s: Session, batch: seq<Concept>)
    requires SessionOk(st, log, s) && s.pending == [] && s.pendingRelations == [] && !s.schemaDirty
    requires ConceptsPending(st, batch) && batch != []
    ensures ApplyConcept(st, batch[0]).1.Ok? && ApplyConcept(st, batch[0]).0 == Installed(st, batch[0])
    ensures SessionOk(Installed(st, batch[0]), log, s) && ConceptsPending(Installed(st, batch[0]), batch[1..])
  {
    assert Admissible(st, batch[0]);
    BatchStep(st, batch);
  }

  // ---------- relations ----------

  lemma RelationsSnoc(st: State, pending: seq<Relation>, rel: Relation)
    requires RelationsPending(st, pending) && Flushable(st, rel)
    requires forall i :: 0 <= i < |pending| ==> pending[i].id != rel.id
    ensures RelationsPending(st, pending + [rel])
  {
    var more := pending + [rel];
    forall i | 0 <= i < |more| ensures Flushable(st, more[i]) {
      if i < |pending| { assert Flushable(st, pending[i]); }
    }
  }

  lemma PreparedRelationOk(st: State, log: seq<LogRecord>, s: Session, rel: Relation)
    requires SessionOk(st, log, s)
    ensures SessionOk(PrepareRelation(st, rel).0, log, s)
  {
    PreparedFresh(st, rel);
    SameShapeOk(st, PrepareRelation(st, rel).0, log, s);
  }

  /** A relation joins the batch: the edges seen by one-at-a-time insertion
      grow by exactly its effects. */
  lemma PendedOk(st: State, log: seq<LogRecord>, s: Session, rel: Relation)
    requires SessionOk(st, log, s) && s.pending == [] && !s.schemaDirty && PrepareRelation(st, rel).1.Ok?
    requires !HasSibling(st.schema, s.pendingRelations, rel)
    requires rel.id != 0 ==> forall i :: 0 <= i < |s.pendingRelations| ==> s.pendingRelations[i].id != rel.id
    ensures var (st1, r) := PrepareRelation(st, rel);
      var s1 := s.(pendingRelations := s.pendingRelations + [r.value]);
      SessionOk(st1, log, s1) && EdgeView(st1, s1) == EdgeView(st, s) + Effects(st.schema, rel)
  {
    var (st1, r) := PrepareRelation(st, rel);
    PreparedFresh(st, rel);
    PreparedRelationOk(st, log, s, rel);
    FreshAmongPending(st, s.pendingRelations, rel);
    RelationsSnoc(st1, s.pendingRelations, r.value);
    DueSnoc(st1, s.pendingRelations, r.value);
    EffectsSnoc(st.schema, s.pendingRelations, r.value);
    assert Effects(st.schema, r.value) == Effects(st.schema, rel);
    ConcatAssoc(Edges(st), EffectsAll(st.schema, s.pendingRelations), Effects(st.schema, rel));
  }

  lemma FreshAmongPending(st: State, pending: seq<Relation>, rel: Relation)
    requires RelationsPending(st, pending) && PrepareRelation(st, rel).1.Ok?
    requires rel.id != 0 ==> forall i :: 0 <= i < |pending| ==> pending[i].id != rel.id
    ensures forall i :: 0 <= i < |pending| ==> pending[i].id != PrepareRelation(st, rel).1.value.id
  {
    forall i | 0 <= i < |pending| ensures pending[i].id != PrepareRelation(st, rel).1.value.id {
      assert Flushable(st, pending[i]);
    }
  }

  lemma AppliedShape(st: State, rel: Relation)
    requires rel.rtype in st.schema.relationTypes && RelationTypesDeclared(st)
    ensures var next := ApplyRelation(st, rel).0;
      && next.schema == st.schema && next.concepts == st.concepts && next.nextConcept == st.nextConcept
      && RelationTypesDeclared(next)
  {
  }

  lemma AppliedUpdates(st: State, rel: Relation, updates: seq<Relation>)
    requires WellFormed(st) && Flushable(st, rel) && UpdatesPending(st, updates)
    ensures UpdatesPending(ApplyRelation(st, rel).0, updates)
  {
  }

  /** One relation of a flushed batch applied. */
  lemma FlushedOk(st: State, log: seq<LogRecord>, s: Session, batch: seq<Relation>)
    requires SessionOk(st, log, s) && s.pending == [] && s.pendingRelations == [] && !s.schemaDirty
    requires RelationsPending(st, batch) && batch != []
    ensures var (next, r) := ApplyRelation(st, batch[0]);
      && r.Ok? && SessionOk(next, log, s) && RelationsPending(next, batch[1..])
      && next.schema == st.schema && next.concepts == st.concepts
      && Edges(next) + EffectsAll(st.schema, batch[1..]) == Edges(st) + EffectsAll(st.schema, batch)
  {
    FlushStep(st, batch);
    assert Flushable(st, batch[0]);
    AppliedShape(st, batch[0]);
    AppliedUpdates(st, batch[0], s.pendingUpdates);
  }

  // ---------- updates ----------

  lemma WeighedShape(st: State, id: nat, weight: int, properties: Props)
    requires id in st.relations
    ensures SameShape(st, WithWeight(st, id, weight, properties))
  {
  }

  lemma UpdatedShape(st: State, updated: Relation)
    requires updated.id in st.relations
    ensures ApplyRelationUpdate(st, updated).1.Ok? && SameShape(st, ApplyRelationUpdate(st, updated).0)
    ensures var next := ApplyRelationUpdate(st, updated).0;
      next.nextConcept == st.nextConcept && next.nextRelation == st.nextRelation && next.order == st.order
  {
    WeighedShape(st, updated.id, updated.weight, updated.properties);
    var st1 := WithWeight(st, updated.id, updated.weight, updated.properties);
    var mirror := MirrorOf(st1, st1.relations[updated.id]);
    if mirror.Some? { WeighedShape(st1, mirror.value, updated.weight, updated.properties); }
  }

  /** A journaled update applied, its mirror included. */
  lemma UpdatedOk(st: State, log: seq<LogRecord>, s: Session, updated: Relation)
    requires SessionOk(st, log, s) && updated.id in st.relations
    ensures SessionOk(ApplyRelationUpdate(st, updated).0, log, s)
  {
    UpdatedShape(st, updated);
    RelationUpdateWellFormed(st, updated);
    SameShapeOk(st, ApplyRelationUpdate(st, updated).0, log, s);
  }

  // ---------- schema ----------

  /** A declaration accepted while nothing is pending. */
  lemma DeclaredOk(st: State, log: seq<LogRecord>, s: Session, candidate: Schema)
    requires SessionOk(st, log, s) && s.pending == [] && s.pendingRelations == [] && s.pendingUpdates == []
    requires AcceptsSchema(st, candidate) && WellKeyed(candidate)
    ensures SessionOk(st.(schema := candidate), log,
      s.(schemaDirty := true, baseline := if s.baseline.None? then Some(st.schema) else s.baseline))
  {
    AcceptedSame(st, candidate);
  }

  /** The rollback of an aborted ingest is never refused. */
  lemma RolledBackOk(st: State, log: seq<LogRecord>, s: Session)
    requires SessionOk(st, log, s) && s.schemaDirty
    ensures AcceptsSchema(st, s.baseline.value) && LastSchema(log) == Some(s.baseline.value)
  {
    SameAccepted(st, s.baseline.value);
  }

  /** Replacing the schema by one that is journaled first. */
  lemma ReplacedOk(st: State, log: seq<LogRecord>, s: Session, candidate: Schema)
    requires SessionOk(st, log, s) && s.pending == [] && s.pendingRelations == [] && s.pendingUpdates == []
    requires AcceptsSchema(st, candidate) && WellKeyed(candidate)
    ensures SessionOk(st.(schema := candidate), log + [OntologyLog(candidate)], s.(schemaDirty := false, baseline := None))
  {
    AcceptedSame(st, candidate);
  }

  // ---------- journal and batches ----------

  /** Instance records say nothing about the schema. */
  lemma LoggedOk(st: State, log: seq<LogRecord>, s: Session, more: seq<LogRecord>)
    requires SessionOk(st, log, s) && forall i :: 0 <= i < |more| ==> !more[i].OntologyLog?
    ensures SessionOk(st, log + more, s) && LastSchema(log + more) == LastSchema(log)
  {
    LastSchemaAppend(log, more);
  }

  lemma SchemaFlushedOk(st: State, log: seq<LogRecord>, s: Session)
    requires SessionOk(st, log, s)
    ensures SessionOk(st, log + [OntologyLog(st.schema)], s.(schemaDirty := false, baseline := None))
  {
  }

  /** A batch taken out of the session, to be applied or lost with its barrier. */
  lemma ConceptsTakenOk(st: State, log: seq<LogRecord>, s: Session)
    requires SessionOk(st, log, s)
    ensures SessionOk(st, log, s.(pending := [], pendingNames := map[]))
  {
  }

  lemma RelationsTakenOk(st: State, log: seq<LogRecord>, s: Session)
    requires SessionOk(st, log, s)
    ensures SessionOk(st, log, s.(pendingRelations := []))
  {
  }

  lemma UpdatesTakenOk(st: State, log: seq<LogRecord>, s: Session)
    requires SessionOk(st, log, s)
    ensures SessionOk(st, log, s.(pendingUpdates := [])) && UpdatesPending(st, s.pendingUpdates)
  {
  }

  // ---------- whole batches applied ----------

  function AppliedAll(st: State, batch: seq<Concept>): State
    decreases batch
  {
    if batch == [] then st else AppliedAll(Installed(st, batch[0]), batch[1..])
  }

  function LinkedAll(st: State, batch: seq<Relation>): State
    decreases batch
  {
    if batch == [] then st else LinkedAll(ApplyRelation(st, batch[0]).0, batch[1..])
  }

  function UpdatedAll(st: State, batch: seq<Relation>): State
    decreases batch
  {
    if batch == [] then st else UpdatedAll(ApplyRelationUpdate(st, batch[0]).0, batch[1..])
  }

  ghost predicate SameButConcepts(a: State, b: State) {
    && b.schema == a.schema && b.relations == a.relations && b.order == a.order && b.nextRelation == a.nextRelation
    && b.nextConcept >= a.nextConcept
  }

  ghost predicate SameButEdges(a: State, b: State) {
    b.schema == a.schema && b.concepts == a.concepts && b.nextConcept == a.nextConcept
  }

  lemma {:induction false} AppliedAllOk(st: State, log: seq<LogRecord>, s: Session, batch: seq<Concept>)
    requires SessionOk(st, log, s) && s.pending == [] && s.pendingRelations == [] && !s.schemaDirty
    requires ConceptsPending(st, batch)
    ensures SessionOk(AppliedAll(st, batch), log, s)
    ensures AppliedAll(st, batch).concepts == Overlay(st.concepts, batch) && SameButConcepts(st, AppliedAll(st, batch))
    decreases batch
  {
    if batch != [] {
      AppliedOk(st, log, s, batch);
      AppliedAllOk(Installed(st, batch[0]), log, s, batch[1..]);
    }
  }

  lemma {:induction false} LinkedAllOk(st: State, log: seq<LogRecord>, s: Session, batch: seq<Relation>)
    requires SessionOk(st, log, s) && s.pending == [] && s.pendingRelations == [] && !s.schemaDirty
    requires RelationsPending(st, batch)
    ensures SessionOk(LinkedAll(st, batch), log, s) && SameButEdges(st, LinkedAll(st, batch))
    ensures Edges(LinkedAll(st, batch)) == Edges(st) + EffectsAll(st.schema, batch)
    decreases batch
  {
    if batch != [] {
      FlushedOk(st, log, s, batch);
      LinkedAllOk(ApplyRelation(st, batch[0]).0, log, s, batch[1..]);
    }
  }

  lemma {:induction false} UpdatedAllOk(st: State, log: seq<LogRecord>, s: Session, batch: seq<Relation>)
    requires SessionOk(st, log, s) && UpdatesPending(st, batch)
    ensures SessionOk(UpdatedAll(st, batch), log, s) && SameShape(st, UpdatedAll(st, batch))
    ensures UpdatedAll(st, batch).order == st.order && UpdatedAll(st, batch).nextConcept == st.nextConcept
    decreases batch
  {
    if batch != [] {
      var next := ApplyRelationUpdate(st, batch[0]).0;
      assert batch[0].id in st.relations;
      UpdatedOk(st, log, s, batch[0]);
      UpdatedShape(st, batch[0]);
      assert UpdatesPending(st, batch[1..]);
      UpdatesStayPending(st, next, batch[1..]);
      UpdatedAllOk(next, log, s, batch[1..]);
    }
  }

  // ---------- the view across a stage ----------

  lemma ViewType(st: State, batch: seq<Concept>, id: nat)
    requires ConceptsPending(st, batch) && id in st.concepts
    ensures id in Overlay(st.concepts, batch) ==> Overlay(st.concepts, batch)[id].ctype == st.concepts[id].ctype
  {
    if id in Overlay(st.concepts, batch) {
      OverlaySource(st.concepts, batch, id);
      if i :| 0 <= i < |batch| && batch[i].id == id && Overlay(st.concepts, batch)[id] == batch[i] {
        assert Admissible(st, batch[i]);
      }
    }
  }

  /** A fresh id is new to the view as well. */
  lemma FreshInView(st: State, batch: seq<Concept>)
    requires WellFormed(st) && BelowWatermark(st, batch)
    ensures st.nextConcept !in Overlay(st.concepts, batch)
  {
    OverlayElsewhere(st.concepts, batch, st.nextConcept);
  }

  /** Staging a prepared concept is what the view sees as an upsert. */
  lemma StagedView(st: State, log: seq<LogRecord>, s: Session, c: Concept)
    requires SessionOk(st, log, s) && PrepareConcept(st, c).1.Ok?
    ensures var (st1, r) := PrepareConcept(st, c);
      && ConceptView(st1, Staged(s, r.value)) == ConceptView(st, s)[r.value.id := c.(id := r.value.id)]
      && (c.id != 0 ==> r.value.id == c.id) && (c.id == 0 ==> r.value.id !in ConceptView(st, s))
  {
    PreparedAdmissible(st, c);
    OverlaySnoc(st.concepts, s.pending, PrepareConcept(st, c).1.value);
    FreshInView(st, s.pending);
  }

  lemma {:induction false} OverlayKeeps(concepts: map<nat, Concept>, batch: seq<Concept>, id: nat)
    requires id in concepts
    ensures id in Overlay(concepts, batch)
    decreases batch
  {
    if batch != [] { OverlayKeeps(concepts[batch[0].id := batch[0]], batch[1..], id); }
  }

  /** The concept an upsert found is, once its id is not pending, the one the
      view shows, and of the type it was found under. */
  lemma ExistingKept(found: State, before: Session, st: State, after: Session, key: NameKey, id: nat)
    requires WellFormed(found) && ConceptsPending(found, before.pending) && Find(found, key) == Some(id)
    requires ConceptView(st, after) == ConceptView(found, before)
    requires forall i :: 0 <= i < |after.pending| ==> after.pending[i].id != id
    ensures id > 0 && id in st.concepts && id in ConceptView(st, after)
    ensures st.concepts[id] == ConceptView(st, after)[id] && st.concepts[id].ctype == key.0
  {
    OverlayKeeps(found.concepts, before.pending, id);
    ViewType(found, before.pending, id);
    OverlayElsewhere(st.concepts, after.pending, id);
  }

  lemma FoundId(st: State, key: NameKey, id: nat)
    requires WellFormed(st) && Find(st, key) == Some(id)
    ensures id > 0 && id in st.concepts
  {
  }

  lemma SeenOk(st: State, log: seq<LogRecord>, s: Session, seen: set<nat>)
    requires SessionOk(st, log, s)
    ensures SessionOk(st, log, s.(seenConcepts := seen))
  {
  }

  // ---------- the view across a relation ----------

  /** What one-at-a-time insertion answers. */
  ghost function Verdict(schema: Schema, concepts: map<nat, Concept>, log: seq<Edge>, rel: Relation): Ingested<()> {
    var refusal := LogRefusal(schema, concepts, log, rel);
    if refusal.Some? then Failed(GraphFailure(refusal.value)) else Done(())
  }

  function Accepted(schema: Schema, log: seq<Edge>, rel: Relation, r: Ingested<()>): seq<Edge> {
    if r.Done? then log + Effects(schema, rel) else log
  }

  /** With no pending sibling, preparing against the graph gives the verdict
      of inserting into the view. */
  lemma PendVerdict(st: State, log: seq<LogRecord>, s: Session, rel: Relation)
    requires SessionOk(st, log, s) && !HasSibling(st.schema, s.pendingRelations, rel)
    ensures var (st1, r) := PrepareRelation(st, rel);
      && (if r.Ok? then Done(()) else Failed(GraphFailure(r.error))) == Verdict(st.schema, st.concepts, EdgeView(st, s), rel)
      && SessionOk(st1, log, s) && EdgeView(st1, s) == EdgeView(st, s) && SameButEdges(st, st1)
  {
    SameVerdict(st.schema, st.concepts, Edges(st), s.pendingRelations, rel);
    RefusalByLog(st, rel);
    PreparedRelationOk(st, log, s, rel);
    PreparedFresh(st, rel);
  }

  /** The prune bookkeeping plays no part in the invariant. */
  lemma ProgressOk(st: State, log: seq<LogRecord>, a: Session, b: Session)
    requires SessionOk(st, log, a)
    requires b == a.(seenConcepts := b.seenConcepts, seenEdges := b.seenEdges, declaredTypes := b.declaredTypes,
                     declaredRelationTypes := b.declaredRelationTypes)
    ensures SessionOk(st, log, b)
  {
  }

  lemma BaselineOk(st: State, log: seq<LogRecord>, s: Session)
    requires SessionOk(st, log, s) && s.baseline.None?
    ensures SessionOk(st, log, s.(baseline := Some(st.schema)))
  {
  }
}
